/** The conversion catalog: the `matrix` and `special_conversions`
    dictionaries of the window (main.py:22-104), the lookup
    `get_output_formats` (main.py:200-214) and the list the "show all
    formats" option builds from every matrix row (main.py:189-193). */
module Catalog {

  import opened Wrappers
  import opened Text
  import opened Seqs
  import opened Formats

  /** The keys of `matrix` in the order the dictionary lists them, section
      by section. */
  const MatrixKeys: seq<Format> :=
    ImageKeys + VideoKeys + AudioKeys + DocumentKeys + TableKeys + PresentationKeys + ArchiveKeys

  const ImageKeys: seq<Format> := [JPG, JPEG, PNG, GIF, BMP, TIFF, WEBP, ICO, PPM]
  const VideoKeys: seq<Format> := [MP4, AVI, MKV, WEBM, MOV, WMV, FLV, M4V, ThreeGP]
  const AudioKeys: seq<Format> := [MP3, WAV, FLAC, OGG, AAC, AIFF, M4A, WMA, AMR]
  const DocumentKeys: seq<Format> := [DOCX, DOC, PDF, HTML, HTM, TXT, MD, MARKDOWN, RTF, EPUB, ODT, LATEX, TEX]
  const TableKeys: seq<Format> := [CSV, XLSX, XLS, JSON, XML, PARQUET, ODS]
  const PresentationKeys: seq<Format> := [PPTX, PPT, ODP]
  const ArchiveKeys: seq<Format> := [ZIP, TAR, GZ, RAR, SevenZ]

  /** The row of `matrix` for a key: the targets offered for it. */
  function MatrixRow(f: Format): seq<Format>
  {
    match f
    case JPG => [PNG, GIF, BMP, TIFF, PDF, WEBP, ICO, PPM]
    case JPEG => [PNG, GIF, BMP, TIFF, PDF, WEBP, ICO, PPM]
    case PNG => [JPG, GIF, BMP, TIFF, PDF, WEBP, ICO, PPM]
    case GIF => [JPG, PNG, BMP, TIFF, PDF, WEBP, ICO, PPM]
    case BMP => [JPG, PNG, GIF, TIFF, PDF, WEBP, ICO, PPM]
    case TIFF => [JPG, PNG, GIF, BMP, PDF, WEBP, ICO, PPM]
    case WEBP => [JPG, PNG, GIF, BMP, TIFF, PDF, ICO, PPM]
    case ICO => [JPG, PNG, GIF, BMP, TIFF, PDF, WEBP, PPM]
    case PPM => [JPG, PNG, GIF, BMP, TIFF, PDF, WEBP, ICO]
    case MP4 => [AVI, GIF, MKV, WEBM, MOV, WMV, MP3, WAV]
    case AVI => [MP4, GIF, MKV, WEBM, MOV, WMV, MP3, WAV]
    case MKV => [MP4, AVI, GIF, WEBM, MOV, WMV, MP3, WAV]
    case WEBM => [MP4, AVI, GIF, MKV, MOV, WMV, MP3, WAV]
    case MOV => [MP4, AVI, GIF, MKV, WEBM, WMV, MP3, WAV]
    case WMV => [MP4, AVI, GIF, MKV, WEBM, MOV, MP3, WAV]
    case FLV => [MP4, AVI, GIF, MKV, WEBM, MOV, WMV, MP3, WAV]
    case M4V => [MP4, AVI, GIF, MKV, WEBM, MOV, WMV, MP3, WAV]
    case ThreeGP => [MP4, AVI, GIF, MKV, WEBM, MOV, WMV, MP3, WAV]
    case MP3 => [WAV, FLAC, OGG, AAC, AIFF, M4A]
    case WAV => [MP3, FLAC, OGG, AAC, AIFF, M4A]
    case FLAC => [MP3, WAV, OGG, AAC, AIFF, M4A]
    case OGG => [MP3, WAV, FLAC, AAC, AIFF, M4A]
    case AAC => [MP3, WAV, FLAC, OGG, AIFF, M4A]
    case AIFF => [MP3, WAV, FLAC, OGG, AAC, M4A]
    case M4A => [MP3, WAV, FLAC, OGG, AAC, AIFF]
    case WMA => [MP3, WAV, FLAC, OGG, AAC, AIFF, M4A]
    case AMR => [MP3, WAV, FLAC, OGG, AAC, AIFF, M4A]
    case DOCX => [PDF, HTML, TXT, MD, RTF, EPUB]
    case DOC => [PDF, HTML, TXT, MD, RTF, DOCX, EPUB]
    case PDF => [DOCX, HTML, TXT, MD, RTF, JPG, PNG, EPUB]
    case HTML => [PDF, DOCX, TXT, MD, RTF, EPUB]
    case HTM => [PDF, DOCX, TXT, MD, RTF, HTML, EPUB]
    case TXT => [PDF, DOCX, HTML, MD, RTF, EPUB]
    case MD => [PDF, DOCX, HTML, TXT, RTF, EPUB]
    case MARKDOWN => [PDF, DOCX, HTML, TXT, RTF, EPUB]
    case RTF => [PDF, DOCX, HTML, TXT, MD, EPUB]
    case EPUB => [PDF, DOCX, HTML, TXT, MD, RTF]
    case ODT => [PDF, DOCX, HTML, TXT, MD, RTF, EPUB]
    case LATEX => [PDF, TXT, HTML]
    case TEX => [PDF, TXT, HTML]
    case CSV => [XLSX, JSON, HTML, XML, PDF, PARQUET]
    case XLSX => [CSV, JSON, HTML, XML, PDF, PARQUET]
    case XLS => [CSV, XLSX, JSON, HTML, XML, PDF, PARQUET]
    case JSON => [CSV, XLSX, HTML, XML, PDF, PARQUET]
    case XML => [CSV, XLSX, JSON, HTML, PDF, PARQUET]
    case PARQUET => [CSV, XLSX, JSON, HTML, XML, PDF]
    case ODS => [CSV, XLSX, JSON, HTML, XML, PDF, PARQUET]
    case PPTX => [PDF, HTML, JPG, PNG]
    case PPT => [PDF, HTML, JPG, PNG, PPTX]
    case ODP => [PDF, HTML, JPG, PNG, PPTX]
    case ZIP => [TAR, GZ, RAR]
    case TAR => [ZIP, GZ]
    case GZ => [ZIP, TAR]
    case RAR => [ZIP, TAR]
    case SevenZ => [ZIP, TAR]
  }

  /** The keys of `special_conversions`, in order. */
  const SpecialKeys: seq<Format> := [MP4, AVI, MKV, PDF, DOCX, PPTX]

  /** The row of `special_conversions` for a key, and `[]` for the
      formats that are not keys of it. */
  function SpecialRow(f: Format): seq<Format>
  {
    match f
    case MP4 => [MP3, WAV]
    case AVI => [MP3, WAV]
    case MKV => [MP3, WAV]
    case PDF => [JPG, PNG, TIFF]
    case DOCX => [JPG, PNG]
    case PPTX => [JPG, PNG]
    case _ => []
  }

  /** `matrix.get(key, [])`: the row of `key` as strings, `[]` when `key` is
      not a key. Every format is a key of `matrix`. */
  function MatrixGet(key: string): seq<string>
  {
    match Parse(key)
    case None => []
    case Some(f) => Names(MatrixRow(f))
  }

  /** `special_conversions.get(key, [])`. */
  function SpecialGet(key: string): seq<string>
  {
    match Parse(key)
    case None => []
    case Some(f) => Names(SpecialRow(f))
  }

  lemma ImageKeysListed(f: Format)
    requires Section(f) == 0
    ensures f in ImageKeys
  {
  }

  lemma VideoKeysListed(f: Format)
    requires Section(f) == 1
    ensures f in VideoKeys
  {
  }

  lemma AudioKeysListed(f: Format)
    requires Section(f) == 2
    ensures f in AudioKeys
  {
  }

  lemma DocumentKeysListed(f: Format)
    requires Section(f) == 3
    ensures f in DocumentKeys
  {
  }

  lemma TableKeysListed(f: Format)
    requires Section(f) == 4
    ensures f in TableKeys
  {
  }

  lemma PresentationKeysListed(f: Format)
    requires Section(f) == 5
    ensures f in PresentationKeys
  {
  }

  lemma ArchiveKeysListed(f: Format)
    requires Section(f) == 6
    ensures f in ArchiveKeys
  {
  }

  lemma MatrixRowNonEmpty(f: Format)
    ensures MatrixRow(f) != []
  {
  }

  /** Every format is a key of `matrix`. */
  lemma MatrixKeysComplete(f: Format)
    ensures f in MatrixKeys && MatrixRow(f) != []
  {
    MatrixRowNonEmpty(f);
    if Section(f) == 0 { ImageKeysListed(f); }
    if Section(f) == 1 { VideoKeysListed(f); }
    if Section(f) == 2 { AudioKeysListed(f); }
    if Section(f) == 3 { DocumentKeysListed(f); }
    if Section(f) == 4 { TableKeysListed(f); }
    if Section(f) == 5 { PresentationKeysListed(f); }
    if Section(f) == 6 { ArchiveKeysListed(f); }
  }

  /** The lookup finds a row exactly for the keys `matrix` lists. */
  lemma MatrixGetKeys(key: string)
    ensures MatrixGet(key) != [] <==> key in Names(MatrixKeys)
  {
    NamesMember(key, MatrixKeys);
    if Parse(key).Some? {
      MatrixKeysComplete(Parse(key).value);
    }
  }

  /** `special_conversions` has a row exactly for its listed keys. */
  lemma SpecialKeysExact(key: string)
    ensures SpecialGet(key) != [] <==> key in Names(SpecialKeys)
  {
    NamesMember(key, SpecialKeys);
  }

  /** `get_output_formats` once the extension is upper-cased: the rows of
      `key` in both tables, joined, each format once, sorted. */
  function Targets(key: string): (r: seq<string>)
    ensures StrictlyAscending(r)
    ensures forall y :: y in r <==> y in MatrixGet(key) || y in SpecialGet(key)
  {
    SortedDistinct(MatrixGet(key) + SpecialGet(key))
  }

  /** The result is the one ascending list of the formats in the two rows;
      it does not depend on how the sorting is done. */
  lemma TargetsUnique(key: string, r: seq<string>)
    requires StrictlyAscending(r)
    requires forall y :: y in r <==> y in MatrixGet(key) || y in SpecialGet(key)
    ensures r == Targets(key)
  {
    AscendingUnique(r, Targets(key));
  }

  /** `get_output_formats`: the upper-cased extension is looked up in both
      tables, and the union of the two rows is returned sorted, each format
      once. */
  function OutputFormats(inputFormat: string): (r: seq<string>)
    ensures StrictlyAscending(r)
    ensures forall y :: y in r <==> y in MatrixGet(Upper(inputFormat)) || y in SpecialGet(Upper(inputFormat))
  {
    Targets(Upper(inputFormat))
  }

  /** Any strictly ascending list of the union is the result. */
  lemma OutputFormatsUnique(inputFormat: string, r: seq<string>)
    requires StrictlyAscending(r)
    requires forall y :: y in r <==> y in MatrixGet(Upper(inputFormat)) || y in SpecialGet(Upper(inputFormat))
    ensures r == OutputFormats(inputFormat)
  {
    TargetsUnique(Upper(inputFormat), r);
  }

  /** The lookup ignores the case of the extension. */
  lemma OutputFormatsIgnoreCase(inputFormat: string)
    ensures OutputFormats(Upper(inputFormat)) == OutputFormats(inputFormat)
  {
    UpperIdempotent(inputFormat);
  }

  // RowsAvoidTheirKey is proved over the matrix in four parts by section, so
  // that each proof stays within the solver's resource budget.
  lemma MatrixRowAvoidsKeyImage(f: Format)
    requires Section(f) == 0
    ensures f !in MatrixRow(f)
  {
  }

  lemma MatrixRowAvoidsKeyVideo(f: Format)
    requires Section(f) == 1
    ensures f !in MatrixRow(f)
  {
  }

  lemma MatrixRowAvoidsKeyAudioDocs(f: Format)
    requires 2 <= Section(f) <= 3
    ensures f !in MatrixRow(f)
  {
  }

  lemma MatrixRowAvoidsKeyRest(f: Format)
    requires 4 <= Section(f)
    ensures f !in MatrixRow(f)
  {
  }

  lemma SpecialRowAvoidsKey(f: Format)
    ensures f !in SpecialRow(f)
  {
  }

  /** No row of either table lists its own key. */
  lemma RowsAvoidTheirKey(f: Format)
    ensures f !in MatrixRow(f) && f !in SpecialRow(f)
  {
    if Section(f) == 0 {
      MatrixRowAvoidsKeyImage(f);
    } else if Section(f) == 1 {
      MatrixRowAvoidsKeyVideo(f);
    } else if Section(f) <= 3 {
      MatrixRowAvoidsKeyAudioDocs(f);
    } else {
      MatrixRowAvoidsKeyRest(f);
    }
    SpecialRowAvoidsKey(f);
  }

  /** A file is never offered its own format, whether the extension is
      compared upper-cased or as typed. */
  lemma OutputFormatsExcludeSource(inputFormat: string)
    ensures Upper(inputFormat) !in OutputFormats(inputFormat)
    ensures inputFormat !in OutputFormats(inputFormat)
  {
    var key := Upper(inputFormat);
    if Parse(key).Some? {
      var f := Parse(key).value;
      RowsAvoidTheirKey(f);
      NameParse(key);
      NamesMember(key, MatrixRow(f));
      NamesMember(key, SpecialRow(f));
      if inputFormat in OutputFormats(inputFormat) {
        var g := Parse(inputFormat);
        NamesMember(inputFormat, MatrixRow(f));
        NamesMember(inputFormat, SpecialRow(f));
        NameParse(inputFormat);
        NameIsUpper(g.value);
      }
    }
  }

  /** Nothing is offered exactly when the upper-cased extension is a key of
      neither table. */
  lemma OutputFormatsEmpty(inputFormat: string)
    ensures OutputFormats(inputFormat) == [] <==>
      Upper(inputFormat) !in Names(MatrixKeys) && Upper(inputFormat) !in Names(SpecialKeys)
  {
    var key := Upper(inputFormat);
    MatrixGetKeys(key);
    SpecialKeysExact(key);
    assert MatrixGet(key) != [] ==> MatrixGet(key)[0] in OutputFormats(inputFormat);
  }

  /** Looking up a token's own text finds that token's rows. */
  lemma LookupName(f: Format)
    ensures MatrixGet(Name(f)) == Names(MatrixRow(f))
    ensures SpecialGet(Name(f)) == Names(SpecialRow(f))
  {
    ParseName(f);
  }

  /** A key's text finds a format in its looked-up rows exactly when the
      rows list it. */
  lemma RowMember(key: string, f: Format, g: Format)
    requires key == Name(f)
    ensures Name(g) in MatrixGet(key) <==> g in MatrixRow(f)
    ensures Name(g) in SpecialGet(key) <==> g in SpecialRow(f)
  {
    LookupName(f);
    ParseName(g);
    NamesMember(Name(g), MatrixRow(f));
    NamesMember(Name(g), SpecialRow(f));
  }

  /** A target is offered for a key exactly when one of the key's rows
      lists it. */
  lemma OfferedFor(key: string, f: Format, g: Format)
    requires key == Name(f)
    ensures Name(g) in Targets(key) <==> g in MatrixRow(f) || g in SpecialRow(f)
  {
    RowMember(key, f, g);
  }

  lemma ArchiveTargetNames()
    ensures Names([ZIP, TAR]) == ["ZIP", "TAR"]
  {
  }

  lemma ArchiveKeyTargets(key: string)
    requires key == "7Z"
    ensures Targets(key) == ["TAR", "ZIP"]
  {
    assert Name(SevenZ) == "7Z";
    LookupName(SevenZ);
    ArchiveTargetNames();
    assert MatrixRow(SevenZ) == [ZIP, TAR] && SpecialRow(SevenZ) == [];
    AscendingByNeighbours(["TAR", "ZIP"]);
    TargetsUnique(key, ["TAR", "ZIP"]);
  }

  /** `7Z` is a key of `matrix` only: any spelling of it is offered the
      two other archive formats, sorted. */
  lemma ArchiveExample(ext: string)
    requires Upper(ext) == "7Z"
    ensures OutputFormats(ext) == ["TAR", "ZIP"]
  {
    ArchiveKeyTargets(Upper(ext));
  }

  lemma UnknownKeyTargets(key: string)
    requires key == "XYZ"
    ensures Targets(key) == []
  {
    assert Parse(key) == None;
  }

  /** `XYZ` is a key of neither table. */
  lemma UnknownExample(ext: string)
    requires Upper(ext) == "XYZ"
    ensures OutputFormats(ext) == []
  {
    UnknownKeyTargets(Upper(ext));
  }

  lemma VideoTargetNames()
    ensures Names([AVI, GIF, MKV, WEBM]) == ["AVI", "GIF", "MKV", "WEBM"]
    ensures Names([MOV, WMV, MP3, WAV]) == ["MOV", "WMV", "MP3", "WAV"]
  {
  }

  /** The two rows of MP4, as strings. */
  lemma VideoRows()
    ensures MatrixGet(Name(MP4)) == ["AVI", "GIF", "MKV", "WEBM", "MOV", "WMV", "MP3", "WAV"]
    ensures SpecialGet(Name(MP4)) == ["MP3", "WAV"]
  {
    LookupName(MP4);
    VideoTargetNames();
    NamesAppend([AVI, GIF, MKV, WEBM], [MOV, WMV, MP3, WAV]);
    NamesAppend([MP3], [WAV]);
    assert MatrixRow(MP4) == [AVI, GIF, MKV, WEBM] + [MOV, WMV, MP3, WAV];
    assert SpecialRow(MP4) == [MP3] + [WAV];
  }

  lemma VideoTargetsAscending()
    ensures StrictlyAscending(["AVI", "GIF", "MKV", "MOV", "MP3", "WAV", "WEBM", "WMV"])
  {
    var s := ["AVI", "GIF", "MKV", "MOV", "MP3", "WAV", "WEBM", "WMV"];
    assert Less(s[0], s[1]) && Less(s[1], s[2]) && Less(s[2], s[3]) && Less(s[3], s[4]);
    assert Less(s[4], s[5]) && Less(s[5], s[6]) && Less(s[6], s[7]);
    AscendingByNeighbours(s);
  }

  lemma VideoKeyTargets(key: string)
    requires key == "MP4"
    ensures Targets(key) == ["AVI", "GIF", "MKV", "MOV", "MP3", "WAV", "WEBM", "WMV"]
  {
    assert Name(MP4) == "MP4";
    VideoRows();
    VideoTargetsAscending();
    TargetsUnique(key, ["AVI", "GIF", "MKV", "MOV", "MP3", "WAV", "WEBM", "WMV"]);
  }

  /** A video file is offered its matrix row, sorted; the audio targets that
      `special_conversions` adds are already in that row. */
  lemma VideoExample(ext: string)
    requires Upper(ext) == "MP4"
    ensures OutputFormats(ext) == ["AVI", "GIF", "MKV", "MOV", "MP3", "WAV", "WEBM", "WMV"]
  {
    VideoKeyTargets(Upper(ext));
  }

  lemma LatexPdfKeyTargets(latex: string, pdf: string)
    requires latex == "LATEX" && pdf == "PDF"
    ensures "PDF" in Targets(latex) && "LATEX" !in Targets(pdf)
  {
    assert Name(LATEX) == "LATEX" && Name(PDF) == "PDF";
    assert PDF in MatrixRow(LATEX) && LATEX !in MatrixRow(PDF) && LATEX !in SpecialRow(PDF);
    OfferedFor(latex, LATEX, PDF);
    OfferedFor(pdf, PDF, LATEX);
  }

  /** The catalog is not symmetric: LATEX reaches PDF, PDF does not reach
      LATEX. */
  lemma LatexPdfAsymmetric(latex: string, pdf: string)
    requires Upper(latex) == "LATEX" && Upper(pdf) == "PDF"
    ensures "PDF" in OutputFormats(latex) && "LATEX" !in OutputFormats(pdf)
  {
    LatexPdfKeyTargets(Upper(latex), Upper(pdf));
  }

  lemma PdfKeyTargets(key: string)
    requires key == "PDF"
    ensures "TIFF" in Targets(key) && "TIFF" !in MatrixGet(key)
  {
    assert Name(PDF) == "PDF" && Name(TIFF) == "TIFF";
    assert TIFF in SpecialRow(PDF) && TIFF !in MatrixRow(PDF);
    OfferedFor(key, PDF, TIFF);
    RowMember(key, PDF, TIFF);
  }

  /** PDF reaches TIFF only through `special_conversions`. */
  lemma PdfToTiffOnlySpecial(ext: string)
    requires Upper(ext) == "PDF"
    ensures "TIFF" in OutputFormats(ext) && "TIFF" !in MatrixGet(Upper(ext))
  {
    PdfKeyTargets(Upper(ext));
  }

  /** The rows of `matrix` as strings, in the order of its keys. */
  function MatrixValueRows(): seq<seq<string>>
  {
    seq(|MatrixKeys|, i requires 0 <= i < |MatrixKeys| => Names(MatrixRow(MatrixKeys[i])))
  }

  /** The list the "show all formats" option shows: each value of the
      matrix rows once, in order of first occurrence. */
  function AllFormats(): seq<string>
  {
    Distinct(Flatten(MatrixValueRows()))
  }

  lemma ValueRow(i: nat)
    requires i < |MatrixKeys|
    ensures |MatrixValueRows()| == |MatrixKeys|
    ensures MatrixValueRows()[i] == Names(MatrixRow(MatrixKeys[i]))
  {
  }

  /** Whatever the list holds, some matrix row offers. */
  lemma AllFormatsFromRow(s: string)
    requires s in AllFormats()
    ensures Parse(s).Some? && exists f :: Parse(s).value in MatrixRow(f)
  {
    var rows := MatrixValueRows();
    var i :| 0 <= i < |rows| && s in rows[i];
    ValueRow(i);
    NamesMember(s, MatrixRow(MatrixKeys[i]));
  }

  /** Whatever a matrix row offers, the list holds. */
  lemma AllFormatsOfRow(s: string, f: Format)
    requires Parse(s).Some? && Parse(s).value in MatrixRow(f)
    ensures s in AllFormats()
  {
    MatrixKeysComplete(f);
    var i :| 0 <= i < |MatrixKeys| && MatrixKeys[i] == f;
    ValueRow(i);
    NamesMember(s, MatrixRow(f));
    assert s in MatrixValueRows()[i];
  }

  /** The list holds exactly the formats that some matrix row offers;
      `special_conversions` plays no part. */
  lemma AllFormatsMembers(s: string)
    ensures s in AllFormats() <==> Parse(s).Some? && exists f :: Parse(s).value in MatrixRow(f)
  {
    if s in AllFormats() {
      AllFormatsFromRow(s);
    }
    if Parse(s).Some? && exists f :: Parse(s).value in MatrixRow(f) {
      var f :| Parse(s).value in MatrixRow(f);
      AllFormatsOfRow(s, f);
    }
  }

  // JpegNeverATarget is proved in three parts by section, so that each proof
  // stays within the solver's resource budget.
  lemma JpegNeverATargetMedia(f: Format)
    requires Section(f) <= 1
    ensures JPEG !in MatrixRow(f)
  {
  }

  lemma JpegNeverATargetAudio(f: Format)
    requires Section(f) == 2
    ensures JPEG !in MatrixRow(f)
  {
  }

  lemma JpegNeverATargetHigh(f: Format)
    requires 3 <= Section(f)
    ensures JPEG !in MatrixRow(f)
  {
  }

  lemma JpegNeverATarget(f: Format)
    ensures JPEG !in MatrixRow(f)
  {
    if Section(f) <= 1 {
      JpegNeverATargetMedia(f);
    } else if Section(f) == 2 {
      JpegNeverATargetAudio(f);
    } else {
      JpegNeverATargetHigh(f);
    }
  }

  lemma ZipIsTarTarget()
    ensures Parse("ZIP") == Some(ZIP) && ZIP in MatrixRow(TAR)
  {
    ParseName(ZIP);
  }

  /** The "show all formats" list offers ZIP, a target of the TAR row. */
  lemma ZipInAllFormats()
    ensures "ZIP" in AllFormats()
  {
    ZipIsTarTarget();
    AllFormatsMembers("ZIP");
  }

  lemma DocxKeyTargets(key: string)
    requires key == "DOCX"
    ensures "ZIP" !in Targets(key)
  {
    assert Name(DOCX) == "DOCX" && Name(ZIP) == "ZIP";
    assert ZIP !in MatrixRow(DOCX) && ZIP !in SpecialRow(DOCX);
    OfferedFor(key, DOCX, ZIP);
  }

  /** A DOCX file cannot reach ZIP. */
  lemma ZipNotFromDocx(ext: string)
    requires Upper(ext) == "DOCX"
    ensures "ZIP" !in OutputFormats(ext)
  {
    DocxKeyTargets(Upper(ext));
  }

  /** The "show all formats" list leaves out JPEG, a key that no row lists
      as a target. */
  lemma JpegNotInAllFormats()
    ensures "JPEG" !in AllFormats()
  {
    AllFormatsMembers("JPEG");
    forall f ensures JPEG !in MatrixRow(f) {
      JpegNeverATarget(f);
    }
  }
}
