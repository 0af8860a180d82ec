/** `get_converter_type` (main.py:216-261): which kind of converter handles
    a (source, target) pair of extensions, decided by membership in six
    category lists, first matching rule first. */
module Classifier {

  import opened Text
  import opened Formats
  import opened Catalog

  const ImageFormats: seq<Format> := [JPG, JPEG, PNG, GIF, BMP, TIFF, WEBP, ICO, PPM]
  const VideoFormats: seq<Format> := [MP4, AVI, MKV, WEBM, MOV, WMV, FLV, M4V, ThreeGP]
  const AudioFormats: seq<Format> := [MP3, WAV, FLAC, OGG, AAC, AIFF, M4A, WMA, AMR]
  const DocFormats: seq<Format> :=
    [DOCX, DOC, PDF, HTML, HTM, TXT, MD, MARKDOWN, RTF, EPUB, ODT, LATEX, TEX]
  const TableFormats: seq<Format> := [CSV, XLSX, XLS, JSON, XML, PARQUET, ODS]
  const PresentationFormats: seq<Format> := [PPTX, PPT, ODP]

  /** The converter kinds; `Tag` is the string the window returns. */
  datatype ConverterKind =
    | Image | Video | Audio | VideoToAudio | Document | Table | Presentation | DocToImage | Unknown
  {
    function Tag(): string
    {
      match this
      case Image => "image"
      case Video => "video"
      case Audio => "audio"
      case VideoToAudio => "video_to_audio"
      case Document => "document"
      case Table => "table"
      case Presentation => "presentation"
      case DocToImage => "doc_to_image"
      case Unknown => "unknown"
    }
  }

  /** Different kinds have different strings, so the string
      `get_converter_type` returns determines the kind. */
  lemma TagInjective(a: ConverterKind, b: ConverterKind)
    ensures a.Tag() == b.Tag() <==> a == b
  {
  }

  /** `get_converter_type`: both extensions are upper-cased, then
      classified; the method returns the `Tag` of the kind. */
  function ConverterType(inputFormat: string, outputFormat: string): ConverterKind
  {
    Classify(Upper(inputFormat), Upper(outputFormat))
  }

  /** The rules of `get_converter_type` on upper-cased extensions, tested
      against the category lists in the order of the source. */
  function Classify(i: string, o: string): ConverterKind
  {
    if i in Names(ImageFormats) && o in Names(ImageFormats) then Image
    else if i in Names(VideoFormats) && o in Names(VideoFormats) then Video
    else if i in Names(AudioFormats) && o in Names(AudioFormats) then Audio
    else if i in Names(VideoFormats) && o in Names(AudioFormats) then VideoToAudio
    else if i in Names(DocFormats) && o in Names(DocFormats) then Document
    else if i in Names(TableFormats) && o in Names(TableFormats) then Table
    else if i in Names(PresentationFormats) && o in Names(PresentationFormats) then Presentation
    else if i in Names(DocFormats + PresentationFormats) && o in Names(ImageFormats) then DocToImage
    else Unknown
  }

  lemma SectionOfImage(f: Format)
    requires f in ImageFormats
    ensures Section(f) == 0
  {
  }

  lemma SectionOfVideo(f: Format)
    requires f in VideoFormats
    ensures Section(f) == 1
  {
  }

  lemma SectionOfAudio(f: Format)
    requires f in AudioFormats
    ensures Section(f) == 2
  {
  }

  lemma SectionOfDoc(f: Format)
    requires f in DocFormats
    ensures Section(f) == 3
  {
  }

  lemma SectionOfTable(f: Format)
    requires f in TableFormats
    ensures Section(f) == 4
  {
  }

  lemma SectionOfPresentation(f: Format)
    requires f in PresentationFormats
    ensures Section(f) == 5
  {
  }

  /** No format is in two category lists. */
  lemma CategoriesDisjoint(f: Format)
    ensures f in ImageFormats ==>
      f !in VideoFormats && f !in AudioFormats && f !in DocFormats && f !in TableFormats && f !in PresentationFormats
    ensures f in VideoFormats ==>
      f !in AudioFormats && f !in DocFormats && f !in TableFormats && f !in PresentationFormats
    ensures f in AudioFormats ==> f !in DocFormats && f !in TableFormats && f !in PresentationFormats
    ensures f in DocFormats ==> f !in TableFormats && f !in PresentationFormats
    ensures f in TableFormats ==> f !in PresentationFormats
  {
    if f in ImageFormats { SectionOfImage(f); }
    if f in VideoFormats { SectionOfVideo(f); }
    if f in AudioFormats { SectionOfAudio(f); }
    if f in DocFormats { SectionOfDoc(f); }
    if f in TableFormats { SectionOfTable(f); }
    if f in PresentationFormats { SectionOfPresentation(f); }
  }

  /** A string is in no two category lists either. */
  lemma NamesDisjoint(s: string)
    ensures s in Names(ImageFormats) ==>
      s !in Names(VideoFormats) && s !in Names(AudioFormats) && s !in Names(DocFormats) &&
      s !in Names(TableFormats) && s !in Names(PresentationFormats)
    ensures s in Names(VideoFormats) ==>
      s !in Names(AudioFormats) && s !in Names(DocFormats) && s !in Names(TableFormats) &&
      s !in Names(PresentationFormats)
    ensures s in Names(AudioFormats) ==>
      s !in Names(DocFormats) && s !in Names(TableFormats) && s !in Names(PresentationFormats)
    ensures s in Names(DocFormats) ==> s !in Names(TableFormats) && s !in Names(PresentationFormats)
    ensures s in Names(TableFormats) ==> s !in Names(PresentationFormats)
    ensures s in Names(DocFormats + PresentationFormats) <==>
      s in Names(DocFormats) || s in Names(PresentationFormats)
  {
    NamesMember(s, ImageFormats);
    NamesMember(s, VideoFormats);
    NamesMember(s, AudioFormats);
    NamesMember(s, DocFormats);
    NamesMember(s, TableFormats);
    NamesMember(s, PresentationFormats);
    NamesMember(s, DocFormats + PresentationFormats);
    if Parse(s).Some? {
      CategoriesDisjoint(Parse(s).value);
    }
  }

  /** Because the lists are disjoint, each kind is decided by the categories
      of the two upper-cased extensions alone, both ways. */
  lemma ClassifySpec(i: string, o: string)
    ensures var k := Classify(i, o);
      && (k == Image <==> i in Names(ImageFormats) && o in Names(ImageFormats))
      && (k == Video <==> i in Names(VideoFormats) && o in Names(VideoFormats))
      && (k == Audio <==> i in Names(AudioFormats) && o in Names(AudioFormats))
      && (k == VideoToAudio <==> i in Names(VideoFormats) && o in Names(AudioFormats))
      && (k == Document <==> i in Names(DocFormats) && o in Names(DocFormats))
      && (k == Table <==> i in Names(TableFormats) && o in Names(TableFormats))
      && (k == Presentation <==> i in Names(PresentationFormats) && o in Names(PresentationFormats))
      && (k == DocToImage <==>
            (i in Names(DocFormats) || i in Names(PresentationFormats)) && o in Names(ImageFormats))
  {
    NamesDisjoint(i);
    NamesDisjoint(o);
  }

  /** The same for `get_converter_type` on extensions in any case. */
  lemma ConverterTypeSpec(inputFormat: string, outputFormat: string)
    ensures var i, o, k := Upper(inputFormat), Upper(outputFormat), ConverterType(inputFormat, outputFormat);
      && (k == Image <==> i in Names(ImageFormats) && o in Names(ImageFormats))
      && (k == Video <==> i in Names(VideoFormats) && o in Names(VideoFormats))
      && (k == Audio <==> i in Names(AudioFormats) && o in Names(AudioFormats))
      && (k == VideoToAudio <==> i in Names(VideoFormats) && o in Names(AudioFormats))
      && (k == Document <==> i in Names(DocFormats) && o in Names(DocFormats))
      && (k == Table <==> i in Names(TableFormats) && o in Names(TableFormats))
      && (k == Presentation <==> i in Names(PresentationFormats) && o in Names(PresentationFormats))
      && (k == DocToImage <==>
            (i in Names(DocFormats) || i in Names(PresentationFormats)) && o in Names(ImageFormats))
  {
    ClassifySpec(Upper(inputFormat), Upper(outputFormat));
  }

  /** The classification ignores the case of both extensions. */
  lemma ConverterTypeIgnoresCase(inputFormat: string, outputFormat: string)
    ensures ConverterType(Upper(inputFormat), Upper(outputFormat)) == ConverterType(inputFormat, outputFormat)
  {
    UpperIdempotent(inputFormat);
    UpperIdempotent(outputFormat);
  }

  /** The kinds that convert within one category do not depend on the
      direction of the conversion. */
  lemma SameCategoryKindsSymmetric(inputFormat: string, outputFormat: string)
    requires ConverterType(inputFormat, outputFormat) in {Image, Video, Audio, Document, Table, Presentation}
    ensures ConverterType(outputFormat, inputFormat) == ConverterType(inputFormat, outputFormat)
  {
    ConverterTypeSpec(inputFormat, outputFormat);
    ConverterTypeSpec(outputFormat, inputFormat);
  }

  /** Only formats that are keys of the catalog get a converter kind. */
  lemma ClassifiedSourceIsCatalogKey(inputFormat: string, outputFormat: string)
    requires ConverterType(inputFormat, outputFormat) != Unknown
    ensures Upper(inputFormat) in Names(MatrixKeys)
    ensures OutputFormats(inputFormat) != []
  {
    var i := Upper(inputFormat);
    NamesMember(i, ImageFormats);
    NamesMember(i, VideoFormats);
    NamesMember(i, AudioFormats);
    NamesMember(i, DocFormats + PresentationFormats);
    NamesMember(i, TableFormats);
    NamesMember(i, PresentationFormats);
    NamesMember(i, DocFormats);
    MatrixGetKeys(i);
    MatrixKeysComplete(Parse(i).value);
    OutputFormatsEmpty(inputFormat);
  }

  lemma ArchiveSection(f: Format)
    requires f in ArchiveKeys
    ensures Section(f) == 6
  {
  }

  /** Archives are in the catalog but in no category list, so no converter
      kind is ever chosen for them, in either role. */
  lemma ArchivesUnknown(inputFormat: string, outputFormat: string)
    requires Upper(inputFormat) in Names(ArchiveKeys) || Upper(outputFormat) in Names(ArchiveKeys)
    ensures ConverterType(inputFormat, outputFormat) == Unknown
  {
    forall s | s in Names(ArchiveKeys)
      ensures s !in Names(ImageFormats) && s !in Names(VideoFormats) && s !in Names(AudioFormats)
      ensures s !in Names(DocFormats) && s !in Names(TableFormats) && s !in Names(PresentationFormats)
    {
      NamesMember(s, ArchiveKeys);
      var f := Parse(s).value;
      ArchiveSection(f);
      NamesMember(s, ImageFormats);
      NamesMember(s, VideoFormats);
      NamesMember(s, AudioFormats);
      NamesMember(s, DocFormats);
      NamesMember(s, TableFormats);
      NamesMember(s, PresentationFormats);
      if f in ImageFormats { SectionOfImage(f); }
      if f in VideoFormats { SectionOfVideo(f); }
      if f in AudioFormats { SectionOfAudio(f); }
      if f in DocFormats { SectionOfDoc(f); }
      if f in TableFormats { SectionOfTable(f); }
      if f in PresentationFormats { SectionOfPresentation(f); }
    }
    ConverterTypeSpec(inputFormat, outputFormat);
  }

  lemma PdfPngKind(i: string, o: string)
    requires i == "PDF" && o == "PNG"
    ensures Classify(i, o) == DocToImage
  {
    assert Name(PDF) == "PDF" && Name(PNG) == "PNG";
    NameIn(PDF, DocFormats);
    NameIn(PNG, ImageFormats);
    ClassifySpec(i, o);
  }

  /** A PDF rendered to PNG is a document-to-image conversion. */
  lemma PdfToPngExample(inputFormat: string, outputFormat: string)
    requires Upper(inputFormat) == "PDF" && Upper(outputFormat) == "PNG"
    ensures ConverterType(inputFormat, outputFormat) == DocToImage
    ensures ConverterType(inputFormat, outputFormat).Tag() == "doc_to_image"
  {
    PdfPngKind(Upper(inputFormat), Upper(outputFormat));
  }

  lemma Mp4Mp3Kind(i: string, o: string)
    requires i == "MP4" && o == "MP3"
    ensures Classify(i, o) == VideoToAudio
  {
    assert Name(MP4) == "MP4" && Name(MP3) == "MP3";
    NameIn(MP4, VideoFormats);
    NameIn(MP3, AudioFormats);
    ClassifySpec(i, o);
  }

  /** Extracting MP3 audio from MP4 video is video-to-audio. */
  lemma Mp4ToMp3Example(inputFormat: string, outputFormat: string)
    requires Upper(inputFormat) == "MP4" && Upper(outputFormat) == "MP3"
    ensures ConverterType(inputFormat, outputFormat) == VideoToAudio
    ensures ConverterType(inputFormat, outputFormat).Tag() == "video_to_audio"
  {
    Mp4Mp3Kind(Upper(inputFormat), Upper(outputFormat));
  }

  lemma Mp4GifKind(i: string, o: string)
    requires i == "MP4" && o == "GIF"
    ensures Classify(i, o) == Unknown
  {
    assert Name(MP4) == "MP4" && Name(GIF) == "GIF";
    NameIn(MP4, VideoFormats);
    NameIn(GIF, ImageFormats);
    NamesDisjoint(i);
    NamesDisjoint(o);
    ClassifySpec(i, o);
  }

  /** The catalog offers GIF for an MP4 file, but GIF is only in the image
      list, so no converter kind exists for that pair. */
  lemma Mp4ToGifOfferedButUnknown(inputFormat: string, outputFormat: string)
    requires Upper(inputFormat) == "MP4" && Upper(outputFormat) == "GIF"
    ensures Upper(outputFormat) in OutputFormats(inputFormat)
    ensures ConverterType(inputFormat, outputFormat) == Unknown
    ensures ConverterType(inputFormat, outputFormat).Tag() == "unknown"
  {
    VideoKeyTargets(Upper(inputFormat));
    Mp4GifKind(Upper(inputFormat), Upper(outputFormat));
  }
}
