/** The vocabulary of file-type tokens the window knows: the 55 keys of its
    conversion matrix. Every target listed in the matrix or in the special
    conversions, and every entry of the classifier's category lists, is one
    of these keys. The window itself works with strings; `Name` gives the
    token's text and `Parse` recognises it. */
module Formats {

  import opened Wrappers
  import opened Text

  datatype Format =
      JPG | JPEG | PNG | GIF | BMP | TIFF | WEBP | ICO | PPM
    | MP4 | AVI | MKV | WEBM | MOV | WMV | FLV | M4V | ThreeGP
    | MP3 | WAV | FLAC | OGG | AAC | AIFF | M4A | WMA | AMR
    | DOCX | DOC | PDF | HTML | HTM | TXT | MD | MARKDOWN | RTF | EPUB | ODT | LATEX | TEX
    | CSV | XLSX | XLS | JSON | XML | PARQUET | ODS
    | PPTX | PPT | ODP
    | ZIP | TAR | GZ | RAR | SevenZ

  /** The token's text, upper case, as it appears in the tables. */
  function Name(f: Format): string
  {
    match f
    case JPG => "JPG"
    case JPEG => "JPEG"
    case PNG => "PNG"
    case GIF => "GIF"
    case BMP => "BMP"
    case TIFF => "TIFF"
    case WEBP => "WEBP"
    case ICO => "ICO"
    case PPM => "PPM"
    case MP4 => "MP4"
    case AVI => "AVI"
    case MKV => "MKV"
    case WEBM => "WEBM"
    case MOV => "MOV"
    case WMV => "WMV"
    case FLV => "FLV"
    case M4V => "M4V"
    case ThreeGP => "3GP"
    case MP3 => "MP3"
    case WAV => "WAV"
    case FLAC => "FLAC"
    case OGG => "OGG"
    case AAC => "AAC"
    case AIFF => "AIFF"
    case M4A => "M4A"
    case WMA => "WMA"
    case AMR => "AMR"
    case DOCX => "DOCX"
    case DOC => "DOC"
    case PDF => "PDF"
    case HTML => "HTML"
    case HTM => "HTM"
    case TXT => "TXT"
    case MD => "MD"
    case MARKDOWN => "MARKDOWN"
    case RTF => "RTF"
    case EPUB => "EPUB"
    case ODT => "ODT"
    case LATEX => "LATEX"
    case TEX => "TEX"
    case CSV => "CSV"
    case XLSX => "XLSX"
    case XLS => "XLS"
    case JSON => "JSON"
    case XML => "XML"
    case PARQUET => "PARQUET"
    case ODS => "ODS"
    case PPTX => "PPTX"
    case PPT => "PPT"
    case ODP => "ODP"
    case ZIP => "ZIP"
    case TAR => "TAR"
    case GZ => "GZ"
    case RAR => "RAR"
    case SevenZ => "7Z"
  }

  /** The section of the matrix a token's key sits in: 0 images, 1 video,
      2 audio, 3 documents, 4 tables, 5 presentations, 6 archives. */
  function Section(f: Format): nat
  {
    match f
    case JPG | JPEG | PNG | GIF | BMP | TIFF | WEBP | ICO | PPM => 0
    case MP4 | AVI | MKV | WEBM | MOV | WMV | FLV | M4V | ThreeGP => 1
    case MP3 | WAV | FLAC | OGG | AAC | AIFF | M4A | WMA | AMR => 2
    case DOCX | DOC | PDF | HTML | HTM | TXT | MD | MARKDOWN | RTF | EPUB | ODT | LATEX | TEX => 3
    case CSV | XLSX | XLS | JSON | XML | PARQUET | ODS => 4
    case PPTX | PPT | ODP => 5
    case ZIP | TAR | GZ | RAR | SevenZ => 6
  }

  /** The token whose text is exactly `s`, if any. The texts are sorted by
      their first letter first, which keeps each comparison chain short. */
  function Parse(s: string): Option<Format>
  {
    if s == [] then None
    else match s[0]
      case 'J' =>
        (match s
        case "JPG" => Some(JPG)
        case "JPEG" => Some(JPEG)
        case "JSON" => Some(JSON)
        case _ => None)
      case 'P' =>
        (match s
        case "PNG" => Some(PNG)
        case "PPM" => Some(PPM)
        case "PDF" => Some(PDF)
        case "PARQUET" => Some(PARQUET)
        case "PPTX" => Some(PPTX)
        case "PPT" => Some(PPT)
        case _ => None)
      case 'G' =>
        (match s
        case "GIF" => Some(GIF)
        case "GZ" => Some(GZ)
        case _ => None)
      case 'B' =>
        (match s
        case "BMP" => Some(BMP)
        case _ => None)
      case 'T' =>
        (match s
        case "TIFF" => Some(TIFF)
        case "TXT" => Some(TXT)
        case "TEX" => Some(TEX)
        case "TAR" => Some(TAR)
        case _ => None)
      case 'W' =>
        (match s
        case "WEBP" => Some(WEBP)
        case "WEBM" => Some(WEBM)
        case "WMV" => Some(WMV)
        case "WAV" => Some(WAV)
        case "WMA" => Some(WMA)
        case _ => None)
      case 'I' =>
        (match s
        case "ICO" => Some(ICO)
        case _ => None)
      case 'M' =>
        (match s
        case "MP4" => Some(MP4)
        case "MKV" => Some(MKV)
        case "MOV" => Some(MOV)
        case "M4V" => Some(M4V)
        case "MP3" => Some(MP3)
        case "M4A" => Some(M4A)
        case "MD" => Some(MD)
        case "MARKDOWN" => Some(MARKDOWN)
        case _ => None)
      case 'A' =>
        (match s
        case "AVI" => Some(AVI)
        case "AAC" => Some(AAC)
        case "AIFF" => Some(AIFF)
        case "AMR" => Some(AMR)
        case _ => None)
      case 'F' =>
        (match s
        case "FLV" => Some(FLV)
        case "FLAC" => Some(FLAC)
        case _ => None)
      case '3' =>
        (match s
        case "3GP" => Some(ThreeGP)
        case _ => None)
      case 'O' =>
        (match s
        case "OGG" => Some(OGG)
        case "ODT" => Some(ODT)
        case "ODS" => Some(ODS)
        case "ODP" => Some(ODP)
        case _ => None)
      case 'D' =>
        (match s
        case "DOCX" => Some(DOCX)
        case "DOC" => Some(DOC)
        case _ => None)
      case 'H' =>
        (match s
        case "HTML" => Some(HTML)
        case "HTM" => Some(HTM)
        case _ => None)
      case 'R' =>
        (match s
        case "RTF" => Some(RTF)
        case "RAR" => Some(RAR)
        case _ => None)
      case 'E' =>
        (match s
        case "EPUB" => Some(EPUB)
        case _ => None)
      case 'L' =>
        (match s
        case "LATEX" => Some(LATEX)
        case _ => None)
      case 'C' =>
        (match s
        case "CSV" => Some(CSV)
        case _ => None)
      case 'X' =>
        (match s
        case "XLSX" => Some(XLSX)
        case "XLS" => Some(XLS)
        case "XML" => Some(XML)
        case _ => None)
      case 'Z' =>
        (match s
        case "ZIP" => Some(ZIP)
        case _ => None)
      case '7' =>
        (match s
        case "7Z" => Some(SevenZ)
        case _ => None)
      case _ => None
  }

  /** The texts of a list of tokens, in the same order. */
  function Names(fs: seq<Format>): seq<string>
  {
    seq(|fs|, i requires 0 <= i < |fs| => Name(fs[i]))
  }

  /** The texts of two lists joined are the texts of each, joined. */
  lemma NamesAppend(fs: seq<Format>, gs: seq<Format>)
    ensures Names(fs + gs) == Names(fs) + Names(gs)
  {
  }

  // ParseName is proved in three parts by section, one per helper, so that
  // each proof stays within the solver's resource budget.

  /** Every token is recognised from its own text. */
  lemma ParseNameMedia(f: Format)
    requires Section(f) <= 1
    ensures Parse(Name(f)) == Some(f)
  {
  }

  lemma ParseNameAudioDocs(f: Format)
    requires 2 <= Section(f) <= 3
    ensures Parse(Name(f)) == Some(f)
  {
  }

  lemma ParseNameRest(f: Format)
    requires 4 <= Section(f)
    ensures Parse(Name(f)) == Some(f)
  {
  }

  /** Every token is recognised from its own text. */
  lemma ParseName(f: Format)
    ensures Parse(Name(f)) == Some(f)
  {
    if Section(f) <= 1 {
      ParseNameMedia(f);
    } else if Section(f) <= 3 {
      ParseNameAudioDocs(f);
    } else {
      ParseNameRest(f);
    }
  }

  // NameParse is proved in five parts by the text's first character, so
  // that each proof stays within the solver's resource budget.
  lemma NameParseDigits(s: string)
    requires s != [] && '0' <= s[0] <= 'F'
    ensures Parse(s).Some? ==> Name(Parse(s).value) == s
  {
  }

  lemma NameParseGToL(s: string)
    requires s != [] && 'G' <= s[0] <= 'L'
    ensures Parse(s).Some? ==> Name(Parse(s).value) == s
  {
  }

  lemma NameParseMToO(s: string)
    requires s != [] && 'M' <= s[0] <= 'O'
    ensures Parse(s).Some? ==> Name(Parse(s).value) == s
  {
  }

  lemma NameParsePToS(s: string)
    requires s != [] && 'P' <= s[0] <= 'S'
    ensures Parse(s).Some? ==> Name(Parse(s).value) == s
  {
  }

  lemma NameParseTToZ(s: string)
    requires s != [] && 'T' <= s[0] <= 'Z'
    ensures Parse(s).Some? ==> Name(Parse(s).value) == s
  {
  }

  /** Whatever `Parse` recognises, it recognises from that token's text. */
  lemma NameParse(s: string)
    ensures Parse(s).Some? ==> Name(Parse(s).value) == s
  {
    if s != [] {
      if '0' <= s[0] <= 'F' { NameParseDigits(s); }
      if 'G' <= s[0] <= 'L' { NameParseGToL(s); }
      if 'M' <= s[0] <= 'O' { NameParseMToO(s); }
      if 'P' <= s[0] <= 'S' { NameParsePToS(s); }
      if 'T' <= s[0] <= 'Z' { NameParseTToZ(s); }
    }
  }

  lemma NameInjective(f: Format, g: Format)
    requires Name(f) == Name(g)
    ensures f == g
  {
    ParseName(f);
    ParseName(g);
  }

  /** A string is in the list of texts of `fs` exactly when it is the text
      of one of the tokens in `fs`. */
  lemma NamesMember(s: string, fs: seq<Format>)
    ensures s in Names(fs) <==> Parse(s).Some? && Parse(s).value in fs
  {
    if s in Names(fs) {
      var i :| 0 <= i < |fs| && Names(fs)[i] == s;
      ParseName(fs[i]);
    }
    if Parse(s).Some? && Parse(s).value in fs {
      var i :| 0 <= i < |fs| && fs[i] == Parse(s).value;
      NameParse(s);
      assert Names(fs)[i] == s;
    }
  }

  /** The text of a listed token is in the list of texts. */
  lemma NameIn(f: Format, fs: seq<Format>)
    requires f in fs
    ensures Name(f) in Names(fs)
  {
    ParseName(f);
    NamesMember(Name(f), fs);
  }

  // NameIsUpper rests on these three parts by section, split so that each
  // proof stays within the solver's resource budget.
  lemma NameHasNoLowerMedia(f: Format)
    requires Section(f) <= 1
    ensures forall i :: 0 <= i < |Name(f)| ==> !IsLowerChar(Name(f)[i])
  {
  }

  lemma NameHasNoLowerAudioDocs(f: Format)
    requires 2 <= Section(f) <= 3
    ensures forall i :: 0 <= i < |Name(f)| ==> !IsLowerChar(Name(f)[i])
  {
  }

  lemma NameHasNoLowerRest(f: Format)
    requires 4 <= Section(f)
    ensures forall i :: 0 <= i < |Name(f)| ==> !IsLowerChar(Name(f)[i])
  {
  }

  /** Token texts have no lower-case letters, so upper-casing leaves them
      alone. */
  lemma NameIsUpper(f: Format)
    ensures Upper(Name(f)) == Name(f)
  {
    if Section(f) <= 1 {
      NameHasNoLowerMedia(f);
    } else if Section(f) <= 3 {
      NameHasNoLowerAudioDocs(f);
    } else {
      NameHasNoLowerRest(f);
    }
    UpperOfUpper(Name(f));
  }
}
