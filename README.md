# File converter window: format routing

This project models the format-routing logic of the `FileConverter` window of
the Converter desktop application (`main.py`). The window lets a user pick a
file, then offers the formats that file can be converted to in a combo box.
The model covers:

- **The conversion catalog.** `matrix` gives the targets per source
  extension, section by section: images, video, audio, documents, tables,
  presentations and archives. `special_conversions` adds extra targets for
  six keys. `get_output_formats` looks an extension up: it upper-cases it,
  joins the rows of both tables, drops repeats and sorts the result.
- **The classifier.** `get_converter_type` decides which kind of converter
  handles a (source, target) pair. It tests six category lists and the first
  matching rule wins.
- **The window state.** The combo box entries, `ex_format`, `upload_file`, the caption of the upload button and
  the "show unavailable formats" check box form a class, `FileConverter`.
  `ex_format` is the extension, as typed, of the last file whose format the
  catalog knew. It is `None` before any such file and after a file of an
  unknown format. A file name without a dot leaves it as it was. The
  handlers are methods:
  - `setTextSelectedFileExtension` refills the list, skipping an excluded
    entry;
  - `show_or_off_all_formats` switches between every matrix target and the
    current file's targets;
  - `update_ui_after_file_selection` and `process_selected_file` handle a
    chosen file;
  - `open_file_explorer_advanced` opens the file dialog; `OpenSelectedFile`
    models what it does after the dialog returns.

The model uses these representations:

- Extensions and list entries are strings.
- The catalog keys form a datatype, `Format`. It has one constructor per
  `matrix` key, and every value in either table and every classifier list
  entry is such a key. `Name` and `Parse` translate between constructors and
  texts, and they are proved inverse.
- Python's `sorted(list(set(...)))` is `SortedDistinct`: the unique strictly
  ascending list of a set of strings under Python's string order.
- The append-if-absent loop of the show-all option is `Distinct`: each
  element once, in order of first occurrence.

The invariant `Consistent` says the list shows what the window state asks
for:

- the prompt before any file is chosen;
- the unknown-format entry, or the prompt, when there is no current file;
- the targets of the current file while the check box is clear;
- every matrix target while it is checked.

The constructor establishes `Consistent`, and the handler for a chosen file
(`OpenSelectedFile`) preserves it.

## Model

| member | source | states |
|---|---|---|
| Text.UpperChar | main.py:203 | upper-cases `a`–`z` and the ten other characters whose upper-case form is ASCII, and keeps every other character: at least one character comes out, none of them one that this upper-casing changes, and a character it does not change is kept |
| Text.Upper | main.py:203 | upper-casing leaves no character that upper-casing changes; ligatures and the sharp s make the text longer |
| Text.UpperBeyondAscii | main.py:203 | the dotless i, the long s and the `fl` ligature upper-case to the ASCII key letters, so `gıf`, `cſv` and `ﬂac` name GIF, CSV and FLAC |
| Text.UpperIdempotent | main.py:218-219 | upper-casing twice is upper-casing once |
| Text.Less | main.py:214 | Python's `<` on strings: code point by code point, a proper prefix first |
| Text.LessTransitive | main.py:214 | the order `sorted` uses on strings is transitive |
| Text.LessTotal | main.py:214 | any two different strings are ordered one way or the other |
| Text.LessAsymmetric | main.py:214 | no two strings are each smaller than the other |
| Text.Before | main.py:155 | `split('.')[0]`: the prefix up to the first dot, which holds no dot, or the whole text when there is no dot |
| Text.After | main.py:156 | the text is the part before the first dot, the dot, and the rest |
| Text.Basename | main.py:155-156 | the base name is the suffix after the last '/', holds no '/', and is the whole path when it has none |
| Text.SplitName | main.py:155-156 | a name/extension pair exists exactly when the base name has a dot; neither part has a dot; the name, a dot and the extension are a prefix of the base name, followed by its end or a second dot |
| Seqs.Insert | main.py:212-214 | inserting into an ascending list keeps it ascending and adds exactly the new element |
| Seqs.SortedDistinct | main.py:212-214 | `sorted(list(set(xs)))` is strictly ascending and holds exactly the elements of `xs` |
| Seqs.AscendingUnique | main.py:212-214 | two strictly ascending lists with the same elements are equal, so the sorted result does not depend on the sorting method |
| Seqs.AscendingByNeighbours | main.py:214 | a list in which each element is below the next is strictly ascending |
| Seqs.FirstIndex | main.py:192 | the first position of an element, or the length when it is absent |
| Seqs.Distinct | main.py:189-193 | each element once, ordered by first occurrence, no repeats |
| Seqs.DistinctSnoc | main.py:192-193 | appending a value extends the distinct list by it exactly when it is not there yet |
| Seqs.Flatten | main.py:190-191 | the concatenated rows hold exactly the values of the rows |
| Seqs.CollectRow | main.py:191-193 | the inner loop over one row turns the distinct list of the earlier rows into the distinct list of them and this row |
| Seqs.CollectValues | main.py:189-193 | the nested loop yields each value of every row once, in order of first occurrence |
| Formats.ParseName | main.py:22-90 | every key text is recognised as its own key |
| Formats.NameParse | main.py:22-90 | whatever text is recognised is exactly that key's text |
| Formats.NameInjective | main.py:22-90 | different keys have different texts |
| Formats.NamesMember | main.py:22-90 | a text is in a list of keys' texts exactly when its key is in that list |
| Formats.NameIsUpper | main.py:22-90 | every key text is already upper case |
| Catalog.MatrixRow | main.py:22-91 | the row of `matrix` for each of its 55 keys, entry for entry; `MatrixKeys` lists the keys in the order of the dictionary |
| Catalog.SpecialRow | main.py:94-104 | the row of `special_conversions` for each of its six keys (`SpecialKeys`), `[]` for every other format |
| Catalog.MatrixGet | main.py:206 | `matrix.get(key, [])`: the row of the key the text names, as strings, `[]` for a text that names none |
| Catalog.SpecialGet | main.py:209 | `special_conversions.get(key, [])` in the same way |
| Catalog.MatrixKeysComplete | main.py:22-91 | every key is listed in `matrix` and has a non-empty row |
| Catalog.MatrixGetKeys | main.py:206 | the `matrix` lookup finds a row exactly for the listed keys |
| Catalog.SpecialKeysExact | main.py:209 | the `special_conversions` lookup finds a row exactly for its six keys |
| Catalog.Targets | main.py:206-214 | for an upper-cased key: strictly ascending and holding exactly the union of its two rows |
| Catalog.TargetsUnique | main.py:212-214 | any strictly ascending list of that union is the result |
| Catalog.OutputFormats | main.py:200-214 | the result is strictly ascending and holds exactly the union of the two rows of the upper-cased extension |
| Catalog.OutputFormatsUnique | main.py:212-214 | any strictly ascending list of that union is the result |
| Catalog.OutputFormatsIgnoreCase | main.py:203 | the lookup gives the same result for an extension and its upper-cased form |
| Catalog.RowsAvoidTheirKey | main.py:22-104 | no row of either table lists its own key |
| Catalog.OutputFormatsExcludeSource | main.py:200-214 | an extension is never offered itself, upper-cased or as typed |
| Catalog.OutputFormatsEmpty | main.py:203-214 | nothing is offered exactly when the upper-cased extension is a key of neither table |
| Catalog.OfferedFor | main.py:206-212 | a format is offered for a key exactly when one of the key's two rows lists it |
| Catalog.ArchiveKeyTargets | main.py:90 | the key `7Z` gives TAR and ZIP |
| Catalog.ArchiveExample | main.py:90 | any spelling of `7z`, a key of `matrix` only, is offered TAR and ZIP |
| Catalog.UnknownKeyTargets | main.py:206-209 | the key `XYZ` gives nothing |
| Catalog.UnknownExample | main.py:203-214 | any spelling of `xyz` is offered nothing |
| Catalog.VideoRows | main.py:35 | the two rows of MP4, as strings |
| Catalog.VideoKeyTargets | main.py:35 | the key `MP4` gives its matrix row sorted |
| Catalog.VideoExample | main.py:200-214 | MP4 is offered its matrix row sorted; the special audio targets are already in it |
| Catalog.LatexPdfKeyTargets | main.py:59-68 | the key LATEX reaches PDF, the key PDF does not reach LATEX |
| Catalog.LatexPdfAsymmetric | main.py:59-68 | LATEX reaches PDF but PDF does not reach LATEX |
| Catalog.PdfKeyTargets | main.py:100 | the key PDF reaches TIFF, which its matrix row does not list |
| Catalog.PdfToTiffOnlySpecial | main.py:100 | PDF reaches TIFF through `special_conversions` only |
| Catalog.MatrixValueRows | main.py:190-191 | the rows of `matrix` as strings, in the order of its keys |
| Catalog.AllFormats | main.py:189-193 | the `buff` list: each value of those rows once, in order of first occurrence |
| Catalog.AllFormatsMembers | main.py:189-193 | the show-all list holds exactly the formats some matrix row offers |
| Catalog.JpegNeverATarget | main.py:22-91 | no matrix row lists JPEG |
| Catalog.JpegNotInAllFormats | main.py:189-193 | the show-all list leaves out JPEG |
| Catalog.ZipInAllFormats | main.py:189-193 | the show-all list holds ZIP, a target of the TAR row |
| Catalog.DocxKeyTargets | main.py:57 | the key DOCX does not reach ZIP |
| Catalog.ZipNotFromDocx | main.py:57 | a DOCX file, in any spelling, is not offered ZIP |
| Classifier.ConverterType | main.py:216-219 | `get_converter_type`: both extensions upper-cased, then classified |
| Classifier.Classify | main.py:221-261 | the first-match chain of membership tests, in the order of the source |
| Classifier.TagInjective | main.py:224-261 | the nine returned strings are distinct, so the string determines the kind |
| Classifier.CategoriesDisjoint | main.py:222-252 | no key is in two category lists |
| Classifier.NamesDisjoint | main.py:222-257 | no text is in two category lists; the joined document and presentation list holds exactly the texts of either |
| Classifier.ClassifySpec | main.py:221-261 | on upper-cased extensions, each kind is chosen exactly when its rule's membership tests hold, both directions, for all eight kinds |
| Classifier.ConverterTypeSpec | main.py:216-261 | each converter kind is returned exactly when its rule's membership tests hold, both directions, for all eight kinds |
| Classifier.ConverterTypeIgnoresCase | main.py:218-219 | classification gives the same kind for upper-cased inputs |
| Classifier.SameCategoryKindsSymmetric | main.py:221-254 | the six same-category kinds do not depend on the direction |
| Classifier.ClassifiedSourceIsCatalogKey | main.py:216-261 | a pair gets a converter kind only when the source is a `matrix` key with targets |
| Classifier.ArchivesUnknown | main.py:216-261 | a pair with an archive on either side is always `unknown` |
| Classifier.PdfPngKind | main.py:256-259 | PDF to PNG is `DocToImage` |
| Classifier.PdfToPngExample | main.py:256-259 | PDF to PNG, in any spelling, is `doc_to_image` |
| Classifier.Mp4Mp3Kind | main.py:236-238 | MP4 to MP3 is `VideoToAudio` |
| Classifier.Mp4ToMp3Example | main.py:236-238 | MP4 to MP3, in any spelling, is `video_to_audio` |
| Classifier.Mp4GifKind | main.py:222-229 | MP4 to GIF is `Unknown` |
| Classifier.Mp4ToGifOfferedButUnknown | main.py:222-229 | the catalog offers GIF for MP4, yet the pair is `unknown` |
| Window.Excluded | main.py:179-182 | an entry is skipped when the exclusion is a non-empty string equal to it (`not ext` is false and `i != ext` fails) |
| Window.Filtered | main.py:176-183 | the filtered list is no longer than the input and holds exactly the entries the exclusion spares; no or empty exclusion keeps the input |
| Window.FilteredAbsent | main.py:179-183 | excluding an absent value leaves the list, in order, as it is |
| Window.OfferedTargets | main.py:169 | excluding the extension, upper-cased or as typed, leaves its targets whole |
| Window.EmptyExtensionHasNoTargets | main.py:203-214 | the empty extension has no targets |
| Window.FileConverter.constructor | main.py:8-20 | the initial state: the prompt, no file, no caption, and a `Consistent` state |
| Window.FileConverter.SetTextSelectedFileExtension | main.py:176-183 | the new list is `args` filtered by the exclusion, in order, with nothing of the old list left |
| Window.FileConverter.ShowOrOffAllFormats | main.py:186-198 | checked with a current file: every matrix target; unchecked with one: that file's targets less its raw extension; otherwise unchanged; the display follows the check box state |
| Window.FileConverter.SetChecked | main.py:147 | the check box takes the new state; the handler runs only on a change; `Consistent` is preserved |
| Window.FileConverter.UpdateUiAfterFileSelection | main.py:165-174 | the caption is name.extension; a known extension shows its targets and becomes `ex_format`; an unknown one shows the unknown-format entry, clears `ex_format` and unchecks the box |
| Window.FileConverter.ProcessSelectedFile | main.py:152-163 | succeeds exactly when the base name has a dot and then updates the window with its first two dot-separated parts; otherwise nothing changes |
| Window.FileConverter.OpenSelectedFile | main.py:136-150 | a cancelled dialog changes nothing; a chosen file sets `upload_file`, clears the check box and is processed; `Consistent` is preserved |

## Left out

- Text.UpperChar and Text.Upper: upper-case the ASCII letters and the ten other characters whose upper-case form is ASCII (ß, ı, ſ, ﬀ, ﬁ, ﬂ, ﬃ, ﬄ, ﬅ, ﬆ). They leave every other non-ASCII letter alone: `UpperChar('é')` and `Upper("é")` are `"é"`, where Python gives `"É"`. Either way such a text keeps a non-ASCII character, so it names no key and is in no category list. The lookup and the classification therefore agree with the source, but the upper-cased text itself can differ.
- Text.Basename: treats only '/' as a path separator, as `os.path.basename` does on POSIX.
- Qt plumbing is not modelled: loading the window layout, connecting signals, the download bar, tooltips and enabling the help button. The combo box is a sequence and the check box a boolean.
- The file dialog is not modelled. `OpenSelectedFile` takes the path it returned as a parameter, with the empty string for a cancelled dialog.
- Console output, the exception hook and application start-up are not modelled.
- Window.FileConverter.SetChecked: the model takes `rd_show_off_ex` to be a checkable, non-exclusive button. `setChecked` always gives it the new state, and `toggled` fires on every change and only then. The widget's class is set in the window layout file, which is not part of this model. If it were an auto-exclusive radio button, Qt would ignore `setChecked(False)` on it while checked. The calls at main.py:147 and main.py:174 would then leave it checked, and `show_or_off_all_formats(False)` would not run. The contracts `showAll == checked` of `SetChecked`, `!showAll` of `ShowsExtension` and `!showAll` of `OpenSelectedFile` rest on this reading.
- Window.FileConverter.constructor: the initial check box state comes from the window layout file, which is not part of this model. It is a parameter.
- The `IndexError` that a base name without a dot raises is not modelled as an exception. `ProcessSelectedFile` returns `ok = false` and changes nothing.
- Window.FileConverter.UpdateUiAfterFileSelection and Window.FileConverter.ProcessSelectedFile: they keep `Consistent` only when called as `open_file_explorer_advanced` calls them, with a file chosen and the check box clear. With the box checked and a known extension, the window shows the file's targets while the box stays checked.
