/** The main window's state (main.py:7-20, 106-198): the list of target
    formats in the combo box, the extension as typed of the last file whose
    format the catalog knew (`None` before that and after an unknown one),
    whether a file was ever chosen, the caption of the upload button and the
    "show unavailable formats" check box, with the handlers that change
    them. */
module Window {

  import opened Wrappers
  import opened Text
  import opened Seqs
  import opened Formats
  import opened Catalog

  /** The entry shown before any file is chosen. */
  const Placeholder: string := "Выберите файл"

  /** The entry shown for a file whose extension the catalog does not know. */
  const UnknownFormat: string := "Неизвестный формат"

  /** `not ext` fails for `ext`: an entry equal to it is left out of the list. */
  predicate Excluded(y: string, ext: Option<string>)
  {
    ext.Some? && ext.value != "" && y == ext.value
  }

  /** The list `setTextSelectedFileExtension(args, ext)` leaves in the combo
      box: `args` in order, less the entries equal to `ext` when `ext` is a
      non-empty string. */
  function Filtered(args: seq<string>, ext: Option<string>): (r: seq<string>)
    ensures |r| <= |args|
    ensures forall y :: y in r <==> y in args && !Excluded(y, ext)
    ensures (ext.None? || ext.value == "") ==> r == args
  {
    if args == [] then []
    else
      var p, x := args[..|args| - 1], args[|args| - 1];
      assert args == p + [x];
      if Excluded(x, ext) then Filtered(p, ext) else Filtered(p, ext) + [x]
  }

  /** Filtering out a value the list does not hold leaves the list as it is. */
  lemma {:induction false} FilteredAbsent(args: seq<string>, ext: Option<string>)
    requires ext.Some? ==> ext.value !in args
    ensures Filtered(args, ext) == args
  {
    if args != [] {
      var p := args[..|args| - 1];
      assert args == p + [args[|args| - 1]];
      FilteredAbsent(p, ext);
    }
  }

  /** Filtering keeps the order of what it keeps: the entries that survive
      are the kept entries of the prefix followed by the kept last one. */
  lemma FilteredSnoc(args: seq<string>, k: nat, ext: Option<string>)
    requires k < |args|
    ensures Filtered(args[..k + 1], ext) ==
      if Excluded(args[k], ext) then Filtered(args[..k], ext) else Filtered(args[..k], ext) + [args[k]]
  {
    assert args[..k + 1][..k] == args[..k];
  }

  /** The combo box never offers the opened file's own format: the targets
      of an extension are left whole by the exclusion the window applies,
      whether it passes the extension upper-cased or as typed. */
  lemma OfferedTargets(ext: string)
    ensures Filtered(OutputFormats(ext), Some(Upper(ext))) == OutputFormats(ext)
    ensures Filtered(OutputFormats(ext), Some(ext)) == OutputFormats(ext)
  {
    OutputFormatsExcludeSource(ext);
    FilteredAbsent(OutputFormats(ext), Some(Upper(ext)));
    FilteredAbsent(OutputFormats(ext), Some(ext));
  }

  /** The empty extension has no targets. */
  lemma EmptyExtensionHasNoTargets()
    ensures OutputFormats("") == []
  {
    assert Upper("") == "";
    assert Parse("") == None;
  }

  class FileConverter {
    /** The entries of the `selected_file_extension` combo box. */
    var items: seq<string>
    /** `ex_format`: the extension, as typed, of the last file the catalog
        knew; `None` before that and after an unknown one. */
    var exFormat: Option<string>
    /** `upload_file`: a file was chosen at least once. */
    var uploadFile: bool
    /** The state of the `rd_show_off_ex` check box. */
    var showAll: bool
    /** The caption put on the upload button; `None` while it still shows
        the text of the window layout. */
    var caption: Option<string>

    /** What the window shows is what its state says it should for the
        check box state `checked`: the targets of the current file, or
        every target format when the check box asks for all of them; a
        prompt when there is no current file. */
    ghost predicate Displays(checked: bool)
      reads this
    {
      && (!uploadFile ==> exFormat.None? && items == [Placeholder])
      && (exFormat.None? ==> items == [Placeholder] || items == [UnknownFormat])
      && (exFormat.Some? ==>
            OutputFormats(exFormat.value) != [] &&
            items == if checked then AllFormats() else OutputFormats(exFormat.value))
    }

    /** The window shows what the state of its check box asks for. */
    ghost predicate Consistent()
      reads this
    {
      Displays(showAll)
    }

    /** `__init__` and `initUI`: no file yet, the prompt in the list. The
        check box starts as the window layout sets it. */
    constructor(checked: bool)
      ensures items == [Placeholder] && exFormat == None && !uploadFile
      ensures showAll == checked && caption == None
      ensures Consistent()
    {
      items := [];
      exFormat := None;
      uploadFile := false;
      showAll := checked;
      caption := None;
      new;
      if !uploadFile {
        SetTextSelectedFileExtension([Placeholder], None);
      }
    }

    /** `setTextSelectedFileExtension`: clears the list, then adds each of
        `args` that `ext` does not exclude. */
    method SetTextSelectedFileExtension(args: seq<string>, ext: Option<string>)
      modifies this`items
      ensures items == Filtered(args, ext)
    {
      items := [];
      var k := 0;
      while k < |args|
        invariant 0 <= k <= |args|
        invariant items == Filtered(args[..k], ext)
      {
        var i := args[k];
        FilteredSnoc(args, k, ext);
        if ext.None? || ext.value == "" {
          items := items + [i];
        } else if i != ext.value {
          items := items + [i];
        }
        k := k + 1;
      }
      assert args[..k] == args;
    }

    /** `show_or_off_all_formats`, the handler of the check box: checked and
        with a current file, the list shows every target format of the
        matrix; unchecked and with a current file, the targets of that file
        again. */
    method ShowOrOffAllFormats(checked: bool)
      modifies this`items
      ensures items ==
        if checked && exFormat.Some? && exFormat.value != "" then AllFormats()
        else if !checked && exFormat.Some? then Filtered(OutputFormats(exFormat.value), exFormat)
        else old(items)
      ensures old(Displays(!checked)) ==> Displays(checked)
    {
      if checked {
        if exFormat.Some? && exFormat.value != "" {
          var buff := CollectValues(MatrixValueRows());
          SetTextSelectedFileExtension(buff, None);
        } else {
          EmptyExtensionHasNoTargets();
        }
      } else {
        if exFormat.Some? {
          var sortList := OutputFormats(exFormat.value);
          SetTextSelectedFileExtension(sortList, exFormat);
          OfferedTargets(exFormat.value);
        }
      }
    }

    /** `rd_show_off_ex.setChecked`, or a click on the check box: the
        `toggled` signal, and so the handler, runs only when the state
        changes. */
    method SetChecked(checked: bool)
      modifies this`items, this`showAll
      ensures showAll == checked
      ensures items ==
        if old(showAll) == checked then old(items)
        else if checked && exFormat.Some? && exFormat.value != "" then AllFormats()
        else if !checked && exFormat.Some? then OutputFormats(exFormat.value)
        else old(items)
      ensures old(Consistent()) ==> Consistent()
    {
      if showAll != checked {
        showAll := checked;
        ShowOrOffAllFormats(checked);
        if exFormat.Some? {
          OfferedTargets(exFormat.value);
        }
      }
    }

    /** The list, the current file and the check box as
        `update_ui_after_file_selection` leaves them for the extension `ext`
        when the check box was `wasChecked`: the targets of a known
        extension, the check box untouched; or the unknown-format entry, no
        current file and the check box cleared. */
    ghost predicate ShowsExtension(ext: string, wasChecked: bool)
      reads this
    {
      if OutputFormats(ext) != [] then
        items == OutputFormats(ext) && exFormat == Some(ext) && showAll == wasChecked
      else
        items == [UnknownFormat] && exFormat == None && !showAll
    }

    /** `update_ui_after_file_selection`: captions the button, then shows
        the targets of the extension (without the upper-cased extension
        itself) and remembers it, or shows that the format is unknown,
        forgets the current file and unchecks the check box. */
    method UpdateUiAfterFileSelection(fileName: string, fileExtension: string)
      modifies this`items, this`exFormat, this`showAll, this`caption
      ensures caption == Some(fileName + "." + fileExtension)
      ensures ShowsExtension(fileExtension, old(showAll))
      ensures old(Consistent()) && uploadFile && !old(showAll) ==> Consistent()
    {
      caption := Some(fileName + "." + fileExtension);
      var needFormatList := OutputFormats(fileExtension);
      if needFormatList != [] {
        SetTextSelectedFileExtension(needFormatList, Some(Upper(fileExtension)));
        OfferedTargets(fileExtension);
        exFormat := Some(fileExtension);
      } else {
        SetTextSelectedFileExtension([UnknownFormat], None);
        exFormat := None;
        SetChecked(false);
      }
    }

    /** `process_selected_file`: splits the base name of the path at its
        dots. A name without a dot makes Python raise `IndexError`; the
        handler then stops and `ok` is false, with nothing changed. */
    method ProcessSelectedFile(filePath: string) returns (ok: bool)
      modifies this`items, this`exFormat, this`showAll, this`caption
      ensures ok <==> '.' in Basename(filePath)
      ensures !ok ==>
        items == old(items) && exFormat == old(exFormat) && showAll == old(showAll) && caption == old(caption)
      ensures ok ==> caption == Some(SplitName(Basename(filePath)).value.0 + "." + SplitName(Basename(filePath)).value.1)
      ensures ok ==> ShowsExtension(SplitName(Basename(filePath)).value.1, old(showAll))
      ensures old(Consistent()) && uploadFile && !old(showAll) ==> Consistent()
    {
      var parts := SplitName(Basename(filePath));
      if parts.None? {
        return false;
      }
      var (fileName, fileExtension) := parts.value;
      UpdateUiAfterFileSelection(fileName, fileExtension);
      ok := true;
    }

    /** `open_file_explorer_advanced` after the dialog closed: `filePath` is
        what the dialog returned, empty when it was cancelled. A chosen file
        unchecks the check box, then is processed. */
    method OpenSelectedFile(filePath: string) returns (ok: bool)
      modifies this
      requires Consistent()
      ensures Consistent()
      ensures filePath == "" ==>
        !ok && items == old(items) && exFormat == old(exFormat) && uploadFile == old(uploadFile) &&
        showAll == old(showAll) && caption == old(caption)
      ensures filePath != "" ==> uploadFile && !showAll && (ok <==> '.' in Basename(filePath))
      ensures filePath != "" && !ok ==>
        exFormat == old(exFormat) && caption == old(caption) &&
        items == if old(showAll) && exFormat.Some? then OutputFormats(exFormat.value) else old(items)
      ensures ok ==> caption == Some(SplitName(Basename(filePath)).value.0 + "." + SplitName(Basename(filePath)).value.1)
      ensures ok ==> ShowsExtension(SplitName(Basename(filePath)).value.1, false)
    {
      ok := false;
      if filePath != "" {
        uploadFile := true;
        assert Consistent();
        SetChecked(false);
        ghost var shown := items;
        assert Consistent() && !showAll;
        assert shown == if old(showAll) && exFormat.Some? then OutputFormats(exFormat.value) else old(items);
        ok := ProcessSelectedFile(filePath);
        assert !ok ==> items == shown;
      }
    }
  }
}
