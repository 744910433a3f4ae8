/** `FilePickerDialogFragment` without its views: the adapter's two lists, the
    current directory, the navigation handlers, the sort menu and the
    select/cancel buttons. The file system is passed in as it is at the moment
    of each event; toasts are returned instead of shown; the host callback's
    answers are parameters and its notifications are returned values. */
module Picker {
  import opened Files
  import opened PickerOptions
  import opened Lister
  import opened Selection

  /** The short messages the dialog shows. */
  datatype Toast = CannotReadDirectory | CannotReadParent | NoFolderSelected | NoItemSelected | NoFileSelected

  /** The message for a commit with nothing selected, per selection mode. */
  function NothingSelected(mode: SelectionMode): Toast
  {
    match mode
    case Folder => NoFolderSelected
    case Both => NoItemSelected
    case File => NoFileSelected
  }

  /** What pressing "select" does: show a message and stay open, or report the
      selection through exactly one of the two callbacks. */
  datatype Commit =
    | Rejected(toast: Toast)
    | FileSelected(file: Entry)          // `callback.onFileSelected(file)`
    | FilesSelected(files: seq<Entry>)   // `callback.onFilesSelected(files)`

  /** `FilePickerCallback.onFileSelectionCancelled()` answers true unless overridden. */
  const DefaultCallbackAllowsCancel := true

  /** The list adapter: row 0 is the directory being shown (drawn as ".."),
      the rest is its listing; `selectedFiles` is the selection. */
  class FileAdapter {
    const options: FilePickerOptions
    var files: seq<Entry>
    var selectedFiles: seq<Entry>

    constructor (options: FilePickerOptions)
      ensures this.options == options && files == [] && selectedFiles == []
    {
      this.options := options;
      files := [];
      selectedFiles := [];
    }

    /** Show `root` and its listing; the selection survives only under
        multiple selection. */
    method SetFiles(root: Entry, listed: seq<Entry>)
      modifies this
      ensures files == [root] + listed
      ensures selectedFiles == if options.multipleSelection then old(selectedFiles) else []
    {
      files := [root] + listed;
      if !options.multipleSelection {
        selectedFiles := [];
      }
    }

    method UpdateSelection(e: Entry)
      modifies this
      ensures files == old(files)
      ensures selectedFiles == Toggle(old(selectedFiles), e, options.multipleSelection)
    {
      if !options.multipleSelection {
        selectedFiles := [];
      }
      if Holds(selectedFiles, e) {
        selectedFiles := RemovePath(selectedFiles, e.path);
      } else {
        selectedFiles := selectedFiles + [e];
      }
    }

    /** The checkbox listener of row `position`, which only a row showing a
        checkbox can fire. */
    method OnCheckedChanged(position: nat, isChecked: bool)
      requires position < |files| && CheckboxVisible(options.selectionMode, position, files[position])
      modifies this
      ensures files == old(files)
      ensures selectedFiles == OnChecked(old(selectedFiles), files[position], isChecked, options.multipleSelection)
    {
      var file := files[position];
      if isChecked {
        UpdateSelection(file);
      } else if Holds(selectedFiles, file) {
        UpdateSelection(file);
      }
    }

    method GetSelectedFiles() returns (r: seq<Entry>)
      ensures r == selectedFiles
    {
      r := selectedFiles;
    }
  }

  class FilePickerDialog {
    const options: FilePickerOptions
    const adapter: FileAdapter
    var currentDirectory: Entry
    var dismissed: bool

    /** Row 0 shows the current directory, every other row passed the filter,
        and the selection holds entries of distinct paths that the mode
        allows, at most one of them under single selection. */
    ghost predicate Valid()
      reads this, adapter, options
    {
      adapter.options == options &&
      |adapter.files| >= 1 && adapter.files[0] == currentDirectory &&
      (forall k :: 1 <= k < |adapter.files| ==> Keep(options.selectionMode, options.extensions, adapter.files[k])) &&
      NoDuplicates(Paths(adapter.selectedFiles)) &&
      (!options.multipleSelection ==> |adapter.selectedFiles| <= 1) &&
      (forall e :: e in adapter.selectedFiles ==>
        Selectable(options.selectionMode, e) && Keep(options.selectionMode, options.extensions, e))
    }

    /** `listFiles(dir)` under the current options. */
    function Listing(fs: FileSystem, dir: Entry): seq<Entry>
      reads options
    {
      ListFiles(options.selectionMode, options.extensions, options.sortBy, Children(fs, dir))
    }

    /** Field initialisation and `onCreateView`: start in the initial
        directory, or the default root when none is given, and list it. */
    constructor (options: FilePickerOptions, fs: FileSystem, defaultRoot: Entry)
      ensures this.options == options && fresh(adapter)
      ensures Valid() && !dismissed
      ensures currentDirectory ==
        if options.initialDirectory.Some? then Resolve(fs, options.initialDirectory.value) else defaultRoot
      ensures adapter.files == [currentDirectory] + Listing(fs, currentDirectory)
      ensures adapter.selectedFiles == []
    {
      this.options := options;
      currentDirectory :=
        if options.initialDirectory.Some? then Resolve(fs, options.initialDirectory.value) else defaultRoot;
      adapter := new FileAdapter(options);
      dismissed := false;
      new;
      adapter.SetFiles(currentDirectory, Listing(fs, currentDirectory));
    }

    /** `refreshFiles` (also what `onResume` does): list the current directory again. */
    method Refresh(fs: FileSystem)
      requires Valid()
      modifies adapter
      ensures Valid()
      ensures adapter.files == [currentDirectory] + Listing(fs, currentDirectory)
      ensures adapter.selectedFiles ==
        if options.multipleSelection then old(adapter.selectedFiles) else []
    {
      adapter.SetFiles(currentDirectory, Listing(fs, currentDirectory));
    }

    /** A click on row `position` > 0: a readable directory is entered and
        listed, an unreadable one only raises a message, a file does nothing. */
    method OnRowClick(fs: FileSystem, position: nat) returns (toast: Option<Toast>)
      requires Valid() && 0 < position < |adapter.files|
      modifies this, adapter
      ensures Valid() && dismissed == old(dismissed)
      ensures !old(adapter.files[position]).isDirectory ==>
        toast == None && unchanged(this) && unchanged(adapter)
      ensures old(adapter.files[position]).isDirectory && !old(adapter.files[position]).readable ==>
        toast == Some(CannotReadDirectory) && unchanged(this) && unchanged(adapter)
      ensures old(adapter.files[position]).isDirectory && old(adapter.files[position]).readable ==>
        toast == None &&
        currentDirectory == old(adapter.files[position]) &&
        adapter.files == [currentDirectory] + Listing(fs, currentDirectory) &&
        adapter.selectedFiles == if options.multipleSelection then old(adapter.selectedFiles) else []
    {
      var file := adapter.files[position];
      toast := None;
      if file.isDirectory {
        if !file.readable {
          toast := Some(CannotReadDirectory);
          return;
        }
        currentDirectory := file;
        adapter.SetFiles(file, Listing(fs, file));
      }
    }

    /** A click on the ".." row, and the back key: go to the parent when it
        exists and is readable; otherwise only a message. */
    method OnParentClick(fs: FileSystem) returns (toast: Option<Toast>)
      requires Valid()
      modifies this, adapter
      ensures Valid() && dismissed == old(dismissed)
      ensures !ParentReadable(fs, old(currentDirectory)) ==>
        toast == Some(CannotReadParent) && unchanged(this) && unchanged(adapter)
      ensures ParentReadable(fs, old(currentDirectory)) ==>
        toast == None &&
        currentDirectory == ParentFile(fs, old(currentDirectory)).value &&
        adapter.files == [currentDirectory] + Listing(fs, currentDirectory) &&
        adapter.selectedFiles == if options.multipleSelection then old(adapter.selectedFiles) else []
    {
      var up := adapter.files[0];
      if !ParentReadable(fs, up) {
        toast := Some(CannotReadParent);
        return;
      }
      // the `?: return` after this check cannot fire: row 0 is `currentDirectory`
      var parentDir := ParentFile(fs, currentDirectory).value;
      currentDirectory := parentDir;
      adapter.SetFiles(parentDir, Listing(fs, parentDir));
      toast := None;
    }

    /** The dialog's key listener: only the release of the back key is
        consumed, and it goes to the parent directory. */
    method OnKey(fs: FileSystem, isBackRelease: bool) returns (handled: bool, toast: Option<Toast>)
      requires Valid()
      modifies this, adapter
      ensures Valid() && dismissed == old(dismissed)
      ensures handled == isBackRelease
      ensures !isBackRelease ==> toast == None && unchanged(this) && unchanged(adapter)
      ensures isBackRelease && !ParentReadable(fs, old(currentDirectory)) ==>
        toast == Some(CannotReadParent) && unchanged(this) && unchanged(adapter)
      ensures isBackRelease && ParentReadable(fs, old(currentDirectory)) ==>
        toast == None &&
        currentDirectory == ParentFile(fs, old(currentDirectory)).value &&
        adapter.files == [currentDirectory] + Listing(fs, currentDirectory) &&
        adapter.selectedFiles == if options.multipleSelection then old(adapter.selectedFiles) else []
    {
      if !isBackRelease {
        return false, None;
      }
      toast := OnParentClick(fs);
      handled := true;
    }

    /** The sort menu, which only a shown sort button opens: a known item
        stores its order in the options and lists the current directory again;
        any other item is not handled. */
    method OnSortItem(fs: FileSystem, item: Option<SortBy>) returns (handled: bool)
      requires Valid() && options.showSortOption
      modifies options, adapter
      ensures Valid()
      ensures handled == item.Some?
      ensures item.None? ==> unchanged(options) && unchanged(adapter)
      ensures item.Some? ==>
        options.Snapshot() == old(options.Snapshot()).(sortBy := item.value) &&
        adapter.files == [currentDirectory] + Listing(fs, currentDirectory) &&
        adapter.selectedFiles == if options.multipleSelection then old(adapter.selectedFiles) else []
    {
      if item.None? {
        return false;
      }
      options.sortBy := item.value;
      Refresh(fs);
      handled := true;
    }

    /** The checkbox of row `position` changed. */
    method OnChecked(position: nat, isChecked: bool)
      requires Valid() && position < |adapter.files|
      requires CheckboxVisible(options.selectionMode, position, adapter.files[position])
      modifies adapter
      ensures Valid()
      ensures adapter.files == old(adapter.files)
      ensures adapter.selectedFiles ==
        Selection.OnChecked(old(adapter.selectedFiles), adapter.files[position], isChecked, options.multipleSelection)
    {
      var file := adapter.files[position];
      OnCheckedKeepsSelection(adapter.selectedFiles, file, isChecked, options.multipleSelection);
      adapter.OnCheckedChanged(position, isChecked);
    }

    /** The "select" button. */
    method OnSelect() returns (outcome: Commit)
      requires Valid()
      modifies this
      ensures Valid() && currentDirectory == old(currentDirectory)
      ensures adapter.selectedFiles == [] ==>
        outcome == Rejected(NothingSelected(options.selectionMode)) && dismissed == old(dismissed)
      ensures adapter.selectedFiles != [] ==> dismissed
      ensures adapter.selectedFiles != [] && options.multipleSelection ==>
        outcome == FilesSelected(adapter.selectedFiles)
      ensures adapter.selectedFiles != [] && !options.multipleSelection ==>
        outcome == FileSelected(adapter.selectedFiles[0]) && |adapter.selectedFiles| == 1
    {
      var selected := adapter.GetSelectedFiles();
      if selected == [] {
        return Rejected(NothingSelected(options.selectionMode));
      }
      dismissed := true;
      if options.multipleSelection {
        outcome := FilesSelected(selected);
      } else {
        outcome := FileSelected(selected[0]);
      }
    }

    /** The toolbar's back arrow and the "cancel" button: the dialog closes
        only when the callback agrees. */
    method OnCancel(callbackAllows: bool)
      requires Valid()
      modifies this
      ensures Valid()
      ensures dismissed == (old(dismissed) || callbackAllows)
      ensures currentDirectory == old(currentDirectory)
    {
      if callbackAllows {
        dismissed := true;
      }
    }
  }
}
