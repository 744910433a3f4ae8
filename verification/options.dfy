/** `FilePickerOptions`: the selection policy handed to a picker session, a
    mutable record whose setters overwrite one field and return the receiver. */
module PickerOptions {
  import opened Files

  /** How listings are ordered inside the directory group and the file group. */
  datatype SortBy = NameAsc | NameDesc | SizeAsc | SizeDesc | DateModifiedAsc | DateModifiedDesc

  /** Which entries the user may select. */
  datatype SelectionMode = File | Folder | Both

  const AllSortBy: seq<SortBy> := [NameAsc, NameDesc, SizeAsc, SizeDesc, DateModifiedAsc, DateModifiedDesc]
  const AllSelectionModes: seq<SelectionMode> := [File, Folder, Both]

  /** The six orders and three modes are exactly the listed constants, all distinct,
      so a case analysis over them (the filter, the comparator) is exhaustive. */
  lemma EnumsExhaustive(s: SortBy, m: SelectionMode)
    ensures s in AllSortBy && m in AllSelectionModes
    ensures |AllSortBy| == 6 && |AllSelectionModes| == 3
    ensures forall i, j :: 0 <= i < j < |AllSortBy| ==> AllSortBy[i] != AllSortBy[j]
    ensures forall i, j :: 0 <= i < j < |AllSelectionModes| ==> AllSelectionModes[i] != AllSelectionModes[j]
  {
  }

  /** The value of the seven option fields at one moment. */
  datatype Settings = Settings(
    selectionMode: SelectionMode,
    extensions: seq<string>,
    title: Option<string>,
    multipleSelection: bool,
    sortBy: SortBy,
    showSortOption: bool,
    initialDirectory: Option<Path>
  )

  const DefaultSettings := Settings(File, [], None, false, NameAsc, true, None)

  /** Setting a field to the value it was just set to changes nothing, for each
      of the seven setters. */
  lemma SettersIdempotent(s: Settings, m: SelectionMode, x: seq<string>, t: Option<string>,
                          b: bool, o: SortBy, v: bool, d: Option<Path>)
    ensures s.(selectionMode := m).(selectionMode := m) == s.(selectionMode := m)
    ensures s.(extensions := x).(extensions := x) == s.(extensions := x)
    ensures s.(title := t).(title := t) == s.(title := t)
    ensures s.(multipleSelection := b).(multipleSelection := b) == s.(multipleSelection := b)
    ensures s.(sortBy := o).(sortBy := o) == s.(sortBy := o)
    ensures s.(showSortOption := v).(showSortOption := v) == s.(showSortOption := v)
    ensures s.(initialDirectory := d).(initialDirectory := d) == s.(initialDirectory := d)
  {
  }

  class FilePickerOptions {
    var selectionMode: SelectionMode
    var extensions: seq<string>
    var title: Option<string>
    var multipleSelection: bool
    var sortBy: SortBy
    var showSortOption: bool
    var initialDirectory: Option<Path>

    function Snapshot(): Settings
      reads this
    {
      Settings(selectionMode, extensions, title, multipleSelection, sortBy, showSortOption, initialDirectory)
    }

    constructor ()
      ensures Snapshot() == DefaultSettings
    {
      selectionMode := File;
      extensions := [];
      title := None;
      multipleSelection := false;
      sortBy := NameAsc;
      showSortOption := true;
      initialDirectory := None;
    }

    method SetSelectionMode(mode: SelectionMode) returns (r: FilePickerOptions)
      modifies this
      ensures r == this
      ensures Snapshot() == old(Snapshot()).(selectionMode := mode)
    {
      selectionMode := mode;
      r := this;
    }

    method SetExtensions(extensions: seq<string>) returns (r: FilePickerOptions)
      modifies this
      ensures r == this
      ensures Snapshot() == old(Snapshot()).(extensions := extensions)
    {
      this.extensions := extensions;
      r := this;
    }

    method SetTitle(title: Option<string>) returns (r: FilePickerOptions)
      modifies this
      ensures r == this
      ensures Snapshot() == old(Snapshot()).(title := title)
    {
      this.title := title;
      r := this;
    }

    method SetMultipleSelection(multipleSelection: bool) returns (r: FilePickerOptions)
      modifies this
      ensures r == this
      ensures Snapshot() == old(Snapshot()).(multipleSelection := multipleSelection)
    {
      this.multipleSelection := multipleSelection;
      r := this;
    }

    method SetSortBy(sortBy: SortBy) returns (r: FilePickerOptions)
      modifies this
      ensures r == this
      ensures Snapshot() == old(Snapshot()).(sortBy := sortBy)
    {
      this.sortBy := sortBy;
      r := this;
    }

    method SetShowSortOption(showSortOption: bool) returns (r: FilePickerOptions)
      modifies this
      ensures r == this
      ensures Snapshot() == old(Snapshot()).(showSortOption := showSortOption)
    {
      this.showSortOption := showSortOption;
      r := this;
    }

    method SetInitialDirectory(initialDirectory: Option<Path>) returns (r: FilePickerOptions)
      modifies this
      ensures r == this
      ensures Snapshot() == old(Snapshot()).(initialDirectory := initialDirectory)
    {
      this.initialDirectory := initialDirectory;
      r := this;
    }
  }

  /** A chain of setters on a fresh object configures that one object: each
      call returns the receiver, so the next call mutates the same record. */
  method ConfigureChain(mode: SelectionMode, multiple: bool, sortBy: SortBy) returns (o: FilePickerOptions)
    ensures fresh(o)
    ensures o.Snapshot() == DefaultSettings.(selectionMode := mode, multipleSelection := multiple, sortBy := sortBy)
  {
    o := new FilePickerOptions();
    var o1 := o.SetSelectionMode(mode);
    var o2 := o1.SetMultipleSelection(multiple);
    var o3 := o2.SetSortBy(sortBy);
    assert o3 == o;
  }
}
