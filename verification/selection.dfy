/** The selection list of `FileAdapter` and the rule for which rows carry a
    checkbox. `selectedFiles` is a `MutableList<File>`, so it is a sequence
    here: `add` appends, and `in` and `remove` compare files the way
    `java.io.File` does, by path, so `remove` drops the first entry with the
    given path. */
module Selection {
  import opened Files
  import opened PickerOptions

  predicate NoDuplicates<T(==)>(s: seq<T>)
  {
    forall i, j :: 0 <= i < j < |s| ==> s[i] != s[j]
  }

  /** The paths of a list of entries, in order. */
  function Paths(s: seq<Entry>): seq<Path>
  {
    seq(|s|, i requires 0 <= i < |s| => s[i].path)
  }

  lemma PathsAppend(a: seq<Entry>, b: seq<Entry>)
    ensures Paths(a + b) == Paths(a) + Paths(b)
  {
    assert forall i :: 0 <= i < |a + b| ==> Paths(a + b)[i] == (Paths(a) + Paths(b))[i];
  }

  lemma PathsDelete(s: seq<Entry>, k: nat)
    requires k < |s|
    ensures Paths(s[..k] + s[k + 1..]) == Paths(s)[..k] + Paths(s)[k + 1..]
  {
    var r := s[..k] + s[k + 1..];
    var q := Paths(s)[..k] + Paths(s)[k + 1..];
    forall i | 0 <= i < |r| ensures Paths(r)[i] == q[i] {
      if i < k {
        assert r[i] == s[i] && q[i] == Paths(s)[i];
      } else {
        assert r[i] == s[i + 1] && q[i] == Paths(s)[i + 1];
      }
    }
  }

  /** `e in list` for files: some entry of the list has the path of `e`. */
  predicate Holds(s: seq<Entry>, e: Entry)
  {
    e.path in Paths(s)
  }

  /** Position of the first entry with path `p`. */
  function IndexOfPath(s: seq<Entry>, p: Path): (k: nat)
    requires p in Paths(s)
    ensures k < |s| && s[k].path == p
    ensures forall j :: 0 <= j < k ==> s[j].path != p
  {
    if s[0].path == p then 0
    else
      assert Paths(s) == [s[0].path] + Paths(s[1..]);
      IndexOfPath(s[1..], p) + 1
  }

  /** `MutableList.remove(e)` on files: drop the first entry with path `p`, if any. */
  function RemovePath(s: seq<Entry>, p: Path): (r: seq<Entry>)
    ensures p !in Paths(s) ==> r == s
    ensures p in Paths(s) ==> |r| == |s| - 1
    ensures forall x :: x in r ==> x in s
  {
    if s == [] then []
    else if s[0].path == p then
      assert Paths(s)[0] == p;
      s[1..]
    else
      assert Paths(s) == [s[0].path] + Paths(s[1..]);
      [s[0]] + RemovePath(s[1..], p)
  }

  lemma DeleteAfterHead<T>(s: seq<T>, k: nat)
    requires 0 < k < |s|
    ensures s[..k] + s[k + 1..] == [s[0]] + (s[1..][..k - 1] + s[1..][k..])
  {
    assert s[..k] == [s[0]] + s[1..][..k - 1];
    assert s[k + 1..] == s[1..][k..];
  }

  /** What `remove` drops is exactly the first entry with the path; the rest
      keeps its order. */
  lemma {:induction false} RemovePathDropsFirst(s: seq<Entry>, p: Path, k: nat)
    requires k < |s| && s[k].path == p
    requires forall j :: 0 <= j < k ==> s[j].path != p
    ensures RemovePath(s, p) == s[..k] + s[k + 1..]
  {
    if k == 0 {
      assert s[..0] + s[1..] == s[1..];
    } else {
      var t := s[1..];
      assert RemovePath(s, p) == [s[0]] + RemovePath(t, p);
      assert forall j :: 0 <= j < k - 1 ==> t[j] == s[j + 1];
      RemovePathDropsFirst(t, p, k - 1);
      DeleteAfterHead(s, k);
    }
  }

  /** `remove` takes one copy of the path out of the list of paths. */
  lemma RemovePathCount(s: seq<Entry>, p: Path)
    requires p in Paths(s)
    ensures multiset(Paths(RemovePath(s, p))) == multiset(Paths(s)) - multiset{p}
  {
    var k := IndexOfPath(s, p);
    RemovePathDropsFirst(s, p, k);
    PathsDelete(s, k);
    DeleteOne(Paths(s), k);
  }

  lemma DeleteOne<T>(s: seq<T>, k: nat)
    requires k < |s|
    ensures multiset(s[..k] + s[k + 1..]) == multiset(s) - multiset{s[k]}
  {
    assert s == s[..k] + [s[k]] + s[k + 1..];
  }

  /** Deleting one position of a duplicate-free list leaves a duplicate-free
      list without that element. */
  lemma DeleteKeepsNoDuplicates<T>(s: seq<T>, k: nat)
    requires NoDuplicates(s) && k < |s|
    ensures NoDuplicates(s[..k] + s[k + 1..]) && s[k] !in s[..k] + s[k + 1..]
  {
    var r := s[..k] + s[k + 1..];
    assert forall i :: 0 <= i < |r| ==> r[i] == s[if i < k then i else i + 1];
    forall i, j | 0 <= i < j < |r| ensures r[i] != r[j] {
      assert r[i] == s[if i < k then i else i + 1];
      assert r[j] == s[if j < k then j else j + 1];
    }
    forall i | 0 <= i < |r| ensures r[i] != s[k] {
      assert r[i] == s[if i < k then i else i + 1];
    }
  }

  /** `updateSelection(e)`: under single selection the list is cleared first;
      then the file of `e` is removed when present and `e` appended otherwise. */
  function Toggle(selected: seq<Entry>, e: Entry, multipleSelection: bool): (r: seq<Entry>)
    ensures !multipleSelection ==> r == [e]
    ensures multipleSelection && !Holds(selected, e) ==> r == selected + [e]
    ensures multipleSelection && Holds(selected, e) ==>
      |r| == |selected| - 1 && multiset(Paths(r)) == multiset(Paths(selected)) - multiset{e.path}
  {
    var base := if multipleSelection then selected else [];
    if Holds(base, e) then
      RemovePathCount(base, e.path);
      RemovePath(base, e.path)
    else base + [e]
  }

  /** A toggle keeps the selection free of repeated files, and afterwards the
      file of `e` is selected exactly when it was not before or selection is
      single. */
  lemma ToggleKeepsNoDuplicates(selected: seq<Entry>, e: Entry, multipleSelection: bool)
    requires NoDuplicates(Paths(selected))
    ensures var r := Toggle(selected, e, multipleSelection);
      NoDuplicates(Paths(r)) && (Holds(r, e) <==> !multipleSelection || !Holds(selected, e))
  {
    var r := Toggle(selected, e, multipleSelection);
    if !multipleSelection {
      assert Paths(r) == [e.path];
    } else if Holds(selected, e) {
      var k := IndexOfPath(selected, e.path);
      RemovePathDropsFirst(selected, e.path, k);
      PathsDelete(selected, k);
      DeleteKeepsNoDuplicates(Paths(selected), k);
    } else {
      PathsAppend(selected, [e]);
      assert r == selected + [e];
      var ps := Paths(selected) + [e.path];
      assert Paths(r) == ps && ps[|selected|] == e.path;
      forall i, j | 0 <= i < j < |ps| ensures ps[i] != ps[j] {
        if j == |selected| {
          assert ps[i] == Paths(selected)[i];
        }
      }
    }
  }

  /** A toggle selects nothing but `e` and what was already selected. */
  lemma ToggleAddsOnlyItsEntry(selected: seq<Entry>, e: Entry, multipleSelection: bool)
    ensures forall f :: f in Toggle(selected, e, multipleSelection) ==> f == e || f in selected
  {
    var base := if multipleSelection then selected else [];
    forall f | f in Toggle(selected, e, multipleSelection) ensures f == e || f in selected {
      if Holds(base, e) {
        assert f in RemovePath(base, e.path);
      }
    }
  }

  /** Under multiple selection, toggling an unselected file twice restores the
      list exactly. */
  lemma ToggleTwiceRestores(selected: seq<Entry>, e: Entry)
    requires !Holds(selected, e)
    ensures Toggle(Toggle(selected, e, true), e, true) == selected
  {
    var once := selected + [e];
    PathsAppend(selected, [e]);
    assert Holds(once, e) by { assert Paths(once)[|selected|] == e.path; }
    forall j | 0 <= j < |selected| ensures once[j].path != e.path {
      assert once[j].path == Paths(selected)[j];
    }
    RemovePathDropsFirst(once, e.path, |selected|);
    assert once[..|selected|] == selected;
  }

  /** Under multiple selection, toggling a selected file twice takes out the
      entry held for it and appends `e` at the end, so the same files stay
      selected. */
  lemma ToggleTwiceReorders(selected: seq<Entry>, e: Entry)
    requires NoDuplicates(Paths(selected)) && Holds(selected, e)
    ensures Toggle(Toggle(selected, e, true), e, true) == RemovePath(selected, e.path) + [e]
    ensures multiset(Paths(Toggle(Toggle(selected, e, true), e, true))) == multiset(Paths(selected))
  {
    ToggleKeepsNoDuplicates(selected, e, true);
    var once := RemovePath(selected, e.path);
    RemovePathCount(selected, e.path);
    PathsAppend(once, [e]);
    assert e.path in multiset(Paths(selected));
  }

  /** Under multiple selection, a file re-listed with a new size or
      modification time is still the file that was selected: toggling or
      unticking it deselects it. */
  lemma RelistedEntryIsSameFile(f: Entry, g: Entry)
    requires f.path == g.path
    ensures Toggle([f], g, true) == []
    ensures OnChecked([f], g, false, true) == []
  {
    assert Paths([f]) == [f.path];
  }

  /** Under single selection the list is cleared before the check, so toggling
      or unticking a re-listed selected file selects its new entry instead. */
  lemma RelistedEntryUnderSingleSelection(f: Entry, g: Entry)
    requires f.path == g.path
    ensures Toggle([f], g, false) == [g]
    ensures OnChecked([f], g, false, false) == [g]
  {
    assert Paths([f]) == [f.path];
  }

  /** Under single selection every toggle leaves exactly one entry selected, so
      the list never holds more than one and a toggle never empties it. */
  lemma SingleSelectionHoldsOne(selected: seq<Entry>, e: Entry, f: Entry)
    ensures |Toggle(selected, e, false)| == 1
    ensures Toggle(Toggle(selected, e, false), f, false) == [f]
  {
  }

  /** Selecting f1, then f2, then f1 again under multiple selection leaves only f2. */
  lemma ToggleScenario(f1: Entry, f2: Entry)
    requires f1.path != f2.path
    ensures Toggle(Toggle(Toggle([], f1, true), f2, true), f1, true) == [f2]
  {
    var s := Toggle(Toggle([], f1, true), f2, true);
    assert s == [f1, f2];
    assert Paths(s) == [f1.path, f2.path];
    RemovePathDropsFirst(s, f1.path, 0);
  }

  /** Which entries the mode allows to be selected. */
  predicate Selectable(mode: SelectionMode, e: Entry)
  {
    match mode
    case Both => true
    case Folder => e.isDirectory
    case File => !e.isDirectory
  }

  /** Whether row `position` of the list shows a checkbox: never the ".." row. */
  predicate CheckboxVisible(mode: SelectionMode, position: nat, e: Entry)
  {
    position > 0 && Selectable(mode, e)
  }

  /** The checkbox shows on every row after ".." in BOTH mode, on directories
      in FOLDER mode and on files in FILE mode. */
  lemma CheckboxRule(mode: SelectionMode, position: nat, e: Entry)
    ensures CheckboxVisible(mode, position, e) <==>
      position > 0 &&
      (mode == Both || (mode == Folder && e.isDirectory) || (mode == File && !e.isDirectory))
  {
  }

  /** The checkbox listener: a tick toggles, an untick toggles only a selected file. */
  function OnChecked(selected: seq<Entry>, e: Entry, isChecked: bool, multipleSelection: bool): (r: seq<Entry>)
    ensures !isChecked && !Holds(selected, e) ==> r == selected
    ensures !multipleSelection && (isChecked || Holds(selected, e)) ==> r == [e]
    ensures multipleSelection && isChecked && !Holds(selected, e) ==> r == selected + [e]
    ensures multipleSelection && Holds(selected, e) ==> r == RemovePath(selected, e.path)
  {
    if isChecked || Holds(selected, e) then Toggle(selected, e, multipleSelection) else selected
  }

  /** The listener keeps the selection free of repeated paths and at most one
      entry long under single selection, and adds nothing but `e`. */
  lemma OnCheckedKeepsSelection(selected: seq<Entry>, e: Entry, isChecked: bool, multipleSelection: bool)
    requires NoDuplicates(Paths(selected))
    requires !multipleSelection ==> |selected| <= 1
    ensures var r := OnChecked(selected, e, isChecked, multipleSelection);
      NoDuplicates(Paths(r)) && (!multipleSelection ==> |r| <= 1) &&
      forall f :: f in r ==> f == e || f in selected
  {
    if isChecked || Holds(selected, e) {
      ToggleKeepsNoDuplicates(selected, e, multipleSelection);
      ToggleAddsOnlyItsEntry(selected, e, multipleSelection);
    }
  }
}
