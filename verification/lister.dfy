/** `listFiles(root)`: keep the entries the selection mode and extension list
    allow, then sort them stably with the two-level comparator of `Ordering`. */
module Lister {
  import opened Files
  import opened PickerOptions
  import opened Ordering
  import opened StableSort

  /** The filter predicate of `listFiles`, one branch per selection mode. */
  predicate Keep(mode: SelectionMode, extensions: seq<string>, e: Entry)
  {
    match mode
    case Folder => e.isDirectory
    case Both =>
      if |extensions| == 0 then true
      else if e.isDirectory then true
      else e.Extension() in extensions
    case File =>
      if |extensions| == 0 || e.isDirectory then true
      else e.Extension() in extensions
  }

  /** Outside FOLDER mode every directory is kept, and a file is kept exactly
      when no extension is given or its extension equals one of them. */
  lemma KeepRule(mode: SelectionMode, extensions: seq<string>, e: Entry)
    ensures mode == Folder ==> (Keep(mode, extensions, e) <==> e.isDirectory)
    ensures mode != Folder ==>
      (Keep(mode, extensions, e) <==> e.isDirectory || |extensions| == 0 || exists x :: x in extensions && e.Extension() == x)
  {
  }

  /** `filter { Keep }`. */
  function Filter(mode: SelectionMode, extensions: seq<string>, s: seq<Entry>): seq<Entry>
  {
    if s == [] then []
    else if Keep(mode, extensions, s[0]) then [s[0]] + Filter(mode, extensions, s[1..])
    else Filter(mode, extensions, s[1..])
  }

  /** The filter keeps exactly the entries that pass, each as often as in the input. */
  lemma {:induction false} FilterSpec(mode: SelectionMode, extensions: seq<string>, s: seq<Entry>)
    ensures var r := Filter(mode, extensions, s);
      (forall e :: e in r <==> e in s && Keep(mode, extensions, e)) &&
      (forall e :: multiset(r)[e] == if Keep(mode, extensions, e) then multiset(s)[e] else 0)
  {
    if s != [] {
      FilterSpec(mode, extensions, s[1..]);
      assert s == [s[0]] + s[1..];
    }
  }

  /** The comparator `listFiles` hands to `sortedWith`. */
  function Comparator(order: SortBy): (Entry, Entry) -> int
  {
    (a, b) => Cmp(order, a, b)
  }

  lemma ComparatorTotalPreorder(order: SortBy)
    ensures TotalPreorder(Comparator(order))
  {
    var cmp := Comparator(order);
    forall a, b ensures cmp(a, b) == -cmp(b, a) {
      CmpFlip(order, a, b);
    }
    forall a, b, c | cmp(a, b) <= 0 && cmp(b, c) <= 0 ensures cmp(a, c) <= 0 {
      CmpTrans(order, a, b, c);
    }
  }

  /** `listFiles`: the entries of the directory that the options admit, ordered. */
  function ListFiles(mode: SelectionMode, extensions: seq<string>, order: SortBy, entries: seq<Entry>): (r: seq<Entry>)
    ensures forall e :: e in r <==> e in entries && Keep(mode, extensions, e)
    ensures multiset(r) == multiset(Filter(mode, extensions, entries))
  {
    FilterSpec(mode, extensions, entries);
    Sort(Comparator(order), Filter(mode, extensions, entries))
  }

  // ----------------------------------------------------- listing properties

  /** Every directory precedes every file, and within each group entries
      follow the `sortBy` key in its direction, whatever `sortBy` is. */
  lemma ListFilesOrdered(mode: SelectionMode, extensions: seq<string>, order: SortBy, entries: seq<Entry>)
    ensures var r := ListFiles(mode, extensions, order, entries);
      (forall i, j :: 0 <= i < j < |r| ==> InOrder(order, r[i], r[j])) &&
      (forall i, j :: 0 <= i < j < |r| && r[j].isDirectory ==> r[i].isDirectory)
  {
    var r := ListFiles(mode, extensions, order, entries);
    ComparatorTotalPreorder(order);
    SortSorted(Comparator(order), Filter(mode, extensions, entries));
    forall i, j | 0 <= i < j < |r| ensures InOrder(order, r[i], r[j]) {
      assert Comparator(order)(r[i], r[j]) <= 0;
      CmpMeansInOrder(order, r[i], r[j]);
    }
  }

  /** Entries whose keys tie appear in the listing in the order the directory gave them. */
  lemma ListFilesStable(mode: SelectionMode, extensions: seq<string>, order: SortBy, entries: seq<Entry>, x: Entry)
    ensures var cmp := Comparator(order);
      Ties(cmp, ListFiles(mode, extensions, order, entries), x) == Ties(cmp, Filter(mode, extensions, entries), x)
  {
    ComparatorTotalPreorder(order);
    SortStable(Comparator(order), Filter(mode, extensions, entries), x);
  }

  /** The listing is the only ordered permutation of the kept entries that keeps
      ties in directory order, so any stable sort gives this same listing. */
  lemma ListFilesCharacterised(mode: SelectionMode, extensions: seq<string>, order: SortBy, entries: seq<Entry>, r: seq<Entry>)
    requires multiset(r) == multiset(Filter(mode, extensions, entries))
    requires forall i, j :: 0 <= i < j < |r| ==> InOrder(order, r[i], r[j])
    requires forall x :: Ties(Comparator(order), r, x) == Ties(Comparator(order), Filter(mode, extensions, entries), x)
    ensures r == ListFiles(mode, extensions, order, entries)
  {
    ComparatorTotalPreorder(order);
    forall i, j | 0 <= i < j < |r| ensures Comparator(order)(r[i], r[j]) <= 0 {
      CmpMeansInOrder(order, r[i], r[j]);
    }
    SortCharacterised(Comparator(order), Filter(mode, extensions, entries), r);
  }

  /** In FOLDER mode the listing holds directories only. */
  lemma FolderListsDirectoriesOnly(extensions: seq<string>, order: SortBy, entries: seq<Entry>)
    ensures forall e :: e in ListFiles(Folder, extensions, order, entries) ==> e.isDirectory
  {
  }

  lemma {:induction false} FilterFileBothAlike(extensions: seq<string>, s: seq<Entry>)
    ensures Filter(File, extensions, s) == Filter(Both, extensions, s)
  {
    if s != [] {
      FilterFileBothAlike(extensions, s[1..]);
    }
  }

  /** FILE and BOTH modes list a directory identically. */
  lemma FileAndBothListAlike(extensions: seq<string>, order: SortBy, entries: seq<Entry>)
    ensures ListFiles(File, extensions, order, entries) == ListFiles(Both, extensions, order, entries)
  {
    FilterFileBothAlike(extensions, entries);
  }
}

/** Two worked listings: a FILE picker filtering on extensions, and a FOLDER picker. */
module ListerExamples {
  import opened Files
  import opened PickerOptions
  import opened Lister
  import opened StableSort

  const zip := Entry("/d/a.zip", "a.zip", false, 10, 1, true, Some("/d"))
  const txt := Entry("/d/b.txt", "b.txt", false, 20, 2, true, Some("/d"))
  const sub := Entry("/d/sub", "sub", true, 0, 3, true, Some("/d"))
  const sub1 := Entry("/d/sub1", "sub1", true, 0, 4, true, Some("/d"))
  const sub2 := Entry("/d/sub2", "sub2", true, 0, 5, true, Some("/d"))

  lemma ExampleExtensions()
    ensures zip.Extension() == "zip" && txt.Extension() == "txt"
  {
    assert LastIndexOf("a.zip", '.') == 1;
    assert LastIndexOf("b.txt", '.') == 1;
  }

  function KeptPart(mode: SelectionMode, extensions: seq<string>, e: Entry): seq<Entry>
  {
    if Keep(mode, extensions, e) then [e] else []
  }

  lemma FilterCons(mode: SelectionMode, extensions: seq<string>, s: seq<Entry>)
    requires s != []
    ensures Filter(mode, extensions, s) == KeptPart(mode, extensions, s[0]) + Filter(mode, extensions, s[1..])
  {
  }

  lemma FilterOfThree(mode: SelectionMode, extensions: seq<string>, a: Entry, b: Entry, c: Entry)
    ensures Filter(mode, extensions, [a, b, c]) ==
      KeptPart(mode, extensions, a) + (KeptPart(mode, extensions, b) + KeptPart(mode, extensions, c))
  {
    var s := [a, b, c];
    var t, u := s[1..], s[1..][1..];
    assert t == [b, c] && u == [c] && u[1..] == [];
    FilterCons(mode, extensions, u);
    assert Filter(mode, extensions, u) == KeptPart(mode, extensions, c) + [];
    FilterCons(mode, extensions, t);
    FilterCons(mode, extensions, s);
  }

  lemma KeepFileExample()
    ensures Keep(File, ["zip", "tar"], zip)
    ensures !Keep(File, ["zip", "tar"], txt)
    ensures Keep(File, ["zip", "tar"], sub)
  {
    ExampleExtensions();
    assert "txt" != "zip" && "txt" != "tar" by {
      assert "txt"[0] != "zip"[0] && "txt"[1] != "tar"[1];
    }
  }

  lemma SortPair(cmp: (Entry, Entry) -> int, a: Entry, b: Entry)
    ensures Sort(cmp, [a, b]) == if cmp(a, b) <= 0 then [a, b] else [b, a]
  {
    var s, one := [a, b], [a];
    assert s[..1] == one && s[1] == b;
    assert one[..0] == [] && one[0] == a;
    assert Sort(cmp, one) == one;
    assert Sort(cmp, s) == Insert(cmp, one, b);
    assert Insert(cmp, [], b) == [b];
  }

  lemma FilterFileExample()
    ensures Filter(File, ["zip", "tar"], [zip, txt, sub]) == [zip, sub]
  {
    KeepFileExample();
    FilterOfThree(File, ["zip", "tar"], zip, txt, sub);
    assert [zip] + [] + [sub] == [zip, sub];
  }

  /** FILE mode with extensions "zip" and "tar": the directory comes first and
      the text file is dropped. */
  lemma FileModeWithExtensions()
    ensures ListFiles(File, ["zip", "tar"], NameAsc, [zip, txt, sub]) == [sub, zip]
  {
    FilterFileExample();
    SortPair(Comparator(NameAsc), zip, sub);
  }

  lemma LowerKeeps(s: string)
    requires forall i :: 0 <= i < |s| ==> !('A' <= s[i] <= 'Z')
    ensures Ordering.Lower(s) == s
  {
  }

  lemma SubNamesOrdered()
    ensures Ordering.LexCmp(Ordering.Lower("sub1"), Ordering.Lower("sub2")) < 0
  {
    LowerKeeps("sub1");
    LowerKeeps("sub2");
    assert Ordering.LexCmp("1", "2") == -1;
    assert "sub1"[1..] == "ub1" && "ub1"[1..] == "b1" && "b1"[1..] == "1";
    assert "sub2"[1..] == "ub2" && "ub2"[1..] == "b2" && "b2"[1..] == "2";
  }

  lemma FilterFolderExample()
    ensures Filter(Folder, [], [zip, sub1, sub2]) == [sub1, sub2]
  {
    FilterOfThree(Folder, [], zip, sub1, sub2);
    assert [] + [sub1] + [sub2] == [sub1, sub2];
  }

  /** FOLDER mode: only the two directories, by name ascending. */
  lemma FolderModeByName()
    ensures ListFiles(Folder, [], NameAsc, [zip, sub1, sub2]) == [sub1, sub2]
  {
    FilterFolderExample();
    SubNamesOrdered();
    SortPair(Comparator(NameAsc), sub1, sub2);
  }
}
