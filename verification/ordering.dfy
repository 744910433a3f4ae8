/** The comparator `listFiles` sorts with: `compareBy { !isDirectory }` (directories
    first) then the key chosen by `SortBy`. Every comparison returns its sign only. */
module Ordering {
  import opened Files
  import opened PickerOptions

  /** `String.compareTo`: lexicographic on characters, a proper prefix first. */
  function LexCmp(a: string, b: string): (c: int)
    ensures -1 <= c <= 1
    ensures c == 0 <==> a == b
  {
    if a == [] && b == [] then 0
    else if a == [] then -1
    else if b == [] then 1
    else if a[0] < b[0] then -1
    else if a[0] > b[0] then 1
    else
      var c := LexCmp(a[1..], b[1..]);
      assert a == [a[0]] + a[1..] && b == [b[0]] + b[1..];
      c
  }

  lemma {:induction false} LexCmpFlip(a: string, b: string)
    ensures LexCmp(a, b) == -LexCmp(b, a)
  {
    if a != [] && b != [] && a[0] == b[0] {
      LexCmpFlip(a[1..], b[1..]);
    }
  }

  lemma {:induction false} LexCmpTrans(a: string, b: string, c: string)
    requires LexCmp(a, b) <= 0 && LexCmp(b, c) <= 0
    ensures LexCmp(a, c) <= 0
  {
    if a != [] && b != [] && c != [] && a[0] == b[0] == c[0] {
      LexCmpTrans(a[1..], b[1..], c[1..]);
    }
  }

  /** `Char.lowercase` restricted to ASCII letters. */
  function LowerChar(ch: char): char
  {
    if 'A' <= ch <= 'Z' then (ch as int + 32) as char else ch
  }

  /** `String.lowercase(Locale)` restricted to ASCII letters. */
  function Lower(s: string): (r: string)
    ensures |r| == |s|
  {
    seq(|s|, i requires 0 <= i < |s| => LowerChar(s[i]))
  }

  function IntCmp(x: int, y: int): int
  {
    if x < y then -1 else if x > y then 1 else 0
  }

  /** The second comparator, picked by `sortBy`; the descending forms compare
      the keys the other way round (`compareByDescending`). */
  function KeyCmp(order: SortBy, a: Entry, b: Entry): (c: int)
    ensures -1 <= c <= 1
  {
    match order
    case NameAsc => LexCmp(Lower(a.name), Lower(b.name))
    case NameDesc => LexCmp(Lower(b.name), Lower(a.name))
    case SizeAsc => IntCmp(a.length, b.length)
    case SizeDesc => IntCmp(b.length, a.length)
    case DateModifiedAsc => IntCmp(a.lastModified, b.lastModified)
    case DateModifiedDesc => IntCmp(b.lastModified, a.lastModified)
  }

  /** `compareBy<File> { !it.isDirectory }.then(KeyCmp)`: false sorts before true. */
  function Cmp(order: SortBy, a: Entry, b: Entry): (c: int)
    ensures -1 <= c <= 1
    ensures a.isDirectory && !b.isDirectory ==> c < 0
    ensures !a.isDirectory && b.isDirectory ==> c > 0
  {
    if a.isDirectory == b.isDirectory then KeyCmp(order, a, b)
    else if a.isDirectory then -1
    else 1
  }

  /** `a` may stand before `b`, stated directly on the attributes: same kind and
      the key of `a` not after that of `b` in the chosen direction, or `a` a
      directory and `b` a file. */
  predicate InOrder(order: SortBy, a: Entry, b: Entry)
  {
    if a.isDirectory != b.isDirectory then a.isDirectory
    else match order
      case NameAsc => LexCmp(Lower(a.name), Lower(b.name)) <= 0
      case NameDesc => LexCmp(Lower(b.name), Lower(a.name)) <= 0
      case SizeAsc => a.length <= b.length
      case SizeDesc => a.length >= b.length
      case DateModifiedAsc => a.lastModified <= b.lastModified
      case DateModifiedDesc => a.lastModified >= b.lastModified
  }

  /** The comparator says "not after" exactly when the attributes are in order. */
  lemma CmpMeansInOrder(order: SortBy, a: Entry, b: Entry)
    ensures Cmp(order, a, b) <= 0 <==> InOrder(order, a, b)
  {
  }

  /** The comparator is antisymmetric in sign. */
  lemma CmpFlip(order: SortBy, a: Entry, b: Entry)
    ensures Cmp(order, a, b) == -Cmp(order, b, a)
  {
    if a.isDirectory == b.isDirectory && order in {NameAsc, NameDesc} {
      LexCmpFlip(Lower(a.name), Lower(b.name));
    }
  }

  /** "Not after" is transitive, so the comparator is a total preorder. */
  lemma CmpTrans(order: SortBy, a: Entry, b: Entry, c: Entry)
    requires Cmp(order, a, b) <= 0 && Cmp(order, b, c) <= 0
    ensures Cmp(order, a, c) <= 0
  {
    if a.isDirectory == b.isDirectory == c.isDirectory {
      match order
      case NameAsc => LexCmpTrans(Lower(a.name), Lower(b.name), Lower(c.name));
      case NameDesc => LexCmpTrans(Lower(c.name), Lower(b.name), Lower(a.name));
      case _ =>
    }
  }

  /** Two entries tie when the comparator puts neither first; ties are an
      equivalence, so `sortedWith` keeps them in input order as a class. */
  lemma TieTrans(order: SortBy, a: Entry, b: Entry, c: Entry)
    requires Cmp(order, a, b) == 0 && Cmp(order, b, c) == 0
    ensures Cmp(order, a, c) == 0
  {
    CmpTrans(order, a, b, c);
    CmpFlip(order, a, b);
    CmpFlip(order, b, c);
    CmpTrans(order, c, b, a);
    CmpFlip(order, a, c);
  }
}
