/** The file system as the picker sees it: a snapshot of what `java.io.File`
    reports about each path (name, kind, size, modification time, readability,
    parent) and what `File.listFiles()` returns for each directory. */
module Files {

  datatype Option<+T> = None | Some(value: T)

  type Path = string

  /** One file or directory as reported by the file system at listing time. */
  datatype Entry = Entry(
    path: Path,
    name: string,
    isDirectory: bool,
    length: int,        // `File.length()`; platform-defined for directories
    lastModified: int,  // `File.lastModified()`
    readable: bool,     // `File.canRead()`
    parent: Option<Path> // `File.parentFile`, None at a file-system root
  )
  {
    /** `File.extension`: the part of the name after its last '.', or "". */
    function Extension(): string
    {
      ExtensionOf(name)
    }
  }

  /** Index of the last `c` in `s`, or -1 when there is none. */
  function LastIndexOf(s: string, c: char): (k: int)
    ensures -1 <= k < |s|
    ensures k >= 0 ==> s[k] == c && forall j :: k < j < |s| ==> s[j] != c
    ensures k == -1 ==> c !in s
  {
    if |s| == 0 then -1
    else if s[|s| - 1] == c then |s| - 1
    else LastIndexOf(s[..|s| - 1], c)
  }

  /** Kotlin's `s.substringAfterLast(c, "")`: what follows the last `c`. */
  function AfterLast(s: string, c: char): (t: string)
    ensures c !in t
    ensures c !in s ==> t == ""
    ensures c in s ==>
      |t| < |s| && s[|s| - |t| - 1] == c && s[|s| - |t|..] == t
  {
    var k := LastIndexOf(s, c);
    if k < 0 then "" else s[k + 1..]
  }

  /** `File.extension`. */
  function ExtensionOf(name: string): string
  {
    AfterLast(name, '.')
  }

  /** `File(p).name` for a path without a trailing separator: its last segment. */
  function NameOf(p: Path): string
  {
    if '/' in p then AfterLast(p, '/') else p
  }

  /** `File(p).parent`: the path before the last separator, "/" for a child of
      the root, and none for the root or a path without a separator. */
  function ParentPathOf(p: Path): Option<Path>
  {
    var k := LastIndexOf(p, '/');
    if k < 0 || p == "/" then None
    else if k == 0 then Some("/")
    else Some(p[..k])
  }

  /** A path with a separator is its parent, a separator unless the parent is
      the root, and its name; the name holds no separator. */
  lemma ParentAndNameSplitPath(p: Path)
    requires '/' in p && p != "/"
    ensures ParentPathOf(p).Some? && '/' !in NameOf(p)
    ensures var q := ParentPathOf(p).value;
      (q == "/" && p == q + NameOf(p)) || p == q + "/" + NameOf(p)
  {
    var k := LastIndexOf(p, '/');
    assert NameOf(p) == p[k + 1..];
    if k == 0 {
      assert p == "/" + p[1..];
    } else {
      assert p == p[..k] + "/" + p[k + 1..];
    }
  }

  /** The directory tree at one moment: attributes per path and, per directory
      that can be enumerated, the entries `listFiles()` returns. */
  datatype FileSystem = FileSystem(entries: map<Path, Entry>, listing: map<Path, seq<Entry>>)

  /** `File(p)`: the entry at `p`, or, when nothing is there, an unreadable
      non-directory that still has the name and parent the path spells. */
  function Resolve(fs: FileSystem, p: Path): (e: Entry)
    ensures p in fs.entries ==> e == fs.entries[p]
    ensures p !in fs.entries ==>
      e.path == p && !e.readable && !e.isDirectory &&
      e.name == NameOf(p) && e.parent == ParentPathOf(p)
  {
    if p in fs.entries then fs.entries[p]
    else Entry(p, NameOf(p), false, 0, 0, false, ParentPathOf(p))
  }

  /** `dir.listFiles()?.toList() ?: emptyList()`: a directory that cannot be
      enumerated lists as empty. */
  function Children(fs: FileSystem, dir: Entry): seq<Entry>
  {
    if dir.path in fs.listing then fs.listing[dir.path] else []
  }

  /** `e.parentFile`. */
  function ParentFile(fs: FileSystem, e: Entry): (p: Option<Entry>)
    ensures p.Some? <==> e.parent.Some?
    ensures p.Some? ==> p.value == Resolve(fs, e.parent.value)
  {
    match e.parent
    case None => None
    case Some(q) => Some(Resolve(fs, q))
  }

  /** `File(dir, name).path`: the name appended to the directory's path with
      one separator, none added after the root. */
  function ChildPath(d: Path, name: string): Path
  {
    if d == "/" then "/" + name else d + "/" + name
  }

  /** The parent a child path spells is the directory it was made from. */
  lemma ParentOfChild(d: Path, name: string)
    requires d != "" && name != "" && '/' !in name
    ensures ParentPathOf(ChildPath(d, name)) == Some(d)
  {
    var p := ChildPath(d, name);
    var i := if d == "/" then 0 else |d|;
    assert p[i] == '/';
    assert p[i + 1..] == name;
    forall j | i < j < |p| ensures p[j] != '/' {
      assert p[j] == name[j - i - 1];
    }
    var k := LastIndexOf(p, '/');
    assert k == i;
    assert i > 0 ==> p[..i] == d;
  }

  /** A snapshot `java.io.File` could have produced: every recorded entry
      carries its own path and the parent that path spells, and every listed
      entry is `File(dir, name)` for the listing directory and a plain name. */
  predicate WellFormed(fs: FileSystem)
  {
    (forall q :: q in fs.entries ==>
      fs.entries[q].path == q && fs.entries[q].parent == ParentPathOf(q)) &&
    (forall d, e :: d in fs.listing && e in fs.listing[d] ==>
      d != "" && e.name != "" && '/' !in e.name &&
      e.path == ChildPath(d, e.name) && e.parent == ParentPathOf(e.path))
  }

  /** In a well-formed snapshot `File(q).parentFile` is the file at the parent
      path `q` spells ("/" for a child of the root), whether or not anything
      exists at `q`. */
  lemma ParentOfResolved(fs: FileSystem, q: Path)
    requires WellFormed(fs) && '/' in q && q != "/"
    ensures ParentFile(fs, Resolve(fs, q)) == Some(Resolve(fs, ParentPathOf(q).value))
    ensures Resolve(fs, ParentPathOf(q).value).path == ParentPathOf(q).value
  {
    ParentAndNameSplitPath(q);
  }

  /** In a well-formed snapshot the ".." of a listed entry is the directory
      that listed it. */
  lemma ParentOfListed(fs: FileSystem, d: Path, e: Entry)
    requires WellFormed(fs) && d in fs.listing && e in fs.listing[d]
    ensures ParentFile(fs, e) == Some(Resolve(fs, d))
  {
    ParentOfChild(d, e.name);
  }

  /** `e.parentFile?.canRead() == true` */
  predicate ParentReadable(fs: FileSystem, e: Entry)
  {
    ParentFile(fs, e).Some? && ParentFile(fs, e).value.readable
  }
}
