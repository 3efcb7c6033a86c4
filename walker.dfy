/** `getFilesInDirectory` of src/libs/Diff.js: the recursive listing of a
    directory tree.

    The file system is given as a tree of entries; `fs.readdir` is a
    directory's sequence of children and `fs.stat` is the entry's kind. The
    `Promise.all` fan-out is a sequential recursion that keeps the listing
    order. */
module Walker {
  import opened Paths

  /** A directory entry as `fs.stat` classifies it: a regular file, a
      directory with its children, or anything else (a socket, a device, ...). */
  datatype Entry = File(name: string) | Dir(name: string, children: seq<Entry>) | Other(name: string)

  /** `basename.startsWith(".")`. */
  predicate IsHidden(name: string)
  {
    |name| > 0 && name[0] == '.'
  }

  /** The files listed under `dir`, whose children are `entries`, in listing
      order. */
  function Walk(dir: Path, entries: seq<Entry>): (files: seq<Path>)
    ensures forall p :: p in files ==> |dir| < |p| && p[..|dir|] == dir && !IsHidden(Basename(p))
    decreases entries
  {
    if entries == [] then [] else EntryFiles(dir, entries[0]) + Walk(dir, entries[1..])
  }

  /** What one child of `dir` contributes to the listing: a visible regular
      file its own path, a directory, hidden or not, its whole listing, and
      any other entry nothing. */
  function EntryFiles(dir: Path, e: Entry): (files: seq<Path>)
    ensures forall p :: p in files ==> |dir| < |p| && p[..|dir|] == dir && !IsHidden(Basename(p))
    decreases e
  {
    match e
    case File(name) => if IsHidden(name) then [] else [dir + [name]]
    case Dir(name, children) =>
      var sub := Walk(dir + [name], children);
      assert forall p :: p in sub ==> p[..|dir|] == dir by {
        forall p | p in sub ensures p[..|dir|] == dir {
          assert p[..|dir|] == p[..|dir| + 1][..|dir|];
        }
      }
      sub
    case Other(_) => []
  }

  /** The reference definition: `rel` leads from the directory whose children
      are `entries`, through directories, to a regular file. */
  ghost predicate FileAt(entries: seq<Entry>, rel: Path)
    decreases entries
  {
    exists i :: 0 <= i < |entries| && EntryHasFile(entries[i], rel)
  }

  ghost predicate EntryHasFile(e: Entry, rel: Path)
    decreases e, 0
  {
    match e
    case File(name) => rel == [name]
    case Dir(name, children) => |rel| > 1 && rel[0] == name && FileAt(children, rel[1..])
    case Other(_) => false
  }

  /** A path under `dir` is listed exactly when it reaches a regular file of
      the tree whose name does not start with '.'; directories, hidden or
      not, are descended but never listed themselves. */
  lemma {:induction false} WalkListsVisibleFiles(dir: Path, entries: seq<Entry>, rel: Path)
    ensures dir + rel in Walk(dir, entries) <==> FileAt(entries, rel) && !IsHidden(Basename(rel))
    decreases entries
  {
    if entries != [] {
      var e, rest := entries[0], entries[1..];
      WalkListsVisibleFiles(dir, rest, rel);
      assert FileAt(entries, rel) <==> EntryHasFile(e, rel) || FileAt(rest, rel) by {
        if FileAt(rest, rel) {
          var i :| 0 <= i < |rest| && EntryHasFile(rest[i], rel);
          assert entries[i + 1] == rest[i];
        }
        if FileAt(entries, rel) && !EntryHasFile(e, rel) {
          var i :| 0 <= i < |entries| && EntryHasFile(entries[i], rel);
          assert i != 0;
          assert rest[i - 1] == entries[i];
        }
      }
      EntryListsVisibleFiles(dir, e, rel);
    }
  }

  lemma {:induction false} EntryListsVisibleFiles(dir: Path, e: Entry, rel: Path)
    ensures dir + rel in EntryFiles(dir, e) <==> EntryHasFile(e, rel) && !IsHidden(Basename(rel))
    decreases e, 1
  {
    match e
    case File(name) =>
      assert (dir + [name])[|dir|..] == [name];
      assert (dir + rel)[|dir|..] == rel;
    case Dir(_, _) =>
      DirListsVisibleFiles(dir, e, rel);
    case Other(_) =>
  }

  /** The directory case of `EntryListsVisibleFiles`: a directory lists what its
      own walk lists, each path one component below it. */
  lemma {:induction false} DirListsVisibleFiles(dir: Path, e: Entry, rel: Path)
    requires e.Dir?
    ensures dir + rel in EntryFiles(dir, e) <==> EntryHasFile(e, rel) && !IsHidden(Basename(rel))
    decreases e, 0
  {
    var p, sub := dir + rel, dir + [e.name];
    if |rel| > 1 && rel[0] == e.name {
      assert p == sub + rel[1..];
      assert Basename(rel) == Basename(rel[1..]);
      WalkListsVisibleFiles(sub, e.children, rel[1..]);
    } else {
      ListedBelow(dir, e.name, e.children, rel);
    }
  }

  /** Everything a subdirectory lists lies below it. */
  lemma ListedBelow(dir: Path, name: string, children: seq<Entry>, rel: Path)
    ensures dir + rel in Walk(dir + [name], children) ==> |rel| > 1 && rel[0] == name
  {
    var p, sub := dir + rel, dir + [name];
    if p in Walk(sub, children) {
      assert p[..|sub|][|dir|] == rel[0];
    }
  }

  /** A directory whose name starts with '.' is still descended: a visible file
      inside it is listed. */
  lemma {:induction false} HiddenDirectoryIsDescended(dir: Path, name: string, children: seq<Entry>, rel: Path)
    requires FileAt(children, rel) && !IsHidden(Basename(rel))
    ensures dir + [name] + rel in Walk(dir, [Dir(name, children)])
  {
    var full := [name] + rel;
    assert dir + [name] + rel == dir + full;
    assert FileAt(children, full[1..]) by { assert full[1..] == rel; }
    assert |rel| > 0 by {
      var i :| 0 <= i < |children| && EntryHasFile(children[i], rel);
      NonEmptyFilePath(children[i], rel);
    }
    assert Basename(full) == Basename(rel);
    assert EntryHasFile(Dir(name, children), full);
    WalkListsVisibleFiles(dir, [Dir(name, children)], full);
  }

  lemma NonEmptyFilePath(e: Entry, rel: Path)
    requires EntryHasFile(e, rel)
    ensures |rel| > 0
  {
  }
}
