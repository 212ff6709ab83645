/**
 * The host's file API as the server calls it: mkdir, rmdir, chdir, getcwd,
 * opendir/readdir, open, read and write.  The filesystem is a value: the
 * contents of every regular file, and for every directory the names
 * `readdir` yields besides "." and "..", in the order it yields them.
 * Every call resolves its path string against the process's current
 * directory and reports failure as C does (-1, NULL), here as `None`,
 * `BadFd` or `ReadFailed`.
 */
module Host {
  import opened Wrappers
  import opened Paths

  type Byte = b: int | 0 <= b < 256
  type Bytes = seq<Byte>

  datatype FileSystem = FileSystem(files: map<Path, Bytes>, dirs: map<Path, seq<Name>>)

  /** A file descriptor: -1 after a failed `open`, else the opened path. */
  datatype Fd = BadFd | Fd(path: Path)

  /** What `read` returns: -1, or the bytes it placed in the buffer. */
  datatype ReadResult = ReadFailed | Got(bytes: Bytes)

  function Parent(p: Path): Path
    requires p != []
  {
    p[..|p| - 1]
  }

  function Last(p: Path): Name
    requires p != []
  {
    p[|p| - 1]
  }

  /**
   * A path string whose final component can only be a directory: it ends
   * in '/', or its last component is "." or "..".
   */
  predicate NamesDirectory(s: string) {
    (|s| > 0 && s[|s| - 1] == '/') || Basename(s) == "." || Basename(s) == ".."
  }

  /** Every name a directory lists is an entry that exists. */
  ghost predicate EntriesExist(fs: FileSystem) {
    forall d, n :: d in fs.dirs && n in fs.dirs[d] ==> d + [n] in fs.files || d + [n] in fs.dirs
  }

  /** `entries` without the name `n`. */
  function Without(entries: seq<Name>, n: Name): (r: seq<Name>)
    ensures forall m :: m in r <==> m in entries && m != n
    ensures n !in entries ==> r == entries
  {
    if entries == [] then []
    else if entries[0] == n then Without(entries[1..], n)
    else [entries[0]] + Without(entries[1..], n)
  }

  /**
   * The path `p` named by `s` can be made a directory: it is not the root,
   * nothing is there yet, its parent is a directory, and `s` does not end
   * in "." or "..".
   */
  predicate CanMkdir(fs: FileSystem, p: Path, s: string) {
    p != [] && p !in fs.dirs && p !in fs.files && Parent(p) in fs.dirs &&
    Basename(s) != "." && Basename(s) != ".."
  }

  /**
   * The path `p` named by `s` can be removed: it is an empty directory
   * other than the root, its parent is a directory, and `s` does not end
   * in "." or "..".
   */
  predicate CanRmdir(fs: FileSystem, p: Path, s: string) {
    p != [] && p in fs.dirs && fs.dirs[p] == [] && Parent(p) in fs.dirs &&
    Basename(s) != "." && Basename(s) != ".."
  }

  /** mkdir(s, 0755): fails when the target exists or its parent does not. */
  function Mkdir(fs: FileSystem, cwd: Path, s: string): (r: Option<FileSystem>)
    ensures r.Some? <==> Resolve(cwd, s).Some? && CanMkdir(fs, Resolve(cwd, s).value, s)
    ensures r.Some? ==>
      var p := Resolve(cwd, s).value;
      r.value.files == fs.files && r.value.dirs.Keys == fs.dirs.Keys + {p} &&
      r.value.dirs[p] == [] && r.value.dirs[Parent(p)] == fs.dirs[Parent(p)] + [Last(p)]
    ensures r.Some? ==>
      var p := Resolve(cwd, s).value;
      forall d :: d in fs.dirs && d != Parent(p) ==> d in r.value.dirs && r.value.dirs[d] == fs.dirs[d]
  {
    match Resolve(cwd, s)
    case None => None
    case Some(p) =>
      if !CanMkdir(fs, p, s) then None
      else Some(FileSystem(fs.files, fs.dirs[p := []][Parent(p) := fs.dirs[Parent(p)] + [Last(p)]]))
  }

  /** rmdir(s): only an existing, empty directory other than the root goes. */
  function Rmdir(fs: FileSystem, cwd: Path, s: string): (r: Option<FileSystem>)
    ensures r.Some? <==> Resolve(cwd, s).Some? && CanRmdir(fs, Resolve(cwd, s).value, s)
    ensures r.Some? ==>
      var p := Resolve(cwd, s).value;
      r.value.files == fs.files && r.value.dirs.Keys == fs.dirs.Keys - {p} &&
      r.value.dirs[Parent(p)] == Without(fs.dirs[Parent(p)], Last(p))
    ensures r.Some? ==>
      var p := Resolve(cwd, s).value;
      forall d :: d in fs.dirs && d != p && d != Parent(p) ==> d in r.value.dirs && r.value.dirs[d] == fs.dirs[d]
  {
    match Resolve(cwd, s)
    case None => None
    case Some(p) =>
      if !CanRmdir(fs, p, s) then None
      else Some(FileSystem(fs.files, (fs.dirs - {p})[Parent(p) := Without(fs.dirs[Parent(p)], Last(p))]))
  }

  /** chdir(s): the new current directory, when `s` names a directory. */
  function Chdir(fs: FileSystem, cwd: Path, s: string): (r: Option<Path>)
    ensures r.Some? <==> Resolve(cwd, s).Some? && Resolve(cwd, s).value in fs.dirs
    ensures r.Some? ==> r.value == Resolve(cwd, s).value
  {
    match Resolve(cwd, s)
    case None => None
    case Some(p) => if p in fs.dirs then Some(p) else None
  }

  /** getcwd: fails once the current directory has been removed. */
  function Getcwd(fs: FileSystem, cwd: Path): (r: Option<string>)
    ensures r.Some? <==> cwd in fs.dirs
    ensures r.Some? && PlainPath(cwd) ==> forall base :: Resolve(base, r.value) == Some(cwd)
  {
    ResolveRenderAnywhere(cwd);
    if cwd in fs.dirs then Some(Render(cwd)) else None
  }

  /** opendir(s) followed by readdir until NULL: "." and ".." come first. */
  function ReadDir(fs: FileSystem, cwd: Path, s: string): (r: Option<seq<Name>>)
    ensures r.Some? <==> Resolve(cwd, s).Some? && Resolve(cwd, s).value in fs.dirs
    ensures r.Some? ==> r.value == [".", ".."] + fs.dirs[Resolve(cwd, s).value]
  {
    match Resolve(cwd, s)
    case None => None
    case Some(p) => if p in fs.dirs then Some([".", ".."] + fs.dirs[p]) else None
  }

  /**
   * The path `p` named by `s` opens for reading: a directory, or a regular
   * file named without a trailing '/', "." or "..".
   */
  predicate CanOpenRead(fs: FileSystem, p: Path, s: string) {
    p in fs.dirs || (p in fs.files && !NamesDirectory(s))
  }

  /**
   * The path `p` named by `s` opens for writing: `s` does not name a
   * directory, and `p` is an existing regular file or a new name in an
   * existing directory.
   */
  predicate CanOpenCreate(fs: FileSystem, p: Path, s: string) {
    !NamesDirectory(s) && p !in fs.dirs && (p in fs.files || (p != [] && Parent(p) in fs.dirs))
  }

  /** open(s, O_RDONLY): directories open too (reading them then fails). */
  function OpenRead(fs: FileSystem, cwd: Path, s: string): (r: Fd)
    ensures r.Fd? <==> Resolve(cwd, s).Some? && CanOpenRead(fs, Resolve(cwd, s).value, s)
    ensures r.Fd? ==> Resolve(cwd, s) == Some(r.path)
  {
    match Resolve(cwd, s)
    case None => BadFd
    case Some(p) =>
      if p in fs.dirs || (p in fs.files && !NamesDirectory(s)) then Fd(p) else BadFd
  }

  /**
   * read(fd, buf, max) at file offset `off`: -1 for a bad descriptor or a
   * directory, 0 bytes at end of file.
   */
  function ReadAt(fs: FileSystem, fd: Fd, off: nat, max: nat): (r: ReadResult)
    ensures r.Got? <==> fd.Fd? && fd.path in fs.files
    ensures r.Got? ==> |r.bytes| <= max
    ensures r.Got? && off <= |fs.files[fd.path]| ==>
      var c := fs.files[fd.path];
      off + |r.bytes| <= |c| && r.bytes == c[off..off + |r.bytes|] && (|r.bytes| == max || off + |r.bytes| == |c|)
  {
    match fd
    case BadFd => ReadFailed
    case Fd(p) =>
      if p !in fs.files then ReadFailed
      else
        var c := fs.files[p];
        if off >= |c| then Got([])
        else Got(c[off..if off + max < |c| then off + max else |c|])
  }

  /**
   * open(s, O_CREAT | O_WRONLY): an existing file is opened as it is (it is
   * not truncated); a missing one is created empty and listed in its parent.
   */
  function OpenCreate(fs: FileSystem, cwd: Path, s: string): (r: (FileSystem, Fd))
    ensures r.1.Fd? <==> Resolve(cwd, s).Some? && CanOpenCreate(fs, Resolve(cwd, s).value, s)
    ensures r.1.Fd? ==> Resolve(cwd, s) == Some(r.1.path) && r.1.path in r.0.files
    ensures r.0 == fs || (r.1.Fd? && r.1.path !in fs.files && r.0.files == fs.files[r.1.path := []] &&
      r.1.path != [] && Parent(r.1.path) in fs.dirs &&
      r.0.dirs == fs.dirs[Parent(r.1.path) := fs.dirs[Parent(r.1.path)] + [Last(r.1.path)]])
  {
    match Resolve(cwd, s)
    case None => (fs, BadFd)
    case Some(p) =>
      if p in fs.dirs || NamesDirectory(s) then (fs, BadFd)
      else if p in fs.files then (fs, Fd(p))
      else if p != [] && Parent(p) in fs.dirs then
        (FileSystem(fs.files[p := []], fs.dirs[Parent(p) := fs.dirs[Parent(p)] + [Last(p)]]), Fd(p))
      else (fs, BadFd)
  }

  /** `c` with `data` written over it from offset `off`, growing it if need be. */
  function Splice(c: Bytes, off: nat, data: Bytes): (r: Bytes)
    requires off <= |c|
    ensures |r| == if off + |data| < |c| then |c| else off + |data|
    ensures r[..off] == c[..off] && r[off..off + |data|] == data
    ensures forall i :: off + |data| <= i < |c| ==> r[i] == c[i]
  {
    c[..off] + data + (if off + |data| < |c| then c[off + |data|..] else [])
  }

  /** write(fd, data, |data|) at file offset `off`: -1 for a bad descriptor. */
  function WriteAt(fs: FileSystem, fd: Fd, off: nat, data: Bytes): (r: Option<FileSystem>)
    requires fd.Fd? && fd.path in fs.files ==> off <= |fs.files[fd.path]|
    ensures r.Some? <==> fd.Fd? && fd.path in fs.files
    ensures r.Some? ==> r.value == fs.(files := fs.files[fd.path := Splice(fs.files[fd.path], off, data)])
  {
    match fd
    case BadFd => None
    case Fd(p) =>
      if p in fs.files then Some(fs.(files := fs.files[p := Splice(fs.files[p], off, data)])) else None
  }

  /** Adding an empty entry and listing it, then undoing both, restores the map. */
  lemma UndoAddDir(m: map<Path, seq<Name>>, p: Path, par: Path, n: Name)
    requires p !in m && par in m && n !in m[par] && p != par
    ensures (m[p := []][par := m[par] + [n]] - {p})[par := Without(m[par] + [n], n)] == m
  {
    var e := m[par];
    assert Without(e + [n], n) == e by {
      WithoutAppend(e, n);
    }
  }

  lemma {:induction false} WithoutAppend(e: seq<Name>, n: Name)
    requires n !in e
    ensures Without(e + [n], n) == e
  {
    if e != [] {
      assert (e + [n])[1..] == e[1..] + [n];
      WithoutAppend(e[1..], n);
      assert [e[0]] + e[1..] == e;
    } else {
      assert Without([n], n) == Without([], n);
    }
  }

  /** A successful mkdir, unfolded: the target, its parent and the new filesystem. */
  lemma MkdirSome(fs: FileSystem, cwd: Path, s: string)
    requires Mkdir(fs, cwd, s).Some?
    ensures var p := Resolve(cwd, s).value;
      p != [] && Basename(s) != "." && Basename(s) != ".." &&
      Mkdir(fs, cwd, s).value == FileSystem(fs.files, fs.dirs[p := []][Parent(p) := fs.dirs[Parent(p)] + [Last(p)]])
  {
  }

  /** rmdir of an existing empty directory whose parent exists, unfolded. */
  lemma RmdirSome(fs: FileSystem, cwd: Path, s: string, p: Path)
    requires Resolve(cwd, s) == Some(p) && p != [] && Basename(s) != "." && Basename(s) != ".."
    requires p in fs.dirs && fs.dirs[p] == [] && Parent(p) in fs.dirs
    ensures Rmdir(fs, cwd, s) == Some(FileSystem(fs.files, (fs.dirs - {p})[Parent(p) := Without(fs.dirs[Parent(p)], Last(p))]))
  {
  }

  /** A path that does not exist is not listed in its parent. */
  lemma NotListed(fs: FileSystem, p: Path)
    requires EntriesExist(fs) && p != [] && p !in fs.dirs && p !in fs.files && Parent(p) in fs.dirs
    ensures Last(p) !in fs.dirs[Parent(p)]
  {
    assert Parent(p) + [Last(p)] == p;
  }

  /** Removing a directory just made gives back the filesystem as it was. */
  lemma MkdirThenRmdir(fs: FileSystem, cwd: Path, s: string)
    requires EntriesExist(fs)
    requires Mkdir(fs, cwd, s).Some?
    ensures Rmdir(Mkdir(fs, cwd, s).value, cwd, s) == Some(fs)
  {
    var p := Resolve(cwd, s).value;
    var par, n := Parent(p), Last(p);
    NotListed(fs, p);
    assert p != par by { assert |p| != |par|; }
    MkdirSome(fs, cwd, s);
    var fs' := FileSystem(fs.files, fs.dirs[p := []][par := fs.dirs[par] + [n]]);
    assert fs'.dirs[p] == [] && par in fs'.dirs && fs'.dirs[par] == fs.dirs[par] + [n];
    RmdirSome(fs', cwd, s, p);
    UndoAddDir(fs.dirs, p, par, n);
  }


  /** A path made of a directory and one more name determines both. */
  lemma ChildOf(d: Path, n: Name, p: Path)
    requires d + [n] == p
    ensures p != [] && d == Parent(p) && n == Last(p)
  {
    assert (d + [n])[..|d|] == d;
  }

  /**
   * Adding the name of a new entry `p` to its parent's listing, with `p`
   * made to exist, keeps every listed name existing.
   */
  lemma AddChildKeepsEntries(fs: FileSystem, fs': FileSystem, p: Path)
    requires EntriesExist(fs) && p != [] && Parent(p) in fs.dirs
    requires fs.files.Keys <= fs'.files.Keys && fs.dirs.Keys <= fs'.dirs.Keys
    requires p in fs'.files || p in fs'.dirs
    requires fs'.dirs == fs.dirs[Parent(p) := fs.dirs[Parent(p)] + [Last(p)]] ||
             fs'.dirs == fs.dirs[p := []][Parent(p) := fs.dirs[Parent(p)] + [Last(p)]]
    ensures EntriesExist(fs')
  {
    var par := Parent(p);
    assert par + [Last(p)] == p;
    forall d, n | d in fs'.dirs && n in fs'.dirs[d]
      ensures d + [n] in fs'.files || d + [n] in fs'.dirs
    {
      if d == par {
        if n !in fs.dirs[d] {
          assert n == Last(p);
        }
      } else if d != p || p in fs.dirs {
        assert d in fs.dirs && fs'.dirs[d] == fs.dirs[d];
      }
    }
  }

  /** mkdir lists the new directory in its parent, so every listed name still exists. */
  lemma MkdirKeepsEntries(fs: FileSystem, cwd: Path, s: string)
    requires EntriesExist(fs) && Mkdir(fs, cwd, s).Some?
    ensures EntriesExist(Mkdir(fs, cwd, s).value)
  {
    MkdirSome(fs, cwd, s);
    AddChildKeepsEntries(fs, Mkdir(fs, cwd, s).value, Resolve(cwd, s).value);
  }

  /** rmdir drops the removed directory's name from its parent. */
  lemma RmdirKeepsEntries(fs: FileSystem, cwd: Path, s: string)
    requires EntriesExist(fs) && Rmdir(fs, cwd, s).Some?
    ensures EntriesExist(Rmdir(fs, cwd, s).value)
  {
    var fs' := Rmdir(fs, cwd, s).value;
    var p := Resolve(cwd, s).value;
    forall d, n | d in fs'.dirs && n in fs'.dirs[d]
      ensures d + [n] in fs'.files || d + [n] in fs'.dirs
    {
      assert d in fs.dirs && d != p;
      if d == Parent(p) {
        assert n in fs.dirs[d] && n != Last(p);
      } else {
        assert fs'.dirs[d] == fs.dirs[d];
      }
      if d + [n] == p {
        ChildOf(d, n, p);
      }
    }
  }

  /** Creating a file lists it in its parent, so every listed name still exists. */
  lemma OpenCreateKeepsEntries(fs: FileSystem, cwd: Path, s: string)
    requires EntriesExist(fs)
    ensures EntriesExist(OpenCreate(fs, cwd, s).0)
  {
    var r := OpenCreate(fs, cwd, s);
    if r.0 != fs {
      var p := Resolve(cwd, s).value;
      assert p != [] && Parent(p) in fs.dirs && p !in fs.files && p !in fs.dirs;
      assert r.0 == FileSystem(fs.files[p := []], fs.dirs[Parent(p) := fs.dirs[Parent(p)] + [Last(p)]]);
      AddChildKeepsEntries(fs, r.0, p);
    }
  }

  /** Rewriting the bytes of an existing file keeps every listed name. */
  lemma RewriteKeepsEntries(fs: FileSystem, p: Path, c: Bytes)
    requires EntriesExist(fs) && p in fs.files
    ensures EntriesExist(fs.(files := fs.files[p := c]))
  {
  }
}
