/**
 * Path names as the server passes them to the host's file API.
 *
 * A path string is resolved against the process's current directory into a
 * sequence of plain names.  Resolution is lexical: empty components and "."
 * are skipped and ".." drops the last name (staying at the root).  The
 * server also uses `basename` from libgen (POSIX semantics) to name the
 * destination of an upload.
 */
module Paths {
  import opened Wrappers

  type Name = string

  /** An absolute path, as the list of names below the root. */
  type Path = seq<Name>

  /** A name that can appear as a component of a resolved path. */
  predicate PlainName(n: string) {
    |n| > 0 && '/' !in n && n != "." && n != ".."
  }

  predicate PlainPath(p: Path) {
    forall i :: 0 <= i < |p| ==> PlainName(p[i])
  }

  /** Applies one '/'-free component to the directory reached so far. */
  function Enter(stack: Path, c: string): (r: Path)
    ensures PlainPath(stack) && '/' !in c ==> PlainPath(r)
    ensures c != "" && c != "." && c != ".." ==> r == stack + [c]
  {
    if c == "" || c == "." then stack
    else if c == ".." then (if stack == [] then [] else stack[..|stack| - 1])
    else stack + [c]
  }

  /**
   * Walks the characters of `s`; `cur` is the component being read and
   * `stack` the directory reached before it.
   */
  function Walk(stack: Path, cur: string, s: string): (r: Path)
    ensures PlainPath(stack) && '/' !in cur ==> PlainPath(r)
    decreases |s|
  {
    if s == [] then Enter(stack, cur)
    else if s[0] == '/' then Walk(Enter(stack, cur), "", s[1..])
    else Walk(stack, cur + [s[0]], s[1..])
  }

  /**
   * The path named by `s` when the current directory is `cwd`.  The empty
   * string names nothing (ENOENT); a leading '/' starts from the root.
   */
  function Resolve(cwd: Path, s: string): (r: Option<Path>)
    ensures r.None? <==> s == ""
    ensures r.Some? && PlainPath(cwd) ==> PlainPath(r.value)
  {
    if s == "" then None
    else Some(Walk(if s[0] == '/' then [] else cwd, "", s))
  }

  /** The names of `p`, each preceded by '/'. */
  function Joined(p: Path): string {
    if p == [] then "" else "/" + p[0] + Joined(p[1..])
  }

  /** The string `getcwd` reports for the directory `p`. */
  function Render(p: Path): (r: string)
    ensures |r| > 0 && r[0] == '/'
  {
    if p == [] then "/" else Joined(p)
  }

  lemma {:induction false} WalkName(stack: Path, cur: string, n: string, rest: string)
    requires '/' !in n
    ensures Walk(stack, cur, n + rest) == Walk(stack, cur + n, rest)
    decreases |n|
  {
    if n != [] {
      assert (n + rest)[0] == n[0] && (n + rest)[1..] == n[1..] + rest;
      WalkName(stack, cur + [n[0]], n[1..], rest);
      assert cur + [n[0]] + n[1..] == cur + n;
    } else {
      assert n + rest == rest && cur + n == cur;
    }
  }

  /** A plain name, resolved against a directory, names the entry of that directory. */
  lemma RelName(cwd: Path, n: string)
    requires PlainName(n)
    ensures Resolve(cwd, n) == Some(cwd + [n])
  {
    WalkName(cwd, "", n, "");
    assert n + "" == n && "" + n == n;
  }

  /** `Joined` of a non-empty path starts with '/'. */
  lemma JoinedHead(p: Path)
    requires p != []
    ensures |Joined(p)| > 0 && Joined(p)[0] == '/'
    ensures Joined(p) == "/" + p[0] + Joined(p[1..])
  {
  }

  lemma PlainTail(p: Path)
    requires PlainPath(p) && p != []
    ensures PlainName(p[0]) && PlainPath(p[1..])
  {
    assert forall i :: 0 <= i < |p[1..]| ==> p[1..][i] == p[i + 1];
  }

  /** One step of `WalkJoined`: the first name of the path is entered. */
  lemma {:induction false} WalkFirstName(stack: Path, n: string, tail: string)
    requires PlainName(n)
    requires tail == "" || tail[0] == '/'
    ensures Walk(stack, "", "/" + n + tail) == Walk(stack + [n], "", tail)
  {
    var s := "/" + n + tail;
    assert s[0] == '/' && s[1..] == n + tail;
    assert Walk(stack, "", s) == Walk(stack, "", n + tail);
    WalkName(stack, "", n, tail);
    assert "" + n == n;
    if tail != "" {
      assert Walk(stack, n, tail) == Walk(stack + [n], "", tail[1..]);
    }
  }

  lemma {:induction false} WalkJoined(stack: Path, p: Path, rest: string)
    requires PlainPath(p)
    requires rest == "" || rest[0] == '/'
    ensures Walk(stack, "", Joined(p) + rest) == Walk(stack + p, "", rest)
    decreases |p|
  {
    if p == [] {
      assert Joined(p) + rest == rest && stack + p == stack;
    } else {
      var n, q := p[0], p[1..];
      PlainTail(p);
      JoinedHead(p);
      var tail := Joined(q) + rest;
      assert tail == "" || tail[0] == '/' by {
        if q != [] { JoinedHead(q); }
      }
      assert Joined(p) + rest == "/" + n + tail;
      WalkFirstName(stack, n, tail);
      WalkJoined(stack + [n], q, rest);
      assert stack + [n] + q == stack + p;
    }
  }

  /** Resolving what `getcwd` reports gives back the directory itself. */
  lemma {:induction false} ResolveRender(cwd: Path, p: Path)
    ensures PlainPath(p) ==> Resolve(cwd, Render(p)) == Some(p)
  {
    if !PlainPath(p) {
    } else if p == [] {
      assert Walk([], "", "/") == Walk([], "", "");
    } else {
      JoinedHead(p);
      WalkJoined([], p, "");
      assert Joined(p) + "" == Joined(p) && [] + p == p;
      assert Walk(p, "", "") == p;
    }
  }

  /**
   * What `getcwd` reports is absolute: it names the directory whatever
   * directory it is resolved against.
   */
  lemma ResolveRenderAnywhere(p: Path)
    ensures PlainPath(p) ==> forall base :: Resolve(base, Render(p)) == Some(p)
  {
    forall base ensures PlainPath(p) ==> Resolve(base, Render(p)) == Some(p) {
      ResolveRender(base, p);
    }
  }

  /**
   * The string `getcwd() + "/" + n` names the entry `n` of the current
   * directory, whatever directory it is resolved against.
   */
  lemma {:induction false} ResolveUnderRender(any: Path, cwd: Path, n: string)
    requires PlainPath(cwd) && PlainName(n)
    ensures Resolve(any, Render(cwd) + "/" + n) == Some(cwd + [n])
  {
    var s := Render(cwd) + "/" + n;
    if cwd == [] {
      assert s == "/" + ("/" + n) && s[1..] == "/" + n;
      assert Walk([], "", s) == Walk([], "", "/" + n);
      WalkFirstName([], n, "");
      assert "/" + n + "" == "/" + n && [] + [n] == [n];
    } else {
      JoinedHead(cwd);
      assert s == Joined(cwd) + ("/" + n) && s[0] == '/';
      WalkJoined([], cwd, "/" + n);
      WalkFirstName(cwd, n, "");
      assert "/" + n + "" == "/" + n;
      assert [] + cwd == cwd;
    }
  }

  /** `s` without the '/' characters at its end. */
  function StripSlashes(s: string): (r: string)
    ensures |r| <= |s| && r == s[..|r|]
    ensures r == [] || r[|r| - 1] != '/'
    ensures forall i :: |r| <= i < |s| ==> s[i] == '/'
  {
    if |s| > 0 && s[|s| - 1] == '/' then StripSlashes(s[..|s| - 1]) else s
  }

  /** The part of `s` after its last '/' (all of `s` when it has none). */
  function AfterLastSlash(s: string): (r: string)
    ensures '/' !in r
    ensures |r| <= |s| && r == s[|s| - |r|..]
    ensures |r| < |s| ==> s[|s| - |r| - 1] == '/'
  {
    if s == [] then []
    else if s[|s| - 1] == '/' then []
    else AfterLastSlash(s[..|s| - 1]) + [s[|s| - 1]]
  }

  /**
   * POSIX `basename`: "." for the empty string, "/" for a string of
   * slashes, otherwise the last component once trailing slashes are gone.
   */
  function Basename(s: string): (r: string)
    ensures r != ""
    ensures '/' in r ==> r == "/"
    ensures s != "" && '/' !in s ==> r == s
  {
    if s == "" then "."
    else
      var t := StripSlashes(s);
      if t == "" then "/" else AfterLastSlash(t)
  }

  lemma {:induction false} AfterLastSlashAppend(pre: string, n: string)
    requires '/' !in n
    ensures AfterLastSlash(pre + "/" + n) == n
    decreases |n|
  {
    var s := pre + "/" + n;
    if n != [] {
      assert s[..|s| - 1] == pre + "/" + n[..|n| - 1];
      AfterLastSlashAppend(pre, n[..|n| - 1]);
      assert n[..|n| - 1] + [n[|n| - 1]] == n;
    }
  }

  /** The base name of `dir/n` is `n`. */
  lemma BasenameOfChild(dir: string, n: string)
    requires n != "" && '/' !in n
    ensures Basename(dir + "/" + n) == n
  {
    var s := dir + "/" + n;
    assert s[|s| - 1] == n[|n| - 1];
    assert StripSlashes(s) == s;
    AfterLastSlashAppend(dir, n);
  }
}
