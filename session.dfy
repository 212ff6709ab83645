/**
 * One client session: the forked child's loop.  It keeps the login flag,
 * the process's current directory, the home directory string the server
 * was started with (`-d <dir>`), and the filesystem it works on; `send`
 * appends to `sent`, and each received line is one call of `Step`.
 */
module Session {
  import opened Wrappers
  import opened Paths
  import opened Host
  import opened Commands
  import opened Transfer
  import opened Replies

  /** The filesystem after a mkdir or rmdir whose outcome is ignored. */
  function After(r: Option<FileSystem>, fs: FileSystem): FileSystem {
    if r.Some? then r.value else fs
  }

  /** STOR writes getcwd's answer followed by "/" into the home directory string. */
  function StorHome(fs: FileSystem, cwd: Path, home: string): string {
    (match Getcwd(fs, cwd) case Some(w) => w case None => home) + "/"
  }

  /**
   * While the current directory exists, the destination STOR builds from
   * the home string it sets names the entry `n` of the current directory,
   * whatever the home string was before.
   */
  lemma StorDestination(fs: FileSystem, cwd: Path, home: string, n: string)
    requires cwd in fs.dirs && PlainPath(cwd) && PlainName(n)
    ensures Resolve(cwd, StorHome(fs, cwd, home) + n) == Some(cwd + [n])
  {
    ResolveUnderRender(cwd, cwd, n);
    assert StorHome(fs, cwd, home) + n == Render(cwd) + "/" + n;
  }

  /**
   * What STOR's copy loop does once both files are open (`fs1` is the
   * filesystem after the opens): an unreadable source gives 350 with the
   * home string appended, an empty one no reply at all, a destination that
   * cannot be written 349; otherwise every chunk is written at its offset,
   * so the destination becomes the source laid over its prior content, with
   * one 200 per chunk.
   */
  ghost predicate CopyEffect(fs1: FileSystem, src: Fd, dst: Fd, name: string, home: string, sent0: seq<Msg>,
                             fs: FileSystem, sent: seq<Msg>)
  {
    if !(src.Fd? && src.path in fs1.files) then
      fs == fs1 && sent == sent0 + [Text(StorReadFailed(name, home))]
    else
      var data := fs1.files[src.path];
      if data == [] then fs == fs1 && sent == sent0
      else if !(dst.Fd? && dst.path in fs1.files) then fs == fs1 && sent == sent0 + [Text(StorWriteFailed(name))]
      else
        fs == fs1.(files := fs1.files[dst.path := Overlay(fs1.files[dst.path], data)]) &&
        sent == sent0 + Repeat(Text(StorSaved(name)), |Chunks(data)|)
  }

  /**
   * What STOR `arg` does, given the home string it has just set: it opens
   * `arg` for reading, then opens or creates home + basename(arg) for
   * writing, and copies.
   */
  ghost predicate StorEffect(fs0: FileSystem, cwd: Path, arg: string, home: string, sent0: seq<Msg>,
                             fs: FileSystem, sent: seq<Msg>)
  {
    var created := OpenCreate(fs0, cwd, home + Basename(arg));
    CopyEffect(created.0, OpenRead(fs0, cwd, arg), created.1, Basename(arg), home, sent0, fs, sent)
  }

  /** STOR's effect, from what its opens returned and what the copy did. */
  lemma StorEffectIntro(fs0: FileSystem, cwd: Path, arg: string, home: string, sent0: seq<Msg>,
                        fs: FileSystem, sent: seq<Msg>, src: Fd, fs1: FileSystem, dst: Fd)
    requires src == OpenRead(fs0, cwd, arg) && (fs1, dst) == OpenCreate(fs0, cwd, home + Basename(arg))
    requires CopyEffect(fs1, src, dst, Basename(arg), home, sent0, fs, sent)
    ensures StorEffect(fs0, cwd, arg, home, sent0, fs, sent)
  {
  }

  /**
   * What RETR `name` sends: the chunks of the file home + name, in order,
   * or 350 when it cannot be read.
   */
  ghost predicate RetrEffect(fs: FileSystem, cwd: Path, home: string, name: string, sent0: seq<Msg>, sent: seq<Msg>) {
    var src := OpenRead(fs, cwd, home + name);
    if src.Fd? && src.path in fs.files then sent == sent0 + AsData(Chunks(fs.files[src.path]))
    else sent == sent0 + [Text(RetrReadFailed(name))]
  }

  /**
   * The effect of one logged-in command on the session state: the state
   * before (`fs0`, `cwd0`, `home0`, `sent0`) and after.  USER never reaches
   * here; it is the login branch.
   */
  ghost predicate Executed(c: Command, fs0: FileSystem, cwd0: Path, home0: string, sent0: seq<Msg>,
                           fs: FileSystem, cwd: Path, home: string, sent: seq<Msg>)
  {
    match c
    case User => false
    case Pwd => fs == fs0 && cwd == cwd0 && home == home0 && sent == sent0 + [Text(PwdReply(fs0, cwd0))]
    case List => fs == fs0 && cwd == cwd0 && home == home0 && sent == sent0 + [Text(ListReply(fs0, cwd0, home0))]
    case Mkd(n) => fs == After(Mkdir(fs0, cwd0, n), fs0) && cwd == cwd0 && home == home0 && sent == sent0 + [Text(MkdDone(n))]
    case Rmd(n) => fs == After(Rmdir(fs0, cwd0, n), fs0) && cwd == cwd0 && home == home0 && sent == sent0 + [Text(RmdDone(n))]
    case Cwd(p) =>
      fs == fs0 && home == home0 &&
      (match Chdir(fs0, cwd0, p)
       case Some(q) => cwd == q && sent == sent0 + [Text(CwdDone(p))]
       case None => cwd == cwd0 && sent == sent0 + [Text(CwdFailed(p))])
    case Stor(a) => cwd == cwd0 && home == StorHome(fs0, cwd0, home0) && StorEffect(fs0, cwd0, a, home, sent0, fs, sent)
    case Retr(n) => fs == fs0 && cwd == cwd0 && home == home0 && RetrEffect(fs0, cwd0, home0, n, sent0, sent)
    case Invalid => fs == fs0 && cwd == cwd0 && home == home0 && sent == sent0 + [Text(InvalidCommand)]
  }

  /** What one session holds between two received lines. */
  datatype SessionState = SessionState(logged: bool, fs: FileSystem, cwd: Path, home: string, sent: seq<Msg>)

  /**
   * What every reachable state keeps: the current directory is a plain
   * path, and every name a directory lists exists.
   */
  ghost predicate Sound(s: SessionState) {
    PlainPath(s.cwd) && EntriesExist(s.fs)
  }

  /**
   * One pass of the loop takes `s` to `t` on the received line `raw`.
   * QUIT/ABOR (checked on the line as received) changes nothing and sends
   * nothing; before login every line but USER gets 530; USER gets 230 and
   * logs in, also when already logged in; any other line runs its handler.
   * Nothing logs the user out.
   */
  ghost predicate StepRel(s: SessionState, raw: string, t: SessionState) {
    (t.logged <==> s.logged || LogsIn(raw)) &&
    match Dispatch(s.logged, raw)
    case EndSession =>
      t.fs == s.fs && t.cwd == s.cwd && t.home == s.home && t.sent == s.sent
    case Reject =>
      t.fs == s.fs && t.cwd == s.cwd && t.home == s.home && t.sent == s.sent + [Text(NoUserLoggedIn)]
    case Login =>
      t.fs == s.fs && t.cwd == s.cwd && t.home == s.home && t.sent == s.sent + [Text(UserLoggedIn)]
    case Execute(c) =>
      Executed(c, s.fs, s.cwd, s.home, s.sent, t.fs, t.cwd, t.home, t.sent)
  }

  /**
   * A handler's effect on the filesystem keeps every name a directory lists
   * existing: mkdir and open list what they create, rmdir unlists what it
   * removes, and writes only change bytes.
   */
  lemma ExecutedKeepsEntries(c: Command, fs0: FileSystem, cwd0: Path, home0: string, sent0: seq<Msg>,
                             fs: FileSystem, cwd: Path, home: string, sent: seq<Msg>)
    requires EntriesExist(fs0)
    requires Executed(c, fs0, cwd0, home0, sent0, fs, cwd, home, sent)
    ensures EntriesExist(fs)
  {
    match c
    case Mkd(n) => if Mkdir(fs0, cwd0, n).Some? { MkdirKeepsEntries(fs0, cwd0, n); }
    case Rmd(n) => if Rmdir(fs0, cwd0, n).Some? { RmdirKeepsEntries(fs0, cwd0, n); }
    case Stor(a) =>
      var created := OpenCreate(fs0, cwd0, home + Basename(a));
      OpenCreateKeepsEntries(fs0, cwd0, home + Basename(a));
      CopyKeepsEntries(created.0, OpenRead(fs0, cwd0, a), created.1, Basename(a), home, sent0, fs, sent);
    case _ =>
  }

  /** STOR's copy loop only rewrites the bytes of its destination, so every listed name stays. */
  lemma CopyKeepsEntries(fs1: FileSystem, src: Fd, dst: Fd, name: string, home: string, sent0: seq<Msg>,
                         fs: FileSystem, sent: seq<Msg>)
    requires EntriesExist(fs1) && CopyEffect(fs1, src, dst, name, home, sent0, fs, sent)
    ensures EntriesExist(fs)
  {
    if fs != fs1 {
      RewriteKeepsEntries(fs1, dst.path, Overlay(fs1.files[dst.path], fs1.files[src.path]));
    }
  }

  /**
   * `trace` is the sequence of states the loop passes through on `lines`:
   * one more state than lines, each line taking a state to the next.
   */
  ghost predicate Chain(trace: seq<SessionState>, lines: seq<string>)
    decreases |lines|
  {
    |trace| == |lines| + 1 &&
    (lines != [] ==>
      Chain(trace[..|lines|], lines[..|lines| - 1]) &&
      StepRel(trace[|lines| - 1], lines[|lines| - 1], trace[|lines|]))
  }

  /** One more pass of the loop extends the chain by the line and the state it leads to. */
  lemma ChainSnoc(trace: seq<SessionState>, lines: seq<string>, n: nat, t: SessionState)
    requires n < |lines| && Chain(trace, lines[..n]) && StepRel(trace[n], lines[n], t)
    ensures Chain(trace + [t], lines[..n + 1])
  {
    assert (trace + [t])[..n + 1] == trace;
    assert lines[..n + 1][..n] == lines[..n];
  }

  /** The first `k` lines of a chain, with the states they pass through. */
  lemma ChainPrefix(trace: seq<SessionState>, lines: seq<string>)
    requires Chain(trace, lines) && lines != []
    ensures Chain(trace[..|lines|], lines[..|lines| - 1])
    ensures trace[..|lines|][0] == trace[0] && trace[..|lines|][|lines| - 1] == trace[|lines| - 1]
    ensures forall i :: 0 <= i < |lines| - 1 ==> lines[..|lines| - 1][i] == lines[i]
  {
  }

  /** Along a chain, the user is logged in exactly when it started so or a line logged in. */
  lemma {:induction false} ChainLogin(trace: seq<SessionState>, lines: seq<string>)
    requires Chain(trace, lines)
    ensures trace[|lines|].logged <==> trace[0].logged || exists i :: 0 <= i < |lines| && LogsIn(lines[i])
    decreases |lines|
  {
    if lines != [] {
      var k := |lines| - 1;
      ChainPrefix(trace, lines);
      ChainLogin(trace[..k + 1], lines[..k]);
      if LogsIn(lines[k]) {
        assert trace[|lines|].logged;
      }
    }
  }

  /** Along a chain, every listed name keeps existing. */
  lemma {:induction false} ChainKeepsEntries(trace: seq<SessionState>, lines: seq<string>)
    requires Chain(trace, lines) && EntriesExist(trace[0].fs)
    ensures EntriesExist(trace[|lines|].fs)
    decreases |lines|
  {
    if lines != [] {
      var k := |lines| - 1;
      ChainPrefix(trace, lines);
      ChainKeepsEntries(trace[..k + 1], lines[..k]);
      StepKeepsEntries(trace[k], lines[k], trace[k + 1]);
    }
  }

  /**
   * A chain that starts logged out and has no USER line, and no quit line
   * but possibly the last, leaves the state as it was and sends one 530 per
   * line other than a final quit line.
   */
  lemma {:induction false} ChainBeforeLogin(trace: seq<SessionState>, lines: seq<string>)
    requires Chain(trace, lines) && !trace[0].logged
    requires forall i :: 0 <= i < |lines| ==> !LogsIn(lines[i])
    requires forall i :: 0 <= i < |lines| - 1 ==> !IsQuitLine(lines[i])
    ensures var s, t := trace[0], trace[|lines|];
      !t.logged && t.fs == s.fs && t.cwd == s.cwd && t.home == s.home &&
      t.sent == s.sent + Repeat(Text(NoUserLoggedIn), if lines != [] && IsQuitLine(lines[|lines| - 1]) then |lines| - 1 else |lines|)
    decreases |lines|
  {
    if lines != [] {
      var k := |lines| - 1;
      ChainPrefix(trace, lines);
      ChainBeforeLogin(trace[..k + 1], lines[..k]);
      StepBeforeLogin(trace[k], lines[k], trace[k + 1]);
    }
  }

  /**
   * What the loop's chain over the first `n` lines, none but possibly the
   * last of them a quit line, says about where the session ends up.
   */
  lemma RunFacts(trace: seq<SessionState>, lines: seq<string>, n: nat)
    requires n <= |lines| && Chain(trace, lines[..n])
    requires forall i :: 0 <= i < n - 1 ==> !IsQuitLine(lines[i])
    ensures trace[n].logged <==> trace[0].logged || exists i :: 0 <= i < n && LogsIn(lines[i])
    ensures EntriesExist(trace[0].fs) ==> EntriesExist(trace[n].fs)
    ensures !trace[0].logged && (forall i :: 0 <= i < n ==> !LogsIn(lines[i])) ==>
      var s, t := trace[0], trace[n];
      t.fs == s.fs && t.cwd == s.cwd && t.home == s.home &&
      t.sent == s.sent + Repeat(Text(NoUserLoggedIn), if n > 0 && IsQuitLine(lines[n - 1]) then n - 1 else n)
  {
    var done := lines[..n];
    assert forall i :: 0 <= i < n ==> done[i] == lines[i];
    ChainLogin(trace, done);
    if EntriesExist(trace[0].fs) {
      ChainKeepsEntries(trace, done);
    }
    if !trace[0].logged && (forall i :: 0 <= i < n ==> !LogsIn(lines[i])) {
      ChainBeforeLogin(trace, done);
    }
  }

  /** Every line of a chain takes its state to the next one. */
  lemma {:induction false} ChainSteps(trace: seq<SessionState>, lines: seq<string>)
    requires Chain(trace, lines)
    ensures forall i :: 0 <= i < |lines| ==> StepRel(trace[i], lines[i], trace[i + 1])
    decreases |lines|
  {
    if lines != [] {
      var k := |lines| - 1;
      ChainSteps(trace[..k + 1], lines[..k]);
      forall i | 0 <= i < |lines| ensures StepRel(trace[i], lines[i], trace[i + 1]) {
        if i < k {
          assert trace[..k + 1][i] == trace[i] && trace[..k + 1][i + 1] == trace[i + 1] && lines[..k][i] == lines[i];
        }
      }
    }
  }

  /**
   * Before login, a line that does not log in changes nothing but the
   * replies: 530, or nothing at all for a quit line.
   */
  lemma StepBeforeLogin(s: SessionState, raw: string, t: SessionState)
    requires !s.logged && !LogsIn(raw) && StepRel(s, raw, t)
    ensures !t.logged && t.fs == s.fs && t.cwd == s.cwd && t.home == s.home
    ensures t.sent == s.sent + (if IsQuitLine(raw) then [] else [Text(NoUserLoggedIn)])
  {
  }

  /** No line makes a name listed in a directory refer to nothing. */
  lemma StepKeepsEntries(s: SessionState, raw: string, t: SessionState)
    requires EntriesExist(s.fs) && StepRel(s, raw, t)
    ensures EntriesExist(t.fs)
  {
    match Dispatch(s.logged, raw)
    case Execute(c) => ExecutedKeepsEntries(c, s.fs, s.cwd, s.home, s.sent, t.fs, t.cwd, t.home, t.sent);
    case _ =>
  }

  /**
   * No line makes the state unsound: CWD only ever enters a path that
   * resolution produced from a plain one, and the rest keep the listings.
   */
  lemma StepKeepsSound(s: SessionState, raw: string, t: SessionState)
    requires Sound(s) && StepRel(s, raw, t)
    ensures Sound(t)
  {
    StepKeepsEntries(s, raw, t);
  }

  /**
   * PWD changes nothing, so two PWDs in a row send the same reply twice,
   * and it names the current directory whenever getcwd succeeds.
   */
  lemma PwdTwice(fs0: FileSystem, cwd0: Path, home0: string, sent0: seq<Msg>,
                 fs1: FileSystem, cwd1: Path, home1: string, sent1: seq<Msg>,
                 fs2: FileSystem, cwd2: Path, home2: string, sent2: seq<Msg>)
    requires Executed(Pwd, fs0, cwd0, home0, sent0, fs1, cwd1, home1, sent1)
    requires Executed(Pwd, fs1, cwd1, home1, sent1, fs2, cwd2, home2, sent2)
    ensures fs2 == fs0 && cwd2 == cwd0 && home2 == home0
    ensures |sent2| == |sent0| + 2 && sent2[..|sent0|] == sent0 && sent2[|sent0|] == sent2[|sent0| + 1]
    ensures cwd0 in fs0.dirs && PlainPath(cwd0) ==>
      exists w :: sent2[|sent0|] == Text(PwdDone(w)) && forall base :: Resolve(base, w) == Some(cwd0)
  {
    assert sent2 == sent0 + [Text(PwdReply(fs0, cwd0)), Text(PwdReply(fs0, cwd0))];
  }

  /**
   * STOR of a readable `arg` once getcwd works stores the source bytes as
   * the entry Basename(arg) of the current directory, with one 200 per
   * chunk, when no longer file is already there.  An empty source leaves
   * an empty destination and sends nothing.
   */
  lemma StorIntoCwd(fs0: FileSystem, cwd: Path, arg: string, sent0: seq<Msg>, fs: FileSystem, sent: seq<Msg>)
    requires cwd in fs0.dirs && PlainPath(cwd)
    requires OpenRead(fs0, cwd, arg).Fd? && OpenRead(fs0, cwd, arg).path in fs0.files
    requires PlainName(Basename(arg)) && cwd + [Basename(arg)] !in fs0.dirs
    requires cwd + [Basename(arg)] in fs0.files ==>
      |fs0.files[cwd + [Basename(arg)]]| <= |fs0.files[OpenRead(fs0, cwd, arg).path]|
    requires StorEffect(fs0, cwd, arg, Render(cwd) + "/", sent0, fs, sent)
    ensures var data := fs0.files[OpenRead(fs0, cwd, arg).path];
      cwd + [Basename(arg)] in fs.files && fs.files[cwd + [Basename(arg)]] == data &&
      sent == sent0 + Repeat(Text(StorSaved(Basename(arg))), |Chunks(data)|)
  {
    var n, home := Basename(arg), Render(cwd) + "/";
    var data := fs0.files[OpenRead(fs0, cwd, arg).path];
    var dst := cwd + [n];
    ResolveUnderRender(cwd, cwd, n);
    BasenameOfChild(Render(cwd), n);
    assert home + n == Render(cwd) + "/" + n;
    assert !NamesDirectory(home + n);
    var created := OpenCreate(fs0, cwd, home + n);
    assert created.1 == Fd(dst);
    if data == [] {
      assert |created.0.files[dst]| == 0;
    } else {
      OverlayShorter(created.0.files[dst], data);
    }
  }

  /** RETR of an entry of the current directory, once getcwd works, sends its chunks. */
  lemma RetrFromCwd(fs: FileSystem, cwd: Path, n: string, sent0: seq<Msg>, sent: seq<Msg>)
    requires PlainPath(cwd) && PlainName(n) && cwd + [n] in fs.files
    requires RetrEffect(fs, cwd, Render(cwd) + "/", n, sent0, sent)
    ensures sent == sent0 + AsData(Chunks(fs.files[cwd + [n]]))
    ensures Payload(sent[|sent0|..]) == fs.files[cwd + [n]]
  {
    ResolveUnderRender(cwd, cwd, n);
    BasenameOfChild(Render(cwd), n);
    assert !NamesDirectory(Render(cwd) + "/" + n);
    assert OpenRead(fs, cwd, Render(cwd) + "/" + n) == Fd(cwd + [n]);
    PayloadOfChunks(fs.files[cwd + [n]]);
    assert sent[|sent0|..] == AsData(Chunks(fs.files[cwd + [n]]));
  }

  /**
   * One round of RETR's loop: a read at a chunk boundary either ends the
   * file, with every chunk sent, or sends the next chunk.
   */
  lemma SendStep(data: Bytes, off: nat, chunk: Bytes, sent0: seq<Msg>, sent: seq<Msg>)
    requires off <= |data| && (off % ChunkSize == 0 || off == |data|)
    requires off + |chunk| <= |data| && chunk == data[off..off + |chunk|]
    requires |chunk| <= ChunkSize && (|chunk| == ChunkSize || off + |chunk| == |data|)
    requires sent == sent0 + AsData(Chunks(data[..off]))
    ensures chunk == [] ==> sent == sent0 + AsData(Chunks(data))
    ensures chunk != [] ==>
      ((off + |chunk|) % ChunkSize == 0 || off + |chunk| == |data|) &&
      sent + [Data(chunk)] == sent0 + AsData(Chunks(data[..off + |chunk|]))
  {
    ReadStep(data, off, chunk);
    if chunk != [] {
      AsDataSnoc(Chunks(data[..off]), chunk);
    }
  }

  /** The filesystem once the first `off` bytes of `data` have been copied over `prior`. */
  function Copied(fs1: FileSystem, dst: Fd, prior: Bytes, data: Bytes, off: nat): FileSystem
    requires off <= |data|
  {
    if off == 0 || dst.BadFd? then fs1
    else fs1.(files := fs1.files[dst.path := Overlay(prior, data[..off])])
  }

  /**
   * One round of STOR's loop after a non-empty read at a chunk boundary:
   * the write succeeds, the destination holds one more chunk laid over its
   * prior content, the source is unchanged (also when it is the
   * destination), and one more 200 is due.
   */
  lemma CopyRound(fs1: FileSystem, src: Fd, dst: Fd, data: Bytes, prior: Bytes, off: nat, chunk: Bytes)
    requires src.Fd? && src.path in fs1.files && fs1.files[src.path] == data
    requires dst.Fd? && dst.path in fs1.files && fs1.files[dst.path] == prior
    requires off <= |data| && (off % ChunkSize == 0 || off == |data|)
    requires off + |chunk| <= |data| && chunk == data[off..off + |chunk|] && chunk != []
    requires |chunk| <= ChunkSize && (|chunk| == ChunkSize || off + |chunk| == |data|)
    ensures (off + |chunk|) % ChunkSize == 0 || off + |chunk| == |data|
    ensures var fs := Copied(fs1, dst, prior, data, off);
      dst.path in fs.files && off <= |fs.files[dst.path]| &&
      WriteAt(fs, dst, off, chunk) == Some(Copied(fs1, dst, prior, data, off + |chunk|))
    ensures var fs := Copied(fs1, dst, prior, data, off + |chunk|);
      src.path in fs.files && fs.files[src.path] == data
    ensures |Chunks(data[..off + |chunk|])| == |Chunks(data[..off])| + 1
  {
    ReadStep(data, off, chunk);
    var c := |chunk|;
    var before := Overlay(prior, data[..off]);
    OverlayStep(prior, data, off, c);
    var after := Splice(before, off, chunk);
    if off == 0 {
      assert before == prior;
      assert fs1.files[dst.path := before] == fs1.files;
    }
    var fs := fs1.(files := fs1.files[dst.path := before]);
    assert Copied(fs1, dst, prior, data, off) == fs;
    assert fs.files[dst.path := after] == fs1.files[dst.path := after];
    if dst.path == src.path {
      OverlaySelf(data, off + c);
    }
  }

  class Connection {
    var userLogged: bool
    var cwd: Path
    var home: string
    var fs: FileSystem
    var sent: seq<Msg>

    /** The connection's state is sound (see `Sound`). */
    ghost predicate Valid()
      reads this
    {
      Sound(State())
    }

    /**
     * A freshly forked child: no user logged in, nothing sent yet; it is
     * valid when started in a plain directory of a filesystem whose
     * listings name existing entries.
     */
    constructor (home: string, cwd: Path, fs: FileSystem)
      ensures !userLogged && this.home == home && this.cwd == cwd && this.fs == fs && sent == []
      ensures Valid() <==> PlainPath(cwd) && EntriesExist(fs)
    {
      this.userLogged := false;
      this.home := home;
      this.cwd := cwd;
      this.fs := fs;
      this.sent := [];
    }

    /** The session's state as a value. */
    function State(): SessionState
      reads this
    {
      SessionState(userLogged, fs, cwd, home, sent)
    }

    /**
     * One received line: the session ends exactly on a quit line, and the
     * state moves as `StepRel` says.
     */
    method Step(raw: string) returns (quit: bool)
      modifies this`userLogged, this`cwd, this`home, this`fs, this`sent
      ensures quit <==> IsQuitLine(raw)
      ensures StepRel(old(State()), raw, State())
      ensures old(Valid()) ==> Valid()
    {
      ghost var s0 := State();
      quit := false;
      match Dispatch(userLogged, raw)
      case EndSession =>
        quit := true;
      case Reject =>
        sent := sent + [Text(NoUserLoggedIn)];
      case Login =>
        sent := sent + [Text(UserLoggedIn)];
        userLogged := true;
      case Execute(c) =>
        Execute(c);
      if Sound(s0) {
        StepKeepsSound(s0, raw, State());
      }
    }

    /** Runs the handler the prefix chain selected for a logged-in user. */
    method Execute(c: Command)
      requires !c.User?
      modifies this`cwd, this`home, this`fs, this`sent
      ensures Executed(c, old(fs), old(cwd), old(home), old(sent), fs, cwd, home, sent)
    {
      match c
      case Pwd => Pwd();
      case List => List();
      case Mkd(n) => Mkd(n);
      case Rmd(n) => Rmd(n);
      case Cwd(p) => Cwd(p);
      case Stor(a) => Stor(a);
      case Retr(n) => Retr(n);
      case Invalid => sent := sent + [Text(InvalidCommand)];
    }

    /**
     * The child's loop over the lines the client sends, until a quit line or
     * the end of `lines`.  `handled` counts the lines taken, the quit line
     * included.  Logging in is for the rest of the session, and a client
     * that never sends USER changes nothing and is answered 530 each time.
     */
    method Run(lines: seq<string>) returns (handled: nat, quit: bool, ghost trace: seq<SessionState>)
      modifies this`userLogged, this`cwd, this`home, this`fs, this`sent
      ensures handled <= |lines|
      ensures |trace| == handled + 1 && trace[0] == old(State()) && trace[handled] == State()
      ensures Chain(trace, lines[..handled])
      ensures EntriesExist(old(fs)) ==> EntriesExist(fs)
      ensures old(Valid()) ==> Valid()
      ensures quit ==> 0 < handled && IsQuitLine(lines[handled - 1])
      ensures !quit ==> handled == |lines|
      ensures forall i :: 0 <= i < handled && !(quit && i == handled - 1) ==> !IsQuitLine(lines[i])
      ensures userLogged <==> old(userLogged) || exists i :: 0 <= i < handled && LogsIn(lines[i])
      ensures !old(userLogged) && (forall i :: 0 <= i < handled ==> !LogsIn(lines[i])) ==>
        fs == old(fs) && cwd == old(cwd) && home == old(home) &&
        sent == old(sent) + Repeat(Text(NoUserLoggedIn), if quit then handled - 1 else handled)
    {
      handled, quit, trace := 0, false, [State()];
      while handled < |lines| && !quit
        invariant handled <= |lines|
        invariant |trace| == handled + 1 && trace[0] == old(State()) && trace[handled] == State()
        invariant Chain(trace, lines[..handled])
        invariant old(Valid()) ==> Valid()
        invariant quit ==> 0 < handled && IsQuitLine(lines[handled - 1])
        invariant forall i :: 0 <= i < handled && !(quit && i == handled - 1) ==> !IsQuitLine(lines[i])
        decreases |lines| - handled
      {
        quit, trace := Advance(lines, handled, trace);
        handled := handled + 1;
      }
      RunFacts(trace, lines, handled);
    }

    /** One pass of the loop: the line `lines[n]`, and the chain one state longer. */
    method Advance(lines: seq<string>, n: nat, ghost trace: seq<SessionState>) returns (quit: bool, ghost trace': seq<SessionState>)
      requires n < |lines| && |trace| == n + 1 && trace[n] == State() && Chain(trace, lines[..n])
      modifies this`userLogged, this`cwd, this`home, this`fs, this`sent
      ensures quit <==> IsQuitLine(lines[n])
      ensures |trace'| == n + 2 && trace'[0] == trace[0] && trace'[n + 1] == State()
      ensures Chain(trace', lines[..n + 1])
      ensures old(Valid()) ==> Valid()
    {
      quit := Step(lines[n]);
      ChainSnoc(trace, lines, n, State());
      trace' := trace + [State()];
    }

    /**
     * A logged-in client uploads `arg` into the current directory with STOR
     * and downloads it back with RETR by its base name: the new file holds
     * the source bytes, and the data messages of the download put together
     * are those bytes.  This needs the current directory to exist (getcwd
     * succeeds), the base name to be a plain entry name, and no longer file
     * already under that name, since the upload does not truncate.
     */
    method UploadThenDownload(arg: string) returns (quit: bool)
      requires userLogged && cwd in fs.dirs && PlainPath(cwd) && '\n' !in arg
      requires OpenRead(fs, cwd, arg).Fd? && OpenRead(fs, cwd, arg).path in fs.files
      requires PlainName(Basename(arg)) && cwd + [Basename(arg)] !in fs.dirs
      requires cwd + [Basename(arg)] in fs.files ==>
        |fs.files[cwd + [Basename(arg)]]| <= |fs.files[OpenRead(fs, cwd, arg).path]|
      modifies this`userLogged, this`cwd, this`home, this`fs, this`sent
      ensures !quit && userLogged && cwd == old(cwd) && home == Render(old(cwd)) + "/"
      ensures var data := old(fs).files[OpenRead(old(fs), old(cwd), arg).path];
        cwd + [Basename(arg)] in fs.files && fs.files[cwd + [Basename(arg)]] == data &&
        sent == old(sent) + Repeat(Text(StorSaved(Basename(arg))), |Chunks(data)|) + AsData(Chunks(data)) &&
        Payload(sent[|old(sent)| + |Chunks(data)|..]) == data
    {
      var n := Basename(arg);
      ghost var fs0, cwd0, home0, sent0 := fs, cwd, home, sent;
      var up, down := Line(Command.Stor(arg), false) + "\n", Line(Command.Retr(n), false) + "\n";
      DispatchTyped(Command.Stor(arg), false);
      DispatchTyped(Command.Retr(n), false);
      quit := Step(up);
      assert Executed(Command.Stor(arg), fs0, cwd0, home0, sent0, fs, cwd, home, sent);
      StorIntoCwd(fs0, cwd, arg, sent0, fs, sent);
      ghost var fs1, home1, sent1 := fs, home, sent;
      quit := Step(down);
      assert Executed(Command.Retr(n), fs1, cwd, home1, sent1, fs, cwd, home, sent);
      RetrFromCwd(fs, cwd, n, sent1, sent);
    }

    method Pwd()
      modifies this`sent
      ensures sent == old(sent) + [Text(PwdReply(fs, cwd))]
    {
      sent := sent + [Text(PwdReply(fs, cwd))];
    }

    method List()
      modifies this`sent
      ensures sent == old(sent) + [Text(ListReply(fs, cwd, home))]
    {
      sent := sent + [Text(ListReply(fs, cwd, home))];
    }

    /** MKD: mkdir is called and its result ignored; the reply is always 336. */
    method Mkd(name: string)
      modifies this`fs, this`sent
      ensures fs == After(Mkdir(old(fs), cwd, name), old(fs))
      ensures sent == old(sent) + [Text(MkdDone(name))]
      ensures PlainName(name) && cwd in old(fs).dirs && cwd + [name] !in old(fs).dirs && cwd + [name] !in old(fs).files ==>
        fs.files == old(fs).files && fs.dirs.Keys == old(fs).dirs.Keys + {cwd + [name]} &&
        fs.dirs[cwd + [name]] == [] && fs.dirs[cwd] == old(fs).dirs[cwd] + [name]
      ensures PlainName(name) && !(cwd in old(fs).dirs && cwd + [name] !in old(fs).dirs && cwd + [name] !in old(fs).files) ==>
        fs == old(fs)
    {
      if PlainName(name) {
        RelName(cwd, name);
        assert Parent(cwd + [name]) == cwd && Last(cwd + [name]) == name;
        assert Basename(name) == name;
      }
      fs := After(Mkdir(fs, cwd, name), fs);
      sent := sent + [Text(MkdDone(name))];
    }

    /** RMD: rmdir is called and its result ignored; the reply is always 344. */
    method Rmd(name: string)
      modifies this`fs, this`sent
      ensures fs == After(Rmdir(old(fs), cwd, name), old(fs))
      ensures sent == old(sent) + [Text(RmdDone(name))]
    {
      fs := After(Rmdir(fs, cwd, name), fs);
      sent := sent + [Text(RmdDone(name))];
    }

    /**
     * CWD: on success the process moves and 200 names the path as typed;
     * on failure 341 and the directory stays.  The home string is untouched.
     */
    method Cwd(path: string)
      modifies this`cwd, this`sent
      ensures Chdir(fs, old(cwd), path).Some? ==>
        cwd == Chdir(fs, old(cwd), path).value && sent == old(sent) + [Text(CwdDone(path))]
      ensures Chdir(fs, old(cwd), path).None? ==>
        cwd == old(cwd) && sent == old(sent) + [Text(CwdFailed(path))]
      ensures PlainName(path) && old(cwd) + [path] in fs.dirs ==> cwd == old(cwd) + [path]
      ensures PlainName(path) && old(cwd) + [path] !in fs.dirs ==> cwd == old(cwd)
    {
      if PlainName(path) {
        RelName(cwd, path);
      }
      match Chdir(fs, cwd, path)
      case Some(p) =>
        cwd := p;
        sent := sent + [Text(CwdDone(path))];
      case None =>
        sent := sent + [Text(CwdFailed(path))];
    }

    /** STOR: copies the file `arg` into the current directory, 1024 bytes at a time. */
    method Stor(arg: string)
      modifies this`fs, this`home, this`sent
      ensures home == StorHome(old(fs), cwd, old(home))
      ensures StorEffect(old(fs), cwd, arg, home, old(sent), fs, sent)
    {
      ghost var fs0, sent0 := fs, sent;
      home := StorHome(fs, cwd, home);
      var name := Basename(arg);
      var src := OpenRead(fs, cwd, arg);
      var created := OpenCreate(fs, cwd, home + name);
      fs := created.0;
      CopyChunks(src, created.1, name);
      StorEffectIntro(fs0, cwd, arg, home, sent0, fs, sent, src, created.0, created.1);
    }

    /**
     * The read/write loop of STOR: read up to 1024 bytes from `src`, stop at
     * end of file, write them to `dst` at the same offset, report each chunk.
     */
    method CopyChunks(src: Fd, dst: Fd, name: string)
      modifies this`fs, this`sent
      ensures CopyEffect(old(fs), src, dst, name, home, old(sent), fs, sent)
    {
      ghost var fs1, sent1 := fs, sent;
      ghost var readable := src.Fd? && src.path in fs1.files;
      ghost var data: Bytes := if readable then fs1.files[src.path] else [];
      ghost var writable := dst.Fd? && dst.path in fs1.files;
      ghost var prior: Bytes := if writable then fs1.files[dst.path] else [];
      var off: nat := 0;
      while true
        invariant off <= |data| && (off % ChunkSize == 0 || off == |data|)
        invariant off > 0 ==> readable && writable
        invariant fs == Copied(fs1, dst, prior, data, off)
        invariant readable ==> src.path in fs.files && fs.files[src.path] == data
        invariant sent == sent1 + Repeat(Text(StorSaved(name)), |Chunks(data[..off])|)
        decreases |data| - off
      {
        var r := ReadAt(fs, src, off, ChunkSize);
        if r.ReadFailed? {
          sent := sent + [Text(StorReadFailed(name, home))];
          return;
        }
        var chunk := r.bytes;
        if |chunk| == 0 {
          ReadStep(data, off, chunk);
          return;
        }
        if writable {
          CopyRound(fs1, src, dst, data, prior, off, chunk);
        }
        var w := WriteAt(fs, dst, off, chunk);
        if w.None? {
          sent := sent + [Text(StorWriteFailed(name))];
          return;
        }
        fs := w.value;
        sent := sent + [Text(StorSaved(name))];
        off := off + |chunk|;
      }
    }

    /** RETR: sends the file home + name (no separator added), chunk by chunk. */
    method Retr(name: string)
      modifies this`sent
      ensures RetrEffect(fs, cwd, home, name, old(sent), sent)
    {
      var src := OpenRead(fs, cwd, home + name);
      SendChunks(src, name);
    }

    /**
     * The read/send loop of RETR: read up to 1024 bytes from `src`, stop at
     * end of file, send what was read.
     */
    method SendChunks(src: Fd, name: string)
      modifies this`sent
      ensures src.Fd? && src.path in fs.files ==> sent == old(sent) + AsData(Chunks(fs.files[src.path]))
      ensures !(src.Fd? && src.path in fs.files) ==> sent == old(sent) + [Text(RetrReadFailed(name))]
    {
      ghost var sent0 := sent;
      ghost var readable := src.Fd? && src.path in fs.files;
      ghost var data: Bytes := if readable then fs.files[src.path] else [];
      var off: nat := 0;
      while true
        invariant off <= |data| && (off % ChunkSize == 0 || off == |data|)
        invariant off > 0 ==> readable
        invariant sent == sent0 + AsData(Chunks(data[..off]))
        decreases |data| - off
      {
        var r := ReadAt(fs, src, off, ChunkSize);
        if r.ReadFailed? {
          sent := sent + [Text(RetrReadFailed(name))];
          return;
        }
        var chunk := r.bytes;
        SendStep(data, off, chunk, sent0, sent);
        if |chunk| == 0 {
          return;
        }
        sent := sent + [Data(chunk)];
        off := off + |chunk|;
      }
    }
  }
}
