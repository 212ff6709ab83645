/**
 * How the session loop reads one received line: the QUIT/ABOR test on the
 * raw line, the cut at the first newline, the login gate, and the chain of
 * prefix tests that picks a handler.  Each test is `strncmp` against an
 * all-upper or all-lower spelling, so a verb in mixed case is not
 * recognised, and MKD, RMD, CWD, STOR and RETR only match with the space
 * that follows them.
 */
module Commands {

  /** The handler the prefix chain selects, with the argument it cuts out. */
  datatype Command =
    | User
    | Pwd
    | List
    | Mkd(name: string)
    | Rmd(name: string)
    | Cwd(path: string)
    | Stor(path: string)
    | Retr(name: string)
    | Invalid

  /** What the loop does with one line. */
  datatype Action =
    | EndSession          // QUIT/ABOR: leave the loop, send nothing
    | Reject              // no user logged in: reply 530
    | Login               // USER: reply 230 and set the flag
    | Execute(cmd: Command)

  /** strncmp(s, p, |p|) == 0, for a line without NUL characters. */
  predicate StartsWith(s: string, p: string) {
    |p| <= |s| && s[..|p|] == p
  }

  /** The line up to its first newline, as strcspn(buffer, "\n") cuts it. */
  function CutAtNewline(s: string): (r: string)
    ensures '\n' !in r
    ensures |r| <= |s| && r == s[..|r|]
    ensures |r| < |s| ==> s[|r|] == '\n'
  {
    if s == [] then []
    else if s[0] == '\n' then []
    else [s[0]] + CutAtNewline(s[1..])
  }

  predicate IsQuitLine(raw: string) {
    StartsWith(raw, "QUIT") || StartsWith(raw, "quit") || StartsWith(raw, "ABOR") || StartsWith(raw, "abor")
  }

  predicate IsUserLine(line: string) {
    StartsWith(line, "USER") || StartsWith(line, "user")
  }

  /** The line a client types for `c`, in upper or lower case. */
  function Line(c: Command, lower: bool): string {
    match c
    case User => if lower then "user" else "USER"
    case Pwd => if lower then "pwd" else "PWD"
    case List => if lower then "list" else "LIST"
    case Mkd(n) => (if lower then "mkd " else "MKD ") + n
    case Rmd(n) => (if lower then "rmd " else "RMD ") + n
    case Cwd(p) => (if lower then "cwd " else "CWD ") + p
    case Stor(p) => (if lower then "stor " else "STOR ") + p
    case Retr(n) => (if lower then "retr " else "RETR ") + n
    case Invalid => ""
  }

  /** The first prefix of the fixed order that `line` starts with picks the handler. */
  function Classify(line: string): Command {
    if IsUserLine(line) then User
    else if StartsWith(line, "PWD") || StartsWith(line, "pwd") then Pwd
    else if StartsWith(line, "LIST") || StartsWith(line, "list") then List
    else if StartsWith(line, "MKD ") || StartsWith(line, "mkd ") then Mkd(line[4..])
    else if StartsWith(line, "RMD ") || StartsWith(line, "rmd ") then Rmd(line[4..])
    else if StartsWith(line, "CWD ") || StartsWith(line, "cwd ") then Cwd(line[4..])
    else if StartsWith(line, "STOR ") || StartsWith(line, "stor ") then Stor(line[5..])
    else if StartsWith(line, "RETR ") || StartsWith(line, "retr ") then Retr(line[5..])
    else Invalid
  }

  /** A line that logs the client in, whatever the state: USER/user, and not a quit line. */
  predicate LogsIn(raw: string) {
    !IsQuitLine(raw) && IsUserLine(CutAtNewline(raw))
  }

  /**
   * One pass of the session loop's decision: QUIT/ABOR on the raw line
   * first, then on the cut line the login gate, then the handler chain.
   */
  function Dispatch(logged: bool, raw: string): (a: Action)
    ensures a == EndSession <==> IsQuitLine(raw)
    ensures a == Reject <==> !logged && !IsQuitLine(raw) && !IsUserLine(CutAtNewline(raw))
    ensures a == Login <==> LogsIn(raw)
    ensures a.Execute? ==> logged && !a.cmd.User? && a.cmd == Classify(CutAtNewline(raw))
  {
    if IsQuitLine(raw) then EndSession
    else
      var line := CutAtNewline(raw);
      if !logged && !IsUserLine(line) then Reject
      else if Classify(line).User? then Login
      else Execute(Classify(line))
  }

  /** The argument a command carries, empty for those without one. */
  function Argument(c: Command): string {
    match c
    case Mkd(n) => n
    case Rmd(n) => n
    case Cwd(p) => p
    case Stor(p) => p
    case Retr(n) => n
    case _ => ""
  }

  /** A line that starts with `v` is `v` followed by the rest of it. */
  lemma PrefixThenRest(line: string, v: string)
    requires StartsWith(line, v)
    ensures line == v + line[|v|..]
  {
    assert line == line[..|v|] + line[|v|..];
  }

  /**
   * Conversely to `ClassifyLine`: a line that picks a handler starts with
   * the line typed for it in all-upper or all-lower case.  For the handlers
   * that take an argument it is that line exactly, the argument being the
   * rest of the line.
   */
  lemma ClassifiedLine(line: string)
    ensures var c := Classify(line);
      !c.Invalid? ==> StartsWith(line, Line(c, false)) || StartsWith(line, Line(c, true))
  {
    var c := Classify(line);
    if c.Mkd? || c.Rmd? || c.Cwd? || c.Stor? || c.Retr? {
      ClassifiedArgLine(line);
      StartsWithPrefix(Line(c, false), []);
      StartsWithPrefix(Line(c, true), []);
    }
  }

  /**
   * A line classified as MKD, RMD, CWD, STOR or RETR is the verb, its space
   * and the argument carried, in one of the two spellings.
   */
  lemma ClassifiedArgLine(line: string)
    ensures var c := Classify(line);
      (c.Mkd? || c.Rmd? || c.Cwd? || c.Stor? || c.Retr?) ==> line == Line(c, false) || line == Line(c, true)
  {
    var c := Classify(line);
    match c
    case Mkd(a) =>
      PrefixThenRest(line, if StartsWith(line, "MKD ") then "MKD " else "mkd ");
    case Rmd(a) =>
      PrefixThenRest(line, if StartsWith(line, "RMD ") then "RMD " else "rmd ");
    case Cwd(a) =>
      PrefixThenRest(line, if StartsWith(line, "CWD ") then "CWD " else "cwd ");
    case Stor(a) =>
      PrefixThenRest(line, if StartsWith(line, "STOR ") then "STOR " else "stor ");
    case Retr(a) =>
      PrefixThenRest(line, if StartsWith(line, "RETR ") then "RETR " else "retr ");
    case _ =>
  }

  lemma {:induction false} CutBeforeNewline(s: string, t: string)
    requires '\n' !in s
    ensures CutAtNewline(s + "\n" + t) == s
    decreases |s|
  {
    if s == [] {
      assert (s + "\n" + t)[0] == '\n';
    } else {
      assert (s + "\n" + t)[1..] == s[1..] + "\n" + t;
      CutBeforeNewline(s[1..], t);
      assert [s[0]] + s[1..] == s;
    }
  }

  /** A line whose first character differs from that of `p` does not start with `p`. */
  lemma DiffersAtFirst(s: string, p: string)
    requires |p| > 0 && |s| > 0 && s[0] != p[0]
    ensures !StartsWith(s, p)
  {
    if |p| <= |s| { assert s[..|p|][0] == s[0]; }
  }

  /** A line starting with `v` followed by `rest` starts with `v`. */
  lemma StartsWithPrefix(v: string, rest: string)
    ensures StartsWith(v + rest, v)
  {
    assert (v + rest)[..|v|] == v;
  }

  /** The verbs of the chain that the line of a handler does not start with. */
  lemma OtherVerbs(l: string, verbs: set<string>)
    requires |l| > 0
    requires forall v :: v in verbs ==> |v| > 0 && v[0] != l[0]
    ensures forall v :: v in verbs ==> !StartsWith(l, v)
  {
    forall v | v in verbs ensures !StartsWith(l, v) { DiffersAtFirst(l, v); }
  }

  lemma ClassifyUser(lower: bool)
    ensures Classify(Line(User, lower)) == User
  {
    var l := Line(User, lower);
    var v := (if lower then "user" else "USER");
    assert l == v + "";
    StartsWithPrefix(v, "");
    if lower { DiffersAtFirst(l, "USER"); }
  }

  lemma ClassifyPwd(lower: bool)
    ensures Classify(Line(Pwd, lower)) == Pwd
  {
    var l := Line(Pwd, lower);
    var v := (if lower then "pwd" else "PWD");
    assert l == v + "";
    StartsWithPrefix(v, "");
    OtherVerbs(l, {"USER", "user"});
    if lower { DiffersAtFirst(l, "PWD"); }
  }

  lemma ClassifyList(lower: bool)
    ensures Classify(Line(List, lower)) == List
  {
    var l := Line(List, lower);
    var v := (if lower then "list" else "LIST");
    assert l == v + "";
    StartsWithPrefix(v, "");
    OtherVerbs(l, {"USER", "user", "PWD", "pwd"});
    if lower { DiffersAtFirst(l, "LIST"); }
  }

  lemma ClassifyMkd(a: string, lower: bool)
    ensures Classify(Line(Mkd(a), lower)) == Mkd(a)
  {
    var l := Line(Mkd(a), lower);
    var v := (if lower then "mkd " else "MKD ");
    assert l == v + a;
    StartsWithPrefix(v, a);
    OtherVerbs(l, {"USER", "user", "PWD", "pwd", "LIST", "list"});
    if lower { DiffersAtFirst(l, "MKD "); }
    assert l[4..] == a;
  }

  lemma ClassifyRmd(a: string, lower: bool)
    ensures Classify(Line(Rmd(a), lower)) == Rmd(a)
  {
    var l := Line(Rmd(a), lower);
    var v := (if lower then "rmd " else "RMD ");
    assert l == v + a;
    StartsWithPrefix(v, a);
    OtherVerbs(l, {"USER", "user", "PWD", "pwd", "LIST", "list", "MKD ", "mkd "});
    if lower { DiffersAtFirst(l, "RMD "); }
    assert l[4..] == a;
  }

  lemma ClassifyCwd(a: string, lower: bool)
    ensures Classify(Line(Cwd(a), lower)) == Cwd(a)
  {
    var l := Line(Cwd(a), lower);
    var v := (if lower then "cwd " else "CWD ");
    assert l == v + a;
    StartsWithPrefix(v, a);
    OtherVerbs(l, {"USER", "user", "PWD", "pwd", "LIST", "list", "MKD ", "mkd ", "RMD ", "rmd "});
    if lower { DiffersAtFirst(l, "CWD "); }
    assert l[4..] == a;
  }

  lemma ClassifyStor(a: string, lower: bool)
    ensures Classify(Line(Stor(a), lower)) == Stor(a)
  {
    var l := Line(Stor(a), lower);
    var v := (if lower then "stor " else "STOR ");
    assert l == v + a;
    StartsWithPrefix(v, a);
    OtherVerbs(l, {"USER", "user", "PWD", "pwd", "LIST", "list", "MKD ", "mkd ", "RMD ", "rmd ", "CWD ", "cwd "});
    if lower { DiffersAtFirst(l, "STOR "); }
    assert l[5..] == a;
  }

  lemma ClassifyRetr(a: string, lower: bool)
    ensures Classify(Line(Retr(a), lower)) == Retr(a)
  {
    var l := Line(Retr(a), lower);
    var v := (if lower then "retr " else "RETR ");
    assert l == v + a;
    StartsWithPrefix(v, a);
    OtherVerbs(l, {"USER", "user", "PWD", "pwd", "LIST", "list", "MKD ", "mkd ", "CWD ", "cwd ", "STOR ", "stor "});
    if lower { DiffersAtFirst(l, "RETR "); }
    assert !StartsWith(l, "RMD ") && !StartsWith(l, "rmd ") by { assert l[..4][1] == (if lower then 'e' else 'E'); }
    assert l[5..] == a;
  }

  lemma ClassifyLine(c: Command, lower: bool)
    requires !c.Invalid?
    ensures Classify(Line(c, lower)) == c
  {
    match c
    case User => ClassifyUser(lower);
    case Pwd => ClassifyPwd(lower);
    case List => ClassifyList(lower);
    case Mkd(a) => ClassifyMkd(a, lower);
    case Rmd(a) => ClassifyRmd(a, lower);
    case Cwd(a) => ClassifyCwd(a, lower);
    case Stor(a) => ClassifyStor(a, lower);
    case Retr(a) => ClassifyRetr(a, lower);
  }

  /**
   * A typed line, with the newline the client's fgets keeps, selects the
   * command it was typed for, argument included, in either case.
   */
  lemma ClassifyTypedLine(c: Command, lower: bool)
    requires !c.Invalid?
    requires '\n' !in Argument(c)
    ensures CutAtNewline(Line(c, lower) + "\n") == Line(c, lower)
    ensures Classify(CutAtNewline(Line(c, lower) + "\n")) == c
  {
    var l := Line(c, lower);
    assert '\n' !in l by {
      var verb := l[..|l| - |Argument(c)|];
      assert l == verb + Argument(c);
      assert '\n' !in verb;
    }
    CutBeforeNewline(l, "");
    assert l + "\n" + "" == l + "\n";
    ClassifyLine(c, lower);
  }

  /**
   * No line typed for a handler ends the session: every verb starts with a
   * letter other than those of QUIT and ABOR.
   */
  lemma TypedLineIsNotQuit(c: Command, lower: bool)
    requires !c.Invalid?
    ensures !IsQuitLine(Line(c, lower) + "\n")
  {
    var raw := Line(c, lower) + "\n";
    assert |raw| > 0 && raw[0] == Line(c, lower)[0];
    OtherVerbs(raw, {"QUIT", "quit", "ABOR", "abor"});
  }

  /** Once logged in, a typed line runs the handler it was typed for. */
  lemma DispatchTyped(c: Command, lower: bool)
    requires !c.Invalid? && !c.User? && '\n' !in Argument(c)
    ensures Dispatch(true, Line(c, lower) + "\n") == Execute(c)
  {
    var raw := Line(c, lower) + "\n";
    ClassifyTypedLine(c, lower);
    TypedLineIsNotQuit(c, lower);
    assert !IsUserLine(CutAtNewline(raw));
  }

  /** A line that differs from `p` at a position of `p` does not start with `p`. */
  lemma DiffersAt(s: string, p: string, i: nat)
    requires i < |p| && (i < |s| ==> s[i] != p[i])
    ensures !StartsWith(s, p)
  {
    if |p| <= |s| { assert s[..|p|][i] == s[i]; }
  }

  predicate IsUpper(c: char) { 'A' <= c <= 'Z' }
  predicate IsLower(c: char) { 'a' <= c <= 'z' }

  /** Every prefix the handler chain tests, in both spellings. */
  const Verbs: set<string> := {
    "USER", "user", "PWD", "pwd", "LIST", "list", "MKD ", "mkd ",
    "RMD ", "rmd ", "CWD ", "cwd ", "STOR ", "stor ", "RETR ", "retr "}

  /** A line that starts with none of the tested prefixes reaches the 503 branch. */
  lemma NoVerbIsInvalid(line: string)
    requires forall v :: v in Verbs ==> !StartsWith(line, v)
    ensures Classify(line) == Invalid
  {
  }

  /**
   * A verb in mixed case reaches no handler: a line whose first two letters
   * differ in case ("Pwd", "uSER", "Stor x") gets the 503 reply, whatever
   * follows them.
   */
  lemma MixedCaseIsInvalid(line: string)
    requires |line| >= 2
    requires (IsUpper(line[0]) && IsLower(line[1])) || (IsLower(line[0]) && IsUpper(line[1]))
    ensures Classify(line) == Invalid
  {
    forall v | v in Verbs ensures !StartsWith(line, v) {
      if IsUpper(v[0]) == IsUpper(line[0]) {
        DiffersAt(line, v, 1);
      } else {
        DiffersAt(line, v, 0);
      }
    }
    NoVerbIsInvalid(line);
  }

  /**
   * A line that starts with the argument verb `v` followed by a character
   * other than a space starts with none of the tested prefixes: only
   * `spaced`, the verb with its space, shares more than its first letter with
   * it (besides the prefixes in `others`, which differ at the second), and
   * that one differs at the space.
   */
  lemma NoSpaceMatchesNoVerb(line: string, v: string, spaced: string, others: set<string>)
    requires |v| >= 2 && |line| > |v| && line[..|v|] == v && line[|v|] != ' '
    requires spaced in Verbs && |spaced| == |v| + 1 && spaced[|v|] == ' '
    requires forall p :: p in others ==> |p| >= 2 && p[1] != v[1]
    requires forall p :: p in Verbs && p != spaced && p !in others ==> p[0] != v[0]
    ensures forall p :: p in Verbs ==> !StartsWith(line, p)
  {
    forall p | p in Verbs ensures !StartsWith(line, p) {
      assert line[0] == v[0] && line[1] == v[1];
      if p == spaced {
        DiffersAt(line, p, |v|);
      } else if p in others {
        DiffersAt(line, p, 1);
      } else {
        DiffersAt(line, p, 0);
      }
    }
  }

  /** MKD without its space, in either spelling, gets the 503 reply. */
  lemma MkdWithoutSpace(line: string, lower: bool)
    requires |line| > 3 && line[..3] == (if lower then "mkd" else "MKD") && line[3] != ' '
    ensures Classify(line) == Invalid
  {
    if lower {
      NoSpaceMatchesNoVerb(line, "mkd", "mkd ", {});
    } else {
      NoSpaceMatchesNoVerb(line, "MKD", "MKD ", {});
    }
    NoVerbIsInvalid(line);
  }

  /** RMD without its space, in either spelling, gets the 503 reply. */
  lemma RmdWithoutSpace(line: string, lower: bool)
    requires |line| > 3 && line[..3] == (if lower then "rmd" else "RMD") && line[3] != ' '
    ensures Classify(line) == Invalid
  {
    if lower {
      NoSpaceMatchesNoVerb(line, "rmd", "rmd ", {"retr "});
    } else {
      NoSpaceMatchesNoVerb(line, "RMD", "RMD ", {"RETR "});
    }
    NoVerbIsInvalid(line);
  }

  /** CWD without its space, in either spelling, gets the 503 reply. */
  lemma CwdWithoutSpace(line: string, lower: bool)
    requires |line| > 3 && line[..3] == (if lower then "cwd" else "CWD") && line[3] != ' '
    ensures Classify(line) == Invalid
  {
    if lower {
      NoSpaceMatchesNoVerb(line, "cwd", "cwd ", {});
    } else {
      NoSpaceMatchesNoVerb(line, "CWD", "CWD ", {});
    }
    NoVerbIsInvalid(line);
  }

  /** STOR without its space, in either spelling, gets the 503 reply. */
  lemma StorWithoutSpace(line: string, lower: bool)
    requires |line| > 4 && line[..4] == (if lower then "stor" else "STOR") && line[4] != ' '
    ensures Classify(line) == Invalid
  {
    if lower {
      NoSpaceMatchesNoVerb(line, "stor", "stor ", {});
    } else {
      NoSpaceMatchesNoVerb(line, "STOR", "STOR ", {});
    }
    NoVerbIsInvalid(line);
  }

  /** RETR without its space, in either spelling, gets the 503 reply. */
  lemma RetrWithoutSpace(line: string, lower: bool)
    requires |line| > 4 && line[..4] == (if lower then "retr" else "RETR") && line[4] != ' '
    ensures Classify(line) == Invalid
  {
    if lower {
      NoSpaceMatchesNoVerb(line, "retr", "retr ", {"rmd "});
    } else {
      NoSpaceMatchesNoVerb(line, "RETR", "RETR ", {"RMD "});
    }
    NoVerbIsInvalid(line);
  }

  /**
   * MKD, RMD, CWD, STOR and RETR only match with the space after them: the
   * verb followed by any other character gets the 503 reply, whatever
   * follows.
   */
  lemma VerbWithoutSpaceIsInvalid(v: string, c: char, rest: string)
    requires v in {"MKD", "mkd", "RMD", "rmd", "CWD", "cwd", "STOR", "stor", "RETR", "retr"}
    requires c != ' '
    ensures Classify(v + [c] + rest) == Invalid
  {
    var line := v + [c] + rest;
    assert line[..|v|] == v && line[|v|] == c;
    var lower := v[0] in "mrcs";
    if v == "MKD" || v == "mkd" {
      MkdWithoutSpace(line, lower);
    } else if v == "RMD" || v == "rmd" {
      RmdWithoutSpace(line, lower);
    } else if v == "CWD" || v == "cwd" {
      CwdWithoutSpace(line, lower);
    } else if v == "STOR" || v == "stor" {
      StorWithoutSpace(line, lower);
    } else {
      RetrWithoutSpace(line, lower);
    }
  }

  /** Only the first three characters decide PWD: whatever follows, the line selects PWD. */
  lemma PwdIsAPrefixTest(rest: string, lower: bool)
    ensures Classify((if lower then "pwd" else "PWD") + rest) == Pwd
  {
    var v := if lower then "pwd" else "PWD";
    StartsWithPrefix(v, rest);
    OtherVerbs(v + rest, {"USER", "user"});
  }
}
