/**
 * The replies the handlers send, each a fixed "Code[n]: ..." text with the
 * command's argument spliced in, and the LIST formatter: a header, then
 * one "=> name" line per directory entry except ".", ".." and ".DS_Store".
 */
module Replies {
  import opened Wrappers
  import opened Paths
  import opened Host

  const UserLoggedIn := "Code[230]: User successfully logged in...:)"
  const NoUserLoggedIn := "Code[530]: No user logged in...:("
  const InvalidCommand := "Code[503]: Invalid Command...( Try again with valid commands...:)"
  const PwdFailed := "Code[530]: Failed to fetch present working directory...:("
  const ListFailed := "Code[304]: Failed to fetch list...:("
  const ListCwdFailed := "Code[304]: Failed to fetch list using current directory...:("
  const ListHeader := "\nCode[250]:\n"

  function PwdDone(wd: string): string {
    "Code[257]: " + wd
  }

  function MkdDone(name: string): string {
    "Code[336]: Successfully created directory " + name + "...:)"
  }

  function RmdDone(name: string): string {
    "Code[344]: Successfully removed directory " + name + "...:)"
  }

  function CwdFailed(path: string): string {
    "Code[341]: Failed to change directory to " + path + "...:("
  }

  function CwdDone(path: string): string {
    "Code[200]: Successfully changed directory to " + path + "...:)"
  }

  /** STOR's read failure; the home directory string is appended after the text. */
  function StorReadFailed(name: string, home: string): string {
    "Code[350]: Failed to read file " + name + "...:(" + home
  }

  function StorWriteFailed(name: string): string {
    "Code[349]: Failed to write to file " + name + "...:("
  }

  /** Sent once for every chunk STOR writes. */
  function StorSaved(name: string): string {
    "Code[200]: Sucessfully saved file " + name + " to server...:)"
  }

  /** RETR's read failure, with a lower-case "code". */
  function RetrReadFailed(name: string): string {
    "code[350]: Failed to read from file " + name + " present in server...:("
  }

  /**
   * A reply built from a head, an argument and a tail opens with the code
   * its head opens with.
   */
  lemma HeadFirst(code: string, head: string, arg: string, tail: string)
    requires |code| == 9 <= |head|
    requires forall i :: 0 <= i < 9 ==> head[i] == code[i]
    ensures (head + arg + tail)[..9] == code
  {
  }

  /** The replies of PWD, MKD, RMD and CWD open with their codes. */
  lemma DirectoryReplyCodes(name: string)
    ensures PwdDone(name)[..9] == "Code[257]"
    ensures MkdDone(name)[..9] == "Code[336]"
    ensures RmdDone(name)[..9] == "Code[344]"
    ensures CwdFailed(name)[..9] == "Code[341]"
    ensures CwdDone(name)[..9] == "Code[200]"
  {
    HeadFirst("Code[257]", "Code[257]: ", name, "");
    HeadFirst("Code[336]", "Code[336]: Successfully created directory ", name, "...:)");
    HeadFirst("Code[344]", "Code[344]: Successfully removed directory ", name, "...:)");
    HeadFirst("Code[341]", "Code[341]: Failed to change directory to ", name, "...:(");
    HeadFirst("Code[200]", "Code[200]: Successfully changed directory to ", name, "...:)");
    assert PwdDone(name) == "Code[257]: " + name + "";
  }

  /** The replies of STOR and RETR open with their codes; RETR's is spelt in lower case. */
  lemma TransferReplyCodes(name: string, home: string)
    ensures StorReadFailed(name, home)[..9] == "Code[350]"
    ensures StorWriteFailed(name)[..9] == "Code[349]"
    ensures StorSaved(name)[..9] == "Code[200]"
    ensures RetrReadFailed(name)[..9] == "code[350]"
  {
    HeadFirst("Code[350]", "Code[350]: Failed to read file ", name, "...:(" + home);
    HeadFirst("Code[349]", "Code[349]: Failed to write to file ", name, "...:(");
    HeadFirst("Code[200]", "Code[200]: Sucessfully saved file ", name, " to server...:)");
    HeadFirst("code[350]", "code[350]: Failed to read from file ", name, " present in server...:(");
    assert StorReadFailed(name, home) == "Code[350]: Failed to read file " + name + ("...:(" + home);
  }

  /** The text between a fixed head and a fixed tail is determined by the whole. */
  lemma Unwrap(head: string, tail: string, a: string, b: string)
    requires head + a + tail == head + b + tail
    ensures a == b
  {
    var x, y := head + a + tail, head + b + tail;
    assert |a| == |b|;
    forall i | 0 <= i < |a| ensures a[i] == b[i] {
      assert x[|head| + i] == a[i] && y[|head| + i] == b[i];
    }
  }

  /** The argument a reply names can be read back from the reply. */
  lemma RepliesNameTheirArgument(a: string, b: string)
    ensures PwdDone(a) == PwdDone(b) ==> a == b
    ensures MkdDone(a) == MkdDone(b) ==> a == b
    ensures RmdDone(a) == RmdDone(b) ==> a == b
    ensures CwdFailed(a) == CwdFailed(b) ==> a == b
    ensures CwdDone(a) == CwdDone(b) ==> a == b
    ensures StorWriteFailed(a) == StorWriteFailed(b) ==> a == b
    ensures StorSaved(a) == StorSaved(b) ==> a == b
    ensures RetrReadFailed(a) == RetrReadFailed(b) ==> a == b
  {
    if PwdDone(a) == PwdDone(b) {
      assert PwdDone(a) == "Code[257]: " + a + "" && PwdDone(b) == "Code[257]: " + b + "";
      Unwrap("Code[257]: ", "", a, b);
    }
    if MkdDone(a) == MkdDone(b) { Unwrap("Code[336]: Successfully created directory ", "...:)", a, b); }
    if RmdDone(a) == RmdDone(b) { Unwrap("Code[344]: Successfully removed directory ", "...:)", a, b); }
    if CwdFailed(a) == CwdFailed(b) { Unwrap("Code[341]: Failed to change directory to ", "...:(", a, b); }
    if CwdDone(a) == CwdDone(b) { Unwrap("Code[200]: Successfully changed directory to ", "...:)", a, b); }
    if StorWriteFailed(a) == StorWriteFailed(b) { Unwrap("Code[349]: Failed to write to file ", "...:(", a, b); }
    if StorSaved(a) == StorSaved(b) { Unwrap("Code[200]: Sucessfully saved file ", " to server...:)", a, b); }
    if RetrReadFailed(a) == RetrReadFailed(b) {
      Unwrap("code[350]: Failed to read from file ", " present in server...:(", a, b);
    }
  }

  /** The PWD reply: the current directory as getcwd reports it, or 530. */
  function PwdReply(fs: FileSystem, cwd: Path): (r: string)
    ensures cwd in fs.dirs && PlainPath(cwd) ==>
      exists w :: r == PwdDone(w) && forall base :: Resolve(base, w) == Some(cwd)
    ensures cwd !in fs.dirs ==> r == PwdFailed
  {
    match Getcwd(fs, cwd)
    case Some(w) => PwdDone(w)
    case None => PwdFailed
  }

  /** The entries LIST leaves out. */
  predicate Hidden(n: Name) {
    n == "." || n == ".." || n == ".DS_Store"
  }

  /** The entries LIST shows, in readdir order. */
  function Visible(entries: seq<Name>): (r: seq<Name>)
    ensures forall n :: n in r <==> n in entries && !Hidden(n)
    ensures |r| <= |entries|
  {
    if entries == [] then []
    else if Hidden(entries[0]) then Visible(entries[1..])
    else [entries[0]] + Visible(entries[1..])
  }

  /** Filtering a listing piece by piece gives the filtered listing, in order. */
  lemma {:induction false} VisibleAppend(a: seq<Name>, b: seq<Name>)
    ensures Visible(a + b) == Visible(a) + Visible(b)
    decreases |a|
  {
    if a == [] {
      assert a + b == b;
    } else {
      assert (a + b)[0] == a[0] && (a + b)[1..] == a[1..] + b;
      VisibleAppend(a[1..], b);
    }
  }

  /** No entry other than the three hidden names is dropped. */
  lemma {:induction false} VisibleKeepsOthers(entries: seq<Name>)
    requires forall i :: 0 <= i < |entries| ==> !Hidden(entries[i])
    ensures Visible(entries) == entries
    decreases |entries|
  {
    if entries != [] {
      VisibleKeepsOthers(entries[1..]);
    }
  }

  /** One "=> name" line per name. */
  function EntryLines(names: seq<Name>): string {
    if names == [] then "" else "=> " + names[0] + "\n" + EntryLines(names[1..])
  }

  lemma {:induction false} EntryLinesAppend(a: seq<Name>, b: seq<Name>)
    ensures EntryLines(a + b) == EntryLines(a) + EntryLines(b)
    decreases |a|
  {
    if a == [] {
      assert a + b == b;
    } else {
      assert (a + b)[0] == a[0] && (a + b)[1..] == a[1..] + b;
      EntryLinesAppend(a[1..], b);
    }
  }

  /** The text of a successful LIST for the names readdir yields. */
  function Listing(entries: seq<Name>): string {
    ListHeader + EntryLines(Visible(entries))
  }

  /** "." and ".." never show in a listing. */
  lemma ListingSkipsDots(entries: seq<Name>)
    ensures Listing([".", ".."] + entries) == ListHeader + EntryLines(Visible(entries))
  {
    VisibleAppend([".", ".."], entries);
    assert [".", ".."][1..] == [".."] && [".."][1..] == [];
    assert Visible([".", ".."]) == [];
    assert [] + Visible(entries) == Visible(entries);
  }

  /**
   * One more entry from readdir adds its line at the end of the listing,
   * unless it is one of the hidden names.
   */
  lemma ListingAppend(entries: seq<Name>, n: Name)
    ensures Listing(entries + [n]) == Listing(entries) + (if Hidden(n) then "" else "=> " + n + "\n")
  {
    VisibleAppend(entries, [n]);
    assert [n][1..] == [];
    EntryLinesAppend(Visible(entries), Visible([n]));
    if !Hidden(n) {
      assert EntryLines([n]) == "=> " + n + "\n" + EntryLines([]);
    }
  }

  /**
   * LIST: opendir on the home directory string decides whether anything
   * is listed, but what is listed is opendir("./"), the current directory.
   * A failure is reported with 304 and the session goes on.
   */
  function ListReply(fs: FileSystem, cwd: Path, home: string): (r: string)
    ensures ReadDir(fs, cwd, home).None? ==> r == ListFailed
    ensures ReadDir(fs, cwd, home).Some? && cwd in fs.dirs ==>
      r == ListHeader + EntryLines(Visible(fs.dirs[cwd]))
    ensures ReadDir(fs, cwd, home).Some? && cwd !in fs.dirs ==> r == ListCwdFailed
  {
    assert Resolve(cwd, "./") == Some(cwd) by {
      assert "./"[0] == '.' && "./"[1..] == "/" && "/"[1..] == "";
    }
    if ReadDir(fs, cwd, home).None? then ListFailed
    else
      match ReadDir(fs, cwd, "./")
      case None => ListCwdFailed
      case Some(entries) => ListingSkipsDots(fs.dirs[cwd]); Listing(entries)
  }

  /** How a LIST ends as the handler is written. */
  datatype ListRun = Sent(text: string) | SentThenCrashed(text: string)

  /**
   * LIST as written: after a failed opendir the reply 304 is sent, but the
   * handler goes on to readdir(NULL), which ends the session's process.
   */
  function ListAsWritten(fs: FileSystem, cwd: Path, home: string): (r: ListRun)
    ensures r.Sent? <==> ReadDir(fs, cwd, home).Some? && cwd in fs.dirs
    ensures r.text == ListReply(fs, cwd, home)
  {
    if ReadDir(fs, cwd, home).None? then SentThenCrashed(ListFailed)
    else if ReadDir(fs, cwd, "./").None? then SentThenCrashed(ListCwdFailed)
    else Sent(ListReply(fs, cwd, home))
  }

  /** A server started with a home directory that does not exist crashes on LIST. */
  lemma ListCrashesOnMissingHome()
    ensures ListAsWritten(FileSystem(map[], map[[] := []]), [], "/srv/ftp").SentThenCrashed?
  {
    var fs := FileSystem(map[], map[[] := []]);
    assert Resolve([], "/srv/ftp").Some?;
    assert Resolve([], "/srv/ftp").value != [] by {
      ResolveRender([], ["srv", "ftp"]);
      assert Render(["srv", "ftp"]) == "/srv/ftp";
    }
  }
}
