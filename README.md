# FTP server session engine, in Dafny

This project models the per-connection command engine of a small FTP-style
server (`Server/server.c`). After `accept`, the server forks a child. The
child receives one text line at a time, and:

- ends the session on `QUIT`/`ABOR` (upper or lower case);
- answers 530 to anything but `USER` until a user has logged in;
- dispatches the line through a fixed chain of case-sensitive prefix tests
  to the handlers for USER, PWD, LIST, MKD, RMD, CWD, STOR, RETR, or to the
  503 reply.

The model keeps the child's state in a class, `Session.Connection`:

- the login flag;
- the process's current directory;
- the home-directory string the server was started with;
- the filesystem;
- the messages sent so far.

Each received line is one call of `Connection.Step`. `Connection.Run` is the
loop over the lines a client sends.

The filesystem is a value (module `Host`). It maps every regular file to its
bytes, and every directory to the names `readdir` returns after "." and "..".
Path strings are resolved lexically against the current directory (module
`Paths`). The calls fail the way the C library reports failure:

- `mkdir`, `rmdir` and `chdir` return `None`;
- `open` returns a bad descriptor;
- `read` returns `ReadFailed`.

STOR and RETR are modelled as the loops they are. They read up to 1024 bytes
at a time, stop on a zero-byte read, and write or send every chunk (module
`Transfer`). Their loop invariants tie the state after each round to the
chunks of the file read so far. The following are proved:

- **STOR result:** the destination ends up as the source laid over its
  previous content, because it is opened without `O_TRUNC`.
- **STOR replies:** it sends one 200 per chunk.
- **RETR:** in the model, which sends each chunk as the bytes read, the
  data messages put back together are the file. The program itself sends
  each chunk with `strcpy`, which does not preserve it (see "Left out").
- **Round trip:** in the same model of RETR, a STOR into the current
  directory followed by RETR of the base name gives the uploaded bytes back
  (`Connection.UploadThenDownload`). This holds when the current directory
  exists, the base name is a plain name (not empty, ".", ".." or "/"), no
  directory has that name there, and no file longer than the source already
  has that name (STOR does not truncate).

The model follows the code where it and what an FTP-style server would
do differ:

- **Framing:** messages are sent unframed. Each send is one `Msg`, either
  text or a chunk of file data.
- **Case:** verbs are recognised only in all-upper or all-lower case, by
  prefix.
- **Missing space:** a verb that needs an argument, typed without its space,
  gets the 503 reply.
- **MKD/RMD:** these always answer 336 and 344, even when `mkdir` or `rmdir`
  failed, e.g. for a directory that is not empty (`Connection.Rmd`).
- **CWD:** a successful CWD does not change the home string, since
  `server.c:419` assigns to a local parameter.
- **STOR and home:** STOR overwrites the home string with the current
  directory and a "/".

## Model

| member | source | states |
|---|---|---|
| Commands.CutAtNewline | Server/server.c:160 | the line is cut at its first newline: the result is a newline-free prefix of the raw line, and what follows it (if anything) is a newline |
| Commands.Dispatch | Server/server.c:152-172 | the quit test runs on the raw line before the gate; the session ends exactly on QUIT/quit/ABOR/abor; 530 exactly when no user is logged in and the cut line is not USER/user; login exactly on a USER line; a handler runs only when logged in, never for USER, and it is the one the prefix chain classifies |
| Commands.ClassifiedLine | Server/server.c:167-211 | whatever the prefix chain selects other than 503, the line starts with that command's verb in upper or lower case |
| Commands.ClassifiedArgLine | Server/server.c:184-206 | a line selected for MKD, RMD, CWD, STOR or RETR is exactly the verb, its space and the argument the handler gets |
| Commands.ClassifyTypedLine | Server/server.c:160-212 | a line typed for any handler, with the client's newline, is cut back to the typed line and selects that handler with that argument, in upper or lower case |
| Commands.DispatchTyped | Server/server.c:152-212 | once logged in, a typed command line runs the handler it was typed for |
| Commands.TypedLineIsNotQuit | Server/server.c:152 | no command line typed for a handler passes the QUIT/ABOR test |
| Commands.NoVerbIsInvalid | Server/server.c:167-211 | a line that starts with none of the sixteen tested prefixes reaches the 503 branch |
| Commands.MixedCaseIsInvalid | Server/server.c:167-211 | any line whose first two letters differ in case ("Pwd", "uSER x") reaches the 503 branch, whatever follows |
| Commands.VerbWithoutSpaceIsInvalid | Server/server.c:184-211 | MKD, RMD, CWD, STOR or RETR (either case) followed by any character other than a space reaches the 503 branch, whatever follows |
| Commands.PwdIsAPrefixTest | Server/server.c:174 | only the first three characters decide PWD: "PWD" or "pwd" followed by anything selects PWD |
| Paths.Resolve | Server/server.c:365 | the empty path string names nothing (ENOENT); any other string resolves, and a path of plain names stays plain |
| Paths.RelName | Server/server.c:365 | a plain name given to mkdir, rmdir or chdir names that entry of the current directory |
| Paths.ResolveRender | Server/server.c:294 | resolving the string getcwd reports gives back the current directory |
| Paths.ResolveRenderAnywhere | Server/server.c:294 | the path getcwd reports is absolute: it names the current directory from whatever directory it is resolved against |
| Paths.ResolveUnderRender | Server/server.c:449-451 | getcwd + "/" + name names the entry `name` of the current directory, which is what STOR builds as its destination |
| Paths.Basename | Server/server.c:447 | POSIX basename is never empty, holds a '/' only when it is "/", and is the string itself when that has no '/' |
| Paths.BasenameOfChild | Server/server.c:447 | the base name of dir + "/" + name is name |
| Host.Mkdir | Server/server.c:365 | mkdir succeeds if and only if the path is new, its parent exists and its last component is not "." or ".."; it then adds exactly that empty directory, lists it last in its parent, and leaves every other listing and all files as they were |
| Host.Rmdir | Server/server.c:386 | rmdir succeeds if and only if the path is an existing empty directory other than the root, not named by "." or ".."; it then removes exactly that directory and its entry in the parent, and leaves every other listing and all files as they were |
| Host.MkdirThenRmdir | Server/server.c:365-386 | removing a directory just made restores the filesystem |
| Host.MkdirKeepsEntries | Server/server.c:365 | after mkdir, every name a directory lists still exists |
| Host.RmdirKeepsEntries | Server/server.c:386 | after rmdir, every name a directory lists still exists |
| Host.OpenCreateKeepsEntries | Server/server.c:455 | after open with O_CREAT, every name a directory lists still exists |
| Host.Chdir | Server/server.c:409 | chdir succeeds exactly when the path resolves to a directory, and moves there |
| Host.Getcwd | Server/server.c:294 | getcwd succeeds exactly while the current directory exists, and reports an absolute name for it: the string resolves to the current directory from any directory |
| Host.ReadDir | Server/server.c:330-337 | opendir succeeds exactly on a path that resolves to a directory; readdir then yields ".", ".." and the directory's entries in order |
| Host.OpenRead | Server/server.c:453 | open with O_RDONLY (STOR's source, and RETR's file at line 524) succeeds if and only if the path resolves to a directory, or to a regular file named without a trailing '/', "." or ".."; the descriptor names the resolved path |
| Host.ReadAt | Server/server.c:459 | read fails exactly on a bad descriptor or a directory; otherwise it returns the next at most 1024 bytes at the offset, fewer only at end of file |
| Host.OpenCreate | Server/server.c:455 | open with O_CREAT and without O_TRUNC succeeds if and only if the string does not name a directory and the path is an existing file or a new name in an existing directory; it either changes nothing or adds one empty file listed last in its parent, every other listing unchanged; the descriptor names the resolved path, which is then a file |
| Host.WriteAt | Server/server.c:476 | write fails exactly on a bad descriptor; otherwise the file's bytes at the offset become the data and the rest is kept |
| Transfer.ChunksSound | Server/server.c:456-497 | the 1024-byte reads of a file are non-empty, all full but the last, number ceil(n/1024), and together are the file |
| Transfer.ChunksExtend | Server/server.c:459 | one more read at a chunk boundary adds exactly the next chunk |
| Transfer.ReadStep | Server/server.c:459-474 | a read at a chunk boundary either is empty at end of file or lands on the next boundary and extends the chunks read |
| Transfer.PayloadOfChunks | Server/server.c:525-551 | in the model's RETR, which sends each chunk as read, the data put back together is the file |
| Transfer.Overlay | Server/server.c:455-476 | a file opened without truncation and written from offset 0 with `d` starts with `d`, keeps its prior bytes beyond `d`, and is as long as the longer of the two |
| Transfer.OverlayStep | Server/server.c:476 | writing the next chunk at its offset extends the overlay of the copied prefix by one chunk |
| Transfer.OverlaySelf | Server/server.c:453-455 | copying a file onto itself leaves it unchanged |
| Transfer.OverlayLonger | Server/server.c:455 | an upload over a longer existing file keeps that file's tail, so the file is not the source |
| Replies.DirectoryReplyCodes | Server/server.c:296-420 | the PWD, MKD, RMD and CWD replies open with codes 257, 336, 344, and 341 or 200 |
| Replies.TransferReplyCodes | Server/server.c:464-533 | STOR's replies open with 350, 349 and 200, RETR's failure with a lower-case "code[350]" |
| Replies.RepliesNameTheirArgument | Server/server.c:296-536 | each reply that names its argument determines it: equal replies name equal arguments |
| Replies.PwdReply | Server/server.c:288-308 | PWD replies 257 with an absolute path string that resolves to the current directory from any directory, or 530 when getcwd fails |
| Replies.Visible | Server/server.c:340 | LIST shows exactly the entries other than ".", ".." and ".DS_Store" |
| Replies.VisibleAppend | Server/server.c:337-346 | the listing is filtered entry by entry, in readdir order |
| Replies.VisibleKeepsOthers | Server/server.c:340 | no entry other than ".", ".." and ".DS_Store" is dropped: such entries are listed as readdir yields them |
| Replies.ListingSkipsDots | Server/server.c:337-346 | the "." and ".." readdir yields first never show in the listing |
| Replies.ListingAppend | Server/server.c:337-346 | each further readdir entry adds its "=> name" line at the end, unless hidden |
| Replies.ListReply | Server/server.c:317-351 | 304 when the home string cannot be opened; otherwise the header and one line per visible entry of the current directory, or the second 304 when that cannot be opened |
| Replies.ListAsWritten | Server/server.c:324-337 | as written, LIST sends the reply in every case but completes only when both opendir calls succeed, crashing on readdir(NULL) otherwise |
| Replies.ListCrashesOnMissingHome | Server/server.c:324-337 | with a home directory that does not exist, LIST crashes the session |
| Session.StorDestination | Server/server.c:441-451 | the home string STOR sets, followed by a name, names that entry of the current directory, whatever the home string was before |
| Session.StepBeforeLogin | Server/server.c:152-166 | before login, a line that does not log in changes nothing but the replies: one 530, or nothing for a quit line |
| Session.StepKeepsEntries | Server/server.c:148-215 | no line makes a name listed in a directory refer to nothing |
| Session.StepKeepsSound | Server/server.c:148-215 | no line makes a sound state unsound: the current directory stays a plain path and listed names keep existing |
| Session.ChainSteps | Server/server.c:148-217 | along the states the loop passes through, each line takes a state to the next as one pass of the loop does |
| Session.ChainLogin | Server/server.c:162-171 | after a run of lines, the user is logged in exactly when they were at the start or some line was a USER line |
| Session.ChainBeforeLogin | Server/server.c:152-166 | lines before any USER change nothing and are each answered 530, a final quit line excepted |
| Session.RunFacts | Server/server.c:146-217 | the login and before-login facts, and that listed names keep existing, for the lines the loop has taken |
| Session.Connection.constructor | Server/server.c:141-147 | a freshly forked child: no user logged in, nothing sent, the directory, home string and filesystem it inherits; valid exactly when that directory is a plain path and every listed name exists |
| Session.Connection.Step | Server/server.c:148-215 | one line: quit exactly on a quit line; the state moves as `StepRel` says: login is sticky and set only by USER; 530 and 230 change nothing else; a handler's effect on directory, home, filesystem and messages is as `Executed` states; a valid connection stays valid |
| Session.Connection.Execute | Server/server.c:174-211 | runs the handler the prefix chain selected, or sends 503, with the effect `Executed` states |
| Session.Connection.Advance | Server/server.c:150-215 | one pass of the loop: the session quits exactly on a quit line, and the chain of states grows by the state the line leads to |
| Session.Connection.Run | Server/server.c:146-217 | the loop stops at the first quit line or at the end of input; it returns the chain of states it passed through, each line taking a state to the next as `StepRel` says; the user is logged in exactly when a USER line came; before any USER the state is unchanged and every line got 530; listed names keep existing; a valid connection stays valid |
| Session.Connection.Pwd | Server/server.c:288-308 | sends the PWD reply and changes nothing else |
| Session.Connection.List | Server/server.c:317-351 | sends the LIST reply and changes nothing else |
| Session.Connection.Mkd | Server/server.c:359-372 | calls mkdir on the text after "MKD ", ignores the result, always replies 336; for a plain name, creates the empty directory cwd/name, listed last in the current directory, exactly when the current directory exists and nothing has that name yet, and otherwise changes nothing |
| Session.Connection.Rmd | Server/server.c:380-393 | calls rmdir, ignores the result (a non-empty directory stays), always replies 344 |
| Session.Connection.Cwd | Server/server.c:402-426 | on success moves the current directory and replies 200 with the path as typed; on failure stays and replies 341; the home string is untouched; for a plain name, enters cwd/name exactly when that directory exists, and otherwise stays |
| Session.Connection.Stor | Server/server.c:435-501 | sets home to getcwd + "/", opens the source and home + basename, then the copy's outcome as `StorEffect` states |
| Session.Connection.CopyChunks | Server/server.c:456-497 | unreadable source: 350 with home appended; empty source: no reply; unwritable destination: 349; otherwise the destination becomes the source over its prior content, with one 200 per chunk |
| Session.Connection.Retr | Server/server.c:510-554 | opens home + name with no separator; sends the file's chunks as data, or 350 when it cannot be read |
| Session.Connection.SendChunks | Server/server.c:525-551 | the read/send loop sends exactly the chunks of the file, in order (each as the bytes read) |
| Session.PwdTwice | Server/server.c:288-308 | two PWDs in a row leave the state as it was and send the same reply twice; when getcwd succeeds it is 257 with an absolute name of the current directory |
| Session.StorIntoCwd | Server/server.c:441-497 | STOR of a readable file, empty or not, stores its bytes under its base name in the current directory, with one 200 per chunk (none for an empty file), when the current directory exists, the base name is a plain name, no directory has that name there, and no file longer than the source already has it |
| Session.RetrFromCwd | Server/server.c:516-551 | RETR of that base name, with home set by STOR, sends chunks whose payload is the stored file |
| Session.Connection.UploadThenDownload | Server/server.c:199-206 | STOR arg then RETR basename(arg), for any readable source including an empty one, when the current directory exists, the base name is a plain name, no directory has that name there, and no file longer than the source already has it: the session stays logged in and in the same directory, home becomes that directory + "/", the file in that directory holds the source bytes and the download's payload is those bytes |

## Left out

- Sockets, `fork`, `accept` and the client program are not modelled. Each
  `send` appends one message to `sent`, and each `recv` delivers one whole
  line.
- The loop's behaviour when `recv` returns 0 or -1 (a closed connection) is
  not modelled. `Run` stops when its input ends.
- Buffer sizes and overruns are not modelled: the 1024-byte receive buffer,
  the 256-byte PWD buffer and the `malloc(strlen - 4)` argument copies.
- Session.StorHome: STOR writes `getcwd(serverHomeDirectory, 1024)` and
  then `strcat(..., "/")` into the storage of the `-d` command-line argument
  (`Server/server.c:441-442`), which is only as long as that argument. The
  model's home string is unbounded, so that overrun is not modelled.
- Lines are modelled as whole character sequences. In C they are strings cut
  at the first NUL byte: `strlen` and `strncpy` at `Server/server.c:362-363`
  and `Server/server.c:444-445` stop there. The prefix tests and the argument
  taken from offset 4 or 5 do not model a NUL inside a line. The
  clearing of the buffer (`resetBufferMemory`, `bzero`) is therefore not
  modelled as a buffer. Each reply is a fresh string.
- Session.Connection.SendChunks: RETR copies each chunk with
  `strcpy(buffer, fileContent)` (`Server/server.c:547`), but `fileContent` is
  never NUL-terminated after `read`. The copy stops at the first NUL byte in
  the chunk, or else runs on past the bytes read into stale or uninitialised
  bytes of the array, and past the 1024-byte array itself after a full
  chunk. So even a text file is not sent exactly. The model sends each chunk
  as the bytes read. The RETR and round-trip properties above hold of that
  model, not of the program.
- Paths.Resolve: resolution is lexical. Symbolic links, permissions, and the
  physical meaning of ".." are not modelled.
- Host.Getcwd: after a failed `getcwd`, STOR's home buffer is taken to keep
  its previous contents before "/" is appended.
- `write` failing mid-transfer (for example a full disk) and short writes are
  not modelled: a write to an open file always succeeds in full.
- A STOR argument with trailing slashes: glibc's `basename` may shorten the
  argument in place before `open`. The model opens the argument as typed.
- Readdir order is modelled as creation order: a new entry is listed last.
- A current directory that was removed keeps its path in the model, not an
  inode. A directory re-created under the same name becomes the current
  directory again.
- Replies.ListReply: when the current directory has been removed (RMD of it,
  or of a parent), Linux still opens "./" as an empty directory, so LIST
  sends the bare header "\nCode[250]:\n" with no entries. The model treats
  the removed directory as missing and replies with the second 304.
- Replies.ListAsWritten: for the same removed current directory, the program
  as written sends the bare 250 header and completes; the model predicts the
  304 followed by the crash on `readdir(NULL)`.
- Host.ReadDir: `opendir("./")` in a removed current directory succeeds and
  yields no entries; the model's ReadDir fails on a path that is not in the
  filesystem.
- Host.Chdir: `chdir(".")` in a removed current directory succeeds on Linux
  (200); the model resolves "." to the removed path, finds no directory there
  and fails (341).

## Findings

| source | as written | input that shows it | evidently intended | confidence | as-written member | corrected member |
|---|---|---|---|---|---|---|
| Server/server.c:324-337 | after either opendir fails and 304 is sent, control falls through to `readdir(directory)` with `directory == NULL` | server started with `-d /srv/ftp` where /srv/ftp does not exist, then `USER`, `LIST` | reply 304 and return to the command loop | not executed | Replies.ListCrashesOnMissingHome | Replies.ListReply |
