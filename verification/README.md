# csup in Dafny

csup fetches CVS repositories from a CVSup server. This project models the parts of it
that have to be right for the files on disk to be right, and proves what they are for:

- **Edit scripts** (`Lines`, `CNumbers`, `EditScript`, `EditScriptProofs`, `Diff`,
  `Reverse`, `DiffBytes`, `DiffForms`, `DiffBlank`, `DiffIrregular`, `DiffInside`,
  `DiffDoubled`). RCS edit scripts are applied to a text, and reversed: from the old
  text and the script the program writes a script that leads back. `Diff` has the loops
  of the code as classes over streams; `EditScript` says what they compute; `Reverse`
  proves what that means.
- **RCS files** (`RcsNum`, `RcsTree`, `RcsMeaning`, `RcsWalk`, `RcsHeader`, `RcsFile`,
  `RcsImport`, `RcsRewrite`, `RcsUpdate`, `RcsRun`, and for the bytes `RcsLex`,
  `RcsText`, `RcsPrint`, `RcsLayout`, `RcsParse`, `RcsForeign`, `RcsGrammar`,
  `RcsParser`, `RcsDisk`, `RcsBytes`). A tree of revisions, all but one of them stored
  as edit scripts, is read, extended, written and read again, any number of times and in
  any order, without any revision changing its text.
- **The multiplexer** (`MuxLink`, `MuxSafety`, `MuxProof`, `MuxClose`, `MuxSystem`,
  `MuxWindow`, `MuxPeer`, `RingBuf`, `MuxWake`, `MuxWire`, `MuxChan`). Channels over one
  connection: two peers as a step system over two FIFO pipes, with flow control, ring
  buffers filled and emptied with the lock released, and the wakeups of the sender
  thread.
- **The status file** (`Paths`, `PathOrder`, `PathComp`, `StatusList`, `StatusSorted`,
  `StatusRead`, `StatusMerge`, `StatusSession`, `StatusSpec`, `StatusTail`, `StatusEnd`,
  `StatusBroken`, `Status`). The list of what is checked out is updated by a streaming
  merge, through a compressor that supplies the directory records.
- **Streams** (`StreamBuf`, `Md5Rcs`, `Md5Blanks`, `Keyword`, `KeywordForms`): the line
  buffer, the digest of an RCS file that does not depend on its layout, and the
  expansion of keywords in a line.
- **Filters** (`Fnmatch`, `FnmatchForms`, `Globtree`): glob patterns, and boolean
  expressions over them that are simplified when built and evaluated without recursion.

Code that works step by step is modelled by methods and classes of the same shape, each
proved equal to a function of its inputs or old state. The laws are then lemmas about
those functions, over all inputs, all runs or all reachable states.

## Findings

Where the code does not do what it is for, it is modelled as it is, with the exact
condition.

- **Reversing an edit script** (diff.c:252-350). `ReverseInverts`: for a regular script
  the written one leads back if and only if no delete without an add begins where the
  lines of another delete end. Otherwise both are written at the same place, and
  applying rejects the second. So `d1 1`, `d2 1` does not lead back, though
  `d1 1`, `d2 1`, `a2 1` does.
- **A blank line inside a script** is passed over by the applier (diff.c:97-106) but ends
  the script for the reverser, which ignores the error (diff.c:278-280, 325-326).
  `BlankLineExact`: what is written leads back to what the commands behind the blank line
  make of the old text. It is the inverse exactly when they change nothing, in particular
  when there are none.
- **A delete from line zero, an add inside the lines just deleted.** Both are accepted by
  diff.c:353-383. `LineZeroRejected` (for all texts, what is written is rejected),
  `InsideRejected` (the same for an add with at least as many lines as are deleted behind
  its place) and `InsideFirstNotUndone` (whatever the number of lines, when the script
  begins so and has no second such add) say when such a script is not undone. It is not
  true that it never is: for a script with two such adds, `InsideByText` says on which of
  all texts of its length it is undone. They exist, and none has distinct lines.
- **The digest of an RCS file** (stream.c:1196-1296). `DigestExact`: two printed files
  are told apart exactly up to running together neighbouring symbols that meet in one of
  the bytes around which no space is fed. `DigestTells`: so some file is fed like another
  one if and only if two of its symbols meet in such a byte, or a longer one holds it. A
  symbol `a,b` alone is thus fed like the two symbols `a` and `,b`; it is not enough to
  look where two symbols meet. `BackspaceTwin`: a backspace, which the code uses
  as a mark in its state, gives every file with a symbol a second one fed alike.
- **Closing a channel.** `CloseOvertakesData`: with the window used up and bytes unsent, a
  close is sent first (mux.c:362-383, 923-965). `CloseWithBytesLeft` is a run that gets
  there, and `UnsentForGood` shows that in no continuation do these bytes leave.
- **Lost wakeups.** `chan_write` (mux.c:476-505) wakes the sender only at its end, so a
  write larger than the send buffer fills it and waits for a sender that nobody wakes.
  And a connect for a channel that is not in use leaves a reset pending there
  (mux.c:984-1010), which the scan passes over (mux.c:936); when `chan_listen`
  (mux.c:396-419) takes that channel into use it wakes nobody. `WakeupsExactly`: a wakeup
  is lost in some run if and only if writes may exceed the send buffer or a listen may
  find a reset pending. `LargeWriteStalls` and `LateListenStalls` are the runs,
  `StallStays` shows that only another thread's call or a spurious wakeup goes on, and
  `NoResetPending` that the second does not happen between peers that connect only to
  channels the other side listens on.
- **The end of a status session** (status.c:811-873). What is left of the old file is
  copied through `status_wrraw` (status.c:321-395), which asks the path compressor once
  for a file and twice for a directory record and, with assertions off (Makefile:28),
  takes no account of the answers. That is right if the compressor is in the reader's
  directory. `SessionCorrect`: the status file is right if and only if the session does
  not end by taking away an entry whose successor is in another directory than the last
  record written (`EndsInStep`, a condition on the old file and the updates). Otherwise
  one of three things happens. Going down, the compressor cuts the name in the very
  buffer that is printed and compared with the next record: the next read then finds the
  old file out of order, closing fails, and the old file is kept without any of the
  updates. Or it goes on from a path that has been freed or is too short, which is
  undefined. Or the file is replaced by one that is no proper listing, though it has the
  right file at every path. `BrokenExactly` says which, by following the two directories
  along the records left; `FateBelow` and `FateAbove` read the answer off the first of
  them when one directory is below the other. `BrokenReads`: a new file reads back without
  an error exactly when the directories have the same depth and no directory is left at
  the end, and then entries silently change their directory. `NewDirectoryLeftOpen`,
  `WrongDirectoryUnnoticed`, `DirectoryRecordDeleted` and `UpdatesLost` are families of
  sessions for each outcome, and `SuchSessions` shows that there are some.
- **`assert(ret)` at status.c:710** does not hold: the end of a directory is never found
  (status.c:410-414). The session is right all the same, because the compressor has
  nothing to do for the old record.
- **A string behind the deltas** of an RCS file is not put back by `rcslex_unget`, which
  goes back by the length between the quotes (rcslex.c:269-276). `RcsParser.File` is
  proved for all other token lists, and for these when the file parses.
- **Keywords.** `IdempotentExactly`: expanding twice is expanding once, on all lines, if
  and only if no enabled keyword has a dollar sign in its value.

## Model

| member | source | states |
|---|---|---|
| Diff.DiffApply | diff.c:77-156 | running a script on a text ends in an error or gives the bytes that the meaning of the script says, blank command lines, dot-quoted text and the `.+` ending included |
| Diff.DiffReverse | diff.c:252-350 | the list of edits sorted on keys and the single forward pass over the old text write exactly the script that the reversal says; the only error is the end of the script inside an add |
| Diff.EditCmd.GetEditCmd | diff.c:353-383 | a command line is accepted exactly when it parses in C's way and its line number passes the bounds kept so far, which are updated as for the command |
| Diff.EditCmd.CopyLn | diff.c:387-401 | copies the old text up to a line, or to its end and reports that |
| Diff.DiffWriteReverse | diff.c:162-202 | what is written for a sorted list of edits, whether or not the old text is long enough |
| Diff.DiffStart.InsertEdit | diff.c:209-234 | insertion behind all edits with keys not greater |
| EditScriptProofs.ReadersAgree | diff.c:273-326 | on a script without blank command lines the applier and the reverser read the same commands |
| EditScriptProofs.UndoRestores | diff.c:252-350 | patching the new text by the undoing hunks gives the old text, the hunks again being in order and inside the text |
| Reverse.ReverseInverts | diff.c:252-350 | for every regular script that runs on a text, applying the written script to the new text gives the old one back exactly when no delete-only hunk begins where a deleting hunk ends, and is rejected otherwise |
| DiffBytes.ReverseInvertsBytes | rcsfile.c:541-625 | the same on byte strings, the script, both texts and the written script being stored as bytes and cut into lines again |
| DiffBytes.QuotedScript | diff.c:92-156 | a dot-quoted script has the effect of the plain one, `.+` drops the last byte, and fails on an empty result |
| DiffBytes.QuotedBlank | diff.c:92-156 | with one blank line among the commands or in their place nothing is dropped, whatever the ending; with a second one the script is rejected |
| DiffForms.CommandLine | diff.c:353-383 | a command line is the letter `a` or `d`, a line number, one blank and a count, in decimal, up to the limit of the C type |
| DiffForms.CommandExactly | diff.c:353-383 | and no other line is one: a line is accepted if and only if it is the letter, a number, one blank and a number, each with white space and a sign before it as C allows, the first not negative, the second positive, both within the C type |
| DiffForms.RunForms | diff.c:107-139 | a delete takes that many lines out from the one of that number, counting from one, an add puts its lines behind it, and later commands work on what is behind, by the line numbers of the old text |
| DiffForms.DotLine | diff.c:107-156 | in quoted form a text line that begins with a dot comes with one more, and `.+` takes off the last byte |
| DiffBlank.BlankLineExact | diff.c:273-326 | with a blank command line, applying the written script to the new text gives what the later commands alone make of the old text |
| DiffInside.LineZeroRejected | diff.c:273-348 | what is written for a script that begins with a delete of n lines from line zero is rejected on every text, unless an add at line n - 1 comes next and more commands behind it |
| DiffInside.InsideFirstNotUndone | diff.c:273-348 | what is written for a script that begins with a delete and one add strictly inside the deleted lines never gives the old text back, whatever the texts |
| DiffIrregular.InsideRejected | diff.c:273-348 | what is written for an add inside the lines just deleted, with at least as many lines as are deleted behind its place, is rejected on every text |
| DiffIrregular.InsideByText | diff.c:273-348 | an irregular script is undone by what is written for it on exactly those texts of its length in which certain lines are equal: no condition on the script alone decides |
| DiffDoubled.ApplyDoubled | rcsfile.c:438-534 | applying a script with every quote doubled to such a text gives such a text |
| DiffDoubled.ReversedDoubled | rcsfile.c:438-534 | what is written for a doubled text is doubled, so that it may stand in an RCS string as it is |
| RcsNum.RcsNumCmp | misc.c:582-620 | the loop over two numbers compares them field by field, shorter fields first |
| RcsNum.CmpIsLex | misc.c:582-620 | on printed revision numbers the comparison is the lexicographic order of the integer sequences |
| RcsNum.ShowInjective | misc.c:582-620 | a printed revision number stands for one revision only |
| RcsTree.AddKeeps | rcsfile.c:1009-1062 | adding a delta keeps the table ascending, the trunk descending, branches ascending, branch lists descending, all lists complete and attached, and fails exactly on a known revision |
| RcsTree.ImportKeeps | rcsfile.c:1065-1178 | so does importing one, with a placeholder for a revision that is only named so far |
| RcsFile.RcsFile.AddDelta | rcsfile.c:1009-1062 | the linked lists after adding a delta are those of the tree with that delta placed |
| RcsFile.RcsFile.ImportDelta | rcsfile.c:1065-1178 | the same for importing, where a placeholder is filled in |
| RcsFile.RcsFile.GetDeltaText | rcsfile.c:630-690 | rebuilds a text along the chain of diff bases, ending at the head, which is stored whole |
| RcsFile.RcsFile.PutText | rcsfile.c:541-625 | writes a text whole at the root, as it is stored when its diff base goes before it, reversed when it is the diff base, and empty otherwise |
| RcsFile.RcsFile.WriteDeltas | rcsfile.c:360-421 | the first pass ends, and writes the header of every delta of a complete tree exactly once, after its predecessor; each has the delta's date, author and state, and names the first delta of each of its branches once, ascending, and the next delta on its line, if any |
| RcsFile.RcsFile.WriteDeltatexts | rcsfile.c:438-534 | the second pass ends, and writes every text exactly once after its predecessor's, against that predecessor; it fails only when some text cannot be written |
| RcsFile.RcsFile.WriteText | rcsfile.c:438-534 | after a text come those of its trunk successor, or of the first deltas of its branches, each once and the youngest first |
| RcsRewrite.RewriteRoundTrip | rcsfile.c:287-534 | when every delta and its predecessor are each other's diff base one way or the other, every revision of the file read back has the text it had before |
| RcsRewrite.RewriteIsStable | rcsfile.c:541-625 | a file read back is written again with the very texts it holds |
| RcsUpdate.NewHead | rcsfile.c:1009-1062 | a new head sent as a script against the old one keeps the file rewritable, when that script can be turned round, and has the text the script makes of the old head |
| RcsUpdate.NewTip | rcsfile.c:1009-1062 | so does a new tip of a branch |
| RcsRun.AddSound | rcsfile.c:1009-1062 | an update keeps the file rewritable and all texts, and the new revision has the text that the server's script makes of its base |
| RcsRun.BackRewritable | rcsparse.c:295-365 | a file that was written and read back can be written again, and has the texts |
| RcsRun.RunKeeps | rcsfile.c:1009-1062 | after any number of updates and of rewrites through the bytes of the file, in any order, the file is rewritable, every revision there was has its text, and no chain of diff bases is endless |
| RcsRun.RunRoundTrip | rcsfile.c:287-534 | after any such run the bytes written parse, and what is read back has the text of every revision, of the first ones the text from the start |
| RcsLex.Lexer.Get | rcslex.c:96-156 | each call gives the next of the tokens that lie ahead and moves behind it; at the end, or in an unended string, none |
| RcsLex.Lexer.Unget | rcslex.c:269-276 | puts back a symbol or a sign: the tokens ahead are what they were before it was read |
| RcsLex.SymbolBytes | rcslex.c:96-156 | a symbol is what stands between white space, quotes, semicolons and colons |
| RcsLex.StringBytes | rcslex.c:96-156 | a string is what stands between quotes, two quotes in a row being part of it |
| RcsLex.SignBytes | rcslex.c:96-156 | semicolon and colon are tokens by themselves |
| RcsLex.TokensOfPrinted | rcslex.c:96-156 | whatever pieces are printed, with any white space that keeps symbols apart, are lexed back to exactly the same tokens, doubled quotes in strings included |
| RcsPrint.PrintFile | rcsfile.c:287-534 | the bytes that the print statements put out are the rendering of the file's pieces |
| RcsLayout.FileLayout | rcsfile.c:287-534 | these are, byte by byte, the words, blanks, tabs and newlines of the RCS format around the fields, deltas, description and texts |
| RcsParser.Deltas | rcsparse.c:180-290 | the token loop over the deltas accepts and returns what the grammar says, and leaves the lexer before the first token behind them |
| RcsParser.Texts | rcsparse.c:295-365 | the token loop over the texts accepts and returns what the grammar says, and stops without an error at a text for a delta that is neither read nor named as a next |
| RcsParser.File | rcsparse.c:40-173 | the parser as a whole accepts and returns what the grammar says, unless a string stands behind the deltas of a file that does not parse |
| RcsGrammar.ParsedExactly | rcsparse.c:40-365 | the parser takes a list of tokens and makes a document of it if and only if the tokens are a file of the RCS grammar that says so: every field with its words and semicolons, valid numbers and names, and where the code lets them, access names, locks, phrases in any order, a lost token and an ignored tail |
| RcsForeign.ForeignFile | rcsparse.c:100-365 | with names in the access list, locks, and unknown phrases in the administrative part, behind any delta and behind any log, a good file is read as it is without them |
| RcsForeign.ForeignBytes | rcsparse.c:40-365 | the same from the bytes, with any white space that keeps symbols apart |
| RcsForeign.CommitId | rcsparse.c:256-273 | the `commitid` phrase that newer CVS writes behind each delta is such a phrase |
| RcsForeign.PrintedPlain | rcsfile.c:287-534 | what the program prints itself is such a file with none of that in it |
| RcsDisk.FileReadsBack | rcsfile.c:287-534 | printing, lexing and parsing give back head, branch, tags in order, strictness, comment, expansion, deltas, description, logs and texts |
| RcsBytes.PutTextDoubled | rcsfile.c:541-625 | whatever is written as the text of a delta has its quotes doubled if all stored logs and texts have |
| RcsBytes.PrintedNames | rcsfile.c:360-421 | the bytes printed for the headers of a tree have that layout, and in it each header has its number, date, author and state and names exactly its branches and its next delta, by their printed numbers |
| RcsBytes.FileRoundTrip | rcsfile.c:287-534 | from the tree to the bytes of the file and back through lexer, parser and import: the same deltas in the same lists, with the same date, author, state and log, and every revision with the same text |
| Md5Rcs.RcsDigest.Flush | stream.c:1196-1296 | one flush ends, and feeds the digest what the automaton puts out on these bytes, the state being carried to the next flush |
| Md5Blanks.OneBlank | stream.c:1215-1258 | between two words that white space parts one blank is fed if and only if neither the last byte of the first nor the first of the second is one of `$`, `,`, `:`, `;`, `@` |
| Md5Blanks.StringBlanks | stream.c:1244-1296 | around a string no blank is fed, but between two strings one |
| Md5Blanks.WordsParted | stream.c:1196-1296 | a number or name that the parser accepts is always parted from a neighbouring one by one blank |
| Md5Rcs.ChunksIrrelevant | stream.c:1196-1296 | what is fed does not depend on how the stream is cut into flushes |
| Md5Rcs.WhiteSpaceExact | stream.c:1196-1296 | replacing one run of white space by another changes what is fed exactly when it is in a string and is really changed |
| Md5Rcs.DigestOfPrinted | stream.c:1196-1296 | what is fed for a printed file is its tokens in the tightest layout |
| Md5Rcs.DigestExact | stream.c:1196-1296 | two printed files are fed alike if and only if their tokens are the same once symbols that meet in a special byte are run together |
| Md5Rcs.DigestTells | stream.c:1196-1296 | a printed file is told from all others if and only if no two of its symbols meet in a special byte and no longer symbol holds one |
| Md5Rcs.BackspaceTwin | stream.c:1196-1296 | every printed file with a symbol has a twin with a backspace that is fed alike |
| MuxProof.NoProtocolError | mux.c:971-1103 | in every run on a channel no receiver takes its protocol-error exit, and the next packet is always acceptable |
| MuxPeer.AnyPackets | mux.c:971-1103 | whatever packets a peer sends on a channel open for reading, they are taken if and only if none is a reset, no segment is longer than 1024 bytes, neither data nor a close is behind a close, and all the data fits into the receive buffer, which then holds exactly that |
| MuxProof.DeliveredInOrder | mux.c:773-1103 | at any time what is written is what is read, plus the receive buffer, what is in flight, and the unsent part of the send buffer, in order |
| MuxProof.WindowIsTrue | mux.c:773-1103 | in flight and buffered together never exceed the receive buffer, and the 32-bit difference is the true remaining window, across wraparound |
| MuxProof.PacketsBuilt | mux.c:790-874 | in every run a data packet of an open channel has the first unsent bytes, as many as there are, as fit in a segment and as the true window has room for; and the window announced is 16384 bytes ahead of what the application has read |
| MuxProof.NothingAfterClose | mux.c:923-965 | no data follows a close, at most one close is sent, and none of it while data is being sent |
| MuxProof.CloseOvertakesData | mux.c:923-965 | a close is chosen over unsent bytes exactly when the window is used up, and later window updates are ignored |
| MuxProof.NoResetPending | mux.c:971-1103 | in every run of peers that connect only to a listening channel no reset is ever pending |
| MuxLink.Refused | mux.c:984-1010 | a connect or accept that a channel does not wait for changes nothing but leaves a reset to be sent before anything else, which the peer takes for a protocol error |
| MuxLink.Top | mux.c:938-958 | of the flags of a channel the one with the lowest bit is served first |
| MuxClose.UnsentForGood | mux.c:923-965 | bytes still in the send buffer when the close leaves stay there in every continuation; the peer has at most the bytes before them |
| MuxClose.CloseWithBytesLeft | mux.c:923-965 | a run in which that happens |
| MuxSystem.StepIsLocal | mux.c:773-1103 | a step of the multiplexer on a channel is that step on the channel alone and leaves the others as they are, though all share the pipes |
| MuxSystem.MuxNoProtocolError | mux.c:773-1103 | no run of two multiplexers ends in a protocol error, and on every channel in both directions what is read is a prefix of what was written |
| MuxSystem.ChannelRun | mux.c:773-1103 | a run of two multiplexers is, seen on any channel, a run of that channel |
| MuxSystem.ScanNearest | mux.c:923-965 | the scan serves the nearest channel with work, going round from the one served last, which comes last |
| MuxWindow.WindowTold | mux.c:441-473 | in every state of every run, if an open end has no window to announce and none is on its way, the window of a peer that still heeds it is the bytes read here plus the receive buffer |
| MuxWindow.AllArrives | mux.c:773-1103 | with senders and receivers at rest and all that has come in read, a peer that may still send has nothing left to send: all that it wrote has been read |
| MuxWindow.EndsAgree | mux.c:773-1103 | at rest the two ends of a channel agree: every connect has been answered and every close has arrived |
| MuxWindow.MuxAllArrives | mux.c:773-1103 | the same as AllArrives on every channel of two multiplexers over shared pipes |
| RingBuf.Buf.Put | mux.c:1157-1177 | the bytes go behind those held, across the end of the array |
| RingBuf.Buf.Get | mux.c:1180-1200 | the first bytes are taken out, across the end of the array |
| RingBuf.WriteDuringSend | mux.c:836-874 | while the sender writes two segments out of the buffer with the lock released, a put leaves these cells as they are |
| RingBuf.ReadDuringReceive | mux.c:1037-1075 | while the receiver fills free cells with the lock released, a read leaves the filled bytes in place |
| MuxWake.NoLostWakeup | mux.c:755-965 | with writes of at most a send buffer's size, and no listen that finds a reset pending, no run has the sender asleep, nobody about to wake it, and work to do |
| MuxWake.WakeupArrives | mux.c:755-771 | a thread that still owes a wakeup gives it in its next step or two |
| MuxWake.BlockedWriter | mux.c:476-505 | with such use a writer waiting for room faces a sender that is awake or about to be woken, or a used-up window |
| MuxWake.WakeupsExactly | mux.c:755-965 | wakeups are never lost, over all runs with any number of threads and any packets, if and only if no write exceeds the send buffer and no listen finds a reset pending |
| MuxWake.LargeWriteStalls | mux.c:476-505 | a run in which a write that is larger is stuck |
| MuxWake.LateListenStalls | mux.c:396-419 | a run of eight states, without a write, in which a listen brings out a pending reset and nobody wakes the sender |
| MuxWake.StallStays | mux.c:476-505 | once stalled, only a spurious wakeup or another thread's call goes on |
| MuxWire.StreamReadsBack | mux.c:971-1103 | of the bytes of any packets, cut off anywhere, the receiver reads exactly the packets that are whole and waits inside the next |
| MuxWire.PipeFits | mux.c:790-834 | whatever a channel sends fits the fields it has on the wire |
| MuxWire.WireFormat | mux.c:45-100 | the bytes of each packet: its type number, the channel, and segment size, length and window with the highest byte first |
| MuxWire.DecodedExactly | mux.c:971-1103 | the receiver makes a packet of bytes if and only if they begin with that packet's, and gives up on a type that is none of the six |
| MuxChan.Channel.TryRead | mux.c:441-473 | a read of a channel is the step of the protocol, with its end-of-file and error results |
| MuxChan.Channel.TryWrite | mux.c:476-505 | one turn of the loop of a write is the step of the protocol |
| MuxChan.Channel.Receive | mux.c:971-1103 | the receiver's work on a header accepts what the protocol accepts and does what it does |
| MuxChan.Mux.Scan | mux.c:923-965 | the scan over all channels, from behind the last one served, finds work if there is any, on the first channel that has some, and the most important |
| Paths.CommonPathLength | misc.c:173-206 | the longest common part of two strings that ends where a name ends in both, and what it is on any strings |
| PathOrder.StatusRecCmp | status.c:406-424 | the comparison of entries, as computed over the bytes of the two paths |
| PathOrder.RecCmpOrder | status.c:406-424 | the comparison is the depth-first order of the tree, each directory's end behind everything below it, except that it calls the end of a directory behind itself |
| PathComp.PathComp.Put | pathcomp.c:59-91 | refuses absolute paths and otherwise puts the fields in their new state, whatever state they were in; when nothing is going on the compressor is then on its way to the path's directory |
| PathComp.IdlePut | pathcomp.c:59-91 | that state is the beginning of the way from one directory to the other |
| PathComp.PathComp.Get | pathcomp.c:93-161 | one call on the fields, cutting and restoring the name in place, or going on from a path that is too short or freed, which is undefined |
| PathComp.BusyGet | pathcomp.c:93-161 | on its way the compressor gives the next directory to leave or enter, and says when there is none |
| PathComp.MovesCommon | pathcomp.c:59-171 | the way goes up exactly to the longest common directory and then down the remaining names |
| PathComp.RunBalanced | pathcomp.c:59-171 | over any run every directory entered is left again, innermost first |
| Status.StatusFile.ReadRecord | status.c:176-259 | reading a record checks order, nesting and end of file, and leaves the reader behind it |
| Status.StatusFile.Get | status.c:603-681 | looking for an entry copies or drops what comes before it, and stops at the place where it is or would be |
| Status.StatusFile.Put | status.c:689-720 | puts an entry in place of one of the same name, dropping the subtree of a directory replaced by a file |
| Status.StatusFile.Delete | status.c:725-739 | takes out an entry, if it is there |
| Status.StatusFile.CopyRecord | status.c:321-395 | a record is put through the compressor with one get or two and printed as the buffer then is, in step or not |
| Status.StatusFile.CopyTail | status.c:828-839 | the loop over the records left reads each against the buffer of the one before and copies it, until the end, an error, or something undefined |
| Status.StatusFile.Close | status.c:811-873 | writes the entry at hand, copies the rest and closes the directories that the compressor then says are open, or fails |
| StatusSession.SessionProper | status.c:603-873 | the ordered merge of a proper listing and any legal session, compressed, is a proper listing that reads back without error |
| StatusSession.UpdatesExact | status.c:603-873 | it records at every path exactly what was put there, nothing where something was deleted or a directory replaced, and the old entry otherwise |
| StatusTail.TailOff | status.c:321-395 | out of step, copying the records left wrecks, is refused, or ends in a directory, as an automaton on the two directories and the records says; every record that is written comes out as it was |
| StatusTail.ClosesAs | status.c:811-873 | closing on the compressor's fields, in step or not, does what that automaton says |
| StatusEnd.SessionWrites | status.c:603-873 | if the session ends in step, the status file afterwards is that merge |
| StatusEnd.SyncedExactly | status.c:811-873 | it is in step exactly when the session ends in step, a condition on the old file and the updates |
| StatusEnd.SessionCorrect | status.c:603-873 | after any legal session the status file is right if and only if the session ends in step, and then it is the merge; otherwise closing is undefined, or fails and keeps the old file, or leaves a file that is no proper listing but has the expected file at every path |
| StatusEnd.WrittenLeads | status.c:261-395 | at any time the records written lead into the directory of the compressor, and as many directories are open as it is deep |
| StatusBroken.SessionCloses | status.c:811-873 | the outcome said of a session is what closing does on the bytes and fields of the compressor |
| StatusBroken.BrokenExactly | status.c:811-873 | for every session that does not end in step, which of the three it is and what is written |
| StatusBroken.BrokenReads | status.c:811-873 | a file written out of step reads back without an error if and only if the two directories have the same depth and none is left at the end |
| StatusBroken.FateBelow | status.c:321-395 | with the reader below the compressor closing is undefined, unless the end of a directory comes next; then it works up to two directories below and is refused beyond |
| StatusBroken.FateAbove | status.c:321-395 | with the compressor one directory below the reader it falls into step behind a file or the end of a directory |
| StatusEnd.EndingPut | status.c:689-720 | a session that ends with putting a file or the end of a directory ends in step; with a beginning, unless that replaces a file with something behind it |
| StatusBroken.NewDirectoryLeftOpen | status.c:811-873 | sessions that put a file in a new directory and delete the next one write a file that does not read back |
| StatusBroken.WrongDirectoryUnnoticed | status.c:811-873 | sessions whose file reads back without error but is not a proper listing |
| StatusBroken.DirectoryRecordDeleted | status.c:811-873 | sessions that delete the record of a directory but not what is in it end in something undefined |
| StatusBroken.UpdatesLost | status.c:811-873 | sessions that delete from inside nested directories and lose all updates: closing fails and the old file stays |
| StatusBroken.SuchSessions | status.c:811-873 | there are sessions of all four families |
| StreamBuf.Stream.Prewrite | stream.c:230-256 | there is room behind the bytes held, which stay the same through growth and compaction |
| StreamBuf.Stream.Fill | stream.c:822-871 | a refill adds at least one byte behind those held, or the source is at its end or fails; it is never asked with a full buffer |
| StreamBuf.Stream.GetLn | stream.c:550-590 | the next line is what is ahead up to its first newline, or all of it, and is taken out |
| StreamBuf.ReadLines | stream.c:550-590 | however the source is chunked, the lines read are the lines of all bytes, unless the source fails; then they and what is ahead are all bytes |
| Keyword.KeywordExpand | keyword.c:277-424 | the loop over a line ends with its expansion, and says whether an enabled keyword was met; if not, the line is unchanged |
| KeywordForms.Forms | keyword.c:277-424 | a line cut at its first enabled keyword becomes the text before it, then `$`, the key, `: `, the value and ` $`, or `$`, the key and `$`, or the value alone, as the mode says and with the empty value if there is none, and then the expansion of the rest |
| KeywordForms.FirstCut | keyword.c:277-424 | every line in which a keyword stands can be cut so |
| KeywordForms.NoForm | keyword.c:277-424 | a line without a keyword is not changed |
| KeywordForms.Found | keyword.c:277-424 | an enabled keyword is met exactly when a `$`, one of the enabled names, optionally a colon with a value, and a `$` stand in the line, no dollar sign in between |
| Keyword.ScanAgain | keyword.c:277-424 | without dollar signs in values, expanding or collapsing first makes no difference to what is done next, in any mode |
| Keyword.ExpandLaws | keyword.c:277-424 | so expanding and collapsing are idempotent, and undo each other |
| Keyword.IdempotentExactly | keyword.c:277-424 | expanding is idempotent on all lines if and only if no enabled keyword has a dollar sign in its value |
| Fnmatch.Fnmatch | fnmatch.c:50-142 | the matcher, with its shortcuts for stars and without trying again at the end of the string, accepts exactly the strings that can be cut into a piece for each item of the pattern |
| Fnmatch.RangeMatch | fnmatch.c:144-190 | a bracket is left where it ends, with the answer of its ranges, or found to be unclosed |
| FnmatchForms.Spelt | fnmatch.c:50-190 | every list of items is read from each of its spellings: a character stands for itself, and has to be behind a backslash only if it is a sign; `?` and `*` are any character and any text; brackets list characters and ranges, and are negated by `!` or `^` |
| Fnmatch.SlashesAgree | fnmatch.c:50-142 | with slashes special a string has as many slashes as its pattern |
| Fnmatch.LeadingDirs | fnmatch.c:50-142 | with leading directories a pattern matches what it matches without and everything below that |
| Globtree.Both | globtree.c:157-180 | the simplified conjunction has the value of the conjunction on every name |
| Globtree.Either | globtree.c:182-205 | the simplified disjunction has the value of the disjunction |
| Globtree.Opposite | globtree.c:207-225 | the simplified negation has the value of the negation |
| Globtree.Test | globtree.c:259-320 | the evaluation with a stack linked through the nodes ends on every tree, with the value of the expression, whatever the nodes' fields held before |
| Globtree.Accepts | globtree.c:157-320 | built with simplification and evaluated with the stack, an expression accepts the names it means |

## Left out

- Edit scripts that are irregular in other ways: a delete of n lines from line zero with an add at line n - 1 and more commands behind it, where text that is one line short swallows the next command line; and, with other commands before the delete or with a second such add, adds inside the deleted lines that have fewer lines than are deleted behind them. Whether they are undone depends on the text as well as on the script, as `InsideByText` shows for one of them.
- Line numbers past the range of the C types: `SmallText` bounds the texts so that sums of line numbers do not overflow; the parsing of numbers has C's limits.
- DiffBytes.ReverseInvertsBytes: asks that an unended last line of the old text does not come before other lines of the new one, since such a new text is not the same list of lines when it is read again.
- Keyword expansion while deltas are applied: RCS files are handled with expansion off (rcsfile.c:606, 671), where writing a line is the identity.
- Pointers between deltas are revision numbers in the model; sharing and freeing of memory are not modelled.
- A branch without its branch point, where the code follows a null pointer, is excluded by preconditions. An RCS file that ends right behind its `branch` field is a parse error in the model, while the code looks at a token that is not there (rcsparse.c:101-105).
- RcsTree.ImportKeeps: asks for a branch point met before and for a next revision not met before, which is the order in which files are written; other orders are not covered.
- RcsMeaning.DeltaText: its fuel stands for the length of the chain of diff bases; a chain that does not end is an error in the model and an endless recursion in the code.
- `rcsfile_deleterev`, after which other deltas may keep a diff base that is gone.
- Access list and locks are printed empty by the code, and the branches listed with a delta are not kept by its parser; FileReadsBack says so.
- RcsParser.Texts: takes a delta for known when a header read before names it as its own number or its next; a header that importing passes over, because it comes twice or its branch point is not known, counts as well.
- RcsParser.File: for a file that does not parse because a string stands where the description should begin, nothing is said of the result.
- Mapping a file into memory.
- The connection, `mux_init` and `mux_shutdown`: a packet is put on the pipe in one piece. In `MuxLink` all channels exist from the start, and a connect is sent only to a listening channel, so the reset packet is not sent; `MuxWake` takes any packets.
- Fairness: the wakeup results say that no wakeup is lost, not that a thread is scheduled.
- Reads of status entries without a name, status files opened for reading only, the escaping of lines and the coding of attributes, and what is done after a close has failed.
- Sessions that put a directory record over a file or the other way round other than as the program does it (`DirsReplaced`), and updates out of order, which the program does not send.
- Filters of a stream other than the digest of RCS files, the form of `stream_getln` that puts a zero byte behind the line, and writing through a stream's buffer.
- MD5 itself: the digest is the sequence of bytes fed to it.
- Fnmatch.Fnmatch: case folding, leading periods, prefix directories and switching off the backslash (`FNM_NOESCAPE`) are not among the flags modelled, and the relation takes brackets as the code reads them: one ends at its first unquoted `]`.
- Regular expressions in filters: a predicate on names.
- How a keyword gets its value: dates, names and logs of a revision are a parameter. Zero bytes between dollar signs, which end the comparison of names early in the code, are not in lines. Enabling, disabling and aliases of keywords are not modelled.
- The commands of the protocol, authentication, configuration, file attributes, and the transfer of other files.
