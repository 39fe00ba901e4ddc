# Verified models of a server manager's core algorithms

This project models, in Dafny, the algorithms a server manager's correctness rests on, and proves what each of
them promises. Every model follows its source branch by branch: code that computes is a function, code that
changes things in steps is a method or a class whose contract ties its new state to a specification function,
and protocols are steps of a state machine. The main results are about every input, every run or every
reachable state.

`dafny verify dfyconfig.toml` checks the whole project.

## What is modelled

* **Agent tunnel** (`TunnelFrames`, `Tunnel`, `TunnelSafety`, `TunnelRuns`, `TunnelEnds`, `TunnelPeers`). The app and an agent
  multiplex TCP streams over one WebSocket. The frame codec is a bijection on what it accepts. The two peers and
  the two queues between them are a state machine; an invariant relates, for each stream, both ends and the
  frames in flight. In every run with at most 2^32 streams neither side sees a protocol violation and both
  directions of every stream arrive in order, without loss while both ends carry it, every stream is for the port
  it was started for, and one end is over exactly when the other is, once nothing is on its way. The classes of
  `TunnelPeers` are the two ends as written, each method proved to be a step of that machine.
* **Lock files** (`Lock`). Any number of runs interleave link, read, rename and unlink on one lock file.
* **ZIP** (`ZipFormat`, `ZipReader`, `ZipProofs`, `ZipArchive`, `ZipWriter`, `Crc`). The streaming writer, with
  ZIP64 per entry, per offset and in the end record (PKWARE APPNOTE sections 4.3.7 to 4.3.16 and 4.5.3),
  against an independent reader that checks every structure against the others; and the table-driven CRC-32
  against the bit-by-bit polynomial division of RFC 1952 section 8.
* **tar** (`Digits`, `Pax`, `TarHeader`, `TarPaths`, `TarRelay`, `TarRelaySafety`, `TarFiltering`, `TarWriter`). PAX records whose
  length counts its own digits, ustar headers with base-256 sizes (the ustar and pax interchange formats of IEEE
  Std 1003.1), the writer's entries, and the relay that filters an untrusted tar stream. The relay's guarantees
  are stated about its output bytes, read back by its own rules; and what it sends for any input is what an
  independent filter keeps of the members the input begins with.
* **Command check** (`Shell`, `ShellQuoting`, `ShellJoining`, `ShellSplitting`, `ShellCheck`). The shell tokenizer
  against an independent automaton that reads one character at a time and finds where segments end, printed words
  read back, and joined commands judged piece by piece.
* **Proxy and deploys** (`Front`, `Calls`, `Deployment`, `Activate`, `ProxyUpgrade`). Generations of Caddy behind the
  front; rolling and recreate activation; replacement of the proxy container. What becomes of each call (done,
  refused, or failed without an answer, with or without its effect) is given by a function of its number, so the
  contracts say exactly after which of them a run ends how, and the state after every call is part of them.
* **Audit forwarding and login lockout** (`Forward`, `Lockout`), **.env editing** (`Env`, `EnvLines`), **Docker's multiplexed
  streams** (`Demux`).

## What the code does that its comments do not say

* The lock is read twice, once as text and once parsed. A run that reads the text, and parses after another run
  has set the lock aside, takes it for corrupt and so for stale. Exclusion therefore also breaks without any lock
  being created in the window: `Lock.ParsingInTheWindow`. A lock released while it is set aside comes back:
  `Lock.ReleasedLockReturns`.
* A bare `$` at the end of a command is refused as quoting that cannot be followed
  (`` `'"[`.includes('') `` is true); `Shell.CannotFollow` keeps this.
* A reload can switch to a Caddy that came up and has exited since; connections are then refused and nothing is
  reported, exactly in that case: `Front.DownOnlyBySwitching`, `Front.SwitchedToTheDead`.
* A failed rolling activation leaves an upstream unanswered exactly when the reload failed without an answer, no
  container but the new one answers the new upstream, and the new one was removed: `Activate.UnansweredReload`. The
  other outcome of such a reload, with the removal failing too, leaves a Caddyfile ahead of the running config. The
  next activation finds the file's text unchanged, skips the reload, retires what the running config sends to and
  succeeds: `Activate.StaleConfigIsStranded`. From containers that answer both the file's and the running config's
  upstream, that is the only way a successful activation leaves one unanswered: text and certificates unchanged, a
  running config that names another upstream, and nothing left that answers it (`Deployment.RollingEnds`).
* Recreate, from at most one running container, runs two at once exactly when the new one was started, its removal
  had no effect and the old one was started again (`Activate.FailedRemovalRunsTwo`); and a failed stop leaves the
  containers stopped before it stopped (`Activate.FailedStopIsNotUndone`).
* A recovery whose start fails after its rename leaves the proxy stopped under its own name, and is not tried again
  (`ProxyUpgrade.ProxyHost.RecoverPrevious`). A reload to a new Caddy that fails without an answer can leave the front
  running it with the link put back (`ProxyUpgrade.ProxyHost.ReplaceCaddy`).
* When the rename that sets the old proxy aside fails but took effect, the run ends with `-previous` only; the
  next run's recovery puts it back (last clause of `ProxyUpgrade.ProxyHost.ReplaceFront`).
* A reader that looks for a ZIP64 locator by its signature alone is misled exactly by a short archive with those four
  bytes 20 before its end record (`ZipArchive.ArchiveIsReadBack`). The writer can write one, of two files with plain
  names, where the last one's offset is that signature: `ZipWriter.LookAlikeIsRefused`.
* The relay's byte limit does not count the body of a kept link or folder, which is copied all the same
  (`TarWriter.FolderBodyIsNotCounted`: a folder's body goes through under a limit of 0). The limit bounds all bodies
  exactly when no link or folder has one: `TarRelaySafety.CountedBodies`. A reader that takes a link or folder for
  empty, whatever size its header gives, would read such a body as headers.
* A forwarder starts after the last row logged. A row written before that one, but committing after the forwarder is
  created, is never sent, although it commits within the settle time: `Forward.CommittedIsCovered`,
  `Forward.CommitBehindStart`.
* A number right before a redirection is taken for its descriptor even when it is quoted, and so an argument to a
  shell: `ShellQuoting.QuotedNumberIsDropped`.
* In a hand-written `.env` a comment after an empty value is the value, since the value is trimmed before the comment
  is looked for (`EnvLines.CommentAloneIsTheValue`); and a quoted value with a comment after it keeps its quotes
  (`EnvLines.CommentIsDropped`).
* `demux` delivers the part of a cut-off frame that has arrived, the incremental loops wait for all of it; this is
  the only difference: `Demux.IncrementalIsBatch`.

## Model

| member | source | states |
|---|---|---|
| TunnelFrames.DecodeOfEncode | packages/agent/src/protocol.ts:90-187 | Decoding the encoding of any frame gives that frame back |
| TunnelFrames.EncodeOfDecode | packages/agent/src/protocol.ts:147-187 | Only encodings decode: an accepted message is the encoding of its frame |
| TunnelFrames.EncodeDataFrames | packages/agent/src/protocol.ts:124-130 | The loop cuts data into frames of at most 64 KiB, none for no data |
| TunnelFrames.FramesAreFew | packages/agent/src/protocol.ts:124-130 | As few frames as can be: those that 64 KiB each just cover the data |
| Tunnel.FreeIsFirst | apps/server/src/agents/hub.ts:97-104 | The next stream id is free, and all ids from the counter up to it, past the wrap, are in use |
| TunnelPeers.AgentConnection.AllocateStreamId | apps/server/src/agents/hub.ts:97-104 | The loop hands out exactly that id and moves the counter behind it |
| TunnelPeers.AgentConnection.StartStream | apps/server/src/agents/hub.ts:126-151 | On a live connection with fewer than 64 streams, a new socket for the port asked for is linked under an id no stream has, and OPEN of that id and port is sent; else nothing is |
| TunnelPeers.AgentConnection.OnMessage | apps/server/src/agents/hub.ts:170-204 | Handling one frame is the model's step, unknown ids ignored, wrong frames a violation |
| TunnelPeers.AgentConnection.OnClose | apps/server/src/agents/hub.ts:218-279 | A lost connection fails exactly the streams still linked |
| TunnelPeers.AgentConnection.Opened | apps/server/src/agents/tunnel-socket.ts:82-87 | OPENED ends connecting and flushes what was written meanwhile, in order |
| TunnelPeers.AgentConnection.Receive | apps/server/src/agents/tunnel-socket.ts:89-97 | Data is appended unless the socket is gone or past the peer's end |
| TunnelPeers.AgentConnection.RemoteClose | apps/server/src/agents/tunnel-socket.ts:100-105 | CLOSE ends the readable side once |
| TunnelPeers.AgentConnection.Write | apps/server/src/agents/tunnel-socket.ts:120-126 | A write waits while connecting, else goes out as data frames |
| TunnelPeers.AgentConnection.Finish | apps/server/src/agents/tunnel-socket.ts:128-138 | Ending closes the socket, and unlinks it and sends CLOSE if and only if it had not ended and was still linked |
| TunnelPeers.AgentConnection.Destroy | apps/server/src/agents/tunnel-socket.ts:140-149 | Destroying ends the socket, and unlinks it and sends CLOSE if and only if it had not ended and was still linked |
| TunnelPeers.TunnelAgent.OpenStream | packages/agent/src/agent.ts:165-213 | OPEN is answered with ERROR for a used id, a port not allowed or too many streams, with nothing changed; else a local connection to that port begins under that id |
| TunnelPeers.TunnelAgent.OnFrame | packages/agent/src/agent.ts:215-250 | The agent's handling of one frame is the model's step |
| TunnelPeers.TunnelAgent.DestroyAll | packages/agent/src/agent.ts:148-155 | A lost WebSocket ends every local connection |
| TunnelRuns.StepKeeps | apps/server/src/agents/hub.ts:106-204 | Every event of either side or the network keeps the invariant relating both ends and the queues |
| TunnelRuns.TunnelIsSafe | packages/agent/src/agent.ts:165-250 | In every run with at most 2^32 opens: no protocol violation, no OPEN of an id in use, all frames decodable, both directions of each stream prefixes of what was sent and complete while both ends carry it |
| TunnelEnds.PortsAreKept | apps/server/src/agents/hub.ts:126-151 | In every run with at most 2^32 opens: each local connection, and each OPEN on its way, is for the port its socket was started for, and the agent allows it |
| TunnelEnds.EndsMeet | apps/server/src/agents/hub.ts:106-204 | In every run with at most 2^32 opens, while both WebSockets are open and nothing of a stream is on its way: the socket has ended if and only if the local connection is done or there is none; else each end has all the other sent |
| Lock.StepKeeps | packages/bastionctl/src/lock.ts:84-156 | Every filesystem call of every run keeps: outside the window at most one live run holds the lock |
| Lock.Exclusion | packages/bastionctl/src/lock.ts:84-156 | Two live holders only if a lock was created, or parsed again, while a rename had a lock it did not judge set aside |
| Lock.BrokenByCreating | packages/bastionctl/src/lock.ts:103-118 | While neither window was used, the next event makes two live holders if and only if it creates the lock while a live run's lock is set aside |
| Lock.ReleaseRemovesOwn | packages/bastionctl/src/lock.ts:132-156 | Outside that window a release unlinks no other run's lock |
| Lock.HolderHasTheLock | packages/bastionctl/src/lock.ts:103-118 | Outside that window a live holder's lock is in place, or set aside and coming back |
| Lock.CreatingInTheWindow | packages/bastionctl/src/lock.ts:103-118 | A run of calls in which creating in the window gives two live holders |
| Lock.ParsingInTheWindow | packages/bastionctl/src/lock.ts:75-156 | A run of calls in which the two reads of the lock give two live holders, with no lock created in the window |
| Lock.ReleasedLockReturns | packages/bastionctl/src/lock.ts:103-156 | A run of calls in which a released lock is put back |
| Lock.FreeLockIsTaken | packages/bastionctl/src/lock.ts:132-145 | With no lock there the first call takes it |
| Lock.LiveLockIsRefused | packages/bastionctl/src/lock.ts:146-156 | A lock judged live is left as it is, and the run fails after four calls |
| Lock.StaleLockIsReplaced | packages/bastionctl/src/lock.ts:103-156 | A stale lock is removed and taken, in seven calls, with nobody else's place changed |
| Lock.ReleaseFrees | packages/bastionctl/src/lock.ts:136-143 | A released lock is gone after one call |
| Lock.AcquiringEnds | packages/bastionctl/src/lock.ts:132-156 | In every run, whatever the others do, each run makes at most eleven calls |
| Crc.Continues | apps/server/src/archive/sink.ts:71-77 | Continuing from the CRC of one piece gives the CRC of both pieces together |
| Crc.ChunkingIsIrrelevant | apps/server/src/archive/zip.ts:133-151 | The CRC accumulated over any chunking is the CRC of the whole |
| Crc.TableStep | apps/server/src/archive/sink.ts:61-77 | One table lookup equals eight steps of bitwise polynomial division |
| Crc.BuildTable | apps/server/src/archive/sink.ts:61-69 | The nested loops fill the table with the division of each byte |
| Crc.Crc32 | apps/server/src/archive/sink.ts:71-77 | The table loop computes the bit-by-bit CRC of RFC 1952, from any previous value |
| ZipFormat.FieldIsRead | apps/server/src/archive/zip.ts:281-353 | Every field of a packed header is read back from its offset, wherever the header lies |
| ZipProofs.SizesAreReadBack | apps/server/src/archive/zip.ts:323-335 | The 32-bit fields and the ZIP64 extra together give sizes and offset, present exactly where the fields are all ones |
| ZipProofs.DosTimesAreWritten | apps/server/src/archive/zip.ts:281-350 | DOS time and date are at their offsets in both headers |
| ZipProofs.CentralIsReadBack | apps/server/src/archive/zip.ts:323-353 | A central header at any place is read back whole: name, flags, method, CRC, sizes, offset, attributes, time |
| ZipProofs.DescriptorIsReadBack | apps/server/src/archive/zip.ts:306-321 | The data descriptor, 32 or 64 bits as the local extra says, agrees with the central header |
| ZipProofs.EntryIsReadBack | apps/server/src/archive/archive.test-helper.ts:304-340 | An entry is accepted against its central header, gives its content, and the reader stops right after it |
| ZipArchive.DirectoryIsReadBack | apps/server/src/archive/zip.ts:159-188 | The end records lead back to the central directory, through ZIP64 exactly when a count, size or offset needs it |
| ZipArchive.ArchiveIsReadBack | apps/server/src/archive/archive.test-helper.ts:207-340 | The reader accepts a laid-out archive and recovers every entry, back to back, the directory right after them, if and only if the bytes 20 before a short end record are not a ZIP64 locator's signature |
| ZipArchive.MisleadingIsMisread | apps/server/src/archive/archive.test-helper.ts:219-230 | Misled, the reader refuses the archive or reports ZIP64 where there is none |
| ZipReader.ReadExtras | apps/server/src/archive/archive.test-helper.ts:192-201 | The loop over the extra fields computes the map of their ids |
| ZipReader.ReadCentralHeaders | apps/server/src/archive/archive.test-helper.ts:229-272 | The loop over the central headers stops at the first bad one, else gives all of them and where they end |
| ZipReader.ReadLocals | apps/server/src/archive/archive.test-helper.ts:304-340 | The loop over the entries requires each to start where the one before ended |
| ZipWriter.ZipWriter.AddDirectory | apps/server/src/archive/zip.ts:81-87 | Appends one well-formed folder entry at the sink's offset; its name, mode, kind, flags, times and empty content, field by field |
| ZipWriter.ZipWriter.Store | apps/server/src/archive/zip.ts:133-143 | Stored chunks go out unchanged; CRC and count are those of all of them |
| ZipWriter.ZipWriter.Deflate | apps/server/src/archive/zip.ts:195-224 | Deflated data goes out; CRC and count are of what went in |
| ZipWriter.ZipWriter.AddFile | apps/server/src/archive/zip.ts:93-157 | Appends one well-formed file entry whose content is the bytes given, stored or deflated as the bytes read ahead decide; its name, CRC, sizes, mode, kind, flags, times and ZIP64 by the announced size, field by field |
| ZipWriter.ZipWriter.Finish | apps/server/src/archive/zip.ts:159-188 | What was written is the archive of all entries, and the reader gets the names, contents, kinds, modes and times that were given back, in order, if and only if it is not misled |
| ZipWriter.LookAlikeIsRefused | apps/server/src/archive/zip.ts:93-188 | Two files with plain names whose archive is laid out, misleading and refused |
| Pax.OneShotIsLeast | apps/server/src/archive/tar.ts:127-133 | The length computed in one correction is the least one that counts its own digits |
| Pax.LoopingLength | packages/bastionctl/src/tar.ts:96-101 | The loop terminates and returns the same least length |
| Pax.TwoLengths | packages/bastionctl/src/tar.ts:96-101 | For 97 bytes two lengths count themselves; the lesser is used |
| Pax.ParsePax | apps/server/src/archive/tar-relay.ts:380-394 | The loop computes the parse of the records that are left, stopping at the first malformed one |
| Pax.RecordsAreReadBack | apps/server/src/archive/tar-relay.ts:380-394 | Parsing any written records gives each key its last value, whatever bytes the values hold |
| Pax.CutOffIsIgnored | apps/server/src/archive/tar-relay.ts:380-394 | Records cut off anywhere in the last one give what the whole ones before it say |
| TarHeader.UstarHeader | apps/server/src/archive/tar.ts:135-165 | Filling the buffer field by field gives the header block with its checksum |
| TarHeader.SizeIsReadBack | apps/server/src/archive/tar-relay.ts:351-361 | Octal and base-256 sizes are read back for every safe integer |
| TarHeader.UstarIsReadBack | apps/server/src/archive/tar-relay.ts:330-367 | Every written header is accepted, with its name field, type, size and link field |
| TarHeader.OtherFieldsAreWritten | apps/server/src/archive/tar.ts:135-160 | Permissions, owner, group, time, magic and version are at their places in the header |
| TarHeader.DamageIsRefused | apps/server/src/archive/tar-relay.ts:330-367 | An accepted header with any one byte changed outside the checksum field is refused |
| TarHeader.SplitNameIsJoined | apps/server/src/archive/tar-relay.ts:330-349 | A name split over two fields is joined by a slash in a POSIX header, and only there; a type byte of 0 is a plain file |
| TarHeader.NumberIsRead | apps/server/src/archive/tar-relay.ts:351-361 | Octal digits with spaces around them, up to a NUL or the field's end, are read; none are 0 |
| TarHeader.NoNumberIsRefused | apps/server/src/archive/tar-relay.ts:351-361 | Any other character before the NUL makes a number field refused |
| TarHeader.ClearedIsReadBack | apps/server/src/archive/tar-relay.ts:369-378 | Clearing setuid and setgid keeps everything the relay parses, leaves no such bit, and redoes the checksum |
| TarWriter.TarWriter.Header | apps/server/src/archive/tar.ts:96-111 | Writes the PAX record block when ustar cannot hold a field, then the header |
| TarWriter.TarWriter.AddFile | apps/server/src/archive/tar.ts:61-78 | Writes exactly the announced size: data cut or filled with zeros, then to a whole block; read back, the member has the name, type and size given |
| TarWriter.EntryIsReadBack | apps/server/src/archive/tar.ts:96-165 | Every entry, with any name, link and size, is one member with exactly that name, type, size and link |
| TarWriter.LongerRecordsAreRefused | apps/server/src/archive/tar-relay.ts:170-173 | Past one MiB of records the relay refuses the entry, so that bound is exact |
| TarWriter.ArchiveRoundTrip | apps/server/src/archive/tar-relay.ts:144-187 | Every finished archive is read back entry for entry |
| TarPaths.MemberPathsAreRelative | apps/server/src/archive/tar-relay.ts:306-318 | A member path has only named components, none `..`, no leading slash or backslash in the raw name, no drive |
| TarPaths.PathsAreJudgedExactly | apps/server/src/archive/tar-relay.ts:306-318 | Refused exactly with a leading slash or backslash, a `..` between any of them, or a drive in what is left; a clean path stays as it is |
| TarPaths.InsideLink | apps/server/src/archive/tar-relay.ts:320-328 | Finds a kept link above the path exactly when there is one |
| TarPaths.NameRegistry.Claim | apps/server/src/archive/names.ts:21-37 | The search ends, and hands out the first free path of the folder, with a slash for a folder |
| TarPaths.FreeIsNear | apps/server/src/archive/names.ts:25-37 | At most one more name is tried than there are used ones |
| TarPaths.NumberBeforeExtension | apps/server/src/archive/names.ts:25-32 | The number goes in front of the extension, which begins at the last dot unless that comes first, and last for a folder |
| TarRelay.BlockReader.Read | apps/server/src/archive/tar-relay.ts:449-455 | Exactly `n` bytes of what is left of the concatenated input, or all of it |
| TarRelay.BlockReader.Chunk | apps/server/src/archive/tar-relay.ts:457-463 | The next bytes of the concatenated input, none only at its end |
| TarRelay.Body | apps/server/src/archive/tar-relay.ts:124-133 | Copies a member's blocks, however the input is chunked |
| TarRelay.ReadMember | apps/server/src/archive/tar-relay.ts:136-197 | Reading records and a header in chunks refines reading them from the whole input |
| TarRelay.RelayTar | apps/server/src/archive/tar-relay.ts:86-304 | The result, with every byte sent, depends only on the concatenation of the chunks |
| TarRelaySafety.MemberIsLocal | apps/server/src/archive/tar-relay.ts:163-197 | A member is determined by its own bytes: records, header, nothing after them |
| TarRelaySafety.ArchiveIsReadBack | apps/server/src/archive/tar-relay.ts:144-187 | Whole members followed by two zero blocks are read back member for member |
| TarRelaySafety.LoopIsSafe | apps/server/src/archive/tar-relay.ts:144-246 | For every input, what is written when the loop ends is a list of whole, safe members within both limits, the byte limit as the relay counts it |
| TarRelaySafety.OutputIsSafe | apps/server/src/archive/tar-relay.ts:86-304 | For every input, the output of a normal return is whole blocks ending in two zero blocks; read back, no member leaves the folder, lies under an earlier link, links to anything but an earlier file, or is a device; the file limit holds, the byte limit holds for what the relay counts (members other than links and folders), and the notes have names of their own |
| TarRelaySafety.CountedBodies | apps/server/src/archive/tar-relay.ts:217-236 | The bytes the limit counts are those of all bodies if and only if no kept link or folder has a body |
| TarRelaySafety.CleanArchivesPass | apps/server/src/archive/tar-relay.ts:217-236 | A safe archive within the limits goes through byte for byte |
| TarFiltering.RelayFilters | apps/server/src/archive/tar-relay.ts:86-304 | For every input, the exact result of each way the loop can end: what goes out for the whole members the input begins with is those an independent filter keeps, in order; each other one but the folder itself is reported once, with its reason, and the summary counts them; normal returns are only at a zero block or a limit |
| TarWriter.FolderBodyIsNotCounted | apps/server/src/archive/tar-relay.ts:217-235 | An input with a folder body of any size up to 8 GiB that goes through under a byte limit of 0, with 0 bytes in the summary |
| Shell.ReadPiece | apps/server/src/ai/command-safety.ts:132-170 | One turn of the word loop by index is the specification's step on the rest of the command |
| Shell.ReadWordFrom | apps/server/src/ai/command-safety.ts:121-172 | The index loop reads the specified word and stops where it ends, or refuses exactly when it does |
| Shell.ReadRedirectFrom | apps/server/src/ai/command-safety.ts:191-224 | The redirection branches by index are the specified ones |
| Shell.Tokenize | apps/server/src/ai/command-safety.ts:73-115 | The nested loops terminate and give the specified segments |
| ShellQuoting.ReadingIsTheAutomaton | apps/server/src/ai/command-safety.ts:121-172 | The word reader equals a character-by-character quoting automaton: same word, glob and expansion flags, end and refusals |
| ShellQuoting.UnquotedRedirectionsAreChecked | apps/server/src/ai/command-safety.ts:73-224 | Each unquoted `<` or `>` of an accepted command is in the operator of a redirection whose target is the word after it; for `>` a sink, or a descriptor after `>&` |
| ShellQuoting.QuotedNumberIsDropped | apps/server/src/ai/command-safety.ts:99-110 | A quoted number right before a redirection is taken for its descriptor |
| ShellJoining.JoinedBySeparator | apps/server/src/ai/command-safety.ts:79-115 | A command that tokenizes, joined to another by any of the six separators (an `&` not before `>`), tokenizes exactly when the other does, to the segments of both |
| ShellSplitting.SplitAtSeparator | apps/server/src/ai/command-safety.ts:69-115 | In every command that tokenizes, each unquoted `;`, `&`, `|`, parenthesis or newline outside the redirection operators cuts it: its segments are those of the text up to there and those of the text after |
| ShellSplitting.OneSegmentOtherwise | apps/server/src/ai/command-safety.ts:69-115 | Without such a separator there is at most one segment |
| ShellJoining.QuotedIsReadBack | apps/server/src/agents/install.ts:44-46 | A text printed with single quotes is one word with exactly that text, no glob, no expansion |
| ShellJoining.ScriptIsReadBack | apps/server/src/ai/command-safety.ts:73-115 | Every list of segments, printed and tokenized, comes back word for word |
| ShellCheck.SegmentsHaveWords | apps/server/src/ai/command-safety.ts:79-82 | Every segment has a first word |
| ShellCheck.Classify | apps/server/src/ai/command-safety.ts:21-34 | A command runs unasked exactly when it is blank or passes the raw checks, tokenizes, and each segment's rule accepts |
| ShellCheck.AcceptedIsHarmless | apps/server/src/ai/command-safety.ts:1222-1251 | In an accepted command redirections are harmless, and each program is known, no wrapper, and takes expanded arguments only under a rule that ignores them |
| ShellCheck.AcceptedExactly | apps/server/src/ai/command-safety.ts:21-62 | A command runs unasked if and only if it tokenizes, has no backtick, no `$(`, `<(`, `>(` and no `${` but around a name, and each segment sets no variable and has a plainly named program in the system's folders that is known, no wrapper, and takes these arguments, expanded ones only under a rule that ignores them |
| ShellCheck.JudgedPieceByPiece | apps/server/src/ai/command-safety.ts:54-115 | Joined by any of the six separators, two commands, the first of which tokenizes, run unasked exactly when each does (and, before a parenthesis, the first does not end in `$`, `<` or `>`) |
| ShellCheck.CutInQuotes | apps/server/src/ai/command-safety.ts:132-170 | Two commands that fail alone, the first of which does not tokenize, and run unasked joined by a `;`, which then is quoted |
| Front.StepKeeps | packages/bastionctl/src/front.ts:195-396 | Every event keeps slots, counts, phases and the serving generation right |
| Front.FrontIsSafe | packages/bastionctl/src/front.ts:208-396 | In every run: at most four Caddys with slots of their own, the serving one never told to stop unless the front stops, counts equal unreleased connections |
| Front.FailedReloadsChangeNothing | packages/bastionctl/src/front.ts:359-390 | As long as no reload succeeds, the same generation serves and the same program is run |
| Front.LastReloadServes | packages/bastionctl/src/front.ts:359-385 | In every run: the program is the one the last successful reload that named one named, else the first; the serving Caddy runs it; every older running Caddy has been asked to stop, and at most one newer one runs, being launched |
| Front.DownOnlyBySwitching | packages/bastionctl/src/front.ts:266-273 | In every run the front goes down unreported exactly by switching to a Caddy that had exited |
| Front.SwitchedToTheDead | packages/bastionctl/src/front.ts:359-386 | A run in which that happens with a successful reload |
| Front.SomeoneDrains | packages/bastionctl/src/front.ts:247-256 | With all slots taken there is a Caddy to stop that does not serve |
| Front.ProxyFront.Reload | packages/bastionctl/src/front.ts:247-256 | Picks the first free slot, or asks the oldest Caddy that does not serve to stop |
| Front.ProxyFront.SwitchOver | packages/bastionctl/src/front.ts:379-385 | The new Caddy serves, its program is the front's, the one before it is asked to stop, and nothing else changes |
| Front.ProxyFront.Accept | packages/bastionctl/src/front.ts:311-325 | A connection is counted for the serving generation, or turned away |
| Front.ProxyFront.Release | packages/bastionctl/src/front.ts:318-341 | A connection is released once, however often it closes |
| Front.ProxyFront.Stop | packages/bastionctl/src/front.ts:392-396 | Every running Caddy is asked to stop |
| Activate.Host.SwitchProxy | packages/bastionctl/src/proxy.ts:257-308 | The file and the running config after each outcome of a switch, and which calls' outcomes lead to it: skipped, switched, turned down or without an answer |
| Activate.Host.GoLive | packages/bastionctl/src/ops.ts:259-273 | Joins the live alias before the proxy names it, moves `current` last, and is live exactly if every call is done |
| Activate.Host.ActivateRolling | packages/bastionctl/src/ops.ts:303-385 | From any start whose upstreams containers it keeps answer: they are answered after every call if and only if they are at the end, which is decided exactly, for failure and success, by the start and the calls' outcomes; live exactly if the calls up to the reload are done; with every call done, the new container alone under its final name, the others stopped before they were removed; a failure leaves the others as they were and removes the new one |
| Activate.Host.ActivateRecreate | packages/bastionctl/src/ops.ts:311-355 | From at most one running container, two run at once if and only if the new one was started, not removed and the old one started again; which outcome follows which calls; live, the new one runs alone, with every call done as the only one and under its final name; with the compensating calls done, exactly the containers there were, and which upstreams are answered then |
| Activate.UnansweredReload | packages/bastionctl/src/proxy.ts:287-307 | A run of rolling activation after whose reload without an answer the upstream is unanswered |
| Activate.StaleConfigIsStranded | packages/bastionctl/src/proxy.ts:257-267 | Two runs, the second successful with every call done, after which the running config's upstream is unanswered |
| Activate.FailedRemovalRunsTwo | packages/bastionctl/src/ops.ts:328-340 | A run of recreate after which two containers run |
| Activate.FailedStopIsNotUndone | packages/bastionctl/src/ops.ts:318-321 | From any two running containers, a run of recreate that leaves the first stopped |
| ProxyUpgrade.ProxyHost.ReplaceFront | packages/bastionctl/src/proxy-upgrade.ts:239-288 | Replaced exactly if each of its nine calls is done, with nothing left of the old container if its removal is too; at every moment a proxy container exists, and alone under `-previous` it is the original; which restoring calls a failure makes and which end it, and that they give back its name, state, Caddyfile, copy and link |
| ProxyUpgrade.ProxyHost.Restore | packages/bastionctl/src/proxy-upgrade.ts:271-284 | What the restoring calls put back, and what stays when the file or link did not exist |
| ProxyUpgrade.ProxyHost.ReplaceCaddy | packages/bastionctl/src/proxy-upgrade.ts:218-237 | The link moves, and moves back on any failure; which Caddy the front runs after each outcome, an unanswered reload among them |
| ProxyUpgrade.ProxyHost.RecoverPrevious | packages/bastionctl/src/proxy-upgrade.ts:117-124 | Puts back a proxy that is only set aside, touches nothing otherwise, and keeps a proxy there whatever fails |
| ProxyUpgrade.CutOffIsRecovered | packages/bastionctl/src/proxy-upgrade.ts:113-124 | Whatever moment a replacement is cut off at, recovery leaves a proxy under its name, the original if no other was in place |
| Forward.PendingIs | apps/server/src/audit/forward.ts:360-377 | A batch is every settled row after the cursor up to its last one |
| Forward.StepKeeps | apps/server/src/audit/forward.ts:404-457 | Commits, edits, failures and ticks keep: every row between start and cursor was accepted |
| Forward.ForwardingSkipsNothing | apps/server/src/audit/forward.ts:404-457 | In every run no row between the forwarder's start and its cursor was never accepted |
| Forward.CaughtUp | apps/server/src/audit/forward.ts:404-457 | A query that finds nothing means everything settled was accepted |
| Forward.SentOnce | apps/server/src/audit/forward.ts:404-457 | In every run without a refusal or an edit, no row that was taken is in a batch again |
| Forward.BackoffDoubles | apps/server/src/audit/forward.ts:425-428 | The wait after failures in a row is half a minute, then double each time, at most a quarter of an hour |
| Forward.EditsDecide | apps/server/src/api/routes/audit.ts:348-382 | In every run, whether there is a forwarder and whether it is enabled is what the last edit said; right after one nothing backs off |
| Forward.PlaceIsKept | apps/server/src/api/routes/audit.ts:348-363 | In every run in which it is not created or removed, saved or not, a forwarder keeps its start, and its place only moves on, to rows that were taken |
| Forward.HistoryIsNotReplayed | apps/server/src/audit/forward.ts:378-389 | In every run after a forwarder's creation, nothing that was in the log then is in a batch sent with its configuration or a later one |
| Forward.CommittedIsCovered | apps/server/src/audit/forward.ts:378-389 | In every run: a row committing while a forwarder exists is one it must send if and only if it was not written before the last row logged at its creation, and any other it never sends |
| Forward.CommitBehindStart | apps/server/src/audit/forward.ts:378-389 | A run to such a row, committing within the settle time |
| Forward.LateCommitIsSkipped | apps/server/src/audit/forward.ts:43-49 | A run after which a row that commits later than the settle time is skipped |
| Forward.Forwarding.ForwardOrg | apps/server/src/audit/forward.ts:404-457 | A tick does nothing exactly while backing off; else it is a run of the model that begins with the settle time and ends in one of five ways, each with its state; `sent` counts the rows of its delivered batches; out of rows or after a short batch, everything older than the settle time is accepted |
| Lockout.LoginFailures.Status | apps/server/src/auth/login-security.ts:197-203 | An account is paused exactly until its time is up, with the seconds left rounded up |
| Lockout.LoginFailures.Record | apps/server/src/auth/login-security.ts:219-252 | An attempt's new row, the pause it starts, its length and its seconds rounded up, and whether the owner is told |
| Lockout.LoginFailures.Prune | apps/server/src/auth/login-security.ts:260-271 | Removes exactly the rows past their reset and pause, and counts them |
| Lockout.PruningIsInvisible | apps/server/src/auth/login-security.ts:260-271 | No account can tell a pruned row from one that was kept |
| Lockout.EveryAttemptCounts | apps/server/src/auth/login-security.ts:219-252 | Attempts are five per pause plus what expired and open windows hold, at most four each |
| Lockout.GuessingIsSlow | apps/server/src/auth/login-security.ts:167-252 | Attempts made while not paused are bounded by pauses and windows, and both by the time taken |
| Lockout.PauseTimeIs | apps/server/src/auth/login-security.ts:167-177 | The sum of the first pauses in closed form: a quarter of an hour for four, then one for each |
| Lockout.PausesDouble | apps/server/src/auth/login-security.ts:167-177 | The first pause is a minute, each next one twice as long, at most a quarter of an hour |
| Env.UnquoteOfQuote | packages/bastionctl/src/env.ts:34-46 | Unquoting inverts quoting for every string |
| EnvLines.LineSets | packages/bastionctl/src/env.ts:25-57 | A line of spaces, perhaps `export`, a name, spaces, an equals sign and a value sets that name to that value |
| EnvLines.SetsIsTheForm | packages/bastionctl/src/env.ts:25-32 | Only a line of that form sets a variable |
| EnvLines.SingleQuotedIsLiteral | packages/bastionctl/src/env.ts:34-42 | Between single quotes everything is the value as it stands |
| EnvLines.DoubleQuotedIsUnescaped | packages/bastionctl/src/env.ts:34-42 | Between double quotes each escaped character is itself, but `n`, `r` and `t` |
| EnvLines.CommentIsDropped | packages/bastionctl/src/env.ts:34-42 | A comment after a value that is not empty is dropped, with the quotes before it kept |
| EnvLines.CommentAloneIsTheValue | packages/bastionctl/src/env.ts:34-42 | A comment after an empty value is the value |
| Env.ParseEnv | packages/bastionctl/src/env.ts:49-57 | The loop gives each key the value of its last line |
| Env.SetEnv | packages/bastionctl/src/env.ts:60-77 | The loop replaces the first line with the key and drops later ones, or appends |
| Env.VarsOfJoined | packages/bastionctl/src/env.ts:25-77 | Writing lines out and parsing them again keeps every variable |
| Env.SetMeans | packages/bastionctl/src/env.ts:60-77 | After setting, exactly that variable changed, to exactly that value, for every text |
| Env.UnsetMeans | packages/bastionctl/src/env.ts:80-86 | Unsetting refuses an invalid name, is null exactly when the variable was not set, and else removes exactly that variable |
| Demux.ExecStream.OnData | packages/bastionctl/src/docker.ts:264-276 | After any chunks, what was delivered and what is pending are those of everything received |
| Demux.DemuxAll | packages/bastionctl/src/docker.ts:63-75 | The index loop splits the bytes into the two streams |
| Demux.IncrementalIsBatch | packages/bastionctl/src/docker.ts:63-276 | Incremental and batch reading agree exactly when no frame is cut off after its header |
| Demux.ReadersRecover | packages/bastionctl/src/docker.ts:63-276 | Both give back exactly the frames of a well-formed stream |

## Left out

- Text encoding: names and values are bytes (archives, tunnel) or characters (shell, `.env`); UTF-8 is not modelled, and in archive and shell text no whitespace beyond ASCII. The stand-in name of a tar header replaces each byte, not each UTF-16 unit, which only shows when a PAX record carries the real name.
- Numbers above 2^53 are exact where the source would round them (a PAX `size` of many digits, a ZIP64 field of a foreign archive).
- TunnelRuns.TunnelIsSafe: holds for runs with at most 2^32 streams; after a wrap of the ids a late frame of an old stream could meet a new one.
- Backpressure, pausing, reconnecting and all timers of the tunnel: a timeout is a step that may happen at any time.
- Lock: modelled as steps of values rather than as a class, since its runs are processes that share only the file; `waitForLock` only repeats them. Who is judged dead, and the age of an unreadable lock, are parameters of the steps.
- deflate, inflate and gzip are functions of their whole input; `ZipWriter.IsSound` says what is taken of them, among it that deflating never grows a file below the ZIP64 margin past 32 bits.
- The DOS date of a ZIP entry, and the choice between storing and deflating by a file's name and first bytes, are parameters.
- Reads that fail in the middle of an archived file: the content is what was read.
- The folder walk that feeds the archive writers, with its own limits and notes (`driver.ts`), and the separate checker for archives too large to hold.
- The relay's abort signal, its wait for the remote exit status, errors of the source stream, and the wording of its notes; the texts of the notes are parameters of bounded size.
- A PAX key `__proto__`, which a JavaScript object treats specially.
- The rule tables of the individual programs are a parameter of the command check.
- Front: the Caddy processes, their certificates and ports are events; a signal that a child ignores and the final kill are not told apart from its exit. A reload still under way while the front stops is not awaited by either.
- Activate: not getting the proxy lock and not being able to load the configuration are no outcomes of the model, so "exactly if every call is done" is about the calls that follow them; failures of the filesystem between the proxy switch and moving `current`, containers that crash after their health check, and a live container that still has the temporary `-next` name are not covered; of the proxy config only the app's upstream shows, and whether the whole text and the certificates are unchanged is a parameter.
- Pruning of releases and images, configuration checks and health probes of deploys are not part of the model.
- ProxyUpgrade: pulling images and the record of the upgrade are left out; changes on disk succeed.
- Forward: retention, which deletes old rows whether they were sent or not (`audit/retention.ts`), is not a step of the model, so row ids only grow; the syslog, webhook and TCP deliveries are one answer of the target; their message formats are left out.
- Env: the order of variables in the map, reading and writing the file, and its size limits beyond the value check.
