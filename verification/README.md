# A model of TessariDB's log backups, statement scanner and pushed stream

This project states and proves what the code promises about the parts of
TessariDB that carry a store's history from one place to another, and about a
few smaller algorithms beside them. `dafny verify dfyconfig.toml` covers the
whole of it.

- **Log backups** (`Layout`, `Checksum`, `CheckValues`, `Format`, `Reader`,
  `Stores`, `Sections`, `Writing`, `Reading`, `Restoring`, `Guarantees`,
  `RoundTrips`, `Refusals`, `BadFiles`, and `Layouts` for the bytes). A store is
  a class holding append-only logs and a durable copy; a file is bytes behind a
  cursor whose reads may be short; the writer pages logs that keep growing. The
  loops are methods proved equal to folds over the file's frames, and the
  promises (restore undoes write, a cut file restores a true prefix and says so,
  an incremental continues from exactly one place, a bad file is answered for
  what is bad in it by restoring and by verifying, verifying predicts restoring,
  nothing accepted is left unsynced) are lemmas about the folds for all files,
  stores and runs.
- **Statements** (`Scanning`, `Splitting`, `Transactions`, `Comments`,
  `Sessions`, `Quoting`). The incremental scanner equals an automaton that reads
  a character at a time, so a text may be cut anywhere (`Scanning.CutAnywhere`;
  an empty piece is nothing exactly when no dash is held,
  `Scanning.EmptyPieceIsNothingIffNoDash`); of every text it says what the
  conformance splitter's pieces say once comments are blanks
  (`Comments.EveryTextIsUnderstood`); a session loses, repeats and reorders
  nothing and keeps nothing closed waiting; a quoted text is always one literal
  of one closed statement.
- **The pushed stream** (`PushedStream`, `PushedRuns`, `PushedPromises`,
  `PushedAnswers`, `PushedProgress`). Leader, follower and two in-order links as
  a state machine over commits, sends, receipts, heartbeats and takes, with
  partial application, changing sets of logs and restarts. One invariant covers
  every run; the promises follow.
- **Smaller pieces**: the counting allocator's two counters under every
  interleaving (`Counting`, `Calls`), order-preserving keys and the expiry range
  (`KeyOrder`, `ExpiryKeys`), NDCG as a rearrangement inequality (`Lists`,
  `Relevance`, `Scores`), and the baseline file with its comparison (`Text`,
  `Baselines`, `Comparisons`, `Breaches`).

Parts of the program outside the model appear as parameters: the record codec,
what the schema admits, which device syncs fail, the order logs are listed in
(`Stores.Node`), how much each read returns (`Reader.Source`), the moments at
which the writer looks at the growing logs (`Writing.Origin`), the two Unicode
character classes (`Scanning.Classes`), UTF-8 validity (`ExpiryKeys.Utf8`), the
dot-command table and each script's fate (`Sessions.Setting`), how much of each
round the writer order lets through (a step of `PushedStream`), and the discount
(`Relevance.Discount`, of which only "positive and falling" is used). A
session's reader never gives an empty line: both readers turn one into the end
of input (`crates/tessari-cli/src/session.rs`,
`crates/tessari-cli/src/line.rs`).

Where code and documentation differ the code is followed. The format description
in `crates/tessari-backup/src/lib.rs` does not list the shard section frame (tag
3) that the reader and the writer both handle. The documentation of `read`
(`crates/tessari-backup/src/reading.rs`) speaks of a store that is not empty;
the code answers `WrongBase`. `reset_peak` is documented as making the next peak
this phase's, which a concurrent allocation can defeat
(`Counting.ResetCanMissARise`); `Counting.ResetIsTrustedIffLiveIsCovered` says
exactly when it does not, by what can be seen as the reset ends.

## Model

| member | source | states |
|---|---|---|
| `Restoring.CutFileRestores` | crates/tessari-backup/src/reading.rs:54-164 | Every strict byte prefix of a written file is either refused as no backup with the store untouched (cut inside the head) or restores exactly the frames that end at or before the cut, earlier sections whole and what is left of the next, reports exactly their records and spans, and says it is truncated |
| `Sections.PartIsThoseFrames` | crates/tessari-backup/src/reading.rs:54-164 | The part of a file its first frames make up, as sections, is those frames and no others |
| `Sections.PartIsWholeButLast` | crates/tessari-backup/src/reading.rs:146-161 | In such a part every section but the last is whole and the last is a beginning |
| `Restoring.WholeFileRestores` | crates/tessari-backup/src/reading.rs:54-164 | A whole file whose sections are each expected appends exactly its records to exactly the logs it names, reports their count and spans, and says nothing is missing |
| `Restoring.FilledLog` | crates/tessari-backup/src/reading.rs:114-143 | After the sections of distinct logs are in, a named log is what it was followed by exactly that section's records |
| `Restoring.FilledElsewhere` | crates/tessari-backup/src/reading.rs:114-143 | A log no section names is left as it was |
| `Restoring.PlaySections` | crates/tessari-backup/src/reading.rs:54-164 | Replaying any expected sections takes every record of them, and the loop's variables report count, spans and whether any stopped short |
| `RoundTrips.BackupRestores` | crates/tessari-backup/src/writing.rs:15-31 | A backup taken while the logs keep growing, restored into an empty store, gives for each listed log (any home, several writers a home) exactly what it held at one moment of the writing, for every other log nothing, and is not called truncated |
| `RoundTrips.CutBootstrapContinues` | crates/tessari-backup/src/reading.rs:192-205 | A new node brought up from a backup cut anywhere past its head holds exactly the frames that end at or before the cut, is told how many records and that it was truncated, and from every later moment what it holds of a log followed by the leader's from the named position is the leader's log |
| `RoundTrips.UptoRestores` | crates/tessari-backup/src/reading.rs:121-164 | A restore bounded by a sequence leaves the log with exactly the section's records up to it, and is not called truncated for stopping there |
| `RoundTrips.IncrementalContinues` | crates/tessari-backup/src/writing.rs:48-61 | A log restored up to any sequence it held, then continued by a later incremental from the next one, is the log one whole restore gives |
| `RoundTrips.IncrementalPastIsRefused` | crates/tessari-backup/src/reading.rs:76-107 | When the bound lay past the log's end, the incremental from the next sequence is refused as the wrong base and no log moves |
| `RoundTrips.WholeAtOnce` | crates/tessari-backup/src/reading.rs:275-277 | The whole restore the incremental one is measured against: the later log, complete |
| `RoundTrips.OneSectionIsTakenIffExpected` | crates/tessari-backup/src/reading.rs:76-107 | A one-section file is taken when the log stands at `from - 1` and its home holds no foreign records, by a node that refuses nothing of its own; otherwise no log changes, whatever the node and the records are like |
| `RoundTrips.UnexpectedIsRefused` | crates/tessari-backup/src/reading.rs:76-107 | A file whose first section is not awaited moves no log, whatever its head counts, bound was asked for or bytes follow that section's frame, and is answered `WrongBase` with the positions unless a bound meets several logs or the last sync fails |
| `RoundTrips.LaterUnexpectedIsRefused` | crates/tessari-backup/src/reading.rs:76-107 | A later section that is not awaited ends the restore there with `WrongBase`: the sections before it are in whole and nothing after it is |
| `RoundTrips.BackUpAndRestore` | crates/tessari-backup/src/writing.rs:15-31 | Writing a backup of growing logs and reading its bytes into an empty store through reads of any lengths leaves the store mirroring what was written, all of it durable |
| `Guarantees.EveryRunKeeps` | crates/tessari-backup/src/reading.rs:54-164 | Over every run on every sequence of frames: the logs are the durable copy and at most a chunk of landed records, over all logs together, no log loses or changes a record, only logs the file named gain any, and no home begun holds records of a log the file did not begin |
| `Guarantees.RestoreIsDurable` | crates/tessari-backup/src/reading.rs:42-50 | An accepted file whose last sync goes through leaves everything applied durable and answers what the replay answered, refusals included; when that sync fails its failure is the answer; at no moment were more than a chunk of records, over all logs together, unsynced; a file turned away leaves the store as it was |
| `Guarantees.VerifyPredictsRestore` | crates/tessari-backup/src/reading.rs:218-266 | For every byte string and every store, if a whole restore succeeds then verifying the same bytes succeeds with the same writer, record count, spans and truncation flag |
| `Guarantees.GainsAreCarried` | crates/tessari-backup/src/reading.rs:114-143 | Over every run on every sequence of frames, what each log gains is, in order, a beginning of the decoded bodies of the frames numbered next under sections naming it, and all of them unless the run stopped at a frame |
| `Guarantees.RunsAgree` | crates/tessari-backup/src/reading.rs:218-266 | The restore's loop and the inspection's loop simulate each other frame by frame as long as the restore does not refuse |
| `Refusals.RefusedIffAFrameEnds` | crates/tessari-backup/src/reading.rs:54-164 | On every sequence of frames a replay is refused with an error if and only if some frame, all before it taken, is a reason for that error: unreadable, a log that stands elsewhere, the first foreign log of the home, a record with no section, one that does not decode, one its log refuses, or the 1024th whose sync fails |
| `Refusals.BadIffAFrameIs` | crates/tessari-backup/src/reading.rs:218-254 | Verifying is refused with an error if and only if, after good frames of which the first is a section, a frame stands that cannot be read, a record that does not decode, or a record before any section |
| `BadFiles.UnreadableIsAnswered` | crates/tessari-backup/src/reading.rs:54-71 | Any sections, then bytes that do not read as a frame: a restore has everything before them in and nothing after, and answers the frame's own error, and so does verifying |
| `BadFiles.DamagedRecordIsNamed` | crates/tessari-backup/src/reading.rs:68-71 | A record whose body differs within thirty-two consecutive bits from the one written, after any sections and before any bytes, is answered `Damaged` with its number by a restore, with everything before it in, and by verifying |
| `BadFiles.UndecodableIsAnswered` | crates/tessari-backup/src/reading.rs:128 | A whole record that does not decode is answered `Undecodable` by both, everything before it in |
| `BadFiles.StrayRecordIsNoBackup` | crates/tessari-backup/src/reading.rs:114-120 | A record with no section before it is no backup, to both, and no log moves |
| `BadFiles.UnknownFrameIsNoBackup` | crates/tessari-backup/src/format.rs:129-144 | After any sections, a frame tagged other than 1, 2 or 3 is no backup, to both |
| `BadFiles.BrokenStreamFails` | crates/tessari-backup/src/format.rs:227-244 | A stream that fails between frames or anywhere inside one is answered `Io` by both, not taken for a cut |
| `BadFiles.GapIsRefused` | crates/tessari-backup/src/reading.rs:129-137 | A record past the next position of its log ends the restore as refused by the store, everything before it in |
| `BadFiles.CutFileVerifies` | crates/tessari-backup/src/reading.rs:218-266 | A written file cut at any byte past its head verifies as truncated, with each log good through exactly the last record of it that ends at or before the cut |
| `BadFiles.WholeFileVerifies` | crates/tessari-backup/src/reading.rs:218-266 | A whole written file verifies with every log good through its last record and nothing missing |
| `Guarantees.RunsReportWhatTheyRead` | crates/tessari-backup/src/reading.rs:108-143 | A run that got past every frame counts every record among them, repeats included, and lists every section they opened |
| `Reading.ReadUntil` | crates/tessari-backup/src/reading.rs:27-50 | For every pattern of short reads, the answer and the whole state of the store are those the fold over the file's bytes gives; a file turned away leaves the store as it was |
| `Reading.Replay` | crates/tessari-backup/src/reading.rs:54-164 | The frame loop leaves the store and its own variables where the fold over the events does, and consumes them |
| `Reading.TakeEvent` | crates/tessari-backup/src/reading.rs:71-144 | One frame: a cut, a refusal, a section checked against the store and opened, or a record landed and perhaps a sync, as the fold's one step |
| `Reading.FindForeign` | crates/tessari-backup/src/reading.rs:89-107 | Finds the tail of the first non-empty log of the home that is neither this section's nor one this file began, and none exactly when there is none |
| `Reading.Bootstrap` | crates/tessari-backup/src/reading.rs:192-205 | Restores, then names one past the committed tail of every log the node holds |
| `Reading.Positions` | crates/tessari-backup/src/reading.rs:194-198 | One position for each listed log, one past its tail, in listing order |
| `Reading.Verify` | crates/tessari-backup/src/reading.rs:218-266 | For every pattern of short reads, answers what the fold that applies nothing answers |
| `Reading.LookAt` | crates/tessari-backup/src/reading.rs:228-254 | One frame of an inspection, as the fold's one step |
| `Writing.Write` | crates/tessari-backup/src/writing.rs:15-31 | The bytes written are the head and, for every log listed at one moment, that log's whole section as it stood at some moment of the writing, independent of paging |
| `Writing.WriteFrom` | crates/tessari-backup/src/writing.rs:48-61 | A one-section file of exactly the records at and after `from` as of the section's moment |
| `Writing.OnlyLog` | crates/tessari-backup/src/writing.rs:78-87 | The one log held, the store's own unattributed log when there is none, or a refusal that counts them |
| `Writing.WriteSection` | crates/tessari-backup/src/writing.rs:109-166 | Exactly the records from `from` to the tail the log had when the section began, however it grows meanwhile |
| `Writing.WriteRecords` | crates/tessari-backup/src/writing.rs:136-166 | The paging loop terminates and writes each record once, in order, stopping at the tail |
| `Writing.PageContinues` | crates/tessari-backup/src/writing.rs:136-166 | A page of a log that has since grown continues the section where it stopped, and a short or cut page ends it |
| `Writing.WritePage` | crates/tessari-backup/src/writing.rs:143-159 | One page's records up to the tail, and how many that was |
| `Writing.WriteHead` | crates/tessari-backup/src/writing.rs:90-106 | The head's bytes: magic, format, build and section count |
| `Format.EventsRoundTrip` | crates/tessari-backup/src/format.rs:129-222 | A stream of frames reads back as those frames and as nothing else |
| `Format.CutEvents` | crates/tessari-backup/src/format.rs:129-244 | Every strict byte prefix of a stream of frames reads as exactly the frames that end at or before the cut, and then a cut exactly when none of them ends just there |
| `Format.HeadRoundTrip` | crates/tessari-backup/src/format.rs:24-72 | A head is read back exactly by every build not older than its writer, and by an older one refused |
| `Format.HeadIsJudged` | crates/tessari-backup/src/format.rs:24-95 | Under either magic a head is refused for a framing other than 4, then for a record version other than 1, then for a newer writer, and otherwise read |
| `Format.CutHeadIsRefused` | crates/tessari-backup/src/format.rs:24-72 | A file cut anywhere inside its head is no backup at all |
| `Format.DamageIsAnswered` | crates/tessari-backup/src/format.rs:203-219 | A record whose body differs only within thirty-two consecutive bits from the one written is always answered `Damaged` |
| `Format.EventRoundTrip` | crates/tessari-backup/src/format.rs:129-222 | Each frame reads back as itself and leaves what followed it |
| `Reader.Source.Read` | crates/tessari-backup/src/format.rs:227-244 | A read that may be short: some of what is left, nothing only at the end, or the stream's failure |
| `Reader.Fill` | crates/tessari-backup/src/format.rs:227-244 | Whatever the reads grant, tells a full buffer from a clean end and from a cut, and consumes exactly what it filled |
| `Reader.ReadMagic` | crates/tessari-backup/src/format.rs:75-95 | Either magic is accepted and consumed exactly; anything else is no backup |
| `Reader.ReadHead` | crates/tessari-backup/src/format.rs:24-72 | The head as its bytes spell it, refused before any frame is looked at |
| `Reader.ReadBody` | crates/tessari-backup/src/format.rs:189-222 | At most the length claimed, read as it arrives |
| `Reader.NextFrame` | crates/tessari-backup/src/format.rs:129-144 | The next frame or the clean end, as the bytes left spell it; of a whole frame exactly its bytes are consumed |
| `Reader.NextSection` | crates/tessari-backup/src/format.rs:147-165 | A section frame past its tag |
| `Reader.NextShardSection` | crates/tessari-backup/src/format.rs:168-186 | A shard section frame past its tag |
| `Reader.NextRecord` | crates/tessari-backup/src/format.rs:189-222 | A record frame past its tag, its checksum compared |
| `Layout.LogNameRoundTrip` | crates/tessari-backup/src/layout.rs:59-76 | A plain section names every log but a shard's, and no shard's name reads as one |
| `Layout.HomeNameRoundTrip` | crates/tessari-backup/src/layout.rs:78-104 | Every home but a shard reads back from its nine bytes |
| `Layout.ShardLogNameRoundTrip` | crates/tessari-backup/src/layout.rs:107-136 | A shard section names a shard's log exactly when the shard is not zero |
| `Layout.FillHome` | crates/tessari-backup/src/layout.rs:78-91 | Filling the nine-byte buffer field by field gives the home's name |
| `Layout.FillLog` | crates/tessari-backup/src/layout.rs:59-65 | Filling the twenty-five-byte buffer gives the log's name |
| `Layout.FillShardLog` | crates/tessari-backup/src/layout.rs:107-117 | Filling the thirty-three-byte buffer gives the shard log's name, and only a shard has one |
| `Checksum.TableCrc32` | crates/tessari-backup/src/check.rs:56-67 | The table-driven checksum is the remainder of polynomial division of the message's bits, for every byte string |
| `CheckValues.PolynomialCoefficients` | crates/tessari-backup/src/check.rs:22-23 | The divisor has exactly the coefficients x^32, x^26, x^23, x^22, x^16, x^12, x^11, x^10, x^8, x^7, x^5, x^4, x^2, x and 1 |
| `CheckValues.CheckValue` | crates/tessari-backup/src/check.rs:73-81 | The checksum of "123456789" is 0xcbf43926, stored high byte first |
| `CheckValues.TurnedIsRound` | crates/tessari-backup/src/check.rs:41-47 | A round of the register on its bits is the code's shift and exclusive or on a 32-bit word, for every word |
| `Checksum.Table` | crates/tessari-backup/src/check.rs:28-54 | Each entry is its index put through eight rounds of the shift register |
| `Checksum.BitBurstIsDetected` | crates/tessari-backup/src/check.rs:56-67 | Two byte strings that differ only within thirty-two consecutive bits, at whatever bit those start, have different checksums |
| `Checksum.BurstIsDetected` | crates/tessari-backup/src/check.rs:56-67 | So have two that differ only within four consecutive bytes |
| `Checksum.CrcIsMixing` | crates/tessari-backup/src/check.rs:56-67 | Byte-at-a-time mixing of a running value is long division of the whole message |
| `Layouts.HeadLayout` | crates/tessari-backup/src/format.rs:24-72 | Where each field of a head stands: the magic's ten bytes, 4, 1, three numbers and the section count |
| `Layouts.HomeLayout` | crates/tessari-backup/src/layout.rs:78-104 | A home is its variant byte 0, 1, 2 or 3 and two numbers |
| `Layouts.NamesReadIff` | crates/tessari-backup/src/layout.rs:66-136 | Nine bytes name a home if and only if the first is 0, 1 or 2; thirty-three name a shard's log if and only if it is 3 and the shard is not zero |
| `Layouts.NewerIffGreater` | crates/tessari-backup/src/format.rs:47-56 | A build is newer than another if and only if the first of its three numbers that differs is greater, and never than itself |
| `Layouts.SectionLayout` | crates/tessari-backup/src/format.rs:147-165 | A section is 42 bytes: tag 1, home, writer and the two positions |
| `Layouts.ShardSectionLayout` | crates/tessari-backup/src/format.rs:168-186 | A shard's section is 50 bytes: tag 3, home, table, shard, writer and the two positions |
| `Layouts.RecordLayout` | crates/tessari-backup/src/format.rs:189-222 | A record is tag 2, its length, its number, its checksum and its body |
| `Stores.Store.RestoreRecordIn` | crates/tessari-storage/src/store/apply.rs:120-133 | A log takes only its next position, passes over or refuses one it holds, and leaves the store as it was when it refuses |
| `Stores.Store.SyncLanded` | crates/tessari-storage/src/store/apply.rs:135-138 | Everything landed becomes durable, or nothing does and that is said |
| `Scanning.Scanner.Feed` | crates/tessari-cli/src/scanner.rs:155-276 | Feeding a piece leaves the scanner where the one-character automaton does, an empty piece settling a held dash |
| `Scanning.Scanner.Settle` | crates/tessari-cli/src/scanner.rs:155-182 | A dash held from the piece before is resolved against this one's first character |
| `Scanning.Scanner.ReadOn` | crates/tessari-cli/src/scanner.rs:183-276 | The peeking loop over a piece equals the automaton that never looks ahead |
| `Scanning.CutAnywhere` | crates/tessari-cli/src/scanner.rs:155-276 | Feeding any cut of a text leaves the scanner as feeding the whole, as long as no empty piece arrives while a dash is held |
| `Scanning.NonEmptyPiecesSettleNothing` | crates/tessari-cli/src/scanner.rs:155-182 | No sequence of non-empty pieces ever settles a dash early |
| `Scanning.EmptyPieceCanSplitAComment` | crates/tessari-cli/src/scanner.rs:155-182 | A concrete cut of a comment in which an empty piece makes the scanner report the start of a statement that never closed |
| `Splitting.SplitStatements` | crates/tessari-conformance/src/document.rs:107-146 | The loop gives the statements the one-character splitter cuts, blank pieces dropped |
| `Splitting.CutKeepsAll` | crates/tessari-conformance/src/document.rs:107-146 | The pieces and what is left over concatenate to the text, and each piece is one whole statement |
| `Splitting.StatementsRejoin` | crates/tessari-conformance/src/document.rs:107-146 | The statements joined are the block but for blanks after the last |
| `Comments.EveryTextIsUnderstood` | crates/tessari-cli/src/scanner.rs:128-276 | What the scanner answers of every text at all, told from the pieces the splitter cuts it into once each comment is one blank: closed exactly when it stands after a top-level `;` with only blanks since and no transaction open after the statements, a transaction open exactly when the last piece whose first word is BEGIN, COMMIT or CANCEL has BEGIN, substantial exactly when not blank |
| `Comments.CommentsSayNothing` | crates/tessari-cli/src/scanner.rs:40-53 | Every text says to the scanner what it says with its comments, from `--` outside quotes to the line end, made blanks; and without them it holds no comment |
| `Transactions.OpenIffLastMoveBegins` | crates/tessari-cli/src/scanner.rs:30-38 | On text without comments a transaction is open if and only if the last of the splitter's pieces, the unfinished one included, whose first word before any quote or brace is BEGIN, COMMIT or CANCEL has BEGIN |
| `Transactions.ScannerAgreesWithSplitter` | crates/tessari-cli/src/scanner.rs:128-276 | On such a text closed means that the splitter stands after a top-level `;` with only blanks since and none of its statements left a transaction open; substantial means not blank |
| `Transactions.NeverCommentedIffUncommented` | crates/tessari-cli/src/scanner.rs:183-276 | The scanner opens no comment over a text if and only if the text holds no `--` outside quotes |
| `Transactions.LeftOpenOneMore` | crates/tessari-cli/src/scanner.rs:32-38 | One piece more leaves a transaction open if it begins with BEGIN, or if one was open and it begins with none of the three words |
| `Sessions.Run` | crates/tessari-cli/src/session.rs:129-294 | The loop, with its scanner, ends where the fold over what the reader gave ends |
| `Sessions.TakeTurn` | crates/tessari-cli/src/session.rs:150-294 | One turn: a secret, a command, or a line for the scanner, and a script handed over whole |
| `Sessions.NothingIsLost` | crates/tessari-cli/src/session.rs:129-294 | Over every run the non-command lines read are, in order, exactly the scripts submitted, the text abandoned and the remainder; every script submitted is closed with no transaction open, by one pass over the whole of it, and no text for which that holds is kept waiting |
| `Sessions.NothingEndsInSilence` | crates/tessari-cli/src/session.rs:270-294 | When the lines end, the text read is exactly what was submitted, abandoned, handed over with its transaction open, and left behind; anything substantial left behind was answered as an error |
| `Sessions.EveryTurnKeeps` | crates/tessari-cli/src/session.rs:129-294 | What holds between any two turns is kept by every sequence of turns |
| `Sessions.RefusedIffSaid` | crates/tessari-cli/src/session.rs:241-294 | A session ends refused if and only if the store refused a script of it or text with something in it was left behind with no transaction open; a script's session hands over nothing after its first refusal |
| `Sessions.CommandIffDotAtStart` | crates/tessari-cli/src/session.rs:169-198 | A line is a command if and only if nothing is pending and a dot is the first of it that is not blank: inside an unfinished statement it is data |
| `Sessions.CommandIsRun` | crates/tessari-cli/src/session.rs:197-223 | A command that stands for a statement hands exactly that over, one that leaves ends the session, any other changes nothing |
| `Sessions.AbandonStartsAfresh` | crates/tessari-cli/src/session.rs:159-166 | After any lines, abandoning drops what was pending, and every run from there is one from a fresh start |
| `Sessions.SecretIsAskedOnce` | crates/tessari-cli/src/session.rs:173-196 | A passphrase becomes one unseal statement handed over, or nothing when it is empty, and is kept nowhere |
| `Quoting.TwoPassesAreOne` | crates/tessari-cli/src/bootstrap.rs:133-135 | The two successive replacements equal one escape of each character |
| `Quoting.QuotedTextLexes` | crates/tessari-ql/src/lexer.rs:131-170 | The quoted text lexes as one literal whose value is the text, ending at the quote written after it, for every text |
| `Quoting.BuiltIsOneStatement` | crates/tessari-cli/src/scanner.rs:183-276 | A statement built around one quoted text is closed at its last character and not before, whatever the text holds |
| `Quoting.FirstUserIsOneStatement` | crates/tessari-cli/src/bootstrap.rs:89-92 | For every plain name and every password the statement declaring the first user is one closed statement |
| `Quoting.UnsealIsOneStatement` | crates/tessari-cli/src/session.rs:173-190 | For every passphrase the unseal statement is one closed statement |
| `Layouts.StatementLayout` | crates/tessari-cli/src/bootstrap.rs:89-92 | The two statements by their text, around the name and the escaped secret |
| `PushedRuns.EveryStepKeeps` | crates/tessari-cli/src/streaming.rs:288-374 | Every step of leader, follower or links keeps the invariant: no restart under way and rounds in flight chained from what the follower holds to the leader's cursors, or a restart asked for, or its mark on the way with a chain behind it |
| `PushedRuns.EveryRunKeeps` | crates/tessari-cli/src/streaming.rs:288-374 | The invariant holds in every state of every run |
| `PushedRuns.RoundIsTaken` | crates/tessari-cli/src/streaming.rs:336-347 | A round cut where the follower stands applies without a gap, whatever is withheld of it, and leaves every log a beginning of the leader's |
| `PushedRuns.HeldAcknowledgesOne` | crates/tessari-wire/src/door/connection/pushing.rs:121-132 | Outside a restart a report acknowledges the oldest round and no other |
| `PushedPromises.RoundsApplyWhereTheyWereCut` | crates/tessari-cli/src/streaming.rs:317-347 | In every run each round applied was cut from exactly the positions the follower then holds, moves each log along the leader's by what was let through and no other log, and is never refused |
| `PushedPromises.FollowerIsAPrefix` | crates/tessari-cli/src/streaming.rs:288-374 | The follower's logs only grow and stay beginnings of the leader's, and the follower never ends on a refusal |
| `PushedPromises.ReportsAreNotAhead` | crates/tessari-cli/src/streaming.rs:348-372 | No report in flight names a position past what is applied |
| `PushedPromises.TwoUnacknowledged` | crates/tessari-wire/src/door/connection/pushing.rs:19-21 | Outside a restart what the leader waits for is exactly the rounds and reports in flight, two at most |
| `PushedPromises.BeatMeansLevel` | crates/tessari-cli/src/streaming.rs:306-313 | A heartbeat taken as level meant level: every log the follower holds is, record for record, the leader's when it sent the beat, and the position recorded is that log's length |
| `PushedAnswers.HeldIffWhole` | crates/tessari-cli/src/streaming.rs:348-372 | In every run a round taken is reported held if and only if it was let apply whole and the follower's logs are the ones it had; otherwise the follower asks to be streamed from where it then stands and waits for the mark |
| `PushedAnswers.SendsUpToTwo` | crates/tessari-wire/src/door/connection/pushing.rs:19-21 | A round the leader can cut may be sent exactly while none or one is unacknowledged |
| `PushedAnswers.BeatsAreSentLevel` | crates/tessari-wire/src/door/connection/pushing.rs:161-176 | Outside a restart a heartbeat is sent only when nothing is in flight and the follower already holds, record for record, all the leader does |
| `PushedAnswers.NoFrameTakesAway` | crates/tessari-cli/src/streaming.rs:302-373 | No frame, truthful or not, takes a record from the follower or changes one; only a round outside a restart adds any, and only a heartbeat outside a restart is called level |
| `PushedAnswers.GapIsRefused` | crates/tessari-cli/src/streaming.rs:317-347 | Any round with the wrong number of answers, or with a record past anything those before it could reach, is refused and changes nothing |
| `PushedProgress.CatchesUp` | crates/tessari-cli/src/streaming.rs:288-374 | From every state of every run, while nothing is committed, every schedule of sends, receipts and whole takes comes to rest in finitely many steps with the follower holding exactly the leader's logs |
| `PushedProgress.ProgressAdvances` | crates/tessari-cli/src/streaming.rs:288-374 | Every send, receipt and whole take, from every state the invariant allows, lowers a measure of restarts to read, records to send and messages in flight |
| `PushedProgress.ThereIsAWayOn` | crates/tessari-cli/src/streaming.rs:288-374 | Short of rest some such step can always be taken: nothing is a dead end |
| `PushedProgress.RestIsLevel` | crates/tessari-wire/src/door/connection/pushing.rs:161-176 | With both links empty and nothing left to send, follower and leader hold the same |
| `PushedStream.Following.constructor` | crates/tessari-cli/src/streaming.rs:295-300 | The follower opens by naming the first position it does not hold in each log |
| `PushedStream.Following.Apply` | crates/tessari-cli/src/streaming.rs:339-347 | Each answer is applied as far as it is not withheld; a gap in any is a refusal |
| `PushedStream.Following.Take` | crates/tessari-cli/src/streaming.rs:302-373 | One frame changes the follower, what it says and what it calls level as the protocol's step does |
| `PushedStream.Following.Follow` | crates/tessari-cli/src/streaming.rs:288-374 | The loop hears one frame after another, each where the one before left off, to the end or to a refusal |
| `Counting.LiveIsWhatIsCounted` | crates/tessari-bench/src/counting.rs:56-114 | Under every interleaving LIVE is the sum of what is counted, in machine words, and what is allocated is that sum plus what calls under way still owe |
| `Counting.LiveIsExactIffItFits` | crates/tessari-bench/src/counting.rs:56-114 | LIVE is the sum itself exactly when the sum fits a word |
| `Counting.QuietLiveIsWhatIsHeld` | crates/tessari-bench/src/counting.rs:116-120 | With no call under way LIVE is, in machine words, the bytes handed out and not given back, and exactly those if and only if what is counted fits a word |
| `Counting.NeverUnderflows` | crates/tessari-bench/src/counting.rs:76-103 | No subtraction of any run takes off more than is counted, nor more than LIVE holds as long as what is counted fits a word |
| `Counting.ResetIsTrustedIffLiveIsCovered` | crates/tessari-bench/src/counting.rs:111-134 | As a reset ends, PEAK will cover every value of LIVE since, in every continuation that fits a word and whenever no thread is between its add and its max, if and only if PEAK is then at least LIVE or some thread is about to raise it to that |
| `Counting.UncoveredIsMissed` | crates/tessari-bench/src/counting.rs:128-134 | Otherwise letting the pending maxima through ends with PEAK below LIVE |
| `Counting.ResetCanMissARise` | crates/tessari-bench/src/counting.rs:132-134 | A run in which another thread allocates between a reset's load and its store, and PEAK ends below LIVE |
| `Counting.PeakWasReached` | crates/tessari-bench/src/counting.rs:111-134 | In every run whose counted bytes have fitted a word throughout, PEAK is a value LIVE really had |
| `Calls.CallAlone` | crates/tessari-bench/src/counting.rs:56-134 | A call run undisturbed through the machine's own steps moves LIVE, in machine words, by exactly what it leaves allocated more or less, and leaves every thread where it was; a reset leaves PEAK at LIVE |
| `Calls.WatermarkSaturates` | crates/tessari-bench/src/counting.rs:111-114 | An undisturbed allocation leaves the watermark at least the sum, or at the largest word when the sum is past it, and never wraps it |
| `Calls.Counters.Took` | crates/tessari-bench/src/counting.rs:111-114 | The two updates are the rest of an allocation run undisturbed through the machine |
| `Calls.Counters.Alloc` | crates/tessari-bench/src/counting.rs:57-65 | The code's updates are an undisturbed allocation of the machine: the counted total grows by a granted block and by nothing when refused, and PEAK covers LIVE unless the total wrapped |
| `Calls.Counters.Dealloc` | crates/tessari-bench/src/counting.rs:76-81 | The code's update is an undisturbed deallocation of the machine: the counted total falls by the block and the watermark stays |
| `Calls.Counters.Realloc` | crates/tessari-bench/src/counting.rs:89-103 | The code's updates are an undisturbed reallocation of the machine: the total moves from the old size to the new, and not at all when refused |
| `Calls.Counters.ResetPeak` | crates/tessari-bench/src/counting.rs:132-134 | The code's update is an undisturbed reset of the machine, and leaves a watermark that can be trusted in every run from there |
| `ExpiryKeys.PassedByIsExact` | crates/tessari-encoding/src/expiry_key.rs:41-53 | For every key and every `now`, the largest included, the encoded key lies in the range exactly when its instant is at or before `now` |
| `ExpiryKeys.RangeIsExact` | crates/tessari-encoding/src/expiry_key.rs:41-53 | Any byte string as long as a key is in the range exactly when it is of this kind and the instant it spells has passed |
| `ExpiryKeys.KeysSortAsEntries` | crates/tessari-encoding/src/expiry_key.rs:61-71 | Byte order of encoded keys is the order of entries: by instant, then namespace, database, table and id |
| `ExpiryKeys.DecodeIffEncoded` | crates/tessari-encoding/src/expiry_key.rs:73-89 | A byte string decodes to a key if and only if it is that key's encoding |
| `Layouts.ExpiryLayout` | crates/tessari-encoding/src/expiry_key.rs:61-71 | Where each field of a key stands: 0x1a, the instant, namespace, database and table, and the id under tag 1, 2, 3 or 4 |
| `Layouts.ComponentLayout` | crates/tessari-encoding/src/order.rs:104-139 | A component is its bytes with each zero as 0x00 0xff, and 0x00 0x01 at its end |
| `KeyOrder.BigEndianOrders` | crates/tessari-encoding/src/order.rs:62-72 | Fixed-width big-endian integers sort numerically |
| `KeyOrder.SignedOrders` | crates/tessari-encoding/src/order.rs:74-84 | Signed integers sort numerically, negatives first |
| `KeyOrder.VariableOrders` | crates/tessari-encoding/src/order.rs:104-139 | Escaped and terminated components sort as the bytes they spell, and none begins another |
| `KeyOrder.PutVariable` | crates/tessari-encoding/src/order.rs:109-139 | The loop writes the escaped and terminated component |
| `KeyOrder.KeyReader.Take` | crates/tessari-encoding/src/order.rs:294-327 | The loop reads one component and consumes exactly it, or refuses |
| `KeyOrder.VariableReadsBack` | crates/tessari-encoding/src/order.rs:294-327 | A written component reads back, whatever follows it |
| `KeyOrder.VariableIsCanonical` | crates/tessari-encoding/src/order.rs:294-327 | What reads is what the writer would have written |
| `KeyOrder.PrefixRangeIsExact` | crates/tessari-kv/src/key.rs:171-183 | A prefix's range holds exactly the keys that begin with it, for every prefix |
| `KeyOrder.PrefixUpperBound` | crates/tessari-kv/src/key.rs:246-255 | The loop gives the smallest key past every key of the prefix, or none |
| `Relevance.RankedPages` | crates/tessari-bench/examples/relevance.rs:236-250 | The first `DEPTH` of the answer's distinct pages, each where it first comes |
| `Relevance.NdcgIsAShare` | crates/tessari-bench/examples/relevance.rs:262-280 | NDCG is in [0, 1] for every distinct page list of at most `DEPTH` and every positive falling discount |
| `Relevance.NdcgIsOneIffBestFirst` | crates/tessari-bench/examples/relevance.rs:262-280 | NDCG is one if and only if some page has a positive grade, the answer comes highest grade first and no page left out is graded above the last place |
| `Relevance.IdealDominates` | crates/tessari-bench/examples/relevance.rs:270-278 | No distinct pages' first n gains sum to more than the n best grades' |
| `Relevance.DominatingIsWorthMore` | crates/tessari-bench/examples/relevance.rs:252-280 | Summation by parts: a list whose every beginning sums to more is worth more under a falling discount |
| `Scores.GainDoubles` | crates/tessari-bench/examples/relevance.rs:258-260 | A page of grade zero gains nothing and each grade gains twice what the one below it does and one more |
| `Scores.OnePageScoresItsRank` | crates/tessari-bench/examples/relevance.rs:252-280 | With one page worth finding, an answer that has it at rank k, from zero, scores the discount of k over that of zero |
| `Scores.ScoresNothingIff` | crates/tessari-bench/examples/relevance.rs:262-280 | An answer scores nothing if and only if no page of it has a positive grade |
| `Lists.MentionsAreAll` | crates/tessari-bench/examples/relevance.rs:236-250 | Deduplication keeps every name once |
| `Lists.SortDownSorts` | crates/tessari-bench/examples/relevance.rs:270-271 | The grades highest first, as a permutation |
| `Baselines.ParsesBackIffLegible` | crates/tessari-bench/src/baseline.rs:216-329 | Parsing what was rendered gives the baseline back if and only if no header value holds a line feed or ends in a return and no name in a row holds a tab or a line feed |
| `Layouts.BaselineLayout` | crates/tessari-bench/src/baseline.rs:216-232 | The file's first line by its text, then the eight headers by key and value in their order |
| `Layouts.ColumnsLayout` | crates/tessari-bench/src/baseline.rs:219-223 | The line above the rows names their eight columns |
| `Layouts.RowLayout` | crates/tessari-bench/src/baseline.rs:233-248 | A row is its names and the two spreads, each by median, lowest and highest, between tabs |
| `Layouts.RowReadsIff` | crates/tessari-bench/src/baseline.rs:293-322 | A row reads if and only if it has eight cells between tabs and the last six are numbers a word holds |
| `Layouts.ParsedIsInRange` | crates/tessari-bench/src/baseline.rs:250-291 | What reads as a baseline has the first line's text, ten lines of head and numbers of their widths |
| `Baselines.Render` | crates/tessari-bench/src/baseline.rs:216-250 | The file is the header lines, the columns and one row a phase |
| `Baselines.Parse` | crates/tessari-bench/src/baseline.rs:253-329 | Reading a text line by line, refusing at the first header, number or row that is wrong |
| `Comparisons.SelfComparisonIsClean` | crates/tessari-bench/src/baseline.rs:152-201 | A baseline compared with itself has no breach, nothing unchecked and every phase compared |
| `Comparisons.FoldedIsWellFormed` | crates/tessari-bench/src/baseline.rs:107-145 | Whatever the runs were, folding gives each phase once with its range the right way round |
| `Comparisons.SpreadIsTheRange` | crates/tessari-bench/src/baseline.rs:137-145 | The median is one of the values, and the range holds all of them and reaches no further |
| `Breaches.MedianIsInTheMiddle` | crates/tessari-bench/src/baseline.rs:136-145 | Of n values the median is one of which no more than (n - 1) / 2 are below and no more than n / 2 above |
| `Breaches.MeasuredComesFrom` | crates/tessari-bench/src/baseline.rs:118-134 | Every value folded for a phase is what some run that times it took, saturated at the largest word |
| `Breaches.BreachIff` | crates/tessari-bench/src/baseline.rs:162-192 | A breach is reported if and only if the conditions agree and, at its percentile and by that percentile's limit, the fastest run of the first phase of its name now is past the share of the baseline's median, past its slowest run, and past the floor |
| `Breaches.UncheckedIff` | crates/tessari-bench/src/baseline.rs:152-201 | What is said to be unchecked is exactly other conditions, or each phase one side has and the other has not |
| `Comparisons.UncheckedIsNeverAPass` | crates/tessari-bench/src/baseline.rs:152-201 | Nothing is left unchecked exactly when the conditions agree and each side has every phase of the other |
| `Comparisons.BreachMeansEveryRunIsSlower` | crates/tessari-bench/src/baseline.rs:203-213 | A breach between folded runs says every run of that phase measured now was slower than every run of it the baseline saw |
| `Comparisons.Compare` | crates/tessari-bench/src/baseline.rs:152-201 | The two loops give the comparison the fold does |
| `Comparisons.Folded` | crates/tessari-bench/src/baseline.rs:107-134 | The loop folds each phase mentioned, in order of first mention |

## Left out

- PushedStream.Following.Apply: what a refused round leaves applied is not modelled (the follower keeps the logs it had), because no run reaches a refusal (`PushedPromises.FollowerIsAPrefix`).
- Stores.Store.RestoreRecordIn: whether a record sent again to a held position is a repeat or a divergence, and whether the schema admits a new one, are parameters, because both are decided by the storage engine.
- Elections, leases, voting, greeting and collection cursors: the deciding logic is spread over the wire and storage crates and is a project of its own.
- State snapshots (`crates/tessari-backup/src/state.rs`): a second format with its own frames.
- The record codec: a record is its canonical encoded bytes and decoding is a parameter; lemmas that need it ask that the file's records decode to themselves.
- Store internals: pruning, schema versions, followers and grants. A log is dense and starts at one; what is admitted, and what a repeat of a held position means, are parameters.
- Counters that saturate at the largest `u64`: logs are taken to stay below it (`Writing.Grows`), so `saturating_add` is plain addition.
- Failures of the output stream while writing: each frame is written whole to a sink that accepts it.
- The pushed stream's byte budgets, record limits, certificates, `Uncollectable` and `Unsubscribed` answers, adoption into the line and shutdown: each only ends the stream or shortens a round, and a round may already be any non-empty cut.
- The heartbeat's timer: a beat is taken to be cut at the moment the commit signal was last seen unchanged.
- The plain (asked-for) stream `follow`: one round in flight and no restart, the easy case of the pushed one.
- The writer-order rule itself: the model lets any prefix of each answer through, which covers it.
- Memory ordering and the allocator: each atomic operation is one step.
- Timing, prompts, rendering, line editing and the command table of the session; the secret prompt is a turn like any other.
- Floating point: NDCG is over the reals, and `log2` is any positive falling discount.
- Error payloads beyond what a caller branches on: offsets, names and message texts.
- Files, renames, sealing, encryption, TLS, signals and logging.
