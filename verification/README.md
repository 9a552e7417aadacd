# Verified model of worthless

This project models the parts of worthless that must not go wrong silently, and proves what they keep:
the command lock and the minting of the key under it, the rewrite of `.env` files, the line-preserving
`.env` parser and printer, the OpenClaw configuration with its undo and rollback records, key splitting,
the IPC client, the skill install and log redaction. `dafny verify dfyconfig.toml` checks all of it.

How the source's forms are modelled:

* Protocols between processes (`LockProtocol`, `RewriteProtocol`, `ConfigProtocol`, `IpcClient`) are step
  machines: a state, one label for each system call, and a total function from a state and a label to the
  next state. A result holds for every list of labels, so for every interleaving, with a crash or a failure
  possible at every step. Inode numbers are reused as soon as nothing names or holds the old inode.
* Code that changes things step by step (`LockFile`, `Keystore`, `SafeRewrite`, `DotenvFile`, `DotenvRefs`,
  `OpenclawFile`, `OpenclawUndo`, `OpenclawUnlock`, `KeySplitting`, `Framing`, `SkillInstall`, and the client
  in `IpcClient`) is imperative: the source's fields and loops, each method proved against a specification.
  Calls that may fail do so nondeterministically. Where others may act between two calls, a method stands
  for them, and the contracts say what this process did and what it did not.
* Expressions and recursion (`Text`, `DotenvLines`, `DotenvAssignment`, `OpenclawRollback`, `Redaction`) are
  functions and lemmas.

Modules: `Text`, `DotenvLines` (splitting), `DotenvAssignment` (the value span), `DotenvStructure` (updated
lines stay lines), `DotenvRewrite` (re-parsing), `DotenvFile` (the whole call), `DotenvSnapshot` and
`DotenvRefs` (snapshots and references), `EnvWriters` (concurrent rewrites in terms of lines), `RewriteGates`
and `SafeRewrite` (one rewrite), `RewriteProtocol` (many), `Keystore`, `LockProtocol`, `LockFile`, `LockReach`
(the bad states are reached), `Json`,
`OpenclawConfig`, `ConfigProtocol`, `OpenclawFile`, `OpenclawUndo`, `OpenclawRollback`, `OpenclawUnlock`,
`KeySplitting`, `Framing`, `IpcClient`, `SkillInstall`, `Redaction`, and `Common`.

What the proofs turned up, each stated as a lemma with its exact condition or a whole failing family:

* A keyring read that fails while the keyring alone holds the key reads as "no key" and leads to a second
  mint (`Keystore.NotFoundIsHonest`, `LockProtocol.ExactlyWhenSecondMint`, `LockReach.SecondMintIsReached`).
* A key stored in the file because the keyring write failed is not the one read while the keyring holds
  another (`Keystore.StoredKeyIsRead`).
* `_validate_value` lets two kinds of values through that do not read back: an odd number of trailing
  backslashes into a quoted line, and the empty value in front of an inline comment
  (`DotenvAssignment.ReadsBackExactly`). The comment in the source promises that it rejects values that
  corrupt on read-back.
* A lone CR at the end of an unquoted line is lost in an update, and one at the end of any line can be joined
  with an LF that a removal or an addition puts behind it; additions behind an open quote are swallowed
  (`DotenvRewrite.ReparsesExactly`, `DotenvRewrite.LoneCrIsLost`).
* A mark in the middle of a file becomes its byte order mark when the lines before it are removed
  (`DotenvFile.ContentIsReadBack`, `DotenvFile.UncoveredExample`).
* A JSON null, or a missing providers object, keeps set-then-revert from being the identity
  (`OpenclawConfig.SetThenRevert`); the undo can lose a null with nobody else around, and any entry that is no
  object if somebody replaced it meanwhile (`OpenclawUndo.UndoneExactly`, `OpenclawUndo.UndoneAloneExactly`).
* A JSON null on the way to the providers makes unlock raise what it does not catch, where its documentation
  promises events instead of exceptions: it restores no cache and zeroes no key buffer
  (`OpenclawUnlock.ApplyUnlock`, `OpenclawUnlock.WhenItCrashes`); its caller in `cli/commands/unlock.py` zeroes.
* The rollback of an unlock overwrites what others have written since the snapshot
  (`OpenclawUnlock.RollbackOverwrites`, `OpenclawUnlock.OthersAreLost`).
* A restored entry gains an `apiKey` if it had none (`OpenclawRollback.RecordRoundTrip`).
* A task cancelled while it waits lets a later request raise its error (`IpcClient.CancelledErrorCrossesExactly`),
  and one cancelled in the middle of a frame leaves the stream out of step (`IpcClient.MidFrameExactly`): only a
  timeout gives the connection up.
* A key split between a log template and its arguments is whole again when the message is rendered; which
  templates allow it is exact (`Redaction.RenderedExactly`, `Redaction.SplitKeyIsJoined`). An exception text
  cached before the filter stays as it is (`Redaction.LogRecord.Filter`).

## Model

| member | source | states |
|---|---|---|
| `LockProtocol.AtMostOneHolder` | src/worthless/cli/bootstrap.py:743-946 | Over every run of any number of acquirers, reclaimers and crashes: at most one live process is between create and release, and the path names the very inode it created. Assumes only that a holder without its flock is done before its file is 300 s old |
| `LockProtocol.SafeRunKeepsInv` | src/worthless/cli/bootstrap.py:833-946 | The inductive invariant (owner's inode is what the path names, a condemned inode has no owner, a flock has a live holder) survives every run without an age test that condemns a live owner's file |
| `LockProtocol.TimelyRunIsSafe` | src/worthless/cli/bootstrap.py:895-912 | The 300-second assumption rules out exactly that one bad step |
| `LockProtocol.ExactlyWhenTwoHolders` | src/worthless/cli/bootstrap.py:833-868 | The assumption is exact: from an age test, the reclaimer's next steps end with two owners if and only if the test condemns a file whose live owner has no flock |
| `LockReach.TwoHoldersAreReached` | src/worthless/cli/bootstrap.py:895-946 | That state is reached from a fresh home: a command that could not get its flock and works for more than 300 s, and one more command, end as two owners |
| `LockProtocol.CondemnedFileIsReclaimed` | src/worthless/cli/bootstrap.py:936-946 | An old file that the path names is gone after the reclaim, whoever still uses it |
| `LockProtocol.StampedMeansDead` | src/worthless/cli/bootstrap.py:915-933 | What the callers of `_holder_is_dead` rely on: a file whose flock could be taken and which carries this host's name has no live owner |
| `LockProtocol.StampReadsBack` | src/worthless/cli/bootstrap.py:773-930 | A stamp, even one written in part, is recognised on its own host if and only if the whole hostname got into the first 256 bytes |
| `LockProtocol.OwnersKeepThePath` | src/worthless/cli/bootstrap.py:936-946 | What the callers of `_unlink_if_same_file` rely on: as the file it is given has no live owner, the path a live owner created is another file's and is not freed |
| `LockProtocol.AtMostOneMint` | src/worthless/cli/bootstrap.py:380-425 | Over every interleaving of first runs, stale-marker repairs and row-writing commands with a truthful key store: at most one fresh key, none while an enrollment exists, and the store answers with that key from then on |
| `LockProtocol.ExactlyWhenSecondMint` | src/worthless/cli/bootstrap.py:490-504 | Truthfulness is exact: once a key was minted, a probe and a mint store a second one if and only if the probe's keyring read failed while the keyring alone held the key |
| `LockReach.SecondMintIsReached` | src/worthless/cli/bootstrap.py:380-425 | Two mints are reached from a fresh home with a working keyring: a first run that dies before its marker is written, and another whose keyring read fails |
| `LockFile.LockFile.CheckStaleLock` | src/worthless/cli/bootstrap.py:833-868 | Succeeds if and only if there is no file, or one without flock that is stamped by this host or over 300 s old; then the path is free, else nothing changed; a flock taken on the way is given back; equals the machine's steps of one process alone |
| `LockFile.LockFile.AcquireLock` | src/worthless/cli/bootstrap.py:743-773 | On success the path names a new inode of this process, flocked and stamped, or empty if the flock could not be had in two seconds; a busy lock changes nothing; no flock only after two seconds or where there is none; a stamp whose write raised takes the new file away again unless the unlink raised too; equals the machine's steps in each case |
| `LockFile.LockFile.TakeOwnFlock` | src/worthless/cli/bootstrap.py:895-912 | The retry loop ends with the flock, or with the file as it was; it gives up only when two seconds are over or flock is not supported |
| `LockFile.LockFile.ReleaseLock` | src/worthless/cli/bootstrap.py:774-786 | For a holder with its flock or without: the flock is free even if the unlink raises, and else the path is free; the path is kept if and only if an unlink raised; as in the machine's release |
| `LockFile.AloneIsRun` | src/worthless/cli/bootstrap.py:743-868 | What the methods do is a run of the step machine, so the results about runs cover them |
| `Keystore.NotFoundIsHonest` | src/worthless/cli/keystore.py:385-441 | A missing-key answer means that no consultable backend holds a key, if and only if the keyring did not fail while it alone held one |
| `Keystore.MigrationPreservesKey` | src/worthless/cli/keystore.py:143-190 | File-to-keyring migration, whatever fails, leaves the key that reads answer with unchanged, in both read orders |
| `Keystore.StoredKeyIsRead` | src/worthless/cli/keystore.py:112-140 | A stored key is read back if and only if no other environment value overrides it and, where the keyring write failed, the keyring holds no other key |
| `Keystore.KeyStore.ReadFernetKey` | src/worthless/cli/keystore.py:385-441 | The backend order as code refines the lookup the protocol runs on |
| `Keystore.KeyStore.StoreFernetKey` | src/worthless/cli/keystore.py:112-140 | The keyring, else the file; a successful keyring write drops the stale file unless that fails |
| `Keystore.KeyStore.MigrateFileToKeyring` | src/worthless/cli/keystore.py:143-190 | Returns true exactly when the key has left the file for the keyring, and refines the migration the protocol runs on |
| `RewriteProtocol.CommitsFormAChain` | src/worthless/cli/safe_rewrite.py:712-801 | For any number of concurrent writers with failing calls, crashes and inode reuse: each commit replaces exactly the content its caller read, which is what the previous commit left |
| `RewriteProtocol.NoLostUpdate` | src/worthless/cli/safe_rewrite.py:480-538 | If each caller derives its content from what it read, the file is at any moment the initial content with all successful updates applied in the order of the renames |
| `RewriteProtocol.ChainReplays` | src/worthless/cli/safe_rewrite.py:743-801 | A chain of commits is the same as replaying the updates one after the other |
| `RewriteProtocol.StepKeepsTarget` | src/worthless/cli/safe_rewrite.py:743-856 | No step of any writer but a rename changes what the target shows, a crash included |
| `RewriteProtocol.RenameExtendsChain` | src/worthless/cli/safe_rewrite.py:648-675 | A rename shows the complete new content, in place of exactly what its caller had derived it from |
| `RewriteProtocol.StepKeepsInv` | src/worthless/cli/safe_rewrite.py:627-675 | Every step keeps the invariant: flock held, baseline unchanged, recheck still valid, temporary file private and complete |
| `EnvWriters.EveryRequestCounts` | src/worthless/cli/dotenv_rewriter.py:923-992 | With `rewrite_env_keys` as the update: the file is the initial one with every committed request applied, in commit order |
| `EnvWriters.LastRequestShows` | src/worthless/cli/dotenv_rewriter.py:967-992 | The last committed request shows in the parsed file line by line as it was meant, on top of all earlier ones, if and only if it puts no addition behind an open quote, leaves no lone CR in the way and uncovers no mark |
| `SafeRewrite.SafeRewriteCore` | src/worthless/cli/safe_rewrite.py:712-856 | One call, any call failing, others interfering anywhere: the target shows the complete new content once and only on success; otherwise this call left it alone and it shows the same inode and bytes unless others acted; descriptors and flock as before; no name left unless a call of unlink failed; success means one fstat, one flock and one hook took place, every gate passed on exactly what read returned, and unless others acted after the moment the hook ended, the call replaced the very inode it had locked, with the mode fstat had shown (or a link, which `stat` cannot tell from it) |
| `SafeRewrite.TryAndClean` | src/worthless/cli/safe_rewrite.py:751-856 | The `try`, `except` and `finally` clauses together: same promises from the opened file on |
| `SafeRewrite.PreOpenGates` | src/worthless/cli/safe_rewrite.py:736-748 | Nothing happens before the gates pass: platform, file system, basename, user argument, no link or special file, containment, one inode with one name; names are refused with their own reason |
| `SafeRewrite.OpenAndLock` | src/worthless/cli/safe_rewrite.py:373-409 | Goes on only with the regular inode that lstat saw, open and flocked |
| `SafeRewrite.ReadExisting` | src/worthless/cli/safe_rewrite.py:412-433 | Short reads included, the result is the file's content up to the size, unless others changed it meanwhile |
| `SafeRewrite.CreateTmp` | src/worthless/cli/safe_rewrite.py:552-572 | A new empty private file under one of three random names, or a refusal that leaves none |
| `SafeRewrite.WriteAll` | src/worthless/cli/safe_rewrite.py:575-586 | Short writes included, success means the file holds exactly the content |
| `SafeRewrite.WriteTemp` | src/worthless/cli/safe_rewrite.py:767-780 | Goes on only with the complete content in a closed file of its own |
| `SafeRewrite.AtomicReplace` | src/worthless/cli/safe_rewrite.py:648-675 | Either the target has become the staged file in one rename, or it was not touched; after a first rename refused as unsupported, a change of the target up to then is noticed |
| `SafeRewrite.Commit` | src/worthless/cli/safe_rewrite.py:782-833 | Hook, recheck, stage, rename: success is one commit, anything else leaves the target untouched; a change of the target up to the moment the hook ends is noticed and refused |
| `SafeRewrite.ContentGates` | src/worthless/cli/safe_rewrite.py:480-538 | Goes on only if every content gate passes on exactly the bytes read returned, and they are the file's content unless others acted meanwhile |
| `SafeRewrite.CloseFds` | src/worthless/cli/safe_rewrite.py:678-704 | Whatever is open or locked is closed and released, and nothing else |
| `SafeRewrite.DropNames` | src/worthless/cli/safe_rewrite.py:835-852 | The temporary file is gone under both its names unless a call of unlink failed |
| `RewriteGates.PassedMeans` | src/worthless/cli/safe_rewrite.py:461-538 | A rewrite that passes is within the size and line limits, looks like dotenv, matches its baseline, and outside recovery grows a single entry of five bytes or more at most four times, blank padding or not |
| `RewriteGates.PaddingDoesNotCount` | src/worthless/cli/safe_rewrite.py:446-458 | Blank lines behind a file do not change its data-line count |
| `RewriteGates.LineCountIsLines` | src/worthless/cli/safe_rewrite.py:436-443 | Counting LFs counts the physical lines of every text with LF and CRLF line ends |
| `DotenvLines.SplitIsLossless` | src/worthless/cli/dotenv_rewriter.py:220-289 | Splitting any buffer and serializing the lines is the identity |
| `DotenvLines.ParseJoin` | src/worthless/cli/dotenv_rewriter.py:220-284 | A text that ends with a line end and leaves no quote open is parsed independently of what follows |
| `DotenvLines.SameHeadSameKey` | src/worthless/cli/dotenv_rewriter.py:163-181 | The text up to the first `=` alone decides the key and the export flag |
| `DotenvLines.KeyNeedsEquals` | src/worthless/cli/dotenv_rewriter.py:163-181 | A line that sets a key has an `=` |
| `DotenvLines.ValueOpensUnclosedQuote` | src/worthless/cli/dotenv_rewriter.py:184-217 | The scan loop computes the quote predicate the results are about |
| `DotenvLines.SplitLogicalLines` | src/worthless/cli/dotenv_rewriter.py:220-284 | The nested loops compute the grouping the results are about |
| `DotenvAssignment.ScannersAgree` | src/worthless/cli/dotenv_rewriter.py:184-217 | On every assignment the two quote scanners agree: `_split_assignment` cuts the line without inventing a quote if and only if the value is closed |
| `DotenvAssignment.ReadsBackExactly` | src/worthless/cli/dotenv_rewriter.py:311-392 | Writing a validated value and splitting again gives the same head and tail with the new value between, if and only if (quoted line) it ends in an even number of backslashes, or (unquoted) it is non-empty or no comment follows |
| `DotenvAssignment.ReadsBackCloses` | src/worthless/cli/dotenv_rewriter.py:380-392 | An updated line that reads back leaves no quote open |
| `DotenvAssignment.RebuildTwice` | src/worthless/cli/dotenv_rewriter.py:380-392 | A second update gives what it would have given on the original line |
| `DotenvAssignment.CutAssignment` | src/worthless/cli/dotenv_rewriter.py:311-377 | The loops of `_split_assignment` compute the cut the results are about |
| `DotenvAssignment.SettledIffEven` | src/worthless/cli/dotenv_rewriter.py:348-362 | No escape is pending behind a value if and only if it ends in an even number of backslashes |
| `DotenvAssignment.CommentAfterValue` | src/worthless/cli/dotenv_rewriter.py:364-377 | A valid value written before a comment is separated from it at the same place |
| `DotenvStructure.KeptOnOneLine` | src/worthless/cli/dotenv_rewriter.py:263-362 | What an update keeps of a logical line, however many physical lines it spans, holds no line end but one at its very end |
| `DotenvStructure.UpdatedAlone` | src/worthless/cli/dotenv_rewriter.py:311-392 | An updated line is one physical line, parsed as the same key with the same export flag |
| `DotenvStructure.EndIsLostExactly` | src/worthless/cli/dotenv_rewriter.py:329-339 | An update loses a line's end if and only if that end is a lone CR which counts to the value: the line is unquoted without a comment, or its quote is open |
| `DotenvStructure.ParseWellFormed` | src/worthless/cli/dotenv_rewriter.py:220-284 | Every buffer is parsed into lines that are each parsed as themselves, and whose ends do not go on in the next line; only the last may leave a quote open |
| `DotenvStructure.ReparseIffWellFormed` | src/worthless/cli/dotenv_rewriter.py:287-289 | A list of lines, serialized, is parsed into itself if and only if it has that shape |
| `DotenvRewrite.ReparsesExactly` | src/worthless/cli/dotenv_rewriter.py:967-978 | For every buffer, whatever its line ends: what `rewrite_env_keys` writes is parsed into exactly the lines it meant, if and only if no line with an open quote comes before an added one, every line that stays before another keeps its end apart from it, and no CRLF is added behind a CR |
| `DotenvRewrite.NoLoneCrsStay` | src/worthless/cli/dotenv_rewriter.py:967-978 | Where all line ends are LF and CRLF, the last two always hold |
| `DotenvRewrite.RewriteKeepsStructure` | src/worthless/cli/dotenv_rewriter.py:967-978 | The output's lines are the file's minus removals in order, each untouched byte for byte or with the same head and tail around the new value, then the additions in order |
| `DotenvRewrite.FirstLineEndDecides` | src/worthless/cli/dotenv_rewriter.py:135-146 | The line end for added lines is CRLF if and only if the first newline of the file has a CR before it |
| `DotenvRewrite.LoneCrIsLost` | src/worthless/cli/dotenv_rewriter.py:329-339 | A failing family: an unquoted line without a comment that ends in a lone CR and has text behind it, updated, is joined with the next line, and the file is not read as it was meant |
| `DotenvFile.MarkComesFirst` | src/worthless/cli/dotenv_rewriter.py:149-160 | What is written begins with a mark if and only if the first line that is not removed does |
| `DotenvFile.ContentIsReadBack` | src/worthless/cli/dotenv_rewriter.py:923-992 | Byte order mark included, what is written is read back as the meant lines if and only if nothing is swallowed, no lone CR is in the way, and the first line that stays does not uncover a mark |
| `DotenvFile.UncoveredExample` | src/worthless/cli/dotenv_rewriter.py:149-160 | It does happen: `A=1` in front of a line that begins with a mark, and A removed |
| `DotenvFile.RewriteIsReadBack` | src/worthless/cli/dotenv_rewriter.py:923-992 | Whenever a rewrite is not refused: the file it leaves is parsed into the meant lines exactly under that condition, every updated name existed, and no value that had to go is in it |
| `DotenvFile.LineList.ApplyUpdates` | src/worthless/cli/dotenv_rewriter.py:775-787 | In-place update of the line list, and exactly the names that were not found |
| `DotenvFile.LineList.AppendAdditions` | src/worthless/cli/dotenv_rewriter.py:790-801 | In-place append, the last line's end made sure of first |
| `DotenvFile.RewriteEnvKeys` | src/worthless/cli/dotenv_rewriter.py:923-992 | The whole call as code: content to write, no write, or the refusal |
| `DotenvSnapshot.LockUnlockRoundTrip` | src/worthless/cli/dotenv_rewriter.py:837-906 | Overwriting `*_BASE_URL` values assigned once and appending lines, then writing back the snapshot's values and dropping the lines, restores the file byte for byte if and only if no overwritten unquoted value had trailing blanks and the file ended with a line end if lines were appended |
| `DotenvSnapshot.UnlockRestoresExactly` | src/worthless/cli/dotenv_rewriter.py:923-992 | The same for any values: byte for byte if and only if each value written back is the one the line had |
| `DotenvSnapshot.LastLineDecides` | src/worthless/cli/dotenv_rewriter.py:892-904 | A snapshot keeps a name exactly if the value on its last line can be written back, and then that value |
| `DotenvSnapshot.OwnValueReadsBack` | src/worthless/cli/dotenv_rewriter.py:877-906 | What a snapshot keeps of a line reads back from that line |
| `DotenvRefs.ReadEnvSnapshot` | src/worthless/cli/dotenv_rewriter.py:877-906 | The loop keeps the values and references of the last line of each name |
| `DotenvRefs.NamesReached` | src/worthless/cli/dotenv_rewriter.py:865-874 | Ends on every reference graph, cycles included, with the least set closed under references that holds the value's names |
| `OpenclawConfig.OnlyItsOwnProvider` | src/worthless/openclaw/config.py:326-516 | On a readable file no operation changes another provider's entry, nor anything at the top, inside models or inside agents but the providers and the default agent's primary model, which only one operation changes; the file stays readable |
| `OpenclawConfig.CrashesOnNull` | src/worthless/openclaw/config.py:293-299 | A write crashes on a document if and only if models, or providers in it, is there as a JSON null |
| `OpenclawConfig.EffectOnSlot` | src/worthless/openclaw/config.py:326-516 | The whole-file operation does to its own entry exactly what the operation on a single entry does |
| `OpenclawConfig.SetThenRevert` | src/worthless/openclaw/config.py:463-497 | Set, then compare-and-swap revert, gives the very same document if and only if the file and its providers object existed and the entry was not a JSON null, or the set was refused |
| `ConfigProtocol.Linearizable` | src/worthless/openclaw/config.py:188-290 | In every interleaving with crashes anywhere the document is the logged operations applied in order, each answered as alone; an answered operation is in the log unless it reports that it did not happen |
| `ConfigProtocol.OldOrNew` | src/worthless/openclaw/config.py:236-290 | A step leaves the old document or a complete operation's document; a crash changes nothing |
| `ConfigProtocol.ProvidersAreIndependent` | src/worthless/openclaw/config.py:326-516 | Each provider's entry after a history depends on the operations on that provider alone |
| `OpenclawFile.ConfigFile.SetUnderLock` | src/worthless/openclaw/config.py:360-382 | The in-place dictionary change has the specified effect, or the write failed and nothing changed |
| `OpenclawFile.ConfigFile.UnsetUnderLock` | src/worthless/openclaw/config.py:395-404 | Likewise for removing an entry |
| `OpenclawFile.ConfigFile.ReplaceUnderLock` | src/worthless/openclaw/config.py:511-516 | Likewise for replacing an entry wholesale |
| `OpenclawFile.ConfigFile.RepointUnderLock` | src/worthless/openclaw/config.py:420-432 | Likewise for the default agent's primary model |
| `OpenclawFile.ConfigFile.RevertUnderLock` | src/worthless/openclaw/config.py:482-497 | Likewise for the compare-and-swap revert |
| `OpenclawUndo.InterruptIsUndone` | src/worthless/openclaw/integration.py:1313-1356 | For every readable snapshot, wherever the loop was cut and whatever others do: after a complete undo every planned provider whose entry was absent or an object shows it, or the new one if it was ours already, or what somebody else changed it to; others are untouched by this process |
| `OpenclawUndo.UndoneExactly` | src/worthless/openclaw/integration.py:1313-1356 | The condition is exact: every run and every cut ends like that for a provider if and only if its entry was absent or an object |
| `OpenclawUndo.UndoneAloneExactly` | src/worthless/openclaw/integration.py:1313-1356 | With nobody else around it ends like that if and only if the entry was no JSON null |
| `OpenclawUndo.NullEntryIsLost` | src/worthless/openclaw/integration.py:1340-1354 | A JSON null is overwritten by the lock and removed by the undo, with nobody else around |
| `OpenclawUndo.InterruptedLock` | src/worthless/openclaw/integration.py:1268-1307 | The cut loop and its undo as code: if the loop was interrupted, no lock or write of this process failed and no revert was refused, every planned provider whose entry was absent or an object ends like that; without an interrupt nothing is reverted and no write met a null |
| `OpenclawUndo.UndoOwnProviderWrites` | src/worthless/openclaw/integration.py:1313-1356 | Only reverts of planned, not already-ours providers are done; it reports success if and only if no lock or write failed and no revert was refused, and then every one of them was done |
| `OpenclawUndo.LockProviders` | src/worthless/openclaw/integration.py:1165-1257 | Wherever it is cut, by an interrupt or by the exception of a JSON null, the loop has only set planned entries; a failed write ends it, and so does a JSON null |
| `OpenclawUndo.OddEntryIsLost` | src/worthless/openclaw/integration.py:1352-1352 | Any entry that is no object (null, string, number, boolean, array) is lost by the undo if somebody replaced it by an object before the lock wrote |
| `OpenclawRollback.RedactIsComplete` | src/worthless/openclaw/integration.py:125-167 | Nothing that looks like a secret survives redaction, at any depth, in values or keys |
| `OpenclawRollback.RedactKeepsClean` | src/worthless/openclaw/integration.py:125-167 | Redaction changes nothing if and only if there is nothing to redact |
| `OpenclawRollback.RecordRoundTrip` | src/worthless/openclaw/integration.py:209-301 | A record with a matching tag, parsed and with the key put back, is the original entry if and only if the entry had that key or a pointer and nothing else looked like a secret |
| `OpenclawRollback.RecordIsSafe` | src/worthless/openclaw/integration.py:248-301 | A record under another record's tag is refused; no record shows a secret or depends on the inline key |
| `OpenclawRollback.RelocksKeepTheOriginal` | src/worthless/openclaw/integration.py:307-373 | Over any history of locks, edits and deletions the row is the record of the last non-proxy entry seen at a lock, or empty if there was none; never a proxy-shaped one |
| `OpenclawUnlock.ApplyUnlock` | src/worthless/openclaw/integration.py:2743-2922 | What it reports is what it did: exactly the records' writes in order, and a rollback exactly after a write that failed. A rolled-back unlock leaves what the snapshot was read from, untouched caches and nothing reported restored; caches are tried exactly for the providers not blocked, or for all if Stage A never ran. Every failed lock or write is accounted for. Past the first two gates all key buffers end zero, unless an exception that nothing catches leaves buffers and caches as they were; that happens if and only if a write meets a null on the way to the providers, which, if nobody interferes, the file and the records before the call decide |
| `OpenclawUnlock.CrashIsMet` | src/worthless/openclaw/integration.py:2609-2636 | The uncaught exception is raised if and only if a write reaches a file with such a null |
| `OpenclawUnlock.WhenItCrashes` | src/worthless/openclaw/integration.py:2609-2636 | Over a whole unlock, from its history; and if nobody interferes and no lock or write fails, from the file before it and whether any record asks for a write |
| `OpenclawUnlock.NullFilesCrash` | src/worthless/openclaw/config.py:293-299 | Two such files: models null, and models.providers null |
| `OpenclawUnlock.RollbackOverwrites` | src/worthless/openclaw/integration.py:1021-1046 | The rollback takes no flock: every provider shows what it showed when the snapshot was read, so what others did since survives if and only if it made no difference; what nobody worked on since is kept |
| `OpenclawUnlock.OthersAreLost` | src/worthless/openclaw/integration.py:1021-1046 | Any entry somebody else writes after the snapshot is lost when the first write of the records fails and the rollback follows, unless it is what the snapshot shows |
| `OpenclawUnlock.StageA` | src/worthless/openclaw/integration.py:2504-2660 | Fails closed: its operations are exactly the writes the records ask for, in order, up to the first failure; restored and blocked are exactly what those operations and the refused records say |
| `OpenclawUnlock.RestoreProviders` | src/worthless/openclaw/integration.py:2845-2876 | Snapshot, Stage A and rollback: the snapshot is what was read when only others had run, Stage A runs if and only if that read was not refused, and a reported rollback has put the snapshot back |
| `OpenclawUnlock.RestoreCaches` | src/worthless/openclaw/integration.py:2690-2731 | Exactly the eligible providers with a readable key are tried, in order, and only they can get plaintext |
| `OpenclawUnlock.ZeroAll` | src/worthless/openclaw/integration.py:2728-2731 | All key buffers are zero, aliased or not |
| `OpenclawUnlock.TakeSnapshot` | src/worthless/openclaw/integration.py:2132-2159 | The snapshot is what a read returns, and Stage A is skipped if and only if this user may not read the file |
| `KeySplitting.SplitKeyFp` | src/worthless/crypto/splitter.py:104-154 | Whatever the masks, shard-A has the key's prefix, length and charset, shard-B the body's length and charset, and combining them gives the key; refusals as specified |
| `KeySplitting.DeriveCombine` | src/worthless/crypto/splitter.py:157-197 | Deriving shard-A and reconstructing are inverses of each other for every key, prefix, mask and charset |
| `KeySplitting.ShardsGiveBody` | src/worthless/crypto/splitter.py:126-141 | Shard-A stays in the charset and with shard-B gives the body back |
| `KeySplitting.ShardBIsOneToOne` | src/worthless/crypto/splitter.py:126-141 | For a fixed shard-A, shard-B values and bodies are in bijection |
| `KeySplitting.DetectCovers` | src/worthless/crypto/splitter.py:52-75 | A charset is found if and only if all is printable; it covers the body; and it is the smallest that does, unless the provider's own covers the body and is not |
| `KeySplitting.ReconstructKeyFp` | src/worthless/crypto/reconstruction.py:47-104 | Succeeds if and only if the shards combine and the commitment matches; every failure leaves the buffer all zero |
| `KeySplitting.FillBody` | src/worthless/crypto/reconstruction.py:87-102 | The guarded loop writes prefix and body, or leaves the buffer all zero on a character outside the charset |
| `KeySplitting.ReconstructKey` | src/worthless/crypto/reconstruction.py:107-130 | The byte-level form of the same |
| `KeySplitting.XorIsOneToOne` | src/worthless/crypto/splitter.py:200-230 | With any mask the key comes back, and one shard with the key fixes the other |
| `Framing.FramesRoundTrip` | src/worthless/ipc/framing.py:66-152 | Any list of in-bound envelopes, written one after the other, decodes to the same list with the remaining bytes untouched |
| `Framing.PrefixIsTruncated` | src/worthless/ipc/framing.py:105-126 | Every strict prefix of a frame is rejected as truncated |
| `Framing.FrameReadsBack` | src/worthless/ipc/framing.py:66-126 | A frame reads back for every payload up to the limit, except the empty one, which is malformed |
| `Framing.HeaderRoundTrip` | src/worthless/ipc/framing.py:87-111 | The big-endian length survives the header |
| `Framing.Stream.ReadEnvelope` | src/worthless/ipc/framing.py:90-152 | Reading step by step from the stream gives the same result and leaves the same rest |
| `IpcClient.NoCrossTalk` | src/worthless/ipc/client.py:289-360 | Over bytes read header first and body second, with an in-order server, any number of tasks and timeouts anywhere, no request returns or raises another request's reply |
| `IpcClient.ReturnsAreOwn` | src/worthless/ipc/client.py:310-320 | Even with cancelled tasks, what is returned is the answer to the task's own request, provided no task is cancelled between a header and its body |
| `IpcClient.MidFrameExactly` | src/worthless/ipc/client.py:332-346 | If one is, the next request reads the rest of the cancelled reply as a frame; it returns what nobody answered to it if and only if that begins with a frame of its id and operation |
| `IpcClient.MidFrameIsRefused` | src/worthless/ipc/client.py:332-355 | With msgpack, whose maps begin with a byte of 128 or more, the next request fails instead |
| `IpcClient.CancelledErrorCrossesExactly` | src/worthless/ipc/client.py:303-309 | After a waiting task is cancelled, some later request can raise the error that answers the cancelled one, if and only if the connection is up and that answer is still to come or is an error |
| `IpcClient.CancelPointsAreReached` | src/worthless/ipc/client.py:289-360 | The states those results start from are reached from a fresh connection |
| `IpcClient.Client.Roundtrip` | src/worthless/ipc/client.py:322-355 | The reply is the one to this request; a timeout gives the connection up; nothing stays on the wire of a live connection |
| `IpcClient.Client.MakeRequest` | src/worthless/ipc/client.py:289-320 | What is returned or raised answers the id just allocated; without a connection it says so |
| `SkillInstall.Install` | src/worthless/openclaw/skill.py:116-219 | After every step, whatever fails or interrupts: the previous install is in place or aside, whole, or the new skill is in place; only whole folders are ever in place. With no other installer it succeeds unless something failed, and then the new folder is in place; after a failure the previous one is back (or the new one in) unless the rename back failed; the staging folder is gone unless its removal failed |
| `SkillInstall.SwapIn` | src/worthless/openclaw/skill.py:173-205 | The renames keep that, cut anywhere between them; the variables still tell the clean-up what to do |
| `SkillInstall.PutInPlace` | src/worthless/openclaw/skill.py:183-202 | Success means the new skill is in place, by this install or by a winner with the same skill |
| `SkillInstall.CleanUp` | src/worthless/openclaw/skill.py:102-113 | Staging is removed unless that fails; the previous install is renamed back if nothing is in place and that does not fail; what is in place stays |
| `SkillInstall.CopyAssets` | src/worthless/openclaw/skill.py:153-171 | Success means the staging folder is the complete shipped set |
| `Redaction.RedactionIsComplete` | src/worthless/cli/log_redaction.py:37-41 | Whatever the text, no key match is left after all four substitutions |
| `Redaction.ReplacingKeysCleans` | src/worthless/cli/key_patterns.py:17-23 | Leftmost substitution of the key pattern leaves no match |
| `Redaction.ReplaceKeepsClean` | src/worthless/cli/log_redaction.py:29-41 | Replacing any parts of a clean text by the bracketed literal keeps it clean |
| `Redaction.WholeKeyIsFound` | src/worthless/cli/key_patterns.py:17-23 | The key that is cut out reaches to the end of its run of word characters and dashes |
| `Redaction.MatchIsWholeRun` | src/worthless/cli/key_patterns.py:8-23 | Whichever prefix fits, a match is the whole run |
| `Redaction.InnocentIsKept` | src/worthless/cli/log_redaction.py:37-41 | A text in which nothing matches is logged unchanged |
| `Redaction.LogRecord.Filter` | src/worthless/cli/log_redaction.py:67-98 | Message, arguments and stack of a filtered record are the redacted ones and clean, and the arguments keep their shape; its exception text is clean if and only if an exception was pending, or the text cached before was clean |
| `Redaction.RenderedExactly` | src/worthless/cli/log_redaction.py:67-80 | Template and arguments are filtered one by one: the rendered message is clean for all arguments if and only if, in the template, no key has begun in front of a `%s`, and behind each `%s` the message ends or a character comes that no key contains |
| `Redaction.SplitKeyIsJoined` | src/worthless/cli/log_redaction.py:67-80 | A key split between a template that ends in its prefix and an argument with the rest passes the filter and is whole when rendered |

## Left out

Assumptions:

- Locks work as on one POSIX host: flock excludes and goes with its holder; Windows, NFS, other hosts' locks, and files that cannot be opened (the path-only age rule) are not modelled.
- The hostname contains no white space and is not empty where a stamp is compared, and flock exists: the branch for a filesystem without it is only in `LockFile.TakeOwnFlock`; the machine's clock may jump, only the age of a file without flock is assumed.
- A baseline hash stands for the content itself, a MAC for its record, a commitment for key and nonce: collisions do not happen. Randomness is arbitrary, but a random name is never in use already.
- rename(2) is atomic, and a call that fails has done nothing, except that write(2) and read(2) may be short and close(2) releases in any case.
- `.env` text is a sequence of characters of one type: decoding, the Latin-1 fallback and the case where text and bytes split into different numbers of lines are not modelled; white space is the Latin-1 range.
- The words that rollback records are made of are not secret-shaped, and letters and digits are word characters while brackets are not (`OpenclawRollback.Sane`, `Redaction.Sensible`).

Not modelled:

- `_safe_read_existing_bytes` beyond its lstat, open and fstat comparison: size limits and special files of that first read only refuse.
- `add_or_rewrite_env_key`, `remove_env_key`, `rewrite_env_key` and `copies_left_behind`: single-key forms of the same rewrite, and a search.
- `parse_variables` (which names a value refers to is a parameter) and `dotenv_values` (the `parsed` part of a snapshot).
- Shell-marker and python-dotenv sniffing in `safe_rewrite`: an opaque accept or refuse predicate. Realpath containment: its outcome is an input. F_FULLFSYNC and logging: no effect on the state.
- Interrupts between two statements in `safe_rewrite`: failing calls, hook exceptions and crashes are modelled instead.
- Editors that ignore the flock: the chain of commits is about cooperating writers; the single-writer result allows them.
- `ensure_home` beyond marker, lock and key: directories, permissions, sidecar validation and the database schema. A key file that is written only in part.
- Number syntax and floating point in JSON, key order within an object, and the text of openclaw.json: documents are values. When several keys redact to the same one, which value stays is left open.
- `_is_proxy_url`, the secret-shape rules and the adoption policy: predicates and choices; `detect`, legacy decoy migration, agent-store scrubbing, skill removal at unlock, and all event texts.
- `get_provider`, `unset_models_json_provider`, `scrub_agent_auth_stores` and `health_check`: same shapes as members that are modelled.
- UTF-8 in keys and shards: a key is a string of characters of one byte each.
- msgpack: packing and unpacking are abstract inverses. Handshake, `seal`, `open`, `attest` and `mac` only wrap `_request`.
- `secure_key`, `zero` methods and `repr` redaction of the result types.
- `uninstall`, `current_version` and the symlink refusals of the skill install; racing installers act only while the previous folder is aside.
- `install_redaction_filter`: which loggers get the filter. Log messages are rendered with plain `%s` only.
- The proxy, rules engine, spend ledger, command-line commands, scanners, MCP server and the website.

Weaker than it could be:

- OpenclawUnlock.ApplyUnlock: if the rollback itself fails, or there was no readable snapshot, the file is what all operations so far made of it, half restored, as in the source. Exceptions of the cache restore itself are not modelled: each attempt succeeds or does nothing.
- DotenvSnapshot.LockUnlockRoundTrip: stated for files whose line ends are LF and CRLF; a name whose last line ends in a lone CR outside quotes is never in a snapshot.
- SkillInstall.Install: a winner's folder counts as the new skill when its SKILL.md is the same, because that is all the source compares.
- SafeRewrite.SafeRewriteCore: which reason a refusal carries is stated for the gates on names; for the content gates `ContentGates` states it; in between, a refusal may also come from any failing call.
