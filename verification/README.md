# Fish, modelled in Dafny

Models of the parts of the fish shell that keep hard logic in plain code, and proofs of what they are for.
`dafny verify dfyconfig.toml` checks the whole project.

| part | modules | main results |
|---|---|---|
| Universal variables: several shells, one file | UvarProtocol, UvarSteps, UvarSync; EnvUniversal; UvarFormat | no update is lost, and a saved variable is left alone; callbacks describe a load exactly; printing and parsing a table, with the exact condition under which it comes back |
| History: several shells appending to and rewriting one file | HistoryProtocol, HistorySteps, HistoryKeeping, HistoryFile, HistoryDeletion; HistoryItems, HistoryLoops, HistoryObject | no item is lost, which ones a failed write or rename loses, and what is deleted is gone, over whole runs; the frontier survives compaction and deletion |
| The parser | TokenStream; Ast; Grammar, GrammarLists, GrammarYield; Populator, Parser; CanonicalCode, CanonicalSteps, CodeRoundTrip | parsing ends on every token sequence and panics on none; it gives the one tree the grammar reads from the tokens, or an error if there is none; the leaves are the tokens; all code in canonical form is read back |
| Brace and variable expansion | BraceWords, BraceText, BraceExpand; VariableExpand; Products | repeated substitution equals a compositional meaning; no value is captured by a name on its left |
| The editable line | LineEdits, LineSteps, EditableLine, UndoneEdits | undoing everything restores the first text; a group is undone as one, with the cursor; redo undoes undo |
| Escaping, and wrapping lines | Escape, TypedText; EscapeBytes; WrappedText, WrapSteps, LineWrap | unescaping undoes escaping, in three styles, and what typed text stands for; no wrapped line is too wide, and exactly when text is lost or a line is broken too early |
| The fd monitor, pending signals, the autoload cache | FdMonitor; PendingSignals; Autoload | no wake-up, callback or signal is lost or mistaken; the cache agrees with the disk |

Code that works in place is modelled by classes and loops, each method proved against a function on values; the
results are lemmas about these functions. Protocols are state machines: an event is what one process does between
two moments at which others can get in, `Possible` says which sequences of events can happen, and the results are
about every possible sequence. Where a proof is long it has a module of its own (`UvarSteps`, `HistorySteps`,
`HistoryKeeping`, `HistoryLoops`, `GrammarLists`, `GrammarYield`, `CanonicalSteps`, `LineSteps`, `WrapSteps`, `BraceText`) between the one
that defines the model and the one with the results.

What is taken for granted of the environment:

- A rename is atomic, and a lock on a file is honoured by every shell.
- File ids are never used again: a new file has a new inode, and a write or a change of metadata gives a new version.
- The clock does not go back.
- Converting bytes to wide characters is the identity on ASCII (`AsciiTransparent`); otherwise the locale is arbitrary.
- The tokenizer delivers what `TokenStream.InputSound` says: keywords and assignments are strings, and an error whose
  text looks like an assignment is the last token.
- The widths of characters, the variables of the environment and the contents of the disk are parameters.

What turned out not to hold, each with the condition under which it does:

- A list with a value that has the separator 0x1e in it, or that is the single value 0x1d, does not come back from the
  universal variables file (`UvarFormat.EncodeThenDecode`, `UvarFormat.FileRoundTripExactIff`).
- A failed write, and a failed rename, lose history items (`HistoryFile.FailureLosesIff`,
  `HistoryFile.FailedShellGivesUp`, and the runs of `HistoryFile.FailedWriteLosesItem` and
  `HistoryFile.FailedRenameLosesItem`): the index of the first unwritten item moves past buffered items before they
  are written, and a rename that fails is taken for one that succeeded. For the same reason it forgets which texts were
  to be deleted (`HistoryDeletion.FailedRenameForgetsDeletion`).
- Undo needs the first insertion of a run to be made at the cursor, although only the following ones are asserted to be
  (`EditableLine.CoalescingIsRecordedIff`, `EditableLine.MisplacedInsertionIsNotUndone`).
- A leading tilde that is asked to be left alone does not survive unescaping with special characters
  (`Escape.ScriptRoundTrip`, `Escape.TildeIsActive`).
- Wrapping drops characters as wide as the screen (`LineWrap.LosesNothingIff`, `LineWrap.LosesWideCharacter`), and
  breaks some lines although the next word fits (`LineWrap.EarlyBreakIff`, `LineWrap.BreaksTooEarly`). Words of no
  width can run together (`LineWrap.KeepsWordsIff`).

## Model

| member | source | states |
|---|---|---|
| UvarSync.NoLostUpdate | src/env_universal_common.rs:181-241 | No update is lost and none is made up. For any number of shells, any interleaving of the steps of sync, crashes and failures included, the file at the path parses to the initial table with every save that was renamed into place applied in the order of the renames; and what a save is, is told from the events alone: the sets and erases the shell was told of since its last successful save. |
| UvarSync.LastSaveWins | src/env_universal_common.rs:753-826 | Variable by variable: after any run the file holds what the last save that touched the variable wrote, lacks it if that save erased it, and is as initially if none did; the saves again told from the events alone. |
| UvarSync.SavedVariableIsLeftAlone | src/env_universal_common.rs:552-568 | A shell that has saved a variable and is not told of it again no longer has it pending, and no later save of it changes the variable in the file, whatever others have made of it in between. |
| UvarSync.ToldIsSaved | src/env_universal_common.rs:181-241 | What a shell is told is in the file after its next successful save: the new value as it is written, or no such variable. |
| UvarSync.PendingIsUnsaved | src/env_universal_common.rs:803-826 | In every run, the changes a shell has pending are exactly those it was told of since its last successful save: a save ends them, a load does not touch them. |
| UvarSync.LogIsSaves | src/env_universal_common.rs:552-568 | What the renames of a run put in place is what the shells were told, save by save. |
| UvarSync.MutualExclusion | src/env_universal_common.rs:419-482 | In every run at most one shell is between its check that the locked file is still at the path and its rename. |
| UvarSync.SkippedReadIsSound | src/env_universal_common.rs:371-389 | A shell that does not read because the file id is the one it last read already agrees with the file at the path on every variable it has not changed itself. |
| UvarSync.FutureFileIsKept | src/env_universal_common.rs:393-416 | A file in a format of the future is never replaced, by any shell in any run. |
| UvarSteps.AgreementIsEnough | src/env_universal_common.rs:621-640 | Writing a table that agrees with the file outside of the shell's own changes amounts to applying just these changes to the file. |
| UvarSteps.LoadSound | src/env_universal_common.rs:393-416 | Loading a file, or skipping it because its id is unchanged, leaves the shell's table in agreement with it and its pending changes untouched. |
| UvarSteps.WriteSound | src/env_universal_common.rs:525-549 | The temporary file, before it is at the path, parses to the current file with the shell's changes applied; no existing file changes. |
| UvarSteps.RenameSound | src/env_universal_common.rs:552-568 | The rename changes the table at the path by exactly the changes of the shell that renames. |
| UvarSteps.CriticalHoldsLock | src/env_universal_common.rs:471-480 | A shell past the comparison of the file ids holds the lock of exactly the inode at the path. |
| UvarSteps.StepKeepsInv | src/env_universal_common.rs:181-241 | Every step of every shell keeps the invariant: locks are held by those who think so, tables agree with the files last read, the path holds the fold of all saves. |
| UvarSync.RunKeepsInv | src/env_universal_common.rs:181-241 | So does every run. |
| UvarSync.FoldIsOnWire | src/env_universal_common.rs:753-826 | After the first save the table in the file is one that printing and parsing no longer changes. |
| EnvUniversal.CallbacksDescribeLoad | src/env_universal_common.rs:571-640 | Replaying the callbacks of a load, in any order they are made, on the old table gives the table acquired; no callback names a variable the shell has changed itself. |
| EnvUniversal.ExportChangeIsNoticed | src/env_universal_common.rs:571-617 | If the exported variables differ after a load, the export generation has grown. |
| EnvUniversal.LoadKeepsPending | src/env_universal_common.rs:621-640 | A load takes over nothing for variables that are still to be saved: what the shell is going to write is unchanged. |
| EnvUniversal.EnvUniversal.Set | src/env_universal_common.rs:108-125 | The whole new state: the value, the modified key and, only if the new value is exported and differs, the next export generation. |
| EnvUniversal.EnvUniversal.Remove | src/env_universal_common.rs:127-136 | The whole new state, and whether there was a variable; removing none changes nothing. |
| EnvUniversal.EnvUniversal.GenerateCallbacksAndUpdateExports | src/env_universal_common.rs:571-619 | The two loops, over the variables in any order, give one callback for each erased, new or changed variable that is not modified and for no other, and one step of the export generation for each of these that is or was exported. |
| EnvUniversal.EnvUniversal.AcquireVariables | src/env_universal_common.rs:622-640 | The table becomes the incoming one, but for modified keys, which keep their value or stay erased. |
| EnvUniversal.EnvUniversal.LoadFromFd | src/env_universal_common.rs:393-416 | The whole new state; its callbacks replayed on the old table give the new one, and none names a modified key. |
| UvarFormat.FileRoundTrip | src/env_universal_common.rs:246-348 | For every table whose text has no characters standing for undecodable bytes, whatever the names and values, parsing what was printed gives the table without what cannot be written, each list as it can be read back; and the file is of format 3.0. |
| UvarFormat.FileRoundTripExactIff | src/env_universal_common.rs:246-348 | Such a table comes back exactly if and only if each name is valid, no variable is read-only, no value has the list separator or a reserved code point, and no list is the single null marker. |
| UvarFormat.EncodeThenDecode | src/env_universal_common.rs:990-1003 | A list survives encoding and decoding if and only if none of its values has the separator and it is not the single null marker. |
| UvarFormat.DecodeThenEncode | src/env_universal_common.rs:990-1003 | Decoding any text and encoding the list again gives the text. |
| UvarFormat.SplitOfJoin | src/env_universal_common.rs:990-1003 | Splitting what was joined gives the list back if and only if the separator is in none of its parts. |
| UvarFormat.OnWireIdempotent | src/env_universal_common.rs:325-348 | Printing and parsing again after the first time changes nothing more. |
| UvarFormat.OnWireUnchangedIff | src/env_universal_common.rs:923-961 | Which tables are unchanged: exactly those all of whose variables are safe. |
| UvarFormat.LineRoundTrip | src/env_universal_common.rs:671-705 | Parsing one printed SETUVAR line sets the variable to the decoded value with its export and path flags, or, if the value has reserved code points, leaves the table alone. |
| UvarFormat.FlagsRoundTrip | src/env_universal_common.rs:671-705 | The printed flags are parsed back, for every combination, and parsing stops where the name begins. |
| UvarFormat.UnescapeFullEscape | src/env_universal_common.rs:896-912 | Unescaping a fully escaped value gives it back exactly if it has no reserved code point, and fails otherwise. |
| UvarFormat.FullEscapeOneLine | src/env_universal_common.rs:896-912 | An escaped value never has a newline, so an entry stays on its line. |
| UvarFormat.SortedKeysAscending | src/env_universal_common.rs:325-348 | The variables are printed in ascending order of their names, each once. |
| UvarFormat.HeaderFormat | src/env_universal_common.rs:284-322 | The header that is printed is recognised as format 3.0, whatever follows. |
| UvarFormat.FullEscapeString | src/env_universal_common.rs:896-912 | The loop computes the escaped text that UnescapeFullEscape reads back. |
| UvarFormat.AppendFileEntry | src/env_universal_common.rs:923-980 | Adds the line that LineRoundTrip reads back; for an illegal name it adds nothing and reports failure. |
| UvarFormat.SerializeWithVars | src/env_universal_common.rs:325-348 | Builds, from the variables in the order of their names, the text that FileRoundTrip reads back. |
| UvarFormat.ParseMessage30Internal | src/env_universal_common.rs:671-705 | The loop over the flags and what follows compute the table that LineRoundTrip speaks of, for any line. |
| UvarFormat.PopulateVariables | src/env_universal_common.rs:246-280 | The loop over the lines computes the table and the format that FileRoundTrip speaks of, for any text. |
| HistoryItems.CompactConcat | src/history.rs:531-554 | Compacting all items is compacting the written part and the unwritten part, each knowing what comes later: so the frontier keeps its place and no item crosses it. |
| HistoryItems.CompactKeeps | src/history.rs:531-554 | Compaction keeps every item not for disk, in order, and of the items for disk the newest one of each text. |
| HistoryItems.CompactUnique | src/history.rs:531-554 | Afterwards no text occurs twice among the items for disk. |
| HistoryItems.CompactDiskTexts | src/history.rs:531-554 | No text for disk is dropped. |
| HistoryItems.WithoutDiskTexts | src/history.rs:1056-1073 | Removing a text leaves all other texts for disk. |
| HistoryItems.DropEphemeralConcat | src/history.rs:559-572 | Dropping the ephemeral items at the end reaches into the written part only if nothing of the unwritten one stays. |
| HistoryItems.DropEphemeralDiskTexts | src/history.rs:559-572 | It drops no text for disk. |
| HistoryItems.RewriteKeeps | src/history.rs:576-652 | A rewritten file is sorted by time, has each text once with the latest of all its times and, below the capacity, has every text of the old file that is not to be deleted and every unwritten one. |
| HistoryItems.RewrittenTexts | src/history.rs:576-652 | A rewritten file has no text that is neither in the old file nor unwritten. |
| HistoryItems.SurvivingText | src/history.rs:582-612 | Of the old file only empty texts and those this shell has deleted may go, and nothing is made up. |
| HistoryItems.OldItemStaysIff | src/history.rs:582-612 | An old item stays if and only if it is not empty and either its text was not deleted or, if only this session was cleared, it is no newer than the beginning of the session. |
| HistoryItems.RewrittenHasIff | src/history.rs:576-652 | The texts of a rewritten file: only unwritten ones and those of old items that stay; below the capacity, exactly these. So a deleted text that is not unwritten is gone. |
| HistoryItems.AddAllKeeps | src/history.rs:200-217 | Below its capacity the cache forgets nothing: after any additions each text is there once, with the latest of its times. |
| HistoryItems.SortByTimeSorts | src/history.rs:625-629 | The sort gives an ordered permutation. |
| HistoryItems.SortByTimeStable | src/history.rs:625-629 | Items of one time keep their order. |
| HistoryObject.HistoryImpl.Add | src/history.rs:412-440 | The whole new state: an empty item changes nothing, one that can be merged into the last is merged, others are appended behind the frontier. |
| HistoryObject.HistoryImpl.CompactNewItems | src/history.rs:531-554 | The reverse loop with its removals in place and its moving index compacts the written and the unwritten part. |
| HistoryObject.HistoryImpl.RemoveEphemeralItems | src/history.rs:559-572 | The loop drops the ephemeral items at the end; the frontier is pulled back to the end if it was beyond. |
| HistoryObject.HistoryImpl.Remove | src/history.rs:1056-1073 | The reverse loop takes the text out of both parts, keeping the frontier between them, and the text is remembered for the next rewrite. |
| HistoryObject.HistoryImpl.ClearSession | src/history.rs:1104-1111 | The whole new state; the texts of the session are deleted by the next rewrite, as far as this session made them. |
| HistoryObject.HistoryImpl.AppendNewItems | src/history.rs:886-923 | For every pattern of buffer fills and write failures, and however much of the buffer a failing write gets out: what reached the file and what is lost, together and in order, are the items for disk that the frontier moved past; without failure all is written and nothing lost. |
| HistoryObject.HistoryImpl.RewriteToTemporaryFile | src/history.rs:576-652 | The loops over old and new items and the sort compute the file that RewriteKeeps speaks of. |
| HistoryObject.HistoryImpl.MarkRewritten | src/history.rs:800-810 | After a rewrite the frontier is at the end and no deletion is pending. |
| HistoryFile.NoItemLost | src/history.rs:633-811 | Below the capacity, in every interleaving of appending and rewriting shells: whatever text for disk a living shell was given is still to be written, is being written, or is in the file at the path, unless some shell removed it, or a write or rename that was to save it failed. |
| HistoryFile.NoItemLostWithoutFailure | src/history.rs:633-811 | So as long as no write and no rename fails, no item is lost. |
| HistoryFile.KeptStaysKept | src/history.rs:633-811 | From any moment on, whatever happened to a text before, removals included: a text a shell has, or that is in the file, stays with the shell or in the file, unless a deletion of it is pending or made later, a later failure loses it, or the shell crashes. |
| HistoryFile.CommittedStays | src/history.rs:633-881 | Whatever text is in the file at some moment of a run is there at every later one, whoever appends, rewrites, fails to or crashes, unless a deletion of it is pending at that moment or made later (below the capacity). |
| HistoryFile.NoLostWrite | src/history.rs:681-794 | In every run the file at the path is the initial one with every write and every rewrite applied in the order they took effect: none is undone by another shell. |
| HistoryFile.RewriterHoldsWhatItRead | src/history.rs:706-757 | A rewriter that has passed the comparison of the file ids holds the lock of exactly the file it read, which is still at the path and unchanged, so its new file is a rewrite of the current one. |
| HistoryFile.MutualExclusion | src/history.rs:838-866 | At most one shell at a time may write to the file at the path or replace it. |
| HistoryProtocol.SavedStays | src/history.rs:576-652 | Over any sequence of appends and rewrites below the capacity, a saved text stays until a rewrite deletes it. |
| HistoryFile.FailureLosesIff | src/history.rs:781-921 | In every run, if only one shell has a text and nobody is given it again, the text a failed write or rename was to save is kept from then on if and only if it is in the file already, was written before the write failed, or is once more among the items not reached yet; otherwise it is never in the file again. |
| HistoryFile.FailedShellGivesUp | src/history.rs:781-921 | In every run, whatever other shells do: the shell whose write or rename failed never writes a text that did not survive, unless it is given it again; the text is in the file later only if another shell puts it there. |
| HistoryFile.FailureKeepsIff | src/history.rs:781-921 | Which of the texts at risk a failure leaves with the shell or in the file: the frontier has passed the buffered items already, and after a rename that failed it is at the end. |
| HistoryDeletion.DeletedIsGone | src/history.rs:1055-1074 | Over runs: once a shell is told to delete a text, its next successful rewrite takes the text out of the file, whoever put it there and whenever, unless that shell is given the text again before. |
| HistoryDeletion.DeletedStaysGone | src/history.rs:633-881 | And it never comes back, unless some shell still has it or is given it. |
| HistoryDeletion.FailedRenameForgetsDeletion | src/history.rs:785-811 | But a rename that fails forgets the deletion: the text then stays in the file in every continuation, unless another shell has a deletion of it pending or it is removed once more. |
| HistoryFile.FailedWriteLosesItem | src/history.rs:893-921 | A run of one shell from an empty file that loses an item: one write fails, nobody removed the item, and it is neither in the file nor still to be written. |
| HistoryFile.FailedRenameLosesItem | src/history.rs:781-811 | Such a run with a rename that fails: the rewrite is taken for done. |
| HistorySteps.StepKeepsInv | src/history.rs:633-881 | Every step of every shell keeps the invariant behind these results. |
| HistoryFile.RunKeepsInv | src/history.rs:633-881 | So does every run. |
| TokenStream.TokenStream.Peek | src/ast.rs:2714-2721 | Through the ring of two: the token that many places ahead in the input without its comments, or the terminating one; nothing is consumed. |
| TokenStream.TokenStream.Pop | src/ast.rs:2724-2732 | The next token of the input without its comments; just that is consumed. |
| TokenStream.TokenStream.NextFromTok | src/ast.rs:2741-2750 | The loop skips comments, and nothing else. |
| TokenStream.WithoutCommentsSound | src/ast.rs:2741-2750 | Skipping comments keeps what the tokenizer guarantees. |
| Ast.CoversExactly | src/ast.rs:3323-3341 | Tokens covered by the leaves of a tree are, leaving out newlines and semicolons on both sides, exactly these leaves, in order. |
| Ast.CoveredSlots | src/ast.rs:3864-3959 | Each leaf of a covering tree has its source, one of the tokens, of a type or keyword the grammar allows in its place. |
| Ast.CoversConcat | src/ast.rs:3518-3621 | What two trees cover, their sequence covers. |
| Grammar.KeywordDecides | src/ast.rs:3725-3762 | The keyword a statement starts with decides which kind of statement can be read there. |
| Grammar.HeaderStarted | src/ast.rs:3767-3793 | And which header. |
| Grammar.CommandStarts | src/ast.rs:3694-3724 | A name of a command, or a keyword that is asked for help, can only be read as a decorated statement. |
| Grammar.NothingStarts | src/ast.rs:3656-3687 | Where no statement starts none can be read. |
| Grammar.AndorAfterPipe | src/ast.rs:3849-3861 | After a pipe that `and` or `or` follows, nothing can be read. |
| Parser.JobListCovers | src/ast.rs:3323-3341 | A list of jobs read from tokens takes up all of them, in order and each once; and each of its undecorated commands is a string that is no assignment, and no keyword of a statement unless it stands alone or before an option. |
| Parser.ArgumentListCovers | src/ast.rs:3323-3341 | So does a list of arguments. |
| CodeRoundTrip.CanonicalIsRead | src/ast.rs:3976-4027 | Parsing is complete: for every tree in canonical form, of any statements however nested, the tokens of its leaves are read as this tree, so without error and as no other one. Canonical is said of the tree without looking ahead: jobs end with a newline, a semicolon or `&`, keywords are where the grammar has them or before an option that makes them commands. |
| CodeRoundTrip.CommandsAreRead | src/ast.rs:3976-4027 | In particular every list of commands with arguments is read as these commands with these arguments. |
| CodeRoundTrip.SpacedIsRead | src/ast.rs:3323-3341 | Blank lines and stray semicolons between jobs change nothing. |
| CodeRoundTrip.NakedKeywordIsRead | src/ast.rs:3712-3723 | A keyword that stands alone is a command of that name, but for those that need no argument or end something. |
| CanonicalSteps.StatementReads | src/ast.rs:3625-3763 | A canonical statement is read back before anything that can come after it. |
| CanonicalSteps.JobsRead | src/ast.rs:3518-3621 | And so are jobs, before what can end a list of them. |
| Parser.ParseJobList | src/ast.rs:3976-4027 | Parsing terminates on every token sequence, whether or not it continues after errors, and reaches no panic or internal error. There is at most one list of jobs that the grammar reads from the tokens without comments; it is returned, without error, if there is one, and an error is reported if and only if there is none. Without error the leaves in order, with the newlines and semicolons skipped between them, are exactly the tokens, each used once, and an undecorated command is no statement keyword unless it stands alone or before an option. Continuing after errors it consumes all the input. |
| Parser.ParseFreestandingArguments | src/ast.rs:3976-4027 | The same for a list of arguments. |
| Populator.Populator.PopulateJobs | src/ast.rs:3518-3621 | Each turn consumes a token. The list is what the grammar reads from the tokens ahead, and all it reads; on an error it reads none. At the top the same holds of all the remaining input. It ends while unwinding only if it began so or does not continue after errors. |
| Populator.Populator.PopulateArguments | src/ast.rs:3518-3621 | The list is what the grammar reads from the tokens ahead, and all it reads; on an error it reads none. At the top the same holds of all the remaining input. |
| Populator.Populator.PopulateArgumentsOrRedirections | src/ast.rs:3518-3621 | The list is what the grammar reads from the tokens ahead, and all it reads; on an error it reads none. |
| Populator.Populator.PopulateAssignments | src/ast.rs:3518-3621 | The list is what the grammar reads from the tokens ahead, and never fails. |
| Populator.Populator.PopulateAndorJobs | src/ast.rs:3518-3621 | The list is what the grammar reads from the tokens ahead, and all it reads; on an error it reads none. |
| Populator.Populator.PopulateConjunctions | src/ast.rs:3518-3621 | The list is what the grammar reads from the tokens ahead, and all it reads; on an error it reads none. |
| Populator.Populator.PopulateContinuations | src/ast.rs:3518-3621 | The list is what the grammar reads from the tokens ahead, and all it reads; on an error it reads none. |
| Populator.Populator.PopulateElseifs | src/ast.rs:3518-3621 | The list is what the grammar reads from the tokens ahead, and all it reads; on an error it reads none. |
| Populator.Populator.PopulateCases | src/ast.rs:3518-3621 | The list is what the grammar reads from the tokens ahead, and all it reads; on an error it reads none. |
| Populator.Populator.NextItem | src/ast.rs:3546-3582 | Whether a list goes on: exactly if it is not unwinding, or is a job list that recovers; then it no longer unwinds, and a job list is past all newlines and semicolons. |
| Populator.Populator.StopUnwinding | src/ast.rs:3553-3578 | Recovery ends, gives nothing back, and the parser no longer unwinds. |
| Populator.Populator.ChompExtras | src/ast.rs:3323-3341 | Skips exactly the newlines and semicolons ahead that the type of the list says. |
| Populator.Populator.VisitStatement | src/ast.rs:3625-3763 | The statement is what the grammar reads from the tokens ahead, and all it reads; on an error it reads none. Entered while unwinding only with a pipe ahead; what can start a statement is consumed at least in part. |
| Populator.Populator.VisitCommandOrBlock | src/ast.rs:3690-3762 | For strings: the statement, a command or one of a keyword, is what the grammar reads from the tokens ahead, and all it reads; on an error, as for `end`, it reads none. |
| Populator.Populator.VisitBareAssignment | src/ast.rs:3669-3687 | An assignment without a command is consumed and reported, so the parser does not come back to it in place. |
| Populator.Populator.NewDecoratedStatement | src/ast.rs:3633-3649 | The command is what the grammar reads from the tokens ahead, and all it reads; on an error it reads none. The string it starts with is consumed. |
| Populator.Populator.VisitNotStatement | src/ast.rs:1679-1694 | The statement is what the grammar reads from the tokens ahead, and all it reads; on an error it reads none. What it negates is visited with the keyword consumed, so it cannot recur in place. |
| Populator.Populator.VisitBlockHeader | src/ast.rs:3767-3793 | The header is what the grammar reads from the tokens ahead, and all it reads; on an error it reads none. Each consumes its keyword; the arm for any other keyword is unreachable. |
| Populator.Populator.VisitBlockStatement | src/ast.rs:1382-1400 | The block is what the grammar reads from the tokens ahead, and all it reads; on an error it reads none. Its keyword is consumed. |
| Populator.Populator.VisitBraceStatement | src/ast.rs:1413-1431 | The statement is what the grammar reads from the tokens ahead, and all it reads; on an error it reads none. |
| Populator.Populator.VisitIfStatement | src/ast.rs:1549-1570 | The statement with all its clauses is what the grammar reads from the tokens ahead, and all it reads; on an error it reads none. |
| Populator.Populator.VisitSwitchStatement | src/ast.rs:1616-1635 | The statement with its cases is what the grammar reads from the tokens ahead, and all it reads; on an error it reads none. |
| Populator.Populator.VisitForHeader | src/ast.rs:1269-1290 | The header is what the grammar reads from the tokens ahead, and all it reads; on an error it reads none. |
| Populator.Populator.VisitWhileHeader | src/ast.rs:1303-1316 | The header is what the grammar reads from the tokens ahead, and all it reads; on an error it reads none. |
| Populator.Populator.VisitFunctionHeader | src/ast.rs:1329-1344 | The header is what the grammar reads from the tokens ahead, and all it reads; on an error it reads none. |
| Populator.Populator.VisitBeginHeader | src/ast.rs:1357-1369 | The header is what the grammar reads from the tokens ahead, and all it reads; on an error it reads none. |
| Populator.Populator.VisitIfClause | src/ast.rs:1444-1462 | The clause is what the grammar reads from the tokens ahead, and all it reads; on an error it reads none. |
| Populator.Populator.VisitElseif | src/ast.rs:1475-1487 | The clause is what the grammar reads from the tokens ahead, and all it reads; on an error it reads none. |
| Populator.Populator.TryElse | src/ast.rs:1542-1546 | The clause, or its absence, is what the grammar reads from the tokens ahead, and all it reads; on an error it reads none. |
| Populator.Populator.VisitCase | src/ast.rs:1583-1598 | The clause is what the grammar reads from the tokens ahead, and all it reads; on an error it reads none. |
| Populator.Populator.VisitJobConjunction | src/ast.rs:1224-1266 | The job is what the grammar reads from the tokens ahead, and all it reads; on an error it reads none. What starts a job is consumed at least in part. |
| Populator.Populator.VisitJobPipeline | src/ast.rs:1189-1210 | The pipeline is what the grammar reads from the tokens ahead, and all it reads; on an error it reads none. |
| Populator.Populator.VisitConjunction | src/ast.rs:1751-1787 | The conjunction is what the grammar reads from the tokens ahead, and all it reads; on an error it reads none. Its operator is consumed. |
| Populator.Populator.VisitJobContinuation | src/ast.rs:3849-3861 | The continuation is what the grammar reads from the tokens ahead, and all it reads; on an error it reads none. It consumes the pipe or, before `and` or `or`, leaves the parser unwinding; so the list it is in goes on or ends. |
| Populator.Populator.VisitEnd | src/ast.rs:3898-3939 | The keyword `end` with its arguments is what the grammar reads from the tokens ahead, and all it reads; on an error it reads none. A missing one skips the rest of the block. |
| Populator.Populator.MissingEnd | src/ast.rs:2991-3080 | A missing `end` is reported and leaves the parser unwinding; nothing consumed is given back. |
| Populator.Populator.ConsumeExcessTokenGeneratingError | src/ast.rs:3400-3513 | At least one token is consumed, and unwinding begins; the internal-error arms are unreachable. |
| Populator.Populator.VisitLeaf | src/ast.rs:3864-3940 | The leaf is what the grammar reads from the tokens ahead, and all it reads; on an error it reads none. That is one token of an allowed type or keyword. |
| Populator.Populator.ConsumeString | src/ast.rs:3376-3394 | The token is consumed even where its type is an error. |
| Populator.Populator.VisitArgument | src/ast.rs:3826-3832 | While unwinding the leaf has no source; otherwise one token is consumed. |
| Populator.Populator.VisitVariableAssignment | src/ast.rs:3834-3847 | The internal error is unreachable: a token that starts an assignment is one. |
| Populator.Populator.VisitMaybeNewlines | src/ast.rs:3942-3959 | Takes newlines only, in their order, and is never an error. |
| Populator.Populator.VisitRedirection | src/ast.rs:1084-1104 | The redirection is what the grammar reads from the tokens ahead, and all it reads; on an error it reads none. |
| Populator.Populator.CanParseAssignment | src/ast.rs:1932-1950 | The look ahead of two decides by the tokens alone and consumes nothing. |
| Populator.Populator.CanParseAndorJob | src/ast.rs:1807-1821 | Likewise; what it accepts starts a job. |
| Populator.Populator.CanParseElseif | src/ast.rs:1498-1503 | Likewise. |
| Populator.Populator.TryJobDecorator | src/ast.rs:2032-2042 | The optional leaf is there exactly if the look ahead says so, and never an error. |
| Populator.Populator.TryDecorator | src/ast.rs:2044-2060 | Likewise. |
| Populator.Populator.TryTime | src/ast.rs:2062-2071 | Likewise. |
| BraceExpand.ExpandBraces | src/expand.rs:798-919 | Succeeds exactly if the braces match. Then the results added, in order, are the meaning of the word the text stands for: an alternation is its items' meanings one after the other, a concatenation is their product with the right part varying slowest. |
| BraceWords.MeaningConcat | src/expand.rs:798-919 | The meaning of a concatenation is the product of the meanings: expansion is compositional. |
| BraceWords.SubstituteFirst | src/expand.rs:879-916 | Putting the first item in place of the last pair, and then the others, gives the meaning of the pair. |
| BraceWords.SubstituteLast | src/expand.rs:879-916 | And so does the only item. |
| BraceExpand.Substitute | src/expand.rs:873-916 | The second loop, from any last pair: every item in its place, expanded in turn, adds the meaning of the whole. |
| BraceExpand.ExpandItem | src/expand.rs:881-901 | One item, trimmed and with its spaces back, in place of the pair; the number of opening braces drops. |
| BraceExpand.FindLastPair | src/expand.rs:811-864 | The first loop finds a fault, or braces left open, exactly if the text is not balanced. |
| BraceExpand.ScanFindsLast | src/expand.rs:811-838 | And the pair it finds is the last top-level one of the word. |
| BraceExpand.ScanBalance | src/expand.rs:811-838 | Its counter is the depth, and its error flag is set exactly if some prefix closes more than it opens. |
| BraceExpand.BalancedIffWord | src/expand.rs:811-864 | A text is balanced if and only if it is how some word is written. |
| BraceExpand.PrintInjective | src/expand.rs:811-864 | And of only one word, so the meaning of a text is well defined. |
| BraceText.PrintClean | src/expand.rs:883-889 | Trimming the text of an item and restoring its spaces trims the item as a word. |
| BraceExpand.CleanItem | src/expand.rs:883-889 | The trimming and the loop over the characters compute that text. |
| BraceExpand.Trim | src/wcstringutil.rs:500-513 | Without the spaces at both ends. |
| BraceExpand.WhereItemEnds | src/expand.rs:879-915 | The loop sees the end of an item exactly at a separator or closing brace outside of nested braces. |
| BraceExpand.FewerBegins | src/expand.rs:881-901 | Each recursive call has fewer opening braces, so expansion ends. |
| Products.ProductAssoc | src/expand.rs:798-919 | Products of lists of texts associate, so the order in which pairs are expanded does not matter. |
| Products.ProductConcat | src/expand.rs:798-919 | The product distributes over lists appended on the right, the slower side. |
| VariableExpand.Expand | src/expand.rs:562-795 | The results without internal separators are the product of the values of the variables and the other characters, the rightmost varying slowest. In particular no value becomes part of the name of a variable on its left. |
| VariableExpand.ExpandVariables | src/expand.rs:562-795 | The recursion, on any text of which only the part before last_idx is still to be expanded; last_idx decreases. |
| VariableExpand.ExpandValues | src/expand.rs:768-794 | The loop over the values of an unquoted variable: each in its place, with a separator before it, expanded further to the left. |
| VariableExpand.ExpandJoined | src/expand.rs:746-767 | A quoted variable is its values joined, by a space or, for a path variable, a colon. |
| VariableExpand.ExpandMissing | src/expand.rs:691-706 | A quoted variable that is not set is the empty text. |
| VariableExpand.SimpleTextHasPieces | src/expand.rs:578-656 | Every text whose variables are named and not sliced is made of pieces, so Expand applies to each. |
| VariableExpand.NameEndIs | src/expand.rs:601-621 | A name ends where the piece ends: what follows it, value or separator, is no part of it. |
| VariableExpand.NameStop | src/expand.rs:601-618 | The loop over the name finds that end. |
| VariableExpand.FindExpandChar | src/expand.rs:578-599 | The scan from the right finds the last variable before last_idx, and none only if there is none. |
| VariableExpand.LastVariable | src/expand.rs:578-599 | The one it finds is the last variable of the text, and only literals follow. |
| VariableExpand.MeaningAtLast | src/expand.rs:768-794 | The meaning of a text split at its last variable. |
| VariableExpand.Substituted | src/expand.rs:776-786 | With a value in place of its last variable, a text is as well formed as before: nothing on the left changes what it means. |
| VariableExpand.StripEachConcat | src/expand.rs:1190-1211 | Separators are removed text by text. |
| EditableLine.EveryRunCanBeUndone | src/editable_line.rs:201-237 | After any sequence of edits, undos, redos, groups and cursor moves from the empty line, each made as the code asks of its callers, undoing until nothing is left gives the empty line back; cursor and colors always fit the text. |
| EditableLine.UndoneAllIsFirst | src/editable_line.rs:201-237 | From every sound state, undoing all gives the first text of its chain. |
| UndoneEdits.GroupIsUndoneAsOne | src/editable_line.rs:266-298 | A group opened on a sound line is undone as one: after any edits in it of which at least one changes something, a single undo gives back the text, the number of applied edits, and the cursor, where it was before the first change. |
| UndoneEdits.GroupRestoresLine | src/editable_line.rs:266-298 | So unless the cursor is moved by hand in the group, text, cursor and number of applied edits are all as before it. |
| UndoneEdits.EditIsUndone | src/editable_line.rs:201-237 | An edit outside of a group, if it is not merged into the last one, is undone on its own: text and cursor are as before it. |
| UndoneEdits.MergedIsUndoneToo | src/editable_line.rs:300-323 | One that is merged is undone with the edit it is merged into: to the text and cursor from before that. |
| UndoneEdits.TypingIsUndoneAsOne | src/editable_line.rs:153-198 | Text without spaces inside, typed character by character, is one edit, and one undo takes back all of it. |
| UndoneEdits.UndoneTo | src/editable_line.rs:201-237 | From every sound state: an undo that stops at an edit gives the text of the chain before it and the cursor that edit has remembered. |
| EditableLine.CursorFollowsEdit | src/editable_line.rs:326-343 | Where an edit leaves the cursor: behind the range it keeps the text behind it, within the range it comes to stand behind the replacement, in front it moves by the length of the replacement. |
| EditableLine.ExecuteSound | src/editable_line.rs:153-298 | Every operation keeps the chain of texts: each recorded edit maps one text to the next and stores what it removed. Coalescing, dropping undone edits and groups included. No assertion of set_position fails. |
| EditableLine.RunSound | src/editable_line.rs:153-298 | So does every run. |
| EditableLine.RedoUndoesUndo | src/editable_line.rs:201-263 | A redo after a successful undo restores text, cursor and the number of applied edits exactly, whole groups included. |
| EditableLine.CoalescingIsRecordedIff | src/editable_line.rs:300-323 | Merging an insertion into the last edit records what happened if and only if the text between the end of that edit and the cursor only repeats the character inserted. |
| EditableLine.MisplacedInsertionIsNotUndone | src/editable_line.rs:153-198 | Why the first insertion must be made at the cursor too, on a line typed from the empty one: after an insertion that is not, merging the next makes undo give a wrong text. |
| LineEdits.UndoStopBoundary | src/editable_line.rs:201-237 | The undo loop stops at the boundary of a group, and takes at least one edit if there is one. |
| LineEdits.RedoStopBoundary | src/editable_line.rs:240-263 | So does the redo loop. |
| EditableLine.EditableLine.PushEdit | src/editable_line.rs:153-198 | The whole new state, merged into the last edit or recorded, within a group or not. |
| EditableLine.EditableLine.ExtendLastEdit | src/editable_line.rs:156-166 | The half of push_edit that merges. |
| EditableLine.EditableLine.RecordEdit | src/editable_line.rs:172-197 | The half that drops undone edits, opens the group and records. |
| EditableLine.EditableLine.Undo | src/editable_line.rs:201-237 | The loop undoes a whole group, and the cursor before it is remembered in the last edit undone; true exactly if an edit was applied. |
| EditableLine.EditableLine.Redo | src/editable_line.rs:240-263 | The loop redoes a whole group and restores the remembered cursor; true exactly if there was an undone edit. |
| EditableLine.EditableLine.BeginEditGroup | src/editable_line.rs:266-277 | The whole new state: a first begin opens a group with a new id, in which insertions coalesce after the first edit; a nested one changes nothing. |
| EditableLine.EditableLine.EndEditGroup | src/editable_line.rs:280-297 | The whole new state; ending no group changes nothing. |
| EditableLine.EditableLine.ApplyEdit | src/editable_line.rs:42-57 | Text and colors are replaced in the same range and stay of one length. |
| EditableLine.EditableLine.SetPosition | src/editable_line.rs:129-132 | Only the cursor moves. |
| EditableLine.EditableLine.SetColors | src/editable_line.rs:121-124 | Only the colors change. |
| Escape.ScriptRoundTrip | src/common.rs:182-366 | For every string without reserved or direct-encoded characters, unescaping its escaped form succeeds and gives it back: exactly, or with SPECIAL once the internal separators are removed, so that nothing becomes an active wildcard, brace or variable. It fails to only for a leading tilde that NO_TILDE left alone. |
| Escape.CharsUnescape | src/common.rs:492-756 | The same for the unquoted form alone. |
| Escape.QuotedRoundTrip | src/common.rs:492-756 | And for the quoted form. |
| Escape.TildeIsActive | src/common.rs:547-553 | The exception is real: with NO_TILDE and SPECIAL a leading tilde reads as the home directory. |
| TypedText.WordUnescapes | src/common.rs:492-756 | What typed text stands for, for every word made of bare text, quoted text, escapes by letter, control characters, octal numbers and other characters escaped as themselves: wildcards, variables and a leading tilde become active where they are bare, variables also within double quotes, and everything else stays itself. |
| TypedText.BareUnescapes | src/common.rs:547-595 | In particular for every text with nothing quoted or escaped: `*` is any string, `**` any string with subdirectories, `?` any character unless that is turned off, `$` a variable unless a parenthesis follows, a leading `~` the home directory. |
| TypedText.BareReads | src/common.rs:547-595 | Bare text is read so before anything else that may follow it. |
| TypedText.DoubleQuotedReads | src/common.rs:702-741 | Within double quotes only the dollar is active. |
| TypedText.SingleQuotedReads | src/common.rs:668-701 | Within single quotes nothing is. |
| TypedText.SpellingReads | src/common.rs:834-1011 | The escapes by letter, control characters and three octal digits are read as the characters they stand for, whatever follows. |
| TypedText.OctalReads | src/common.rs:869-930 | Three octal digits are read as their number, whatever follows. |
| TypedText.PercentSelf | src/common.rs:530-545 | The one bare text that is read as a whole. |
| Escape.ReadByteRun | src/common.rs:834-1011 | Adjacent byte escapes are collected and decoded together, up to the first character that is none. |
| Escape.ReadHexDigits | src/common.rs:834-1011 | The hexadecimal digits written for a number read as that number. |
| Escape.EscapeStringScript | src/common.rs:182-366 | Its loops and choices compute the text that ScriptRoundTrip reads back. |
| Escape.EscapeEachChar | src/common.rs:195-345 | The first loop: the escaped characters, whether any needed escaping, and whether any needed more than quotes give. |
| Escape.ChooseQuote | src/common.rs:347-353 | The counters choose double quotes exactly if the text has more single quotes than double quotes and dollars together. |
| Escape.EscapeStringWithQuote | src/parse_util.rs:681-734 | The loop computes the quoted characters that QuotedRoundTrip reads back. |
| Escape.UnescapeStringInternal | src/common.rs:492-756 | The loop over the modes computes the outcome that ScriptRoundTrip speaks of, for any input and flags, up to the first brace that SPECIAL would make active. |
| Escape.ReadUnquotedEscape | src/common.rs:834-1011 | The loop over byte escapes computes the outcome that ReadByteRun speaks of, for any input. |
| EscapeBytes.UrlRoundTrip | src/common.rs:760-789 | Percent-encoding of any bytes is undone by decoding. |
| EscapeBytes.UrlInjective | src/common.rs:383-402 | So no two byte strings have the same encoding. |
| EscapeBytes.UrlAlphabet | src/common.rs:383-402 | The encoding has only unreserved characters, slashes and percent signs (sections 2.1 and 2.3 of RFC 3986, but for the slash). |
| EscapeBytes.VarRoundTrip | src/common.rs:793-830 | Encoding any bytes as a variable name is undone by decoding. |
| EscapeBytes.VarRoundTripFrom | src/common.rs:405-437 | In every state of the two machines in which the reader's flag for a preceding hex code is set whenever the writer's is. |
| EscapeBytes.VarInjective | src/common.rs:405-437 | So no two byte strings have the same encoding. |
| EscapeBytes.VarAlphabet | src/common.rs:405-437 | The encoding has only characters allowed in variable names. |
| EscapeBytes.EscapeStringUrl | src/common.rs:383-402 | The loop computes the text that UrlRoundTrip reads back. |
| EscapeBytes.UnescapeStringUrl | src/common.rs:760-789 | The loop computes the bytes UrlRoundTrip speaks of, or the failure, for any input. |
| EscapeBytes.EscapeStringVar | src/common.rs:405-437 | The loop computes the text that VarRoundTrip reads back. |
| EscapeBytes.UnescapeStringVar | src/common.rs:793-830 | The loop computes the bytes VarRoundTrip speaks of, or the failure, for any input. |
| LineWrap.EveryLineFits | src/common.rs:1403-1461 | No line that is printed is wider than the screen, whatever the text and the widths of its characters. |
| LineWrap.KeepsText | src/common.rs:1403-1461 | For any widths, negative ones too: what is printed is the text in order, with nothing put in but spaces, line breaks and hyphens before line breaks, and nothing left out but blanks and characters that leave no room for a hyphen even on a line of their own. |
| LineWrap.LosesNothingIff | src/common.rs:1416-1431 | Unless widths are negative or the hyphen is as wide as the screen: all of the text is printed if and only if all its characters are narrower than the screen; one that is not is skipped. |
| LineWrap.LosesWideCharacter | src/common.rs:1416-1431 | An input that loses a character: one two columns wide, on a screen of two. |
| LineWrap.KeepsWordsIff | src/common.rs:1403-1461 | For any widths, if every word is one token: what is printed has the same words if and only if no word but the last leaves the counted width at zero, and never more words. |
| LineWrap.KeepsWords | src/common.rs:1403-1461 | So words that can be seen and leave room for a hyphen on a line are kept: none is split and no two run together. |
| LineWrap.CountedIsWidth | src/common.rs:1403-1461 | At every place the wrapping comes to, the width it counts is the width of the line printed last, and one more if that line was begun because a word did not fit. |
| LineWrap.EarlyBreakIff | src/common.rs:1439-1452 | So for every word of every message: a line is broken although there is room for a space and the word if and only if the line was itself begun because a word did not fit, and the word would fill it exactly. |
| LineWrap.BreaksTooEarly | src/common.rs:1439-1452 | An input on which that happens. |
| LineWrap.ReadToken | src/common.rs:1412-1426 | The inner loop reads up to a blank or to what no longer leaves room for a hyphen. |
| LineWrap.PutToken | src/common.rs:1428-1452 | What is put before and after a token, and the width the line counts from then on. |
| LineWrap.ReformatForScreen | src/common.rs:1403-1461 | The loops compute the text these results speak of; a screen of no width leaves the text alone. |
| FdMonitor.ItemsAreWatched | src/fd_monitor.rs:240-434 | In every interleaving of clients and thread, before terminate: if there are items, a thread runs or a client is about to start one; there is never more than one. |
| FdMonitor.CallbacksAreForWaitedItems | src/fd_monitor.rs:400-411 | Every callback runs on the very fd that was waited on for its item: an id never comes back for another fd. |
| FdMonitor.ChangesWakeTheThread | src/fd_monitor.rs:240-395 | If the thread waits on other fds than the present ones, the signaller is posted or a client is about to post. |
| FdMonitor.ReadyAreCalled | src/fd_monitor.rs:400-411 | A round calls back exactly the items that were in the snapshot, are still there and are readable, each once, in the order of their ids, on the fd that was waited on; earlier calls stay recorded. |
| FdMonitor.InsertStep | src/fd_monitor.rs:243-258 | The assertion that the id is new holds, and adding keeps the invariant. |
| FdMonitor.StepKeepsInv | src/fd_monitor.rs:240-434 | Every step keeps the invariant behind these results. |
| FdMonitor.RunKeepsInv | src/fd_monitor.rs:240-434 | So does every run. |
| PendingSignals.NoSignalLost | src/event.rs:292-326 | In every interleaving of marks (two writes) with acquire_pending (load, compare, scan, clear): each mark is reported by an acquire_pending that ends after it began, or the running one has seen it, or its bit is set and a scan is certain. |
| PendingSignals.AcquireReportsEarlierMarks | src/event.rs:303-326 | Whatever was marked before acquire_pending loads the counter, and not reported yet, is in its result; if it returns at once there was nothing. |
| PendingSignals.OnlyMarkedSignals | src/event.rs:303-326 | Nothing is reported that was not marked. |
| PendingSignals.EachReportNeedsAMark | src/event.rs:303-326 | From any moment of any run at which the bit of a signal is clear, or was just reported: the signal is reported at most as often as it is marked from then on. So each report needs a mark since the last one, and since the bit was last cleared. |
| PendingSignals.StepKeepsInv | src/event.rs:292-326 | Every step keeps the invariant behind these results. |
| PendingSignals.PendingSignals.Mark | src/event.rs:295-300 | Sets the bit and counts; a signal out of range does nothing. |
| PendingSignals.PendingSignals.AcquirePending | src/event.rs:303-326 | Run alone: if the counter has moved, exactly the bits that are set, which are cleared; otherwise nothing, and nothing changes. |
| Autoload.CheckAgreesWithDisk | src/autoload.rs:225-270 | In every run, a check that does not allow stale entries answers what locate_file gave, for the current directories, less than 15 seconds ago. |
| Autoload.ResolvedAgreesWithDisk | src/autoload.rs:129-157 | In every run, a file that resolve_command_impl returns is what locate_file gave, for the directories passed to it, less than 15 seconds ago. |
| Autoload.PathIsReturnedIff | src/autoload.rs:129-157 | In every run, a path is returned if and only if the command is not being autoloaded, a look at the disk less than 15 seconds ago found a file, and that file is not the one last returned for the command since the last clear. |
| Autoload.ConsecutivePathsDiffer | src/autoload.rs:129-157 | In every run, two paths returned one after the other for a command, with no clear between, are of different files; a command being autoloaded is not returned again. |
| Autoload.HitsAndMissesDisjoint | src/autoload.rs:225-270 | In every run no command is both a hit and a miss, so both assertions of check hold; the misses stay within their capacity. |
| Autoload.LocateFindsFirst | src/autoload.rs:290-316 | For a proper name, a file is found exactly if some directory has it, and it is that of the first such directory. |
| Autoload.CheckedSound | src/autoload.rs:225-270 | Every check, stale entries allowed or not, keeps every entry of the cache equal to what some look at the disk gave, at the time the entry bears. |
| Autoload.StepKeepsInv | src/autoload.rs:80-157 | Every resolve, finish and clear keeps the invariant behind these results. |
| Autoload.AutoloadFileCache.Check | src/autoload.rs:225-270 | With the cache of misses evicting its oldest entry, the answer and the new cache are those CheckedSound speaks of. |
| Autoload.AutoloadFileCache.LocateFile | src/autoload.rs:290-316 | The loop over the directories finds the file LocateFindsFirst speaks of. |
| Autoload.Autoload.ResolveCommandImpl | src/autoload.rs:129-157 | The whole new state and the path, as ConsecutivePathsDiffer speaks of: a new cache if the directories differ, nothing for a command being loaded or an unchanged file. |
| Autoload.Autoload.MarkAutoloadFinished | src/autoload.rs:80-83 | The command is no longer being autoloaded; nothing else changes. |
| Autoload.Autoload.ClearLoaded | src/autoload.rs:115-118 | What was autoloaded is forgotten; the cache and what is being loaded stay. |

## Left out

- UvarSync.NoLostUpdate: does not model the flock that fails or is given up, network file systems, symbolic links, ownership, or a file edited by hand while shells run; and values are free of characters that stand for undecodable bytes.
- UvarFormat.FileRoundTrip: files are wide text, with UTF-8 in between taken to be invertible; characters that stand for undecodable bytes are excluded, because what they become depends on the bytes around them.
- UvarFormat.PopulateVariables: a NUL in a leading comment, at which the code panics, counts as any other character; fish 2.x lines are parsed, but nothing is proved of them.
- EnvUniversal.ExportChangeIsNoticed: is about loads; setting a variable that was exported to one that is not does not grow the generation in the code either.
- HistoryFile.NoItemLost: does not model a lock that is abandoned after a slow try, shells that may not save, clearing the whole history, or importing from other shells; and is stated below the capacity of the file, beyond which the code forgets the least recent items by design.
- HistoryFile.CommittedStays: is stated below the capacity of the file too, as are HistoryFile.KeptStaysKept and HistoryFile.FailureLosesIff.
- HistoryObject.HistoryImpl.AppendNewItems: the file is a list of items; its bytes (src/history/file.rs) and the granularity of its timestamps are not part of this model. Of an item that a failing write cut in two, the file has nothing but a new version.
- HistoryObject.HistoryImpl.Add: saving when due, which it triggers, is an event of HistoryFile.
- Parser.ParseJobList: parses without LEAVE_UNTERMINATED and SHOW_EXTRA_SEMIS; error texts, source ranges and parent pointers are not part of this model.
- CodeRoundTrip.CanonicalIsRead: is about the tokens of the leaves alone; blank lines, which belong to no leaf, are covered between the jobs of the whole input (CodeRoundTrip.SpacedIsRead), and a keyword that stands alone is covered as a job (CodeRoundTrip.NakedKeywordIsRead). Code that is valid and not canonical is what Parser.ParseJobList says of every input.
- TokenStream.TokenStream.NextFromTok: the tokenizer, and the ranges of comments it records, are not part of this model.
- BraceExpand.ExpandBraces: does not model the mode for completions, which makes up closing braces, nor the limit on the number of results.
- VariableExpand.Expand: does not model slices, `$$`, empty names, $history, command substitution, nor the limit on the number of results.
- EditableLine.EveryRunCanBeUndone: the counter of groups is unbounded, and clearing the undo history is not part of this model.
- TypedText.WordUnescapes: is about words without braces, without escapes inside of quotes, and without escapes by hexadecimal numbers, code points or fewer than three octal digits; bytes are in Escape.ReadByteRun.
- Escape.ScriptRoundTrip: does not model the SYMBOLIC flag; characters fish reserves or that stand for undecodable bytes are excluded, as they have no escaped form that is read back.
- Escape.UnescapeStringInternal: stops with an outcome of its own at a brace that SPECIAL makes active (src/common.rs:595-637); escaped text never gets there.
- EscapeBytes.UnescapeStringVar: works on the narrow strings the code converts from and to.
- FdMonitor.ReadyAreCalled: which fds are readable is arbitrary; select, poll and the pipe of the signaller are not part of this model. The destructor is the event Terminate.
- PendingSignals.NoSignalLost: the counter is unbounded; in the code it wraps around after 2^32 signals.
- Autoload.ConsecutivePathsDiffer: file ids are compared as they are; that a file changed without its id changing is not noticed by the code.
- Sourcing autoloaded files, events other than signals, completion, and job control.
