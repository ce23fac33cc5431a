# koshell: a verified model

koshell wraps a shell in a PTY. It passes the shell's output on, keeps bounded memories of it, and
inserts streamed AI answers into the terminal. This project models the parts that hold state and
decide, and proves what they promise over every run.

| files | what they model |
|---|---|
| `Presentation.dfy`, `TerminalStream.dfy` | the object that writes to the terminal, and its specification on values; the class invariant is that terminal and mirror receive the same stream |
| `PresentationRuns.dfy`, `SerialDaemon.dfy`, `AnswerBlocks.dfy`, `SilentRequests.dfy`, `AnswerText.dfy`, `Announcement.dfy` | PTY conservation, closing, labelling, silence, deadlines, and what of answers and notices is written, over whole runs |
| `Screen.dfy`, `LiveRegion.dfy`, `Answer.dfy`, `AnchoredStream.dfy` | a small terminal with soft wrap and pending wrap, the live input line on it, the answer as the deltas build it, and anchored streaming as a picture |
| `Utf8.dfy`, `OutputBuffer.dfy`, `CommandHistory.dfy`, `CommandLog.dfy` | incremental decoding, the capped buffer, the command history, and the unbounded log it answers for |
| `Timeline.dfy`, `Retention.dfy`, `TerminalContext.dfy`, `ContextField.dfy` | the compacting store, its bounds, and the context built from it |
| `Trigger.dfy`, `TriggerRuns.dfy`, `Question.dfy` | the `#?` engine, the life of each question, and what it asks |
| `MarkerScanner.dfy` | the streaming marker parser |
| `ScreenDiff.dfy`, `StyledRow.dfy`, `ModelPatch.dfy`, `ModelLine.dfy` | the hunk builder, the styled row printer, the config edit |

Code that changes state is a class whose methods equate the new state with a function of the old
one; the theorems are about runs of those functions. Times are milliseconds, ids are numbers or
strings. A mirror is any function of the stream fed to it, and each step may use its own, except for
anchored streaming, where it reports what the small terminal shows.

Where the code does less than its comments say, or than one would expect, the model says exactly when:

- The comment at presentation.rs:808 holds a serial daemon to be enough for a first delta to find no
  other active response. It is not: a request still queued can start after a later one was opened.
  `SerialDaemons.QueuedDispatchLosesBytes` is a failing run. `PresentationRuns.PtyConserved` and
  `SerialDaemons.ResponsesCloseOnce` give the condition on runs of any daemon, and
  `SerialDaemons.UnqueuedIsExact` the one on dispatches with a serial daemon.
- An anchored answer ends up a row low, from then on, once a delta that starts with a carriage return
  or line feed follows an exactly full line, and for the moment after an empty delta there
  (`AnchoredStreams.RunDrawsInOneIff`). The response streams on in place in every run
  (`AnchoredStreams.RunDraws`).
- The redraw gives the live line back exactly under `Live.Restorable` (`LiveRegions.RestoresIff`), and
  settles it otherwise (`LiveRegions.RestoresSettled`): a cursor left of the text end moves behind it,
  and a pending wrap, which is sampled but not used, is lost after a blank at the margin and gained on
  a full row (`LiveRegions.WrapLostOrGained`).
- `primary_text_truncated` is lost when compaction leaves exactly as much visible text as is asked for
  (`TerminalContexts.ContextAgreesIff`; at budgets up to 32,000 only at 32,000), and the latest snapshot is lost exactly when a compaction
  finds it over seven days old (`TerminalContexts.RunKeepsLatestIff`).
- A chunking shows in what is read exactly when a feed ends with more than 64 KiB to hold
  (`MarkerScanners.ChunkingIsInvisibleIff`).
- The string `patchRootModel` writes is legal TOML exactly when the name has no U+007F
  (`ModelPatches.QuotedIsTomlIff`).
- The branch of `record_output` for a held tail of four bytes or more is never taken
  (`Utf8.CutIsUnfinished`).

## Model

| member | source | states |
|---|---|---|
| AnchoredStreams.RunDraws | crates/koshell-rs/src/presentation.rs:381-431 | any run of anchored deltas, tool lines and ticks leaves the intended picture on the terminal (rows above, header, the answer as built by the deltas, the live line below it), and the response is still streaming in place; the live line may be any, the cursor anywhere on it |
| AnchoredStreams.RunDrawsInOneIff | crates/koshell-rs/src/presentation.rs:381-431 | after any such run the answer since the last header is on the terminal as if written in one piece if and only if, wherever a delta ended on an exactly full line, what the later deltas said starts with a printed character |
| AnchoredStreams.ResponseDraws | crates/koshell-rs/src/presentation.rs:559-588 | the same from the dispatch at a resting prompt through any run to the close, whether the response ends, fails or is interrupted |
| AnchoredStreams.CloseDraws | crates/koshell-rs/src/presentation.rs:508-552 | closing a streaming response leaves the answer where it is and adds at most one notice above the live line |
| AnchoredStreams.DeltaDraws | crates/koshell-rs/src/presentation.rs:381-431 | any delta extends the drawn answer by exactly itself, leaves the live line settled, and never degrades the response |
| AnchoredStreams.TailHolds | crates/koshell-rs/src/presentation.rs:381-394 | in every streaming state the live line can be sampled and the row above it is the remembered tail |
| AnchoredStreams.DeltaDrawsIff | crates/koshell-rs/src/presentation.rs:396-410 | after an answer in one piece the next delta keeps it so if and only if the last line is not full or the delta starts with a printed character |
| Answers.BuiltInOnePieceIff | crates/koshell-rs/src/presentation.rs:396-418 | for any deltas, what the redraws build shows the same rows and cells as the concatenation written in one piece if and only if they come in one piece in that sense; the cursor then agrees too |
| Answers.EachFitsInOnePiece | crates/koshell-rs/src/presentation.rs:396-410 | deltas each of which fits when it comes are in one piece |
| Answers.LineBreakAfterFullLine | crates/koshell-rs/src/presentation.rs:396-410 | the failing family: a delta of exactly one full line, then one that is empty or starts with a line break; an empty one does no harm when printed text follows it |
| AnchoredStreams.ToolDraws | crates/koshell-rs/src/presentation.rs:739-782 | a tool line goes above the live line below everything drawn so far, the live line comes back settled, and the next delta starts over below a new header |
| AnchoredStreams.TickDraws | crates/koshell-rs/src/presentation.rs:650-678 | so does the waiting notice of a poll, when it is due; otherwise nothing changes |
| AnchoredStreams.IntendedSays | crates/koshell-rs/src/presentation.rs:381-431 | between tool lines the answer is what the deltas said, in order |
| AnchoredStreams.LiveLineStays | crates/koshell-rs/src/presentation.rs:345-351 | through every event a restorable live line stays as it is; any other is restorable from the first redraw on, unless its last row had nothing to draw |
| AnchoredStreams.NoticesStartRows | crates/koshell-rs/src/presentation.rs:263-268 | a notice or header always starts a blank row |
| AnchoredStreams.Inserts | crates/koshell-rs/src/presentation.rs:358-370 | inserting text above the live line draws it below all earlier rows and leaves the line settled |
| AnchoredStreams.Resumes | crates/koshell-rs/src/presentation.rs:396-413 | with the live line lifted off, the resume sequence (header, cursor up and column, or nothing when a wrap is pending) and any delta continue the answer |
| AnchoredStreams.StartsAtPrompt | crates/koshell-rs/src/presentation.rs:583-588 | a stream response dispatched at a resting prompt is anchored and starts from the drawn picture |
| LiveRegions.RestoresIff | crates/koshell-rs/src/presentation.rs:345-351 | redrawing the live line below any row changes nothing above and gives the line back, cursor column and pending wrap included, if and only if what follows its text is blank, the cursor is at or past the text end, a wrapped line has at least one column on its last row, and a wrap is pending exactly when the text fills that row |
| LiveRegions.RestoresSettled | crates/koshell-rs/src/presentation.rs:345-351 | for every live line and cursor: redrawing it below any row changes nothing above and leaves the settled line, its last row padded up to the cursor, blanks after it, the cursor behind it, and a wrap pending exactly when it is full; a last of several rows with nothing to draw is gone |
| LiveRegions.SettledIff | crates/koshell-rs/src/presentation.rs:345-351 | settling changes nothing if and only if the line is restorable |
| LiveRegions.SettledStays | crates/koshell-rs/src/presentation.rs:345-351 | a settled line is restorable, unless it lost its last row |
| LiveRegions.WrapLostOrGained | crates/koshell-rs/src/presentation.rs:345-351 | the failing families: a wrap pending after a blank at the margin is lost, and one is gained when the cursor rested on the last character of a full row; the next character then lands on another row |
| LiveRegions.AtTheMargin | crates/koshell-rs/src/presentation.rs:345-351 | the two lines on a terminal three columns wide |
| LiveRegions.ErasesRegion | crates/koshell-rs/src/presentation.rs:335-340 | the erase sequence blanks exactly the rows of the live line, leaves the cursor at their start and nothing above changed |
| LiveRegions.SampleLiveRegion | crates/koshell-rs/src/mirror.rs:173-204 | nothing on the alternate screen or when the cursor's row wraps onward; otherwise the loops return the region from the topmost row that wraps down to the cursor: rows that wrap untrimmed, the last one trimmed, each printed with the styles of its cells, cursor column, pending wrap, and the trimmed row above |
| LiveRegions.PrintedText | crates/koshell-rs/src/mirror.rs:213-245 | a row that shows its cells with their styles holds, styling aside, exactly their text |
| LiveRegions.SampledShows | crates/koshell-rs/src/mirror.rs:173-204 | such a sample satisfies everything the redraw relies on |
| LiveRegions.SomeMirrorWatches | crates/koshell-rs/src/mirror.rs:173-204 | a mirror as the streaming theorems assume it exists for every terminal state |
| Presentations.Presentation.constructor | crates/koshell-rs/src/presentation.rs:466-474 | a new presentation has written and fed nothing |
| Presentations.Presentation.WriteNotice | crates/koshell-rs/src/presentation.rs:285-290 | writes one dim line, its newlines normalized, at the start of a line, and feeds the mirror the same |
| Presentations.Presentation.InsertAboveLive | crates/koshell-rs/src/presentation.rs:358-370 | inserts between erase and restore, or writes nothing when the line cannot be sampled |
| Presentations.Presentation.NoticeAboveLive | crates/koshell-rs/src/presentation.rs:447-453 | inserts the notice, or falls back to a plain one |
| Presentations.Presentation.NoticeBeforePrompt | crates/koshell-rs/src/presentation.rs:458-464 | inserts the notice above a resting prompt only |
| Presentations.Presentation.StallNotice | crates/koshell-rs/src/presentation.rs:323-331 | marks both notices shown and prints the stall line; no header is scheduled |
| Presentations.Presentation.ReleaseHeldBlock | crates/koshell-rs/src/presentation.rs:298-317 | boundary notice, then all held bytes, then a pending header if the answer had started |
| Presentations.Presentation.BeginResponse | crates/koshell-rs/src/presentation.rs:583-588 | replaces the active response; anchored exactly in stream mode at a resting prompt |
| Presentations.Presentation.NoteDispatch | crates/koshell-rs/src/presentation.rs:559-576 | remembers the request and opens a response only when none is active |
| Presentations.Presentation.WritePtyOutput | crates/koshell-rs/src/presentation.rs:594-624 | holds or writes through; releases at 256 KiB; warns after 30 s; terminal and mirror stay equal |
| Presentations.Presentation.HandleDelta | crates/koshell-rs/src/presentation.rs:792-866 | drops deltas of interrupted requests, opens a response for a new one, and routes by mode; terminal and mirror stay equal |
| Presentations.Presentation.WriteStreamDelta | crates/koshell-rs/src/presentation.rs:834-850 | header when not started or pending, then the normalized delta |
| Presentations.Presentation.WriteAnchoredDelta | crates/koshell-rs/src/presentation.rs:381-431 | degrades with nothing written when the line cannot be sampled or the tail differs; otherwise both halves of the redraw, with the resume point sampled between them |
| Presentations.Presentation.HandleTool | crates/koshell-rs/src/presentation.rs:739-782 | ignores other and interrupted requests; a tool line relabels a started stream answer and re-anchors an anchored one |
| Presentations.Presentation.HandleEnd | crates/koshell-rs/src/presentation.rs:868-941 | exactly one closing per response: block, tail, error and held bytes in that order; the terminal marker of an interrupted request only clears it |
| Presentations.Presentation.UserInterrupt | crates/koshell-rs/src/presentation.rs:508-552 | closes the active response, marks it interrupted, and releases held bytes behind their notice |
| Presentations.Presentation.Poll | crates/koshell-rs/src/presentation.rs:650-678 | the receipt and stall notices, each when due and not shown |
| TerminalStreams.NormalizeNewlines | crates/koshell-rs/src/presentation.rs:251-261 | the loop puts a carriage return before every line feed that has none, carrying the state across calls |
| TerminalStreams.NormalizedInDeltas | crates/koshell-rs/src/presentation.rs:251-261 | normalizing in deltas is normalizing the whole, for every split |
| TerminalStreams.LineFeedsFollowCr | crates/koshell-rs/src/presentation.rs:251-261 | in normalized text every line feed follows a carriage return |
| TerminalStreams.NormalizedAddsCrs | crates/koshell-rs/src/presentation.rs:251-261 | normalizing adds carriage returns and changes nothing else |
| TerminalStreams.NormalizedStays | crates/koshell-rs/src/presentation.rs:251-261 | text whose line feeds all have theirs stays as it is |
| PresentationRuns.StepKeepsIff | crates/koshell-rs/src/presentation.rs:594-624 | one step of any kind keeps written plus held PTY bytes equal to the bytes received, in order and once each, if and only if it is not a delta that replaces a response holding some; such a delta loses bytes |
| PresentationRuns.PtyConserved | crates/koshell-rs/src/presentation.rs:298-941 | over every run: PTY bytes written followed by bytes held are all bytes received if and only if no such delta occurs in it, and fewer than 256 KiB are held in any case |
| AnswerTexts.AnswerIsTold | crates/koshell-rs/src/presentation.rs:792-866 | over every run: the AI text streamed so far is, response by response and in order, all deltas of the response joined and normalized as one text; and what a response in block mode has accumulated is what was said to it there |
| Announcements.EndIsShown | crates/koshell-rs/src/presentation.rs:868-941 | the end of a response in block mode writes its block, header and everything said to it there, once and in one piece; an end with an error says so |
| Announcements.ToolIsShown | crates/koshell-rs/src/presentation.rs:739-782 | a tool line of the active response is shown with its message |
| Announcements.InterruptIsShown | crates/koshell-rs/src/presentation.rs:508-552 | an interrupt shows its notice, which says whether held output is released |
| Announcements.OutputIsHeldExactly | crates/koshell-rs/src/presentation.rs:594-624 | command output is held exactly while a stream response above no prompt is active and under 256 KiB are held; at that size all of it is written at once, and otherwise it is written as it comes |
| Announcements.PollAnnounces | crates/koshell-rs/src/presentation.rs:650-678 | over every run: a poll shows the waiting notice exactly from one second after the opening while nothing is rendered or announced, the stall notice exactly from thirty seconds after the last progress while output is held, and otherwise does nothing |
| Announcements.RunIsTimely | crates/koshell-rs/src/presentation.rs:792-806 | over every run the active response knows when it was opened and when it last got a delta or tool line |
| Announcements.OpensAs | crates/koshell-rs/src/presentation.rs:559-588 | a response opens in stream mode exactly when its command had ended, anchored exactly at a resting prompt |
| Announcements.AnswerEndsItsLine | crates/koshell-rs/src/presentation.rs:896-905 | a streamed answer ends its line before anything else is written, at its end and at an interrupt |
| Announcements.PromptStaysLast | crates/koshell-rs/src/presentation.rs:458-464 | a block or a notice before the prompt leaves a resting prompt's line last, where it can be sampled, and ends with a newline otherwise |
| Announcements.DegradesExactly | crates/koshell-rs/src/presentation.rs:381-394 | an anchored response goes over to block mode, writing nothing, exactly when its live line cannot be sampled or another row than its tail stands above it |
| Announcements.DeadlineIsExact | crates/koshell-rs/src/presentation.rs:628-646 | the deadline after a poll is the earlier of the waiting and the stall notice still to come, and none without one |
| Announcements.PiecesAreWritten | crates/koshell-rs/src/presentation.rs:594-624 | the output is the contents of its pieces, in order |
| SerialDaemons.SerialRunsAreSafe | crates/koshell-rs/src/presentation.rs:792-816 | with a daemon that answers one request at a time, and no dispatch into an idle presentation while an earlier request waits, no response is replaced, no PTY byte is lost and each response begun ends exactly once |
| SerialDaemons.UnqueuedIsExact | crates/koshell-rs/src/presentation.rs:792-816 | and exactly then: a run of a serial daemon has only such dispatches if and only if from no point of it, with messages, output, interrupts and ticks alone, a response can come to be replaced |
| SerialDaemons.QueuedDispatchReplaces | crates/koshell-rs/src/presentation.rs:559-588 | after any other dispatch a serial daemon can replace the response just opened: it ends the interrupted requests before the first one still wanted, whose first delta does it |
| SerialDaemons.QueuedDispatchLosesBytes | crates/koshell-rs/src/presentation.rs:559-588 | a serial daemon alone is not enough: a run in which a queued request replaces a later one that is holding output, whose bytes are lost |
| SerialDaemons.StepClosesIff | crates/koshell-rs/src/presentation.rs:868-894 | a step keeps "every response begun has ended, in order, except the active one" if and only if it is not a delta that replaces an active response |
| SerialDaemons.ResponsesCloseOnce | crates/koshell-rs/src/presentation.rs:508-552 | over every run: each response begun ends exactly once, by finish or interrupt and in order, except the active one, if and only if no delta of the run replaces an active response |
| AnswerBlocks.NeverRunTogether | crates/koshell-rs/src/presentation.rs:298-317 | over every run, no stream delta follows a released PTY block, a tool line or the end of another answer without an AI header in between, every block released before its response closes follows its boundary notice, and headers and boundary notices say what they are |
| AnswerBlocks.DeadlinesAgreeWithPoll | crates/koshell-rs/src/presentation.rs:628-678 | after a poll the next deadline is absent or strictly ahead, and no poll before it does anything |
| SilentRequests.MessagesAreSilent | crates/koshell-rs/src/presentation.rs:739-894 | in any run, dropping all messages of an interrupted request up to its terminal marker changes neither output nor any other response |
| SilentRequests.InterruptSilences | crates/koshell-rs/src/presentation.rs:508-552 | the same from the interrupt on: late deltas, tool lines and the terminal marker are as if never sent |
| Utf8.DecodeInChunks | crates/koshell-rs/src/command_history.rs:346-394 | decoding a chunk and going on from the bytes held back equals decoding the whole, for every split |
| Utf8.BadIsMaximalSubpart | crates/koshell-rs/src/command_history.rs:355-389 | each U+FFFD stands for one maximal subpart: no longer piece of the input starts a well-formed sequence, and any subpart over one byte does |
| Utf8.CutIsUnfinished | crates/koshell-rs/src/command_history.rs:379-393 | the bytes held back are at most three and start a well-formed sequence, so the branch for four or more is never taken |
| Utf8.DecodeInvertsEncode | crates/koshell-rs/src/command_history.rs:346-394 | decoding the UTF-8 encoding of any text gives the text, with nothing held |
| Utf8.LossyIsDecodePlusTail | crates/koshell-rs/src/command_history.rs:399-404 | lossy decoding of a whole is incremental decoding and one U+FFFD for a tail left at the end |
| CommandHistories.DecodeAvailable | crates/koshell-rs/src/command_history.rs:354-393 | the decoding loop computes that text and that tail |
| OutputBuffers.OutputBuffer.Append | crates/koshell-rs/src/command_history.rs:136-144 | text added at the end, then trimmed to the cap, with the totals grown by the text |
| OutputBuffers.OutputBuffer.TrimTo | crates/koshell-rs/src/command_history.rs:149-167 | the walk over characters drops the shortest prefix that brings the buffer under the limit |
| OutputBuffers.OutputBuffer.ReclaimAll | crates/koshell-rs/src/command_history.rs:171-181 | everything dropped and accounted for |
| OutputBuffers.OutputBuffer.ReclaimPrefix | crates/koshell-rs/src/command_history.rs:184-191 | a prefix of at least the requested size dropped and accounted for |
| OutputBuffers.AppendedDescribes | crates/koshell-rs/src/command_history.rs:136-167 | after an append the buffer holds the longest tail of the whole output that fits, with offsets, totals and flag to match |
| OutputBuffers.Conservation | crates/koshell-rs/src/command_history.rs:135-191 | retained plus dropped is the total, in bytes and in characters |
| OutputBuffers.TrimmedBounds | crates/koshell-rs/src/command_history.rs:149-167 | a trimmed buffer fits, and by under four bytes less than it could |
| OutputBuffers.LeastDrop | crates/koshell-rs/src/command_history.rs:149-167 | one character fewer dropped would not fit |
| OutputBuffers.ReclaimedBounds | crates/koshell-rs/src/command_history.rs:184-191 | reclaiming frees what was asked for or everything, and overshoots by under four bytes |
| OutputBuffers.ReclaimedDescribes | crates/koshell-rs/src/command_history.rs:171-191 | what is left is still a tail of the same output at its true offset, and offsets never move back |
| CommandHistories.CommandHistory.Begin | crates/koshell-rs/src/command_history.rs:318-338 | a fresh id, an empty span; an open span is discarded |
| CommandHistories.CommandHistory.RecordOutput | crates/koshell-rs/src/command_history.rs:346-395 | decoded text is appended to the open span only; the tail is kept |
| CommandHistories.CommandHistory.End | crates/koshell-rs/src/command_history.rs:399-423 | the span becomes the newest row, the oldest beyond ten goes, and the session cap is enforced |
| CommandHistories.CommandHistory.ClearCompleted | crates/koshell-rs/src/command_history.rs:432-434 | rows gone, open span and id counter untouched |
| CommandHistories.CommandHistory.AbandonActive | crates/koshell-rs/src/command_history.rs:438-445 | open span gone, rows untouched |
| CommandHistories.CommandHistory.TotalRetained | crates/koshell-rs/src/command_history.rs:448-457 | sums the bytes of rows and span |
| CommandHistories.CommandHistory.EnforceTotalCap | crates/koshell-rs/src/command_history.rs:465-477 | the loop over the rows reclaims as the oldest-first specification does |
| CommandHistories.CommandHistory.ReadPage | crates/koshell-rs/src/command_history.rs:485-526 | unknown id, evicted offset with the earliest one, or a page clamped to the text |
| CommandHistories.TruncateCommand | crates/koshell-rs/src/command_history.rs:242-254 | the boundary walk stores the specified beginning of the command line and reports whether it cut |
| CommandHistories.StoredIsLongest | crates/koshell-rs/src/command_history.rs:242-254 | what is stored is the longest beginning of whole characters within 4 KiB |
| CommandHistories.ReclaimIsOldestFirst | crates/koshell-rs/src/command_history.rs:465-477 | enforcement empties a prefix of the oldest rows, trims at most the next one by under four bytes more than needed, and leaves the newer rows alone |
| CommandHistories.ReclaimFreesExcess | crates/koshell-rs/src/command_history.rs:465-477 | the excess is freed whenever the rows hold it |
| CommandHistories.EnforcedExactly | crates/koshell-rs/src/command_history.rs:465-477 | a session within 4 MiB is left alone; otherwise exactly the excess is reclaimed, oldest rows first, by under four bytes more than needed |
| CommandLogs.RunRefinesLog | crates/koshell-rs/src/command_history.rs:318-477 | after any run of begin, record, end, clear and abandon, every row and the open span describe a tail of the lossy decoding of all their bytes, ids are fresh and stay with one command |
| CommandLogs.CapsHold | crates/koshell-rs/src/command_history.rs:447-477 | after every operation: at most 1 MiB per command, 4 MiB in all, ten rows, and the counters add up |
| CommandLogs.FittingStepDropsNothing | crates/koshell-rs/src/command_history.rs:318-445 | no operation that leaves the session within its cap changes any row that stays, except that an eleventh command drops the oldest and a clear drops all |
| CommandLogs.ChunkingIsInvisible | crates/koshell-rs/src/command_history.rs:346-395 | two chunks leave the open span exactly as one chunk of both |
| CommandLogs.ReadAnswersFromOriginal | crates/koshell-rs/src/command_history.rs:485-526 | each answer of a read is what the full original output says: a slice of it, starting where asked or at the earliest offset there is, as long as the limit or all that is left; or the true earliest offset; or not found |
| CommandLogs.PagesJoin | crates/koshell-rs/src/command_history.rs:485-526 | pages read at different times, with anything in between, join to one slice of the original output |
| CommandLogs.FollowIsSuffix | crates/koshell-rs/src/command_history.rs:485-526 | following the next offset while there is more ends, with exactly the suffix of the original output |
| CommandLogs.LogGrows | crates/koshell-rs/src/command_history.rs:318-338 | a finished command keeps its id and output for good; an id never resolves to another command |
| MarkerScanners.MarkerScanner.Feed | crates/koshell-rs/src/shell_integration.rs:234-280 | the draining loop gives the segments of the reference reading of held plus new bytes, no empty visible segment, and holds what is left |
| MarkerScanners.FindSubslice | crates/koshell-rs/src/shell_integration.rs:283-288 | the first occurrence, or none anywhere |
| MarkerScanners.PartialPrefixLen | crates/koshell-rs/src/shell_integration.rs:291-297 | the longest suffix that is a proper prefix of the marker prefix |
| MarkerScanners.ChunkingIsInvisibleIff | crates/koshell-rs/src/shell_integration.rs:233-280 | a chunking gives the markers, visible bytes and held bytes of one reading of the whole stream if and only if none of its feeds hits the cap |
| MarkerScanners.CappedStrays | crates/koshell-rs/src/shell_integration.rs:254-278 | from the first capped feed on, the run shows a byte where no reading of the stream, however it continues, shows one |
| MarkerScanners.ChunkingIsInvisible | crates/koshell-rs/src/shell_integration.rs:233-280 | in particular, on a stream that never has more than the cap pending every chunking is invisible |
| MarkerScanners.ReferenceInChunks | crates/koshell-rs/src/shell_integration.rs:233-280 | reading on from what is held equals reading the whole, for every split |
| MarkerScanners.ReferenceReassembles | crates/koshell-rs/src/shell_integration.rs:233-280 | visible bytes, markers with their frame, and held bytes are the input again |
| MarkerScanners.MarkerIsRead | crates/koshell-rs/src/shell_integration.rs:234-280 | a terminated marker is read as one wherever it starts, and reading goes on behind it |
| MarkerScanners.PlainBytesAreVisible | crates/koshell-rs/src/shell_integration.rs:234-280 | bytes without an escape character are all visible |
| MarkerScanners.FedReassembles | crates/koshell-rs/src/shell_integration.rs:254-278 | one feed, capped or not, reassembles its input, and holds a proper prefix of the marker prefix, or an unterminated marker of at most 64 KiB |
| MarkerScanners.RunReassembles | crates/koshell-rs/src/shell_integration.rs:234-280 | the same after any run of feeds |
| MarkerScanners.OverCapDependsOnChunking | crates/koshell-rs/src/shell_integration.rs:254-265 | an instance: a marker whose payload is exactly the cap is a marker in one chunk and visible bytes in two |
| Timelines.InMemoryTimelineStore.Record | crates/koshell-rs/src/timeline.rs:216-230 | the entry is added, and every 256th record compacts |
| Timelines.InMemoryTimelineStore.Compact | crates/koshell-rs/src/timeline.rs:238-296 | the backward pass and the filter leave exactly the entries the specification keeps, in order |
| Timelines.InMemoryTimelineStore.Maintain | crates/koshell-rs/src/timeline.rs:303-305 | one pass with full budgets |
| Timelines.InMemoryTimelineStore.Reset | crates/koshell-rs/src/timeline.rs:397-399 | no entries are left; ids and the compaction count run on |
| Timelines.Decide | crates/koshell-rs/src/timeline.rs:250-279 | the decision for one entry and what it takes from the budgets |
| Retention.KeptAreSpaced | crates/koshell-rs/src/timeline.rs:423-435 | the snapshots a pass keeps are at most seven days old, and each is at least its tier's spacing older than every newer one kept |
| Retention.SnapshotKeptIff | crates/koshell-rs/src/timeline.rs:250-264 | a pass keeps a snapshot if and only if it is at most seven days old, at least its tier's spacing older than every newer snapshot kept, and those hold under 32 MiB |
| Retention.TextKeptIff | crates/koshell-rs/src/timeline.rs:440-446 | a pass keeps a piece of input, PTY output or visible output if and only if under 32,000 characters of its kind are newer; the piece that straddles the limit is kept whole |
| Retention.OtherKeptIff | crates/koshell-rs/src/timeline.rs:270-279 | hidden input and bookkeeping events are kept if and only if at most seven days old |
| Retention.SmallStoreIsLog | crates/koshell-rs/src/timeline.rs:216-230 | under 256 records and no maintenance the store is the log |
| Retention.PassRetainsAtMost753 | crates/koshell-rs/src/timeline.rs:112-173 | a pass at a time not before any entry keeps at most 753 snapshots |
| Retention.RoomShrinks | crates/koshell-rs/src/timeline.rs:412-435 | across the seven tiers, each further snapshot kept uses up a slot |
| Retention.RunHoldsAtMost1008 | crates/koshell-rs/src/timeline.rs:216-305 | under a clock that does not go back, a store holds at most 1,008 snapshots at any time |
| Retention.PassRetainsUnder32MiB | crates/koshell-rs/src/timeline.rs:250-264 | the snapshots kept other than the oldest total under 32 MiB |
| Retention.CompactionIsIdempotent | crates/koshell-rs/src/timeline.rs:238-296 | compacting twice at one instant is compacting once |
| TerminalContexts.CompactedText | crates/koshell-rs/src/timeline.rs:238-296 | a pass keeps the end of each kind of text, up to its budget |
| TerminalContexts.RunKeepsText | crates/koshell-rs/src/timeline.rs:216-305 | after any run the text of each kind is the end of the full log's, all of it up to 32,000 characters |
| TerminalContexts.RunKeepsLatestIff | crates/koshell-rs/src/timeline.rs:216-305 | after any run the latest snapshot is the full log's if and only if no compaction since it was recorded found it over seven days old |
| TerminalContexts.RunRises | crates/koshell-rs/src/timeline.rs:216-230 | over every run entries are numbered in rising order, no id twice |
| TerminalContexts.LatestSurvivesIff | crates/koshell-rs/src/timeline.rs:250-262 | a pass keeps the latest snapshot if and only if it is at most seven days old |
| TerminalContexts.StoreRefinesLog | crates/koshell-rs/src/context.rs:113-192 | in particular, for budgets up to 32,000 and a latest snapshot that has not been dropped, the context built from the bounded store equals the one built from the full log since the last reset; the truncation flag needs a visible budget below 32,000 |
| TerminalContexts.ContextAgreesIff | crates/koshell-rs/src/context.rs:113-192 | for any budgets and a latest snapshot that has not been dropped, store and log give the same context if and only if the store holds all of each kind of text or at least its budget, and primary visible text was not cut to exactly the budget by compaction alone |
| TerminalContexts.FlagLostAtLimit | crates/koshell-rs/src/context.rs:80-84 | such a run: the store reports untruncated text, the log truncated |
| TerminalContexts.UntruncatedIsEverything | crates/koshell-rs/src/context.rs:261-289 | an untruncated primary text from the PTY is all the PTY output since the last reset |
| ContextFields.PrimaryIs | crates/koshell-rs/src/context.rs:261-289 | on the fields of any context: the screen is primary exactly if it has text and either the alternate screen is on or neither output has; visible output comes before raw output, raw output never on the alternate screen; the primary text is the field chosen |
| ContextFields.TruncatedIff | crates/koshell-rs/src/context.rs:169-178 | the flag says whether the screen or the visible output was cut, and for raw output whether its budget was reached |
| ContextFields.RecentIsLast | crates/koshell-rs/src/context.rs:113-160 | each text of a context is the last characters of that kind, or all of them |
| ContextFields.ScreenIsLatest | crates/koshell-rs/src/context.rs:94-160 | screen, alternate flag and size are those of the last snapshot; an empty screen is none |
| ContextFields.OneText | crates/koshell-rs/src/context.rs:194-214 | an entry adds to the text of its own kind only |
| ContextFields.TextsJoin | crates/koshell-rs/src/context.rs:194-214 | texts follow each other in the order of the entries |
| ContextFields.HiddenInputStaysOut | crates/koshell-rs/src/context.rs:194-203 | hidden input leaves no trace in a context |
| Triggers.ExtractQuestion | crates/koshell-rs/src/trigger.rs:844-867 | the scanning loop splits as specified, or finds nothing |
| Questions.QuestionIs | crates/koshell-rs/src/trigger.rs:844-867 | a line asks exactly if `#?` stands in it neither quoted nor escaped; the first such token splits it into the left part and, white space aside, the question |
| Questions.PlainTokenAsks | crates/koshell-rs/src/trigger.rs:844-867 | a token with no quote or backslash in front of it asks |
| Questions.SingleQuoted | crates/koshell-rs/src/trigger.rs:844-867 | nothing asks inside single quotes, and quoting is over behind them |
| Questions.DoubleQuoted | crates/koshell-rs/src/trigger.rs:844-867 | nor inside double quotes |
| Questions.Escaped | crates/koshell-rs/src/trigger.rs:844-867 | nor behind a backslash outside single quotes |
| Triggers.FirstTrigger | crates/koshell-rs/src/trigger.rs:844-867 | the position is the first one, and none means there is none |
| Triggers.SessionState.RecordInput | crates/koshell-rs/src/trigger.rs:344-379 | byte by byte: capture on Enter, cancel on Ctrl+C, nothing on the alternate screen |
| Triggers.SessionState.CaptureSubmittedLine | crates/koshell-rs/src/trigger.rs:385-409 | one more pending question with the next id, or none |
| TriggerRuns.CancelSettles | crates/koshell-rs/src/trigger.rs:411-424 | cancelling settles each pending question as often as it was pending, and no other |
| Questions.KeyDoes | crates/koshell-rs/src/trigger.rs:344-409 | Enter captures one question, with the text of the line, exactly when armed and the line asks; Ctrl+C off the alternate screen withdraws all; no other key does anything |
| Questions.StartDoes | crates/koshell-rs/src/trigger.rs:617-658 | a fresh span's start captures its question exactly if its command line asks |
| Questions.EndDoes | crates/koshell-rs/src/trigger.rs:659-707 | a span's end fires every pending question in order, or else the one its command line asks unless settled before |
| Questions.RunKnows | crates/koshell-rs/src/trigger.rs:344-707 | over every run all mentions of a question, pending, fired, cancelled or announced, carry one text |
| Questions.RunInStep | crates/koshell-rs/src/trigger.rs:428-443 | over every run the quiet clock counts from the last visible output, and a command is running exactly from its start marker to its end marker |
| Questions.RunSettles | crates/koshell-rs/src/trigger.rs:344-707 | over every run a span's question counts as settled exactly by a Ctrl+C while it ran or a fire that left it running |
| Questions.OutputRearms | crates/koshell-rs/src/trigger.rs:428-443 | any visible output arms Enter again and leaves the pending questions |
| Questions.ClearerRestFiresSooner | crates/koshell-rs/src/trigger.rs:187-206 | the clearer the cursor rests the sooner a question fires, in a program never later than at the prompt, and in no case after two minutes |
| Triggers.SessionState.RecordOutput | crates/koshell-rs/src/trigger.rs:428-443 | the output time moves, nothing else does |
| Triggers.SessionState.HandleStart | crates/koshell-rs/src/trigger.rs:617-658 | the span opens, and its question becomes pending once |
| Triggers.SessionState.HandleEnd | crates/koshell-rs/src/trigger.rs:659-707 | all pending questions fire, and the fallback only when the span carried none |
| Triggers.SessionState.Poll | crates/koshell-rs/src/trigger.rs:509-570 | due questions fire, the rest stay in order, receipts once each |
| Triggers.SessionState.NextDeadlineDelay | crates/koshell-rs/src/trigger.rs:478-505 | the time to the nearest of all deadlines, at least one millisecond |
| TriggerRuns.EachQuestionSettlesOnce | crates/koshell-rs/src/trigger.rs:344-424 | over every run, each question captured is exactly once in pending, fired or cancelled, and nothing else ever is |
| TriggerRuns.RunHolds | crates/koshell-rs/src/trigger.rs:615-658 | between its start and end markers the question a span carried stays accounted for |
| TriggerRuns.SpanQuestionSettledAtEnd | crates/koshell-rs/src/trigger.rs:659-707 | once the end marker has been handled the span's question has settled exactly once, and the fallback has not fired it again |
| TriggerRuns.DeadlineAgreesWithPoll | crates/koshell-rs/src/trigger.rs:478-570 | off the alternate screen a poll acts once the computed delay is over and not before; the only early action is one already due when the delay was computed |
| TriggerRuns.EarliestIsDue | crates/koshell-rs/src/trigger.rs:212-216 | a question needs attention exactly from its earliest deadline on |
| TriggerRuns.PollSettlesEverythingDue | crates/koshell-rs/src/trigger.rs:509-570 | after a poll no question has outlived its max-wait or is due; a stabilized fire had a full quiet tier after both output and submission, any other had none but reached its max-wait; a fire is marked still running exactly for a prompt question while a command runs; a second poll does nothing |
| ScreenDiffs.BuildHunks | crates/koshell-rs/src/screen_diff.rs:186-224 | for every valid edit script the hunks applied to the old lines give the new ones and reverted give the old ones; they are ordered, disjoint and truthfully numbered, and their sizes are the script's counts |
| ScreenDiffs.DiffScreenText | crates/koshell-rs/src/screen_diff.rs:81-108 | the summary counts are the hunks' sizes and their difference is the difference in length |
| ScreenDiffs.HunkBuilder.Flush | crates/koshell-rs/src/screen_diff.rs:136-151 | the pending hunk, if any, is completed at its positions |
| ScreenDiffs.HunkBuilder.Removed | crates/koshell-rs/src/screen_diff.rs:153-164 | one old line consumed into the pending hunk |
| ScreenDiffs.HunkBuilder.Added | crates/koshell-rs/src/screen_diff.rs:166-177 | one new line produced into the pending hunk |
| ScreenDiffs.HunkBuilder.Equal | crates/koshell-rs/src/screen_diff.rs:179-183 | the pending hunk closed, both positions moved on |
| ScreenDiffs.PatchesApply | crates/koshell-rs/src/screen_diff.rs:122-184 | hunks with this invariant turn the old prefix into the new one |
| ScreenDiffs.PatchesRevert | crates/koshell-rs/src/screen_diff.rs:122-184 | and back |
| ScreenDiffs.PatchesOrdered | crates/koshell-rs/src/screen_diff.rs:122-184 | each hunk ends before the next starts, in both texts |
| StyledRows.RowStyled | crates/koshell-rs/src/mirror.rs:213-245 | the printed row, interpreted as SGR, shows exactly the first visible non-spacer characters with their styles and ends in the default state |
| StyledRows.SgrParams | crates/koshell-rs/src/mirror.rs:304-321 | the loop pushes the parameters of the specification |
| StyledRows.ParamsGiveStyle | crates/koshell-rs/src/mirror.rs:304-355 | the parameters of a cell, interpreted from the default state, give its style up to the printer's normalisation |
| StyledRows.ColorInterpreted | crates/koshell-rs/src/mirror.rs:326-355 | the parameters of a colour set that colour and leave the rest to be read |
| ModelPatches.PatchRootModel | packages/ai-daemon/src/model-service.ts:114-143 | the loop over lines replaces the first root value, refuses an unreadable one, or prepends a line when none precedes the first table header |
| ModelPatches.LastWriteWins | packages/ai-daemon/src/model-service.ts:114-143 | patching a successful patch equals patching the original |
| ModelPatches.PatchSetsModel | packages/ai-daemon/src/model-service.ts:114-143 | after a patch the root model read back is the one asked for; the reader is the model's own, for one-line basic and literal strings, and more lenient than TOML |
| ModelPatches.QuotedIsTomlIff | packages/ai-daemon/src/model-service.ts:115 | what is written between the quotes matches the grammar of a TOML basic string, escapes included, if and only if the name has no U+007F, which JSON quoting leaves as it is |
| ModelPatches.PatchIsLocal | packages/ai-daemon/src/model-service.ts:114-143 | everything outside the root value is kept and the new value stands in its place; or exactly one line is put before the whole old text |
| ModelPatches.FindIsFirst | packages/ai-daemon/src/model-service.ts:117-140 | the deciding line is the first that is a table header or a root model assignment |
| ModelLines.PartsAreRoot | packages/ai-daemon/src/model-service.ts:109-112 | a line of space, a spelling of the key, space, equals sign, space, a quoted value and a tail is a root model line with its value there |
| ModelLines.RootHasParts | packages/ai-daemon/src/model-service.ts:109-112 | and every root model line is one |
| ModelLines.HeaderIff | packages/ai-daemon/src/model-service.ts:112 | a table header is a line whose first character behind space is an opening bracket |
| ModelPatches.FindSpliced | packages/ai-daemon/src/model-service.ts:136-138 | the replaced value is found again at the same place |
| ModelPatches.ClassifySpliced | packages/ai-daemon/src/model-service.ts:109-112 | the regular expressions match the edited line with the new value in the old one's place |
| ModelPatches.QuotedIsValue | packages/ai-daemon/src/model-service.ts:115 | a JSON string is read as one basic string, whatever follows it |
| ModelPatches.EscapesAreUndone | packages/ai-daemon/src/model-service.ts:115 | unescaping gives back what was quoted |

## Left out

- Sockets, threads, signals, PTY and file handling, raw mode, write errors, logging and event-log records.
- `alacritty_terminal`: a mirror is an arbitrary function, or the small terminal, which has one-column characters, no height or scrollback limit, and prints every character but carriage return and line feed.
- Anchored streaming with a resize, the alternate screen, or typing between two deltas; each step theorem starts from any drawn live line, so a line redrawn by the shell in between is a new start.
- `similar`: the edit operations are any valid script from the old lines to the new.
- Marker payload parsing: any total function of the payload.
- The spelling of control sequences and decimal parameters: control functions are tokens with numbers.
- Integer widths: ages and sizes are unbounded; the saturating subtractions of ages change no comparison.
- Command metadata (working directory, timestamps, warnings, previews), and the context package, question form and timeline records inside the trigger engine.
- `get_recent_text` and recent screen changes: compaction changes them.
- Attribution of bytes to commands while output is held: markers are handled at once, so the code does not promise it.
- The answer block of a response in block mode as a picture on the terminal: the same insertion as a tool line.
- The regular expressions of `patchRootModel` are deterministic matchers; lone surrogates are not modelled.
- Wide characters and their spacers in the live line (they are modelled in the row printer).
- Colours on the terminal: the sampled rows carry the styles of their cells, but the terminal's own cells have none, so the redrawn line is stated in cells, cursor and pending wrap only, and the pen at the cursor is not restored by the code.
- Spare capacity of vectors after compaction.
- Message framing, quoting and splitting helpers, spawn cooldown, prompts, catalog and user interface text.
