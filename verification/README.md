# Verification of the gateway's core

A Dafny model of the stateful and algorithmic core of an LLM gateway written in Go, with proofs
about every run, stream, text or request rather than about single steps. `dafny verify dfyconfig.toml`
checks the whole project (Dafny 4.11).

Code that updates state is a class whose methods are proved equal to a function on values; what the
code promises is then proved about that function, over all inputs and all runs.

| files | what they model |
|---|---|
| `stream_model`, `stream_framing`, `stream_writer`, `stream_log` | the translator that re-frames an OpenAI chunk stream as Anthropic events: its state machine, its line framing, the class that does both in place, and the exact events of a stream |
| `stream_batch`, `stream_capture`, `stream_agreement` | the second implementation, which reads a captured body in one go, and exactly when the two agree |
| `stream_discipline` | a client automaton for the event protocol, and exactly which streams it accepts |
| `word_diff` | the LCS table, the walk back and the segments of the diff view |
| `code_blocks`, `frozen_positions`, `caveman`, `ultra`, `trim_fences` | the lossless splitter into frozen and free text, which positions it freezes, and the rewriters on top of it |
| `chat`, `lite`, `aggressive`, `pipeline`, `duplicates` | chat bodies, the four compression modes up to `Apply`, and which messages they drop |
| `lite_passes`, `aging`, `mode_results` | what the passes, the aging by distance and the modes make of a message list, written out |
| `lite_passes`, `aging`, `mode_results` | what the passes, the aging by distance and the modes make of a message list, written out |
| `lite_passes`, `aging`, `mode_results` | what the passes, the aging by distance and the modes make of a message list, written out |
| `lite_passes`, `aging`, `mode_results` | what the passes, the aging by distance and the modes make of a message list, written out |
| `lite_passes`, `aging`, `mode_results` | what the passes, the aging by distance and the modes make of a message list, written out |
| `rate_limit`, `login_limiter` | the token bucket and the two-window sliding log |
| `health` | the circuit breaker |
| `schedulers`, `combo`, `proxy_pool`, `proxy_entries` | the pools: cyclic scans, combos, the proxy index and its entries |
| `combo_retry` | the handler's retry chain over a combo's models, and the buffered writer it answers through |
| `cache`, `cost` | the response cache and the price lookup |
| `seqs`, `modular`, `go_strings` | sequences, remainders, Go's string functions |

Clock readings, health states, decoded JSON and upstream results are arguments. A mutex-protected
section is one atomic step.

## Where the code differs from what it says

- A stream whose tool call closes the text block and then goes on with text emits a text delta outside
  any open block (`TextAfterTool`). `DisciplineIff` says the protocol holds exactly when no text follows
  such a close, and `DisciplineExact` covers anything sent after `[DONE]`.
- The two readers of one upstream stream part ways if, for example, a tool's arguments come before its
  name (`EarlyArgumentsDiffer`); `StreamAgreesIff` gives the exact condition.
- Redundant messages are documented as those byte-identical to the one before them. They are looked for
  after the messages were edited, so a message that repeated nothing can go: in lite mode if its whitespace
  alone told it apart (`LiteFallsIff`; `LiteLosesOriginal` is such a pair), in aggressive mode if aging has
  cut two old questions down to the same first line (`OldUsersFall`; `AggressiveLosesOriginal` is such a
  conversation). `GoneIff` says for every message and mode exactly when it is gone.
- The cleanup of the token bucket, meant to be invisible, forgets debts: `CleanupUnnoticedIff` says it is
  invisible exactly when ten minutes of refill are at least the burst.
- A failed probe does not reopen a half-open circuit: it stays half-open and admits nothing until some
  success is recorded (`SpentUntilSuccess`; `FailedProbeStays` is such a run).
- A permanently disabled CodeBuddy key is documented never to be re-enabled on its own. A request still
  in flight that is answered 429 turns the disable into a cooldown, which the worker lifts
  (`PermanentLifted`); `PermanentLiftedIff` gives the exact condition.
- A stored response may be evicted by its own `Put`: expired keys stay in the queue (`PutThenMiss`), and
  the queue has no bound (`QueueUnbounded`, on a clock that never goes back). `PutThenGetIff` gives the
  exact condition.
- The comments in internal/proxy/combo.go say that the proxy walks a fallback combo with `NextInFallback`.
  Only tests call that function: the handler ranges over the list itself (`RetryChain`), so it tries each
  position at most once, the repeats of a model too, and always ends. It goes on after a 404, where two
  comments say that every 4xx ends it (`LastTryIs`).
- The walk always starts at the head of the list. For `fill_first` and `priority` the combo has resolved to
  the first model with a closed circuit, and a comment takes that for the head; `StartsAtPickIff` says
  exactly when it is.
- A candidate is meant to be sent the client's reasoning effort or its own. All candidates share one body,
  so the first effort written into it stays: `OwnEffortIff` gives the exact condition, `EffortSticks` a list
  in which two candidates are sent the effort of the first.
- The comment on the proxy pool's update says that a blank label falls back to the existing one; the code takes it
  as given (`ChangeIs`).
- Inline code is documented as frozen; the closing backtick opens the following prose segment and is
  handed to the rewriters with it (`ClosingTickFree`; `TickMaskAt` and `FrozenMaskAt` state the frozen
  positions as they are).

## Model

| member | source | states |
|---|---|---|
| `StreamModel.Allocate` | internal/handlers/anthropic.go:619-649 | a tool index already known keeps its block; a new one gets the next Anthropic index and joins the order |
| `StreamModel.StepOk` | internal/handlers/anthropic.go:556-773 | every chunk operation keeps the block table injective: indices 1 up to the counter, one per tool, in order |
| `StreamModel.FinalizeOk` | internal/handlers/anthropic.go:776-816 | closing the stream keeps the block table and its order |
| `StreamModel.RunOk` | internal/handlers/anthropic.go:487-816 | the block table is consistent after every run |
| `StreamModel.RunPlus` | internal/handlers/anthropic.go:696-773 | a run can be cut anywhere: running b after a is running a then b |
| `StreamFraming.FeedTwice` | internal/handlers/anthropic.go:672-689 | two writes leave the state, events and carry one write of the concatenation leaves |
| `StreamFraming.ChunkingInvisible` | internal/handlers/anthropic.go:672-689 | any partition of the upstream bytes into writes leaves the same state, events and carry as one write |
| `StreamFraming.StreamIsSession` | internal/handlers/anthropic.go:672-689 | with status below 400 the drained stream is the session of the body's lines, however it was cut |
| `StreamFraming.ErrorBodyKept` | internal/handlers/anthropic.go:672-693 | with a status from 400 on nothing is translated, and the error buffer ends as the upstream's body |
| `StreamFraming.LineAdded` | internal/handlers/anthropic.go:672-705 | lines end at a newline, the carriage returns before it go, the last line need not end: a body says what its lines say, in order |
| `StreamFraming.LineMeans` | internal/handlers/anthropic.go:696-731 | whatever white space, in UTF-8, surrounds its payload, a `data:` line says nothing if that is empty, the end if it is `[DONE]`, and else what the decoded chunk says |
| `StreamFraming.OtherLine` | internal/handlers/anthropic.go:696-699 | a line of any other kind says nothing |
| `StreamFraming.ChunkMeans` | internal/handlers/anthropic.go:732-773 | a chunk says its usage, then the text, the tool deltas and the finish reason of its first choice |
| `StreamWriting.StreamWriter.WriteHeader` | internal/handlers/anthropic.go:545-551 | records the status and changes nothing else |
| `StreamWriting.StreamWriter.EnsureStarted` | internal/handlers/anthropic.go:556-585 | emits message_start once; the state is the model's after EnsureStart |
| `StreamWriting.StreamWriter.EnsureTextBlock` | internal/handlers/anthropic.go:589-599 | opens block 0 unless it is open or closed for good |
| `StreamWriting.StreamWriter.CloseTextBlock` | internal/handlers/anthropic.go:603-612 | stops block 0 once |
| `StreamWriting.StreamWriter.EnsureToolBlock` | internal/handlers/anthropic.go:619-649 | the map, the counter and the returned block are the model's, id and name filled in once |
| `StreamWriting.StreamWriter.OpenToolBlock` | internal/handlers/anthropic.go:632-648 | opens a named tool's block, closing the text block first |
| `StreamWriting.StreamWriter.CloseToolBlock` | internal/handlers/anthropic.go:652-661 | stops an open tool block once |
| `StreamWriting.StreamWriter.OrderedTools` | internal/handlers/anthropic.go:790-806 | the in-place insertion sort of a map's values, from any iteration order, is the first-seen order |
| `StreamWriting.StreamWriter.FinalizeStream` | internal/handlers/anthropic.go:776-816 | the closing events are the model's, and a second call does nothing |
| `StreamWriting.StreamWriter.ProcessToolCall` | internal/handlers/anthropic.go:756-769 | one tool delta is one model step |
| `StreamWriting.StreamWriter.ProcessLine` | internal/handlers/anthropic.go:696-773 | one line is the run of the operations it decodes to; comments, other fields and bad JSON do nothing |
| `StreamWriting.StreamWriter.Write` | internal/handlers/anthropic.go:672-689 | the carry loop is Feed: the whole new state is the model's, and all bytes are reported written |
| `StreamWriting.StreamWriter.Close` | internal/handlers/anthropic.go:918-926 | flushing the carry and finalizing is Drain |
| `StreamAgreement.StreamReads` | internal/handlers/anthropic.go:619-773 | after every stream without `[DONE]` the events rebuild to the text and, tool by tool in naming order, the id and name known at opening and the arguments from the name on |
| `StreamLog.EventsAre` | internal/handlers/anthropic.go:556-773 | the exact events one more delta sends, from the operations before it: message_start before the first text or tool delta, a text start before the first text, the text block's stop and a tool start at a tool's first name, its arguments from then on; usage and finish reasons send nothing |
| `StreamLog.EndIs` | internal/handlers/anthropic.go:776-816 | the exact closing events: the stops of what is open, the text block first and the tools in first-seen order, then message_delta with the word for the last finish reason and message_stop; a stream that said nothing ends without events |
| `StreamAgreement.StreamEnding` | internal/handlers/anthropic.go:423-438 | a stream ends in message_delta and message_stop; the delta says end_turn, max_tokens, stop_sequence or tool_use for the last nonempty finish reason, and carries the last usage record's completion count |
| `StreamAgreement.BatchReads` | internal/handlers/anthropic.go:1199-1231 | after every stream the batch reader holds the text and, tool by tool in first-seen order, the last id and name and all arguments |
| `StreamAgreement.StreamAgreesIff` | internal/handlers/anthropic.go:696-816 | the message rebuilt from the events is the batch reading exactly if the tools are named in first-seen order, all of them, before any arguments, no later id or name replaces the first, and the last finish reason maps as the last nonempty one |
| `StreamAgreement.AgreeableMatched` | internal/handlers/anthropic.go:1199-1231 | that holds if every first delta names its tool, no later delta contradicts it and no finish reason is empty |
| `StreamAgreement.StreamAgreesWithBatch` | internal/handlers/anthropic.go:696-816 | for such streams text, tool ids, names, arguments and order and the stop reason rebuilt from the events are the batch reading's; a missing `[DONE]` changes nothing once started |
| `StreamAgreement.LateNameAgrees` | internal/handlers/anthropic.go:619-649 | a tool named in its second delta is read alike by both |
| `StreamAgreement.EarlyArgumentsDiffer` | internal/handlers/anthropic.go:756-769 | arguments that come before the name reach the batch reader only |
| `StreamCapture.AccumulateChoice` | internal/handlers/anthropic.go:1199-1231 | the accumulation loops over one choice add it to the batch |
| `StreamCapture.ExtractFromCapturedBody` | internal/handlers/anthropic.go:1132-1247 | the whole-body attempt, then the line scan: text, finish reason and tool calls of the body |
| `StreamCapture.WholeReading` | internal/handlers/anthropic.go:1132-1160 | a body is read whole exactly if it starts with a brace and decodes to a completion with a choice |
| `StreamCapture.ScannableIs` | internal/handlers/anthropic.go:1161-1180 | else it is scanned up to the first line of four megabytes |
| `StreamCapture.FullMessage` | internal/handlers/anthropic.go:1180-1198 | a chunk with a full message adds its text and its tool calls, at the end of the list, where the choice has no text of its own |
| `StreamCapture.BodyAgrees` | internal/handlers/anthropic.go:1132-1247 | on bytes: what a client rebuilds from the stream, however it is cut, is what the batch reader returns for the body exactly if the stream is matched as in StreamAgreesIff |
| `StreamDiscipline.AcceptedEnvelope` | internal/handlers/anthropic.go:556-585 | an accepted stream has one message_start, first, one message_stop, last, and block stops ascending |
| `StreamDiscipline.AcceptedBlock` | internal/handlers/anthropic.go:589-661 | in an accepted stream a block is started once, stopped once and later, with its deltas in between |
| `StreamDiscipline.NothingAfterFinished` | internal/handlers/anthropic.go:776-816 | an accepted stream cannot be continued |
| `StreamDiscipline.RunTracked` | internal/handlers/anthropic.go:696-773 | without text after a close, every run's events are what the writer's flags say is open |
| `StreamDiscipline.DisciplineIff` | internal/handlers/anthropic.go:696-816 | a stream ending in its only `[DONE]` is accepted exactly if no text follows a tool that closed the text block |
| `StreamDiscipline.DisciplineExact` | internal/handlers/anthropic.go:696-816 | the same for any stream with a `[DONE]` in it: exactly if, moreover, all that follows is quiet |
| `StreamDiscipline.TextAfterTool` | internal/handlers/anthropic.go:589-612 | text, a named tool, text again: the client rejects the stream |
| `StreamDiscipline.BlockNumbers` | internal/handlers/anthropic.go:619-649 | distinct tool indices get the distinct block indices 1, 2, … in first-seen order |
| `StreamDiscipline.OrderIsFirstSeen` | internal/handlers/anthropic.go:790-806 | the order in which blocks are closed is first-seen order |
| `WordDiffing.LcsBound` | internal/compression/studio.go:198-208 | no common subsequence of two prefixes is longer than the table's recurrence |
| `WordDiffing.OptimalKeep` | internal/compression/studio.go:198-254 | common words as many as the recurrence says are a longest common subsequence |
| `WordDiffing.FillTable` | internal/compression/studio.go:195-208 | every cell of the table holds the LCS length of its two prefixes |
| `WordDiffing.Flush` | internal/compression/studio.go:219-232 | pending words join the segments of their kind, in order, and no other |
| `WordDiffing.Backtrack` | internal/compression/studio.go:233-249 | the walk collects as many kept words as the corner says, and the rest of each input |
| `WordDiffing.Reverse` | internal/compression/studio.go:250-253 | the in-place swap loop reverses the segments |
| `WordDiffing.WordDiff` | internal/compression/studio.go:179-255 | kept words are a longest common subsequence of the capped inputs; removed and added words are exactly the complements, in order |
| `CodeBlocks.TickMaskAt` | internal/compression/codeblocks.go:114-134 | inside prose a position is frozen exactly if the backticks up to it are odd in number |
| `CodeBlocks.ClosingTickFree` | internal/compression/codeblocks.go:114-134 | of a code span the opening backtick and the code are frozen, the closing backtick is not |
| `CodeBlocks.SplitInlineCode` | internal/compression/codeblocks.go:114-134 | lossless; the segments' flags are the backtick parity; none is empty; no two prose segments meet |
| `CodeBlocks.RegionMaskAt` | internal/compression/codeblocks.go:68-111 | a position is frozen exactly on a fence line, after an odd number of fence lines, or at odd backtick parity of its prose run; a fence line has three backticks with nothing but space before them |
| `CodeBlocks.FenceIs` | internal/compression/codeblocks.go:82-84 | the splitter's test is that: trimmed, the line begins with three backticks |
| `GoStrings.TrimSpaceIs` | internal/compression/codeblocks.go:83 | trimming cuts the white space at both ends and nothing else, by code point |
| `CodeBlocks.SplitFencedAndInline` | internal/compression/codeblocks.go:68-111 | lossless, and flagged exactly as RegionMaskAt says |
| `CodeBlocks.SplitThinkBlocks` | internal/compression/codeblocks.go:42-65 | lossless; think regions are frozen, an unclosed one to the end; prose segments are maximal |
| `CodeBlocks.SplitCodeBlocks` | internal/compression/codeblocks.go:25-38 | the three layers together: lossless, frozen exactly where the mask says, no empty segment, no two prose segments side by side |
| `FrozenPositions.OutMaskAt` | internal/compression/codeblocks.go:42-65 | a position is frozen by the reasoning layer exactly if it lies in a think block, which ends at its closing tag or with the text |
| `FrozenPositions.FrozenMaskAt` | internal/compression/codeblocks.go:25-134 | for every position of a whole text, in characters and counts: frozen exactly between `<think>` and `</think>`, or, in the gap between two such blocks, on a fence line, after an odd number of the gap's fence lines, or at odd backtick parity of its prose run |
| `CodeBlocks.JoinSegments` | internal/compression/codeblocks.go:136-142 | the concatenation of the segments' texts |
| `CodeBlocks.RewriteIs` | internal/compression/caveman.go:187-212 | rewriting the prose segments is rewriting every maximal free run of the text, whatever the rewriter |
| `CodeBlocks.RewriteKeepsFrozen` | internal/compression/caveman.go:187-212 | whatever the rewriter, the frozen runs stay verbatim, in place and in order |
| `CodeBlocks.RewriteNothing` | internal/compression/ultra.go:147-160 | a rewriter that changes no free run changes nothing |
| `Caveman.RewriteProse` | internal/compression/caveman.go:194-209 | the rule loop applies the eligible rules in order and reports those that replaced something |
| `ModeResults.RulesApplied` | internal/compression/caveman.go:194-229 | the rewritten text comes about rule by rule: those for all roles or this one, up to the intensity, each where it matches; the names reported are those of the rules that replaced something |
| `ModeResults.StandardAt` | internal/compression/caveman.go:140-212 | in standard mode: unprotected strings from 20 characters on, every free run rewritten, and nothing else |
| `ModeResults.StandardResultIs` | internal/compression/caveman.go:140-183 | the result is that of every message, in order, and there is none exactly if nothing changed |
| `Caveman.NoRuleNoChange` | internal/compression/caveman.go:194-209 | a text no rule matched is unchanged |
| `Caveman.CavemanRewrite` | internal/compression/caveman.go:187-212 | every maximal prose run rewritten by the rules, frozen runs verbatim; nothing used, nothing changed |
| `Ultra.StableSortSorted` | internal/compression/ultra.go:73-120 | a stable sort by score is the order by (score, position) |
| `Ultra.TargetAtCallSite` | internal/compression/ultra.go:73-120 | at rate 0.6 the target is the exact ceiling of 3n/5 |
| `Ultra.SelectPruned` | internal/compression/ultra.go:73-120 | what goes scores below the minimum, is at most the quota, stops only when low tokens run out, and precedes every low token that stays |
| `Ultra.SelectionUnique` | internal/compression/ultra.go:73-120 | these conditions leave exactly one selection |
| `Ultra.SurvivorsOf` | internal/compression/ultra.go:73-120 | every token at or above the minimum survives, and at least the target number |
| `Ultra.PruneByScore` | internal/compression/ultra.go:73-120 | for every rate, the survivors in order with single spaces; never longer than the input |
| `ModeResults.FieldsAt` | internal/compression/ultra.go:73-80 | the words are the maximal stretches without blanks, tabs and newlines |
| `ModeResults.PrunedIs` | internal/compression/ultra.go:73-120 | of n words at most n minus three fifths of n, rounded up, go, all below 0.3, lowest score first and earlier first among equals, and fewer only if no more score so low |
| `ModeResults.LowTokens` | internal/compression/ultra.go:32-70 | scored below 0.3 are stop words, at 0.1, and tokens of one or two characters, at 0.2, unless they hold a digit, a dot, underscore or slash, a URL, an error marker or a fence |
| `ModeResults.UltraAt` | internal/compression/ultra.go:124-166 | in ultra mode: unprotected strings from 40 characters on, every free run pruned, if that makes the message shorter |
| `ModeResults.UltraResultIs` | internal/compression/ultra.go:124-174 | the result is that of every message, in order, and there is none exactly if nothing changed |
| `Ultra.UltraRewrite` | internal/compression/ultra.go:147-166 | every prose run pruned if that shortens the message, frozen runs verbatim, never longer |
| `Ultra.ForcedSurvive` | internal/compression/ultra.go:32-120 | numbers, URLs, paths, error markers and fences are the same, as many and in the same order, before and after pruning, whatever the stop words |
| `TrimFences.TrimCodeFences` | internal/compression/summarizer.go:139-177 | the cursor loop terminates and is the recursive trimmer |
| `TrimFences.TrimIsCollapse` | internal/compression/summarizer.go:139-177 | trimming keeps all text outside complete fences and bodies of up to four lines, and of longer ones the first three lines and the last |
| `TrimFences.ParseWellFormed` | internal/compression/summarizer.go:139-177 | every text is a sequence of plain text and complete fences that renders back to it |
| `TrimFences.ParseUnique` | internal/compression/summarizer.go:139-177 | that reading is the only one |
| `TrimFences.CollapsedLines` | internal/compression/summarizer.go:160-172 | what a collapsed body consists of, line by line |
| `TrimFences.TrimIdempotent` | internal/compression/summarizer.go:139-177 | trimming twice is trimming once, on every text |
| `Chat.TextOf` | internal/compression/compression.go:182-200 | the string, or the texts of the blocks concatenated |
| `Chat.Body.SnapshotTokens` | internal/compression/compression.go:165-179 | the sum over the messages of a quarter of the characters, rounded up |
| `Chat.Body.Clone` | internal/compression/compression.go:209-219 | a new body with the same contents |
| `Lite.CollapseNewlineRuns` | internal/compression/lite.go:98-114 | drops every newline after the second of a run |
| `Lite.NormalizeWhitespace` | internal/compression/lite.go:89-96 | short newline runs, then no blanks at line ends |
| `Lite.NormalizeVisible` | internal/compression/lite.go:89-114 | no other character is lost or moved |
| `LitePasses.NormalizeIs` | internal/compression/lite.go:89-114 | normalising keeps two newlines of every run and every other character, then takes exactly the blanks and tabs at the line ends |
| `Lite.CollapseWhitespace` | internal/compression/lite.go:58-87 | applied to unprotected string messages only; applied exactly if something changed |
| `Lite.DedupSystemPrompt` | internal/compression/lite.go:118-145 | system messages whose key was seen go, nothing at all when the system prompt is preserved |
| `LitePasses.DedupIs` | internal/compression/lite.go:118-145 | exactly the system strings go whose first 200 characters an earlier one that stays begins with |
| `Lite.CutAt` | internal/compression/lite.go:284-313 | the cut is within 80 characters of the hard cut and between words, unless that window holds no space |
| `LitePasses.CutIs` | internal/compression/lite.go:277-313 | a cut inside a word goes back to the last gap of the 80 characters before it, else on to the first of the 80 after it, else it stays; any other cut stays |
| `Lite.BackOffToWordBoundary` | internal/compression/lite.go:284-313 | the two search loops find that cut; a cut outside the text is returned as it is |
| `Lite.CompressToolResults` | internal/compression/lite.go:149-170 | tool results over 2000 characters are cut and marked, all else kept |
| `LitePasses.ToolResultIs` | internal/compression/lite.go:149-170 | tool strings over 2000 characters end at that cut, with the mark; other messages stay |
| `Lite.RemoveRedundantContent` | internal/compression/lite.go:174-198 | exactly the unprotected messages equal in role and nonempty text to their predecessor go |
| `LitePasses.DropsExactly` | internal/compression/lite.go:174-198 | what is left is exactly the messages, in order, that do not say again what the one before them in the list said |
| `Lite.ReplaceImageURLs` | internal/compression/lite.go:202-253 | data images become placeholders, for models without vision only |
| `LitePasses.ImagesAre` | internal/compression/lite.go:202-253 | every data image part becomes a text with the format between the prefix and the first `;` or `,`; all else stays |
| `Lite.ApplyLite` | internal/compression/lite.go:17-54 | the five passes in order on a copy; the caller's body if none applied |
| `LitePasses.PassesAre` | internal/compression/lite.go:17-54 | what each pass hands to the next, in order |
| `LitePasses.LiteResultIs` | internal/compression/lite.go:17-54 | the result is what the last pass left, and there is none only if no pass did anything |
| `Aggressive.ApplyCaveman` | internal/compression/caveman.go:140-183 | unprotected strings of at least 20 characters rewritten, in a copy |
| `Aggressive.ApplyUltra` | internal/compression/ultra.go:124-174 | unprotected strings of at least 40 characters pruned where that shortens them, in a copy |
| `Aggressive.RtkInPlace` | internal/rtk/rtk.go:37-130 | the filters touch tool text and tool_result blocks only; a hit is a change |
| `Aggressive.SummarizeMessage` | internal/compression/summarizer.go:25-57 | tag, intent, files, errors and the trimmed decision, cut to the limit |
| `Aging.SummaryIs` | internal/compression/summarizer.go:25-75 | the summary in full: the tag, the beginning of the first line, paths, errors, the beginning of the trimmed text, cut to the limit with dots |
| `Aggressive.SummaryMarked` | internal/compression/summarizer.go:25-57 | a summary carries the marker later passes look for exactly if the text is not blank and the limit, if any, has room for marker and dots |
| `Aggressive.LiteSingle` | internal/compression/aggressive.go:108-114 | lite mode on one wrapped user message is whitespace normalisation |
| `Aggressive.CavemanSingle` | internal/compression/aggressive.go:120-126 | standard mode on one wrapped user message is the rewriter, from 20 characters on |
| `Aggressive.AgeOne` | internal/compression/aggressive.go:85-184 | the aging of one message by its distance from the end |
| `Aggressive.ApplyAging` | internal/compression/aggressive.go:85-143 | every message aged by its distance; changed exactly if one changed |
| `Aging.AgedNear` | internal/compression/aggressive.go:85-107 | the last three messages stay as they are, and at any distance the protected, marked and non-string ones |
| `Aging.AgedLight` | internal/compression/aggressive.go:108-114 | three and four places before the last: tag and normalised text; at every distance JSON stays as it is and a fenced block whole behind its tag |
| `Aging.AgedModerate` | internal/compression/aggressive.go:115-126 | five to seven: tag and the text with every prose run rewritten and its frozen runs kept |
| `Aging.AgedOld` | internal/compression/aggressive.go:127-184 | from eight on: of an assistant message the tag and its whole summary, of a user message the tag and 120 characters of the first line, other roles as they are |
| `Aggressive.TagMarks` | internal/compression/aggressive.go:187-211 | aged text is the original or marked |
| `Aggressive.AgingIdempotent` | internal/compression/aggressive.go:85-143 | aging an aged conversation changes nothing |
| `Aggressive.ApplyFallbackSummarizer` | internal/compression/aggressive.go:215-242 | unmarked, unprotected messages over 8192 characters become their summary where that is shorter |
| `Aging.SummarizedAt` | internal/compression/aggressive.go:215-242 | unprotected, unmarked strings over 8192 characters become their summary of at most 2048 |
| `Aggressive.FallbackChain` | internal/compression/aggressive.go:63-76 | caveman, then lite, each on the other's result and kept only where it saves tokens |
| `Aggressive.ApplyAggressive` | internal/compression/aggressive.go:29-80 | the three steps on a copy, the fallback chain below 5% savings, the caller's body if no step did anything |
| `ModeResults.RtkAt` | internal/rtk/rtk.go:37-130 | which texts and parts the filters are put to, message by message |
| `ModeResults.StepsAre` | internal/compression/aggressive.go:29-60 | the three steps, message by message: filtered, aged by its distance, summarised |
| `ModeResults.AggressiveIs` | internal/compression/aggressive.go:29-80 | no result exactly if no step changed anything; else the steps if they save a twentieth of the tokens, else standard mode on top and lite mode on top of that, each if it has fewer tokens |
| `Pipeline.Apply` | internal/compression/compression.go:94-162 | the caller's body is never modified: the result is that body, or a new one holding the specified messages |
| `Pipeline.AlwaysSmaller` | internal/compression/compression.go:135-157 | what is sent on has strictly fewer tokens, in lossy modes at least 3% fewer |
| `ModeResults.SentExactly` | internal/compression/compression.go:94-157 | what Apply sends, exactly: the mode's result if it has fewer tokens, three in a hundred fewer but for lite mode; on caching providers the two strongest modes run as standard and system messages are preserved |
| `ModeResults.TokensAre` | internal/compression/compression.go:83-92 | tokens, message by message: a quarter of the characters, rounded up |
| `Pipeline.ModeIsStage` | internal/compression/compression.go:113-125 | in every mode the result is a stage, a function of the request, then at most one round of dropping repeats and of replacing images |
| `Pipeline.StageEdits` | internal/compression/compression.go:113-125 | the stage changes texts of unprotected messages and of tool results only, in place |
| `Pipeline.Preservation` | internal/compression/compression.go:94-162 | with system preservation, asked for or forced: string system messages identical and in order; every other message in place and role, or gone exactly because the mode drops repeats and its stage text repeats its same-role predecessor's |
| `Duplicates.DropIff` | internal/compression/aggressive.go:29-80 | that drop in terms of the messages sent: each settles to a text by its own age, and it falls if its predecessor has its role and settles to the same |
| `Duplicates.GoneIff` | internal/compression/compression.go:94-162 | a message that can be told apart is absent from what is sent exactly if it falls, whether or not it repeated anything |
| `Duplicates.LiteFallsIff` | internal/compression/lite.go:174-198 | in lite mode the second of two neighbouring strings of one role falls exactly if both normalise to the same nonempty text |
| `Duplicates.AgedAlikeIff` | internal/compression/aggressive.go:168-184 | two old user messages age alike exactly if their first lines begin alike |
| `Duplicates.OldUsersFall` | internal/compression/aggressive.go:63-76 | then, in aggressive mode, the second falls exactly if the fallback pays and something is left of it |
| `Duplicates.AggressiveLosesOriginal` | internal/compression/aggressive.go:63-76 | a conversation in which nothing repeats and from which aggressive mode drops a question |
| `Duplicates.LiteLosesOriginal` | internal/compression/lite.go:174-198 | of two user messages that differ by a blank at the end, lite mode sends the first only |
| `Pipeline.StandardFrozen` | internal/compression/caveman.go:140-183 | standard mode changes long enough unprotected strings only, and keeps their frozen runs |
| `Pipeline.UltraFrozen` | internal/compression/ultra.go:124-174 | so does ultra mode, and no message gets more tokens |
| `Pipeline.LiteFaithful` | internal/compression/lite.go:17-253 | lite mode loses no visible character but tails of long tool results, data images and repeated messages |
| `RateLimit.Limiter.AllowWithLimit` | internal/ratelimit/ratelimit.go:150-183 | decision and new bucket are the model's; other clients are untouched; no positive rate means no limit |
| `RateLimit.Limiter.Cleanup` | internal/ratelimit/ratelimit.go:185-198 | exactly the buckets idle for ten minutes go |
| `RateLimit.Potential` | internal/ratelimit/ratelimit.go:150-198 | over every run, admissions plus tokens left never exceed tokens at the start plus refill |
| `RateLimit.AdmissionBound` | internal/ratelimit/ratelimit.go:150-198 | between any two events of any run at most the burst (the rate, if there is none) plus elapsed times rate by window is admitted |
| `RateLimit.AdmittedExactly` | internal/ratelimit/ratelimit.go:150-183 | and nothing else is refused: a call gets through exactly if, with it, no span of the run that ends in it holds more than that |
| `RateLimit.CallsOnlyRun` | internal/ratelimit/ratelimit.go:185-198 | with patient limits, dropping all cleanups from a run changes no decision |
| `RateLimit.ImpatientNoticed` | internal/ratelimit/ratelimit.go:185-198 | with an impatient limit some run's decisions change |
| `RateLimit.CleanupUnnoticedIff` | internal/ratelimit/ratelimit.go:185-198 | cleanup is unobservable exactly if, for every limited client, 600 seconds times rate by window are at least the burst |
| `LoginLimiting.LoginLimiter.Attempt` | login_limiter.go:28-79 | decision and logs are the model's; other clients are untouched |
| `LoginLimiting.LoginLimiter.Cleanup` | login_limiter.go:81-94 | drops exactly the clients whose hour is empty |
| `LoginLimiting.LimiterRefines` | login_limiter.go:28-106 | over every run the two trimmed logs decide like a limiter that remembers everything, and the minute log is a tail of the hour log |
| `LoginLimiting.CleanupUnnoticed` | login_limiter.go:81-94 | cleanup never changes a decision |
| `LoginLimiting.WindowBounds` | login_limiter.go:37-78 | any minute holds at most 5 admitted attempts of a client, any hour at most 20 |
| `LoginLimiting.MinuteOldIsOut` | login_limiter.go:96-106 | the windows are half-open at exactly one minute |
| `Health.UpstreamHealth.RecordRequest` | internal/upstream/health.go:82-113 | the breaker after a result is the model's; counters and latency move with it |
| `Health.UpstreamHealth.CanRequest` | internal/upstream/health.go:116-141 | the answer and the breaker after it are the model's |
| `Health.AdmittedIff` | internal/upstream/health.go:116-141 | over every run a request gets through exactly if the circuit is closed, or open and 60 seconds have passed since its last opening, or half-open with nothing admitted since the transition |
| `Health.StateAfter` | internal/upstream/health.go:82-141 | which event moves it: the fifth failure since the last success opens it, the first request a minute later half-opens it, a success then closes it, and nothing else |
| `Health.CalmAdmits` | internal/upstream/health.go:116-122 | without five failures in a row every request gets through |
| `Health.UnopenedAdmits` | internal/upstream/health.go:116-122 | so it does until the circuit has opened |
| `Health.UpstreamHealth.Check` | internal/upstream/health.go:243-518 | an active probe's effect on the breaker |
| `Health.ClosedCounts` | internal/upstream/health.go:82-113 | closed, the error count is the failures since the last success, and below the threshold |
| `Health.TrailingWitness` | internal/upstream/health.go:82-113 | these are failures with no success among or after them |
| `Health.OpensExactly` | internal/upstream/health.go:93-107 | the circuit opens exactly at the closed failure that completes the threshold |
| `Health.NoneAdmittedWhileOpen` | internal/upstream/health.go:116-141 | nothing is admitted within the open duration of an opening |
| `Health.GrantsSinceOpening` | internal/upstream/health.go:116-141 | until the next closing the admissions are exactly the half-open transition and its probes |
| `Health.GrantsBound` | internal/upstream/health.go:116-141 | at most 1 + CB_HALF_OPEN_PROBES of them |
| `Health.SpentUntilSuccess` | internal/upstream/health.go:93-141 | once its probe is spent the circuit neither reopens nor admits until a success |
| `Health.FailedProbeStays` | internal/upstream/health.go:93-141 | a run whose probe fails: still half-open, and nothing is admitted however long one waits |
| `Health.ClosesExactly` | internal/upstream/health.go:93-107 | it closes exactly at a success while half-open |
| `Schedulers.ScanCloser` | internal/upstream/codebuddy.go:701-720 | while k is available, a scan returns k or moves the cursor strictly closer to it |
| `Schedulers.BoundedWaiting` | internal/upstream/codebuddy.go:701-720 | what stays available in a pool of n is returned within any n consecutive scans, however the others change |
| `Schedulers.ScanNone` | internal/upstream/codebuddy.go:701-720 | a scan fails exactly if nothing is available |
| `Schedulers.CBKeyManager.Next` | internal/upstream/codebuddy.go:701-720 | returns the scanned key and moves the cursor past it; fails exactly if all keys are disabled or there are none |
| `Schedulers.CBKeyManager.ReenableCooldowns` | internal/upstream/codebuddy.go:882-900 | one worker pass, on every key of the pool |
| `Schedulers.CBKey.PermanentDisable` | internal/upstream/codebuddy.go:1116-1125 | overwrites a cooldown |
| `Schedulers.CBKey.CooldownDisable` | internal/upstream/codebuddy.go:1128-1137 | overwrites a permanent disable |
| `Schedulers.PermanentLifted` | internal/upstream/codebuddy.go:1116-1137 | a run that re-enables a permanently disabled key without an operator |
| `Schedulers.PermanentLiftedIff` | internal/upstream/codebuddy.go:882-900 | a permanent disable is lifted exactly if the run's last disable is a cooldown that lapsed |
| `Schedulers.GrokAccountManager.Next` | internal/upstream/grok.go:345-391 | the scanned fresh account; else the enabled one expiring last; fails exactly if all are disabled or there are none |
| `Schedulers.GrokAccountManager.BestExpiry` | internal/upstream/grok.go:370-384 | the first enabled account of latest expiry |
| `Combos.FirstMin` | internal/proxy/combo.go:174-202 | the first of the models with the least score |
| `Combos.OwnTurns` | internal/proxy/validate.go:17-31 | no valid combo name is the counter key of a random combo |
| `Combos.ComboRegistry.Resolve` | internal/proxy/combo.go:88-131 | answer and counters are the model's for every strategy; nothing for an unknown or empty combo |
| `Combos.TargetIs` | internal/proxy/combo.go:88-101 | a model names a combo exactly if it is "combo/" and the name of a known combo with models |
| `Combos.ComboRegistry.ResolveSmart` | internal/proxy/combo.go:136-246 | open circuits are skipped; with all open, the head and no counter moves |
| `Combos.AnswerIs` | internal/proxy/combo.go:136-246 | the answer by strategy: the first healthy model of least mean latency, price or use; the first healthy one; the first not served by Cloudflare, else the first priced, else the first; the one the combo's own counter points at |
| `Combos.RoundRobinTurn` | internal/proxy/combo.go:102-123 | answer t of a round-robin combo is the t-th position from the counter on, whatever else is resolved between |
| `Combos.RoundRobinBalance` | internal/proxy/combo.go:102-123 | any L consecutive answers are the L models, each position once |
| `Combos.LeastUsedLevels` | internal/proxy/combo.go:174-184 | from any counts: picks are conserved, and what was picked ends at most one above every healthy model |
| `Combos.LeastUsedBalance` | internal/proxy/combo.go:174-184 | from equal counts over distinct models every count is the floor or the ceiling of an equal share |
| `Combos.NextInFallback` | internal/proxy/combo.go:332-348 | the successor of the failed model, for fallback combos only; called by tests, not by the handler |
| `Combos.NextModelAt` | internal/proxy/combo.go:332-348 | that successor is the entry after the failed model's first place in the list, and none after the last |
| `ComboRetry.StatusIs` | internal/proxy/buffered_writer.go:43-71 | the captured status is the code of the first call that sets a status or writes; 200 if that is a write or there is none |
| `ComboRetry.BufferedWriter.Do` | internal/proxy/buffered_writer.go:43-67 | headers stay pending, the first status wins, bytes are appended |
| `ComboRetry.BufferedWriter.Flush` | internal/proxy/buffered_writer.go:100-119 | copying the headers in any order, then status and body, leaves the real writer with its own headers and what was captured |
| `ComboRetry.MergedAt` | internal/proxy/buffered_writer.go:100-119 | every header keeps the values it had, followed by the captured ones |
| `ComboRetry.RetryChain` | internal/proxy/proxy.go:590-653 | for every list and every behaviour of the upstreams: positions 0 to the last try are tried once each, in order, repeats included, and the client gets the last try's answer alone; an empty list leaves the writer untouched |
| `ComboRetry.LastTryIs` | internal/proxy/proxy.go:639-648 | the last try is the first position whose status is below 500 and not 404, and the end of the list if there is none |
| `ComboRetry.FailsIff` | internal/proxy/proxy.go:639-653 | the client sees a 404 or a server error exactly if every candidate answers with one |
| `ComboRetry.CandidateEffort` | internal/proxy/proxy.go:489-504 | the effort a candidate is sent is the client's, or else the first that the resolved model or a candidate up to this one stands for |
| `ComboRetry.OwnEffortIff` | internal/proxy/proxy.go:596-621 | without one of the client's, a candidate is sent its own effort exactly if nothing before it stands for another |
| `ComboRetry.EffortSticks` | internal/proxy/proxy.go:608-621 | a list whose second and third candidate are sent the first one's effort |
| `ComboRetry.Serve` | internal/proxy/proxy.go:438-662 | alias, combo, alias again, effort, then the walk exactly for non-streaming requests to named combos of three strategies, over the combo's whole list; otherwise one dispatch of the resolved model |
| `ComboRetry.StartsAtPickIff` | internal/proxy/combo.go:136-152 | the head of the walk is the model the combo resolved to always for fallback, and for fill_first and priority exactly if its circuit is closed or all are open |
| `ComboRetry.PickReached` | internal/proxy/proxy.go:590-648 | if models with an open circuit answer with a status that is retried, the walk gets to the model the combo resolved to |
| `ProxyPooling.ProxyPool.AddProxy` | internal/proxy/pool.go:241-267 | the pool after it, index included, is the model's; rejected entries change nothing |
| `ProxyEntries.ValidateIs` | internal/proxy/pool.go:619-691 | exactly which entries are accepted, field by field, and what they are normalised to |
| `ProxyEntries.AddIs` | internal/proxy/pool.go:241-267 | an accepted entry goes to the end with no failures |
| `ProxyPooling.ProxyPool.Update` | internal/proxy/pool.go:272-334 | patches one entry and resets its count; an invalid patch changes nothing |
| `ProxyEntries.ChangeIs` | internal/proxy/pool.go:272-334 | what a patch takes from the entry and what from the caller, and that the count is cleared |
| `ProxyPooling.ProxyPool.Delete` | internal/proxy/pool.go:337-369 | the in-place filter removes that id and keeps the rest in order |
| `ProxyEntries.DropIs` | internal/proxy/pool.go:337-369 | what is left is exactly the entries of other ids, in order |
| `ProxyPooling.ProxyPool.Toggle` | internal/proxy/pool.go:372-403 | flips one entry; re-enabling resets its count |
| `ProxyEntries.FlipIs` | internal/proxy/pool.go:372-403 | only that entry changes: its flag is negated, and its count cleared when that enables it |
| `ProxyPooling.ProxyPool.MarkFailed` | internal/proxy/pool.go:465-506 | counts, and disables at the threshold |
| `ProxyEntries.FailIs` | internal/proxy/pool.go:465-506 | only that entry changes: one failure more, and disabled at five |
| `ProxyPooling.ProxyPool.MarkSuccess` | internal/proxy/pool.go:509-529 | resets the count |
| `ProxyEntries.GoodIs` | internal/proxy/pool.go:509-529 | only that entry changes: its count is zero |
| `ProxyPooling.ProxyPool.Next` | internal/proxy/pool.go:411-461 | an enabled entry of the scope, chosen by the counter; none exactly if the scope is empty |
| `ProxyPooling.ProxyPool.RebuildEnabled` | internal/proxy/pool.go:601-609 | the index is the enabled entries in order |
| `ProxyPooling.AlwaysIndexed` | internal/proxy/pool.go:241-529 | over every run the index is exactly the enabled entries in order, up to the failure count, and every enabled count is below the threshold |
| `ProxyPooling.ScopedIsEligible` | internal/proxy/pool.go:411-461 | what Next chooses from is exactly the enabled entries that apply to the upstream |
| `ProxyEntries.ScopedIs` | internal/proxy/pool.go:101-116 | entries without a scope, with scope "all" or with that upstream, in order |
| `ProxyEntries.EnabledIs` | internal/proxy/pool.go:601-609 | the index holds the enabled entries, in order |
| `ProxyPooling.FailCountIsHistory` | internal/proxy/pool.go:241-529 | over every run with fresh ids, a count is the failures since the last success, update or re-enable |
| `Cache.PutEffect` | internal/cache/semantic.go:91-111 | the whole effect of an accepted Put: at most one other entry goes, the first queued one that is cached |
| `Cache.RunInv` | internal/cache/semantic.go:67-111 | over every run each cached key is queued and the entries never exceed the limit |
| `Cache.HitIsLastPut` | internal/cache/semantic.go:67-89 | a hit returns the body of the last accepted Put of that key, until its expiry |
| `Cache.Counted` | internal/cache/semantic.go:67-89 | over every run the hits are the answered lookups, and hits and misses are all of them |
| `Cache.PutThenGetIff` | internal/cache/semantic.go:91-111 | a Get after a Put hits exactly unless the cache is full, the key new, and a stale copy of it first in line |
| `Cache.PutThenMiss` | internal/cache/semantic.go:91-111 | such a run |
| `Cache.TidyRun` | internal/cache/semantic.go:67-111 | until a Get drops an expired entry, the queue holds each cached key exactly once |
| `Cache.TidyPut` | internal/cache/semantic.go:91-111 | and eviction is first in, first out |
| `Cache.TidyPutThenGet` | internal/cache/semantic.go:91-111 | and every Put is found |
| `Cache.QueueUnbounded` | internal/cache/semantic.go:67-111 | on a clock that never goes back the queue reaches any length with an empty cache |
| `Cache.Store.Get` | internal/cache/semantic.go:67-89 | result, entries and counters are the model's; an expired entry is dropped |
| `Cache.Store.Put` | internal/cache/semantic.go:91-111 | the eviction loop leaves the model's state |
| `Cost.SortByLength` | internal/cost/cost.go:129-136 | the exchange sort permutes the entries into descending prefix length |
| `Cost.LongestUnique` | internal/cost/cost.go:141-152 | the longest known prefix is the only one of its length |
| `Cost.PriceIs` | internal/cost/cost.go:141-152 | the price is that of the known prefix longer than all others, and 1 and 5 dollars a million without one |
| `Cost.FirstMatchIsPrice` | internal/cost/cost.go:141-152 | in any listing of the table sorted by length the first match has the price of the longest known prefix |
| `Cost.PriceBook.EnsureBuilt` | internal/cost/cost.go:114-138 | from any iteration order, a permutation of the table with the longest prefixes first, built once |
| `Cost.PriceBook.PriceFor` | internal/cost/cost.go:141-152 | the price of the longest known prefix, else the default; independent of the order the table was read in |

## Left out

- HTTP, gin, Redis, SQLite, ClickHouse, metrics, subprocesses, logging and the dashboard: the model starts where their results are arguments.
- JSON: a data line decodes to a chunk record through a parameter, the same one for both readers of a stream; chat bodies are records of the fields the code looks at; a deep copy is a copy.
- Event payload fields that never vary in a stream (message id, model, zero usage): not part of the events.
- Locks and goroutines: each locked section is one atomic step; the background refresh that a near-expiry Grok account starts is not modelled.
- 64-bit counters and their wrap-around, and floating point: integers are unbounded, scores, rates and prices are reals.
- Text outside the stream framing is a sequence of characters where Go counts bytes, so a length or a cut inside a multi-byte character is not captured.
- Regular expressions: a caveman rule is any function from text to text with a count of its matches; the rule list is a parameter.
- Lookups in fixed tables and Unicode case mapping (stop words, price table, vision fragments, caching providers, lower-casing): parameters, so the theorems hold for all of them.
- The tool-output filters, the extraction of file paths and of errors from a text, JSON syntax checking: arbitrary functions.
- Technique names, timestamps and the other statistics of a compression result.
- WordDiffing.WordDiff: keeps word lists instead of joined text, and claims the order within each kind of segment only, because a pending keep is emitted after pending removes and adds.
- StreamCapture.BodyAgrees: nothing is claimed about bodies that are one JSON document, lines longer than the scanner's buffer, payloads that begin with a second `data:`, chunks that carry a full message, or an error status.
- RateLimit.AdmissionBound: for a run with cleanups, only for limits whose burst ten minutes refill; for others ImpatientNoticed shows the cleanup changes decisions.
- Pipeline.Preservation: without system preservation a system message may also go because its first 200 characters were seen before; only the sizes are claimed then. Duplicates.GoneIff has the same condition.
- Chat.Body.Clone: messages are values here, so the aliasing that the JSON deep copy prevents cannot arise.
- Aggressive.RtkInPlace: what the filters do to bodies with a conversation state or an input list, and which errors they skip, is left to arbitrary functions.
- Pipeline.Apply: whether the provider caches prompts is an argument; the provider's name and the search for cache markers are not modelled.
- Combos.ComboRegistry.Resolve: the in-process counters only, not the Redis one; the strategies the switch does not list fall to the head of the list, as in the code.
- ComboRetry.Serve: the upstreams are arbitrary functions of position and request that call the writer; what they leave in the request context (token counts, the response kept for the log and the cache) is not modelled, and neither are the per-key model list and the answer of a request that is not walked.
- Combos.LeastUsedBalance: for a healthy set that does not change during the run; LeastUsedLevels starts from any counts.
- ProxyPooling.ProxyPool.Next: the in-process counter only, not the Redis one; no fairness claim, since the counter is shared by all upstreams.
- Lite.NormalizeWhitespace: no claim that normalising twice is normalising once, since trimming a blank line can make a new run of newlines.
- Loading and saving pools and combos, OAuth refresh, credit metering, quota counters, header and CSRF checks, static model lists: plumbing or easy members.
