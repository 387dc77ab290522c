# A verified model of four WisePen components

The project models, in Dafny, the parts of the WisePen services with the most state and branching:

1. **Markdown chunking** - the stack that turns headings into a section tree, the splitters for text,
   lists, tables and code, the greedy packer, the token counter with its cache, and the outline that
   rebuilds the tree from parent ids. The token count is an arbitrary function of the text, so nothing
   relies on sizes adding up.
2. **The chat turn runtime** - the interpreter of one model stream, the reasoning loop that finishes,
   aborts, suspends for the client and resumes in a later batch, the coordinator's record, and the
   replayable frame log with its running-turn lease.
3. **Command protection in the sandbox service** - starters, workers, killers, file leases and the idle
   reclaimer over one reference count per sandbox, as atomic steps between awaits in any interleaving.
4. **Ranking, paging and billing** - reciprocal-rank fusion, maximal marginal relevance, paging by user
   turns, and charges rounded up per batch. Exact reals stand for `Decimal` and `float`.

Objects that the services update in place are classes here, their loops are loops with invariants, and
each is proved against a function or predicate about which the laws are then proved.

| files | model of |
|---|---|
| `Sequences` | small generic helpers |
| `Markdown`, `SectionTree`, `SectionLaws` | parser output, the section builder and its laws |
| `Outline`, `OutlineLaws`, `NeighborhoodLaws` | the outline formatter, the rebuild round trip, the neighborhood |
| `Grouping`, `Packer`, `Tokenizer`, `CodeSplit`, `Splitter`, `Chunker` | greedy grouping and everything that groups |
| `StepEvents`, `Transcript`, `QueryLoop`, `ChatTurn`, `Coordinator` | the chat turn |
| `TurnStream`, `TurnRunner` | frame log, leases, subscribers and runners |
| `CommandTask`, `SandboxStore`, `SandboxProtocol`, `Restart` | command protection |
| `Rrf`, `Mmr`, `Paging`, `Billing` | ranking, paging, billing |

## What the proofs found

- Cancelling a resumed batch at the top of the loop (`query_loop_runtime.py:192-195`), or having its
  runtime options rejected, ends the turn with the suspended tool calls unanswered in the stored
  transcript. `ChatTurns.EveryTurnIsSound` shows these are the only ways.
- A turn runner that fails or loses its lease stops without releasing it
  (`chat_turn_stream_manager.py:95-98`, `:107-112`). `TurnRunner.StoppedLeases` gives the exact condition:
  a stopped turn still takes up its session if and only if it failed and the lease's life since its last
  renewal has not passed; `TurnRunner.FailedTurnKeepsLease` is a run in which it does.
- An outline without a depth limit never ends if and only if some path down the stored parent ids meets an
  id twice (`outline.py:37-49`, `Outlines.PathsEndByIds`); `Outlines.EndlessOutline` gives three such
  sections, and distinct ids rule them out (`Outlines.DistinctPathsEnd`).
- A sandbox retired by a reclaim round is handed to the reclaimer twice in that round, because the query
  for retiring sandboxes finds it again (`sandbox_watcher.py:245-255`).
- `_workspace_lease` ignores whether its registration succeeded and always releases. This is harmless
  only because no sandbox returns to `USER_ACTIVE`.
- `TokenUsage.add` looks at the total after adding, so estimated usages added to a fresh one are recorded
  as mixed instead of estimated (`llm.py:41-42`) unless the first of them counts nothing.
  `Billing.OneSourceIsKept` gives the exact condition, `Billing.OneEstimateReadsMixed` the smallest case.
- Pages partition the messages for any timestamps; the user messages on a page are exactly its own turns if
  and only if no tie in time lies across either end of it (`Paging.PageTurns`). In
  `Paging.TiedTurnsShareAPage` two tied turns stand on the newest page and none on the older one.

## Assumptions

- Parser output is in document order; headings are located, have level at least one and start in
  strictly increasing order. Section ids are injective in kind, start and end.
- The dispatcher returns one result per invocation, in order, and does not raise.
- A prompt handed to a new turn is paired, and each suspension is resumed at most once at a time.
- `kill_command` is called only with an id that `start_command` has returned.
- Sandbox states change along `SANDBOX_ALLOWED_TRANSITIONS`. The store itself does not check this.
- Each store operation is atomic and, in the sandbox service, does not fail: an exception between a
  finishing write and the release after it would lose the release. Turn, task and lease ids are fresh.
- A running-turn lease lives for at least one second, which the settings demand. Time passes between any
  two steps, by any amount.
- The constant k of reciprocal-rank fusion is not negative, which its constructor enforces; the packing
  policy satisfies 0 < target <= threshold.

## Model

| member | source | states |
|---|---|---|
| `SectionTree.BuildHeadingSections` | services/wisepen-common/src/common/utils/markdown/chunking/chunker.py:171-249 | the stack loop over headings returns, field for field, the sections that the levels alone determine (parent, ordinal, own and subtree spans, content spans), with the level-0 root in front when located content precedes the first heading or the document has a title |
| `SectionTree.CloseFinishedSections` | services/wisepen-common/src/common/utils/markdown/chunking/chunker.py:210-220 | popping the stack at a heading leaves exactly the chain of still open ancestors and fixes the subtree end of every section that closes |
| `SectionTree.IdsAreDistinct` | services/wisepen-common/src/common/utils/markdown/chunking/chunker.py:281-285 | two sections of one document never share an id |
| `SectionLaws.StackCorrectness` | services/wisepen-common/src/common/utils/markdown/chunking/chunker.py:204-245 | each section's parent id is that of the nearest earlier section of strictly smaller level, else none; its subtree ends where the next section that is not deeper starts, else at the end of the text |
| `SectionLaws.SubtreeSpansNest` | services/wisepen-common/src/common/utils/markdown/chunking/chunker.py:204-245 | subtree spans are disjoint or nested, and a child's lies inside its parent's |
| `SectionLaws.OwnSpansTile` | services/wisepen-common/src/common/utils/markdown/chunking/chunker.py:193-245 | own spans tile the text from the first section to the end |
| `SectionLaws.OrdinalsIncrease` | services/wisepen-common/src/common/utils/markdown/chunking/chunker.py:222-245 | siblings are numbered in document order |
| `SectionLaws.OrdinalsAreDense` | services/wisepen-common/src/common/utils/markdown/chunking/chunker.py:222-245 | sibling ordinals leave no gap: every number below the count is some child's |
| `SectionLaws.OrdinalsStartAtZero` | services/wisepen-common/src/common/utils/markdown/chunking/chunker.py:222-225 | below a section's ordinal every number is that of an earlier sibling, so siblings count from zero |
| `SectionLaws.HeadingSection` | services/wisepen-common/src/common/utils/markdown/chunking/chunker.py:227-244 | the section of heading k, read off the document: id and own span from the heading to the next one or the end of the text, title and level of the heading, and as content the spans of exactly the nodes with text behind the heading, in order |
| `SectionLaws.RootSection` | services/wisepen-common/src/common/utils/markdown/chunking/chunker.py:180-199 | a root stands in front if and only if the document has a title or some located text before its first heading; it reaches up to that heading, its subtree over the whole text, and it is named after the title |
| `Outlines.OutlineFormatter.constructor` | services/wisepen-common/src/common/utils/markdown/outline.py:21-29 | the index holds, for every parent id, its children stably sorted by ordinal, and for every id its section |
| `Outlines.OutlineFormatter.GlobalOutline` | services/wisepen-common/src/common/utils/markdown/outline.py:34-49 | for any stored sections under a depth limit, and without one for any whose paths down the parent ids end, repeated ids included, the recursive walk produces the lines of the walk over the stored parent ids |
| `Outlines.PathsEndByIds` | services/wisepen-common/src/common/utils/markdown/outline.py:34-49 | the paths down stored parent ids end if and only if none of them meets an id twice; looking at paths of one section more than are stored is enough |
| `Outlines.OrGoOnForever` | services/wisepen-common/src/common/utils/markdown/outline.py:34-49 | otherwise there are paths of every length, so without a depth limit the walk has no end |
| `Outlines.EndlessOutline` | services/wisepen-common/src/common/utils/markdown/outline.py:34-49 | three sections whose unlimited outline has no end: the third repeats the id of the first and hangs below the second, which hangs below the first |
| `OutlineLaws.RebuildRoundTrip` | services/wisepen-common/src/common/utils/markdown/outline.py:21-49 | for every document, every storage order of its sections and every limit, the walk lists exactly the sections of tree depth within the limit, each once, in document order |
| `OutlineLaws.LinesShowTheSections` | services/wisepen-common/src/common/utils/markdown/outline.py:34-49 | for every document, storage order and limit: the lines are those of the sections of tree depth within the limit, in document order, each indented by its depth less one and with as many # as its depth - one fewer when the document has a root, none for the root itself |
| `OutlineLaws.UnlimitedIsEverything` | services/wisepen-common/src/common/utils/markdown/outline.py:37-49 | without a limit the lines are the built sections one for one |
| `Outlines.OutlineFormatter.Neighborhood` | services/wisepen-common/src/common/utils/markdown/outline.py:51-104 | for any stored sections - missing parents, cycles and repeated ids included - and any number of steps, negative ones included, the lines are the ancestors met before the climb breaks off, the sibling window and the children, each id once; an unknown id is refused |
| `Outlines.OutlineFormatter.CollectAncestors` | services/wisepen-common/src/common/utils/markdown/outline.py:81-92 | the parent loop stops at a missing parent or a cycle and returns the parents from the top down |
| `NeighborhoodLaws.NeighborhoodIsASelection` | services/wisepen-common/src/common/utils/markdown/outline.py:51-104 | for every document, section and natural step count, and every storage order, the neighborhood is a selection of the global outline: in document order and once each, the ancestors, the siblings within the steps (the section itself marked) and the children, each on the same line as there |
| `NeighborhoodLaws.NearbyIsNear` | services/wisepen-common/src/common/utils/markdown/outline.py:54-64 | the positions listed are strictly increasing, and a section is among them if and only if it is an ancestor, a sibling within the steps or a child |
| `Grouping.GreedyCharacterisation` | services/wisepen-common/src/common/utils/markdown/chunking/packer.py:71-104 | a grouping is the greedy one if and only if it partitions the units in order into non-empty groups that each grew by allowed steps and each refused the next unit |
| `Grouping.PackingLaw` | services/wisepen-common/src/common/utils/markdown/chunking/chunker.py:57-65 | for any size function: each proper prefix of a group is below the target, no addition took its size further from the target or over the threshold, a group above the threshold is a single unit; and a group ends only where the next unit is over the threshold alone, the group has reached the target, or the unit would take it over the threshold or strictly further from the target |
| `Grouping.OversizedIsAlone` | services/wisepen-common/src/common/utils/markdown/chunking/packer.py:73-82 | a unit above the threshold is never grouped with another |
| `Packing.Pack` | services/wisepen-common/src/common/utils/markdown/chunking/packer.py:42-104 | the loop with its nested flush returns the chunks of the greedy grouping, numbered on from the given index |
| `Packing.PackingIsAPartition` | services/wisepen-common/src/common/utils/markdown/chunking/packer.py:71-104 | chunks partition the nodes in order, none is empty, and a chunk is above the threshold if and only if it holds a node that is - then as its only node |
| `Packing.ChunksAreGreedy` | services/wisepen-common/src/common/utils/markdown/chunking/packer.py:71-104 | the same of chunks, for any counter: every proper prefix of a chunk is below the soft target, no added node took it further from the target; and a chunk ends only where the next node is too big alone, the target is reached, or that node would take it over the threshold or strictly further from the target |
| `Packing.JoinedByLines` | services/wisepen-common/src/common/utils/markdown/chunking/packer.py:117 | the text of a chunk is its nodes' texts, one below the other |
| `Tokenizing.TokenCounter.Count` | services/wisepen-common/src/common/utils/markdown/chunking/tokenizer.py:77-94 | counting through the first-in-first-out cache agrees with counting directly; a miss at 4096 entries evicts the oldest |
| `Tokenizing.TokenCounter.Split` | services/wisepen-common/src/common/utils/markdown/chunking/tokenizer.py:96-120 | the nested loops compute the split of the text for any count function, through the cache |
| `Tokenizing.PiecesSpellTheText` | services/wisepen-common/src/common/utils/markdown/chunking/tokenizer.py:96-120 | a split ends; its parts are non-empty, fit and concatenate to the text, or it fails and some single character is over the limit |
| `Tokenizing.PieceByHalving` | services/wisepen-common/src/common/utils/markdown/chunking/tokenizer.py:106-119 | each piece has four characters per token, or what is left, halved as often as every longer try was over the limit, and the rest is cut in the same way from its end; the split fails where a single character is over the limit |
| `CodeSplitting.SplitCode` | services/wisepen-common/src/common/utils/markdown/chunking/splitter.py:246-337 | the code splitter returns the parts rendered from the greedy grouping of body lines |
| `CodeSplitting.BodiesSpellTheSource` | services/wisepen-common/src/common/utils/markdown/chunking/splitter.py:246-324 | opening fence, all body lines and a real closing fence concatenate to the node's text; a synthetic closing is left out |
| `CodeSplitting.PeelingAPart` | services/wisepen-common/src/common/utils/markdown/chunking/splitter.py:246-337 | peeling the fence off any rendered part yields the same fence and the part's own lines, completed by a final newline at most; stated for a fence marker that is a run of one fence character, which is what the parser gives a fenced node |
| `CodeSplitting.CodePartsOverflowAlone` | services/wisepen-common/src/common/utils/markdown/chunking/splitter.py:246-337 | code parts deal out the body lines in order, at least one each; a part is above the threshold if and only if it is one line that is, fence included, and such a line is never joined with another |
| `CodeSplitting.CodePartsAreGreedy` | services/wisepen-common/src/common/utils/markdown/chunking/splitter.py:300-324 | neighbouring code parts are greedy: lines are added while the part, fence included, gets no further from the target, and a part ends only where it has to |
| `CodeSplitting.FenceReadOff` | services/wisepen-common/src/common/utils/markdown/chunking/splitter.py:250-287 | code is split unless its fence is illegal; the fence is the first line and the last if that closes it, else the markup with the line break of the opening line; the body is every line between |
| `CodeSplitting.OpeningIs` | services/wisepen-common/src/common/utils/markdown/chunking/splitter.py:263-267 | a line opens a fence if and only if it is up to three blanks, the markup, anything without a line break, and LF or CRLF |
| `CodeSplitting.ClosingIs` | services/wisepen-common/src/common/utils/markdown/chunking/splitter.py:272-281 | a line closes a fence if and only if it is up to three blanks, the fence character at least as often as in the markup, blanks and tabs, and an optional line break |
| `Splitting.SplitList` | services/wisepen-common/src/common/utils/markdown/chunking/splitter.py:83-141 | the list splitter returns the parts of the greedy grouping of its items |
| `Splitting.ListPartsCarryTheItems` | services/wisepen-common/src/common/utils/markdown/chunking/splitter.py:83-141 | list parts partition the items in order, each with its items' texts line by line and the envelope of their spans; a part is above the threshold if and only if it is one item that is |
| `Splitting.ListPartsAreGreedy` | services/wisepen-common/src/common/utils/markdown/chunking/splitter.py:94-117 | neighbouring list parts are greedy, as neighbouring chunks are |
| `Splitting.SplitTable` | services/wisepen-common/src/common/utils/markdown/chunking/splitter.py:143-244 | the table splitter returns the parts of the greedy grouping of its rows, the caption counted into part 0 |
| `Splitting.TablePartsCarryTheTable` | services/wisepen-common/src/common/utils/markdown/chunking/splitter.py:143-244 | table parts partition the rows in order, each carries the header, only part 0 the caption, and a part above the threshold holds one row |
| `Splitting.TablePartsAreGreedy` | services/wisepen-common/src/common/utils/markdown/chunking/splitter.py:212-244 | neighbouring table parts are greedy, header and caption counted in |
| `Splitting.TablePartText` | services/wisepen-common/src/common/utils/markdown/chunking/splitter.py:175-198 | a table part's text is the header line and its rows on lines of their own, trailing line breaks stripped; in part 0 the caption stands above or below |
| `Splitting.ShapeIs` | services/wisepen-common/src/common/utils/markdown/chunking/splitter.py:145-173 | a table is split if and only if it has a header child, a row and a header text; its caption is its first paragraph, which stands above if and only if the table's text begins with it |
| `Splitting.TextNeverOverflows` | services/wisepen-common/src/common/utils/markdown/chunking/splitter.py:44-81 | paragraphs and quotes never yield a unit above the threshold; the split fails only when one of the semantic pieces of the node's text holds a character that alone is above the target |
| `Splitting.ProseKeepsItsText` | services/wisepen-common/src/common/utils/markdown/chunking/splitter.py:44-81 | prose over the threshold loses nothing but blank pieces: the units' texts, in order, spell the semantic pieces that are not blank; a piece within the target is a unit of its own, a longer one is cut into several that spell it |
| `Splitting.SplitKeepsTheStructure` | services/wisepen-common/src/common/utils/markdown/chunking/splitter.py:33-39 | over the threshold a list is cut between items, a table between rows and code between lines; the parts hold all of them in order |
| `Splitting.SplitLeavesWhole` | services/wisepen-common/src/common/utils/markdown/chunking/splitter.py:25-42 | a node within the threshold stays whole, and so does one of any other kind and a list or table without parts to cut between |
| `Chunking.ChunkBySections` | services/wisepen-common/src/common/utils/markdown/chunking/chunker.py:113-149 | the loop with its nested flush returns the chunks packed run by run, chunk indexes equal to positions, or the first splitting error |
| `Chunking.ChunksAttributeEveryUnit` | services/wisepen-common/src/common/utils/markdown/chunking/chunker.py:113-149 | flattened, the chunks hold every unit of every content node once, in order, attributed to the section open at that node; so no chunk crosses a heading |
| `Chunking.EveryUnitArrives` | services/wisepen-common/src/common/utils/markdown/chunking/chunker.py:113-149 | end to end: the packed units are, one after the other and under the section of their node, the units of every content node; a node within the threshold arrives whole, and what longer prose is cut into concatenates to its semantic pieces without the blank ones |
| `Chunking.StretchesArePackedGreedily` | services/wisepen-common/src/common/utils/markdown/chunking/chunker.py:126-149 | the content between two headings is packed by itself: its groups stand together under its section, hold all its units in order, and neighbouring ones are greedy |
| `Chunking.SplittingGoesWell` | services/wisepen-common/src/common/utils/markdown/chunking/chunker.py:126-149 | chunking succeeds if and only if every content node can be split |
| `Chunking.DeliveredChunk` | services/wisepen-common/src/common/utils/markdown/chunking/packer.py:106-137 | a delivered chunk has its position as index, its units' texts line by line, their token count, the overflow mark if and only if that is above the threshold, and the id of the section it was packed under |
| `Chunking.SectionContainsNode` | services/wisepen-common/src/common/utils/markdown/chunking/chunker.py:134-149 | the section a located content node is attributed to is one whose own span contains the node |
| `Chunking.OverflowIsNeverProse` | services/wisepen-common/src/common/utils/markdown/chunking/chunker.py:113-149 | a chunk delivered is above the threshold only when it was packed from a single unit that is above it alone, and that unit is no paragraph or quote - whatever else stands in the section |
| `Chunking.PackedOverflowsAlone` | services/wisepen-common/src/common/utils/markdown/chunking/splitter.py:58-81 | the same of the packed groups, over every run of content between headings |
| `StepEvents.StepEventInterpreter.Consume` | services/wisepen-chat-service/src/chat/application/query_loop_runtime.py:77-119 | each event keeps the interpreter in step with the stream: accumulated content, reasoning, calls and payload are what the stream says, and the events sent are open or closed blocks of it |
| `StepEvents.StepEventInterpreter.Close` | services/wisepen-chat-service/src/chat/application/query_loop_runtime.py:121-128 | closing ends every open block and changes no accumulated value |
| `StepEvents.Interpret` | services/wisepen-chat-service/src/chat/application/query_loop_runtime.py:77-128 | for every event sequence: one text block at most, holding every text delta; two reasoning blocks at most, those before the text and those after it, the first ended before the text starts; content and reasoning are the concatenated deltas and the calls all calls in order |
| `StepEvents.EarlyThenLate` | services/wisepen-chat-service/src/chat/application/query_loop_runtime.py:95-119 | the two reasoning blocks together hold every reasoning delta in order |
| `StepEvents.EarlyIsBeforeText` | services/wisepen-chat-service/src/chat/application/query_loop_runtime.py:94-113 | the first reasoning block holds the reasoning deltas before the first text delta |
| `StepEvents.BlockShapes` | services/wisepen-chat-service/src/chat/application/query_loop_runtime.py:94-128 | a block is its start, one part per delta in order, and its end |
| `StepEvents.NothingIsLost` | services/wisepen-chat-service/src/chat/application/query_loop_runtime.py:77-119 | content, reasoning and calls of a reply are all that the text, reasoning and tool-call events carry, concatenated in order |
| `StepEvents.LastPayloadCounts` | services/wisepen-chat-service/src/chat/application/query_loop_runtime.py:82-85 | the provider payload is that of the last state event |
| `Transcript.PairedMeansAnswered` | services/wisepen-chat-service/src/chat/application/query_loop_runtime.py:487-506 | a transcript scans as paired if and only if the tool messages right after each assistant message answer its calls one for one and tool messages stand nowhere else |
| `QueryLoop.ClassifyTools` | services/wisepen-chat-service/src/chat/application/tools/core/llm/invocation.py:36-59 | the loop returns, each in call order: the calls to tools that run on the client; the calls to other tools of high risk; and the rest, unknown tools included |
| `QueryLoop.ClassesPartition` | services/wisepen-chat-service/src/chat/application/tools/core/llm/invocation.py:36-59 | every call falls into exactly one class |
| `QueryLoop.RunStep` | services/wisepen-chat-service/src/chat/application/query_loop_runtime.py:247-521 | one step, fresh or resumed, with each of its cancellation checks, ends as the step function says, of which `FreshOutcome`, `FreshMessages` and `ResumedOutcome` say when it ends how |
| `QueryLoop.FreshOutcome` | services/wisepen-chat-service/src/chat/application/query_loop_runtime.py:383-450 | a fresh step suspends if and only if the stream completed, nothing was cancelled, and some call is to a tool in scope that runs on the client or is of high risk; it runs tools if and only if it made calls, none of that kind, and no check cancelled it; likewise when it fails, finishes and aborts |
| `QueryLoop.FreshMessages` | services/wisepen-chat-service/src/chat/application/query_loop_runtime.py:293-330 | a fresh step hands over the reply with everything the stream carried and, when it ran tools or was aborted, one tool message per call in call order, interrupted if and only if aborted |
| `QueryLoop.ResumedOutcome` | services/wisepen-chat-service/src/chat/application/query_loop_runtime.py:446-521 | a resumed step answers the server's calls, then those asked about, then the client's, each group in call order; it aborts, answering every call as interrupted, if and only if the check before a group that has calls finds it cancelled |
| `ChatTurns.StepAnswersItsCalls` | services/wisepen-chat-service/src/chat/application/query_loop_runtime.py:383-521 | what a step hands over - finished, continued or aborted - answers exactly the calls that were open or that it opened; a suspended step leaves exactly its own reply's calls open |
| `ChatTurns.LoopKeepsBudget` | services/wisepen-chat-service/src/chat/application/query_loop_runtime.py:190-241 | a batch asks the model once per iteration, in increasing order, below the limit; a resumed batch only at iterations after the one it re-enters, and it can suspend only there |
| `ChatTurns.LoopKeepsPairing` | services/wisepen-chat-service/src/chat/application/query_loop_runtime.py:190-241 | at every model call of a batch the prompt is paired; a suspension leaves its reply open in prompt and record; any other end leaves the record paired, unless a resumed batch ended before its first step |
| `ChatTurns.LoopCarriesTranscript` | services/wisepen-chat-service/src/chat/application/query_loop_runtime.py:233-236 | every prompt is the opening prompt followed by a prefix of what was recorded, across suspensions |
| `ChatTurns.LoopIsARun` | services/wisepen-chat-service/src/chat/application/query_loop_runtime.py:190-241 | a batch is a run of steps: each that goes on appends what it hands over to prompt and record, and the last one, the limit or a cancellation ends it; the record is all that was handed over plus what the end adds, and every step but a resumed one asked the model once with the prompt of that moment |
| `ChatTurns.StartedTurn` | services/wisepen-chat-service/src/chat/application/chat_turn_coordinator.py:356-378 | a new turn stores the question and what its batch handed over from iteration 0 on, and is suspended if and only if its last step was, at that step's prompt and iteration |
| `ChatTurns.ResumedTurn` | services/wisepen-chat-service/src/chat/application/chat_turn_coordinator.py:121-163 | a resumed turn goes on from the saved prompt and iteration with the tool phase it was suspended in, adds to what is stored and has no suspension but one of its own |
| `ChatTurns.RejectedTurn` | services/wisepen-chat-service/src/chat/application/chat_turn_coordinator.py:439-442 | a batch whose runtime options are rejected records nothing; a suspension it was to resume is consumed |
| `ChatTurns.EveryTurnIsSound` | services/wisepen-chat-service/src/chat/application/chat_turn_coordinator.py:111-163 | over every chain of suspensions and resumes: every model call saw a paired prompt, at most max_iterations calls were made, and the stored transcript is paired if and only if nothing is suspended and no resumed batch ended before its first step |
| `ChatTurns.SuspensionsAdvance` | services/wisepen-chat-service/src/chat/application/chat_turn_coordinator.py:149-155 | consecutive suspensions of a turn come at strictly increasing iterations below the limit |
| `ChatTurns.CancelledResumeLeavesCallOpen` | services/wisepen-chat-service/src/chat/application/query_loop_runtime.py:192-195 | a concrete run in which cancelling a resumed batch at the top of the loop leaves the suspended call unanswered in what is stored |
| `Coordinator.ChatTurnContext.QueryLlm` | services/wisepen-chat-service/src/chat/application/chat_turn_coordinator.py:380-442 | the batch, updated in place, ends in exactly the state of the batch function, and saves a suspension if and only if it waits for the client |
| `Coordinator.ChatTurnContext.HandleNewChatStart` | services/wisepen-chat-service/src/chat/application/chat_turn_coordinator.py:342-378 | a new turn records the question, runs its batch from iteration 0 and stores the record |
| `Coordinator.ChatTurnContext.HandleSuspendedChatRecover` | services/wisepen-chat-service/src/chat/application/chat_turn_coordinator.py:121-163 | a resume runs the saved prompt from its saved iteration with an empty record, stores what it adds and consumes the suspension; without one it is refused and nothing changes |
| `TurnStream.RedisChatTurnStream.AcquireActiveTurn` | services/wisepen-chat-service/src/chat/core/persistence/redis/chat_turn_stream.py:41-49 | a lease of a full life is acquired if and only if the session is free |
| `TurnStream.RedisChatTurnStream.RenewActiveTurn` | services/wisepen-chat-service/src/chat/core/persistence/redis/chat_turn_stream.py:15-21 | renewing moves the lease's deadline to a full life from now for the turn that holds it, and changes nothing for any other |
| `TurnStream.RedisChatTurnStream.ReleaseActiveTurn` | services/wisepen-chat-service/src/chat/core/persistence/redis/chat_turn_stream.py:6-12 | releasing removes the lease of its own turn and no other |
| `TurnStream.RedisChatTurnStream.AppendFrame` | services/wisepen-chat-service/src/chat/core/persistence/redis/chat_turn_stream.py:83-95 | a frame is appended to one stream under the next id |
| `TurnStream.IterFrames` | services/wisepen-chat-service/src/chat/core/persistence/redis/chat_turn_stream.py:97-122 | a subscriber whose reads see a growing log has handed on exactly the log as far as it read - everything at the first read, at most 50 entries at each later one - cut after the first terminal frame |
| `TurnStream.UpToTerminalIs` | services/wisepen-chat-service/src/chat/core/persistence/redis/chat_turn_stream.py:97-122 | what is handed on ends at the first terminal frame, and without one is all of the log |
| `TurnStream.ReachedIs` | services/wisepen-chat-service/src/chat/core/persistence/redis/chat_turn_stream.py:97-122 | the first read brings everything there is, each later one at most fifty entries more |
| `TurnRunner.StoppedLogs` | services/wisepen-chat-service/src/chat/application/chat_turn_stream_manager.py:89-112 | over every interleaving: a stopped turn's log is its start frame, the frames it wrote, one closing frame and the terminal done frame, which is last; the closing frame is the finish frame if and only if the generator ended with everything written, the error of a failed runner if and only if it raised, and else the error of a lost lease; a running turn's log holds no terminal frame |
| `TurnRunner.RunnerMoves` | services/wisepen-chat-service/src/chat/application/chat_turn_stream_manager.py:89-112 | a runner gets to write a frame only by a renewal that finds the lease its own and is lost only by one that does not; it gives the lease up only after the last frame of a generator that ended, fails only after that of one that raised, and counts a frame as written when it writes it |
| `TurnRunner.SubscriberReplays` | services/wisepen-chat-service/src/chat/core/persistence/redis/chat_turn_stream.py:97-122 | whatever the moments of its reads in any interleaving, a subscriber has handed on a prefix of the turn's log, and the whole of it once it met the terminal frame |
| `TurnRunner.SubscriberFinishes` | services/wisepen-chat-service/src/chat/core/persistence/redis/chat_turn_stream.py:97-122 | once a turn has stopped, a subscriber whose later reads are enough for the log at fifty entries each has handed on the whole log, terminal frame included - whatever it had read before |
| `TurnRunner.LeaseChanges` | services/wisepen-chat-service/src/chat/core/persistence/redis/chat_turn_stream.py:6-21 | a session's lease is taken only when free, for a full life; its deadline is moved only by a renewal of the turn that holds it; it is lost only when its deadline has come or by the release of the turn that holds it; a step of any other turn changes no lease and a refused start changes nothing |
| `TurnRunner.HeldExactly` | services/wisepen-chat-service/src/chat/core/persistence/redis/chat_turn_stream.py:41-75 | over every interleaving: a turn holds its session's lease if and only if it has not finished and less than a life has passed since it acquired or last renewed it, so no lease is lost early, kept late or extended by another turn |
| `TurnRunner.WritesAreGuarded` | services/wisepen-chat-service/src/chat/application/chat_turn_stream_manager.py:93-100 | over every interleaving: a content frame is appended only by the turn's own step, and then the turn holds the lease if and only if no whole life has passed since it renewed for that frame |
| `TurnRunner.StoppedLeases` | services/wisepen-chat-service/src/chat/application/chat_turn_stream_manager.py:89-112 | over every interleaving: a stopped turn still holds its session's lease if and only if it failed and the life of its last renewal has not passed |
| `TurnRunner.FailedTurnKeepsLease` | services/wisepen-chat-service/src/chat/application/chat_turn_stream_manager.py:107-112 | a concrete run: a generator that raises at once leaves a stopped turn that still holds its session's lease |
| `TurnRunner.RunTurn` | services/wisepen-chat-service/src/chat/application/chat_turn_stream_manager.py:78-112 | the runner as code, with the leases changed by others between its steps, leaves the log of a stopped runner; it releases only its own lease and only when it finishes, leaves the leases as it found them when its own is lost, and as its last renewal left them when the generator raises |
| `CommandTask.NextKeepsOk` | services/wisepen-sandbox-service/src/sandbox/application/command_task_service.py:53-286 | every step of starter, worker, killer, output write and finish keeps the invariants of a command task: one lock while the document is not terminal, current snapshots, releases matching registrations |
| `CommandTask.OneReader` | services/wisepen-sandbox-service/src/sandbox/application/command_task_service.py:258-286 | at most one job can be between its read and its write, although the lock table is refilled and dropped |
| `CommandTask.ProtectionChanges` | services/wisepen-sandbox-service/src/sandbox/application/command_task_service.py:80-83 | only a granted registration starts protecting a sandbox and only the release that follows a finishing write stops it |
| `CommandTask.DocumentChanges` | services/wisepen-sandbox-service/src/sandbox/application/command_task_service.py:269-281 | only naming the sandbox, marking the command running and a finishing write change the document; a finishing write sets the status its job was to finish with and nothing else |
| `CommandTask.JobsAreAskedFor` | services/wisepen-sandbox-service/src/sandbox/application/command_task_service.py:105-162 | jobs to finish come only from a kill, which asks for KILLED or LOST, from the worker, which asks for the status it was told, and from a failing start, which asks for LOST if the provider had accepted the command, else for FAILED |
| `CommandTask.WorkerLeaves` | services/wisepen-sandbox-service/src/sandbox/application/command_task_service.py:194-256 | the worker stops at a terminal document or after the job that finished it or found it so, and then drops the lock |
| `SandboxStore.NeverReturns` | services/wisepen-sandbox-service/src/sandbox/domain/entities/sandbox.py:65-78 | along allowed transitions a sandbox never enters a state twice |
| `SandboxStore.SandboxRepository.RegisterActive` | services/wisepen-sandbox-service/src/sandbox/core/storage/mongo/sandbox_repository.py:62-72 | a registration counts one more and moves the last activity forward if and only if the sandbox is active and bound to that user |
| `SandboxStore.SandboxRepository.UnregisterActive` | services/wisepen-sandbox-service/src/sandbox/core/storage/mongo/sandbox_repository.py:74-83 | a release takes the count away only when it is there to take; a count below one is refused |
| `SandboxStore.SandboxRepository.ClaimIdleSandbox` | services/wisepen-sandbox-service/src/sandbox/core/storage/mongo/sandbox_repository.py:93-110 | a claim retires the sandbox if and only if it is active, idle since the cutoff and counts zero |
| `SandboxStore.SandboxRepository.ClaimRound` | services/wisepen-sandbox-service/src/sandbox/application/sandbox_watcher.py:241-255 | a reclaim round that nothing else interrupts retires exactly the claimable sandboxes and hands on every retiring one - those retired in this round twice |
| `SandboxProtocol.ActKeepsSafe` | services/wisepen-sandbox-service/src/sandbox/domain/repositories/sandbox_repository.py:48-82 | every action keeps the safety invariant over all sandboxes, tasks and leases |
| `SandboxProtocol.EveryRunIsSafe` | services/wisepen-sandbox-service/src/sandbox/application/command_task_service.py:53-286 | every interleaving from a safe world stays safe |
| `SandboxProtocol.CountIsExact` | services/wisepen-sandbox-service/src/sandbox/application/command_task_service.py:80-109 | in every run the count of an active sandbox is its registered unfinished tasks, plus those being released, plus its registered open leases |
| `SandboxProtocol.TerminalForGood` | services/wisepen-sandbox-service/src/sandbox/application/command_task_service.py:258-286 | in every run a terminal task stays as it is for good and is never released more often than registered |
| `SandboxProtocol.ReleasedExactly` | services/wisepen-sandbox-service/src/sandbox/application/command_task_service.py:278-281 | in every run a task is released at most once, and exactly once when it was registered, is terminal and no finishing write is pending |
| `SandboxProtocol.StatusWasAskedFor` | services/wisepen-sandbox-service/src/sandbox/application/command_task_service.py:105-162 | in every run a terminal task has a status that an earlier step asked for: the kill, the worker or the failing start |
| `SandboxProtocol.ClaimsAreIdle` | services/wisepen-sandbox-service/src/sandbox/core/storage/mongo/sandbox_repository.py:93-110 | in every run an idle claim meets no registered lease, no protected task and no running task on the sandbox it takes |
| `SandboxProtocol.ReleasesFindACount` | services/wisepen-sandbox-service/src/sandbox/application/command_task_service.py:278-281 | in every run a release on an active sandbox finds a count of at least one, so none is lost |
| `SandboxProtocol.UnregisteredLeaseIsHarmless` | services/wisepen-sandbox-service/src/sandbox/application/file_service.py:599-617 | in every run a lease whose registration was refused belongs to a sandbox no longer active, and closing it changes no active sandbox |
| `SandboxProtocol.OnlyTheLifecycleSaves` | services/wisepen-sandbox-service/src/sandbox/application/file_service.py:610-617 | closing an unregistered lease keeps the count right if and only if the sandbox is not active or counts zero |
| `Restart.CommandTaskService.ReconcileInterruptedTasks` | services/wisepen-sandbox-service/src/sandbox/application/command_task_service.py:164-180 | from any state: unfinished tasks become LOST, active sandboxes count zero, nothing else changes, and every later run is safe |
| `Rrf.Fuse` | services/wisepen-common/src/common/utils/retrieval/fusion/rrf.py:25-61 | the fusion is the correct one - every candidate once, scored by the sum of 1/(k+rank) over first occurrences, ordered by score and then first seen, ranked from one - and fails if and only if some denominator is zero |
| `Rrf.FusionIsUnique` | services/wisepen-common/src/common/utils/retrieval/fusion/rrf.py:50-61 | there is only one such list |
| `Rrf.FusionReadOff` | services/wisepen-common/src/common/utils/retrieval/fusion/rrf.py:44-61 | in a correct fusion each result is the first candidate of its id in all sets, with its place as rank and its score; every id comes out; the order is by falling score, then by first appearance |
| `Rrf.ScoreStep` | services/wisepen-common/src/common/utils/retrieval/fusion/rrf.py:32-48 | a result set adds 1/(k + rank) of the first candidate with the id, its position counted from one standing in for a zero rank, and nothing when it has none |
| `Rrf.DefinedIs` | services/wisepen-common/src/common/utils/retrieval/fusion/rrf.py:40-42 | fusing is refused if and only if for the first candidate of some id in some set that denominator is zero |
| `Rrf.Dominance` | services/wisepen-common/src/common/utils/retrieval/fusion/rrf.py:32-55 | a candidate listed wherever another is, never ranked worse, and somewhere better or extra, comes out before it |
| `Rrf.SortByScore` | services/wisepen-common/src/common/utils/retrieval/fusion/rrf.py:50-55 | descending stable order of the scores |
| `Mmr.Diversify` | services/wisepen-common/src/common/utils/retrieval/diversity/mmr.py:26-89 | off returns the candidates, an unknown mode is refused, otherwise the greedy picks at weight 0.75 or 0.5 until every id is taken |
| `Mmr.FindBest` | services/wisepen-common/src/common/utils/retrieval/diversity/mmr.py:50-81 | one pass finds the earliest candidate of greatest value among those left |
| `Mmr.PickReadOff` | services/wisepen-common/src/common/utils/retrieval/diversity/mmr.py:49-87 | each pick is a candidate whose id was not picked before, with the next rank and its value as score; none left is worth more and none before it as much |
| `Mmr.ValueReadOff` | services/wisepen-common/src/common/utils/retrieval/diversity/mmr.py:57-73 | a candidate's value is the weighted relevance less the rest of the weight times its greatest similarity to a selected one, zero when none is selected |
| `Mmr.NormalizedScores` | services/wisepen-common/src/common/utils/retrieval/diversity/mmr.py:92-104 | relevance by id, scaled to the score range |
| `Mmr.RelevanceReadOff` | services/wisepen-common/src/common/utils/retrieval/diversity/mmr.py:92-104 | relevance is the score of the last candidate with the id, scaled to the range of all scores, or one where they are all equal |
| `Mmr.OwnScore` | services/wisepen-common/src/common/utils/retrieval/diversity/mmr.py:101-104 | with distinct ids an id stands for its own candidate's score |
| `Mmr.NormalIsAScale` | services/wisepen-common/src/common/utils/retrieval/diversity/mmr.py:92-104 | normalized relevance lies in [0, 1], keeps the order of scores and reaches one at the maximum |
| `Mmr.EachIdOnce` | services/wisepen-common/src/common/utils/retrieval/diversity/mmr.py:46-89 | every id comes out exactly once and ranks count from one |
| `Mmr.PermutesDistinct` | services/wisepen-common/src/common/utils/retrieval/diversity/mmr.py:46-89 | with distinct ids the result is a permutation of the candidates |
| `Mmr.ScoresFall` | services/wisepen-common/src/common/utils/retrieval/diversity/mmr.py:57-81 | scores never rise from the second pick on, nor from the first where the similarity to it is not negative |
| `Mmr.PicksAreUnique` | services/wisepen-common/src/common/utils/retrieval/diversity/mmr.py:49-87 | the greedy choices determine the result |
| `Paging.PageBounds` | services/wisepen-chat-service/src/chat/core/persistence/mongo/message_repository.py:40-86 | a page is the shown messages from its oldest turn on, up to the oldest turn of the newer page, and the total is the number of turns |
| `Paging.PageReadOff` | services/wisepen-chat-service/src/chat/core/persistence/mongo/message_repository.py:40-86 | the same in numbers: of n user messages page p of size s takes the messages that are no system messages from the time of user message n - ps, or of the first, up to that of user message n - (p-1)s, or to the end on the newest page |
| `Paging.PagesPartition` | services/wisepen-chat-service/src/chat/core/persistence/mongo/message_repository.py:40-86 | pages from any one down to the newest hold exactly the shown messages from the oldest of their turns on, once each and in time order - whatever the timestamps, ties included |
| `Paging.AllPages` | services/wisepen-chat-service/src/chat/core/persistence/mongo/message_repository.py:40-86 | all pages together are exactly the shown messages from the first user message on |
| `Paging.PageTurns` | services/wisepen-chat-service/src/chat/core/persistence/mongo/message_repository.py:44-86 | the user messages on a page are exactly its turns if and only if no tie in time lies across either end of it |
| `Paging.TiedTurnsShareAPage` | services/wisepen-chat-service/src/chat/core/persistence/mongo/message_repository.py:44-86 | the smallest failing case: of two user messages of one moment, one to a page, the newest page shows both and the older page neither |
| `Billing.TokenUsage.constructor` | services/wisepen-chat-service/src/chat/domain/interfaces/llm.py:19-23 | construction clamps every component, cached input to the input |
| `Billing.TokenUsage.Add` | services/wisepen-chat-service/src/chat/domain/interfaces/llm.py:33-42 | adding is exact in every component and keeps cached input within input; the source becomes the other's while nothing is counted, stays when both agree, and reads mixed otherwise |
| `Billing.SumIsExact` | services/wisepen-chat-service/src/chat/domain/interfaces/llm.py:33-42 | an accumulated usage is the component-wise sum of its parts |
| `Billing.OneSourceIsKept` | services/wisepen-chat-service/src/chat/domain/interfaces/llm.py:41-42 | over every non-empty list of usages of one source: the sum has that source if and only if it is the provider's or mixed, or the first usage counts nothing; otherwise the sum reads mixed |
| `Billing.OneEstimateReadsMixed` | services/wisepen-chat-service/src/chat/domain/interfaces/llm.py:41-42 | the smallest failing case: a single estimated token accumulates to a mixed usage |
| `Billing.ChargeIsCeiling` | services/wisepen-chat-service/src/chat/domain/repositories/model_repo.py:89-103 | for any rates, usage and multiplier: refused if and only if the model is billed, something was used and the multiplier is negative; otherwise a model that is not billed costs nothing and a billed one the least integer not below the multiplier times input not cached, cached input and output, each at its own rate |
| `Billing.BatchesCost` | services/wisepen-chat-service/src/chat/application/chat_turn_coordinator.py:137-139 | charging in n batches costs at least the one-shot charge and less than n more |

## Left out

- Markdown parsing, semantic splitting, previews, the byte-pair encoding and the digests: they are
  parameters or uninterpreted functions.
- Rendering of outline lines to text, anchors, summaries and previews in them: a line is a section, its
  indentation and its number of `#`.
- NeighborhoodLaws.NeighborhoodIsASelection: is stated for natural step counts, as are its companions,
  because a negative count makes a slice that is no window around the section; the method covers any count.
- Outlines.OutlineFormatter.GlobalOutline: without a depth limit it requires that paths end, because the
  source's recursion otherwise does not; the recursion limit of the interpreter is not modelled.
- SectionTree.BuildHeadingSections: does not model `section_path`, copied from the parser's metadata, and
  the preview of a section; neither decides anything in the tree.
- Packing.Pack: does not model a chunk's source node ids, exact source spans, anchor labels and hashes, which
  are copied or digested from its nodes; a part keeps the envelope of its spans.
- LLM adapters, tool executors, the approval flag passed to a tool, token usage estimation and runtime
  option merging: a step's surroundings say which events arrived, how the stream ended and what each
  cancellation check found.
- Prompt assembly, hot context, memory and persistence of a turn beyond the stored message list; records
  re-submitted when an unfinished turn is closed before a new one.
- The number of saved suspensions of a session: the model keeps one, replaced when a resumed batch
  suspends again.
- Redis failures, expiry of a frame log, hard cancellation of a runner after its 30 seconds.
- Command tasks as mutable objects: `start_command`, `kill_command`, `_run_worker` and `_finish` are
  steps on task values, because their interleaving is what matters; the in-memory copies they hold are
  modelled as snapshots, other aliasing is not.
- `CommandTaskService.close()`, process crashes between two steps, cancellation while a registration is
  awaited, and what the remote command does after LOST or KILLED.
- Command output, its size limit and the polling deadline: an output write is a write of the snapshot it
  read, and a worker may finish its task at any time.
- SandboxStore.SandboxRepository.ClaimRound: does not model what others do between the awaited claims of a
  round; there each claim is the `ClaimIdle` action of `SandboxProtocol`, in any interleaving.
- Sandbox pool warm-up, expiry and container handling.
- Float rounding, decimal precision and the cosine similarity itself: similarity is any function of two
  ids.
- The order in which the database returns messages of equal time: they are taken in stored order.
