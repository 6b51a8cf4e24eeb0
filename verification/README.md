# Verified models of the sperm repository

Dafny models of the parts of the repository whose correctness is hardest to see, each with
proofs over all inputs or all runs.

* **nasty** (`NastyLexer`, `NastyParser`, `NastyPrinter`, `NastyLayout`): the flex automaton with its
  compressed tables, the 13-state bison driver and the printer that holds back every `(`
  until the next leaf. Printing a tree and reading the text back gives the same tree exactly
  when the tree is well formed.
* **FutexCondition and SyncedQueue** (`FutexCondition`, `SyncedQueue`): interleaved steps of
  any number of threads over a fetch-and-add counter and FUTEX_WAIT / FUTEX_WAKE.
* **The other queues** (`BoundedBlockingQueue`, `LinkedQueue`, `SList`) and the CAS free list
  (`LockFreeList`).
* **itachi** (`Itachi`, `ItachiRun`, `ItachiSafety`, `ItachiOrder`, `ItachiOverlap`): reference-counted
  contexts that pass through launch, poll queue, libev registration, CPU queue, `onComplete` and `release`.
  `Itachi` holds the pointers and cursors, `ItachiRun` the steps and what each keeps,
  `ItachiSafety` counts and pointers in whole runs, `ItachiOrder` the order of completion,
  `ItachiOverlap` when `onComplete` can overlap itself.
* **The binary codec** (`Compress`, `ByteArray`, `Serializer`).
* **wildcmp** (`Wildcmp`): the greedy glob matcher that goes back to the last `*` only.
* **word-ladder-2, word-break-2, four-sum** (`WordLadder`, `WordBreak`, `FourSum`).

How runs are modelled: a lock makes its section one step, every atomic operation is one step,
and a run is any sequence of enabled steps of any threads. Where the source updates objects or
arrays in place the model has a class or an array, and each method is proved against a
function or predicate on values. A statement the code does not meet is kept with a
counterexample or an exact condition: `NastyPrinter.RoundTrip`,
`FutexCondition.NegativeResourceFails`, `LinkedQueue.DLinkedListQueue.Replace`,
`Compress.OverrunIffCutShort`, `SyncedQueue.NullPopUnbalances`,
`LockFreeList.SecondAllocatorBreaks`, `WordLadder.Solution.CalcFloyd` with
`WordLadder.LadderDoesNotFit` and, for itachi,
`ItachiOverlap.OverlapIffAstray` with `ItachiOverlap.SteadyHintIsExact`.

Where comments and code differ, the code is followed. In nasty.lexer the class written
`+-/` is a range, so `.` and `,` can be part of an identifier. `getMinDist` has no return for
an unreachable end; the model returns `found == false` there. `CpuHandler::push` reads `stop_`
and then the hint before it takes the queue's lock, so a push can still follow a stop and go to
the queue of an old hint.

## Model

| member | source | states |
|---|---|---|
| NastyLexer.MoveTable | code/cc/nasty/nasty.l.cc:408-441 | looking a move up through base, chk, def and meta gives, for every reachable state and class, one plain transition function |
| NastyLexer.StateStep | code/cc/nasty/nasty.l.cc:376-441 | the automaton's state is a function of the text read: one table move from the state of p on byte c leads to the state of p + [c], for all texts |
| NastyLexer.AcceptsFirstRule | code/cc/nasty/nasty.l.cc:370-375 | for every non-empty text the accept table names the first lexer rule whose pattern the whole text matches, or none |
| NastyLexer.StopIsFinal | code/cc/nasty/nasty.l.cc:777-777 | when the loop stops on a state of base 27, no longer prefix matches any rule |
| NastyLexer.ScanIsBest | code/cc/nasty/nasty.l.cc:746-790 | the loop with its remembered accepting position computes the longest match, earliest rule first, of the pattern definitions |
| NastyLexer.Advance | code/cc/nasty/nasty.l.cc:768-774 | the default-chain loop terminates on every live state and class and computes the plain transition |
| NastyLexer.MatchToken | code/cc/nasty/nasty.l.cc:746-790 | the match loop with back-up returns the rule and length of the longest match at every position, and always advances |
| NastyLexer.BestIsRule | code/cc/nasty/nasty.lexer:31-39 | the longest match is a match of its rule and no longer prefix matches any rule |
| NastyLexer.Tokenize | code/cc/nasty/nasty.l.cc:746-841 | for every byte string the tokens are those of repeated longest match: blanks dropped, an unknown byte ends the input |
| NastyLexer.TokensWellFormed | code/cc/nasty/nasty.lexer:34-37 | every leaf token of every input has a text of its own kind |
| NastyLexer.LeafTokenRead | code/cc/nasty/nasty.lexer:34-37 | a well-formed leaf text followed by a delimiter is read back as exactly that one token |
| NastyLexer.SingleByteToken | code/cc/nasty/nasty.lexer:32-38 | a parenthesis is always a token of its own and a blank never part of one |
| NastyLexer.JunkEndsInput | code/cc/nasty/nasty.lexer:34-39 | where no token and no blank begins, at an unknown byte or a string that is never closed, the input ends |
| NastyParser.ActionTable | code/cc/nasty/nasty.y.cc:490-537 | the packed action tables decode, for all states and lookaheads, to the LALR(1) automaton of the grammar |
| NastyParser.GotoTable | code/cc/nasty/nasty.y.cc:497-516 | the packed goto tables decode to the automaton's gotos |
| NastyParser.ParseIsGrammar | code/cc/nasty/nasty.parser:35-48 | a token sequence has at most one tree, and the reference parser finds e exactly when the grammar derives the tokens from e |
| NastyParser.RunReadsExpr | code/cc/nasty/nasty.parser:39-47 | reading the yield of any expression appends exactly its atoms to the open list |
| NastyParser.RunIsDerivation | code/cc/nasty/nasty.parser:35-48 | whatever the reference parser returns derives what was read |
| NastyParser.Round | code/cc/nasty/nasty.y.cc:1257-1528 | one round of the driver leads from any well-stacked configuration to the next: states and values stay in step with the open lists and the outcome of the whole parse is unchanged |
| NastyParser.DriveRound | code/cc/nasty/nasty.y.cc:1341-1528 | every shift or reduce keeps the driver's invariant and decreases the termination measure; an error entry means that no tree exists |
| NastyParser.StackBound | code/cc/nasty/nasty.y.cc:1257-1528 | in every sequence of configurations that the tables' shifts and reductions lead through from the start, the state stack holds at most 2 * nesting + 3 entries, one more than the value stack |
| NastyParser.NestingIsDepth | code/cc/nasty/nasty.parser:43-43 | the nesting of this bound is the largest number of unclosed parentheses after any of the tokens |
| NastyParser.Parse | code/cc/nasty/nasty.y.cc:1257-1528 | the table-driven loop terminates on every token sequence, accepts exactly when the grammar derives it and delivers that tree; the configurations it goes through are such a sequence, ending in YYFINAL or at an error entry, each within 2 * nesting + 3 stack entries |
| NastyPrinter.WriteExprTo | code/cc/nasty/nasty.cc:65-72 | appends to the stream exactly the text of the expression and hands back the parentheses still owed |
| NastyPrinter.WriteAtomTo | code/cc/nasty/nasty.cc:79-90 | the same for an atom, with the deferred parentheses and the indentation |
| NastyPrinter.WriteRepeated | code/cc/nasty/nasty.cc:52-56 | appends n copies of a character, none when n is negative |
| NastyPrinter.ToString | code/cc/nasty/nasty.cc:58-63 | the returned text is the printed form of the tree |
| NastyLayout.PrintLayout | code/cc/nasty/nasty.cc:52-90 | the text of every tree without empty lists, told from the index paths of its leaves: one line per leaf, joined by newlines; d blanks for the d lists around the leaf, one less if it begins a list, then a `(` for each list it is the first leaf of, its text, and a `)` for each list it is the last leaf of |
| NastyLayout.PathsAreLeaves | code/cc/nasty/nasty.cc:65-72 | these lines stand for every leaf once, from left to right |
| NastyPrinter.AtomTokens | code/cc/nasty/nasty.cc:79-90 | the text of a well-formed atom lexes to the owed `(` followed by the atom's own tokens, and nothing stays owed |
| NastyPrinter.ExprTokens | code/cc/nasty/nasty.cc:65-72 | the same for expressions at every indentation and every number of owed parentheses |
| NastyPrinter.RoundTrip | code/cc/nasty/nasty.cc:58-90 | print, lex and parse gives back the same tree if and only if every list in it is non-empty and every leaf text belongs to its kind |
| NastyPrinter.PrintNormalises | code/cc/nasty/nasty.cc:25-90 | whatever any text parses to prints to a text that parses to the same tree |
| NastyPrinter.ParseText | code/cc/nasty/nasty.cc:25-40 | lexer and parser together on any text: the result is well formed and survives printing and reading again |
| FutexCondition.StepKeepsInv | code/cc/common/cond.cc:114-183 | every step keeps: blocked threads minus pending wakes equal max(0, -counter), and granted + max(counter, 0) + pending equals resource + notifies |
| FutexCondition.RunKeepsInv | code/cc/common/cond.cc:114-183 | this balance holds in every state of every run |
| FutexCondition.NoLostWakeup | code/cc/common/cond.cc:114-183 | notifiers in the retry loop never outnumber threads asleep or about to sleep; with none pending, exactly max(0, -counter) threads are blocked; waits succeed at most resource + notifies times |
| FutexCondition.NotifierCanFinish | code/cc/common/cond.cc:166-183 | from every reachable state a notifier in its retry loop gets out after at most one FUTEX_WAIT and one FUTEX_WAKE |
| FutexCondition.NegativeResourceFails | code/cc/common/cond.cc:109-112 | for every negative initial resource some run breaks the guarantee at its first notify |
| SyncedQueue.QueueBalance | code/cc/common/queue.h:450-487 | in every run the queue's size is the enqueued but not yet notified plus max(counter, 0) plus pending wakes plus granted but unused waits; a thread past wait finds the queue non-empty; nothing is lost or duplicated, and without push_front the order is FIFO |
| SyncedQueue.NobodySleepsOnItems | code/cc/common/queue.h:450-487 | when no call is between its steps, a sleeping pop or top means an empty queue and the counter equals the size |
| SyncedQueue.FirstInFirstOut | code/cc/common/queue.h:450-475 | in a run without push_front, what has been popped followed by what is queued is what the steps pushed, in order |
| SyncedQueue.PushFrontIsNext | code/cc/common/queue.h:456-461 | the next pop takes what was last pushed to the front |
| SyncedQueue.TopShowsNext | code/cc/common/queue.h:476-487 | the next pop takes what top has returned, unless something was pushed to the front in between |
| SyncedQueue.RunKeepsInv | code/cc/common/queue.h:450-487 | the balance, the places of threads and the contents are kept in every run |
| SyncedQueue.NullPopUnbalances | code/cc/common/queue.h:470-472 | a pop with a null pointer always breaks the balance: its grant is used up and the element stays |
| SyncedQueue.StepKeepsBalance | code/cc/common/queue.h:450-487 | each step of push, pop, top and of the condition keeps the balance |
| BoundedBlockingQueue.EveryRun | code/cc/common/queue.h:361-424 | in every run, spurious wakeups and timeouts included: the size is between 0 and the maximum; unsignalled poppers imply size at most the woken poppers yet to recheck, and so for pushers and free slots; contents are conserved, FIFO without push_front |
| BoundedBlockingQueue.NoDeadlock | code/cc/common/queue.h:361-424 | with nobody woken and pending, waiting poppers mean an empty and waiting pushers a full queue; both at once only if the maximum is 0 |
| BoundedBlockingQueue.FirstInFirstOut | code/cc/common/queue.h:361-424 | in a run without pushes to the front elements come out in the order they were queued |
| BoundedBlockingQueue.PushFrontIsNext | code/cc/common/queue.h:382-402 | the next pop takes what was last pushed to the front |
| BoundedBlockingQueue.StepKeepsInv | code/cc/common/queue.h:361-424 | every call, recheck, spurious wakeup and timeout keeps the invariant |
| LinkedQueue.DLinkedListQueue.Push | code/cc/common/queue.h:168-181 | appends the node; prev and next chains stay exact |
| LinkedQueue.DLinkedListQueue.PushFront | code/cc/common/queue.h:182-195 | puts the node first; both chains stay exact |
| LinkedQueue.DLinkedListQueue.Pop | code/cc/common/queue.h:196-224 | returns the first node unlinked, and false exactly on an empty queue |
| LinkedQueue.DLinkedListQueue.Clear | code/cc/common/queue.h:225-230 | empties the queue and returns the chain still linked in order |
| LinkedQueue.DLinkedListQueue.Remove | code/cc/common/queue.h:242-258 | removes exactly that member, wherever it is |
| LinkedQueue.DLinkedListQueue.Replace | code/cc/common/queue.h:231-241 | the queue holds the new node in the old one's place if and only if that place was interior |
| LinkedQueue.ChainsAreReverses | code/cc/common/queue.h:161-270 | from any valid state, following next from head gives the abstract sequence and following prev from tail its exact reverse |
| LinkedQueue.SLinkedListQueue.Push | code/cc/common/queue.h:283-294 | appends the node |
| LinkedQueue.SLinkedListQueue.PushFront | code/cc/common/queue.h:295-306 | puts the node first |
| LinkedQueue.SLinkedListQueue.Pop | code/cc/common/queue.h:307-332 | returns the first node with its link cleared, and false exactly on an empty queue |
| LinkedQueue.SLinkedListQueue.Clear | code/cc/common/queue.h:333-338 | empties the queue and returns the chain still linked in order |
| LinkedQueue.Drain | code/cc/itachi/handler.cc:130-136 | the loop over a cleared chain ends and meets every node once, in queue order |
| SList.PushHolds | code/cc/common/queue.h:283-294 | on explicit pointers: pushing a new entry turns a list that spells q into one that spells q + [x] |
| SList.PushFrontHolds | code/cc/common/queue.h:295-306 | the same at the front |
| SList.PopHolds | code/cc/common/queue.h:324-330 | popping gives the first entry and a list that spells the rest |
| LockFreeList.EveryRun | code/cc/common/lkfree.h:28-62 | in every interleaving of any number of freeing threads with one allocating thread, or of any number of both over an arena of one entry, the list from head_ is finite, acyclic and duplicate-free, and free, allocated and being-freed entries partition the arena |
| LockFreeList.AllocIsFresh | code/cc/common/lkfree.h:41-52 | in such runs a successful alloc never hands out an entry that is allocated or being freed |
| LockFreeList.EmptyHanded | code/cc/common/lkfree.h:43-44 | a round of alloc finds nothing exactly when every entry is in use or being freed |
| LockFreeList.AllocCanFinish | code/cc/common/lkfree.h:41-52 | left alone, a round of alloc hands out a free entry if there is one |
| LockFreeList.FreeCanFinish | code/cc/common/lkfree.h:54-62 | left alone, free makes its entry free again, at the head |
| LockFreeList.SecondAllocatorBreaks | code/cc/common/lkfree.h:41-52 | for every arena of two or more entries some run with two allocating threads ends with an allocated entry at the head of the list |
| LockFreeList.RunKeepsInv | code/cc/common/lkfree.h:28-62 | the invariant with what each thread remembers between its load and its CAS, in runs with one allocating thread or one entry |
| LockFreeList.StepKeepsChain | code/cc/common/lkfree.h:41-62 | every load, link and CAS keeps next an exact chain of the free entries |
| LockFreeList.StepKeepsMemory | code/cc/common/lkfree.h:41-62 | the next pointer that was read stays right until the CAS: for the one allocating thread, and for all of them when the arena has one entry |
| Itachi.AimKeeps | code/cc/itachi/handler.cc:105-105 | once push has read the hint the context is aimed at the queue it names, whatever the hint becomes before the queue's lock is taken |
| Itachi.PushKeeps | code/cc/itachi/handler.cc:108-113 | the push puts the context on the queue it was aimed at and keeps every queue and cleared chain exactly spelled by its pointers |
| Itachi.PopKeeps | code/cc/itachi/handler.cc:121-125 | popping takes the head of that line only; the other queues and chains keep their contents |
| Itachi.ClearKeeps | code/cc/itachi/handler.cc:129-130 | clearing hands the whole queue, linked, to the walking thread |
| Itachi.WalkKeeps | code/cc/itachi/handler.cc:131-136 | reading next before onComplete: the pointer always heads the rest of the chain, ends only when it is used up, and no relaunch in between breaks it |
| Itachi.PollClearKeeps | code/cc/itachi/handler.cc:238-240 | the same hand-over for the poll queue |
| Itachi.RegisterKeeps | code/cc/itachi/handler.cc:241-252 | each context of the cleared chain becomes a registration, once |
| Itachi.CallbackKeeps | code/cc/itachi/handler.cc:219-231 | a reported context leaves its registration and is before its push, in the hands of the poll thread |
| Itachi.CallbackPushKeeps | code/cc/itachi/handler.cc:228-230 | the push that ends a callback: the context joins the queue it was aimed at and the poll thread goes on |
| ItachiRun.ClientKeepsCounted | code/cc/itachi/itachi.cc:67-133 | create, acquire, release and each part of launch, roll-back included, keep refs = external + in flight + running, and deleted exactly at zero |
| ItachiRun.ThreadKeepsCounted | code/cc/itachi/handler.cc:116-255 | so does every step of the CPU and poll threads |
| ItachiRun.CpuKeepsOrder | code/cc/itachi/handler.cc:116-139 | pop, clear and drain never reorder, drop or repeat what was pushed |
| ItachiRun.StepKeepsInv | code/cc/itachi/handler.cc:100-255 | every step, the read of the hint and the push being two, keeps the pointers, places, counts, order, event kinds and callbacks under way together |
| ItachiSafety.RunKeepsInv | code/cc/itachi/handler.cc:100-255 | all of these hold in every state of every run |
| ItachiSafety.RefsAreAccounted | code/cc/itachi/itachi.cc:67-129 | in every state of every run each context's count is external references plus the places where it is found (at most one: in launch, aimed at a queue, on a chain of pointers or registered) plus running onComplete calls, and it has been deleted, once, exactly when the count is 0 |
| ItachiSafety.HeldIsLive | code/cc/itachi/handler.cc:116-255 | no queue head or tail, cursor, registration or running callback ever refers to a deleted context |
| ItachiSafety.ReleaseDeletes | code/cc/itachi/itachi.cc:67-72 | a client can always give back a reference it holds, and this deletes the context exactly when no other reference, place or running callback is left |
| ItachiSafety.LaunchRollsBack | code/cc/itachi/itachi.cc:104-127 | a launch after a stop or of an event never initialised gives its reference back: counts and places are as before |
| ItachiSafety.RegistersNetEvents | code/cc/itachi/handler.cc:241-251 | the poll loop never meets an event that is not a network event |
| ItachiOrder.PushGoes | code/cc/itachi/handler.cc:108-112 | a push puts an event initialised as an emergency before everything its CPU queue spells and any other after it; a poll queue takes it last |
| ItachiOrder.PushInRun | code/cc/itachi/handler.cc:108-112 | the same for every push of every run |
| ItachiOrder.AimFollowsHint | code/cc/itachi/handler.cc:105-105 | the queue chosen is that of the remainder of the hint by the number of threads, of the poll threads for a network event and of the CPU threads for any other |
| ItachiOrder.CpuQueueIsFifo | code/cc/itachi/handler.cc:100-139 | in every run, what the steps pushed to a CPU thread is, each once, begun, in the chain it cleared or queued; and in push order if every push to it was of an event that was then CPU and not urgent |
| ItachiOrder.FifoWithoutEmergency | code/cc/itachi/handler.cc:100-231 | so it is in every run in which clients initialise no urgent event, contexts back from libev included |
| ItachiOrder.ClearsAfterPop | code/cc/itachi/handler.cc:121-136 | between a context it popped and the next it begins, a CPU thread clears its queue |
| ItachiOrder.ChainComesFirst | code/cc/itachi/handler.cc:131-136 | while a cleared chain is left, its first context is what the thread begins next, whatever is pushed |
| ItachiOverlap.OverlapIffAstray | code/cc/itachi/handler.cc:100-139 | from any state of a run, a continuation that does not move the context's hint reaches two onComplete calls running on it only if a CPU thread other than the one the hint names runs it, has it on its queue or cleared chain, or is the one a push under way has chosen; before a stop, if and only if |
| ItachiOverlap.OverlapInRuns | code/cc/itachi/handler.cc:100-139 | the same for every state of every run |
| ItachiOverlap.AstrayOverlaps | code/cc/itachi/handler.cc:100-255 | before a stop, the continuation itself: busy threads are drained, pushes under way done, and contexts in launch, on the poll side or registered brought round |
| ItachiOverlap.SteadyHintIsExact | code/cc/itachi/itachi.h:52-54 | before a stop, moving the hint of a context that is with no wrong thread leaves no overlap possible if and only if the new hint names the same CPU thread, or the context is not running and is out of flight, a network event, or in a launch that has not read the hint yet |
| ItachiOverlap.NoOverlap | code/cc/itachi/handler.cc:100-139 | in every run that moves the context's hint only so, at most one onComplete runs on it at any time; a client that cannot tell whether a launch has read the hint keeps to the first three cases |
| ItachiOverlap.OverlapHappens | code/cc/itachi/handler.cc:105-112 | with two or more CPU threads some run has two onComplete calls on one context |
| Compress.ZigzagInverse | code/cc/common/compress.h:15-21 | the two shift-and-xor maps are inverse bijections of int64 and uint64, and encode is 2v or -2v - 1 |
| Compress.SizeIsTrailingOnes | code/cc/common/compress.h:35-45 | the size read from the first byte is one more than its trailing ones |
| Compress.CodeRoundTrip | code/cc/common/compress.h:23-209 | decoding any uint64's code followed by anything gives the value and exactly its length: the code is prefix-free and both size functions agree |
| Compress.SizeOfValue | code/cc/common/compress.h:23-33 | n bytes, n up to 8, are enough exactly for values below 128^n |
| Compress.CodeBytes | code/cc/common/compress.h:47-126 | every byte of a code: the value times 2^n plus n - 1 ones, low end first; or 0xff and the value, low end first |
| Compress.DecodedBytes | code/cc/common/compress.h:132-209 | whatever is decoded, canonical or not, the bytes read spell the value in that way |
| Compress.OverrunIffCutShort | code/cc/common/compress.h:132-209 | on any bytes the decoder reads past the end if and only if the first byte is 0xff and fewer than nine bytes are there |
| Compress.TruncatedCode | code/cc/common/compress.h:132-209 | of the codes the encoder writes, one cut short is refused if and only if it is cut to nothing or the value is below 2^56; otherwise the decoder reads past the end |
| Compress.CodeIsShortest | code/cc/common/compress.h:23-209 | whatever decodes uses at least as many bytes as the encoder would, and is the encoder's own output exactly when it uses as many |
| ByteArray.ReadableByteArray.Read | code/cc/common/byte_array.cc:17-26 | succeeds exactly when enough bytes remain, and then delivers and skips exactly these |
| ByteArray.ReadableByteArray.Remain | code/cc/common/byte_array.cc:28-33 | what lies after the cursor |
| ByteArray.WriteableByteArray.Allocate | code/cc/common/byte_array.cc:69-99 | room for n more bytes with everything written before kept, reallocating exactly when needed and then at least doubling |
| ByteArray.WriteableByteArray.Write | code/cc/common/byte_array.cc:60-67 | the contents grow by exactly the bytes written, across reallocations |
| Serializer.EncodeRoundTrip | code/cc/common/serializer.h:50-109 | decoding a value's bytes, followed by anything, by its type gives the value and its length |
| Serializer.EncodedAs | code/cc/common/serializer.h:50-101 | unsigned values are written as they are, signed ones as 2v or -2v - 1, strings after their length |
| Serializer.ReadNarrow | code/cc/common/serializer.h:71-92 | a number beyond 32 bits read into a 32-bit type is taken modulo 2^32 |
| Serializer.Serialize | code/cc/common/serializer.h:50-100 | appends exactly the value's encoding |
| Serializer.DecompressNumber | code/cc/common/compress.h:230-239 | on any bytes but a leading 0xff with fewer than eight after it: decodes at the cursor and skips exactly the bytes used; refused, the cursor stays |
| Serializer.Deserialize | code/cc/common/serializer.h:53-109 | under the same condition on the bytes: result and cursor are those of the format, failures included |
| Serializer.SerializeAll | code/cc/common/serializer.h:50-100 | the sink holds the concatenation of the encodings |
| Serializer.DeserializeAll | code/cc/common/serializer.h:53-109 | reading by the matching type list gives the values and consumes every byte |
| Serializer.RoundTrip | code/cc/common/serializer.h:50-109 | any list of values written to a fresh sink and read back by its types is the same list with nothing left over |
| Wildcmp.Compare | code/cc/astyle/astyle_main.cpp:1929-1973 | terminates and returns true if and only if the data matches the pattern, `?` being any character and `*` any string |
| Wildcmp.PlainPattern | code/cc/astyle/astyle_main.cpp:1933-1957 | without `*` a pattern matches place by place: `?` any character, another character itself, and with case off also a letter 'A' to 'Z' and the one 32 above it |
| Wildcmp.LiteralPattern | code/cc/astyle/astyle_main.cpp:1954-1957 | without `*` and `?`, with case on, a pattern matches itself only |
| Wildcmp.StarIsAnyString | code/cc/astyle/astyle_main.cpp:1947-1952 | a `*` matches any string before a match of the rest |
| Wildcmp.LastStarSuffices | code/cc/astyle/astyle_main.cpp:1946-1952 | on reaching another `*`, forgetting the earlier one loses no match and gains none |
| Wildcmp.AttemptFails | code/cc/astyle/astyle_main.cpp:1962-1965 | after a mismatch, restarting one character later loses no match |
| WordLadder.Solution.IsAdjacent | code/leetcode/word-ladder-2.cc:50-58 | true exactly when there are no two places at which the words differ |
| WordLadder.DifferencesCount | code/leetcode/word-ladder-2.cc:51-56 | what is counted is the number of places at which the words differ |
| WordLadder.EdgeMeans | code/leetcode/word-ladder-2.cc:50-58 | the graph of all the results below joins two different words exactly when no two of their letters differ |
| WordLadder.Solution.CalcDist | code/leetcode/word-ladder-2.cc:70-84 | every cell is the distance without intermediate words: 0, 1 or -1 |
| WordLadder.RelaxIsDist | code/leetcode/word-ladder-2.cc:102-105 | allowing one more intermediate word, the smaller of the old value and the way through that word is the distance |
| WordLadder.Solution.CalcFloyd | code/leetcode/word-ladder-2.cc:89-110 | updating j > i in place, storing into char and mirroring: every cell ends as the length of a shortest walk, or -1 exactly when there is none, if and only if each distance over inner nodes below k, for every k, is at most 127 |
| WordLadder.FewWordsFit | code/leetcode/word-ladder-2.cc:34-35 | with at most 128 words a char holds them all |
| WordLadder.SweepSinks | code/leetcode/word-ladder-2.cc:102-106 | the first sweep with a longer distance stores a number below -1 |
| WordLadder.StaysSunk | code/leetcode/word-ladder-2.cc:89-110 | once a cell is below -1 some cell is below -1 after every later sweep, whichever way sums wrap |
| WordLadder.LadderDoesNotFit | code/leetcode/word-ladder-2.cc:89-110 | for every n from 128 on, the n + 1 words b^t a^(n-t) are an input on which the cells do not hold the distances |
| WordLadder.DistBound | code/leetcode/word-ladder-2.cc:89-110 | distances, over all or only some inner nodes, are below the number of words |
| WordLadder.Solution.GetDescription | code/leetcode/word-ladder-2.cc:112-138 | terminates on every matrix of chars and, when the cells are the distances, returns every shortest path to the last word exactly once and nothing else, empty exactly when there is none |
| WordLadder.ShortestFirstStep | code/leetcode/word-ladder-2.cc:122-123 | a path is shortest exactly when its first step is an edge to a word one nearer and the rest is shortest |
| WordLadder.Solution.GetMinDist | code/leetcode/word-ladder-2.cc:141-164 | the two-queue search on the calcDist matrix returns the shortest distance, and nothing exactly when the end cannot be reached |
| WordLadder.SearchAgreesWithFloyd | code/leetcode/word-ladder-2.cc:89-164 | the search's number is what calcFloyd puts in the cell of first and last word |
| WordLadder.FindLadders | code/leetcode/word-ladder-2.cc:21-44 | the number printed is the distance of the ends; when chars hold the distances the ladders are the shortest index paths, each once, spelled in words, each one longer than that number |
| WordBreak.CutsAreCuts | code/leetcode/word-break-2.cc:102-132 | the enumeration lists exactly the ways to cut the rest of the string into non-empty dictionary words |
| WordBreak.CutsDistinct | code/leetcode/word-break-2.cc:102-132 | and lists each of them once |
| WordBreak.CutsAscend | code/leetcode/word-break-2.cc:118-131 | by the end of the first word, then of the second, and so on |
| WordBreak.BreaksIffCuts | code/leetcode/word-break-2.cc:29-54 | the binary-split test is true exactly when that list is not empty |
| WordBreak.Memo.Wb | code/leetcode/word-break-2.cc:29-54 | with any memo table whose filled cells agree with the unmemoised test, returns that test and leaves such a table |
| WordBreak.InsertFrom | code/leetcode/word-break-2.cc:67-80 | adds exactly one word to the set the trie spells and keeps it a tree |
| WordBreak.BuildTrie | code/leetcode/word-break-2.cc:81-85 | the trie spells exactly the dictionary |
| WordBreak.Spell | code/leetcode/word-break-2.cc:104-115 | the k-th word between the cuts stands k places further on than in the string, with a blank after it unless it is the last, and there is nothing else |
| WordBreak.MatchTrie | code/leetcode/word-break-2.cc:102-132 | appends the sentences of exactly the cuts from f on, in order, and restores the index stack |
| WordBreak.AllSentences | code/leetcode/word-break-2.cc:140-154 | memo test, trie and enumeration together: for each cut, once, the string with one blank put in at each inner end, told by positions; empty exactly when no cut exists |
| FourSum.IsOK | code/leetcode/four-sum.cc:51-64 | the binary search answers whether x is in the slice |
| FourSum.QuadIsSolution | code/leetcode/four-sum.cc:9-39 | on a sorted vector, increasing positions give exactly the sorted quadruples drawn from the multiset |
| FourSum.TryJ | code/leetcode/four-sum.cc:23-33 | one probe collects the quadruple with these three values, if there is one, and misses none |
| FourSum.LeaveK | code/leetcode/four-sum.cc:20-24 | breaking off when the third value would exceed the fourth loses no solution |
| FourSum.SearchFrom | code/leetcode/four-sum.cc:17-35 | the two inner loops collect every solution whose first value is this one |
| FourSum.Search | code/leetcode/four-sum.cc:14-36 | on a sorted vector, exactly the solutions, each once |
| FourSum.FourSum | code/leetcode/four-sum.cc:9-39 | sorts the vector in place and returns each sorted quadruple from four positions that sums to the target exactly once and nothing else |

## Left out

- nasty: refilling flex buffers, bison's error recovery and messages, source positions, the parser stack's size limit, and reading the file; the input is a finite byte sequence and a syntax error is a rejection.
- NastyLayout.PrintLayout: trees with an empty list, which no text parses to.
- NastyLexer: the 256-entry class table is written as runs of equal entries.
- FutexCondition.StepKeepsInv: timed waits and `anotify` are not steps, nor are the plain Condition classes; FUTEX_WAIT is taken to return 0 only because of a FUTEX_WAKE, and the 32-bit counter is not bounded.
- FutexCondition.RunKeepsInv: the same.
- FutexCondition.NoLostWakeup: the same; a wait that gives up after its time is left out.
- SyncedQueue.QueueBalance: timed pops are not steps, and neither is `pop` with a null pointer, which SyncedQueue.NullPopUnbalances shows to break the balance.
- SyncedQueue.RunKeepsInv: the same.
- BoundedBlockingQueue: a negative maximum, which the constructor would turn into a huge one.
- LinkedQueue.DLinkedListQueue.Pop: waiting on an empty queue is not modelled; the empty case is the timed-out return.
- LinkedQueue.SLinkedListQueue.Pop: waiting on an empty queue is not modelled; the empty case is the timed-out return.
- SList: the same queue again as functions on a pointer map, because itachi's interleavings need it as a value.
- LockFreeList: memory order, and the values kept in entries.
- Itachi, ItachiRun, ItachiSafety, ItachiOrder, ItachiOverlap: threads leaving their loops and `fini` deleting queues at stop, a context whose client belongs to another Itachi, `SPERM_FATAL` paths, address reuse after delete, counter overflow, fields of net events other than the kind. Clients keep the documented rule not to launch a context in flight, touch a context only while they hold a reference or are called back with it, and do not re-initialise the event of a context in flight.
- ItachiOverlap.OverlapIffAstray: the half that finds an overlap speaks of states before a stop; afterwards pushes are refused and threads leave, and only the other half is stated.
- ItachiOverlap.AstrayOverlaps: the same.
- ItachiOverlap.SteadyHintIsExact: the same.
- Serializer.DecompressNumber: not for a leading 0xff with fewer than eight bytes after it, which the source reads past the end of (Compress.OverrunIffCutShort); `bytes->read` inside `assert` is taken as always evaluated.
- Serializer.Deserialize: the same exclusion; a length near 2^64 for which the cursor addition would wrap is refused here like any other length that does not fit.
- ByteArray.ReadableByteArray.Read: a size for which `cur_ + size` wraps passes the source's test; here it is refused like any size that does not fit.
- ByteArray.WriteableByteArray.Allocate: the NULL return when allocation fails, and overflow of the doubled size.
- ByteArray.WriteableByteArray.Write: the false return when allocation fails.
- Wildcmp.Compare: `tolower` is that of ASCII.
- WordLadder.Solution.constructor: all words have one length, as the source's index loop needs.
- WordLadder.FindLadders: says nothing of the ladders when a distance does not fit a char; the dictionary is given as a sequence, its iteration order.
- WordBreak.MatchTrie: the null entries that lookups leave in a trie's map are treated as absent, which is how the source reads them.
- FourSum.FourSum: integers are unbounded; `std::sort` is stood in for by an insertion sort, and the printing is dropped.
- sasuke, the protobuf and zeromq wrappers, sockets, files, asocket, inline assembly and unrolled copies, benchmarks.
- The rest of astyle, and the other leetcode files.
