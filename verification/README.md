# Verified models of skynet's cores

Skynet is an actor framework in C with Lua and LPeg inside. This project models its algorithmic cores in Dafny and
proves what they are for. Each core is one group of files; the groups do not depend on each other, except that
`netpack.dfy` borrows the ring queue of `mq_ring.dfy` and all share `wrappers.dfy`. `dafny verify dfyconfig.toml`
checks everything.

**LPeg** (`lpeg_*.dfy`). Pattern trees have a reference semantics, `Trees.Eval`, whose fuel counts rule calls and loop
turns; `Answers` is that semantics without fuel. `lpeg_analysis` proves the analyses of the compiler sound against it:
nullable, nofail, fixedlen, first sets under a follow set, headfail. `lpeg_vm` is the backtracking machine, and
`lpeg_codegen` the compiler as functions over relocatable code. `lpeg_correct` proves the compiler correct with every
optimisation: the statement about a block quantifies over all code around it, all positions and all backtrack stacks,
so that tests against a follow set, reused choice entries and tail calls can be justified in their context.
`lpeg_peephole` proves that the last pass changes no run, and `lpeg_grammar` that what the grammar checker accepts
terminates. That compiling ends is a property of the grammar too: `lpeg_jumps` and `lpeg_chains` show that the chains
of jumps the compiler follows end for accepted patterns, and `lpeg_settle` that its analyses come back. `lpeg_compile`
and `lpeg_match` are the compiler and the interpreter as they are coded, patching offsets and running a loop, each
proved to do what the functions say; `lpeg_assoc` is the in-place adjustment of a stored tree.
`Matching.PatternMatches` and `Matching.RunPattern` put it all together.

**Timer** (`timer_*.dfy`). The hierarchical wheel refines a flat list of timers, over the wrapping 32-bit clock:
`TimerWheel.PlaceStays` is its key property, and `TimerClock.EachFiresOnce` what a user sees.

**Scheduler** (`sched_*.dfy`, `mq_ring.dfy`). Workers, senders and the lifetime of services as a state machine over
atomic steps, for any number of threads; beside it the queue as a growing ring and the global list as links, and in
`sched_queues.dfy` the proof that working on them is taking the machine's steps.

**Socket write path** (`sock_*.dfy`). Workers that write directly under a try-lock, the pipe, and the socket thread
with its two lists, as a state machine; `sock_buffers.dfy` has the socket thread's functions as they are coded, and
shows that running them is running the machine's steps.

**Data and codecs**. `sharedata.dfy` is the chained hash table shared between Lua states, `seri_*.dfy` the serializer,
`netpack.dfy` and `harbor.dfy` the two stream reassemblers, `lua_lines.dfy` Lua's delta-coded line table,
`crypt_dh.dfy` and `crypt_des.dfy` the arithmetic of lua-crypt, `handle.dfy` the handle table and `rwlock.dfy` the
lock around it.

## Where the code is not what it says

- `verifyrule` (skynet/3rd/lpeg/lptree.c:1129) returns the nullability of a nested grammar without regard to `nb`,
  against its own comment (lptree.c:1088). So `A <- !G A`, with `G` a grammar that consumes, is accepted although it
  is left recursive (`GrammarCheck.NbDropped`). `NbLost` says exactly when the comment is wrong; termination is proved
  for grammars in which no set flag is dropped so (`KeepsNb`), which every grammar without nested grammars meets
  (`FlatKeepsNb`). Where one is dropped, `nullable` itself may follow calls without end (`Settling.NullableRecurs`).
- `finaltarget` (lpcode.c:637) follows jumps in a loop without a bound, and on a grammar of that kind it may not end:
  `S <- 'a' / A; A <- !G A`, with `G` a grammar that fails, is accepted and matches "a", but `compile` never comes
  back from it (`Chains.LoopingNeverStops`, `Compiling.LoopingNotCompiled`). It comes back exactly when all chains of
  jumps in the code before the last pass end (`Compiling.CompileReturns`), which can be checked on the code
  (`Jumps.StopsExactly`) and holds for every pattern accepted without a flag being dropped (`Chains.AcceptedStops`).
- `list_uncomplete` (skynet/skynet-src/socket_server.c:825) compares the write position with the pointer handed in.
  For a user object these differ before anything is written, so the first assertion of `send_buffer_` can fail for a
  whole low-priority package (`SocketTheorems.ApartUpsets`); `AssertionsExactly` says when.
- `powmodp` (skynet/lualib-src/lua-crypt.c:832) does not reduce P to the first power (`DiffieHellman.PowerModP`).
- A harbor frames messages of up to 2^32 - 1 bytes but takes the link down on receiving one of 2^24 or more
  (`HarborLinks.FeedPacked`, `HarborLinks.StreamArrives`).

## Model

| member | source | states |
|---|---|---|
| Charsets.CharInSetCorrect | skynet/3rd/lpeg/lpvm.c:26-33 | the test the machine makes on the compact operand of a set is membership in the set the operand was made from |
| Charsets.SingletonByte | skynet/3rd/lpeg/lpcset.c:9-14 | a set whose only ones are one bit of one byte holds exactly the character that `onlybit` computes |
| Charsets.CharsetTypeCorrect | skynet/3rd/lpeg/lpcset.c:23-56 | "empty", "full", "one character" and the compact form are each answered exactly when they are true, and the compact form, of ones or of zeros, expands to the set itself |
| Charsets.ClassifySet | skynet/3rd/lpeg/lpcset.c:23-56 | the four scanning loops, sentinels included, arrive at that answer |
| Trees.EvalMonotone | skynet/3rd/lpeg/lpeg.html:383-530 | in the reference semantics of patterns, a pattern that answers with some fuel gives the same answer with any more |
| Trees.AnswerUnique | skynet/3rd/lpeg/lpeg.html:383-530 | a pattern has at most one answer at a position |
| Trees.ToCharsetCorrect | skynet/3rd/lpeg/lpcset.c:75-100 | a tree `tocharset` converts matches exactly one character, of exactly that set |
| Associativity.FixedMeans | skynet/3rd/lpeg/lptree.c:97-123 | the rearranged tree evaluates to what the tree did, at every position, with every fuel, also under rules that are rearranged themselves |
| Associativity.SameAnswers | skynet/3rd/lpeg/lptree.c:1193-1198 | so compiling the rearranged tree instead changes no answer |
| Associativity.SameGrammar | skynet/3rd/lpeg/lptree.c:1170-1188 | and neither does rearranging the rules of a grammar when it is made |
| Associativity.FixedAssociates | skynet/3rd/lpeg/lptree.c:97-123 | afterwards no sequence begins with a sequence and no choice with a choice |
| Associativity.Turn | skynet/3rd/lpeg/lptree.c:79-85 | one turn of the loop on the stored cells, a `memmove` and two offsets, exchanges Op(Op(a, b), c) for Op(a, Op(b, c)) in place |
| Associativity.CorrectAssociativity | skynet/3rd/lpeg/lptree.c:75-87 | the loop ends with a first child of another kind; nothing around the node changes |
| Associativity.FinalFix | skynet/3rd/lpeg/lptree.c:97-123 | the whole pass in place: the cells of a tree become the cells of the rearranged tree |
| Analysis.ProgressSound | skynet/3rd/lpeg/lpcode.c:115-149 | no match moves backwards, `fixedlen` is the length every match consumes, and a pattern that is not `nullable` consumes |
| Analysis.NoFailSound | skynet/3rd/lpeg/lpcode.c:115-149 | a pattern `nofail` accepts never fails |
| Analysis.FirstSound | skynet/3rd/lpeg/lpcode.c:215-293 | if a pattern succeeds at a character and either consumes or that character is in the follow set, the character is in its first set |
| Analysis.EmptySound | skynet/3rd/lpeg/lpcode.c:215-293 | when `getfirst` returns 0 the pattern fails at the end of the subject |
| Analysis.TestSound | skynet/3rd/lpeg/lpcode.c:215-293 | a test on the first set fails only where the pattern fails |
| Analysis.FirstMonotone | skynet/3rd/lpeg/lpcode.c:215-293 | first sets grow with the follow set, and the empty flag does not depend on it |
| Analysis.HeadFailNotEmpty | skynet/3rd/lpeg/lpcode.c:300-322 | for a `headfail` pattern `getfirst` returns 0, so that by EmptySound it fails at the end of the subject |
| Analysis.HeadFailSound | skynet/3rd/lpeg/lpcode.c:300-322 | a `headfail` pattern fails at no character of its first set, whatever comes behind it |
| Machine.HaltsUnique | skynet/3rd/lpeg/lpvm.c:230-451 | a run of the machine has at most one result |
| CompilerProof.TestRuns | skynet/3rd/lpeg/lpcode.c:610-631 | the test instruction `codetestset` selects falls through on the characters of the set and jumps on all others and at the end |
| CompilerProof.SecondFails | skynet/3rd/lpeg/lpcode.c:934-946 | outside first(p2, fl) neither p2 nor what follows it succeeds: the follow set handed to p1 is sound |
| CompilerProof.SeqCase | skynet/3rd/lpeg/lpcode.c:934-946 | sequences, with the test that still protects the second part when the first consumes nothing |
| CompilerProof.ChoiceTestCase | skynet/3rd/lpeg/lpcode.c:673-708 | a choice decided by its test alone (headfail or disjoint first sets) runs as an ordered choice |
| CompilerProof.ChoicePartialCase | skynet/3rd/lpeg/lpcode.c:673-708 | a choice with an empty alternative may reuse the enclosing choice entry through a partial commit |
| CompilerProof.ChoiceStackCase | skynet/3rd/lpeg/lpcode.c:673-708 | the general choice with its own entry |
| CompilerProof.SpanCase | skynet/3rd/lpeg/lpcode.c:779-804 | a span instruction runs as the repetition of its set |
| CompilerProof.RepByTestCase | skynet/3rd/lpeg/lpcode.c:817-846 | a loop on a test alone runs as the repetition: when its body fails behind the test, failing is what the continuation does |
| CompilerProof.ChoiceLoopCase | skynet/3rd/lpeg/lpcode.c:817-846 | a loop on a choice entry, its own or the reused outer one, runs as the repetition |
| CompilerProof.NotByTestCase | skynet/3rd/lpeg/lpcode.c:856-870 | the negation of a headfail pattern, by a test and a failure |
| CompilerProof.NotByStackCase | skynet/3rd/lpeg/lpcode.c:856-870 | the negation of any pattern, which drops the entry and fails twice |
| CompilerProof.AndFixedCase | skynet/3rd/lpeg/lpcode.c:716-732 | the predicate of a pattern of fixed length, matched and stepped back over |
| CompilerProof.AndByStackCase | skynet/3rd/lpeg/lpcode.c:716-732 | the predicate of any pattern, through a back commit |
| CompilerProof.BehindCase | skynet/3rd/lpeg/lpcode.c:655-659 | look-behind |
| CompilerProof.TailCall | skynet/3rd/lpeg/lpcode.c:877-894 | an open call before a return, turned into a jump, returns where the call and the return would have |
| CompilerProof.GrammarCase | skynet/3rd/lpeg/lpcode.c:901-919 | a grammar, with its open calls corrected, runs as its first rule, all rules calling each other |
| CompilerProof.GenCorrect | skynet/3rd/lpeg/lpcode.c:954-980 | compiler correctness over every continuation and every backtrack stack: the block of a pattern comes to its end at j exactly as the pattern matches to j, and backtracks exactly as it fails, given a sound follow set, or, under `opt`, a top entry that leads to the continuation |
| CompilerProof.GenPatternCorrect | skynet/3rd/lpeg/lpcode.c:1038-1047 | the unoptimised code of a whole pattern halts with the pattern's answer |
| Layout.GenTidy | skynet/3rd/lpeg/lpcode.c:922-926 | the open calls in a block are calls to rules in scope |
| Layout.FixCloses | skynet/3rd/lpeg/lpcode.c:877-894 | `correctcalls` leaves no open call behind |
| Layout.FixCallSite | skynet/3rd/lpeg/lpcode.c:877-894 | every open call ends up calling the rule it named, or jumping there where a return follows |
| Shapes.GenShaped | skynet/3rd/lpeg/lpcode.c:473-532 | in every block no label leads back beyond the block's start, and the operand slots of an instruction lie in the block and hold no instruction |
| Shapes.ChainInBlock | skynet/3rd/lpeg/lpcode.c:637-649 | a chain of jumps from the last block of the code is the chain in the block by itself: it never leads back before the block |
| Peepholes.PeepAtEquivalent | skynet/3rd/lpeg/lpcode.c:992-1031 | one turn of the pass, redo included, changes the result of no run |
| Peepholes.PeepholeEquivalent | skynet/3rd/lpeg/lpcode.c:992-1031 | neither does the whole pass, on any code |
| Jumps.BoundSuffices | skynet/3rd/lpeg/lpcode.c:637-649 | a chain of jumps that ends does so within as many jumps as there are slots: there the bounded `finaltarget` of the model is the source's |
| Jumps.StopsExactly | skynet/3rd/lpeg/lpcode.c:637-641 | the loop of `finaltarget` ends exactly when the instruction the bounded function arrives at is no jump |
| Jumps.FollowJumps | skynet/3rd/lpeg/lpcode.c:637-641 | the loop of `finaltarget` on a chain that ends, as the compiler calls it: it arrives at that target |
| Peepholes.PeepAtStops | skynet/3rd/lpeg/lpcode.c:992-1031 | where all chains of jumps end they still do after one turn of the pass |
| Peepholes.PassReturnsExactly | skynet/3rd/lpeg/lpcode.c:992-1031 | the pass comes back exactly when all chains of jumps in the code it starts with end: it visits every jump and finds it as it was |
| Chains.FrontStops | skynet/3rd/lpeg/lpcode.c:637-641 | in a verified rule, where no set flag is dropped, a chain of jumps from the start of a part leads out of the part only if `verifyrule` may answer true for it, and else ends |
| Chains.AcceptedStops | skynet/3rd/lpeg/lpcode.c:1038-1047 | for every accepted pattern every chain of jumps in its code ends, so the compiler comes back |
| Chains.StopsNested | skynet/3rd/lpeg/lpcode.c:877-894 | where they do, they also did in every grammar inside while its calls were corrected: `correctcalls` had come back |
| Chains.LoopingAccepted | skynet/3rd/lpeg/lptree.c:1136-1154 | `S <- 'a' / A; A <- !G A`, with G a grammar that fails, passes the checker and matches "a" |
| Chains.LoopingNeverStops | skynet/3rd/lpeg/lpcode.c:637-641 | yet its code has a chain of jumps without an end |
| Compiling.CompileReturns | skynet/3rd/lpeg/lpcode.c:1038-1047 | for any pattern, `compile` comes back exactly when all chains end in the code before its last pass |
| Compiling.LoopingNotCompiled | skynet/3rd/lpeg/lpcode.c:1038-1047 | on that grammar `compile` does not come back |
| Peepholes.CompileCorrect | skynet/3rd/lpeg/lpcode.c:1038-1047 | wherever the pattern has an answer, the compiled and optimised code halts with that answer and with no other (when `compile` comes back is CompileReturns) |
| GrammarCheck.FlagSound | skynet/3rd/lpeg/lptree.c:1093-1133 | when `verifyrule` answers that a pattern consumes, every match does, provided no set flag is dropped at a nested grammar |
| GrammarCheck.AcceptedTerminates | skynet/3rd/lpeg/lptree.c:1136-1154 | every pattern that is accepted without a set flag being dropped comes to an answer at every position of every subject |
| GrammarCheck.NbDropped | skynet/3rd/lpeg/lptree.c:1129-1130 | a left-recursive grammar that `verifyrule` accepts, because a nested grammar returns its nullability without `nb`; it never answers |
| GrammarCheck.NbLost | skynet/3rd/lpeg/lptree.c:1082-1133 | the documentation says that with `nb` set the function returns true; this is exactly where it returns false |
| GrammarCheck.FlatKeepsNb | skynet/3rd/lpeg/lptree.c:1093-1133 | without nested grammars no flag is dropped |
| Settling.FlagNullable | skynet/3rd/lpeg/lptree.c:1093-1133 | where no set flag is dropped, a pattern `verifyrule` says consumes is not `nullable` |
| Settling.CheckComesBack | skynet/3rd/lpeg/lpcode.c:115-149 | anywhere in an accepted pattern the recursion of `checkaux` ends, within a number of calls that is given |
| Settling.FirstComesBack | skynet/3rd/lpeg/lpcode.c:215-293 | so does that of `getfirst`, its visits to predicates and look-behinds included |
| Settling.HeadComesBack | skynet/3rd/lpeg/lpcode.c:300-322 | and that of `headfail` |
| Settling.CheckMore | skynet/3rd/lpeg/lpcode.c:115-149 | a recursion that ends gives the same answer under every larger bound on calls |
| Settling.NullableRecurs | skynet/3rd/lpeg/lpcode.c:115-149 | in the left-recursive grammar of NbDropped `nullable` follows calls without end |
| Settling.LengthSettles | skynet/3rd/lpeg/lpcode.c:155-193 | `fixedlen` settles in every grammar, recursive or not: more calls than a given number change no length |
| Settling.CodeSettles | skynet/3rd/lpeg/lpcode.c:1038-1047 | the code of an accepted pattern is the same for every bound on calls from some number on: it is the source's |
| Compiling.CompileState.Add | skynet/3rd/lpeg/lpcode.c:462-478 | instructions are appended, with room for their operands |
| Compiling.CompileState.JumpToThere | skynet/3rd/lpeg/lpcode.c:521-524 | setting an offset changes that slot and no other |
| Compiling.CompileState.CodeTestSet | skynet/3rd/lpeg/lpcode.c:610-631 | the test of a set, or none where it would not pay |
| Compiling.CompileState.CodeChoice | skynet/3rd/lpeg/lpcode.c:673-708 | what is appended is the code the proof is about, offsets patched in place |
| Compiling.CompileState.CodeRepCharset | skynet/3rd/lpeg/lpcode.c:779-804 | the same for loops over a set |
| Compiling.CompileState.CodeRep | skynet/3rd/lpeg/lpcode.c:817-846 | the same for loops |
| Compiling.CompileState.CodeNot | skynet/3rd/lpeg/lpcode.c:856-870 | the same for negations |
| Compiling.CompileState.CodeAnd | skynet/3rd/lpeg/lpcode.c:716-732 | the same for predicates |
| Compiling.CompileState.CodeBehind | skynet/3rd/lpeg/lpcode.c:655-659 | the same for look-behind |
| Compiling.CompileState.CorrectCalls | skynet/3rd/lpeg/lpcode.c:877-894 | the correcting loop, in place, on the rules just coded, following jumps by the source's loop, which ends each time |
| Compiling.CompileState.CodeGrammar | skynet/3rd/lpeg/lpcode.c:901-919 | the same for grammars |
| Compiling.CompileState.CodeSeq | skynet/3rd/lpeg/lpcode.c:934-946 | the same for sequences, and the test handed on |
| Compiling.CompileState.CodeGen | skynet/3rd/lpeg/lpcode.c:954-980 | the dispatch over all trees |
| Compiling.CompileState.Peephole | skynet/3rd/lpeg/lpcode.c:992-1031 | the in-place pass, following jumps by the source's loop, which ends each time, is the function proved above |
| Compiling.CompileState.CompilePattern | skynet/3rd/lpeg/lpcode.c:1038-1047 | where all chains of jumps end the compiler comes back, and the code object holds exactly the compiled pattern |
| Matching.Dispatch | skynet/3rd/lpeg/lpvm.c:265-388 | one turn of the interpreter's switch is one step of the machine |
| Matching.Fail | skynet/3rd/lpeg/lpvm.c:374-387 | the `fail` label drops pending calls and resumes at the last choice |
| Matching.Match | skynet/3rd/lpeg/lpvm.c:230-451 | on code whose run halts the interpreter's loop ends, with that result, and none of its assertions fails |
| Matching.PatternMatches | skynet/3rd/lpeg/lptree.c:1136-1154 | check, compile, match: for every accepted pattern and every subject the compiler comes back, there is an answer, it is the reference answer, and the machine halts with it |
| Matching.RunPattern | skynet/3rd/lpeg/lptree.c:1247-1266 | the same with the imperative compiler and interpreter |
| TimerWheel.MaskIsQuotient | skynet/skynet-src/skynet_timer.c:68-86 | comparing ticks with their low bits set is comparing quotients |
| TimerWheel.PlaceStays | skynet/skynet-src/skynet_timer.c:68-132 | when the clock ticks, a timer's slot is the one `add_node` would now choose, unless `timer_shift` moves that slot; over the whole 32-bit range and its wrap-around |
| TimerWheel.AddNew | skynet/skynet-src/skynet_timer.c:89-99 | a new timer goes to its slot, and to the end of the flat list the wheel stands for |
| TimerWheel.AddBack | skynet/skynet-src/skynet_timer.c:102-109 | putting back a node that was moved changes nothing in the flat list, nor its order |
| TimerWheel.ShiftKeeps | skynet/skynet-src/skynet_timer.c:112-132 | after the tick every node left is in its place, and the nodes of the moved slot are exactly what is missing |
| TimerWheel.ExecuteKeeps | skynet/skynet-src/skynet_timer.c:153-163 | the near slot under the clock holds exactly the timers due now, in the order they were asked for |
| TimerClock.Timers.constructor | skynet/skynet-src/skynet_timer.c:181-202 | the empty wheel |
| TimerClock.Timers.AddNode | skynet/skynet-src/skynet_timer.c:68-86 | the comparisons on masks end at the slot of the expiry |
| TimerClock.Timers.TimerAdd | skynet/skynet-src/skynet_timer.c:89-99 | a delay becomes a timer due that many ticks from now |
| TimerClock.Timers.Timeout | skynet/skynet-src/skynet_timer.c:205-224 | without a delay the answer is sent at once; otherwise a timer is added |
| TimerClock.Timers.MoveList | skynet/skynet-src/skynet_timer.c:102-109 | a list moved down a level is in place again, in order |
| TimerClock.Timers.Shift | skynet/skynet-src/skynet_timer.c:112-132 | the clock advances by one tick, carries across all levels and across 2^32, and the flat list stays |
| TimerClock.Timers.Execute | skynet/skynet-src/skynet_timer.c:153-163 | what is sent is what is due; timers added while the lock is released wait |
| TimerClock.Timers.Update | skynet/skynet-src/skynet_timer.c:166-178 | one update is one tick of the flat list |
| TimerClock.Timers.UpdateTicks | skynet/skynet-src/skynet_timer.c:246-260 | a jump of the clock by several ticks is that many ticks of the flat list |
| TimerClock.TickSettled | skynet/skynet-src/skynet_timer.c:166-178 | pending timers stay ahead of the clock, by less than half its range |
| TimerClock.EachFiresOnce | skynet/skynet-src/skynet_timer.c:166-178 | over any run, at each tick exactly the timers asked for it fire, each once, in the order they were asked for, and the later ones are pending |
| SchedulerProof.StepKeeps | skynet/skynet-src/skynet_server.c:117-367 | every step of every thread keeps the invariant: who owns each queue, who holds references, what became of each message |
| SchedulerProof.RunKeeps | skynet/skynet-src/skynet_server.c:313-367 | so every reachable state has it, for any number of threads |
| SchedulerTheorems.SingleOwner | skynet/skynet-src/skynet_mq.c:44-75 | a queue is on the global list at most once and then owned by no thread, no two threads own it, and no two run the same service's callback |
| SchedulerTheorems.AssertionsHold | skynet/skynet-src/skynet_mq.c:44-56 | no thread uses a freed queue or a context it holds no reference to, and the assertions hold that a queue put on the global list, or freed, is in no list (lines 48 and 100) and is marked for release once (line 222) |
| SchedulerTheorems.NoLostMessages | skynet/skynet-src/skynet_mq.c:138-209 | what was pushed is what was dispatched, then dropped, then still waits, in push order; a queue with messages is on the list or owned; every dropped message is answered once, with an error |
| SchedulerTheorems.CallbackMessage | skynet/skynet-src/skynet_server.c:268-300 | a callback runs with the message just taken from its own queue, its context alive |
| SchedulerTheorems.AtRest | skynet/skynet-src/skynet_mq.c:220-250 | when all is quiet no message waits, references are the table's only, and a queue is freed exactly when its service is gone |
| SchedulerTheorems.HistoryGrows | skynet/skynet-src/skynet_mq.c:138-250 | no step rewrites what was pushed, dispatched, dropped or answered |
| MessageQueues.MessageQueue.constructor | skynet/skynet-src/skynet_mq.c:78-96 | a new queue is empty and counts as listed |
| MessageQueues.MessageQueue.Length | skynet/skynet-src/skynet_mq.c:112-125 | the length across the ring's seam |
| MessageQueues.MessageQueue.TakeOverload | skynet/skynet-src/skynet_mq.c:128-135 | an overload is reported once |
| MessageQueues.MessageQueue.Expand | skynet/skynet-src/skynet_mq.c:175-187 | a full ring doubles and keeps its messages in order |
| MessageQueues.MessageQueue.Push | skynet/skynet-src/skynet_mq.c:190-209 | a message goes to the end, and the queue to the global list exactly if it was not there |
| MessageQueues.MessageQueue.Pop | skynet/skynet-src/skynet_mq.c:138-172 | the first message, or the queue leaves the list; the overload threshold follows the length |
| MessageQueues.MessageQueue.MarkRelease | skynet/skynet-src/skynet_mq.c:220-228 | marking lists the queue exactly if it was not listed |
| MessageQueues.MessageQueue.DropAll | skynet/skynet-src/skynet_mq.c:231-250 | every waiting message is dropped, in order |
| MessageQueues.GlobalQueue.Push | skynet/skynet-src/skynet_mq.c:44-56 | the list threaded through the queues gets one more at its end |
| MessageQueues.GlobalQueue.Pop | skynet/skynet-src/skynet_mq.c:59-75 | the first queue leaves it, unlinked, the tail kept right |
| QueueSteps.PushMessage | skynet/skynet-src/skynet_mq.c:190-209 | on stored queues that are as the state machine says, pushing a message makes them as it says after the sender's step, in every reachable state; the assertion of the global list holds |
| QueueSteps.PopMessage | skynet/skynet-src/skynet_mq.c:138-172 | the same for a pop in the dispatch loop, with the message the machine takes |
| QueueSteps.DropMessage | skynet/skynet-src/skynet_mq.c:231-237 | the same for a dropped message, and for freeing the empty queue |
| QueueSteps.MarkForRelease | skynet/skynet-src/skynet_mq.c:220-228 | the same for marking, with its assertion |
| QueueSteps.TakeQueue | skynet/skynet-src/skynet_mq.c:59-75 | the same for taking the first queue of the global list |
| QueueSteps.PutBack | skynet/skynet-src/skynet_mq.c:44-56 | the same for giving a queue back, or listing a new one |
| QueueSteps.ReleaseOrPutBack | skynet/skynet-src/skynet_mq.c:240-250 | the same for `skynet_mq_release`: dropped if marked, listed again if not |
| QueueSteps.CreateQueue | skynet/skynet-src/skynet_mq.c:78-96 | the same for a new queue |
| QueueSteps.ElsewhereKept | skynet/skynet-src/skynet_server.c:313-364 | every other step of a thread leaves the stored queues as the machine says |
| SocketProof.StepKeeps | skynet/skynet-src/socket_server.c:718-1081 | every step of a worker or of the socket thread keeps the invariant |
| SocketProof.RunKeeps | skynet/skynet-src/socket_server.c:718-1910 | so every reachable state has it |
| SocketTheorems.NoTearing | skynet/skynet-src/socket_server.c:718-747 | the bytes on the wire are whole packages and a part of the one package that goes on; nothing else is begun; one thread writes at a time |
| SocketTheorems.SenderOrder | skynet/skynet-src/socket_server.c:1841-1931 | a sender's packages of one priority are written in the order they were handed in, each once, and the others are still on their way in that order |
| SocketTheorems.AllDelivered | skynet/skynet-src/socket_server.c:864-922 | at rest everything handed in is on the wire |
| SocketTheorems.NothingStranded | skynet/skynet-src/socket_server.c:993-1081 | what is unsent is sure to be looked at again, and `wb_size` is what the lists have left |
| SocketTheorems.AssertionsExactly | skynet/skynet-src/socket_server.c:864-897 | the assertions hold, except where the socket thread starts to drain and a package whose bytes lie apart from its pointer is first on the low list: exactly there the first one fails |
| SocketTheorems.AssertionsHold | skynet/skynet-src/socket_server.c:864-897 | they never fail for packages of plain memory or of high priority |
| SocketTheorems.ApartUpsets | skynet/skynet-src/socket_server.c:825-831 | a run in which the first assertion fails |
| SocketBuffers.Socket.WriteHead | skynet/skynet-src/socket_server.c:721-743 | one `write` on the first buffer and what is made of its result are one step |
| SocketBuffers.Socket.SendHighList | skynet/skynet-src/socket_server.c:718-747 | the sending loop on the high list is a run of such steps, up to the first short write |
| SocketBuffers.Socket.SendLowList | skynet/skynet-src/socket_server.c:718-747 | the same on the low list |
| SocketBuffers.Socket.RaiseUncomplete | skynet/skynet-src/socket_server.c:834-848 | the head of the low list becomes the high list |
| SocketBuffers.Socket.MergeDirectBuffer | skynet/skynet-src/socket_server.c:929-945 | the rest of a direct write goes before the high list, and the first assertion is looked at |
| SocketBuffers.Socket.SendLists | skynet/skynet-src/socket_server.c:864-922 | `send_buffer_` is a run of the socket thread's steps to its unlocking |
| SocketBuffers.Socket.SendBuffer | skynet/skynet-src/socket_server.c:925-950 | `send_buffer` is a run of those steps from poll to poll, or nothing under another's lock; a reachable state stays reachable and the assertions hold for plain packages |
| SocketBuffers.Socket.SendSocket | skynet/skynet-src/socket_server.c:1012-1081 | a request is appended by the same step |
| SocketBuffers.ServeReaches | skynet/skynet-src/socket_server.c:1673-1785 | such runs continue runs of the whole |
| SharedTables.Table.CountSize | skynet/lualib-src/lua-sharedata.c:68-89 | the hash part counts exactly the keys outside the array part |
| SharedTables.Table.FillNoColliding | skynet/lualib-src/lua-sharedata.c:213-235 | every main slot of some key is taken by one of them, unlinked; array keys go to the array |
| SharedTables.Table.FillColliding | skynet/lualib-src/lua-sharedata.c:238-273 | then every key is in a slot, behind its main slot, each slot in one chain, none left over |
| SharedTables.SlotLeft | skynet/lualib-src/lua-sharedata.c:238-273 | while a key is missing a slot is free: the assertion on the next free slot never fails |
| SharedTables.NoSlotLeft | skynet/lualib-src/lua-sharedata.c:238-273 | the slots suffice exactly |
| SharedTables.Table.Convert | skynet/lualib-src/lua-sharedata.c:278-327 | the table made agrees with the source table |
| SharedTables.Table.LookupKey | skynet/lualib-src/lua-sharedata.c:504-532 | a search ends, and finds the node of a key exactly if there is one, also where it begins in the middle of another chain |
| SharedTables.Table.Index | skynet/lualib-src/lua-sharedata.c:535-568 | indexing the copy is indexing the source table |
| SharedTables.Table.NextKey | skynet/lualib-src/lua-sharedata.c:592-648 | each call gives the key after the one it is given |
| SharedTables.KeysExact | skynet/lualib-src/lua-sharedata.c:592-648 | those keys are every key of the source table, each exactly once |
| SeriFormat.IntRoundTrip | skynet/lualib-src/lua-seri.c:143-174 | every 64-bit integer is read back from the width chosen for it |
| SeriFormat.StringRoundTrip | skynet/lualib-src/lua-seri.c:191-213 | every string is read back, through both boundaries of its length field |
| SeriFormat.RoundTrip | skynet/lualib-src/lua-seri.c:304-350 | every value is read back, whatever follows it |
| SeriFormat.StreamRoundTrip | skynet/lualib-src/lua-seri.c:566-607 | so is every list of values |
| SeriStream.WriteBlock.Push | skynet/lualib-src/lua-seri.c:66-85 | writing through the chain of 128-byte blocks is plain append |
| SeriStream.WriteBlock.Copy | skynet/lualib-src/lua-seri.c:545-563 | copying the chain gives what was written |
| SeriStream.WriteBlock.PushInt | skynet/lualib-src/lua-seri.c:143-174 | the bytes of an integer |
| SeriStream.WriteBlock.PushString | skynet/lualib-src/lua-seri.c:191-213 | the bytes of a string |
| SeriStream.WriteBlock.PackTable | skynet/lualib-src/lua-seri.c:286-301 | the bytes of a table, its size field with the escape at 31 |
| SeriStream.WriteBlock.PackOne | skynet/lualib-src/lua-seri.c:304-350 | packing succeeds exactly on values nested within bounds, and then writes their encoding |
| SeriStream.ReadBlock.ReadBytes | skynet/lualib-src/lua-seri.c:119-128 | reading takes the next bytes, or reports that there are too few |
| SeriStream.ReadBlock.GetInteger | skynet/lualib-src/lua-seri.c:370-410 | the integer of a cookie, or an error |
| SeriStream.ReadBlock.UnpackTable | skynet/lualib-src/lua-seri.c:445-475 | a table, or an error |
| SeriStream.ReadBlock.PushValue | skynet/lualib-src/lua-seri.c:478-531 | a value of each type, or an error on every malformed one (a length of 2^31 or more is left out below) |
| SeriStream.ReadBlock.UnpackOne | skynet/lualib-src/lua-seri.c:534-542 | the next value of any byte stream, or an error, as the decoding function says |
| SeriStream.Pack | skynet/lualib-src/lua-seri.c:610-622 | packing a list fails exactly when one value is nested too deep |
| SeriStream.Unpack | skynet/lualib-src/lua-seri.c:566-607 | unpacking any bytes |
| SeriStream.Transfer | skynet/lualib-src/lua-seri.c:566-622 | what is packed on one side is unpacked on the other, for every list nested within bounds |
| Netpacks.PackedFrames | skynet/lualib-src/lua-netpack.c:441-456 | what `lpack` writes is found again as the same packages |
| Netpacks.CutAnywhere | skynet/lualib-src/lua-netpack.c:190-216 | cutting a stream changes neither its packages nor what is left |
| Netpacks.Queue.Expand | skynet/lualib-src/lua-netpack.c:135-149 | a full ring doubles and keeps its packages in order |
| Netpacks.Queue.PushData | skynet/lualib-src/lua-netpack.c:152-168 | a package goes to the end |
| Netpacks.Queue.Pop | skynet/lualib-src/lua-netpack.c:401-414 | packages leave first in first |
| Netpacks.Queue.FindUncomplete | skynet/lualib-src/lua-netpack.c:94-115 | the unfinished package of a connection leaves its hash chain; those of others stay |
| Netpacks.Queue.SaveUncomplete | skynet/lualib-src/lua-netpack.c:171-181 | an unfinished package is kept in its hash chain |
| Netpacks.Queue.PushMore | skynet/lualib-src/lua-netpack.c:190-216 | every whole package of the bytes is queued, the rest is kept |
| Netpacks.Queue.FilterData | skynet/lualib-src/lua-netpack.c:229-308 | a chunk, also one that ends in the middle of a length: one package is handed over at once, more are queued |
| Netpacks.Queue.Close | skynet/lualib-src/lua-netpack.c:219-226 | a closed connection drops its unfinished package and no other |
| Netpacks.ChunkingIndependent | skynet/lualib-src/lua-netpack.c:229-317 | however the streams of all connections are cut and interleaved, each connection's packages come out as they lie in its stream, in order, each once |
| Netpacks.DispatchQueue | skynet/lualib/snax/gateserver.lua:76-90 | the gate's loop takes every waiting package, in order |
| Netpacks.Serve | skynet/lualib/snax/gateserver.lua:66-90 | the gate from chunks to packages, run on the queue: emptying it whenever told of more, it dispatches each connection's packages whole and in order, none passing another |
| HarborLinks.OpenedFrame | skynet/service-src/service_harbor.c:279-308 | a message and its header are read back from the end of a content |
| HarborLinks.CutAnywhere | skynet/service-src/service_harbor.c:419-510 | cutting a stream changes neither where the receiver is nor what it has |
| HarborLinks.FeedPacked | skynet/service-src/service_harbor.c:333-352 | one package is received whole; one of 2^24 bytes or more takes the link down; one beyond the length field was never sent |
| HarborLinks.StreamArrives | skynet/service-src/service_harbor.c:333-352 | of any list of messages exactly those that arrive are received, for all lengths |
| HarborLinks.AllArrive | skynet/service-src/service_harbor.c:333-352 | messages below that length all do |
| HarborLinks.Slave.DispatchQueue | skynet/service-src/service_harbor.c:400-416 | what waited for the connection goes out first in first, and nothing is left |
| HarborLinks.Slave.Connect | skynet/service-src/service_harbor.c:603-652 | a new connection begins with the id; the accepting side sends at once, the other waits for its peer's id |
| HarborLinks.Slave.SendHandle | skynet/service-src/service_harbor.c:527-563 | a message is sent behind all accepted before it, or waits behind them, or is refused on a link that is down |
| HarborLinks.Slave.Close | skynet/service-src/service_harbor.c:231-242 | the link is down and nothing waits |
| HarborLinks.Slave.TakeId | skynet/service-src/service_harbor.c:440-459 | the peer's id opens the link, any other closes it |
| HarborLinks.Slave.TakeHeader | skynet/service-src/service_harbor.c:460-484 | a length in any number of pieces |
| HarborLinks.Slave.TakeContent | skynet/service-src/service_harbor.c:486-505 | a content in any number of pieces |
| HarborLinks.Slave.PushSocketData | skynet/service-src/service_harbor.c:419-510 | a chunk leads where its bytes one by one would |
| HarborLinks.Carry | skynet/service-src/service_harbor.c:419-510 | from one harbor to the other, over any cut: exactly the messages that arrive are forwarded, with their headers, in order |
| LineTable.EstimateIsLower | skynet/3rd/lua/ldebug.c:60-75 | the assertion of `getbaseline`: its estimate is negative or an absolute entry at or before the instruction |
| LineTable.FuncState.SaveLineInfo | skynet/3rd/lua/lcode.c:329-344 | the table records one line more, whether the entry is a byte or absolute |
| LineTable.FuncState.RemoveLastLineInfo | skynet/3rd/lua/lcode.c:353-365 | the table records the lines before; where an absolute entry went the next is forced to be absolute |
| LineTable.FuncState.RemoveLastInstruction | skynet/3rd/lua/lcode.c:372-375 | the same with the instruction |
| LineTable.FuncState.Code | skynet/3rd/lua/lcode.c:382-390 | a new instruction, also in the place of one just removed |
| LineTable.FuncState.FixLine | skynet/3rd/lua/lcode.c:1786-1789 | the last instruction gets another line |
| LineTable.GetBaseLine | skynet/3rd/lua/ldebug.c:60-75 | the last absolute entry at or before the instruction, and its line |
| LineTable.GetFuncLine | skynet/3rd/lua/ldebug.c:83-95 | the line recorded, or -1 without a table; the assertion in its loop holds |
| LineTable.ChangedLine | skynet/3rd/lua/ldebug.c:864-882 | whether two lines differ, by deltas or by two look-ups alike |
| LineTable.LookUpAfter | skynet/3rd/lua/lcode.c:382-390 | after any run of the code generator every instruction is found with the line it got last |
| DiffieHellman.MulModP | skynet/lualib-src/lua-crypt.c:796-815 | multiplication modulo P in wrapping 64-bit arithmetic |
| DiffieHellman.WrapTwice | skynet/lualib-src/lua-crypt.c:806-811 | doubling modulo P may wrap around and is right all the same |
| DiffieHellman.PowModP | skynet/lualib-src/lua-crypt.c:818-828 | powers by squaring, for a = P and b = 1 as well |
| DiffieHellman.PowerModP | skynet/lualib-src/lua-crypt.c:832-836 | the result is the power modulo P if and only if it is not P to the first power |
| DiffieHellman.NeverZero | skynet/lualib-src/lua-crypt.c:871-888 | no power of 5 is 0 modulo P |
| DiffieHellman.Exchange | skynet/lualib-src/lua-crypt.c:871-888 | the public value; an error exactly for the secret 0 |
| DiffieHellman.Secret | skynet/lualib-src/lua-crypt.c:854-866 | the shared value modulo P for all non-zero numbers, except P for P to the first power; an error exactly when a number is 0 |
| DiffieHellman.Agreement | skynet/lualib-src/lua-crypt.c:854-888 | the two sides' powers agree |
| DiffieHellman.Handshake | skynet/lualib-src/lua-crypt.c:854-888 | the exchange itself: both sides end with the same value and neither with an error |
| Des.Permutations | skynet/lualib-src/lua-crypt.c:208-230 | DES_FP and DES_IP undo each other, both ways round |
| Des.Unwind | skynet/lualib-src/lua-crypt.c:234-247 | sixteen rounds, or any number, unwind under the reversed pairs of subkeys, for all tables and subkeys |
| Des.GetPut | skynet/lualib-src/lua-crypt.c:190-204 | words are read back from the bytes they were put into |
| Des.PutGet | skynet/lualib-src/lua-crypt.c:190-204 | and bytes from the words |
| Des.BackwardsAt | skynet/lualib-src/lua-crypt.c:492-495 | the reversed schedule, subkey by subkey |
| Des.BlockTwice | skynet/lualib-src/lua-crypt.c:321-342 | `des_crypt` with that schedule undoes `des_crypt` |
| Des.CryptTwice | skynet/lualib-src/lua-crypt.c:498-508 | so it does on whole texts |
| Des.AddPadding | skynet/lualib-src/lua-crypt.c:437-443 | the last block with its padding, in place |
| Des.RemoveIso | skynet/lualib-src/lua-crypt.c:386-400 | the length of the padding under ISO/IEC 7816-4 exactly if there is one, else 0 |
| Des.RemovePkcs7 | skynet/lualib-src/lua-crypt.c:409-418 | the length of the padding under PKCS#7 if there is one; any answer from 1 to 8 is one |
| Des.PaddedOnce | skynet/lualib-src/lua-crypt.c:380-418 | a text has at most one padding |
| Des.Encode | skynet/lualib-src/lua-crypt.c:462-485 | the blocks of the padded text, each encrypted; an error exactly for an unknown padding |
| Des.Decode | skynet/lualib-src/lua-crypt.c:488-517 | decoding gives a text exactly when it is given that text's encoding, and an error on everything else |
| Des.RoundTrip | skynet/lualib-src/lua-crypt.c:462-517 | every text is decoded from its encoding |
| Des.OneText | skynet/lualib-src/lua-crypt.c:462-485 | no two texts are encoded alike |
| HandleTable.NewSlotEmpty | skynet/skynet-src/skynet_handle.c:58-67 | the assertion of the rehash: in a table twice the size every context finds its slot empty |
| HandleTable.HandleStorage.constructor | skynet/skynet-src/skynet_handle.c:249-267 | the empty table |
| HandleTable.HandleStorage.Scan | skynet/skynet-src/skynet_handle.c:41-57 | the scan finds a handle that is not 0 and whose slot is free; in the largest table it fails only if all are taken |
| HandleTable.HandleStorage.Rehash | skynet/skynet-src/skynet_handle.c:58-71 | the larger table holds the same contexts |
| HandleTable.HandleStorage.Register | skynet/skynet-src/skynet_handle.c:35-73 | a context gets a handle no live context has; the assertion on the table's size fails exactly when every handle is in use |
| HandleTable.HandleStorage.Retire | skynet/skynet-src/skynet_handle.c:76-112 | a live handle goes, with all its names and no others; a handle that is not live is refused |
| HandleTable.HandleStorage.CloseUp | skynet/skynet-src/skynet_handle.c:88-98 | the remaining names close up, in order |
| HandleTable.OthersMap | skynet/skynet-src/skynet_handle.c:88-98 | which takes exactly that handle's names out of the map |
| HandleTable.HandleStorage.Grab | skynet/skynet-src/skynet_handle.c:139-155 | a context is found exactly if its handle is live |
| HandleTable.CompareSwap | skynet/skynet-src/skynet_handle.c:168-180 | the order of names is total |
| HandleTable.HandleStorage.Search | skynet/skynet-src/skynet_handle.c:164-181 | the binary search finds the name or the place where it belongs |
| HandleTable.HandleStorage.FindName | skynet/skynet-src/skynet_handle.c:158-185 | finding a name is looking it up in a map |
| HandleTable.HandleStorage.InsertBefore | skynet/skynet-src/skynet_handle.c:188-210 | a name is put into its place, in the array or in one of twice the size |
| HandleTable.HandleStorage.NameHandle | skynet/skynet-src/skynet_handle.c:238-246 | a new name is added to the map and the array stays sorted; a name in use changes nothing |
| ReadWriteLock.StepKeeps | skynet/skynet-src/rwlock.h:19-46 | every atomic step keeps the invariant |
| ReadWriteLock.Exclusion | skynet/skynet-src/rwlock.h:19-46 | for any number of threads and any interleaving, a writer excludes every other writer and every reader |
| ReadWriteLock.SomeoneMoves | skynet/skynet-src/rwlock.h:19-46 | unless all are idle some thread can go on: no state is stuck |
| ReadWriteLock.LateReader | skynet/skynet-src/rwlock.h:19-30 | `read` may be above 0 while a thread writes |

## Left out

LPeg

- Captures, run-time captures and `utf8.range` patterns are not part of the trees; `ktable` bookkeeping is left out.
- The limit on the backtrack stack (MAXBACK) is not modelled: the stack is unbounded.
- Code is a sequence of slots; the reallocation of its buffer is not modelled. A set's payload bytes are kept with its
  instruction, and the payload slots only take up room.
- Peepholes.CompileCorrect: its `finaltarget` stops after as many jumps as there are slots. This is the source's where
  `compile` comes back (`Compiling.CompileReturns`); elsewhere the source has no code.
- The analyses follow calls to a depth `d` and answer conservatively beyond it, where the source follows them as far as
  they go. Every theorem holds for every `d`, and for accepted patterns a large one makes no difference
  (`Settling.CodeSettles`). The marks by which `fixedlen` stops at a call it is in already are not modelled.
- GrammarCheck.AcceptedTerminates: asks that no set flag is dropped at a nested grammar (`KeepsNb`). This is one way:
  whether a grammar that drops one terminates all the same is undecidable in general. `Chains.AcceptedStops` and the
  lemmas of `Settling` ask the same.
- The rules of a grammar are a list; the names of rules and the replacement of open calls by numbers are left out.
  The bound MAXRULES is kept.
- A look-behind body is closed, as lptree.c:764 makes it.

Timer

- The clock is read as a list of ticks with the requests that arrive at each; reading the operating system's clock is
  left out. Delays are below 2^31, as `skynet_timeout` takes them.
- The slots are sequences rather than linked lists.

Scheduler

- Handles are not reused while their queue exists, and a service's handle is set in the step that registers it.
- Monitoring, profiling, the overload log and `skynet_context_reserve` are left out.
- What a callback does to other services is done by other threads of the model.
- A service whose callback is not set (its messages are freed unseen) is not modelled.
- SchedulerTheorems.AssertionsHold: of the assertions of skynet_mq.c and skynet_server.c, `assert(ctx->init)`
  (skynet_server.c:269), `assert(q == ctx->queue)` (356), `assert(source)` (121), `assert(message)` (skynet_mq.c:191)
  and the one on session numbers (skynet_server.c:750) are not modelled. That on the tail (skynet_mq.c:67) is in
  `MessageQueues.GlobalQueue.Pop`; that no service is called twice at once (skynet_server.c:27) is `SingleOwner`.

Socket

- One connected TCP socket: no errors, no half-close, no shutdown, no UDP, no warning at a large buffer.
- A direct write and the setting of `dw_buffer` are one step, under the lock; so is each of the socket thread's
  sections that no other thread can see into.
- Lists are sequences: the links and the two assertions on the tail in `append_sendbuffer_` are not modelled.
- A `write` that would block counts as one of 0 bytes. So an empty package whose write would block counts as finished,
  where the source keeps it and tries again.

Data and codecs

- sharedata: keys are strings or 32-bit integers and values are opaque; strings are compared by their text, which
  stands for the interned index. Reference counts, the dirty flag and errors on unsupported types are left out.
- SeriStream.ReadBlock.PushValue: a long string whose length is read as 2^31 or more becomes a negative `int` in
  `get_buffer` and passes the check of `rb_read`; in the model it is a length, and too few bytes are an error.
- seri: floats and pointers are opaque bytes, NaN keys and the `__pairs` metamethod are left out, and strings are
  below 2^31 bytes.
- netpack: descriptors are not negative; the Lua stack and the collection of a queue are left out.
- HarborLinks.Slave.Connect: a link that went down and is connected again is not modelled; `read` is not reset when a
  length that is too long closes it. Contents shorter than a header are received, but what forwarding them reads is
  not modelled. Names, and the queue of a name, are left out; the queue of a link is a sequence.
- lua_lines: an instruction is removed only when all have their lines, as every caller of `removelastinstruction` does;
  the growth of vectors and the 8-bit counter (which stays below 130) are not modelled.
- Des.RemovePkcs7: for a last byte above 8 the source goes on comparing before the text; what is there is a parameter,
  and makes no difference to `Decode`. The key schedule and the S-boxes are parameters.
- crypt: random keys, hashes, hexadecimal and base64 are left out.
- handle: `skynet_handle_retireall` and the reference counts of contexts are left out; the mask on a handle is a
  remainder, as the size of the table is a power of 2.
- rwlock: the variant built on pthread is left out.

Not modelled at all: connecting and accepting, TLS, logging, the cluster codec, bson, sproto, md5, sha1, lua-stm,
the memory allocator, and the rest of Lua.
