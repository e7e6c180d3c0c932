# Skynet: a verified model

This project models the hardest parts of a repository that vendors several C engines around the
Skynet actor runtime, and proves what they promise.

**LPeg** (`skynet-1.2.0/3rd/lpeg`). A pattern tree is analysed, compiled to bytecode, rewritten by a
peephole pass and run by a backtracking machine.

* `Peg` gives patterns a meaning of their own: a recursive matcher over (subject, position).
* `LpAnalysis` has the analyses (nullable, nofail, fixed length, first sets, headfail) and proves them
  sound against that meaning.
* `LpVm` is the machine as a step function, `LpMatch` the interpreter loop.
* `LpCodegen` says which words each pattern compiles to; `LpLayout` where blocks, labels and rules stand.
* `LpSimulation` proves the compiled code correct. The statement is about code together with what runs
  behind it, because a choice or a repetition that drops its backtrack entry relies on the follow set.
* `LpVerify` has the grammar checker and the termination theorem; `LpVerdict` says which grammars it rejects;
  `LpBudget` says when the analyses, which follow calls without a bound, come to an end; `LpLength` shows `fixedlen`
  exact.
* `LpPeephole` proves jump threading and jump replacement a stuttering simulation.
* `LpChains`, `LpFlow`, `LpTails`, `LpJumps` and `LpReturns` say when following jumps comes to an end: where the code
  of a pattern leads by jumps alone, which calls `correctcalls` turns into jumps, and for which patterns every chain
  is finite and the peephole pass returns.
* `LpTheorem` joins all this; `LpCompiler` is the compiler as the C code writes it, appending to and
  patching a code array.

**The Skynet runtime** (`skynet-1.2.0/skynet-src`).

* `TimerWheel`: the hierarchical timing wheel refines a table from absolute ticks to events.
* `Mailbox`, `Scheduler`, `SchedulerProof`, `SchedulerTheorem`, `SchedulerRuns`: the message queues and
  workers as a machine of atomic steps over any number of threads with call stacks. `SchedulerSends` and
  `SchedulerHandling` record the moves of a run and follow each message from the call that sends it to the callback;
  `SchedulerProgress` shows that a worker can always bring a waiting mailbox to its turn.
* `SocketStream`, `SocketQueue`, `SocketServer`, `SocketProtocol`, `SocketClosing`, `SocketConnecting`: the write path of a TCP
  socket, in place and as a machine of atomic steps of any number of sending threads and the socket thread.
  Every byte on the wire is labelled with its package and its place in it. `SocketPriority` follows each package from
  the call that sends it to the stream, and shows what low priority means.
* `Snapshot`, `SnapshotRuns`: the reader/writer lock and, on top of it, the reference-counted copies of
  `lua-stm.c`, as atomic steps of any number of readers and writers; `SnapshotCopies` says which copy is published and
  which one a reader gets.

**The pool allocator** (`rocketmqRouter`).

* `PoolQueue`: the macros for intrusive lists, against the sequence of nodes that a list holds.
* `PoolBlock`, `Pool`: chunks that tile a block, split on malloc and coalesced on free.

**Codecs and tables** (`skynet-1.2.0/lualib-src`, `pbc-master/src`).

* `Des`, `DiffieHellman`: the block cipher with padding, and modular powers in wrapping 64-bit words.
* `LuaSeri`, `LuaSeriStream`: the format of serialized Lua values, and the code that writes it into a chain
  of blocks and reads it back.
* `Netpack`: length-prefixed packets from streams that arrive in arbitrary pieces.
* `ChainTable`, `MapSi`, `MapSp`, `MapIp`: hash tables with coalesced chains refine a finite map.
* `Varint.dfy` (module `Varints`), `Packed`: varints, zigzag, and packed fields written with a guessed length.

`Counting`, `Histories` and `RingBuffer` are shared: sums of what threads hold, what the moves of a run do one after
the other, and ring buffers.

Some promises turned out to be false of the code. Each has a concrete counterexample and the condition under
which the promise holds:

* `verifygrammar` accepts some left-recursive grammars. `verifyrule` answers `nullable(tree)` at a
  sub-grammar and so drops what it had accumulated (lptree.c:1038-1039), and it does not enter
  look-behinds (lptree.c:1009-1011). `LpVerify.RepeatedSubgrammarAccepted` and
  `LpVerify.CallBehindAccepted` show both; `LpVerify.MatchTerminates` proves termination for grammars
  whose traversal never drops the flag and whose look-behinds contain no call. The converse does not
  hold: whether a match ends is not decided by such a traversal. What is decided is `LpVerdict.VerifiedIff`: a grammar
  that nowhere loses the flag is accepted exactly if no rule in use may enter a rule that comes back to itself before
  a character has to be passed, and no rule in use repeats a nullable pattern.
* `compile` does not return for every pattern that `verifygrammar` accepts. For `S <- c / L; L <- !G L`, where `G`
  never matches, the negation is coded as a jump and the call as another, so `finaltarget` follows them for ever
  (lpcode.c:641-645), though the pattern matches `c` (`LpTheorem.CompileHangs`). For `L <- G* L` it is `getfirst`
  that follows the call for ever (`LpTheorem.AnalysisHangs`). `LpTheorem.CompileReturnsIff`: for every well-formed
  pattern, `compile` returns exactly if the analyses that code generation asks for end and in no coded grammar a
  rule comes back to itself by jumps; both can be decided from the pattern. `LpTheorem.AcceptedReturns`: this is so
  whenever the grammars passed their checks without losing the flag.
* The bytes written to a TCP socket are whole packages in order, except after `force_close` has freed a
  part-sent package and before it has the lock: a thread that gets the lock then finds both lists empty and
  writes its own package behind the cut one. `SocketProtocol.TornStream` shows it.
  `SocketProtocol.StreamExact`: the stream is a prefix of whole accepted packages exactly if no byte is
  written in that window. `SocketClosing.CloseGuard` says it of the state in which `force_close` begins: the
  stream stays in order, whatever happens then, exactly if no package is part-sent there or no thread can still
  come to write.
* Bytes queued on a TCP socket can be left without a write event. `report_connect` sets the state, tests for queued
  bytes and turns the event off in three steps without the lock (socket_server.c:1315-1320); a thread that writes
  directly between the last two leaves its rest behind (`SocketConnecting.LostEvent`). `SocketConnecting.WaitsExact`:
  in a run queued bytes have had a write event all along exactly if `report_connect` has never turned it off over
  them. `SocketConnecting.ConnectGuard` says it of the state in which the test finds nothing: the event is never lost
  from then on exactly if every thread is already past its checks, on the way to the pipe.
* A new service can be overtaken in two places. Between `ctx->handle = ...` and `ctx->queue = ...`
  (skynet_server.c:144-145) another thread may grab the context and push into a mailbox that is not there. And the
  creator goes on with the context after it has given up its reference (skynet_server.c:165-173): it sets `init`,
  publishes the mailbox, signs the LAUNCH message with the handle, and its caller reads the handle for the answer.
  `SchedulerRuns.EarlyPush` and `SchedulerRuns.LaunchRace` are runs that end at each of these points. Every other
  step is safe in every run (`SchedulerRuns.SafeExactly`); a push is safe exactly if no thread is still creating the
  mailbox (`SchedulerRuns.PushSafe`), and what the creator does exactly as long as the handle is registered or some
  call holds or deletes the context (`SchedulerRuns.BorrowSafe`). Runs are followed up to the first unsafe step.
* `powmodp` is right for every base and positive exponent except base `P` with exponent 1
  (`DiffieHellman.Powmodp`), because the base is reduced only if it is greater than `P`.
* A packed list comes back exactly if its field type carries every value (`Packed.RoundTrip`): the 32-bit
  types do not send the high word, and `sint32` gets a high word that is no sign extension.
* `ldesdecode` compares an `int` index with a `size_t`: for a text of one block that decrypts to zeros, its
  scan leaves the buffer. `Des.DesDecode` says when; no encoded text does this.
* A serialized string whose length is given as 2^31 or more is read from outside the stream, because `rb_read` takes
  the length as an `int` (lua-seri.c:118-128, 508). The readers end with `Outside` exactly there; no packed value
  does this.

## Model

| member | source | states |
|---|---|---|
| Peg.MatchMonotone | skynet-1.2.0/3rd/lpeg/lpeg.html:368-500 | a deeper evaluation of the PEG semantics never changes an answer already given |
| Peg.MatchRange | skynet-1.2.0/3rd/lpeg/lpeg.html:368-500 | a match ends at or behind its start and inside the subject |
| Peg.MeansUnique | skynet-1.2.0/3rd/lpeg/lpeg.html:368-500 | a pattern has at most one meaning at a position |
| LpAnalysis.CheckAuxSound | skynet-1.2.0/3rd/lpeg/lpcode.c:196-230 | a nofail pattern never fails; a pattern that matches the empty string is nullable; for every grammar, subject, position and depth |
| LpAnalysis.FixedLenSound | skynet-1.2.0/3rd/lpeg/lpcode.c:236-273 | a pattern with a fixed length consumes exactly that length in every match |
| LpLength.FixedLenExact | skynet-1.2.0/3rd/lpeg/lpcode.c:236-273 | a pattern has fixed length n exactly if n is the only length its shape allows, with alternatives taken freely and repetitions running any number of times |
| LpAnalysis.GetFirstSound | skynet-1.2.0/3rd/lpeg/lpcode.c:294-370 | a match that consumes its first character has it in the first set; an empty match before a character of the follow set has it there too; a match at the end of the subject sets the empty flag |
| LpAnalysis.HeadFailProgress | skynet-1.2.0/3rd/lpeg/lpcode.c:377-399 | a headfail pattern cannot fail on a character of its first set, whatever follows, and never accepts the end |
| LpAnalysis.HeadFailExact | skynet-1.2.0/3rd/lpeg/lpcode.c:377-399 | a headfail pattern fails exactly when the next character is absent or outside its first set |
| LpVm.HaltsUnique | skynet-1.2.0/3rd/lpeg/lpvm.c:149-360 | a run of the machine has at most one answer |
| LpVm.HaltsBack | skynet-1.2.0/3rd/lpeg/lpvm.c:160-165 | a state whose next state leads to an answer leads to that answer |
| LpMatch.Span | skynet-1.2.0/3rd/lpeg/lpvm.c:224-232 | the loop of ISpan stops at the first character outside the set |
| LpMatch.Backtrack | skynet-1.2.0/3rd/lpeg/lpvm.c:276-294 | popping pending calls reaches the backtrack entry at which the failing run goes on |
| LpMatch.RunMachine | skynet-1.2.0/3rd/lpeg/lpvm.c:149-360 | on code that stops, the interpreter loop ends with the answer of the step semantics |
| LpLayout.GenGood | skynet-1.2.0/3rd/lpeg/lpcode.c:917-944 | generated code splits into whole instructions, and its open calls stand on instruction boundaries and name rules in range |
| LpLayout.GrammarClosed | skynet-1.2.0/3rd/lpeg/lpcode.c:844-884 | correctcalls closes every open call of a grammar and changes no other word |
| LpLayout.RulesAt | skynet-1.2.0/3rd/lpeg/lpcode.c:868-884 | in code that holds a grammar, every rule stands at its position, followed by a return |
| LpSimulation.Sim | skynet-1.2.0/3rd/lpeg/lpcode.c:677-945 | for every pattern, every continuation behind its code and every state of the stack: if going on after a match, or failing, leads to an answer, then so does entering the code; covers the test, headfail, disjoint-first, partial-commit and opt shortcuts through the follow set |
| LpSimulation.SimChoiceTest | skynet-1.2.0/3rd/lpeg/lpcode.c:677-692 | a choice without a backtrack entry agrees with the semantics, because a failure behind the test leads to failure of what follows anyway |
| LpSimulation.SimOptional | skynet-1.2.0/3rd/lpeg/lpcode.c:693-697 | an optional pattern may reuse the backtrack entry of the enclosing one |
| LpSimulation.SimChoiceFull | skynet-1.2.0/3rd/lpeg/lpcode.c:698-711 | the general choice |
| LpSimulation.SimRepTest | skynet-1.2.0/3rd/lpeg/lpcode.c:786-795 | a tested repetition without a backtrack entry |
| LpSimulation.SimRepChoice | skynet-1.2.0/3rd/lpeg/lpcode.c:796-812 | a repetition with partial commits, also inside an optional pattern |
| LpSimulation.SimSpan | skynet-1.2.0/3rd/lpeg/lpcode.c:777-781 | span over a charset is the repetition of that charset |
| LpSimulation.SimNot | skynet-1.2.0/3rd/lpeg/lpcode.c:823-837 | the not predicate, by its test alone if headfail, else by failtwice |
| LpSimulation.SimAnd | skynet-1.2.0/3rd/lpeg/lpcode.c:720-736 | the and predicate, by stepping back a fixed length or by back-commit |
| LpSimulation.SimBehind | skynet-1.2.0/3rd/lpeg/lpcode.c:659-663 | look-behind |
| LpSimulation.SimCapture | skynet-1.2.0/3rd/lpeg/lpcode.c:745-757 | captures do not change what is matched |
| LpSimulation.SimCall | skynet-1.2.0/3rd/lpeg/lpcode.c:844-861 | a call, and a call that became a jump because a return follows, run the rule and go on behind the call |
| LpSimulation.SimGrammar | skynet-1.2.0/3rd/lpeg/lpcode.c:868-884 | a grammar, nested in other grammars or not, runs its first rule in its own scope |
| LpSimulation.CompileRawCorrect | skynet-1.2.0/3rd/lpeg/lpcode.c:1001-1010 | before the peephole pass, compiled code stops with the answer of the semantics on every subject and start |
| LpVerify.VerifyGrammar | skynet-1.2.0/3rd/lpeg/lptree.c:1045-1063 | the two loops accept exactly the grammars all of whose used rules pass verifyrule and checkloops; which these are, both ways, is `LpVerdict.VerifiedIff` |
| LpVerify.FlagSound | skynet-1.2.0/3rd/lpeg/lptree.c:1002-1042 | where verifyrule does not drop its accumulator, its answer covers the accumulator and every empty match |
| LpVerify.RepeatedSubgrammarAccepted | skynet-1.2.0/3rd/lpeg/lptree.c:1038-1039 | for every non-nullable grammar G, the rule that is G repeated and then itself is accepted, and no evaluation depth matches it on any subject |
| LpVerify.CallBehindAccepted | skynet-1.2.0/3rd/lpeg/lptree.c:1009-1011 | a rule that calls itself in a look-behind of length 0 is accepted and never ends |
| LpVerify.Total | skynet-1.2.0/3rd/lpeg/lptree.c:1002-1063 | in a verified grammar every pattern has an answer, by a measure of scope, remaining input and left-call depth |
| LpVerify.MatchTerminates | skynet-1.2.0/3rd/lpeg/lptree.c:1045-1063 | every pattern whose grammars are verified, keep the flag and have call-free look-behinds has an answer on every subject |
| LpVerdict.RejectedHasChain | skynet-1.2.0/3rd/lpeg/lptree.c:1002-1042 | if verifyrule rejects a pattern with some rules to go, there is a chain of one call more: each call stands in its rule where no character, set, any or false has to be passed before it; and the flag it returns claims no more than there is |
| LpVerdict.AcceptedHasNone | skynet-1.2.0/3rd/lpeg/lptree.c:1002-1042 | and if it accepts, nowhere losing its flag, there is no such chain, and the flag covers every pattern that may be passed |
| LpVerdict.RejectedIff | skynet-1.2.0/3rd/lpeg/lptree.c:1002-1042 | so verifyrule rejects exactly the patterns that have such a chain |
| LpVerdict.RejectedRecursive | skynet-1.2.0/3rd/lpeg/lptree.c:1002-1042 | with no more rules than may be passed, a rule is rejected only if it may enter a rule that comes back to itself that way (pigeonhole) |
| LpVerdict.RecursiveRejected | skynet-1.2.0/3rd/lpeg/lptree.c:1002-1042 | and if it may, it is rejected, unless the flag is lost |
| LpVerdict.GuardedAccepted | skynet-1.2.0/3rd/lpeg/lptree.c:1002-1042 | a pattern in which every call stands behind a pattern of fixed, positive length is never rejected for left recursion |
| LpVerdict.EndExact | skynet-1.2.0/3rd/lpeg/lpcode.c:196-230 | at the end of any subject, a pattern without predicates matches exactly if it is nullable and fails exactly if it is not, wherever matching and the analysis end |
| LpVerdict.NullableExact | skynet-1.2.0/3rd/lpeg/lpcode.c:196-230 | a pattern without predicates that has a meaning on the empty subject is nullable exactly if it matches that |
| LpVerdict.LoopIsEmpty | skynet-1.2.0/3rd/lpeg/lptree.c:952-967 | what checkloops rejects in a rule without predicates is a repetition that does not end on the empty subject, nor at the end of any other |
| LpVerdict.LoopsIff | skynet-1.2.0/3rd/lpeg/lptree.c:952-967 | checkloops finds exactly the rules that somewhere repeat a nullable pattern |
| LpVerdict.VerifiedIff | skynet-1.2.0/3rd/lpeg/lptree.c:1045-1063 | a grammar that nowhere loses the flag is accepted exactly if no rule in use may enter a left-recursive rule or repeats a nullable pattern |
| LpVerdict.RejectedForFault | skynet-1.2.0/3rd/lpeg/lptree.c:1045-1063 | a grammar without predicates is rejected only for a fault: a left-recursive rule that may be entered, or a repetition that does not end on the empty subject |
| LpPeephole.Simulates | skynet-1.2.0/3rd/lpeg/lpcode.c:956-995 | code in which one instruction was relabelled along a jump chain or replaced by its jump target simulates the old code, step for step up to stuttering, for every state |
| LpPeephole.RewriteKeeps | skynet-1.2.0/3rd/lpeg/lpcode.c:956-995 | such a rewrite keeps every answer |
| LpPeephole.PeepAtKeeps | skynet-1.2.0/3rd/lpeg/lpcode.c:960-993 | if one visit of the peephole loop returns, it keeps every answer, also after redo |
| LpPeephole.PeepFromKeeps | skynet-1.2.0/3rd/lpeg/lpcode.c:956-995 | if the pass returns, it keeps every answer; when it returns is `LpReturns.PassReturnsIff` |
| LpChains.TargetReached | skynet-1.2.0/3rd/lpeg/lpcode.c:641-645 | a chain of jumps that ends does so within as many steps as there are words (pigeonhole) |
| LpFlow.GenFlows | skynet-1.2.0/3rd/lpeg/lpcode.c:677-945 | whatever the context, the code of a pattern leads by jumps from its start to its end, to a call of a rule, or to another instruction, as the tree tells; and behind every call it leads to the end or to a word that is no return |
| LpTails.CallClosed | skynet-1.2.0/3rd/lpeg/lpcode.c:844-861 | correctcalls makes a call a jump exactly if the chain behind it ends at a return, whichever calls have been closed before |
| LpTails.GrammarRests | skynet-1.2.0/3rd/lpeg/lpcode.c:844-861 | behind every call of every grammar the chain ends, so correctcalls always returns |
| LpTails.RulesEndIff | skynet-1.2.0/3rd/lpeg/lpcode.c:868-884 | where a grammar's code stands, the chains from all its rules end exactly if no rule comes back to itself by jumps within as many steps as there are rules |
| LpJumps.CompiledEndsIff | skynet-1.2.0/3rd/lpeg/lpcode.c:641-645 | for every well-formed pattern, every chain of jumps in its code ends exactly if no coded grammar has a rule that comes back to itself by jumps |
| LpJumps.TidyJumpFree | skynet-1.2.0/3rd/lpeg/lptree.c:1045-1063 | this is so for grammars that passed their checks without losing the flag, used rules or not |
| LpReturns.RewriteEnds | skynet-1.2.0/3rd/lpeg/lpcode.c:641-653 | a peephole rewrite keeps every finite chain finite |
| LpReturns.PassReturnsIff | skynet-1.2.0/3rd/lpeg/lpcode.c:956-995 | on code made of whole instructions the pass returns exactly if every chain of jumps ends |
| LpBudget.FirstMore | skynet-1.2.0/3rd/lpeg/lpcode.c:294-370 | a getfirst that ends within some nested calls gives the same answer under every larger budget |
| LpBudget.LeftAccepted | skynet-1.2.0/3rd/lpeg/lptree.c:1002-1042 | in a grammar that passed its check without losing the flag, all that may be entered before a character is consumed is reached within a bounded number of nested calls, and the flag covers what counts as nullable |
| LpBudget.AnalysesEnd | skynet-1.2.0/3rd/lpeg/lpcode.c:196-399 | for such patterns every analysis that code generation asks for ends, within a budget that depends only on how deeply grammars are nested |
| LpTheorem.CompileReturnsIff | skynet-1.2.0/3rd/lpeg/lpcode.c:1001-1010 | for every well-formed pattern, compile returns exactly if its analyses end and no coded grammar has a rule that comes back to itself by jumps |
| LpTheorem.AcceptedReturns | skynet-1.2.0/3rd/lpeg/lpcode.c:1001-1010 | compile returns for every pattern whose grammars passed their checks without losing the flag |
| LpTheorem.CompileHangs | skynet-1.2.0/3rd/lpeg/lpcode.c:641-645 | an accepted grammar that matches and whose analyses all end, but whose compilation follows jumps for ever |
| LpTheorem.AnalysisHangs | skynet-1.2.0/3rd/lpeg/lpcode.c:899-911 | an accepted family of grammars for which getfirst follows calls for ever, whatever the budget |
| LpTheorem.CompileSound | skynet-1.2.0/3rd/lpeg/lpcode.c:1001-1010 | for every well-formed pattern and every evaluation that has an answer, the optimised code stops with that answer; and compile returns exactly if the analyses do and no rule comes back to itself by jumps |
| LpTheorem.CompileAgrees | skynet-1.2.0/3rd/lpeg/lpcode.c:1001-1010 | for every well-formed pattern, subject and start for which the semantics has an answer, the machine has that answer and no other |
| LpTheorem.CompileExact | skynet-1.2.0/3rd/lpeg/lpcode.c:1001-1010 | if the grammars keep the flag and no look-behind calls a rule, the machine stops on every subject and start; it ends at r exactly when the semantics matches up to r, and gives up exactly when the semantics fails |
| LpCompiler.FollowJumps | skynet-1.2.0/3rd/lpeg/lpcode.c:641-645 | the loop of finaltarget ends at the end of the chain |
| LpCompiler.CompileState.CodeGen | skynet-1.2.0/3rd/lpeg/lpcode.c:919-944 | appends exactly the words the code generation function gives for the pattern |
| LpCompiler.CompileState.CodeTestSet | skynet-1.2.0/3rd/lpeg/lpcode.c:614-635 | appends the test instruction for a first set and returns where its label is to be patched |
| LpCompiler.CompileState.CodeSeq1 | skynet-1.2.0/3rd/lpeg/lpcode.c:899-911 | codes the first part with the first set of the second as follow set and returns the test still valid |
| LpCompiler.CompileState.CodeChoice | skynet-1.2.0/3rd/lpeg/lpcode.c:677-712 | appends the words of the choice, all labels patched |
| LpCompiler.CompileState.CodeRep | skynet-1.2.0/3rd/lpeg/lpcode.c:774-813 | appends the words of the repetition, all labels patched |
| LpCompiler.CompileState.CodeNot | skynet-1.2.0/3rd/lpeg/lpcode.c:823-837 | appends the words of the not predicate |
| LpCompiler.CompileState.CodeAnd | skynet-1.2.0/3rd/lpeg/lpcode.c:720-736 | appends the words of the and predicate |
| LpCompiler.CompileState.CodeCapture | skynet-1.2.0/3rd/lpeg/lpcode.c:745-757 | appends the words of the capture |
| LpCompiler.CompileState.CodeGrammar | skynet-1.2.0/3rd/lpeg/lpcode.c:868-884 | appends the words of the grammar, with its calls closed |
| LpCompiler.CompileState.CloseCalls | skynet-1.2.0/3rd/lpeg/lpcode.c:844-861 | for every grammar the in-place loop returns, and closes the open calls as the specification does |
| LpCompiler.CompileState.PeepholePass | skynet-1.2.0/3rd/lpeg/lpcode.c:956-995 | the in-place pass computes the specified rewriting |
| LpCompiler.CompileState.CompilePattern | skynet-1.2.0/3rd/lpeg/lpcode.c:1001-1010 | leaves the compiled and optimised code, for every pattern for which compile returns |
| LpCompiler.InitPosition | skynet-1.2.0/3rd/lpeg/lptree.c:1138-1150 | the start lies inside the subject; positions count from 1, negative ones from the end |
| LpCompiler.MatchPattern | skynet-1.2.0/3rd/lpeg/lptree.c:1156-1174 | for every pattern whose compilation returns and that has a meaning at the start position, compiling and running it gives that meaning |
| TimerWheel.SlotWraps | skynet-1.2.0/skynet-src/skynet_timer.c:74-93 | 32-bit expiry and clock words choose the slot that the unbounded times choose, across wrap-around |
| TimerWheel.SlotKept | skynet-1.2.0/skynet-src/skynet_timer.c:118-139 | a tick moves the pending nodes of at most the one cascaded slot |
| TimerWheel.LinkRest | skynet-1.2.0/skynet-src/skynet_timer.c:108-116 | linking the first of the nodes still to be moved keeps wheel and rest together equal to the table |
| TimerWheel.CurrentSlot | skynet-1.2.0/skynet-src/skynet_timer.c:159-164 | the current near slot holds exactly the events due now, in order; clearing it removes exactly those |
| TimerWheel.TickHolds | skynet-1.2.0/skynet-src/skynet_timer.c:118-139 | when the clock arrives at the next tick, clearing the cascaded slot leaves exactly its nodes to be linked again |
| TimerWheel.OwnPlace | skynet-1.2.0/skynet-src/skynet_timer.c:67-72 | every call has a place of its own among the events of its tick, behind the earlier calls for that tick |
| TimerWheel.Timer.AddNode | skynet-1.2.0/skynet-src/skynet_timer.c:74-93 | links the node into the slot its expiry selects and changes nothing else |
| TimerWheel.Timer.Add | skynet-1.2.0/skynet-src/skynet_timer.c:95-106 | adds the event to the table at now plus delay |
| TimerWheel.Timer.MoveList | skynet-1.2.0/skynet-src/skynet_timer.c:108-116 | relinking a cascaded list makes the wheel hold the table again |
| TimerWheel.Timer.Shift | skynet-1.2.0/skynet-src/skynet_timer.c:118-139 | advances the clock by one tick, cascading what has to be cascaded, also when the clock wraps |
| TimerWheel.Timer.Execute | skynet-1.2.0/skynet-src/skynet_timer.c:159-170 | dispatches exactly the events due now, while other threads add timers |
| TimerWheel.Timer.Update | skynet-1.2.0/skynet-src/skynet_timer.c:172-185 | one update dispatches exactly the events due at the next tick |
| TimerWheel.Timer.Timeout | skynet-1.2.0/skynet-src/skynet_timer.c:211-231 | a delay of zero or less is answered at once, any other is added |
| TimerWheel.Timer.Drive | skynet-1.2.0/skynet-src/skynet_timer.c:74-231 | in every run from a new timer, update n dispatches exactly the events asked for tick n, in the order they were asked for |
| Mailbox.MessageQueue.MqLength | skynet-1.2.0/skynet-src/skynet_mq.c:111-125 | the length is the number of messages queued |
| Mailbox.MessageQueue.Pop | skynet-1.2.0/skynet-src/skynet_mq.c:137-172 | takes the first message, or clears in_global if there is none; records overload and raises the threshold |
| Mailbox.MessageQueue.Expand | skynet-1.2.0/skynet-src/skynet_mq.c:174-187 | doubles a full ring and keeps its messages in order |
| Mailbox.MessageQueue.Push | skynet-1.2.0/skynet-src/skynet_mq.c:189-209 | appends the message through any expansion and tells whether the mailbox goes to the global queue |
| Mailbox.MessageQueue.MarkRelease | skynet-1.2.0/skynet-src/skynet_mq.c:219-228 | sets the release flag and tells whether the mailbox goes to the global queue |
| Mailbox.MessageQueue.DropQueue | skynet-1.2.0/skynet-src/skynet_mq.c:230-237 | hands every message left to the drop function, in order |
| Mailbox.MessageQueue.Serve | skynet-1.2.0/skynet-src/skynet_mq.c:111-209 | over any run of pushes and pops, what was popped and what is left are the messages pushed, in order |
| SchedulerProof.UnrefKeeps | skynet-1.2.0/skynet-src/skynet_server.c:222-229 | releasing a reference finds the context alive and starts deletion exactly when it was the last |
| SchedulerProof.MarkKeeps | skynet-1.2.0/skynet-src/skynet_mq.c:219-228 | delete_context marks a live, unmarked mailbox and puts an idle one into the global queue, once |
| SchedulerProof.PushKeeps | skynet-1.2.0/skynet-src/skynet_mq.c:189-209 | a sender that holds a reference finds the mailbox alive and wakes it only if it is nowhere |
| SchedulerProof.GiveUpKeeps | skynet-1.2.0/skynet-src/skynet_mq.c:160-167 | a worker that finds its mailbox empty leaves it idle |
| SchedulerTheorem.SafeIff | skynet-1.2.0/skynet-src/skynet_server.c:125-353 | the next step of a call touches only what exists, and fails no assertion, exactly if it is not a push into a mailbox still to be created and not a use, by the creator after its release, of a context that nobody holds any more |
| SchedulerTheorem.ActFine | skynet-1.2.0/skynet-src/skynet_server.c:125-353 | every such step of every call keeps the invariant; registering a handle and creating its mailbox are steps of their own. What becomes of a message is said by `SchedulerHandling.NothingLost` |
| SchedulerRuns.Always | skynet-1.2.0/skynet-src/skynet_server.c:125-353 | the invariant holds in every state of every run of any number of threads, also between registration and creation |
| SchedulerRuns.SafeExactly | skynet-1.2.0/skynet-src/skynet_server.c:125-353 | in every state of every run, the next step of a thread is safe exactly if it is in time; only a push and what the creator does with the context after its release can be out of time. Safe: every mailbox and context it touches exists, and the assertions hold (queue not in the global list, not released twice, q == ctx->queue, ctx->init) |
| SchedulerRuns.PushSafe | skynet-1.2.0/skynet-src/skynet_server.c:144-145 | a push finds the mailbox exactly if no thread stands between setting the handle and creating the mailbox |
| SchedulerRuns.OnePlace | skynet-1.2.0/skynet-src/skynet_mq.c:43-75 | every live mailbox is in exactly one place: under construction, once in the global queue, or held by one thread; or it is idle, and then empty |
| SchedulerRuns.FreedIsNowhere | skynet-1.2.0/skynet-src/skynet_mq.c:98-104 | a freed mailbox is held by nobody, so it is freed once |
| SchedulerRuns.OneDispatcher | skynet-1.2.0/skynet-src/skynet_server.c:298-353 | no two calls, of one thread or two, dispatch for the same service |
| SchedulerRuns.InOrder | skynet-1.2.0/skynet-src/skynet_server.c:298-353 | each service handles its messages in the order pushed, each once; what is not handled is at most one message in flight and those in the mailbox |
| SchedulerRuns.FreedLast | skynet-1.2.0/skynet-src/skynet_mq.c:239-250 | a mailbox is freed only when its handle is retired, its context is gone or has no reference left, and every message is handled |
| SchedulerRuns.BorrowSafe | skynet-1.2.0/skynet-src/skynet_server.c:165-173 | the creator's write to init, the handle that signs the LAUNCH message, and the handle its caller reads are safe exactly if the handle is registered or some call holds or deletes the context |
| SchedulerRuns.ContextAlive | skynet-1.2.0/skynet-src/skynet_server.c:199-229 | in every run a context exists exactly as long as its handle is registered or some call holds or deletes it |
| SchedulerRuns.EarlyPush | skynet-1.2.0/skynet-src/skynet_server.c:144-145 | a run in which a sender is about to push into a mailbox that has not been created |
| SchedulerRuns.LaunchRace | skynet-1.2.0/skynet-src/skynet_server.c:165-173 | runs in which the creator is about to mark a freed context as initialised, to sign the LAUNCH message with its handle, or to read the handle for the answer |
| SchedulerSends.EveryRequest | skynet-1.2.0/skynet-src/skynet_server.c:231-241 | in every run, every message that user code sends is looked up exactly once, or waits for that in the hands of one thread |
| SchedulerSends.EverySend | skynet-1.2.0/skynet-src/skynet_server.c:231-241 | every message whose lookup found the handle is pushed exactly once, or is in the hands of one thread that is about to push it |
| SchedulerSends.PushedExactly | skynet-1.2.0/skynet-src/skynet_mq.c:189-209 | the history of a handle consists of the pushes to it, in their order, and of nothing else |
| SchedulerSends.SenderOrder | skynet-1.2.0/skynet-src/skynet_server.c:231-241 | the messages of one thread are looked up, and those found are pushed, in the order in which the thread sends them |
| SchedulerSends.TableExact | skynet-1.2.0/skynet-src/skynet_handle.c:34-153 | a lookup finds a handle exactly from the launch of its service on, until a move retires it |
| SchedulerSends.KillsCarriedOut | skynet-1.2.0/skynet-src/skynet_handle.c:73-110 | each thread retires the handles it kills, in that order, each once |
| SchedulerSends.RetiredForGood | skynet-1.2.0/skynet-src/skynet_handle.c:73-110 | a handle in use that has been retired is never found again |
| SchedulerHandling.HandledExactly | skynet-1.2.0/skynet-src/skynet_server.c:298-353 | the messages of a handle whose handling has begun are exactly those whose callback has started or that were dropped, in that order |
| SchedulerHandling.HandledInOrder | skynet-1.2.0/skynet-src/skynet_server.c:298-353 | what has been pushed to a service is, in order, what has been handled followed by what waits |
| SchedulerHandling.NothingLost | skynet-1.2.0/skynet-src/skynet_server.c:231-353 | every message sent to a registered handle is, exactly once, handled already, waiting, or in the hands of a thread about to push it |
| SchedulerHandling.EveryCallback | skynet-1.2.0/skynet-src/skynet_server.c:262-286 | every callback that is entered is running or has returned, each once |
| SchedulerHandling.RoundLimit | skynet-1.2.0/skynet-src/skynet_server.c:315-340 | a dispatcher handles at most as many messages in one round as its limit says, or one |
| SchedulerHandling.LimitSet | skynet-1.2.0/skynet-src/skynet_server.c:318-325 | the limit is the number of messages left after the first, divided by 2 to the power of the worker's weight |
| SchedulerProgress.OneRound | skynet-1.2.0/skynet-src/skynet_server.c:298-353 | whatever the state of the mailbox a worker has taken, live, empty, or gone with messages to drop, the worker alone can be done with it, and the mailboxes in line come one place nearer |
| SchedulerProgress.WorkerComes | skynet-1.2.0/skynet-src/skynet_server.c:298-353 | every run that has reached a state with a worker at rest can go on until that worker is in the callback of any registered service whose mailbox is in the global queue, with the first message there, all other threads being where they were |
| SocketStream.WriteFlow | skynet-1.2.0/skynet-src/socket_server.c:584-602 | writing any part of the head of the queue keeps the written bytes whole packages in order, with the part-sent one first in the queue |
| SocketQueue.SendAllFlow | skynet-1.2.0/skynet-src/socket_server.c:580-610 | send_list_tcp keeps the stream whole, whatever the kernel answers |
| SocketQueue.SendListsGood | skynet-1.2.0/skynet-src/socket_server.c:725-765 | send_buffer_ keeps the invariant of the socket |
| SocketQueue.RaisedGood | skynet-1.2.0/skynet-src/socket_server.c:695-710 | moving a part-sent low package to the empty high list keeps the stream whole |
| SocketQueue.DrainedGood | skynet-1.2.0/skynet-src/socket_server.c:746-761 | when both lists are empty, no byte is left (the assertion at line 747) |
| SocketQueue.SendBufferGood | skynet-1.2.0/skynet-src/socket_server.c:767-793 | send_buffer keeps the invariant; the direct-write buffer goes first |
| SocketQueue.SendSocketGood | skynet-1.2.0/skynet-src/socket_server.c:843-909 | send_socket keeps the invariant, and the write event on while a connection is made |
| SocketQueue.DirectGood | skynet-1.2.0/skynet-src/socket_server.c:1587-1625 | a direct write with nothing part-sent keeps the invariant |
| SocketServer.TcpSocket.SendListTcp | skynet-1.2.0/skynet-src/socket_server.c:580-610 | the loop writes what the specification says and leaves the rest |
| SocketServer.TcpSocket.SendBufferLists | skynet-1.2.0/skynet-src/socket_server.c:725-765 | computes the specified state; its assertions hold |
| SocketServer.TcpSocket.SendBufferLocked | skynet-1.2.0/skynet-src/socket_server.c:767-793 | computes the specified state and keeps the invariant |
| SocketServer.TcpSocket.SendPackage | skynet-1.2.0/skynet-src/socket_server.c:843-909 | computes the specified state and keeps the invariant; which list that is, and what it means, is `SocketPriority.LowExactly` and `SocketPriority.LowWaits` |
| SocketProtocol.StepKeeps | skynet-1.2.0/skynet-src/socket_server.c:1574-1658 | every step of the socket thread and of any number of sending threads keeps the invariant; the end of a connection attempt is three steps |
| SocketProtocol.DecKeeps | skynet-1.2.0/skynet-src/socket_server.c:1104-1134 | the counter of packages under way is exact, so the assertion of dec_sending_ref holds |
| SocketProtocol.StreamIntegrity | skynet-1.2.0/skynet-src/socket_server.c:717-833 | in every run, while the socket is open: the bytes written are whole packages followed by the written part of the first queued one, each route in order, the size is exact, and the low list is not part-sent |
| SocketProtocol.SeamlessStep | skynet-1.2.0/skynet-src/socket_server.c:1574-1625 | from a stream in order, a step leaves it in order exactly if it is not a direct write of at least one byte after a part-sent package was freed |
| SocketProtocol.StreamExact | skynet-1.2.0/skynet-src/socket_server.c:409-436 | in every run, what was written is a prefix of whole accepted packages, byte by byte with its package, exactly if no such write happened |
| SocketProtocol.TornStream | skynet-1.2.0/skynet-src/socket_server.c:409-436 | a run after which the bytes written are no prefix of those of any sequence of accepted packages |
| SocketClosing.RiskyTears | skynet-1.2.0/skynet-src/socket_server.c:409-436 | if a package was part-sent and a thread can still pass the checks of a direct write, there is a run on that mixes up packages |
| SocketClosing.HarmlessStep | skynet-1.2.0/skynet-src/socket_server.c:409-436 | otherwise no step of any thread mixes up packages or brings the risk back |
| SocketClosing.CloseGuard | skynet-1.2.0/skynet-src/socket_server.c:409-436 | for every reachable state in which force_close begins: every run on keeps the stream a prefix of whole packages exactly if no package is part-sent there, or no thread can still come to write |
| SocketConnecting.WaitsStep | skynet-1.2.0/skynet-src/socket_server.c:1303-1340 | a step leaves queued bytes with a write event exactly if it is not the call that ends report_connect with bytes queued since its test |
| SocketConnecting.WaitsExact | skynet-1.2.0/skynet-src/socket_server.c:1315-1320 | in every run, queued bytes have had a write event in every state exactly if no such step happened |
| SocketConnecting.ConnectGuard | skynet-1.2.0/skynet-src/socket_server.c:1315-1320 | for every reachable state in which report_connect finds nothing queued: in every run on, queued bytes have a write event exactly if every sending thread is already on the way to the pipe |
| SocketConnecting.LostEvent | skynet-1.2.0/skynet-src/socket_server.c:1315-1320 | a run after which bytes are queued without a write event |
| SocketPriority.EveryPackage | skynet-1.2.0/skynet-src/socket_server.c:1574-1658 | in every run, every package that a thread sends is written by the thread or taken out of the pipe, exactly once, or is on its way |
| SocketPriority.PipeOrder | skynet-1.2.0/skynet-src/socket_server.c:1137-1173 | the socket thread takes packages out of the pipe in the order in which they were put in |
| SocketPriority.AcceptedExactly | skynet-1.2.0/skynet-src/socket_server.c:843-909 | the packages accepted are those sent, each by the route its priority and the lists ask for, in order; a socket that is closing takes none |
| SocketPriority.LowExactly | skynet-1.2.0/skynet-src/socket_server.c:862-893 | a package is appended to the low list exactly if it was sent with low priority and the lists were not both empty on a connected socket, and to the high list otherwise |
| SocketPriority.StepLast | skynet-1.2.0/skynet-src/socket_server.c:717-765 | a step that begins a low package has first begun every other package that was accepted |
| SocketPriority.LowWaits | skynet-1.2.0/skynet-src/socket_server.c:717-765 | so in every run no package sent with low priority and queued as low is begun while one accepted before by another route is unbegun |
| SocketPriority.Flushed | skynet-1.2.0/skynet-src/socket_server.c:717-793 | in every run, on an open connection one write event is enough to send all that is queued, package by package, if the kernel takes it |
| SnapshotRuns.Always | skynet-1.2.0/lualib-src/lua-stm.c:47-115 | in every run of any number of readers and writers, the lock counters and the counts of all copies agree with what the threads hold; what is published and read is said by `SnapshotCopies` |
| SnapshotRuns.AlwaysSafe | skynet-1.2.0/lualib-src/lua-stm.c:47-115 | no thread touches a freed copy, frees one twice, or fails the assertion that a copy it takes is referenced |
| SnapshotRuns.Exclusion | skynet-1.2.0/skynet-src/rwlock.h:17-48 | while a writer is inside, no reader and no other writer is |
| SnapshotRuns.CountExact | skynet-1.2.0/lualib-src/lua-stm.c:20-60 | a copy's count is the object's own reference plus those of all readers; a copy that does not exist is held by nobody |
| SnapshotCopies.EveryUpdate | skynet-1.2.0/lualib-src/lua-stm.c:106-115 | in every run, each update publishes its copy exactly once and in order, or is on its way |
| SnapshotCopies.PublishedLast | skynet-1.2.0/lualib-src/lua-stm.c:106-115 | the object's copy is the one published last, or the first one if there was none; none once the object is given up |
| SnapshotCopies.EveryRead | skynet-1.2.0/lualib-src/lua-stm.c:93-104 | each read passes through the lock exactly once, or is on its way |
| SnapshotCopies.ReadsCurrent | skynet-1.2.0/lualib-src/lua-stm.c:93-104 | a reader leaves the lock with the copy that is current at that moment, the one published last |
| SnapshotCopies.ComparesCurrent | skynet-1.2.0/lualib-src/lua-stm.c:205-219 | the copy that a reader compares with its last one is the one that was current when it left the lock |
| SnapshotCopies.KeepsLast | skynet-1.2.0/lualib-src/lua-stm.c:205-219 | a reader goes on with the copy it read last, and with none after it stops |
| Snapshot.EnterKeeps | skynet-1.2.0/skynet-src/rwlock.h:17-30 | a reader that has counted itself and sees no writer is inside, though counting and looking are two steps |
| Snapshot.DrainKeeps | skynet-1.2.0/skynet-src/rwlock.h:32-38 | a writer that sees no reader counted is alone inside |
| PoolQueue.Queue.InsertLast | rocketmqRouter/skpQueue.h:68-80 | appends the node to the sequence the list holds, in both directions of its links |
| PoolQueue.Queue.InsertNode | rocketmqRouter/skpQueue.h:82-95 | inserts the node behind another one |
| PoolQueue.Queue.Remove | rocketmqRouter/skpQueue.h:98-118 | removes the node and nothing else |
| PoolBlock.SplitValid | rocketmqRouter/skpMallocPoolEx.cpp:219-270 | serving a request keeps the block tiled, its two lists a partition of the chunks, no two free chunks adjacent, and every chunk as large as asked for |
| PoolBlock.SplitLive | rocketmqRouter/skpMallocPoolEx.cpp:219-270 | the chunk handed out joins the live ones, and no other changes |
| PoolBlock.ReleaseValid | rocketmqRouter/skpMallocPoolEx.cpp:338-427 | freeing with both coalescing loops keeps all of that |
| PoolBlock.ReleaseLive | rocketmqRouter/skpMallocPoolEx.cpp:338-427 | exactly the freed chunk leaves the live ones |
| PoolBlock.PayloadInside | rocketmqRouter/skpMallocPoolEx.cpp:99-138 | a live payload is inside its block and large enough |
| PoolBlock.PayloadsDisjoint | rocketmqRouter/skpMallocPoolEx.cpp:219-270 | two live chunks do not overlap |
| PoolBlock.AllFreed | rocketmqRouter/skpMallocPoolEx.cpp:338-427 | when everything has been freed, the block is one free chunk of its original size again |
| Pool.LiveDisjoint | rocketmqRouter/skpMallocPoolEx.cpp:207-335 | allocations that are in use at the same time, in blocks or large, do not overlap |
| Pool.EverythingFreed | rocketmqRouter/skpMallocPoolEx.cpp:338-427 | if nothing is in use, every block is one free chunk of its original size |
| Pool.MallocPool.DoMalloc | rocketmqRouter/skpMallocPoolEx.cpp:219-270 | succeeds exactly if the request fits a block and one has room or the system gives a new one; adds one allocation of the size asked for, disjoint from all others, and a block only if none had room; the recursion with mallocBlock ends |
| Pool.MallocPool.constructor | rocketmqRouter/skpMallocPoolEx.cpp:86-138 | a new pool is one free block of at least a page, which can serve every request that is not large |
| Pool.MallocPool.Malloc | rocketmqRouter/skpMallocPoolEx.cpp:207-217 | a request small enough for a block is served from a block if one has room or the system gives a new one, and the chunk is in use in some block; otherwise, and only then, it becomes a large allocation, exactly if the system gives memory for that; nothing is returned exactly if neither is possible |
| Pool.MallocPool.Free | rocketmqRouter/skpMallocPoolEx.cpp:338-427 | takes exactly the allocation at the pointer out of use, or leaves everything as it is |
| Des.FpIp | skynet-1.2.0/lualib-src/lua-crypt.c:204-228 | the final permutation undoes the initial one, for all 64 bits |
| Des.IpFp | skynet-1.2.0/lualib-src/lua-crypt.c:204-228 | and the other way round |
| Des.UndoRounds | skynet-1.2.0/lualib-src/lua-crypt.c:230-243 | running on with the reversed schedule walks the sixteen rounds back, for every round function |
| Des.CryptBack | skynet-1.2.0/lualib-src/lua-crypt.c:316-338 | decrypting an encrypted block gives it back, and the other way round, for every schedule and round function |
| Des.DesCrypt | skynet-1.2.0/lualib-src/lua-crypt.c:316-338 | the rounds on two words compute the specified block |
| Des.DesEncode | skynet-1.2.0/lualib-src/lua-crypt.c:366-399 | an encoded text is the padded text, block by block; any other key size than 8 is refused |
| Des.DesDecode | skynet-1.2.0/lualib-src/lua-crypt.c:401-439 | decoding gives a text exactly if the input is the encoding of that text; the error cases are told apart, and the one in which the scan leaves the buffer is characterised |
| Des.RoundTrip | skynet-1.2.0/lualib-src/lua-crypt.c:366-439 | every text of any length comes back under every key of eight bytes |
| DiffieHellman.MulModP | skynet-1.2.0/lualib-src/lua-crypt.c:714-737 | the product modulo P, in wrapping 64-bit words |
| DiffieHellman.PowModP | skynet-1.2.0/lualib-src/lua-crypt.c:739-750 | the power modulo P, by repeated squaring |
| DiffieHellman.Powmodp | skynet-1.2.0/lualib-src/lua-crypt.c:752-758 | right exactly unless the base is P and the exponent 1 |
| DiffieHellman.DhExchange | skynet-1.2.0/lualib-src/lua-crypt.c:792-810 | the public value is the power of 5, and it is never 0; a key of 0 is refused |
| DiffieHellman.NeverZero | skynet-1.2.0/lualib-src/lua-crypt.c:781-782 | no power of 5 is a multiple of P |
| DiffieHellman.Exchange | skynet-1.2.0/lualib-src/lua-crypt.c:775-810 | for all keys: unless one is 0, the guard of ldhsecret does not fire and both sides derive the same secret |
| LuaSeri.RoundTrip | skynet-1.2.0/lualib-src/lua-seri.c:142-553 | every nested value comes back from its bytes, whatever follows them, and none of what follows is used |
| LuaSeri.IntegerTrip | skynet-1.2.0/lualib-src/lua-seri.c:142-174 | every 64-bit integer comes back from the shortest of its forms |
| LuaSeriStream.AcceptedIff | skynet-1.2.0/lualib-src/lua-seri.c:297-341 | a value is packed exactly if it holds nothing unsupported and is nested at most 32 deep |
| LuaSeriStream.WriteBlock.Push | skynet-1.2.0/lualib-src/lua-seri.c:65-85 | appends the bytes to the content of the block chain, over any number of block boundaries |
| LuaSeriStream.WriteBlock.PackOne | skynet-1.2.0/lualib-src/lua-seri.c:297-341 | writes exactly the bytes of the value, or refuses it |
| LuaSeriStream.WriteBlock.Flatten | skynet-1.2.0/lualib-src/lua-seri.c:534-553 | the flattened buffer is the concatenation of all pushes |
| LuaSeriStream.ReadBlock.UnpackOne | skynet-1.2.0/lualib-src/lua-seri.c:523-532 | reads exactly what the format says, or fails where and as the format does: the stream is invalid, or a string's length makes the reader leave it |
| LuaSeriStream.ReadBlock.UnpackTable | skynet-1.2.0/lualib-src/lua-seri.c:434-465 | the same for tables, with their two loops |
| LuaSeriStream.Pack | skynet-1.2.0/lualib-src/lua-seri.c:599-612 | packs any number of values one behind the other, or none |
| LuaSeriStream.PackUnpack | skynet-1.2.0/lualib-src/lua-seri.c:555-612 | packing and unpacking gives the values back exactly if each is nested at most 32 deep |
| Netpack.FramesAppend | skynet-1.2.0/lualib-src/lua-netpack.c:227-307 | the frames of two pieces of a stream are those of the first piece and those of its remainder with the second |
| Netpack.PackFilter.FindUncomplete | skynet-1.2.0/lualib-src/lua-netpack.c:92-114 | finds and unlinks the socket's record, and no other |
| Netpack.PackFilter.SaveUncomplete | skynet-1.2.0/lualib-src/lua-netpack.c:169-180 | keeps the record, and disturbs no other |
| Netpack.PackFilter.ExpandQueue | skynet-1.2.0/lualib-src/lua-netpack.c:133-148 | doubles a full queue in order |
| Netpack.PackFilter.PushMore | skynet-1.2.0/lualib-src/lua-netpack.c:188-215 | queues the frames of the buffer and keeps its remainder |
| Netpack.PackFilter.FilterData | skynet-1.2.0/lualib-src/lua-netpack.c:227-307 | delivers the frames of what was kept together with the chunk, and keeps the remainder |
| Netpack.PackFilter.Feed | skynet-1.2.0/lualib-src/lua-netpack.c:92-307 | however the streams of any sockets are cut into chunks, the packets delivered for each are the frames of its concatenated bytes, in order, and the record is the remainder |
| ChainTable.SpliceValid | pbc-master/src/map.c:64-74 | a key spliced into a chain through its home slot can be found, all others too, and the table stands for the map with the new entry |
| ChainTable.FillValid | pbc-master/src/map.c:60-63 | the same for a key in its unused home slot |
| ChainTable.Reachable | pbc-master/src/map.c:86-107 | every key of the map is reached from its hash slot, and every chain ends |
| ChainTable.Acyclic | pbc-master/src/map.c:92-106 | following a chain never leads back to a slot |
| ChainTable.Search | pbc-master/src/map.c:92-106 | the search ends, and finds exactly the keys of the map |
| MapSi.Map.constructor | pbc-master/src/map.c:44-80 | the table stands for the rows it is made from |
| MapSi.Map.Query | pbc-master/src/map.c:86-107 | answers as the map does |
| MapIp.New | pbc-master/src/map.c:108-166 | the table stands for its rows, as an array exactly if all numbers are between 0 and twice their count |
| MapIp.Query | pbc-master/src/map.c:213-232 | the same answer from the array and the chained form |
| MapIp.Combine | pbc-master/src/map.c:178-211 | the table of both maps, whatever their forms |
| MapSp.Map.InsertHash | pbc-master/src/map.c:277-304 | adds the entry, through a rehash if the table is full |
| MapSp.Map.Rehash | pbc-master/src/map.c:306-322 | doubles the table and keeps its entries |
| MapSp.Map.QueryInsertHash | pbc-master/src/map.c:324-365 | gives the slot of the key, which is new with a null pointer or unchanged |
| MapSp.Map.Query | pbc-master/src/map.c:379-399 | answers as the map does |
| MapSp.VisitsAll | pbc-master/src/map.c:423-481 | going through the slots in order delivers every entry that is not null exactly once |
| MapSp.Map.Iterate | pbc-master/src/map.c:423-481 | so does a loop over _pbcM_sp_next, each step by a new search |
| Varints.DecodeEncode | pbc-master/src/varint.c:7-80 | every 64-bit number comes back from its encoding, whatever follows |
| Varints.Encode | pbc-master/src/varint.c:34-48 | writes the groups of the number, by both loops |
| Varints.Decode | pbc-master/src/varint.c:50-80 | the two words are those of the number, modulo 2^64; ten bytes without an end give zero |
| Varints.ZigzagIs | pbc-master/src/varint.c:89-94 | the bit formula numbers 0, -1, 1, -2, 2 and so on |
| Varints.DezigzagZigzag | pbc-master/src/varint.c:96-102 | dezigzag on two words undoes zigzag |
| Packed.RoundTrip | pbc-master/src/pattern.c:210-278 | reading the payload gives the list back exactly if the field type carries every value; int64, uint64 and sint64 always do |
| Packed.ParseBehind | pbc-master/src/pattern.c:217-226 | what lies behind the payload in memory does not matter, though the reader looks at it |
| Packed.UnpackPacked | pbc-master/src/pattern.c:210-278 | the loops compute the specified list, or -1 |
| Packed.WMessage.Expand | pbc-master/src/wmessage.c:64-79 | makes room by doubling and keeps the content |
| Packed.WMessage.PackVarint | pbc-master/src/wmessage.c:397-465 | whatever the guess: the old bytes, the varint of the payload's length, and the payload |

## Left out

- LPeg captures: a capture is transparent; the capture list, capture kinds, `lpcap.c`, ktable handling and run-time captures are not modelled.
- LpAnalysis.CheckAuxSound: the C analyses follow calls without a bound, and only `fixedlen` and `hascaptures` stop at cycles, by a mark on the call node; the model follows a budget of nested calls and then gives the least informative answer. All theorems hold for every budget; `LpBudget` says when an analysis stays within it, where its answer no longer depends on it.
- LpTheorem.CompileReturnsIff: memory and the C stack are unbounded; an analysis that follows calls for ever counts as one that does not return.
- LpTheorem.CompileAgrees: where the semantics has no answer, nothing is said of the machine; `LpTheorem.CompileExact` names the patterns for which it always has one.
- LpAnalysis.GetFirstSound: the part of getfirst that enters the bodies of not and look-behind only to find run-time captures does not change the first set and is left out here; `LpBudget.FirstEnds` follows it.
- LpLayout.GenGood: a charset is a set of bytes; its 32-byte buffer is one word and padding, so sizes are those of the C code but bit operations on charsets are not modelled.
- LpMatch.RunMachine: the backtrack stack is unbounded; its growth and its limit are not modelled.
- LpVerify.MatchTerminates: termination of a match is not equivalent to any condition of this kind, so it is stated in one direction; the two families of accepted grammars it excludes are shown not to terminate.
- LPeg tree builders and memory: patterns are values; flat node arrays, `realloccode` and the Lua API are not modelled.
- TimerWheel.Timer.AddNode: `|`, `>>` and `&` with masks are written as division and remainder; lists are sequences, so `link` and `link_clear` are not modelled as pointers; wall-clock time is not modelled.
- Mailbox.MessageQueue.Push: the integer width of `cap` is not modelled.
- SchedulerTheorem.ActFine: the handle table is a map that never uses a handle twice, so wrap-around of handles is not modelled; reserving the handle and setting `ctx->handle` are one step, because the handle cannot be grabbed before it is set; the global queue is a sequence.
- SchedulerTheorem.ActFine: `skynet_context_reserve`, `skynet_context_dispatchall`, monitors and profiling are left out; the error message of a drop function, and the FAILED message of a launch, at which the creator still has its reference, are sends that user code may do.
- SchedulerProgress.WorkerComes: that there is a way on, not that every fair run takes it: threads may be scheduled in any order, and a callback may run for ever.
- LpVerdict.VerifiedIff: for grammars that somewhere lose the flag only one half holds (`LpVerdict.RejectedHasChain`); the other fails for the family of `LpVerify.RepeatedSubgrammarAccepted`.
- SchedulerRuns.SafeExactly: what happens after an unsafe step is not modelled, because the C code does not define it.
- SocketProtocol.StepKeeps: one connection with one id; UDP, user objects, bound descriptors, polling and address resolution are left out, and `write` answers arbitrarily, so that bytes are written some day is not claimed, only that one write event can be enough (`SocketPriority.Flushed`). `send_buffer` and `send_socket` are one step each, so the unlocked check of a sender does not see states in the middle of them; it is checked again under the lock, in several steps.
- SocketConnecting.WaitsExact: a write event is taken to be possible at any time, also while it is off, so nothing is said about how long a lost event stays lost.
- SnapshotRuns.AlwaysSafe: the life of the `stm_object` itself is not modelled (`stm_grab`, `stm_releasereader`); there is one object, whose writers, of which the Lua interface makes only one, are never freed.
- Pool.MallocPool.Malloc: addresses and sizes are unbounded numbers, sizes not negative, header sizes those of a 64-bit build, and the system's memory a parameter; inside a block the lists are sequences; `clearLarge`, `reset`, `destroy` and the checks of header marks are not modelled.
- Des.CryptBack: the S-boxes and the key schedule are arbitrary; words are sequences of bits; a text's length is not limited to an `int`.
- DiffieHellman.Exchange: the other hashes of `lua-crypt.c` are not modelled.
- LuaSeri.RoundTrip: a table is the list of pairs its traversal yields; metamethods and the Lua stack are not modelled, floats and pointers are eight bytes; strings and tables are shorter than 2^31. That Lua turns a float key with an integer value into the integer, and that a nil value, which an iterator of `__pairs` may give, does not come back, is not modelled.
- LuaSeriStream.WriteBlock.Push: the chain of blocks is a sequence of arrays, not linked by pointers.
- Netpack.PackFilter.FilterData: descriptors are not negative; records and lists are values, and the Lua API around `lfilter` is not modelled.
- MapSp.Map.InsertHash: keys are inserted once, as everywhere in the library; an existing key inserted again would be hidden or hide the old one. `hash & (cap - 1)` is written as a remainder, the capacity being a power of two; `calc_hash` is any function.
- MapSi.Map.Query: a table made from no rows must not be asked, because the code divides by its size.
- MapIp.Combine: the maps have no number in common, as the numbers of a message's fields and extensions; with a shared one, which pointer stays depends on the form of the table.
- MapIp.New: rows have distinct numbers and pointers that are not null; the doubled size is not limited to an `int`.
- Packed.WMessage.PackVarint: the payload is shorter than 2^31; `_pack_packed_varint` of pattern.c, which does the same in a slice of fixed size, and the fixed-width fields are not modelled; the message is one buffer of bytes.
