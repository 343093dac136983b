# Verified models of skynet's core

Dafny models of the parts of skynet whose correctness is not visible from any single function, with
proofs that hold for every input and every run. `dafny verify dfyconfig.toml` checks everything.

| files | what they model |
|---|---|
| `PegTree`, `PegAnalysis`, `PegCharset`, `PegCode`, `PegVm`, `PegCorrect`, `PegPeephole`, `PegLayout`, `PegCompiler`, `PegBuild` | the LPeg pattern compiler and its virtual machine, without captures and grammars |
| `TimerWheel` | the hierarchical timer wheel |
| `SocketSend`, `SocketProgress`, `SocketClose` | one socket: concurrent sending with direct writes, its progress, and the closing protocol of a slot |
| `Scheduler`, `SchedulerProgress`, `MessageQueue`, `Rings` | the actor scheduler and its progress, the message queues and the global list |
| `HarborWire`, `Harbor`, `HarborLink` | the wire protocol between harbors |
| `DataBuffer`, `Gate` | the framing of client connections |
| `HandleStore`, `RwLock` | the handle and name tables and the lock that guards them |
| `LineInfo` | the line information codec of the Lua compiler and debugger |
| `RedBlackTree`, `RedBlackLinks` | the red-black tree of wepoll |
| `Prelude` | declarations that several models share |

## How the models are built

*LPeg.* `Eval` is a direct evaluator of parsing expressions. Class `CompileState` emits and patches
code as lpcode.c does; its methods are proved to append exactly the blocks of the functions in
`PegCode`, on which the reasoning is done. A block is compiled for a context: a follow set, the flag
`opt`, and a test that may already have succeeded. What it may do there is `Agrees`: it ends where
the pattern ends, or it fails although the pattern matches, but then the byte after the match is
outside the follow set, so nothing that may follow would accept it. The entry point uses the full
follow set, where that excuse is void. Code addresses count instruction slots, as sizei does, and a
label must lead to the start of an instruction. A failed C assertion is a stuck machine state. The
tree builders work on the flat array of cells.

*Timers.* A list of the wheel is a sequence. The invariant says what each of the 512 lists holds as
a function of the pending timers and the time: those that belong there, in the order added. Add,
detach and shift are atomic, as under the lock; a run interleaves adds with the steps of the timer
thread, whose place in timer_update is a phase.

*Concurrency.* `SocketSend`, `Scheduler` and `RwLock` are state machines over any number of threads.
In `RwLock` each read and atomic operation is a step. In `SocketSend` steps are the single reads of
can_direct_write, a lock operation with the accesses it guards, changes of the counter, pipe
operations and calls of write(); what the socket thread does to its lists in between belongs to the
step before. In `Scheduler` a region under one spinlock is a step; whatever a callback or a module
does inside is an activity of another thread, which only adds interleavings. The operating system's
answers (how much a write takes, what a poll reports) are chosen freely at each step.

*Progress.* Safety alone would also hold of programs that do nothing, so for each of these machines there
is a theorem that it can always go on: from every reachable state some continuation delivers everything
(`EverythingDelivered`), settles every accepted message and frees every retired service (`NothingStarves`,
`NothingLeaks`), or lets any thread have the lock (`NobodyShutOut`). The continuations let one thread after
the other take the steps of its own program; fairness of the real schedule is not modelled. What was
accepted or handed in is counted from the calls of the run, not from the machine's own record.

*Closing.* `SocketClose` follows one slot through all the ids it ever has, with the answers of the
system and of the data path as inputs. A step function gives, for each command and event, the slot,
the message raised, or the assertion that fails; class `SocketSlot` does the same field by field. An
event fetched for an earlier socket may meet a slot that another thread has reserved since. Then the
assertion in force_close fails, or the one in send_buffer_ that nothing is unsent, because force_close
leaves wb_size as it is: `StrayExactly` says exactly when, `ForceCloseFails` and `SendBufferFails`
give a run for each, and `CloseOnce` says that runs fail in no other way. So the promise that
SOCKET_CLOSE is raised once holds in every run, up to such a failure. Which steps raise which message is
stated in both directions (`GivesExactly`), so a run's log holds every message exactly as often as
something happened that calls for it (`RaisedAsOften`).

*Messages without a callback.* A worker frees a message silently when its service has set no callback.
`SomeUnheard` is a run in which that happens, `FateExactly` says that it happens only then, and
`AlwaysHeard` that a service which sets its callback while it is launched never loses a message.

*Harbor and gate.* `Parse` says what a byte stream contains, independently of its pieces; the
decoders are proved to have done, after any pieces, exactly what `Parse` says of their concatenation.
A frame shorter than the cookie makes the program read in front of its buffer, which is a state of
its own; no harbor sends such a frame.
A gate connection for which neither broker, agent nor watchdog is set does not consume the body of a
frame and then reads it as headers: `Gate.Serve` states that frames are forwarded exactly when a
receiver is set (or there are none). A client length of 2^31 or more is a negative int and stalls
the connection; the model keeps that.

*Handles.* The store is proved against two maps. After the last handle the search goes on with 1, so
slot 0 of the table may be passed over; the proof of termination takes that into account.

*Red-black tree.* `RedBlackTree` has the steps of the two repairs as functions on trees seen from a
position, with what they do to order, colours and heights. Class `Links` performs tree_add, tree_del
and tree_find on child, parent and colour fields, one assignment after the other; `Spells` says which
tree the fields spell out.

*Integers* are unbounded; where the program's width matters (uint32 time, 24-bit handles, 32-bit
sessions and words, signed bytes of line information, int lengths) it is written out.

## Model

| member | source | states |
|---|---|---|
| PegAnalysis.NullableSound | skynet/3rd/lpeg/lpcode.c:97-148 | a pattern that matches the empty string somewhere is nullable |
| PegAnalysis.NullableExactly | skynet/3rd/lpeg/lpcode.c:97-148 | nullable holds exactly when the pattern, its predicates taken to succeed, matches the empty subject |
| PegAnalysis.NullablePlain | skynet/3rd/lpeg/lpcode.c:97-148 | without predicates: nullable exactly when the pattern matches the empty subject |
| PegAnalysis.NoFailSound | skynet/3rd/lpeg/lpcode.c:97-148 | a nofail pattern matches at every position of every subject |
| PegAnalysis.NoFailExactly | skynet/3rd/lpeg/lpcode.c:97-148 | nofail holds exactly when the pattern, negations and look-behinds taken to fail, matches the empty subject |
| PegAnalysis.NoFailNullable | skynet/3rd/lpeg/lpcode.c:97-114 | nofail implies nullable, as the comment on checkaux says |
| PegAnalysis.FixedLenSound | skynet/3rd/lpeg/lpcode.c:155-194 | with fixed length n every match consumes exactly n bytes |
| PegAnalysis.FixedLenExactly | skynet/3rd/lpeg/lpcode.c:155-194 | a fixed length is found exactly when there is no loop outside predicates and all paths through the pattern are equally long, and it is that length |
| PegAnalysis.ToCharsetSound | skynet/3rd/lpeg/lpcset.c:75-100 | a pattern with a charset matches exactly one byte, one of that set |
| PegAnalysis.GetFirstSound | skynet/3rd/lpeg/lpcode.c:197-293 | a match that consumes, or consumes nothing before a byte of follow, starts with a byte of the first set |
| PegAnalysis.GetFirstAtEnd | skynet/3rd/lpeg/lpcode.c:197-293 | getfirst returning 0 means failure at the end of the subject |
| PegAnalysis.TestSound | skynet/3rd/lpeg/lpcode.c:604-631 | when the test on the first set fails, so does the pattern |
| PegAnalysis.NoFailFirst | skynet/3rd/lpeg/lpcode.c:197-293 | a nofail pattern followed by anything has the full first set and a non-zero getfirst result |
| PegAnalysis.HeadFailSound | skynet/3rd/lpeg/lpcode.c:296-322 | a headfail pattern succeeds exactly when the next byte is in its first set, and getfirst returns 0 for it |
| PegTree.Eval | skynet/3rd/lpeg/lpvm.c:230-388 | the reference meaning of a pattern: a match ends between its start and the end of the subject |
| PegCharset.CharsetType | skynet/3rd/lpeg/lpcset.c:9-56 | classifies a 256-bit set exactly: empty, all, one character, or regular with the compact range of bytes |
| PegCharset.CompactRepresents | skynet/3rd/lpeg/lpcset.c:23-56 | outside the kept range every byte of the set is the default |
| PegCharset.CompactShortest | skynet/3rd/lpeg/lpcset.c:24-57 | no shorter range of bytes with a default represents the set |
| PegCharset.SingleByte | skynet/3rd/lpeg/lpcset.c:9-20 | onlybit finds the one character of a one-byte set; two bits are never taken for one |
| PegCharset.AddCharset | skynet/3rd/lpeg/lpcode.c:551-564 | the instruction form, padded with the default, answers membership as the 256-bit set does |
| PegCharset.CharInSetSound | skynet/3rd/lpeg/lpvm.c:26-33 | charinset on the instruction form equals the bit test on the full set, for all 256 characters |
| PegCharset.ToBits | skynet/3rd/lpeg/lpcset.c:75-100 | tocharset of a TSet node rebuilds exactly the set that newcharset compacted |
| PegCharset.InstrFormSound | skynet/3rd/lpeg/lpcode.c:551-564 | the instruction form of a set of bytes answers membership in it |
| PegCharset.CsEqualSound | skynet/3rd/lpeg/lpcode.c:570-585 | cs_equal, which compares compact forms, decides equality of the sets |
| PegBuild.NewCharset | skynet/3rd/lpeg/lptree.c:378-406 | the tree for a set has that set; TSet is used exactly when the set is neither empty, full nor a singleton |
| PegBuild.LpSeq | skynet/3rd/lpeg/lptree.c:551-566 | the simplified sequence means the same as the plain one at every position of every subject, and is simplified exactly where the rules say |
| PegBuild.LpChoice | skynet/3rd/lpeg/lptree.c:569-590 | the simplified choice, charset union included, means the same as the plain one, and is simplified exactly where the rules say |
| PegBuild.LpSub | skynet/3rd/lpeg/lptree.c:647-670 | t1 - t2, charset difference included, means Seq (Not t2) t1, and is that tree unless both are charsets |
| PegBuild.LpBehind | skynet/3rd/lpeg/lptree.c:760-770 | accepts exactly the patterns without loops whose paths have one length, at most MAXBEHIND, and records that length |
| PegBuild.StarMeans | skynet/3rd/lpeg/lptree.c:593-608 | p^n matches p n times in a row and then as often as possible |
| PegBuild.AtMostMeans | skynet/3rd/lpeg/lptree.c:609-623 | p^-n matches p as often as possible but at most n times |
| PegBuild.LpStar | skynet/3rd/lpeg/lptree.c:596-608 | refuses exactly the bodies that match the empty subject when their predicates are taken to succeed; otherwise fills an array of (n+1)*(size+1) cells with exactly the cells of a well-formed tree |
| PegBuild.LpAtMost | skynet/3rd/lpeg/lptree.c:609-623 | fills an array of n*(size+3)-1 cells with exactly the cells of the nested choices |
| PegBuild.StarSize | skynet/3rd/lpeg/lptree.c:596-608 | the cell count computed for p^n is the size of its tree, and the tree is well formed |
| PegBuild.AtMostSize | skynet/3rd/lpeg/lptree.c:609-623 | the cell count computed for p^-n is the size of its tree |
| PegBuild.TurnInPlace | skynet/3rd/lpeg/lptree.c:78-86 | one round of the loop turns Op (Op a b) c into Op a (Op b c) inside the flat array and touches no other cell |
| PegBuild.CorrectAssociativity | skynet/3rd/lpeg/lptree.c:75-87 | in place, terminating: the cells then hold the fully rotated tree |
| PegBuild.RotateMeans | skynet/3rd/lpeg/lptree.c:68-87 | rotation changes no outcome |
| PegBuild.FinalFix | skynet/3rd/lpeg/lptree.c:97-123 | recursion over the flat array yields the cells of the right-associated tree |
| PegBuild.FixMeans | skynet/3rd/lpeg/lptree.c:90-123 | right association of a whole tree changes no outcome |
| PegBuild.FixRight | skynet/3rd/lpeg/lptree.c:90-123 | afterwards no sequence starts with a sequence and no choice with a choice |
| PegBuild.FixChecks | skynet/3rd/lpeg/lptree.c:90-123 | nullability, fixed length and well-formedness are unchanged |
| PegBuild.ReadCells | skynet/3rd/lpeg/lptree.h:43-63 | whatever follows them, the cells of a tree lead back to that tree by sib1 and sib2 |
| PegBuild.InitPosition | skynet/3rd/lpeg/lptree.c:1229-1241 | a position counts from 1, or from the end when not positive, and is cropped to the subject |
| PegBuild.PrepareAndMatch | skynet/3rd/lpeg/lptree.c:1193-1266 | from the array as built: fixed in place, read, compiled, optimised and run from the initial position, the outcome is the meaning of the tree as built |
| PegVm.SpanEnd | skynet/3rd/lpeg/lpvm.c:337-344 | the scan of ISpan stops at the first byte outside the set or at the end |
| PegVm.StepsAdd | skynet/3rd/lpeg/lpvm.c:241-250 | runs of the machine compose |
| PegCorrect.GenAgrees | skynet/3rd/lpeg/lpcode.c:954-980 | the contextual theorem: for any code around the block, any stack, any opt and any dominating test, the block ends like the pattern, or fails where the pattern matches before a byte outside follow |
| PegCorrect.LeafAgrees | skynet/3rd/lpeg/lpcode.c:539-600 | single-character code agrees, also when a dominating test makes it IAny |
| PegCorrect.SeqAgrees | skynet/3rd/lpeg/lpcode.c:934-946 | a sequence agrees when its first part is compiled with the first set of the second as follow |
| PegCorrect.ChoiceByTestAgrees | skynet/3rd/lpeg/lpcode.c:673-689 | choice compiled to a test and a jump agrees: failing after the test skips p2 only where p2 would not have matched or the continuation fails |
| PegCorrect.ChoiceInOptionalAgrees | skynet/3rd/lpeg/lpcode.c:690-694 | p / true under an enclosing choice, compiled with a partial commit, agrees |
| PegCorrect.ChoiceAgrees | skynet/3rd/lpeg/lpcode.c:695-707 | choice compiled with a backtrack entry agrees, with or without a test in front |
| PegCorrect.RepCharsetAgrees | skynet/3rd/lpeg/lpcode.c:779-803 | repetition of a charset by ISpan or a test loop agrees |
| PegCorrect.RepByTestAgrees | skynet/3rd/lpeg/lpcode.c:822-827 | repetition compiled as test and jump agrees |
| PegCorrect.RepAgrees | skynet/3rd/lpeg/lpcode.c:828-844 | repetition compiled with partial commits agrees |
| PegCorrect.NotAgrees | skynet/3rd/lpeg/lpcode.c:856-870 | !p agrees in both of its forms |
| PegCorrect.AndAgrees | skynet/3rd/lpeg/lpcode.c:716-732 | &p agrees, both as p; behind n and with back commit |
| PegCorrect.BehindAgrees | skynet/3rd/lpeg/lpcode.c:652-659 | look-behind agrees, including a start too close to the beginning of the subject |
| PegCorrect.CompileCorrect | skynet/3rd/lpeg/lpcode.c:1038-1047 | for every well-formed tree, subject and start the code before optimisation halts with the outcome of direct evaluation |
| PegPeephole.Simulates | skynet/3rd/lpeg/lpcode.c:992-1031 | after one rewrite every halting run of the old code is matched by the new code from any related state |
| PegPeephole.RewriteRefines | skynet/3rd/lpeg/lpcode.c:992-1031 | one rewrite keeps every outcome |
| PegPeephole.RefinesTrans | skynet/3rd/lpeg/lpcode.c:992-1031 | rewrites compose |
| PegLayout.GenParses | skynet/3rd/lpeg/lpcode.c:358-381 | generated code splits into instructions with no operand slot taken for an opcode |
| PegLayout.GenLabelsOk | skynet/3rd/lpeg/lpcode.c:484-532 | every label leads to the start of an instruction of the block or to its end |
| PegLayout.CompileOk | skynet/3rd/lpeg/lpcode.c:1038-1047 | a compiled program is well laid out |
| PegCompiler.FinalTarget | skynet/3rd/lpeg/lpcode.c:637-641 | ends on a non-jump reached by following jumps; needs that chains of jumps do not cycle, which compiled code guarantees |
| PegCompiler.CompileState.AddInstruction | skynet/3rd/lpeg/lpcode.c:445-467 | appends one instruction and returns its position |
| PegCompiler.CompileState.JumpToThere | skynet/3rd/lpeg/lpcode.c:521-524 | patches the offset of one instruction and changes nothing else |
| PegCompiler.CompileState.JumpToHere | skynet/3rd/lpeg/lpcode.c:530-532 | patches an offset to the end of the code |
| PegCompiler.CompileState.CodeTestSet | skynet/3rd/lpeg/lpcode.c:610-631 | emits the test for a set, and nothing when e is set |
| PegCompiler.CompileState.CodeGen | skynet/3rd/lpeg/lpcode.c:954-980 | appends exactly the block the generator function describes |
| PegCompiler.CompileState.CodeLeaf | skynet/3rd/lpeg/lpcode.c:539-600 | the same for single characters, sets, true and fail, with IAny under a dominating test |
| PegCompiler.CompileState.CodeSeq | skynet/3rd/lpeg/lpcode.c:934-946 | the same for sequences, passing on test and follow |
| PegCompiler.CompileState.CodeChoice | skynet/3rd/lpeg/lpcode.c:673-708 | the same for choices, all three forms |
| PegCompiler.CompileState.CodeRepCharset | skynet/3rd/lpeg/lpcode.c:779-803 | the same for repetitions of a charset; reports whether it applied |
| PegCompiler.CompileState.CodeRep | skynet/3rd/lpeg/lpcode.c:817-846 | the same for other repetitions |
| PegCompiler.CompileState.CodeNot | skynet/3rd/lpeg/lpcode.c:856-870 | the same for !p |
| PegCompiler.CompileState.CodeAnd | skynet/3rd/lpeg/lpcode.c:716-732 | the same for &p |
| PegCompiler.CompileState.CodeBehind | skynet/3rd/lpeg/lpcode.c:655-659 | the same for look-behind |
| PegCompiler.CompileState.OptimizeLabel | skynet/3rd/lpeg/lpcode.c:998-1003 | one label is moved to its final target and the code keeps its outcomes |
| PegCompiler.CompileState.PeepholeJump | skynet/3rd/lpeg/lpcode.c:1004-1026 | a jump becomes a copy of the return, commit or fail it leads to, or goes straight to the end of its chain |
| PegCompiler.CompileState.Peephole | skynet/3rd/lpeg/lpcode.c:992-1031 | the whole pass keeps every outcome and terminates; afterwards no label leads to a jump, and no jump to an instruction that could stand in its place |
| PegCompiler.CompileState.Compile | skynet/3rd/lpeg/lpcode.c:1038-1047 | compiled and optimised code halts with the outcome of direct evaluation, for every subject and start, and is straightened as Peephole says |
| PegCompiler.ExecOne | skynet/3rd/lpeg/lpvm.c:250-388 | one round of the machine's loop equals one step of the model machine |
| PegCompiler.Interpret | skynet/3rd/lpeg/lpvm.c:230-388 | the loop ends and returns the outcome |
| PegCompiler.CompileAndMatch | skynet/3rd/lpeg/lptree.c:1247-1266 | compile and run equals direct evaluation for every well-formed tree, subject and start |
| TimerWheel.PlaceOfIsPlace | skynet/skynet-src/skynet_timer.c:67-86 | add_node always finds a list that exists |
| TimerWheel.FindPlace | skynet/skynet-src/skynet_timer.c:67-86 | the mask loop finds the place that is a function of (expire, T->time) alone |
| TimerWheel.NoCascade | skynet/skynet-src/skynet_timer.c:112-132 | a tick that does not cascade a timer's list leaves its place unchanged |
| TimerWheel.Cascade | skynet/skynet-src/skynet_timer.c:112-132 | timers in the cascaded list, and only they, get a new and lower place |
| TimerWheel.CascadeLists | skynet/skynet-src/skynet_timer.c:102-132 | one move_list turns each list into the pending timers that now belong there, in the order added |
| TimerWheel.SlotZeroUnused | skynet/skynet-src/skynet_timer.c:112-132 | no timer is ever placed in slot 0 of levels 0 to 2 |
| TimerWheel.FiredExactly | skynet/skynet-src/skynet_timer.c:152-178 | after m ticks the fired timers and the pending ones with later deadlines are together exactly the timers added |
| TimerWheel.FiredSorted | skynet/skynet-src/skynet_timer.c:152-178 | timers fire in order of deadline |
| TimerWheel.FiredInOrder | skynet/skynet-src/skynet_timer.c:152-178 | of the fired timers those of one deadline are the ones added with it, in the order added |
| TimerWheel.Wheel.constructor | skynet/skynet-src/skynet_timer.c:180-202 | the empty wheel holds the empty bag |
| TimerWheel.Wheel.Link | skynet/skynet-src/skynet_timer.c:60-65 | appends to one list and leaves the others alone |
| TimerWheel.Wheel.LinkClear | skynet/skynet-src/skynet_timer.c:51-58 | empties one list and returns it |
| TimerWheel.Wheel.AddNode | skynet/skynet-src/skynet_timer.c:67-86 | appends the node to the list of its place |
| TimerWheel.Wheel.TimerAdd | skynet/skynet-src/skynet_timer.c:88-99 | adds one timer for this event with deadline now + delay, across uint32 wrap-around, for 1 <= delay < 2^31 |
| TimerWheel.Wheel.Timeout | skynet/skynet-src/skynet_timer.c:204-224 | a delay <= 0 is answered at once to that handle and session, any other is added for them |
| TimerWheel.Wheel.MoveList | skynet/skynet-src/skynet_timer.c:101-109 | every node of the list goes to its new place, order kept |
| TimerWheel.Wheel.ShiftLevel | skynet/skynet-src/skynet_timer.c:118-130 | finds the level whose slot changes; the mask never passes 2^26 |
| TimerWheel.Wheel.SlotZeroEmpty | skynet/skynet-src/skynet_timer.c:118-130 | slot 0 of levels 0 to 2 is empty in every valid wheel, so skipping it loses nothing |
| TimerWheel.Wheel.CascadeNow | skynet/skynet-src/skynet_timer.c:111-132 | after the clock advanced and at most one list was moved, every list again holds exactly its timers |
| TimerWheel.Wheel.TimerShift | skynet/skynet-src/skynet_timer.c:111-132 | advances time by one, wrapping, and re-establishes the invariant |
| TimerWheel.Wheel.Detach | skynet/skynet-src/skynet_timer.c:152-163 | takes exactly the pending timers whose deadline is now |
| TimerWheel.Wheel.TimerExecute | skynet/skynet-src/skynet_timer.c:152-163 | fires the timers due now, in the order added |
| TimerWheel.Wheel.TimerUpdate | skynet/skynet-src/skynet_timer.c:165-178 | one tick fires nothing first when the last tick is complete, and then exactly the timers due at the new time, each node with its timer's event and deadline |
| TimerWheel.Wheel.UpdateStep | skynet/skynet-src/skynet_timer.c:152-178 | one step of the timer thread under the lock: detach what is due, shift, or end the update |
| TimerWheel.ClockedOk | skynet/skynet-src/skynet_timer.c:165-178 | between two updates everything due is dispatched; during one at most the present tick is open |
| TimerWheel.UpdateBegins | skynet/skynet-src/skynet_timer.c:165-178 | whatever was added meanwhile, the next update advances the clock by one |
| TimerWheel.UpdateEnds | skynet/skynet-src/skynet_timer.c:152-178 | whatever other threads add meanwhile, an update ends within two steps after its shift |
| TimerWheel.AllFire | skynet/skynet-src/skynet_timer.c:165-178 | three steps of the timer thread see a tick done, so every timer fires after enough of them |
| TimerWheel.Replay | skynet/skynet-src/skynet_timer.c:67-224 | every interleaving of adds with the detach and shift steps of the timer thread: after each step exactly the timers due so far have fired, each once, for its own handle and session, in the tick of its deadline, equal deadlines in order of addition |
| SocketSend.StepOk | skynet/skynet-src/socket_server.c:726-1090 | every step of senders and socket thread keeps the invariant |
| SocketSend.CheckOk | skynet/skynet-src/socket_server.c:1874-1877 | the reads of can_direct_write, one at a time, keep the invariant |
| SocketSend.TryLockOk | skynet/skynet-src/socket_server.c:1892-1894 | trylock, and the retreat to the pipe when it fails |
| SocketSend.DirectWriteOk | skynet/skynet-src/socket_server.c:1897-1919 | a direct write of any prefix |
| SocketSend.StoreOk | skynet/skynet-src/socket_server.c:1923-1927 | the rest of a direct write goes to dw_buffer |
| SocketSend.WakeOk | skynet/skynet-src/socket_server.c:1929-1938 | the W request |
| SocketSend.IncOk | skynet/skynet-src/socket_server.c:1365-1385 | the in-flight counter goes up before the package is in the pipe |
| SocketSend.PushOk | skynet/skynet-src/socket_server.c:1943-1974 | the D or P request |
| SocketSend.CommandOk | skynet/skynet-src/socket_server.c:961-1090 | the socket thread appends a package to a list, the high one when both are empty |
| SocketSend.DecOk | skynet/skynet-src/socket_server.c:1387-1395 | the counter goes down; its assertion holds |
| SocketSend.WritableOk | skynet/skynet-src/socket_server.c:933-959 | send_buffer, which puts the direct-write buffer in front of the high list, keeps the invariant |
| SocketSend.WriteOk | skynet/skynet-src/socket_server.c:726-931 | one write of any prefix in send_list_tcp, with raise_uncomplete when a low package is cut |
| SocketSend.SendSafe | skynet/skynet-src/socket_server.c:726-1090 | over every interleaving the bytes written are the whole packages sent and at most a proper prefix of the next one in line, which is that sender's next; each sender's packages of one priority appear in send order, none lost or duplicated |
| SocketSend.AllDelivered | skynet/skynet-src/socket_server.c:726-1090 | when everything is idle every package handed in has been written completely |
| SocketSend.AssertionsHold | skynet/skynet-src/socket_server.c:833-979 | wb_size is the unsent bytes of the lists, the low head is never partly sent when send_buffer_ starts, raise_uncomplete finds high empty, a direct-write buffer excludes partly sent packages |
| SocketSend.WritesAlone | skynet/skynet-src/socket_server.c:1874-1919 | a sender that writes directly owns the lock, there is no direct-write buffer, nothing queued is partly sent, and no high-priority package of its own is on its way |
| SocketSend.NothingStranded | skynet/skynet-src/socket_server.c:905-914 | data in the lists has the poller watching, data in the direct-write buffer has it watching or a wake-up on its way, and the socket thread is then able to go on |
| SocketProgress.WritesNext | skynet/skynet-src/socket_server.c:872-959 | in every reachable state in which something waits and the poller reports the socket, send_buffer and a write of k bytes append exactly the next k bytes of the first buffer in line |
| SocketProgress.EverythingDelivered | skynet/skynet-src/socket_server.c:726-1090 | from every reachable state the threads can go on, without a new package, until everything handed in is on the wire, completely, once and in order |
| SocketProgress.BegunIsHandedIn | skynet/skynet-src/socket_server.c:1878-1974 | what the model counts as handed in is exactly what the calls of the run handed in |
| SocketProgress.CommandPlaces | skynet/skynet-src/socket_server.c:1020-1090 | a package goes behind the high list when it has high priority or nothing waits, else behind the low list; writing is enabled when nothing waited |
| SocketProgress.WritesDirectly | skynet/skynet-src/socket_server.c:1874-1919 | with nothing waiting and nobody under way a high-priority package is written by its sender, any prefix of it |
| SocketClose.SocketSlot.ForceClose | skynet/skynet-src/socket_server.c:490-521 | the slot becomes INVALID and keeps its unsent count; a reserved slot fails the assertion |
| SocketClose.SocketSlot.CloseRead | skynet/skynet-src/socket_server.c:1140-1150 | type HALFCLOSE_READ, reading disabled |
| SocketClose.SocketSlot.CloseWrite | skynet/skynet-src/socket_server.c:703-724 | closes after SOCKET_CLOSE, otherwise HALFCLOSE_WRITE with one SOCKET_ERR |
| SocketClose.SocketSlot.SendBuffer | skynet/skynet-src/socket_server.c:872-959 | a closing socket whose lists are drained, or whose write fails, becomes INVALID without a message; a reserved slot with bytes unsent fails the assertion of step 4 |
| SocketClose.SocketSlot.ForwardTcp | skynet/skynet-src/socket_server.c:1460-1521 | SOCKET_DATA exactly for data before HALFCLOSE_READ; SOCKET_CLOSE exactly for end of file before it |
| SocketClose.SocketSlot.ForwardUdp | skynet/skynet-src/socket_server.c:1541-1580 | closes on a hard error only |
| SocketClose.SocketSlot.ReportConnect | skynet/skynet-src/socket_server.c:1582-1616 | SOCKET_OPEN with CONNECTED, or SOCKET_ERR with INVALID |
| SocketClose.SocketSlot.ReserveSlot | skynet/skynet-src/socket_server.c:355-381 | takes the slot for a new id only when it is INVALID |
| SocketClose.SocketSlot.NewFd | skynet/skynet-src/socket_server.c:568-599 | the fields of an opened socket; INVALID when the poller refuses, before or after they are set |
| SocketClose.SocketSlot.OpenSlot | skynet/skynet-src/socket_server.c:614-692 | the type and message of each outcome of open, listen, bind and udp requests; new_fd's assertion fails exactly when the slot is no longer reserved |
| SocketClose.SocketSlot.AcceptHere | skynet/skynet-src/socket_server.c:1659-1675 | an accepted connection starts as PACCEPT |
| SocketClose.SocketSlot.ResumeSocket | skynet/skynet-src/socket_server.c:1208-1245 | opens PACCEPT and PLISTEN sockets and never revives one in HALFCLOSE_READ |
| SocketClose.SocketSlot.PauseSocket | skynet/skynet-src/socket_server.c:1247-1258 | switches reading off and changes no type |
| SocketClose.SocketSlot.CloseSocket | skynet/skynet-src/socket_server.c:1157-1189 | raises SOCKET_CLOSE exactly when the id is alive and not in HALFCLOSE_READ; a reserved slot that would be closed fails the assertion |
| SocketClose.SocketSlot.SendSocket | skynet/skynet-src/socket_server.c:1020-1090 | counts the bytes of a package that is kept and changes no type |
| SocketClose.SocketSlot.Trigger | skynet/skynet-src/socket_server.c:1001-1011 | switches writing on |
| SocketClose.SocketSlot.ServeCommand | skynet/skynet-src/socket_server.c:1686-1723 | a command, and then the entry of a socket that is gone is dropped |
| SocketClose.SocketSlot.ServeFlags | skynet/skynet-src/socket_server.c:1765-1815 | the flags of an entry, in their order; more data or a write flag keep the entry |
| SocketClose.SocketSlot.ServeEntry | skynet/skynet-src/socket_server.c:1744-1817 | one entry of the event array, by the type of the slot |
| SocketClose.SocketSlot.Step | skynet/skynet-src/socket_server.c:1398-1458 | every command and event leaves the slot, message and failure of the step function |
| SocketClose.StrayExactly | skynet/skynet-src/socket_server.c:1744-1817 | an entry fails an assertion exactly when it was fetched for an earlier socket, meets a reserved slot, and would close it or finds bytes unsent after draining |
| SocketClose.FailsExactly | skynet/skynet-src/socket_server.c:490-521 | all failing steps: such an entry, a close request that closes a reserved slot, an opening request whose slot is not reserved |
| SocketClose.GivesExactly | skynet/skynet-src/socket_server.c:1398-1458 | for every kind of message but warnings: the states and events that raise it, both directions |
| SocketClose.MovesOk | skynet/skynet-src/socket_server.c:1398-1458 | every step that keeps the id moves the type only as the protocol allows: HALFCLOSE_READ is left only for INVALID and entered only with SOCKET_CLOSE; a connected TCP slot turns INVALID only with SOCKET_CLOSE; SOCKET_DATA and SOCKET_CLOSE come only from live slots not in HALFCLOSE_READ |
| SocketClose.StepOk | skynet/skynet-src/socket_server.c:1157-1161 | every step keeps the invariant of the run |
| SocketClose.CloseOnce | skynet/skynet-src/socket_server.c:1157-1161 | over every run: SOCKET_CLOSE at most once per id and no SOCKET_DATA after it; every TCP id a service was told of has raised it unless it is the slot's present id and alive; the run stops early exactly at an entry that meets a reserved slot in the way StrayExactly describes |
| SocketClose.RaisedAsOften | skynet/skynet-src/socket_server.c:1744-1817 | over every run: as many SOCKET_DATA for an id as read entries with data before its end of file, and likewise SOCKET_CLOSE for the first end of file or close request, SOCKET_OPEN for a completed connect, opening or resume, and the other kinds |
| SocketClose.ForceCloseFails | skynet/skynet-src/socket_server.c:490-501 | a run at whose end the assertion of force_close fails |
| SocketClose.SendBufferFails | skynet/skynet-src/socket_server.c:872-907 | a run at whose end the assertion of send_buffer_ on wb_size fails |
| SocketClose.Serve | skynet/skynet-src/socket_server.c:1157-1161 | the thread serving one slot raises exactly the messages of the run, each as often as RaisedAsOften says, handles as many events, and so everything CloseOnce says holds of its log |
| Rings.RingAt | skynet/skynet-src/skynet_mq.c:175-187 | the k-th element of a circular buffer is k places after the head modulo the capacity |
| MessageQueue.Threshold | skynet/skynet-src/skynet_mq.c:156-159 | the overload threshold doubled as often as needed: the first of its doublings not below the length |
| MessageQueue.Queue.Overload | skynet/skynet-src/skynet_mq.c:127-135 | an overload warning is given once |
| MessageQueue.Queue.constructor | skynet/skynet-src/skynet_mq.c:77-96 | an empty queue marked as in the global list |
| MessageQueue.Queue.Length | skynet/skynet-src/skynet_mq.c:111-125 | the number of queued messages, across wrap-around |
| MessageQueue.Queue.Pop | skynet/skynet-src/skynet_mq.c:137-172 | takes the oldest message; on an empty queue clears in_global and resets the threshold |
| MessageQueue.Queue.Expand | skynet/skynet-src/skynet_mq.c:174-187 | doubles the buffer and keeps the messages in order |
| MessageQueue.Queue.Store | skynet/skynet-src/skynet_mq.c:194-201 | appends one message, expanding a full buffer |
| MessageQueue.Queue.Drop | skynet/skynet-src/skynet_mq.c:230-237 | returns every message in order and leaves none |
| MessageQueue.GlobalQueue.Push | skynet/skynet-src/skynet_mq.c:43-56 | appends to the linked list; needs next == NULL and absence from the list |
| MessageQueue.GlobalQueue.Pop | skynet/skynet-src/skynet_mq.c:58-75 | takes the first; its assertion holds and its next is NULL afterwards |
| MessageQueue.MqPush | skynet/skynet-src/skynet_mq.c:189-209 | appends the message and schedules the queue exactly when it was not |
| MessageQueue.MarkRelease | skynet/skynet-src/skynet_mq.c:219-228 | marks the queue and schedules it when it was not |
| MessageQueue.MqRelease | skynet/skynet-src/skynet_mq.c:239-250 | drops everything once marked, otherwise reschedules |
| MessageQueue.Replay | skynet/skynet-src/skynet_mq.c:111-209 | every run of pushes and pops equals the same run on a plain sequence, the reported length included |
| Scheduler.LaunchFits | skynet/skynet-src/skynet_server.c:134-162 | registering a context with its queue fits the invariant |
| Scheduler.PublishingOk | skynet/skynet-src/skynet_server.c:163-167 | the successful launch puts the queue into the global list |
| Scheduler.NotLaunchedOk | skynet/skynet-src/skynet_server.c:169-172 | the failing launch gives up its reference first |
| Scheduler.RetiringOk | skynet/skynet-src/skynet_server.c:173-175 | then retires the handle |
| Scheduler.MqReleasingOk | skynet/skynet-src/skynet_mq.c:239-250 | a released queue is dropped by the thread that holds it |
| Scheduler.MqNotReleasingOk | skynet/skynet-src/skynet_mq.c:239-250 | a queue whose context is still in use goes back to the list |
| Scheduler.SendOk | skynet/skynet-src/skynet_server.c:224-234 | grabbing the destination |
| Scheduler.PushingFirstOk | skynet/skynet-src/skynet_mq.c:189-209 | a push onto an unscheduled queue schedules it |
| Scheduler.ReleasingLastOk | skynet/skynet-src/skynet_server.c:217-222 | the last release deletes the context, once |
| Scheduler.DeletingFirstOk | skynet/skynet-src/skynet_mq.c:219-228 | mark_release of an unscheduled queue schedules it; release was 0 before |
| Scheduler.FreeingOk | skynet/skynet-src/skynet_mq.c:98-104 | only an empty queue outside the list is freed, once |
| Scheduler.ReplyingOk | skynet/skynet-src/skynet_server.c:114-122 | a dropped message is answered with one PTYPE_ERROR |
| Scheduler.TakeOk | skynet/skynet-src/skynet_server.c:312-319 | a worker pops from a queue it holds alone |
| Scheduler.EmptiedOk | skynet/skynet-src/skynet_server.c:313-315 | an emptied queue is given up before its context |
| Scheduler.ReadyOk | skynet/skynet-src/skynet_server.c:255-280 | the message in hand goes to the callback if one is set, and then the context is initialised; otherwise it is freed |
| Scheduler.SetCallbackOk | skynet/skynet-src/skynet_server.c:786-790 | skynet_callback from the module's init or from the callback |
| Scheduler.PushBackOk | skynet/skynet-src/skynet_server.c:336-346 | the queue goes back when another was found |
| Scheduler.StepOk | skynet/skynet-src/skynet_server.c:292-347 | every step of every activity keeps the invariant |
| Scheduler.SchedulerSafe | skynet/skynet-src/skynet_server.c:292-347 | in every reachable state no assertion has failed, each queue is in at most one place, a non-empty queue is scheduled, no service runs on two threads, nothing freed is used |
| Scheduler.MessagesOnce | skynet/skynet-src/skynet_server.c:114-122 | the k-th accepted message is the k-th one done with; the others are in a worker's hand or queued, in push order; drops come last and the replies answer them one by one, each with source and session |
| Scheduler.RegisteredExactly | skynet/skynet-src/skynet_server.c:145-155 | a service is in the handle table from its launch to the first retirement |
| Scheduler.AcceptedIsPushed | skynet/skynet-src/skynet_mq.c:189-209 | what a queue accepted is exactly the messages pushed onto it, in the order of the pushes |
| Scheduler.SentIsAccepted | skynet/skynet-src/skynet_server.c:224-234 | counted from the calls of the run alone: every message sent to a registered service is accepted by its queue or about to be pushed, and nothing else is accepted |
| Scheduler.BatchSize | skynet/skynet-src/skynet_server.c:316-318 | after the first pop the batch is the remaining length divided by 2^weight, and one message for a negative weight |
| Scheduler.CallbackExactly | skynet/skynet-src/skynet_server.c:786-790 | a service has a callback exactly when the last call of skynet_callback for it set one |
| Scheduler.FateExactly | skynet/skynet-src/skynet_server.c:312-334 | a message goes unheard exactly when no callback is set at its hand-over, is handed over exactly when one is, and is dropped exactly by the release of its queue |
| Scheduler.FateStays | skynet/skynet-src/skynet_server.c:312-334 | and every hand-over or drop leaves that fate for the rest of the run |
| Scheduler.AlwaysHeard | skynet/skynet-src/skynet_server.c:312-334 | a service launched with its callback set that never clears it has only handed-over and dropped messages |
| Scheduler.SomeUnheard | skynet/skynet-src/skynet_server.c:327-331 | a service whose module sets no callback: a run in which a message sent to it vanishes without a reply |
| Scheduler.RunGrows | skynet/skynet-src/skynet_server.c:292-347 | what was accepted or done is never taken back later in the run |
| SchedulerProgress.NothingStarves | skynet/skynet-src/skynet_server.c:292-347 | from every reachable state the threads can go on so that every message accepted so far is handed over, freed for want of a callback, or dropped |
| SchedulerProgress.NothingLeaks | skynet/skynet-src/skynet_server.c:203-222 | from every reachable state the threads can go on so that the queue of a retired service is freed |
| LineInfo.FuncState.constructor | skynet/3rd/lua/lparser.c:799-812 | the initial state records no line |
| LineInfo.FuncState.SaveLineInfo | skynet/3rd/lua/lcode.c:324-346 | records the line, relative exactly when the difference fits and fewer than MAXIWTHABS instructions passed, else absolute; no delta equals ABSLINEINFO; entries stay within MAXIWTHABS |
| LineInfo.FuncState.RemoveLastLineInfo | skynet/3rd/lua/lcode.c:349-367 | undoes the last record; an absolute one forces the next to be absolute |
| LineInfo.FuncState.Code | skynet/3rd/lua/lcode.c:380-392 | emits an instruction with its line |
| LineInfo.FuncState.RemoveLastInstruction | skynet/3rd/lua/lcode.c:370-377 | removes the last instruction and its record |
| LineInfo.FuncState.FixLine | skynet/3rd/lua/lcode.c:1864-1871 | replaces the line of the last instruction |
| LineInfo.FuncState.Close | skynet/3rd/lua/lparser.c:830-841 | the finished arrays describe the recorded lines |
| LineInfo.EncodesPrefix | skynet/3rd/lua/lcode.c:349-367 | without its last instruction an encoding is that of the shorter function |
| LineInfo.Estimate | skynet/3rd/lua/ldebug.c:49-77 | pc / MAXIWTHABS - 1 is a lower bound of the right entry |
| LineInfo.GetBaseLine | skynet/3rd/lua/ldebug.c:49-77 | finds the last absolute entry at or before pc |
| LineInfo.GetFuncLine | skynet/3rd/lua/ldebug.c:80-97 | returns the recorded line of every instruction, -1 without debug information |
| LineInfo.ChangedLine | skynet/3rd/lua/ldebug.c:873-899 | for newpc > oldpc equals comparing the two recorded lines |
| LineInfo.Compile | skynet/3rd/lua/lcode.c:324-392 | after any sequence of emit, replace-last and fixline the arrays describe the last line recorded for each instruction |
| LineInfo.LineOf | skynet/3rd/lua/ldebug.c:80-97 | written by the compiler, read back by the debugger: the last line recorded |
| HarborWire.BigEndianRoundTrip | skynet/service-src/service_harbor.c:278-301 | from_bigendian undoes to_bigendian |
| HarborWire.BigEndianOrder | skynet/service-src/service_harbor.c:278-301 | words are ordered as their bytes are: the most significant byte comes first |
| HarborWire.PackHandleRoundTrip | skynet/service-src/service_harbor.c:319-321 | type and low 24 handle bits share a word and come apart again |
| HarborWire.ForwardRoundTrip | skynet/service-src/service_harbor.c:303-330 | source, session, type, payload and the low 24 destination bits are restored, with the receiver's id above them |
| HarborWire.FrameLayout | skynet/service-src/service_harbor.c:330-352 | where length, payload, source, type, destination and session of a message stand on the wire |
| HarborWire.ParseAppend | skynet/service-src/service_harbor.c:439-510 | decoding may stop anywhere and go on later |
| HarborWire.ParseEncode | skynet/service-src/service_harbor.c:332-352 | decoding what was sent yields the bodies that were sent |
| HarborWire.ParsePart | skynet/service-src/service_harbor.c:439-510 | a part of the stream yields the first of the bodies |
| HarborWire.OversizeRefused | skynet/service-src/service_harbor.c:472-476 | a message of 2^24 bytes or more makes the receiver drop the connection, whatever follows |
| HarborService.Queue.Expand | skynet/service-src/service_harbor.c:93-106 | the ring doubles when one place is left, keeping order |
| HarborService.Queue.Push | skynet/service-src/service_harbor.c:91-110 | appends one message |
| HarborService.Queue.Pop | skynet/service-src/service_harbor.c:121-129 | takes the oldest message |
| HarborService.Harbor.SendRemote | skynet/service-src/service_harbor.c:332-352 | writes length, payload and cookie |
| HarborService.Harbor.DispatchQueue | skynet/service-src/service_harbor.c:399-416 | writes the queued messages in order and drops the queue |
| HarborService.Harbor.SendHandle | skynet/service-src/service_harbor.c:526-563 | sends, queues before the connection stands, delivers locally, or bounces when the peer is down |
| HarborService.Harbor.Command | skynet/service-src/service_harbor.c:620-647 | commands S and A: a new descriptor is kept, the id goes out first, then the queue once the connection stands |
| HarborService.Harbor.TakeHeader | skynet/service-src/service_harbor.c:460-485 | collects the four length bytes from any pieces |
| HarborService.Harbor.TakeContent | skynet/service-src/service_harbor.c:487-505 | collects the body from any pieces and delivers it; a body shorter than the cookie faults |
| HarborService.Harbor.PushSocketData | skynet/service-src/service_harbor.c:418-510 | after any piece the deliveries are those of the whole stream received so far; a wrong id or an oversize length closes, and a complete body shorter than the cookie faults, each exactly then |
| HarborLink.DeliveredInOrder | skynet/service-src/service_harbor.c:303-330 | whatever part of the stream arrived, the deliveries are the first of the messages sent |
| HarborLink.Exchange | skynet/service-src/service_harbor.c:418-563 | two harbors, any interleaving of sends, connection set-up and deliveries cut anywhere: each delivers, in order, the first of the other's messages |
| HarborLink.ExchangeAll | skynet/service-src/service_harbor.c:418-563 | and all of them once both ends are connected and every byte is read |
| DataBuffer.Pool.Take | skynet/service-src/databuffer.h:94-111 | the first free node, or a block of MESSAGEPOOL new ones |
| DataBuffer.Pool.Give | skynet/service-src/databuffer.h:57-61 | a returned node is free again |
| DataBuffer.Buffer.ReturnMessage | skynet/service-src/databuffer.h:48-62 | moves the first node to the free list; no node is ever free and in use |
| DataBuffer.Buffer.Read | skynet/service-src/databuffer.h:64-89 | takes exactly the first bytes of the queue and conserves the nodes |
| DataBuffer.Buffer.Push | skynet/service-src/databuffer.h:91-123 | appends the bytes; nodes come from the pool or are new |
| DataBuffer.Buffer.Clear | skynet/service-src/databuffer.h:151-157 | returns every node to the pool |
| Gate.ParseAppend | skynet/service-src/databuffer.h:125-144 | framing may stop anywhere and go on later |
| Gate.ParseEncode | skynet/service-src/databuffer.h:125-144 | the frames found are the non-empty ones that were sent |
| Gate.ValueOrder | skynet/service-src/databuffer.h:125-142 | lengths are ordered as their bytes are: the most significant byte comes first |
| Gate.ValueSign | skynet/service-src/databuffer.h:125-142 | exactly four-byte lengths with the top bit set are negative |
| Gate.Connection.ReadHeader | skynet/service-src/databuffer.h:125-144 | a header is read once and kept until its frame is complete |
| Gate.Connection.Forward | skynet/service-src/service_gate.c:168-192 | consumes one frame and hands it to the broker, else the agent, else the watchdog, with the socket as session, or does nothing at all without a receiver |
| Gate.Connection.Round | skynet/service-src/service_gate.c:197-213 | one round of the loop |
| Gate.Connection.Dispatch | skynet/service-src/service_gate.c:194-214 | after any piece exactly the complete non-empty frames of the stream so far have been forwarded |
| Gate.Serve | skynet/service-src/service_gate.c:168-214 | for every cutting of the stream: with a receiver the frames are forwarded, to the right one, without one nothing is; they are forwarded exactly if and only if there is a receiver or no frame |
| Gate.Relay | skynet/service-src/service_gate.c:194-214 | what a client framed comes out, empty messages excepted, for every cutting |
| HandleStore.Store.Search | skynet/skynet-src/skynet_handle.c:42-59 | finds the first of the handles tried, as many as there are places, whose place is free; a table of 2^24 places without one has every handle |
| HandleStore.Store.Rehash | skynet/skynet-src/skynet_handle.c:61-69 | doubling never collides |
| HandleStore.Store.Expand | skynet/skynet-src/skynet_handle.c:60-73 | the doubled table holds the same contexts |
| HandleStore.Store.Register | skynet/skynet-src/skynet_handle.c:35-74 | returns the first handle tried whose place is free, so a non-zero one with 24 low bits that is not live; the next search begins behind it; the table is doubled only when none is free, and the assertion before that fails exactly when every handle is live |
| HandleStore.Store.Grab | skynet/skynet-src/skynet_handle.c:139-156 | finds exactly the live context of a handle |
| HandleStore.Store.Remove | skynet/skynet-src/skynet_handle.c:83-103 | removes exactly that handle |
| HandleStore.HarborDrops | skynet/skynet-src/skynet_handle.c:44-64 | the harbor's bits do not change the place of a handle |
| HandleStore.SearchName | skynet/skynet-src/skynet_handle.c:166-181 | binary search finds a name or the place where it belongs |
| HandleStore.NameIndex.Find | skynet/skynet-src/skynet_handle.c:158-186 | equals map lookup, 0 for an unknown name |
| HandleStore.NameIndex.InsertBefore | skynet/skynet-src/skynet_handle.c:188-212 | inserts at the given place, in place or in an array of twice the size; its assertion fails exactly when there are 2^30 names |
| HandleStore.NameIndex.Insert | skynet/skynet-src/skynet_handle.c:214-236 | adds a new name, refuses a taken one; the array stays sorted and free of duplicates; fails exactly for a new name beyond 2^30 |
| HandleStore.NameIndex.Compact | skynet/skynet-src/skynet_handle.c:89-100 | closes the gaps left by the names of a handle |
| HandleStore.NameIndex.Forget | skynet/skynet-src/skynet_handle.c:89-100 | removes the names of that handle and no others |
| HandleStore.Retire | skynet/skynet-src/skynet_handle.c:76-113 | removes the handle and its names when it is live, otherwise nothing |
| HandleStore.Replay | skynet/skynet-src/skynet_handle.c:35-247 | every run of calls behaves like one on two maps with a given search order, and stops exactly at a call that fails an assertion: every handle live, or 2^30 names |
| HandleStore.NoEarlyReuse | skynet/skynet-src/skynet_handle.c:42-56 | a retired handle is not given again before the search has gone past the last handle |
| HandleStore.WrapsLate | skynet/skynet-src/skynet_handle.c:42-56 | and that happens only when fewer handles than table places are left before the last one |
| RwLock.StepOk | skynet/skynet-src/rwlock.h:19-46 | every atomic operation of every thread keeps the invariant |
| RwLock.MutualExclusion | skynet/skynet-src/rwlock.h:13-46 | in every interleaving a writer is alone, and read counts the threads between increment and decrement |
| RwLock.NobodyShutOut | skynet/skynet-src/rwlock.h:19-46 | from every reachable state all threads can get out, and any thread can then get to read and get to write |
| RedBlackTree.PlugInorder | skynet/3rd/compat-mingw/wepoll.c:1980-2007 | the order of keys seen from a position and its ancestors is that of the whole tree |
| RedBlackTree.RecolourOk | skynet/3rd/compat-mingw/wepoll.c:2017-2024 | a red uncle: recolouring keeps order and heights and moves the problem two levels up |
| RedBlackTree.RestructureOk | skynet/3rd/compat-mingw/wepoll.c:2025-2034 | a black uncle: the rotations keep order and heights and end the repair |
| RedBlackTree.LowerOk | skynet/3rd/compat-mingw/wepoll.c:2071-2079 | a red sibling: one rotation gives a black sibling and keeps order and heights |
| RedBlackTree.BorrowOk | skynet/3rd/compat-mingw/wepoll.c:2080-2093 | a black sibling with a red child: the missing black node is made up for |
| RedBlackTree.ShrinkOk | skynet/3rd/compat-mingw/wepoll.c:2094-2094 | otherwise the sibling turns red and the parent lacks a black node instead |
| RedBlackTree.Rekeyed | skynet/3rd/compat-mingw/wepoll.c:2122-2138 | putting the successor in the node's place changes neither heights nor colours on the way up |
| RedBlackLinks.SpellsAt | skynet/3rd/compat-mingw/wepoll.c:1980-2001 | links spell out a tree exactly when they do so above and below any position |
| RedBlackLinks.RotateOk | skynet/3rd/compat-mingw/wepoll.c:1980-2007 | TREE__ROTATE on the links: exactly the rotated tree, every parent link included, wherever the node is |
| RedBlackLinks.PaintOk | skynet/3rd/compat-mingw/wepoll.c:2022-2023 | a colour change touches nothing else |
| RedBlackLinks.UnlinkOne | skynet/3rd/compat-mingw/wepoll.c:2103-2145 | a node with at most one child is replaced by that child, parent link included |
| RedBlackLinks.ReplaceOk | skynet/3rd/compat-mingw/wepoll.c:2122-2145 | taking out the successor and putting it in the node's place, on the links |
| RedBlackLinks.LinksEqual | skynet/3rd/compat-mingw/wepoll.c:2113-2145 | the program's order of assignments, with its two cases, leaves those same links |
| RedBlackLinks.Links.constructor | skynet/3rd/compat-mingw/wepoll.c:1972-1974 | the empty tree |
| RedBlackLinks.Links.RepairRound | skynet/3rd/compat-mingw/wepoll.c:2017-2034 | one round of TREE__REBALANCE_AFTER_INSERT yields the recoloured or restructured tree, and node as the macro leaves it |
| RedBlackLinks.RestructuredBelow | skynet/3rd/compat-mingw/wepoll.c:2059-2066 | after rotations node's parent is the black root of the new subtree, so the loop ends |
| RedBlackLinks.Links.RepairInsert | skynet/3rd/compat-mingw/wepoll.c:2059-2066 | the loop, which goes on while node's parent is red, ends with a balanced tree and the same keys |
| RedBlackLinks.Links.TreeAdd | skynet/3rd/compat-mingw/wepoll.c:2036-2069 | adds exactly the given key, or reports that it is there; search order, parent links, colours and heights are kept |
| RedBlackLinks.Links.TreeFind | skynet/3rd/compat-mingw/wepoll.c:2169-2180 | decides membership |
| RedBlackLinks.Links.BlackSibling | skynet/3rd/compat-mingw/wepoll.c:2071-2079 | afterwards the sibling is black |
| RedBlackLinks.Links.BorrowRound | skynet/3rd/compat-mingw/wepoll.c:2080-2093 | one or two rotations and three colours yield the repaired subtree |
| RedBlackLinks.Links.RepairRemove | skynet/3rd/compat-mingw/wepoll.c:2153-2166 | the loop ends with a balanced tree and the same keys |
| RedBlackLinks.Links.Successor | skynet/3rd/compat-mingw/wepoll.c:2107-2111 | finds the smallest key on the right |
| RedBlackLinks.Links.UnlinkTwo | skynet/3rd/compat-mingw/wepoll.c:2113-2145 | a node with two children gives way to its successor |
| RedBlackLinks.Links.Finish | skynet/3rd/compat-mingw/wepoll.c:2144-2166 | a red node is simply gone, a red child turns black, otherwise the loop repairs |
| RedBlackLinks.Links.TreeDel | skynet/3rd/compat-mingw/wepoll.c:2096-2167 | removes exactly the given key; search order, parent links, colours and heights are kept |
| RedBlackLinks.Replay | skynet/3rd/compat-mingw/wepoll.c:1972-2180 | after any sequence of add, delete and find the answers are those of a set and the links form an ordered, balanced tree |

## Left out

- LPeg captures, run-time captures, grammars, calls and UTF-8 ranges; the limit on the backtrack stack and the reallocation of code and stack.
- The bit of getfirst's result that only run-time captures set.
- Dispatching of timer messages, system time, and delays of 2^31 or more.
- User-object buffers, UDP sending, name resolution, the pollers, and message texts of the socket server; warning sizes are chosen freely. Reuse of a socket id after 2^31 reservations.
- SocketSend covers a socket that is open and stays so; closing and write errors are in SocketClose, where the contents of the lists are not modelled.
- SocketClose.CloseOnce: runs in which a close request overtakes the opening request of its id are excluded, because callers learn the id after that request was sent; FailsExactly covers the step itself. The counter of packages in flight is not part of a slot.
- SocketClose.RaisedAsOften: SOCKET_WARNING is not counted, since warning sizes are chosen freely.
- Effects of weaker memory models: steps are sequentially consistent. Fairness of schedules: progress is stated as the existence of a continuation.
- Reuse of a 24-bit handle in Scheduler; the moment between registering a context and storing its handle; skynet_context_dispatchall; profiling, logging, overload reports, the monitor and sleeping workers.
- Harbor messages to global names, reconnection of a harbor that went down, the text of commands, several peers of one harbor in one model.
- HarborService.Harbor.SendHandle: a destination in a third harbor is excluded, since a Harbor object has one peer.
- HarborService.Harbor.Command: a new descriptor for a peer that is down is excluded, since reconnection is not modelled.
- HarborService.Harbor.PushSocketData: what happens after a fault is not modelled, except that the stream is not read any further.
- PegCompiler.FinalTarget: needs code whose chains of jumps do not cycle; for others the program's loop does not end, and compiled code is proved to have none.
- PegCompiler.Interpret: needs code that halts, as compiled code is proved to do.
- The text prefix in messages to the watchdog, the gate's control commands, and data that arrives after the gate closed a connection.
- Growth of Lua's vectors is modelled by longer sequences; instructions are opaque.
- In RedBlackLinks a node is named by its key and nodes live in maps, so the reuse of a node's memory under another key is not modelled.
- Memory allocation failures everywhere; freeing is modelled only where the order matters (message queues, pool nodes).
- The Lua interpreter and collector, the Lua services, snlua, logger, environment, module loading, hashid.h, md5 and the rest of wepoll: out of scope or easy by comparison.
