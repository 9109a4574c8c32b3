# Verified models of erl_tools

These Dafny files model the parts of erl_tools that are hard to get right and prove
what they are for.  `dafny verify dfyconfig.toml` checks the whole project.

**The redo evaluator** (`Redo*.dfy`).  A server keeps phases, needs, dependencies,
reverse dependencies and values; one worker process per product checks its old
dependencies, skips or runs its rule, and reports.  `RedoServer` has the handlers as
functions on the tables, `RedoEvaluator` the same server as an object updated in
place, `RedoSystem` all interleavings of server, workers and callers as a transition
system, and `RedoPull` what a run means without processes: rules are functions of the
values read so far, so needs are dynamic, and a run is the unique fixed point of one
equation per product.  `RedoSound` compares it with evaluation from scratch. The
theorems relate the three: every interleaving ends with what the functional pull
says, no run deadlocks or goes on for ever, and, over whole histories in which each
run evaluated every product with a changed recorded need, every settled product holds
its value of evaluation from scratch.

`RedoComplete` says which runs those are by what a caller asks for, and when all
stored values are right, settled or not: after a pull of every stored product that no
other one was recorded to need, and after a push of the transitive closure if every
stored product without recorded needs is current when it starts.  That is so if
everything that reads something has recorded needs, and also if what has lost them
has nothing to do with the push; product by product it is enough below the
product.  The condition matters.  A rule that is run again because a recorded need
changed records no needs (`RedoSound.UntrackedRun`), so a later push of the same
source does not reach it: `RedoRepeat` builds the history in which a second push
leaves it stale, and `RerunLosesNeeds` and `PushWakesExactly` say exactly when needs
are lost and what a push can still reach.  `RedoPartial` builds the stale history of a
partial pull that a note in the source mentions.

**The dataflow compiler** (`Dataflow`, `EpidApp`, `EpidUpdate`, `EpidObjects`,
`EpidDag`, `EpidCproc`, `EpidGuards`, `Bits`).  A description is the list of operator
calls it makes.  It becomes memoised nodes in a numbered environment with buffers for
external inputs, is collected, and then becomes guarded straight-line clauses.
Meaning is preserved from description to clauses, over any sequence of updates and
garbage collections.  A name may stand for a node of the proxy itself; the table and
the environment stay linked if and only if such names stand for earlier results of
the same description; the smallest description that breaks this is given.  The mask
fold in `src/epid_cproc.erl` parses as `(Acc + 1) bsl Bit`; the code is modelled as
written, with the exact condition under which all its guards are right and a
description that breaks it, and the mask its comments describe is proved right
always.

**The message log** (`LogFormat`, `Recorder`, `RecorderLaws`, `Player`).  Packets
with their size on both sides, an offset index per chunk, chunks that roll over and
are pruned by size, a span tree over the chunks.  All of it agrees with "the N-th
message", and `RecorderLaws` says which messages are in which chunk.

**The streaming ZIP writer** (`Crc32`, `ZipFormat`, `ZipLayout`, `ZipStream`,
`ZipArchive`).  The writer is a state machine over commands; the reader follows sections
4.3.7, 4.3.9, 4.3.12 and 4.3.16 of PKWARE's APPNOTE from the end record.  The checksum
is division by its polynomial, and every header field is shown to be where those
sections put it. A comment in the source says that empty files give corrupt archives;
by these sections they are read back like others.

**Codecs** (`Leb128`, `Slip`, `Tokenizer`, `GdbMi`, `Bert`).  Recursive LEB128 terms,
SLIP framing, the quote/escape tokenizer with the CSV reader and the GDB/MI parser,
and the two-pass BERT writer with its reader.  Each reader has a grammar of its own
(`Leb128Grammar`, `Leb128Shortest`, `SlipGrammar`, `TokenGrammar`, `MiGrammar`,
`BertGrammar`), written without the model's constants and functions, and is proved to
accept exactly that on any input, so that reader and writer cannot be wrong together.

**Whole-run claims about smaller pieces** (`StructuralDiff`, `DiffExact`, `DagUpdate`,
`TagU32`, `TaskQueue`).

`Collections` and `Bytes` are shared vocabulary.  A source function that an object
calls in place appears as a method proved against a function, and what is promised of
it is proved about the function.

## Model

| member | source | states |
|---|---|---|
| RedoServer.DoneKeepsInverse | src/redo.erl:783-803 | worker_done edits the inverse table by the two list differences only, yet afterwards it again holds each product under each recorded dependency exactly as often as the dependency is recorded, for any lists |
| RedoServer.InverseIsExact | src/redo.erl:778-791 | with sorted dependency lists the inverse table is duplicate free and is the exact inverse relation |
| RedoServer.RemoveRdepsAt | src/redo.erl:793-797 | removing a product from a list of dependencies lowers its own counts by its occurrences, not below zero, and changes no other product |
| RedoServer.AddRdepsAt | src/redo.erl:799-803 | adding it raises its own counts by its occurrences and changes no other product |
| RedoServer.SettleAllAt | src/redo.erl:686-708 | seeding phases settles exactly the listed products |
| RedoEvaluator.Evaluator.Eval | src/redo.erl:485-551 | the eval handler: reply at once, join the wait list, or start one worker; a raising update function is answered error and leaves no phase |
| RedoEvaluator.Evaluator.WorkerNeeds | src/redo.erl:554-568 | needs of a worker that still has an entry are added, all others are dropped |
| RedoEvaluator.Evaluator.CollectWorkerDeps | src/redo.erl:569-579 | hands out the sorted needs and removes the entry |
| RedoEvaluator.Evaluator.WorkerDone | src/redo.erl:583-602 | answers every waiter once, settles the phase, updates both dependency tables and keeps them inverse; otherwise nothing changes where the source throws |
| RedoEvaluator.Evaluator.PutValChanged | src/redo.erl:1067-1074 | stores and answers true exactly if the value differs from the stored one |
| RedoEvaluator.Evaluator.BeginPull | src/redo.erl:671-685 | start_pull forgets the phases of the last run and keeps dependencies and values |
| RedoEvaluator.Evaluator.BeginPush | src/redo.erl:686-708 | start_push seeds the phases of changed and unchanged products |
| RedoPull.PullIsUnique | src/redo.erl:841-941 | a run has one possible outcome for every product: answer, value and recorded needs are determined by rank, whatever the order of evaluation |
| RedoPull.PullExists | src/redo.erl:841-941 | and it has one, for all rules with dynamic needs whose rank decreases |
| RedoPull.AnswersMean | src/redo.erl:1069-1070 | a product that is not seeded answers unchanged exactly if its value is the stored one, and an error leaves the stored value |
| RedoSound.ScratchExists | src/redo.erl:1059-1083 | from-scratch values exist: they are what a pull on empty tables computes |
| RedoSound.RunIsScratch | src/redo.erl:1018-1022 | a rule run against right outcomes of its needs computes its from-scratch value |
| RedoSound.SkipIsSound | src/redo.erl:846-862 | a worker that skips its rule because all old dependencies answered unchanged still has the right stored value, although what the rule would read is chosen dynamically |
| RedoSound.PullIsSound | src/redo.erl:841-941 | an incremental pull on a consistent store gives every product its from-scratch outcome, error or value, skipped or not |
| RedoSound.UntrackedRun | src/redo.erl:849-851 | a product re-run because an old dependency changed records no needs: they were collected before the rule ran |
| RedoSound.FreshConsistent | src/redo.erl:874-881 | a product whose rule ran with its needs recorded is consistent with what the run leaves |
| RedoSound.CoveredRunKeepsConsistent | src/redo.erl:929-937 | if every product with a changed recorded need was evaluated, the run leaves a consistent store for the next one |
| RedoInvariant.ClientCallKeeps | src/redo.erl:989-998 | a new client call keeps the invariant relating tables, workers, calls and the functional pull |
| RedoInvariant.ServeEvalReplies | src/redo.erl:490-496 | so does answering a settled product |
| RedoInvariant.ServeEvalJoins | src/redo.erl:497-501 | joining a wait list |
| RedoInvariant.ServeEvalSpawns | src/redo.erl:502-539 | starting a worker |
| RedoInvariant.BeginKeeps | src/redo.erl:841-849 | a worker starting its dependency check |
| RedoInvariant.CheckedKeeps | src/redo.erl:843-863 | finishing it, with skip or re-run |
| RedoInvariant.AskKeeps | src/redo.erl:960-967 | a rule asking for needs |
| RedoInvariant.AnsweredKeeps | src/redo.erl:1018-1022 | a rule receiving them or failing |
| RedoInvariant.EndRuleKeeps | src/redo.erl:874-903 | a rule ending with a value or an exception |
| RedoInvariant.DoneSettles | src/redo.erl:583-602 | worker_done finds the phase waiting, so its throw is unreachable, and settles the product with its functional outcome |
| RedoInvariant.ServeDoneKeeps | src/redo.erl:583-602 | and keeps the invariant |
| RedoInvariant.NextPullKeeps | src/redo.erl:671-685 | the next pull starts in it |
| RedoInvariant.NextPushKeeps | src/redo.erl:686-708 | and so does the next push |
| RedoTheorems.GoodStep | src/redo.erl:485-708 | every enabled action, the start of new runs included, keeps the whole invariant |
| RedoTheorems.Reachable | src/redo.erl:485-708 | so every state reachable by any number of pulls and pushes in any interleaving satisfies it |
| RedoTheorems.ProtocolSafe | src/redo.erl:485-604 | the phase error is never thrown, no product gets two workers in a run, no call two replies, and callers of one product get one answer |
| RedoTheorems.PhaseMoves | src/redo.erl:490-551 | within a run a phase only moves absent, waiting, changed, and a settled answer never changes |
| RedoTheorems.InverseTableExact | src/redo.erl:778-803 | in every reachable state rdeps is the exact duplicate-free inverse of deps |
| RedoTheorems.EveryInterleavingAgrees | src/redo.erl:841-941 | whatever the interleaving, a settled product holds the answer, value and needs of the functional pull |
| RedoTheorems.AnswerIsChange | src/redo.erl:1059-1083 | in every reachable state a product evaluated in this run was answered unchanged exactly if the value now stored is the one stored at the start, and an error kept that one |
| RedoTheorems.PullReturnsQuiescent | src/redo.erl:989-998 | when the caller has its answers no phase waits, every worker has exited and every call was answered exactly once |
| RedoTheorems.SoundStartStep | src/redo.erl:671-708 | a covered run followed by a pull or an honest push starts from a consistent store again |
| RedoTheorems.CoveredHistoryKeeps | src/redo.erl:671-708 | over whole covered histories the store each run starts from stays consistent |
| RedoTheorems.IncrementalIsSound | src/redo.erl:841-953 | after any history of runs that evaluated every product with a changed recorded need, in any interleaving and at any moment of a run, every settled product holds its from-scratch value for the current world, or error exactly if that fails |
| RedoProgress.NoDeadlock | src/redo.erl:841-941 | while a call is unanswered or a worker is live some step of the evaluator is enabled |
| RedoProgress.InternalLowers | src/redo.erl:841-941 | every such step lowers a measure |
| RedoProgress.InternalRunsAreBounded | src/redo.erl:841-941 | so a run takes at most that many steps in any interleaving |
| RedoProgress.PullReturns | src/redo.erl:989-998 | and from every good state a run can be finished with all phases settled |
| RedoPush.TransitiveClosureExact | src/redo.erl:806-827 | the closure is exactly the set of products without dependents that a changed product reaches, minus the changed ones |
| RedoPush.PushIsCovered | src/redo.erl:431-453 | evaluating that closure after a push of all changed sources evaluates every product with a changed recorded need; products without recorded needs it may leave alone |
| RedoPush.RunStartsWithInverse | src/redo.erl:671-711 | at the start of a pull or push the server's own inverse table is the one this needs, and it is acyclic |
| RedoPush.PushFactsHold | src/redo.erl:841-941 | over all runs, a settled product has had its recorded needs evaluated in the same run |
| RedoPartial.PartialRebuildGoesStale | src/redo.erl:110-113 | a partial pull can leave a stale product: redo A alone, then B, and B is settled with its old value; a whole history is constructed |
| RedoRepeat.RepeatedPushGoesStale | src/redo.erl:431-453 | so can a push: after a pull and a push of one source, a second push of it has an empty closure, because the product that the first one ran again records no needs; every push told the truth and every run asked for all it should, yet that product is right exactly if nothing was changed; the whole history is constructed |
| RedoComplete.TablesStayOk | src/redo.erl:583-602 | in every reachable state recorded needs belong to stored products that read something and are stored themselves, products that raise are not stored, and constants have their value |
| RedoComplete.TruthIsHonest | src/redo.erl:686-708 | a push about inputs that leaves every stored input with its value in the new world seeds only what is right |
| RedoComplete.TruthMakesReady | src/redo.erl:686-708 | and, if everything stored that reads something has recorded needs, whatever the push cannot reach is current: every stored product without recorded needs has its from-scratch value in the new world |
| RedoComplete.UntouchedKeep | src/redo.erl:1018-1022 | from-scratch values stay the same in a new world for every set of products that read only each other and whose inputs have not changed |
| RedoComplete.IndependentMakesReady | src/redo.erl:686-708 | so a push is as good when the products that lost their recorded needs have nothing to do with what it pushes: pushes of independent sources can follow each other without a pull in between |
| RedoComplete.ReadyIsTruthful | src/redo.erl:431-453 | when whatever the push cannot reach is current, every source that was not pushed would answer unchanged |
| RedoComplete.TopsSettleAll | src/redo.erl:425-430 | a pull of every stored product that no other one was recorded to need, those without recorded needs included, evaluates every stored product |
| RedoComplete.FullRunIsCovered | src/redo.erl:425-453 | such a pull, and a push of the whole closure when whatever it cannot reach is current, evaluates every product with a changed recorded need |
| RedoComplete.PushIsRightBelow | src/redo.erl:431-453 | product by product: after a push of the closure, a product below which everything without recorded needs was current has its from-scratch value, whatever the rest of the store |
| RedoComplete.PushIsRightWhereTracked | src/redo.erl:431-453 | in particular a product that has recorded needs all the way down, when stored inputs are current |
| RedoComplete.FullRunIsRight | src/redo.erl:425-453 | and leaves every stored product, evaluated or left alone, with its from-scratch value, or an error answer where that fails |
| RedoComplete.HistoryCarries | src/redo.erl:671-708 | all of this is carried over whole histories by what each run asks for |
| RedoComplete.AskingIsSound | src/redo.erl:425-453 | from an empty store, if each run asked for all tops, or pushed the truth when whatever it could not reach was current and asked for the closure, then at any moment settled products hold their from-scratch values, and at the end of such a run all stored products do; nothing is assumed of the answers |
| RedoComplete.RerunLosesNeeds | src/redo.erl:846-863 | a product loses its recorded needs in a run if and only if it was evaluated and one of them did not answer unchanged |
| RedoComplete.PushWakesExactly | src/redo.erl:806-827 | a product without dependents is in the closure of some pushed set if and only if it has recorded needs |
| Dataflow.SingleAssignment | src/dsl.erl:70-84 | no two operator calls get the same instance name |
| Dataflow.NodesAreNumbered | src/dsl.erl:70-76 | the instances of each operator are numbered from 0 in the order of its calls |
| Dataflow.DefinedBeforeUse | src/dsl.erl:80-84 | one binding per call, newest first, reading only nodes of earlier calls |
| Dataflow.CompilePreservesMeaning | src/dsl.erl:64-84 | evaluating the emitted bindings gives every node the direct value of its call |
| Dataflow.MeaningAt | src/dsl.erl:54-55 | the direct meaning of a call does not depend on the calls after it |
| EpidApp.CompileInputsOk | src/epid_dag.erl:59-74 | external inputs are replaced by fresh buffers, local ones kept, in order, and the environment stays numbered definition before use |
| EpidApp.HandleAppOk | src/epid_dag.erl:18-22 | the added processor has its operator on wires that carry the requested inputs, and lists exactly its buffers |
| EpidApp.NeedKeepsHeld | src/epid_app.erl:120-143 | whatever its inputs name, need lists the tag, changes and forgets nothing older, and keeps entries owning disjoint nodes and all of them |
| EpidApp.NeedKeepsLinked | src/epid_app.erl:120-143 | if local inputs are outputs of the table it also keeps every reference live and definition before use |
| EpidApp.OneNodePerTag | src/epid_app.erl:120-143 | two tags share an output only if they are equal |
| EpidUpdate.EntryValue | src/epid_dag.erl:59-74 | a processor computes its operator on the values of the inputs it was asked for, buffered or direct |
| EpidUpdate.InstantiateOk | src/epid_app.erl:47-54 | instantiating a description on any earlier table, whatever names resolve to, returns the table's node for each call and changes no older node |
| EpidUpdate.InstancePreservesMeaning | src/epid_app.erl:47-54 | if every name of a local node is that of an earlier result, that node's value is the direct value of the call, where such a name stands for the value of its node |
| EpidUpdate.CallsShareExactly | src/epid_app.erl:47-54 | two calls get one node if and only if operator and flattened inputs are equal |
| EpidUpdate.SurvivorNodeOk | src/epid_app.erl:145-163 | after garbage collection every reference inside a surviving node names a surviving node, buffers included |
| EpidUpdate.CollectKeepsLinked | src/epid_app.erl:145-163 | collection keeps table and environment linked |
| EpidUpdate.UpdateLinkedExactly | src/epid_app.erl:224-231 | after an update no node reads a missing or later one, and the table describes the environment, if and only if every name of a local node is that of an earlier result of the same description |
| EpidUpdate.UpdatePreservesMeaning | src/epid_app.erl:224-231 | then, through instantiation and collection, each call's node has the direct value of the call in the environment that is left |
| EpidUpdate.LocalNameBreaks | src/epid_dag.erl:59-74 | one operator that reads any node of the empty proxy by name breaks that condition, and the update leaves its processor reading a node that is not there or itself |
| EpidUpdate.HistoryLinked | src/epid_app.erl:224-231 | table and environment stay linked over all of a sequence of updates if and only if that holds of each revision |
| EpidUpdate.OutsideIsOk | src/epid_app.erl:224-231 | which is so whenever names are those of other processes, as a caller can see beforehand |
| EpidUpdate.OutsidePreservesMeaning | src/epid_app.erl:224-231 | and then the nodes of the current description have its values on what those processes send, after any sequence of updates |
| EpidUpdate.HistoryPreservesMeaning | src/epid_app.erl:224-231 | and after any such sequence the nodes of the current description have its values |
| EpidUpdate.TableIsCurrent | src/epid_app.erl:145-163 | after any sequence of updates, whatever names resolve to, the table holds exactly the processors of the current description |
| EpidUpdate.EnvironmentIsCurrent | src/epid_dag.erl:23-30 | and the environment exactly those processors and their buffers |
| EpidUpdate.NumbersStayDead | src/epid_dag.erl:32-41 | over any sequence of updates and collections no node number is given to a second node: what an older number names is the node it named, or nothing |
| EpidObjects.ProxyObject.CompileApp | src/epid_dag.erl:32-41 | the proxy allocates the next number and stores the node |
| EpidObjects.ProxyObject.HandleEpidApp | src/epid_dag.erl:18-22 | the loop over inputs adds the buffers and the processor in place |
| EpidObjects.ProxyObject.HandleEpidKill | src/epid_dag.erl:23-30 | a kill removes one node and nothing else |
| EpidObjects.MemoTable.NeedApp | src/epid_app.erl:120-143 | reuses the entry of an equal tag, else makes one |
| EpidObjects.MemoTable.Kill | src/epid_app.erl:153-158 | kills an entry's output and all its buffers |
| EpidObjects.MemoTable.CollectGarbage | src/epid_app.erl:145-163 | drops exactly the unreferenced entries and kills exactly what they own, in any order of the table |
| EpidDag.InputsAre | src/epid_dag.erl:94-124 | the inputs are all buffers, in increasing node order |
| EpidDag.OnePassIsExact | src/epid_dag.erl:143-156 | the single pass over processors computes exact transitive reachability, because node numbers increase along edges |
| EpidDag.SensitivityIsExact | src/epid_dag.erl:161-172 | a node lists input i exactly if it depends on that input's buffer |
| EpidCproc.EmitCode | src/epid_cproc.erl:65-69 | the clauses are written in processor order, each by let_clause, and every guarded update with what was written is right if the guards have their bits |
| EpidCproc.ValueDependsOnly | src/epid_dag.erl:126-134 | a node's value depends on the buffers it depends on and on nothing else |
| EpidCproc.FetchIsValue | src/epid_cproc.erl:134-143 | an operand read from the input array or from an earlier clause is the value of the node it stands for |
| EpidCproc.RunReaches | src/epid_cproc.erl:65-69 | after the clauses below n, exactly the processors below n have their new values |
| EpidCproc.GuardedUpdateIsRight | src/epid_cproc.erl:106-116 | running only the clauses whose guard meets the changed inputs equals re-evaluating everything, for any operators and any changes, if guards have their bits |
| EpidCproc.IntendedGuardsAreRight | src/epid_dag.erl:126-134 | masks that are the union of the input bits make every guarded update right |
| EpidGuards.GuardsRightExactly | src/epid_cproc.erl:99-116 | with the mask fold as coded, all guarded updates of a graph are right if and only if every processor depends on at most one input, or on two of which one is input 0 |
| EpidGuards.WrongGuardGoesStale | src/epid_cproc.erl:99-116 | for any other processor a concrete change of one input leaves it stale |
| EpidCproc.CompilerPreservesMeaning | src/epid_cproc.erl:157-190 | from any sequence of updates and collections to generated clauses: one guarded update leaves each call's node with the call's direct value, for all guards that have their bits |
| EpidCproc.IntendedPreservesMeaning | src/epid_dag.erl:126-134 | with masks that are the union of the input bits this holds of every history |
| EpidGuards.CodedPreservesMeaning | src/epid_cproc.erl:99-116 | with the mask fold as coded it holds if every processor depends on at most one input, or on two of which one is input 0 |
| EpidGuards.TwoInputsGoStale | src/epid_cproc.erl:99-116 | a description of two calls, the second on sources 1 and 2, compiles to a processor of sensitivity 2, 1 that an update leaves stale |
| Bits.CondBitvecExact | src/epid_cproc.erl:99-102 | the coded fold yields the union of bits, or contains all of them, exactly for those lists |
| Bits.CodedFoldDiverges | src/epid_cproc.erl:99-102 | inputs 2 and 1 give mask 10 instead of 6 |
| Bits.UnionHasBits | src/epid_dag.erl:126-134 | the union of distinct bits has exactly those bits |
| LogFormat.NextIsExact | src/player.erl:82-89 | reading forwards succeeds exactly where a size-prefixed and size-suffixed packet is, and returns its message |
| LogFormat.NextThenPrev | src/player.erl:82-112 | next and prev at message i are inverse and return message i |
| LogFormat.PrevIsExact | src/player.erl:101-112 | reading backwards succeeds exactly where the size behind a message says it begins inside the data, and returns it; the size in front is not looked at |
| LogFormat.IndexedIsNth | src/player.erl:189-202 | an indexed reference gives the n-th message of a chunk and fails past the end |
| LogFormat.MakeIndex | rs/src/etflog.rs:120-129 | on any bytes, makes the walk from size word to size word, offsets cut to 32 bits, and fails exactly where a size word is cut off |
| LogFormat.WalkIsChain | rs/src/etflog.rs:120-129 | the walk gives some offsets exactly if each is the one before plus the big-endian size found there plus 8, the first is the start and only the last reaches the end; it fails exactly where there are none |
| LogFormat.WalkIsOffsets | rs/src/etflog.rs:120-129 | on a recorded chunk that walk gives every message offset, in order, and stops at the end |
| LogFormat.TruncatedIsListed | rs/src/etflog.rs:120-129 | if the last packet is cut short it is listed too when its first size word is whole, and the walk fails otherwise |
| LogFormat.RebuiltIndexIsRecorded | rs/src/etflog.rs:133-146 | on a recorded chunk, saved as 32-bit words, it is the index written while recording |
| LogFormat.VerifiesExactly | rs/src/etflog.rs:103-119 | an offset verifies exactly if a packet with a non-empty external term starts there |
| LogFormat.ScanOffset | rs/src/etflog.rs:93-102 | scanning returns the first offset of the range that verifies, or none if none does |
| LogFormat.RecordedVerifies | rs/src/etflog.rs:93-119 | every recorded term verifies at its offset, so a scan never passes a message |
| Recorder.PrunedIsLongest | src/recorder.erl:59-68 | pruning by bytes keeps the longest run of newest chunks whose files together fit |
| RecorderLaws.TotalIsWeight | src/recorder.erl:30-40 | the size that counts against the limit is that of data and index files together: 12 bytes and its own for each retained message |
| RecorderLaws.PrunedByWeight | src/recorder.erl:59-68 | so pruning keeps the longest run of newest chunks whose messages, at 12 bytes and their own each, fit the limit |
| RecorderLaws.NewFileIsNext | src/recorder.erl:83-102 | a new chunk is empty and has the number after the newest one kept, or 0 if none was |
| RecorderLaws.RecordTouchesLast | src/recorder.erl:117-141 | recording a message changes the newest chunk only, if it fits there, and else leaves what pruning keeps and the next number |
| RecorderLaws.RecordAllDeals | src/recorder.erl:117-141 | the files of any recording are those of dealing the messages out: behind the others of the newest chunk while 8 bytes and its own for each fit the chunk size, else alone into a new chunk behind what fits the other limit |
| RecorderLaws.RecordingFills | src/recorder.erl:117-141 | so no chunk of several messages is over the chunk size, and each message that begins a chunk did not fit the one before |
| Recorder.RecorderObject.constructor | src/recorder.erl:23-28 | a recorder always starts a new chunk behind what the directory holds |
| Recorder.RecorderObject.Prune | src/recorder.erl:59-68 | deletes oldest chunks until the directory fits; what is retained stays the end of what was recorded |
| Recorder.RecorderObject.StartFile | src/recorder.erl:83-102 | then opens the next consecutive chunk, empty |
| Recorder.RecorderObject.Append | src/recorder.erl:128-131 | appends packet and offset, keeping data and index those of the chunk's messages |
| Recorder.RecorderObject.Record | src/recorder.erl:117-141 | every message is recorded, in the current chunk if it fits and else alone in a new one; nothing else moves |
| Recorder.RecordingHolds | src/recorder.erl:117-141 | after any recording over any directory of recorded chunks, numbered with gaps or without, the files hold the newest messages of everything ever recorded, with matching indices |
| Player.LookupFinds | src/player.erl:429-450 | lookup finds the span that contains a number although spans may be empty, and fails out of range unless there is only one span |
| Player.SpanIsAll | src/player.erl:452-455 | the tree's span numbers all retained messages |
| Player.RefIsNth | src/player.erl:180-202 | every flat reference, through spans, tree, lookup, index and read, gives exactly the N-th retained message, and fails for all other integers |
| Player.PlayedIsRecorded | src/player.erl:180-202 | so what is played is the newest part of everything ever recorded, over all rollovers and prunings |
| Player.RecordThenPlay | src/player.erl:180-202 | record any messages over any directory of recorded chunks, numbered with gaps or without, then refer to them by number: each retained number gives its message, all others fail |
| Player.TakeIsSlice | src/player.erl:311-314 | taking n messages from message i gives messages i to i+n |
| Player.BackIsReverse | src/player.erl:101-112 | and playing them backwards gives the reverse |
| Player.Cursor.Next | src/player.erl:82-89 | moves the cursor behind the message it returns, and not at all at the end of the chunk |
| Player.Cursor.Prev | src/player.erl:101-112 | moves it before the message it returns, and not at all at the beginning |
| Player.NowMsKeepsOrder | src/player.erl:343-348 | though its factor is ten times too large, so that a second counts ten million, now_ms orders proper time stamps correctly |
| Player.BisectLogSplits | src/player.erl:320-341 | bisecting a recorded log with ordered stamps never fails and returns neighbours that split it at the given time |
| Crc32.CrcConcat | src/zip_stream.erl:47-54 | a checksum continued piece by piece is the checksum of the whole |
| Crc32.CrcIsRemainder | src/zip_stream.erl:47-54 | the checksum is the inverted remainder of dividing the bits of the data, least significant bit of each byte first, by the polynomial 0x04C11DB7, defined separately on bits, from the inverted earlier checksum |
| Crc32.CrcFromStart | src/zip_stream.erl:47-54 | and from all ones at the beginning |
| Crc32.CheckValue | src/zip_stream.erl:47-54 | the checksum of "a" is 0xE8B7BE43 |
| ZipFormat.CentralReads | src/zip_stream.erl:164-190 | a central directory record within the field limits is read back: name, checksum, size, offset |
| ZipFormat.LocalReads | src/zip_stream.erl:192-220 | local header, data and descriptor of a file are read back at its offset |
| ZipFormat.SplitConcat | src/zip_stream.erl:151-220 | cutting a record by its field widths gives its fields back |
| ZipLayout.LocalLayout | src/zip_stream.erl:192-220 | every field of the local header is at the offset that section 4.3.7 of the APPNOTE gives it, in little-endian order, time before date, with its constants as numbers |
| ZipLayout.CentralLayout | src/zip_stream.erl:164-190 | so are those of a directory record, section 4.3.12 |
| ZipLayout.EndLayout | src/zip_stream.erl:151-162 | those of the end record, section 4.3.16 |
| ZipLayout.DescriptorLayout | src/zip_stream.erl:214-220 | and those of the descriptor behind the data, section 4.3.9 |
| ZipStream.OffsetIsEmitted | src/zip_stream.erl:26-44 | after any commands, legal or not, offset is the number of bytes emitted, and nothing emitted is ever taken back |
| ZipStream.InfoIsOfAppended | src/zip_stream.erl:47-61 | recorded size and checksum are those of the concatenated data of each name, however appends are cut and interleaved |
| ZipStream.StepAgrees | src/zip_stream.erl:47-102 | legal commands never fail and keep every file in place at its recorded offset |
| ZipStream.RunAgrees | src/zip_stream.erl:140-141 | over whole legal sequences |
| ZipStream.ReadBack | src/zip_stream.erl:104-131 | a reader that starts at the end record gets exactly the files with their contents, for any chunking and any order of the directory |
| ZipStream.EndReads | src/zip_stream.erl:151-162 | the end record is found from the end of the file and leads to the directory |
| ZipStream.FileIsLegal | src/zip_stream.erl:134-138 | the composite command adds one whole file to a legal sequence |
| ZipArchive.ArchiveReads | src/zip_stream.erl:104-141 | any entries with distinct names that fit the limits of the format, written by composite commands and a directory, never fail and are read back as those entries, in that order |
| ZipStream.Writer.StartFile | src/zip_stream.erl:77-94 | notes the offset and emits the local header |
| ZipStream.Writer.AppendData | src/zip_stream.erl:47-61 | updates size and checksum and emits the data, or fails on an unknown name |
| ZipStream.Writer.EndFile | src/zip_stream.erl:98-102 | emits the descriptor of what was recorded |
| ZipStream.Writer.CentralDirectory | src/zip_stream.erl:104-131 | emits one record for each file and then an end record with their offset and size |
| Leb128.IntReads | src/leb128.erl:60-73 | reading a written integer returns it and leaves what follows |
| Leb128.IntIsShortest | src/leb128.erl:152-159 | an integer takes at most k bytes if and only if it is below 128 to the k |
| Leb128.PadsSkipped | src/leb128.erl:110-127 | padding and comments before a term make no difference |
| Leb128.EncodingReads | src/leb128.erl:97-138 | every encoding of a term, with padding before it and before nested tuple elements, is read back and leaves exactly what follows |
| Leb128.EncodingsArePrefixFree | src/leb128.erl:118-132 | no encoding is a prefix of another: equal streams start with equal terms |
| Leb128.WriteIsEncoding | src/leb128.erl:161-227 | writing succeeds exactly for homogeneous arrays and well formed tags throughout, and writes an encoding |
| Leb128.RoundTrip | src/leb128.erl:217-227 | reading what was written, followed by anything, gives the term and leaves the rest |
| Leb128Grammar.ReadIsExact | src/leb128.erl:97-138 | on any bytes, the reader gives a term exactly if the bytes begin with one by the grammar: type numbers as in the source, numbers of any length, comments and padding, typed arrays, tags; and leaves exactly what follows |
| Leb128Shortest.WriteIsShortest | src/leb128.erl:161-227 | no bytes that the reader takes as a term are fewer than those the writer writes for it |
| Slip.Receiver.Data | src/gdbstub_hub.erl:410-427 | one chunk delivers all packets it completes, skipping empty ones, and keeps the remainder |
| Slip.ReceiveSplits | src/gdbstub_hub.erl:410-422 | receiving two pieces equals receiving them at once, well formed or not |
| Slip.AnyPieces | src/gdbstub_hub.erl:410-422 | so neither packets nor remainder depend on how the stream is cut |
| Slip.BodyDecodes | src/gdbstub_hub.erl:725-745 | an escaped body decodes to its packet in any context |
| SlipGrammar.DecodeIsExact | src/gdbstub_hub.erl:733-745 | on any bytes, a packet is decoded exactly where units and an END are, 219 220 standing for 192 and 219 221 for 219, a stray escape for nothing; otherwise nothing is taken |
| SlipGrammar.EncodesUnits | src/gdbstub_hub.erl:718-731 | an encoded packet is those units between two ENDs |
| SlipGrammar.ReceiveIsExact | src/gdbstub_hub.erl:410-427 | reception takes packet after packet that way, drops the empty ones and keeps what does not end a packet |
| Slip.Resynchronises | src/gdbstub_hub.erl:733-745 | after any noise an encoded packet is delivered behind at most one packet of leftovers, and nothing stays pending |
| Slip.SentIsReceived | src/gdbstub_hub.erl:718-745 | sending packets and cutting the stream anywhere delivers exactly the non-empty packets, in order |
| Slip.FreeFrom | src/gdbstub_hub.erl:703-708 | wait takes the first free number |
| Slip.StaysWaiting | src/gdbstub_hub.erl:703-712 | a term waits under its number through any requests and replies until the reply to it |
| Slip.UnwaitUndoesWait | src/gdbstub_hub.erl:703-712 | a reply gets the term that waited under its number and leaves all other pending requests alone, whatever was registered and answered in between |
| Tokenizer.QuotedReads | src/parse.erl:43-58 | a quoted and escaped text adds exactly its characters to the current atom, in any context |
| Tokenizer.PlainReads | src/parse.erl:31-42 | so does a text without special characters |
| TokenGrammar.TokenizeIsExact | src/parse.erl:30-60 | under any configuration, a text is tokenized exactly if it is a row of plain characters, closed quotations and separators, into the atoms between separators and the separators; an escape outside quotes, an open quotation or a last escape fail |
| Tokenizer.CsvRoundTrip | src/parse.erl:84-104 | printing rows and reading them back is the identity if and only if every row has a cell |
| TokenGrammar.CsvIsExact | src/parse.erl:84-104 | on any tokens, the reader gives a table exactly if they are its cells, each row ended by a line feed, with any commas and carriage returns between, and an empty atom last |
| GdbMi.PrintedTokens | src/gdb.erl:209-223 | a printed result list is tokenized into exactly its tokens |
| GdbMi.ResultsParse | src/gdb.erl:260-270 | parsing those tokens appends the tree to any pending queue under any stack |
| GdbMi.ParserConserves | src/gdb.erl:260-270 | on any tokens at all, the result holds exactly as many strings as there are non-empty atoms |
| MiGrammar.ParseIsExact | src/gdb.erl:260-270 | on any tokens at all, the parser gives a list of items exactly if they are the list written out, apart from commas and empty atoms, where values are strings or lists and only the last item of a list may lack its value |
| GdbMi.PrintedParses | src/gdb.erl:246-270 | printing, tokenizing and parsing a nested result list is the identity if and only if none of its strings is empty |
| Bert.Writer.Push | c_src/bert.c:126-129 | counts a byte, and stores it inside the buffer if there is one |
| Bert.Writer.PutUInt | c_src/bert.c:96-98 | writes the low bytes of a number, cut to 32 bits, most significant first, in a width of at most 4 bytes |
| Bert.UIntCut | c_src/bert.c:96-98 | cutting a number to a width makes no difference to the bytes within it |
| Bert.Writer.PutTaggedBytes | c_src/bert.c:104-110 | writes tag, size and bytes |
| Bert.Writer.Put | c_src/bert.c:111-135 | every call writes, or only counts, exactly its bytes |
| Bert.Writer.WriteSub | c_src/bert.c:148-152 | so does a sequence of calls |
| Bert.Writer.WritePacket | c_src/bert.c:154-175 | the dry run counts precisely the second pass: every write lands inside the buffer, which is filled exactly, and a header of at most 4 bytes is the size of the term |
| Bert.Reader.GetUInt | c_src/bert.c:32-36 | pops a number |
| Bert.Reader.GetSlice | c_src/bert.c:52-60 | pops a size and that many bytes |
| Bert.Reader.GetObjects | c_src/bert.c:41-46 | pops n objects |
| Bert.Reader.GetObject | c_src/bert.c:47-77 | pops one object, as the function does that BertGrammar.ReadIsExact is about |
| Bert.Reader.GetTerm | c_src/bert.c:82-93 | decodes a term after the start byte |
| Bert.UIntRound | c_src/bert.c:32-36 | a number that fits its width is read back |
| Bert.ReadIsReplay | c_src/bert.c:41-77 | for every call sequence within the field limits, reading the bytes gives the term that replaying the calls gives, failure included, and stops at the same place |
| BertGrammar.ReadIsExact | c_src/bert.c:47-77 | on any bytes, the reader gives a term exactly if the bytes begin with one by the grammar of the external term format, tags and widths as numbers, negative integers and strings included, and leaves exactly what follows |
| BertGrammar.DecodeIsExact | c_src/bert.c:82-93 | a whole term has 131 in front |
| BertGrammar.IntegersRead | c_src/bert.c:37-38 | every integer from -2^31 to 2^31 exclusive is read from its four bytes with its sign, and every byte as itself |
| BertGrammar.CallIsTagged | c_src/bert.c:104-135 | each call of the writer puts out the tag of that format, a size or count in its width, and its bytes |
| Bert.PacketDecodes | c_src/bert.c:154-175 | a whole packet with a header of at most 4 bytes: its header is the size of the rest and the rest decodes to the term written |
| StructuralDiff.DiffApplies | src/diff.erl:25-60 | a diff exists if and only if no leaf becomes a map, and applying it strictly to the old tree gives the new one, for any order of keys |
| DiffExact.DiffIsExact | src/diff.erl:25-60 | an edit is in the diff exactly if it is called for: a key that one of two maps lacks, under a path where both trees have maps, or a path where they hold different values and the new one is a leaf, with exactly those values |
| DiffExact.DiffIsOrdered | src/diff.erl:25-60 | for every map deletions come first, then insertions, then updates and whatever lies deeper |
| StructuralDiff.DiffUnder | src/diff.erl:25-31 | the parent path is only put in front of the edits |
| StructuralDiff.DiffBelow | src/diff.erl:25-60 | every edit lies below the parent path and no edit path is a prefix of another |
| StructuralDiff.DiffWithItself | src/diff.erl:37-41 | diffing a tree with itself changes nothing |
| DagUpdate.UpdateIsExact | src/epid.erl:359-377 | for flat specifications the update turns exactly the old connections into the new ones, disconnects only what is connected and never gives a destination two sources |
| DagUpdate.OpsAreExact | src/epid.erl:359-377 | a connection is made exactly if it is new and undone exactly if it is gone; a source that stays is left alone |
| TagU32.DirListOk | src/tag_u32.erl:194-236 | the directory lists every child, and the memo table gathers the substructure of every type met and of all types inside it |
| TagU32.FoldIsFull | src/tag_u32.erl:251-288 | folding a compressed directory over such a table visits the full tree, in order |
| TagU32.DirIsFaithful | src/tag_u32.erl:178-288 | folding what dir returns visits exactly the leaves of the server's tree with the right names and numbers, and the expansion ends |
| TagU32.PathsResolve | src/tag_u32.erl:105-117 | every visit's names, numbers, or any mixture of them resolve to its numbers |
| TagU32.ResolveIsExact | src/tag_u32.erl:97-117 | on any server tree and path, resolving gives some numbers exactly if they follow the path: a number is taken as it is, a name leads to the first child so named |
| TagU32.ResolveFails | src/tag_u32.erl:97-117 | and fails exactly if after some part of the path that resolves the next name is that of no child |
| TaskQueue.StepKeeps | src/task_queue.erl:21-67 | every step keeps one token for a non-empty queue and none for an empty one |
| TaskQueue.Serialises | src/task_queue.erl:21-67 | in every interleaving tasks never overlap, run in order of arrival, every requester gets what its own task returned, once, and the empty-queue throw is unreachable |
| TaskQueue.NeverStuck | src/task_queue.erl:21-67 | while anything waits exactly one internal step is possible |
| TaskQueue.StepsAreBounded | src/task_queue.erl:21-67 | and each one brings the empty queue nearer |
| TaskQueue.AllCanBeServed | src/task_queue.erl:21-67 | any requests can arrive, and all be answered with whatever their tasks return |
| TaskQueue.Handler.HandleTask | src/task_queue.erl:21-33 | queues the request and sends task_next only to an empty queue |
| TaskQueue.Handler.HandleNext | src/task_queue.erl:36-53 | starts the first task if there is one |
| TaskQueue.Handler.HandleDone | src/task_queue.erl:56-67 | answers the first requester, drops it and starts the next task |

## Left out

- RedoTheorems.IncrementalIsSound: is about settled products and runs that evaluated every product with a changed recorded need; RedoComplete.AskingIsSound derives that, and the values of products left alone, from what runs ask for.
- RedoComplete.AskingIsSound: of pushes it needs that stored products without recorded needs are current, because no push reaches them; the literal converse (otherwise the push goes wrong) is false, since such a product may be evaluated because a rule that is run again now needs it.
- RedoSystem: putting a value, collecting needs and the look-up of several values are one step each with the rule step around them; a worker reads and writes only its own entries, or entries already settled, between its messages.
- RedoSystem: a rule is a function of the values its need calls returned; rules that keep other state, return `error` after collecting needs, or read without needing are not modelled, and process ids are never reused within a run.
- redo merge_state and the `'DOWN'` handler: saved state carries dependencies without their inverse, and removing a variable leaves other products' dependencies on it; both break the inverse table.
- redo Makefile export, file names, stamps, scripts, logging and time-outs.
- EpidApp: one proxy is modelled, other processes appear only as external epids; the list of outputs of the generated function and the connection of results to named destinations are not modelled.
- EpidDag.IndicesBelow: maps are walked in the order of their keys, as Erlang does up to 32 keys; beyond that its order is unspecified, and so is the mask the coded fold computes.  Arguments of an operator call are a list in the order of their names for the same reason.
- EpidCproc.LetClause: clauses are data, not C text; static configuration, parameters and the synchronous form without guards are left out, and the guard word is unbounded, so a 33rd input has a bit of its own here.
- Pruning of the log by number of chunks: the source sorts ascending and deletes the tail, so the newest chunks go.
- Player.Cursor: stays inside one chunk; reopening the neighbouring chunk at the ends closes the file before it can fail.
- LogFormat.MakeIndex: takes positions in the file as unbounded numbers, where the source uses the machine's word.
- LogFormat.RebuiltIndexIsRecorded: is about chunks below 4 GiB, the size its index can address.
- Fractional references, broadcast playback, conversion from text, and the Rust iterator, which advances before it slices.
- ZipStream.ReadBack: the values 0xFFFF and 0xFFFFFFFF that ZIP64 reserves are ordinary values to the reader modelled here.
- Leb128, Tokenizer, StructuralDiff, DagUpdate, TagU32: generators, sinks, callbacks and remote calls are values here (bytes still to read, tokens, edits or operations in order, the server's tree), so a reader returns what is left instead of advancing a generator, and what a callback does besides is not captured.
- Leb128.Write: negative integers and floats are not terms of the model; symbols are byte strings, so UTF-8 checking of atoms is left out; at the end of the input the reader fails, as it does on a generator, where reading from a file would return fewer bytes.
- GdbMi: the line prefixes, the scan for single bindings, and the port around them.
- Tokenizer.CsvReads: carriage returns are read as separators that add an empty cell, so rows are printed with line feeds only.
- Bert.Writer.PutUInt: a width of 5 bytes or more, which the C parameter type admits, shifts a 32-bit value by 32 bits or more and has no meaning in C.
- Bert: integers, floats and strings are read but never written; a negative byte count, which means the length of a C string, is the caller's computation here.
- StructuralDiff: the refinement of edits into variables and values, the variant for flat maps and the JSON form.
- TagU32: the flag that also visits maps, errors of the server other than a missing child, and the log of visited nodes; the names of nodes are given, so that a node without a name has its number as name.
- TagU32.Fold: the bound on nested expansion is a parameter, and every bound from the nesting depth on gives the same visits.
- TaskQueue: stray task_next messages from other processes.
- The fold, source and sink libraries, throttling, packet escaping of the remote serial protocol, sockets, ports, databases and the browser side.
