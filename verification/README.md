# PIM-graphs: verified model of the cycle-level core

This project models, in Dafny, the clocked state machines of the PIM-graphs simulator, which stands for a
processing-in-memory accelerator for temporal graph networks, and proves what they do over whole runs. It
follows the code of `src/`, branch by branch. It covers four groups of components.

* **Datapath.** A 16x16 weight-stationary systolic array (`systolic.dfy`), the skewing feeder in front of it
  (`feeder.dfy`), the wavefront that the two produce together (`wavefront.dfy`), and the GRU cell, a phase
  machine that borrows both (`gru.dfy`, `gru_run.dfy`, `gru_lanes.dfy`).
* **Admission.** Sixteen port queues with a round-robin cursor (`ports.dfy`) and the simulator's cycle loop
  (`admission.dfy`), against a memory that accepts and completes as it likes; conservation (`admission_run.dfy`), the
  byte budget (`bandwidth.dfy`), why a cycle stops (`stall.dfy`), when a run drains (`drain.dfy`), the refinement of
  one-at-a-time round robin (`round_robin.dfy`) and its fairness (`fairness.dfy`).
* **Reduction and vertex sequencing.** The pipelined adder tree (`psau.dfy`), the vertex program with its sixteen vaults
  (`vertex.dfy`, `vertex_program.dfy`, `vertex_run.dfy`, `vertex_gather.dfy`, `vertex_progress.dfy`,
  `vertex_gating.dfy`, `vertex_whole.dfy`, `vertex_stages.dfy`, `vertex_lockstep.dfy`), and the bound on hidden states
  along chains of vertices (`bounds.dfy`, `vertex_chain.dfy`).
* **Supporting protocols.** The Piccolo gather controller with its ring buffers (`piccolo.dfy`, `gather_run.dfy`), the
  SIMD core (`simd.dfy`, `simd_run.dfy`, `simd_effects.dfy`), the hierarchical router (`router.dfy`,
  `router_bounds.dfy`) and the feature partitioner (`chunk_grid.dfy`, `partition.dfy`, `partition_balance.dfy`).

Each stateful component is a class whose methods are proved equal to a step function on plain values; the theorems about
runs are lemmas about those step functions. `vectors.dfy` and `arith.dfy` hold shared definitions.

## How the model reads the code

* `float` and `double` are `real`; sigmoid, tanh, the bit cast of gathered words and the time embedding are parameters.
  All that is assumed of sigmoid and tanh are their ranges, in `bounds.dfy` and `vertex_chain.dfy`, and in the two corollaries
  of `gru_lanes.dfy` a sigmoid that is constantly zero or one.
* The GRU phases are written `Load(g)`, `Settle(g)`, `Drain(g)` for the four gates `g`, plus `Idle`, `Apply` and `Done`.
* A weight matrix of the wrong size makes `load_weights` throw. The array reports this by a flag, the cell and the vertex
  program by the answer `Threw`; the state after the throw is the one the C++ objects are left in.
* The memory behind `send` and `tick` is three functions of time: the answer to the n-th `send`, the in-flight positions
  completed in a cycle, and the bursts that the attached hardware enqueues in a cycle. Unless its premises say otherwise,
  a theorem holds for all of them, so for every accept and complete behaviour in which a request completes at most once
  and only inside `tick`.
* The local variables of `run` are fields of the simulator class, so that its contracts can name them.
* `OffsetBuffer` and `DataBuffer` are one class, `RingBuffer`; their code is the same.
* Counters are unbounded. Two wrap-arounds are modelled because they can be reached: the 64-bit address of a gather read,
  and the 32-bit counters of the partitioner's chunk loop.

## Where the code does not do what its comments say

* The product computed by the array is `v * W`, not `W * v`: `out[c]` is the sum over `r` of `W[r*16+c] * v[r]`.
* The comment at `src/gru.hpp:103-105` and the test at `tests/tgn_test.cpp:140-167` intend a full matrix product per
  gate. The cell reads the bottom row once, on array tick 31, when only column 15 carries its dot product; the other
  fifteen read zero. `Wavefront.SingleReadoutSuffices` says exactly for which matrices this is harmless, and
  `GruRun.WeightsReachOnlyLane15` that no weight ever influences the first fifteen lanes of the result.
* The comment at `src/tgn_twophase.hpp:302` says that the wavefront has crossed the array after sixteen compute cycles. By
  `Wavefront.WavefrontAt` a freshly loaded array has emitted nothing by then, and the code latches the caller's vectors in
  any case.
* The full test at `src/piccolo_controller.hpp:126` does not count the reads already outstanding, so a batch larger than
  the data buffer can lose values when its public offset buffer is refilled on the way; `GatherRun.LosesIff` says exactly
  when, and `GatherRun.ConstructedLosesIff` what that means for the capacities of the constructor. The vertex program
  loads offsets only at the start, so there such a batch gets stuck instead: `VertexProgress.StartedGatherEndsIff`.
* A burst larger than what one cycle may admit under a positive cap is skipped on every cycle and blocks its port for
  good (`Drain.OversizeBlocks`); the loop then ends only at the caller's cycle limit. `Drain.DrainsIff` says exactly when
  a run drains.
* The chunk loop of `make_feature_partition` counts in 32 bits. `Partition.EndsIff` says exactly for which configurations
  it ends, and `Partition.CorrectIff` for which it ends in the promised mapping.

## Model

| member | source | states |
|---|---|---|
| Systolic.SystolicArray.LoadWeights | src/systolic_array.hpp:34-43 | exactly 256 weights are accepted, and then the grid is that matrix with every latch zero; otherwise nothing changes |
| Systolic.SystolicArray.Tick | src/systolic_array.hpp:49-93 | the three in-place passes equal one simultaneous step of all 256 cells, and the bottom row is the one before the step |
| Systolic.SteppedIsShift | src/systolic_array.hpp:55-90 | latches moved cell by cell as the backward loops move them make up the simultaneous shift of the grid |
| Systolic.ActAt | src/systolic_array.hpp:81-90 | the activation latched at row r, column c at any time is what entered row r c+1 ticks before |
| Systolic.SumAt | src/systolic_array.hpp:55-79 | every partial-sum latch at every time: the top sum that entered the column plus one product for each row passed |
| Systolic.SpaceTime | src/systolic_array.hpp:34-93 | for all weights, activation streams and top streams, column c at tick t emits the top sum of tick t-16 plus the sixteen products of its diagonal |
| Feeder.ArrayFeeder.PushVector | src/array_feeder.hpp:13-21 | every line i gains i zeros and then lane i |
| Feeder.ArrayFeeder.GetNextActivations | src/array_feeder.hpp:24-33 | pops the head of each line, zero for an exhausted one |
| Feeder.ArrayFeeder.IsEmpty | src/array_feeder.hpp:35-40 | true exactly when all sixteen lines are empty |
| Feeder.FreshFeedAt | src/array_feeder.hpp:13-33 | a push into an empty feeder delivers lane i on pop i and zero at every other time |
| Feeder.AlignedIffLevel | src/array_feeder.hpp:13-33 | a push onto a backlog keeps the wavefront together for every vector if and only if all lines hold equally many values |
| Feeder.EmptyAfterSixteen | src/array_feeder.hpp:24-40 | a feeder that held one vector is empty after k pops if and only if k is at least 16 |
| Wavefront.WavefrontAt | src/systolic_array.hpp:34-93 | one pushed vector makes column c emit its dot product on tick 16+c and zero on every other tick |
| Wavefront.CollectedIsProduct | src/systolic_array.hpp:49-93 | column c collected on tick 16+c gives the whole vector-matrix product |
| Wavefront.ProductTerms | src/systolic_array.hpp:55-79 | entry c of the product is the sum, written out, of the sixteen products of the vector with column c |
| Wavefront.SingleReadout | src/gru.hpp:175-180 | the bottom row on tick 31 is the dot product in column 15 and zero elsewhere |
| Wavefront.SingleReadoutSuffices | src/gru.hpp:103-105 | the single readout equals the full product for every vector if and only if all weights outside the last column are zero |
| Gru.GRUCell.Start | src/gru.hpp:142-150 | a started cell keeps its parameters and gate registers and is about to load the reset gate |
| Gru.GRUCell.Tick | src/gru.hpp:156-297 | one call on the borrowed array and feeder equals one step of the vault, answer and refused weights included |
| GruRun.GatesRun | src/gru.hpp:160-272 | after 34 calls per gate the cell has closed its first i gates, and the feeder is empty at every load |
| GruRun.GatesBusy | src/gru.hpp:156-272 | no call before the gates are through finishes or fails, and every load phase finds the feeder empty |
| GruRun.GatesClosedForm | src/gru.hpp:180-288 | the four gate registers blend to the closed-form GRU expression over the tick-31 readouts |
| GruRun.EndToEnd | src/gru.hpp:142-297 | from a start with 256-entry matrices and an empty feeder, calls 1 to 136 are busy, the 137th is the first to finish, the result is the closed form, and later calls change nothing |
| GruRun.CompletesIffSquare | src/gru.hpp:156-297 | an evaluation ever finishes if and only if all four matrices have 256 entries |
| GruRun.StuckAtLoad | src/gru.hpp:156-170 | a cell whose next matrix has the wrong size throws on every call and never leaves that load |
| GruRun.WeightsReachOnlyLane15 | src/gru.hpp:175-187 | the first fifteen lanes of the result are the same for any two sets of weights |
| GruRun.IdentityIsMissed | src/gru.hpp:107-120 | with the weights that a cell is constructed with the product is the vector itself, but the readout of lane 0 is zero |
| GruRun.NeverStarted | src/gru.hpp:290-297 | a cell that was never started answers false on every call and changes nothing but its call counter |
| GruLanes.ResultLane | src/gru.hpp:146-288 | every lane of the result in plain arithmetic: (1-z)*h + z*n, with z, r and n applied to the biases, the message, and the products with the last columns in lane 15 or zero below it |
| GruLanes.ShutGateKeeps | src/gru.hpp:280-288 | a sigmoid that is always zero returns the hidden state that the evaluation started from |
| GruLanes.OpenGateReplaces | src/gru.hpp:258-288 | a sigmoid that is always one returns the candidate, whose argument is spelled out |
| Psau.PartialSumAccumulationUnit.Tick | src/psau.hpp:27-62 | the in-place stages, last one first, equal one simultaneous update of all pipeline registers |
| Psau.TreeIsSum | src/psau.hpp:31-58 | four levels of pairwise addition give the lane-wise sum of sixteen vectors |
| Psau.Travels | src/psau.hpp:27-62 | from any pipeline contents, stage n holds the vectors and the flag of the n-th last call, added n times over, and the last stage its lane-wise sum |
| Psau.PipelinedReduction | src/psau.hpp:15-62 | call t+4 reports the flag of call t and the lane-wise sum of its sixteen vectors; calls 0 to 3 report invalid zeros |
| Ports.PseudoChannelMultiplexer.Enqueue | src/pseudo_channel.hpp:21-41 | the burst joins the back of its own port and no other queue changes |
| Ports.PseudoChannelMultiplexer.PickNextRoundRobin | src/pseudo_channel.hpp:44-52 | the loop returns the first non-empty port from the cursor on, or -1 |
| Ports.PickFindsWork | src/pseudo_channel.hpp:44-52 | the pick is -1 if and only if every port is empty |
| Ports.PickIsFirst | src/pseudo_channel.hpp:44-52 | the picked port holds a burst, and every port passed on the way up from the cursor, wrapping around after 15, is empty |
| Ports.EnqueuedInOrder | src/pseudo_channel.hpp:21-41 | bursts of one cycle join their ports one after the other, in the order in which they are enqueued |
| Ports.EnqueuedOne | src/pseudo_channel.hpp:21-41 | a single burst joins the back of its own port and no other |
| Ports.PseudoChannelMultiplexer.TotalPendingBursts | src/pseudo_channel.hpp:59-65 | the total is the sum of the queue lengths, and zero exactly when the pick finds nothing |
| Admission.RamulatorHbmSimulator.TryPort | src/ramulator_hbm.cpp:195-242 | one visit offers the head unless the port is empty, held or over budget, and only an accepted head moves the cursor and the counters |
| Admission.RamulatorHbmSimulator.Admit | src/ramulator_hbm.cpp:187-244 | the nested loops equal the wave recursion: full sweeps until one admits nothing, at most 256 |
| Admission.RamulatorHbmSimulator.Reply | src/ramulator_hbm.cpp:218-230 | the callback removes the request from flight and updates the four counters |
| Admission.RamulatorHbmSimulator.Run | src/ramulator_hbm.cpp:66-84 | the run is the iterated cycle from zeroed counters; it stops early only with idle hardware, empty ports and nothing in flight, one of which fails before every cycle that it ran, and busy hardware keeps it going to the limit |
| AdmissionRun.RunKeeps | src/ramulator_hbm.cpp:84-249 | in every reachable state admitted = completed + in flight for bursts and bytes, at most one serialized sparse read is in flight, and each port has sent a FIFO prefix of what it was given |
| AdmissionRun.RepliedCounts | src/ramulator_hbm.cpp:219-226 | the guards against negative counters in the callback are never needed |
| AdmissionRun.OfferedIff | src/ramulator_hbm.cpp:195-213 | a visit offers a head if and only if there is one, it is not a read of 64 bytes or more without a callback held back by another one in flight, and under a positive cap it fits the rest of the cycle up to 1e-6 bytes |
| AdmissionRun.OneSerializedRead | src/ramulator_hbm.cpp:204-209 | under serialization two such reads are never in flight together |
| AdmissionRun.SlotStaysTaken | src/ramulator_hbm.cpp:187-247 | the memory ticks behind the waves: such a read in flight at the start of a cycle keeps others out for the whole cycle, even if it completes in it |
| AdmissionRun.DrainedRun | src/ramulator_hbm.cpp:66-84 | a run that ends for want of work has idle hardware and nothing in flight, has moved every byte it admitted, and every port has sent all it was given, in order |
| Drain.DrainsIff | src/ramulator_hbm.cpp:66-244 | if the memory neither refuses nor stalls for ever and the hardware is done by some cycle, a later cycle finds every port empty and nothing in flight if and only if the cap is off or no burst ever enqueued is larger than GB/s times period plus 1e-6 |
| Drain.OversizeBlocks | src/ramulator_hbm.cpp:211-213 | a burst over the limit plus the slack keeps its port non-empty in every later state, under every memory |
| Drain.OldestFirstIsResponsive | src/ramulator_hbm.cpp:246-247 | a memory that accepts infinitely often and completes its oldest request in every cycle meets the premise of the drain |
| Bandwidth.CycleBudget | src/ramulator_hbm.cpp:54-56 | under a positive cap no cycle admits more than the limit plus the slack, for mixed sizes and any refusals |
| Bandwidth.BandwidthBound | src/ramulator_hbm.cpp:21-30 | bytes moved <= bytes admitted <= cycles * (limit + 1e-6), and the reported rate is at most the cap plus 1e-6/tCK |
| Bandwidth.RateIsExact | src/ramulator_hbm.cpp:21-30 | the reported rate times the simulated nanoseconds is exactly the bytes moved; without simulated time it is zero |
| Stall.WorkConserving | src/ramulator_hbm.cpp:189-244 | a cycle that stops before 256 waves leaves each non-empty port held, over budget, or refused since the last admission |
| RoundRobin.WavesRefineRoundRobin | src/ramulator_hbm.cpp:187-244 | with an accepting memory, no serialization and no cap or one size, the ports served, the queues left and the final cursor are those of iterated pick, pop and advance |
| Fairness.RunTurns | src/ramulator_hbm.cpp:187-244 | every send of a run under the refinement's assumptions is the round-robin pick at the cursor just past the previous send, from queues that hold what was there and what arrived up to that cycle, less what was admitted |
| Fairness.RunFairness | src/pseudo_channel.hpp:44-55 | between two admissions from one port, any other port that holds a burst at the send right after the first is admitted from as well, across sweeps, waves and cycles of a run |
| Fairness.UnlimitedCycle | src/ramulator_hbm.cpp:187-244 | without a cap one cycle removes exactly min(length, 256) bursts from the front of every port |
| VertexProgram.TGNVertexProgram.StartVertex | src/tgn_twophase.hpp:135-169 | counters and vectors cleared, every connected controller rearmed, aimed and loaded with offsets, everything else unchanged |
| VertexProgram.TGNVertexProgram.Tick | src/tgn_twophase.hpp:186-218 | one call on the borrowed hardware equals the tick of the whole world, with its answer; a cell that throws stops the sweep over the vaults |
| VertexProgram.TGNVertexProgram.TickGather | src/tgn_twophase.hpp:247-282 | every controller ticks; once all are done each hands at most sixteen values, zero-padded, to its feeder |
| VertexProgram.TGNVertexProgram.TickCompute | src/tgn_twophase.hpp:291-310 | every connected array and feeder advances once, and the sixteenth cycle latches the offered vectors |
| VertexProgram.TGNVertexProgram.TickDrain | src/tgn_twophase.hpp:323-345 | the tree receives the latched vectors once and then bubbles, until a valid output or the safety valve |
| VertexProgram.TGNVertexProgram.TickLoad | src/tgn_twophase.hpp:356-370 | waits for the hidden state, then starts all sixteen cells on it and the message |
| VertexProgram.TGNVertexProgram.TickGru | src/tgn_twophase.hpp:378-411 | clocks the unfinished cells in order and averages all sixteen results once every vault counts as done |
| VertexProgram.TGNVertexProgram.LoadGruWeights | src/tgn_twophase.hpp:110-117 | all sixteen cells receive the same four matrices |
| VertexProgram.TGNVertexProgram.IncrementVertexCount | src/tgn_twophase.hpp:234 | raises the vertex count and nothing else |
| VertexRun.HistoryLaw | src/tgn_twophase.hpp:135-234 | over every history of vertices, cycles, replies and outside counts, total = sum of the five stage counters (plus 1 once complete), and the vertex count is the completions plus the outside counts |
| VertexRun.StagesForward | src/tgn_twophase.hpp:186-218 | within one vertex stages advance only in declared order, one at a time |
| VertexRun.ComputeRun | src/tgn_twophase.hpp:291-310 | the compute stage lasts exactly 16 cycles and latches what the last of them offers |
| VertexRun.DrainRun | src/tgn_twophase.hpp:323-345 | whatever the tree holds, the drain ends when a valid vector leaves it and never by the safety valve |
| VertexRun.DrainFromFlushed | src/tgn_twophase.hpp:323-345 | from a flushed tree the drain lasts exactly 5 cycles, the message is the lane-wise sum, and the tree is flushed again |
| VertexGather.StartArms | src/tgn_twophase.hpp:161-168 | a start call arms a connected controller with the offsets that fit, whatever it did before; every read is of element size, on the controller's port, at vertex address + offset * size modulo 2^64 |
| VertexGather.StartClears | src/tgn_twophase.hpp:135-154 | a start call stores the configuration and clears every register but the vertex count; vaults, tree and queues stay as they are |
| VertexGather.WhileGathering | src/tgn_twophase.hpp:247-259 | during the gather every controller runs its own protocol, one tick and its own replies per cycle, and no vault is touched |
| VertexGather.GatherFeeds | src/tgn_twophase.hpp:247-282 | when the gather ends every vault has read each element once, in offset order, and its feeder holds one more vector, whose lane d is word d of the replies or zero; words from the sixteenth on stay in the data buffer in order |
| VertexGather.GatherSkips | src/tgn_twophase.hpp:261-279 | a vault without a controller is left as it was |
| VertexGather.ReadsInVaultOrder | src/tgn_twophase.hpp:247-259 | one tick of the stage enqueues one read of every controller that may issue, vault after vault |
| VertexProgress.NeverLeaves | src/tgn_twophase.hpp:247-259 | with one infeasible batch, for instance more elements than stored offsets, the gather stage never ends under any memory |
| VertexProgress.GatherEndsIff | src/tgn_twophase.hpp:247-282 | some memory lets the gather end if and only if every connected controller has an empty batch, or enough offsets, a positive limit and buffer, and a batch below their sum |
| VertexProgress.StartedGatherEndsIff | src/tgn_twophase.hpp:161-168 | with constructed controllers a vertex can leave the gather exactly when its neighbours are at most 256 and at most the given offsets |
| VertexGating.GatingRun | src/tgn_twophase.hpp:378-411 | the gated update lasts exactly 137 cycles, or one when no vault is connected, and every cell runs as if alone |
| VertexGating.AverageOfResults | src/tgn_twophase.hpp:402-409 | the result is the common closed form weighted by the share of connected vaults |
| VertexGating.FullShare | src/tgn_twophase.hpp:402-409 | with sixteen vaults connected the average is the common result itself |
| VertexWhole.GenUpdate | src/tgn_twophase.hpp:247-345 | gather, 16 compute cycles and 5 drain cycles give the sum of the latched vectors, and the feeders are empty again |
| VertexWhole.VertexCompletes | src/tgn_twophase.hpp:135-422 | a vertex completes after g+16+5+l+137+1 cycles with matching counters and the closed-form result, and leaves the hardware ready for the next one |
| VertexStages.VertexAnswers | src/tgn_twophase.hpp:186-218 | every call during a vertex answers false except the last, which answers true; afterwards every call answers true and changes nothing |
| VertexStages.InactiveAnswers | src/tgn_twophase.hpp:186-190 | before the first vertex a call answers false and changes nothing |
| VertexStages.SweepStops | src/tgn_twophase.hpp:378-395 | the first refused matrix ends the sweep: earlier vaults have had their clock, its cell has counted the call, later vaults are untouched, and the program throws and stays in its stage |
| VertexStages.LoadBegins | src/tgn_twophase.hpp:333-344 | the drain hands over with the arrival flag cleared, unless the hidden state arrives in that very cycle |
| VertexStages.LoadEnds | src/tgn_twophase.hpp:356-370 | the wait ends with the cycle after the one in which the hidden state arrives, and every cell is started on the vector that arrived and the reduced message |
| VertexStages.ComputeGrid | src/tgn_twophase.hpp:291-310 | after k compute cycles the array of a vault that was fed one vector stands at tick k of its wavefront |
| VertexStages.ComputeEmitsNothing | src/tgn_twophase.hpp:291-310 | in its sixteen cycles the compute stage gets only zeros out of a freshly loaded array that was fed one vector |
| VertexStages.ShareIsFraction | src/tgn_twophase.hpp:402-409 | lane d of the average is the common result times the number of connected vaults over sixteen |
| VertexStages.SumTerms | src/psau.hpp:31-58 | lane d of the message is the sum, written out, of that lane of the sixteen latched vectors |
| VertexLockstep.BroadcastKeepsAlike | src/tgn_twophase.hpp:101-124 | new cells are alike, and broadcast weights and biases keep them so |
| VertexLockstep.GatingAlike | src/tgn_twophase.hpp:378-393 | connected cells that start the gated update alike share phase, counter and gate values on every cycle of it |
| VertexLockstep.VertexInLockstep | src/tgn_twophase.hpp:135-422 | if the connected cells are alike when a vertex starts, they are alike before every cycle of the vertex and when it completes |
| VertexLockstep.FullyConnectedVertex | src/tgn_twophase.hpp:378-411 | with sixteen vaults connected the gated update takes exactly 137 cycles and the result is the common closed form |
| VertexChain.SegmentCompletes | src/tgn_twophase.hpp:135-422 | a vertex started on hardware at rest leaves it at rest, with the averaged closed form of what it loaded as its result |
| VertexChain.ChainStaysWithin | src/tgn_twophase.hpp:395-410 | along any chain of vertices run by the program, each with its own weights and loading its predecessor's result, every result stays within a bound B >= 1 on the first hidden state |
| Bounds.CellWithin | src/gru.hpp:280-288 | if every lane of the hidden state lies within B >= 1 of zero then so does every lane of the new one, for all weights, biases and messages |
| Bounds.ShareWithin | src/tgn_twophase.hpp:402-409 | the average over at most sixteen vaults stays within the same bound |
| Bounds.BoundIsSharp | src/gru.hpp:280-288 | a non-negative bound is always kept if and only if it is at least 1 |
| Piccolo.RingBuffer.Push | src/piccolo_controller.hpp:30-39 | appends to the FIFO contents across the wrap-around, or nothing when full |
| Piccolo.RingBuffer.Pop | src/piccolo_controller.hpp:44-50 | drops the oldest value across the wrap-around, or nothing when empty |
| Piccolo.RingBuffer.Front | src/piccolo_controller.hpp:41 | the oldest value, or zero when empty |
| Piccolo.PiccoloGatherController.TickIssue | src/piccolo_controller.hpp:125-138 | issues one read at base + offset * size, modulo 2^64, when count, limit, offsets and room allow it |
| Piccolo.PiccoloGatherController.OnReadComplete | src/piccolo_controller.hpp:141-148 | stores the value and counts it, or ignores a reply when nothing is outstanding |
| Piccolo.PiccoloGatherController.ResetForNewBatch | src/piccolo_controller.hpp:150-157 | both buffers and the three counts cleared, the batch size set |
| GatherRun.ProtocolInvariant | src/piccolo_controller.hpp:125-161 | with offsets pushed and values read at any time, issued = completed + outstanding, both limits hold, and the k-th read asks for the k-th offset ever stored |
| GatherRun.LosesIff | src/piccolo_controller.hpp:126-145 | some schedule loses a gathered value if and only if the batch is larger than a non-empty data buffer, offsets can be stored, and two reads may be in flight |
| GatherRun.ConstructedLosesIff | src/piccolo_controller.hpp:115-126 | a controller as constructed can lose a value exactly when its batch exceeds 256 elements |
| GatherRun.Progress | src/piccolo_controller.hpp:125-161 | with enough offsets stored and room a batch is never stuck, and each effective event brings done one step closer |
| GatherRun.NothingLost | src/piccolo_controller.hpp:141-161 | a batch that fits the buffer keeps every value in reply order |
| Simd.SIMDCore.LoadProgram | src/simd_core.hpp:63-72 | replaces the program and clears the stall |
| Simd.SIMDCore.RunLanes | src/simd_core.hpp:189-228 | the in-place lane loop equals lanes applied one after the other, clipped where a register number runs off the file |
| Simd.SIMDCore.Tick | src/simd_core.hpp:119-265 | one clock issues at most one of the modelled instructions: a LOAD goes to the router and freezes the core, a PUSH_ARR feeds the array, the rest update registers |
| Simd.SIMDCore.OnMemoryReply | src/simd_core.hpp:267-285 | a reply fills at most sixteen registers within the file and unfreezes the core; it is ignored when nothing is outstanding |
| SimdEffects.ScalarTick | src/simd_core.hpp:179-188 | ADD_VEC and MUL_VEC put the sum or the product of the two sources into the destination and change nothing else |
| SimdEffects.EmptyTick | src/simd_core.hpp:259-263 | NOP and STORE change no register |
| SimdEffects.LoadTick | src/simd_core.hpp:144-167 | LOAD requests its address and size on the core's port and freezes the core on its destination |
| SimdEffects.PushTick | src/simd_core.hpp:168-178 | PUSH_ARR hands over the sixteen registers from the source on, in order |
| SimdEffects.ActivationTick | src/simd_core.hpp:189-204 | SIGMOID and TANH: each lane applies its function to what it finds in the source register, old or written by an earlier lane; the number of lanes is exact and nothing else changes |
| SimdEffects.ProductTick | src/simd_core.hpp:206-213 | HADAMARD: each lane multiplies what it finds in the two source registers, with the same exactness |
| SimdEffects.EmbedTick | src/simd_core.hpp:219-229 | TIME_ENCODE: lane i of at most sixteen gets the embedding of the timestamp at i |
| SimdEffects.ReplyEffect | src/simd_core.hpp:267-286 | a reply writes its first sixteen values, as far as they fit, from the destination on, unfreezes the core and changes nothing else |
| SimdRun.RunAgrees | src/simd_core.hpp:119-285 | under any clocks and replies the core agrees with the sequential meaning of the instructions that have ended; at most one read is outstanding, and the pending register is -1 exactly when not stalled |
| SimdRun.DoneIsSequential | src/simd_core.hpp:119-293 | a finished core holds exactly the sequential outcome: registers, pushed vectors and requested reads |
| SimdEffects.OneScalar | src/simd_core.hpp:179-188 | a program of one ADD_VEC, MUL_VEC, NOP or STORE ends with the sum, the product or the old registers, under any clocks and replies |
| SimdEffects.OneEmbedding | src/simd_core.hpp:219-229 | a program of one TIME_ENCODE ends with the embedding in its lanes |
| SimdEffects.OneLoad | src/simd_core.hpp:144-167 | a program of one LOAD ends with one request made and the payload in the registers it fits |
| SimdEffects.OneActivation | src/simd_core.hpp:189-204 | a program of one activation without feedback ends with the function of the old registers |
| SimdEffects.OneProduct | src/simd_core.hpp:206-213 | a program of one HADAMARD without feedback ends with the products of the old registers |
| SimdEffects.OnePush | src/simd_core.hpp:168-178 | a program of one PUSH_ARR ends with one vector pushed and the old registers |
| SimdRun.LatencyInsensitive | src/simd_core.hpp:120-285 | two runs to the end over the same memory content end in the same core, whatever the delays |
| SimdRun.DoneIff | src/simd_core.hpp:120-293 | done if and only if the core has moved once per instruction and once more per LOAD; all other events change nothing |
| SimdRun.OverlapIterates | src/simd_core.hpp:189-203 | a destination above the source feeds on its own results: the activation is iterated once more per full gap |
| SimdRun.UnarySimultaneousIff | src/simd_core.hpp:189-203 | for every register file and activation the in-place loop gives what the old values alone give, if and only if the destination does not lie above the source within its lanes |
| SimdRun.ProductSimultaneousIff | src/simd_core.hpp:206-212 | the same for the element-wise product and both of its sources |
| Router.HierarchicalRouter.EnqueueRequest | src/hierarchical_router.hpp:22-28 | addresses from 0x80000000 on join the global queue, others the local one |
| Router.HierarchicalRouter.Tick | src/hierarchical_router.hpp:30-47 | grants both credits, then drains the local and the global queue into the ports |
| Router.DrainsLongestPrefix | src/hierarchical_router.hpp:34-46 | a drain forwards exactly the longest prefix of the queue that the credit can pay for |
| Router.CreditLaw | src/hierarchical_router.hpp:22-47 | over any interleaving, each class delivers a FIFO prefix of its requests, delivered bytes plus credit are what was granted, credit >= 0, and after a tick no class can afford its head |
| RouterBounds.CreditByAddress | src/hierarchical_router.hpp:22-47 | requests at or above 0x80000000 and requests below it are delivered independently, each in order; bytes delivered plus credit are what the rate has granted, and right after a tick the grant is used up to within the head that waits |
| RouterBounds.ConstructedRates | src/hierarchical_router.hpp:12-20 | a router built for a clock delivers at most 64 GB/s worth of bytes from addresses at or above 0x80000000 and 512 GB/s worth from below, and while bursts wait less by at most one of them |
| RouterBounds.TickForwards | src/hierarchical_router.hpp:30-47 | a tick delivers the longest affordable prefix of the local queue and behind it that of the global queue, and takes exactly their bytes off the credits |
| Router.GrantedIsRateTimesTicks | src/hierarchical_router.hpp:30-32 | what was granted is rate times ticks |
| Router.OwnPort | src/hierarchical_router.hpp:36-46 | from any port contents, whatever other hardware enqueues directly and the memory takes, every burst reaches its own port in the order of entry |
| Router.BacklogUsesRate | src/hierarchical_router.hpp:30-47 | while a tick leaves a burst behind, the bytes sent fall short of the grant by less than that burst |
| Partition.MakeFeaturePartition | src/feature_partitioner.hpp:84-111 | for every configuration on which the loop ends, the result is its final mapping, 32-bit wrap-around included; a zero dimension, vault or chunk count is refused |
| Partition.NoWrapFinishes | src/feature_partitioner.hpp:99-108 | without wrap-around the loop ends and assigns dimension d to vault (d / chunk) % vaults |
| Partition.EndsIff | src/feature_partitioner.hpp:101 | the loop ends if and only if the dimensions are at most 2^32 less the largest power of two that divides the chunk size |
| Partition.CorrectIff | src/feature_partitioner.hpp:99-108 | the loop ends in the promised mapping if and only if the last chunk's end does not wrap around, or there is one vault and the loop ends at all |
| Partition.NeverEnds | src/feature_partitioner.hpp:101 | an input that is affected: chunk 2 and 2^32-1 dimensions |
| Partition.MakeRowInterleavedPartition | src/feature_partitioner.hpp:64-79 | chunk size 1: dimension d goes to vault d % vaults |
| Partition.MakeHybridPartition | src/feature_partitioner.hpp:52-121 | the threshold picks the mode, the errors are those of the chosen branch, and the mapping is a striping with the reported chunk size exactly if there is no wrap-around or one vault, or rows are interleaved |
| Partition.DimsPerVault | src/feature_partitioner.hpp:123-132 | the number of dimensions of every vault, or an error when some vault number is out of range |
| Partition.CountsSum | src/feature_partitioner.hpp:123-132 | the counts add up to the number of dimensions |
| PartitionBalance.StripeCounts | src/feature_partitioner.hpp:81-111 | the exact count of every vault: whole rounds, whole chunks of the last round, and a rest |
| PartitionBalance.Balanced | src/feature_partitioner.hpp:81-111 | any two vaults differ by at most one chunk |
| PartitionBalance.PerfectlyBalancedIff | src/feature_partitioner.hpp:81-111 | all vaults hold equally many if and only if chunk * vaults divides the dimensions |
| PartitionBalance.ComputePartitionStats | src/feature_partitioner.hpp:134-154 | minimum, maximum, average and ratio of the counts, zeros without vaults, the error of the counting passed on |
| PartitionBalance.ImbalanceIsExact | src/feature_partitioner.hpp:148-152 | the ratio times the number of dimensions is the largest count times the number of vaults; without dimensions it is zero |
| PartitionBalance.ImbalanceBound | src/feature_partitioner.hpp:148-152 | the imbalance ratio of a striping is at most 1 + chunk * (vaults - 1) / dimensions |

## Left out

- Simd.SIMDCore.Tick: the opcodes GATHER and GRU_UPDATE and their two stalls are missing; they hand over to the gather controller and to the GRU cell, which are modelled on their own. Register numbers that the original uses unchecked (ADD_VEC, MUL_VEC, PUSH_ARR, the destination of a LOAD) are required to be in range; out of range the original's behaviour is undefined.
- Partition.MakeFeaturePartition: requires that the chunk loop ends, by a bound on the configuration that is proved to be exact; otherwise the original never returns.
- Partition.MakeHybridPartition: requires the same bound when the chunk loop's branch is taken.
- GatherRun.ProtocolInvariant: a batch starts with nothing outstanding; replies to reads of an earlier batch that arrive after a reset, and a base address, limit or buffer replaced during a batch, are not covered.
- SimdRun.RunAgrees: starts from a core with no read outstanding; a reply to a read of an earlier program that arrives after the next program is loaded is not told apart.
- VertexRun.StagesForward: speaks of one vertex; a new start call sets the stage back to gathering.
- VertexWhole.VertexCompletes: gather and load may take any number of cycles; that they end is a premise. Whether the gather can end is settled by `VertexProgress.GatherEndsIff`, and `VertexStages.LoadEnds` says when the load ends.
- Admission.RamulatorHbmSimulator.Run: the hardware that the original ticks in src/ramulator_hbm.cpp:85-184 appears only as the bursts it enqueues per cycle and as busy or not.
- VertexProgram.TGNVertexProgram: assumes that arrays, feeders, controllers and the tree are not shared between vaults or with other code.
- The wiring in `run` that ticks feeders, arrays, the tree and the controllers both directly and through the vertex program.
- Equality of the latched compute inputs with transformed gathered features: the compute stage discards its own array outputs.
- The number of writeback bursts per vertex: the ready flag stays set until the next start call, and `run` tests it on every cycle.
- Bursts left in the router at the end of a run: the work test does not look at the router.
- Port numbers outside 0 to 15, on which `port` throws: a burst carries a valid port number by its type.
- Ramulator timing, configuration files and finalization; callbacks that outlive a run.
- IEEE rounding and the values of exp, tanh, sin and cos.
- `load_sequential_workload`, the bandwidth oracle, string helpers, Python bindings and the test programs.
