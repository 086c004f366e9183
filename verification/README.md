# faultflow in Dafny

faultflow is a design-for-test and test-generation tool: it stitches scan chains
into a gate-level netlist, cuts the scanned netlist into a combinational view,
generates and grades stuck-at tests on that view, and turns them into shift
sequences for a chip tester. This project models the Python layer that does the
netlist surgery, the shift geometry and the campaign bookkeeping, and proves that
each transformation keeps the meaning of what it transforms.

## One netlist semantics

`Netlist.dfy` gives a module its meaning equationally. A *valuation* assigns a
value to every net; it is *settled* for given inputs and flop states when every
input port and every driven net agrees with what its driver computes. A stuck-at
fault forces one net. Gate functions are a parameter (the cell library); only the
cells faultflow itself inserts (buffers, inverters, AND, OR) and flops, scan flops
and wrapper cells have fixed meaning. `NetlistEval.dfy` shows that for an acyclic,
singly driven module there is exactly one settled valuation on driven nets, so
relational results ("every settled valuation of the view comes from one of the
netlist, and back") are results about what a simulator computes. Port and instance
names are a structural type: `Made(tag, base)` stands for a name faultflow builds
from an existing one (`__ppi_x`, `__ppo_x`, ...).

## What is proved

* **The reduced view** (`View*`, `BitIndex`). The in-place builder, working through an incremental index, produces
  a view which, with every pseudo-input at its flop's state, shows on every kept
  output what the netlist shows and on every pseudo-output what the flop captures,
  asynchronous override included; under every stuck-at fault off the scan enable,
  and whatever order the flops are cut in. The netlist is always shown by the view;
  the view comes from the netlist exactly when no dropped clock or scan input is
  forwarded to a port that stays. The branches it makes do what they are for: with the
  branch of one flop's D or control pin stuck the view shows what the netlist shows with
  that one pin stuck and every other reader of its net as it was, and a lone reader of a
  flop output shares its net with no primary output.
* **The protocol** (`Shift`, `Protocol`, `Grading`, `Tester`, `Serialize`, `ScanRun`). Load,
  capture and unload are cycles of the netlist, not of an idealised register; they
  are proved to act as shift registers. Off the scan path the view detects a fault
  if and only if the whole protocol does, whether the fault appears at capture, as in
  the simulator, or is in the chip while the chains are loaded. For a stuck flop
  output the exact condition is given. The couples a launch-on-shift solver is given are met exactly
  by the vectors that one more shift of the netlist produces.
* **Stitching** (`ChainLengths`, `ScanPlan`, `Stitch*`). The chain plan is optimal
  and refuses only when no plan exists; the stitched netlist stays acyclic, keeps every
  flop on its own clock, behaves as the original over every run with scan enable low,
  edges read off each netlist's own clock pins, under every fault but the stuck output of
  a flop that holds (with the exact condition there), passes the structural check, is
  threaded for the protocol, and its view is the original with its flops opened and no
  scan port left.
* **Checking** (`ScanChecks`, `WrapperTrace`, `ScanRoundTrip`). The check passes exactly when the
  chain cells are partitioned into simple scan-in to scan-out paths; a passing
  netlist is one the protocol results apply to.
* **Composition and fusion** (`Compose*`, `Fuse*`). Flattening blocks into glue and
  removing IEEE 1500 wrapper cells for INTEST keep meaning. For both the condition is
  exact: the wiring of any number of blocks, and that core and system meet only
  through wrapper cells.
* **The campaign** (`Campaign*`, `Waves`, `Redundancy`). Parallel
  waves give the serial round's result; the seen-set and the recorded detections
  stay exact over every run; every fault is asked at the tier its timeouts have earned,
  up to the last before a stall; every vector a round adds was solved for a fault and
  passed the check for it; a run goes on exactly while there is something to try; a
  redundant verdict is right exactly when nothing was blocked.
* **Retargeting, compaction, cycle search** (`Retarget`, `Compaction`, `CombCycle`,
  `CycleRank`). A clean feedback check is tied to the rank that the netlist results
  start from.

The hypotheses of these results can be met: `StitchModule` and `StitchedView` turn
any fitting netlist into a stitched one with its view, `StitchedSameDesign` puts it
under the grading results, `ComposeAll` and `FuseView` build what the composition
and fusion results ask for, and `QStemExample` is a complete small design.

## Where the code and its documentation part

In each case the model follows the code, a lemma gives a concrete failing input,
and another gives the exact condition.

* *Trusting view detections of stuck flop outputs.* The comment at
  `faultflow/scan/detection_pipeline.py:819-841` and
  `tests/python/scan/test_q_stem_grade_equivalence.py` take a view detection as a
  protocol detection. Unloading passes through the stuck output, so a mismatch seen
  only at pseudo-outputs at or before the flop is masked. `TrustMisplaced` is a
  two-flop example; `TrustExact` and `QStemGrade` say when trust is right. The
  capture-value credit at lines 869-892 is sound (`CaptureCredit`).
* *Redundant faults.* `docs/user_guide/outputs.md:61` calls redundant faults proven
  untestable, and `tests/python/atpg/test_progressive_atpg.py:531-597` expects the
  same redundant set with and without `fault_drop_sat`. Without dropping, a fault's
  only test can be accepted for another fault, turned down as a duplicate, blocked,
  and the resulting UNSAT marks the fault redundant (`RedundantLost`). A verdict is
  right exactly when nothing was blocked for the fault, and with dropping nothing
  ever is (`RoundClassifies`, `RunCampaign`).
* *A clock forwarded to an output.* `_drop_dangling_scan_ports` asks only whether a
  cell uses the port's net, so a clock wired through to an output port is dropped
  and the output that stays loses its driver (`ClockForwarded`). `DropExact` says
  when dropping keeps meaning, `ViewExactly` when the whole view does.
* *Flattening.* `_build_remap` drops the wiring of three kinds of port: an input that
  a block cell reads and the glue ties to a constant (`TiedInputLost`), an output
  that is constant inside the block (`ConstantOutputLost`), and a block net on two
  ports wired to different glue nets (`FeedthroughLost`). `FlatExact`: flattening
  keeps meaning exactly when no instance has one of these.
* *INTEST fusion.* The docstring of `fuse_wbr_into_view` says the system side of each
  wrapper cell is dropped. A port goes only when it has exactly one net, so a bus of
  wrapped outputs stays and floats (`BusFloats`); `KeptPortExact` says which ports
  still show the netlist. A net that is both an input cell's system net and an output
  cell's core net loses its driver and with it the pseudo-output
  (`FeedthroughFloats`); `FuseExactly` says when the core is kept.
* *A flop with another output connected* leaves that net undriven after stitching
  (`OtherOutputLost`, `SecondOutputLost`); every net keeps its driver exactly when
  there is no such output (`DriversKept`).
* *A stuck output of a holding flop.* The hold multiplexer reads the stuck net where
  the library flop kept its own state (`StuckHoldLost`); `CaptureExact` says when
  the two capture the same.
* *Combinational feedback.* The search skips self-edges, so a cell that reads its
  own output is not reported (`SelfLoopMissed`, `FeedbackIs`). It skips flops, so a
  loop through an asynchronous control is not reported (`ResetLoopMissed`), nor one
  through a shiftable wrapper cell, which is a flop in the cell map and transparent in
  the netlist (`WrapperLoopMissed`). `CheckExact` and, for single-bit gates,
  `GateCheckExact` say exactly when a netlist has a rank in terms of the report.
* *Tracing a wrapper chain.* The docstring at `faultflow/project/soc_scan.py:52-58`
  says a successful trace is exactly one the check accepts; the trace looks neither
  at clocks and enables nor at the scan-out end (`TraceNotEnough`; `TraceAccepted` is
  the exact condition).
* *Pattern keys* of vectors over different names can collide (`KeysCollide`); for
  given sets of extra names they tell vectors apart exactly when the sets are equal
  or differ in size (`KeyExact`).
* *Cube don't-cares* are found one input at a time and need not hold together
  (`CubeNotEnough`). Any filling is safe for every simulator exactly when at most
  one input is dropped (`CubeExact`); merges are sound because each is simulated
  again.
* *Access segments.* Sorting by offset leaves an empty segment after a full one of
  the same offset, and the chain is refused although it can be tiled
  (`EmptyRefused`); `ParseExact` is the exact condition.
* *Index rewiring* drops literals from a multi-bit pin that mixes them with the
  rewired net (`MixedPinLost`), so it is a substitution exactly when no such pin
  exists (`RewireIsSubstitute`).

## Model

| member | source | states |
|---|---|---|
| NetlistEval.EvaluatedSettles | src/core/sim/golden_ref/golden_ref_sim.cpp:87-150 | evaluating nets in rank order, the forced net aside, settles every acyclic singly driven module |
| NetlistEval.SettledUnique | src/core/sim/golden_ref/golden_ref_sim.cpp:87-150 | any two settled valuations agree on every driven net of an acyclic module |
| Netlist.SettledSub | faultflow/scan/atpg_view.py:287-326 | replacing a net by a fresh one everywhere outside the kept ports keeps the settled valuations, both ways, with the fault moved along |
| BitIndexes.RewireIsSubstitute | faultflow/scan/atpg_view.py:287-326 | rewiring equals substitution in every cell if and only if no pin mixes the net with literals |
| BitIndexes.MixedPinLost | faultflow/scan/atpg_view.py:287-326 | a two-bit pin with a constant beside the rewired net loses the constant |
| BitIndexes.BitIndex.constructor | faultflow/scan/atpg_view.py:233-252 | the index holds exactly the cell and port sites of every net of the module |
| BitIndexes.BitIndex.AddCell | faultflow/scan/atpg_view.py:254-263 | adding a cell keeps the index exact |
| BitIndexes.BitIndex.RemoveCell | faultflow/scan/atpg_view.py:265-281 | removing a cell keeps the index exact |
| BitIndexes.BitIndex.ConsumerCount | faultflow/scan/atpg_view.py:283-285 | the count is the number of cell pins that carry the net, found by a full scan |
| BitIndexes.BitIndex.Rewire | faultflow/scan/atpg_view.py:287-326 | rewiring through the index changes what a full scan would change, ports known at construction only, and keeps the index exact; rewiring a net to itself included |
| ScanView.CutBack | faultflow/scan/atpg_view.py:676-839 | a settled valuation of a module with one flop cut comes from one of the module, and the new output shows the flop's captured value, override included |
| ScanView.CutForth | faultflow/scan/atpg_view.py:676-839 | a settled valuation of the module extends to one of the module with the flop cut, with the captured value at the new output |
| ViewFinish.ViewForth | faultflow/scan/atpg_view.py:630-839 | whatever the netlist shows with scan enable off, the whole reduced view shows with pseudo-inputs at the flop states, under any fault off the enable |
| ViewFinish.ViewBack | faultflow/scan/atpg_view.py:630-839 | whatever the reduced view shows, the netlist shows, when no dropped input is forwarded to a port that stays |
| ViewDrop.UsedAfterCuts | faultflow/scan/atpg_view.py:154-178 | after all cuts a net no flop drives is used by a cell exactly when a cell that stays has it or a cut flop has it on D or its control |
| ViewExact.DropExact | faultflow/scan/atpg_view.py:154-178 | dropping the dangling ports keeps the settled valuations if and only if no dropped input is on a port that stays |
| ViewExact.ViewExactly | faultflow/scan/atpg_view.py:630-839 | the reduced view is explained by the netlist if and only if no droppable input it no longer reads is forwarded to a port that stays |
| ViewExact.ClockForwarded | faultflow/scan/atpg_view.py:154-178 | a clock wired through to an output is dropped and the output floats |
| ViewBuilder.NextNetId | faultflow/scan/atpg_view.py:56-73 | the least id above every net of the module |
| ViewBuilder.DecideShared | faultflow/scan/atpg_view.py:736-742 | the decision on the untouched netlist: true exactly when the D net has another site, or the constant another reader |
| ViewBuilder.CutInPlace | faultflow/scan/atpg_view.py:676-839 | cutting one flop in place through the index gives the cut module, the next free id and the net that now drives the readers |
| ViewBuilder.DropPorts | faultflow/scan/atpg_view.py:154-178 | exactly the listed one-net ports whose net no cell uses are removed |
| ViewBuilder.ClockPorts | faultflow/scan/atpg_view.py:141-152 | a port with just that net for every clock net that has one, and no other port |
| ViewBuilder.BranchOutputs | faultflow/scan/atpg_view.py:573-627 | the primary outputs on a flop's net move to a buffered branch exactly when the net has one reader; readers stay where they are |
| ViewBuilder.BuildView | faultflow/scan/atpg_view.py:630-839 | the in-place builder returns the reduced view: a D branch exactly where D is a constant or another cell pin is on its net, a control branch exactly where there is a control, a lone reader of a flop output apart from the primary outputs, each listed port in or out by who still reads it; an error exactly when a pseudo-port name is taken, a record repeats or names no scan cell |
| ViewPins.BranchThere | faultflow/scan/atpg_view.py:390-535 | the branch of a D or control pin is in the view exactly when the pin is to have one, a buffer onto a net of its own |
| ViewPins.PinForth | faultflow/scan/atpg_view.py:390-535 | with the branch of a D or control pin stuck, the view shows what the netlist with this one pin stuck shows, every other reader of the net unaffected |
| ViewPins.PinBack | faultflow/scan/atpg_view.py:390-535 | and whatever the view shows with the branch stuck, the netlist with this one pin stuck shows |
| ViewPins.StuckSettles | faultflow/scan/atpg_view.py:491-535 | a stuck D pin changes no net of the netlist, only what the flop captures |
| ViewPins.StuckCaptures | faultflow/scan/atpg_view.py:491-535 | a flop with D stuck captures the constant, its control still acting |
| ViewPins.StuckControls | faultflow/scan/atpg_view.py:390-430 | a flop with its control stuck drives and captures as if the line had that value |
| ViewPins.StemSits | faultflow/scan/atpg_view.py:676-839 | the stuck output of a flop sits in the view on the net that drives its readers |
| ViewOutputs.ReaderAlone | faultflow/scan/atpg_view.py:573-627 | in the finished view a flop output with one reader is on no primary output, and only such an output gets a branch |
| ViewPorts.OutputGone | faultflow/scan/atpg_view.py:287-326 | once a flop is cut its old output net is on no cell |
| ViewPorts.PortFate | faultflow/scan/atpg_view.py:154-178 | a listed port whose net no flop drives is in the view exactly when a cell that stays has the net or a cut flop reads it on D or its control; a scan output on a cut flop's net is not |
| ShiftRegister.ShiftedIn | faultflow/scan/protocol_constants.py:19-27 | after shifting, each position holds the bit shifted in that many steps ago, or the old content moved along |
| ShiftRegister.UnloadShows | faultflow/scan/protocol_constants.py:29-38 | unloading with zero feed shows the register from its last position down, then zeros |
| ShiftRegister.UnloadStuckShows | faultflow/scan/detection_pipeline.py:869-892 | with a stuck output every bit from at or below it is read as the stuck value |
| ShiftRegister.StuckUnloadDiffers | faultflow/scan/detection_pipeline.py:869-892 | exactly when an unload through a stuck output differs from the fault-free one |
| ScanProtocol.LoadReaches | faultflow/scan/protocol.py:95-114 | from any state the load cycles of the netlist leave every chain as shifting its bits in would |
| ScanProtocol.UnloadShowsCapture | faultflow/scan/protocol.py:117-145 | scan-out shows the captured register, through any stuck output, cycle by cycle |
| ScanGrading.ViewShowsCapture | faultflow/scan/detection_pipeline.py:819-841 | the view shows the netlist's outputs at capture and every flop's captured value, fault-free and faulty |
| ScanGrading.AnyOrder | faultflow/scan/atpg_view.py:676-839 | views of one design cut in different orders agree on all outputs both keep and all pseudo-outputs |
| ScanGrading.ViewGradesAsProtocol | faultflow/scan/detection_pipeline.py:819-841 | off the scan path the view detects a fault if and only if load, capture and unload do |
| PhysicalTester.FaultyLoadReaches | src/core/scan/scan_pattern_sim.cpp:179-193 | off the scan path a load with the fault in the chip leaves every chain as shifting its bits in would |
| PhysicalTester.ViewGradesAsTester | src/core/scan/scan_pattern_sim.cpp:169-228 | off the scan path the view detects a fault if and only if a tester does whose chip has it during the load too |
| ScanGrading.QStemGrade | faultflow/scan/detection_pipeline.py:819-841 | exactly when the protocol detects a stuck flop output, in terms of the view |
| QStemExample.CaptureCredit | faultflow/scan/detection_pipeline.py:869-892 | a fault-free captured value other than the stuck value always gives a mismatch, whatever the faulty core captures |
| QStemExample.TrustExact | faultflow/scan/detection_pipeline.py:819-841 | a trusted view detection is a protocol detection if and only if it does not rest on hidden pseudo-outputs alone |
| QStemExample.TrustMisplaced | faultflow/scan/detection_pipeline.py:819-841 | a two-flop design where the view detects a stuck output and the protocol does not |
| Serialize.Pad | faultflow/scan/protocol.py:200-228 | every chain is padded to the longest, or an error exactly when one does not fit |
| Serialize.SerializeVector | faultflow/scan/protocol.py:175-228 | the loads and expected unloads of a vector, chain by chain, and exactly the inputs of the vector that are no pseudo-port; an error exactly when a chain is too long |
| Serialize.ExpectedAt | faultflow/scan/protocol.py:175-228 | a flop expects its pseudo-output's value, and the value it was loaded with when it has none |
| Serialize.LoadLeavesTarget | faultflow/scan/protocol.py:175-228 | from any state a padded load leaves the target at every position |
| Serialize.UnloadObservesTarget | faultflow/scan/protocol.py:175-228 | unloading a register at its targets observes exactly the padded expected bits |
| Serialize.SerializedLoad | faultflow/scan/protocol.py:175-228 | every pseudo-input value of the vector arrives at its chain position, for chains of mixed length |
| Serialize.SerializedUnload | faultflow/scan/protocol.py:175-228 | unloading the captured values observes the serialized expectation |
| Serialize.DeriveLosCapture | faultflow/scan/detection_pipeline.py:503-529 | every flop at the launch value before it or at its chain's head bit, every real input as launched and nothing else; an error exactly when a chain has a gap |
| Serialize.LosShift | faultflow/scan/detection_pipeline.py:503-529 | on a register, one shift more than the load, with the head bit, leaves every flop at its capture value |
| Serialize.BuildLosCouples | faultflow/scan/detection_pipeline.py:474-500 | one couple or one head for every flop and none besides, and a head port for each chain; an error exactly when a chain has a gap |
| Serialize.CouplesExact | faultflow/scan/detection_pipeline.py:474-529 | a capture vector meets all couples, real inputs held, if and only if it is the launch-on-shift vector for the head bits read back from it |
| ScanRun.LoadedValue | faultflow/scan/protocol.py:175-228 | on the netlist, from any state, the serialized load brings every flop to the vector's value |
| ScanRun.VectorApplied | faultflow/scan/protocol.py:175-228 | after the serialized load every pseudo-input and every primary input of the view, scan ports aside, is at the vector's value |
| ScanRun.LaunchedValue | faultflow/scan/detection_pipeline.py:503-529 | on the netlist, from any state, the load and one more shift with the head bits bring every flop to its capture value |
| ScanRun.ExpectedUnloadSeen | faultflow/scan/protocol.py:117-228 | the fault-free netlist unloads exactly the serialized expectation of a vector materialized on the view |
| ChainLengths.BalancedSplits | faultflow/scan/stitch.py:542-550 | an even split uses every flop, no chain is empty or above the ceiling of the average, and lengths differ by at most one, the longer first |
| ChainLengths.FindWidest | faultflow/scan/stitch.py:562-571 | the first domain with the largest flops-per-chain ratio that can take another chain |
| ChainLengths.ChainsPerDomain | faultflow/scan/stitch.py:562-571 | the greedy counts add up, give each domain at least one chain and are greedy at every step |
| ChainLengths.GreedyBest | faultflow/scan/stitch.py:562-571 | no other division of the same chains over the domains has a shorter longest chain |
| ChainLengths.DivideChains | faultflow/scan/stitch.py:574-590 | no domain mixed, no chain empty, longest chain minimal over all such splits; an error exactly when there are more chains than flops or none |
| ChainLengths.LimitReachable | faultflow/scan/stitch.py:593-605 | the count derived from a limit admits a split within the limit and lies between domains and flops |
| ChainLengths.LimitLeast | faultflow/scan/stitch.py:593-605 | no split that keeps the limit and mixes no domain has fewer chains |
| ChainLengths.LimitKept | faultflow/scan/stitch.py:593-605 | the shortest split into that count keeps the limit |
| ScanPlan.DomainSizes | faultflow/scan/stitch.py:553-559 | the clock nets in order with how many flops each clocks |
| ScanPlan.CheckNames | faultflow/scan/stitch.py:369-375 | free exactly when no name is taken or repeated |
| ScanPlan.ChainCount | faultflow/scan/stitch.py:593-605 | the count asked for, or the one the limit needs; an error exactly on options below one |
| ScanPlan.LayChains | faultflow/scan/stitch.py:653-692 | every flop is laid once, in order, fed by the one before, and no chain spans two clocks |
| ScanPlan.PlaceOf | faultflow/scan/stitch.py:653-692 | the flop at every place of a plan, its chain and position, what feeds it and what drives scan-out |
| ScanPlan.BuildPlan | faultflow/scan/stitch.py:608-706 | the plan is sound and its longest chain minimal; each refusal with its exact condition: too long only when no split keeps the limit, and with one chain and a limit only for a taken name |
| Stitch.MuxMeaning | faultflow/scan/stitch.py:910-970 | the four inserted gates settle exactly as a hold multiplexer, either enable polarity |
| Stitch.SameCapture | faultflow/scan/stitch.py:1025-1093 | a stitched flop captures what the library flop would, hold and tied enables included, under every fault but the stuck output of a holding flop |
| Stitch.CaptureExact | faultflow/scan/stitch.py:1025-1093 | under any fault the stitched flop captures what the library flop would if and only if its output is not stuck, or it loads, or it holds the stuck value |
| Stitch.StuckHoldLost | faultflow/scan/stitch.py:910-970 | a holding flop with its output stuck at 0 keeps a 1 as a library flop and captures the 0 when stitched |
| Stitch.StitchBack | faultflow/scan/stitch.py:1025-1093 | with scan enable low a settled valuation with one flop stitched settles the original, with the same next states, under every fault but the stuck output of a holding flop |
| Stitch.StitchForth | faultflow/scan/stitch.py:1025-1093 | and a settled valuation of the original extends |
| StitchAcyclic.StaysAcyclic | faultflow/scan/stitch.py:1025-1093 | one flop stitched, every net still has one driver of lower rank |
| StitchAcyclic.StaysDriven | faultflow/scan/stitch.py:1025-1093 | no driven net loses its driver when the flop has only Q connected |
| StitchAcyclic.OtherOutputLost | faultflow/scan/stitch.py:1025-1093 | another connected output of the flop is left without a driver |
| StitchAcyclic.DriversKept | faultflow/scan/stitch.py:1025-1093 | every driven net keeps a driver if and only if the flop has no other output connected |
| StitchAcyclic.SecondOutputLost | faultflow/scan/stitch.py:1025-1093 | a flop with two outputs connected leaves the second net undriven |
| StitchRuns.StitchedBack | faultflow/scan/stitch.py:973-1113 | the whole stitched netlist, scan enable low, settles the original with the same next states, under every fault but the stuck output of a holding flop |
| StitchRuns.StitchedForth | faultflow/scan/stitch.py:973-1113 | every settled valuation of the original extends to the stitched netlist |
| StitchThreads.CycleAgrees | faultflow/scan/stitch.py:973-1113 | in one functional cycle every original port shows and every flop captures the same, under every fault but the stuck output of a holding flop |
| StitchClocks.ClocksKept | faultflow/scan/stitch.py:1025-1093 | every flop of the original has in the stitched netlist the clock connection it had |
| StitchClocks.PlannedClock | faultflow/scan/stitch.py:1025-1093 | a planned flop is clocked, before and after, by the net its plan entry names |
| StitchClocks.OneClockEach | faultflow/scan/stitch.py:653-692 | the flops of one chain have one clock connection in the stitched netlist |
| StitchClocks.ScanEdge | src/core/sim/golden_ref/golden_ref_sim.cpp:241-285 | what a scan flop does at a clock edge and without one, pin by pin, its control gated off by scan enable |
| StitchClocks.FlopEdge | src/core/sim/golden_ref/golden_ref_sim.cpp:241-285 | what a library flop does at a clock edge and without one, enable and control included |
| StitchClocks.RunsAgree | faultflow/scan/stitch.py:973-1113 | over every run of cycles with scan enable low, edges read off each netlist's own clock pins, states and original ports are the original's, under every fault but the stuck output of a holding flop |
| StitchChains.StitchedAcyclic | faultflow/scan/stitch.py:973-1113 | the stitched netlist is acyclic with one driver for every net |
| StitchChains.StitchedThreaded | faultflow/scan/stitch.py:973-1113 | the chains run from scan-in through the planned flops in order to scan-out, as the protocol needs |
| StitchChains.AddHoldMux | faultflow/scan/stitch.py:910-970 | the gates inserted, the net that carries the held data and the next id |
| StitchChains.StitchOne | faultflow/scan/stitch.py:1025-1093 | one planned flop replaced in place by its scan flop and hold multiplexer, clock and control kept |
| StitchChains.StitchScan | faultflow/scan/stitch.py:973-1113 | ports, flops in plan order with a running id, scan outputs: the stitched netlist |
| StitchChains.StitchModule | faultflow/scan/stitch.py:973-1113 | plan and stitch: the plan is sound, the ports are named as asked, one chain by the name itself and several by index; a refusal leaves the module alone, and with one chain and a limit only a taken name refuses |
| StitchView.StitchedScannable | faultflow/scan/atpg_view.py:630-675 | a stitched netlist meets every demand of the view builder |
| StitchView.StitchedView | faultflow/scan/atpg_view.py:630-839 | a stitched netlist always has a reduced view, with none of the scan ports and with a port on each clock net dropped once nothing else uses it |
| StitchPorts.ScanNetsFree | faultflow/scan/stitch.py:1025-1093 | the nets of scan inputs and scan enable are on scan pins of planned flops and nowhere else |
| StitchView.StitchedSameDesign | faultflow/scan/detection_pipeline.py:819-841 | the view and the protocol of a stitched netlist are of one design, so the grading results apply, when no dropped input is forwarded |
| StitchView.ViewIsOriginal | faultflow/scan/atpg_view.py:630-839 | on every port but the dropped clocks the view of the stitched netlist shows what the original does, flops opened, under every fault but the stuck output of a holding flop, when no dropped input is forwarded |
| StitchView.OriginalIsViewed | faultflow/scan/atpg_view.py:630-839 | and everything the original does is shown, forwarded clocks or not, under every fault but the stuck output of a holding flop |
| ScanChecks.CollectChainCells | faultflow/scan/checks.py:52-93 | the index of chain cells, with no error exactly when feeds differ and the enable is shared |
| ScanChecks.Walk | faultflow/scan/checks.py:96-140 | the walk is a simple path and reports a cycle exactly when it runs into itself |
| ScanChecks.PathUnique | faultflow/scan/checks.py:96-140 | two paths from one net are prefixes of each other |
| ScanChecks.ValidateChains | faultflow/scan/checks.py:96-140 | no error exactly when every recorded chain is a path from its scan-in to its scan-out and none overlap |
| ScanChecks.CheckScan | faultflow/scan/checks.py:143-225 | passes exactly when both sorts of chain cell are partitioned into the manifest's simple paths with the shared enable |
| ScanChecks.PassLists | faultflow/scan/checks.py:143-225 | a netlist passes only if the manifest lists exactly its scan flops and exactly its shiftable wrapper cells |
| WrapperTrace.TraceWrapperChain | faultflow/project/soc_scan.py:52-90 | the trace along CTI and CTO returns the one order through every wrapper cell, exactly when there is one; the empty order without wrapper cells |
| WrapperTrace.TraceAccepted | faultflow/project/soc_scan.py:52-90 | a traced order passes the check exactly when it is not empty, there are no scan flops, every wrapper cell has a clock and the given enable, and it ends at scan-out |
| WrapperTrace.TraceNotEnough | faultflow/project/soc_scan.py:52-90 | a wrapper cell without a clock, and one beside the scan-out port, are traced and not accepted |
| ScanRoundTrip.FreshPasses | faultflow/scan/checks.py:143-225 | a freshly stitched netlist passes with the planned order if and only if its wrapper cells hold in their chains on one enable; always without wrapper cells |
| ScanRoundTrip.PassingThreaded | faultflow/scan/checks.py:143-225 | a netlist that passes is threaded for the protocol and its chains hold every scan flop |
| Compose.CellOkInward | faultflow/project/assemble.py:353-384 | a renumbered cell demands of a valuation what the cell demands of it read inward |
| Compose.SpliceForth | faultflow/project/assemble.py:353-384 | flattening one block keeps every settled hierarchical design |
| Compose.SpliceBack | faultflow/project/assemble.py:353-384 | with wiring that flattening keeps every settled flat valuation is one of the hierarchy |
| Compose.NextForth | faultflow/project/assemble.py:353-384 | next states of the flat netlist are the hierarchy's |
| Compose.NextBack | faultflow/project/assemble.py:353-384 | and read inward |
| ComposeSoc.FlatForth | faultflow/project/assemble.py:150-229 | any number of blocks: every settled hierarchical design settles the flat netlist with the same next states |
| ComposeSoc.FlatBack | faultflow/project/assemble.py:150-229 | any number of blocks with such wiring: every settled valuation of the flat netlist comes from the hierarchy, next states included |
| ComposeSoc.FlatSettledForth | faultflow/project/assemble.py:150-229 | the finished flat netlist settles as every settled hierarchical design: same ports, glue nets and next states |
| ComposeSoc.FlatSettledBack | faultflow/project/assemble.py:150-229 | and every settled valuation of it is one of the hierarchy, block nets and next states included |
| ComposeExact.FlatSingle | faultflow/project/assemble.py:150-229 | the flat netlist has one driver for every net |
| ComposeExact.BadWiringLost | faultflow/project/assemble.py:272-346 | one badly wired instance and some flat valuation is not one of the hierarchy |
| ComposeExact.FlatExact | faultflow/project/assemble.py:150-229 | flattening any number of blocks keeps meaning if and only if no instance has a read constant input, a constant output or a block net on two glue nets |
| ComposeSoc.BuildRemap | faultflow/project/assemble.py:272-346 | every block net gets a glue net it is wired to or a fresh id, fresh ids consecutive in the order of the nets; an error exactly when an instance is too narrow |
| ComposeSoc.SpliceCellsIn | faultflow/project/assemble.py:353-384 | the instance is replaced by the renumbered cells under new names |
| ComposeSoc.ComposeAll | faultflow/project/assemble.py:150-229 | the flat netlist with pairwise disjoint fresh ids; an error exactly when an instance is missing or too narrow |
| ComposeExact.FreshFloats | faultflow/project/assemble.py:315-321 | a block net joined to no glue net and driven by no block cell has no driver when flat |
| ComposeLimits.TiedInputLost | faultflow/project/assemble.py:315-321 | an input tied high in the glue can be read low in the flat netlist |
| ComposeLimits.ConstantOutputLost | faultflow/project/assemble.py:308-309 | an output constant inside the block floats in the flat netlist |
| ComposeLimits.FeedthroughLost | faultflow/project/assemble.py:315-321 | an input wired through to an output in the block is cut in the flat netlist |
| Fuse.FuseForth | faultflow/scan/wbr_view.py:394-503 | driven with what the system side carries, the fused view settles with every core net at its value and each pseudo-output at its core net |
| Fuse.FuseBack | faultflow/scan/wbr_view.py:394-503 | when core and system meet only through wrapper cells, every settled fused view comes from the unfused netlist with transparent wrappers; core outputs, and kept ports without a lost net, show the same |
| FuseExact.FuseExactly | faultflow/scan/wbr_view.py:394-503 | beside any run of an acyclic netlist and under every fault the fused view has the same core, net for net, if and only if core and system meet only through wrapper cells |
| FuseExact.KeptPortExact | faultflow/scan/wbr_view.py:394-503 | a port that stays shows what the netlist shows if and only if none of its nets was driven by a dropped port or wrapper cell |
| FuseLimits.BusFloats | faultflow/scan/wbr_view.py:394-503 | a two-bit output over two wrapper cells stays in the fused view and settles at any value |
| FuseLimits.BusSeparate | faultflow/scan/wbr_view.py:394-503 | and still core and system are separate, so its core is kept |
| FuseLimits.FeedthroughFloats | faultflow/scan/wbr_view.py:394-503 | the pseudo-output of a wrapped feedthrough settles at either value |
| FuseIntest.RecordsFormed | faultflow/scan/wbr_view.py:119-167 | the records are complete exactly when every boundary cell has its nets |
| FuseIntest.FuseView | faultflow/scan/wbr_view.py:394-503 | the fused view built in place, cell by cell and port by port, or an error exactly when a boundary cell lacks one of its two single nets |
| FuseShape.FusedShape | faultflow/scan/wbr_view.py:394-503 | which cells and ports go with the wrapper cells, which stay, and the pseudo-input or observed pseudo-output each cell leaves, with system, chain and tied pins written out |
| Campaign.ProcessOthers | faultflow/runner/progressive_atpg.py:1049-1132 | processing one fault changes nothing the solver is asked about another |
| Campaign.RoundKeeps | faultflow/runner/progressive_atpg.py:1049-1132 | over any prefix of a round the seen set is the keys of the vectors, keys are distinct, and recorded detections are true |
| PatternKeys.KeyTells | faultflow/runner/progressive_atpg.py:200-214 | over the same names, keys are equal exactly when the vectors agree |
| PatternKeys.KeysCollide | faultflow/runner/progressive_atpg.py:200-214 | over different names two vectors can share a key |
| PatternKeys.KeyExact | faultflow/runner/progressive_atpg.py:200-214 | over given extra names one key means one assignment if and only if the names are the same or differ in number |
| Waves.InterleaveEasyHard | faultflow/config.py:90-128 | a permutation, each chunk filled from the front and then from the back, hardest first |
| Waves.SortByCone | faultflow/runner/progressive_atpg.py:935-947 | a stable sort by cone size |
| Waves.NextWave | faultflow/runner/progressive_atpg.py:928-933 | the next survivors, none missed and none dropped, a full wave unless the faults run out |
| Waves.Dispatch | faultflow/runner/progressive_atpg.py:920-1048 | the wave is sent by cone size and mixed as configured; after it the current fault has a result and every result is what the solver would say at that fault's turn |
| Waves.SatRound | faultflow/runner/progressive_atpg.py:886-1132 | with parallel waves or without, the round's result is the serial round's: vectors, statuses, counters, retry counts |
| Redundancy.UnsatTells | faultflow/runner/progressive_atpg.py:1120-1122 | an UNSAT fault has no test exactly when nothing is blocked for it |
| Redundancy.StepClassifies | faultflow/runner/progressive_atpg.py:1049-1132 | one fault processed keeps the classification exact |
| Redundancy.RoundClassifies | faultflow/runner/progressive_atpg.py:886-1132 | over any prefix of a round redundant verdicts are right exactly when nothing was blocked, and with dropping nothing is and no active fault is detected by a vector |
| Redundancy.RedundantLost | faultflow/runner/progressive_atpg.py:1049-1132 | without dropping a fault detected by a returned vector is marked redundant |
| CampaignRun.ParseSchedule | faultflow/config.py:51-87 | the tiers as given, strictly increasing from one second, or the fallback; an error exactly otherwise |
| CampaignRun.AppendUnique | faultflow/runner/progressive_atpg.py:301-315 | adds the vectors of the batch that bring a new key, each key once, in the batch's order |
| CampaignRun.GradeRandom | faultflow/runner/progressive_atpg.py:806-845 | each fault goes to the first graded vector that detects it; grading stops at the first vector after which the coverage test says so, and nowhere else |
| CampaignRun.ReleaseKeys | faultflow/runner/progressive_atpg.py:846-852 | after dropping the tail the seen set is the keys of what is kept |
| CampaignRun.RandomPhase | faultflow/runner/progressive_atpg.py:789-855 | the new vectors of the batch up to the first that reaches coverage; seen set exact, detections true, every fault at its first detecting vector, counters advanced by what was graded |
| CampaignRun.StartRound | faultflow/runner/progressive_atpg.py:863-884 | all active faults, reconvergent ones last and past the shortest tier |
| CampaignRun.CountsTell | faultflow/runner/progressive_atpg.py:481-503 | equal detected and redundant counts mean no status changed |
| CampaignRun.QuietRound | faultflow/runner/progressive_atpg.py:481-503 | in a round without progress every fault was tried once and got no verdict |
| CampaignRun.StallExhausts | faultflow/runner/progressive_atpg.py:481-529 | a stall verdict means every active fault was just tried at the longest tier in vain |
| CampaignRun.SpentIs | faultflow/runner/progressive_atpg.py:481-529 | the stall test holds exactly when the round changed no status, decided nothing and left no fault with a longer tier to go |
| CampaignRun.RunCampaign | faultflow/runner/progressive_atpg.py:776-1176 | over every run: seen set exact, keys distinct, detections true, classification exact, retry counts carried from round to round, each ending with its meaning; the run goes on after a round exactly while a fault is active, the threshold is not met and the round is not spent |
| CampaignLaws.RoundAsks | faultflow/runner/progressive_atpg.py:1008-1132 | at its turn a fault is put to the solver with its blocked keys and the tier its timeouts have earned, and the answer does to the state what it should |
| CampaignLaws.RoundTallies | faultflow/runner/progressive_atpg.py:1049-1132 | over any prefix of a round each counter moves by the answers of its kind |
| CampaignLaws.RoundEarns | faultflow/runner/progressive_atpg.py:1049-1132 | each vector a round appends is one the solver gave for a fault of the round and the check passed for that fault |
| CampaignLaws.StallEscalates | faultflow/runner/progressive_atpg.py:481-529 | a stalled run has put every fault still active to the solver in every round, at tiers that never go down and skip none up to the last |
| CombCycle.BuildGraph | faultflow/rule_check/rules.py:195-207 | an edge exactly where a combinational cell has one net in and another out |
| CombCycle.Explore | faultflow/rule_check/rules.py:208-233 | the search from one net finds a closed path or finishes everything reachable in an order that excludes one |
| CombCycle.FindCombCycle | faultflow/rule_check/rules.py:195-233 | terminates; returns a genuine cycle, or none exactly when the graph without self-edges is acyclic |
| CombCycle.FeedbackIs | faultflow/rule_check/rules.py:195-249 | feedback exists exactly when the search finds a cycle or some cell reads its own output |
| CombCycle.SelfLoopMissed | faultflow/rule_check/rules.py:202-203 | a buffer on itself is feedback the search does not report |
| CycleRank.BuildFacts | faultflow/rule_check/facts.py:102-156 | a fact for every cell and none besides, with the nets of its single-bit pins; plain wrapper cells are gates, shiftable ones flops |
| CycleRank.RankExact | faultflow/rule_check/rules.py:195-249 | a netlist has an acyclic rank if and only if no path through its logic, async controls included, comes back |
| CycleRank.CheckExact | faultflow/rule_check/rules.py:195-249 | a netlist has a rank if and only if the report is clean, no gate reads its own output and no step the check does not see is led back to by its end |
| CycleRank.GateCheckExact | faultflow/rule_check/rules.py:195-249 | with single-bit gates, if and only if besides no flop control and no shiftable wrapper input is led to by its own cell's output |
| CycleRank.ResetLoopMissed | faultflow/rule_check/rules.py:198-199 | a flop reset by its own output is reported clean and has no rank |
| CycleRank.WrapperLoopMissed | faultflow/rule_check/rules.py:198-199 | a shiftable wrapper cell fed from its own output is reported clean and has no rank |
| Retarget.ParseChain | faultflow/retarget/soc_access.py:82-119 | the segments sorted by offset exactly when these tile the chain |
| Retarget.SortKeeps | faultflow/retarget/soc_access.py:82-119 | the sort orders by offset, and an empty segment follows a full one of its offset exactly where it did before |
| Retarget.ParseExact | faultflow/retarget/soc_access.py:82-119 | segments some arrangement of which tiles the chain are accepted if and only if no empty one is listed after a full one of its offset |
| Retarget.EmptyRefused | faultflow/retarget/soc_access.py:82-119 | an empty segment listed second at its offset is refused although the other order tiles the chain |
| Retarget.PlaceSegment | faultflow/retarget/transform.py:93-108 | writes the block's bits at the segment's places and nothing else, in place |
| Retarget.RetargetPattern | faultflow/retarget/transform.py:66-156 | the SoC sequences and masks, every position by the segment that covers it, or an error exactly when a chain is longer than the shift count or a chain of the block has no segment |
| Retarget.OthersBypassed | faultflow/retarget/transform.py:40-44 | positions of other blocks and of bypass segments are loaded with 0 and not compared |
| Retarget.ShortSequence | faultflow/retarget/transform.py:66-156 | where a block sequence is shorter than its segment the rest is loaded with 0 and expected to be 0 |
| Retarget.LoadExact | faultflow/retarget/transform.py:66-156 | whatever the SoC chain held, the retargeted load leaves the segment as the block's own load would |
| Retarget.UnloadExact | faultflow/retarget/transform.py:66-156 | the masked unload bits compare the block's captured bits with the block's expected ones, padding on both levels included |
| Retarget.MaskOwned | faultflow/retarget/transform.py:66-156 | a bit is compared exactly when a segment of the block that carries a chain covers its position |
| Compaction.SweepReal | faultflow/runner/compaction.py:161-181 | each contribution is a later-first vector that detects exactly what it newly covers |
| Compaction.SweepCovers | faultflow/runner/compaction.py:161-181 | every target some vector detects is in a contribution |
| Compaction.SweepExact | faultflow/runner/compaction.py:161-181 | a fault is credited to exactly one contribution, that of the last vector that detects it |
| Compaction.CompactReverse | faultflow/runner/compaction.py:126-204 | keeps exactly the vectors that are the last to detect some target, in the original order; no covered target lost |
| Compaction.ExtractCube | faultflow/runner/compaction.py:212-232 | an input is in the cube exactly when flipping it alone can lose a target |
| Compaction.CubeNotEnough | faultflow/runner/compaction.py:212-232 | inputs that can each be flipped need not be flippable together |
| Compaction.CubeExact | faultflow/runner/compaction.py:212-232 | filling the dropped inputs at will is safe for every simulator if and only if at most one is dropped |
| Compaction.PlaceCube | faultflow/runner/compaction.py:240-273 | into the first open cube it merges with, a new one exactly when there is none; all members stay detected |
| Compaction.PackCubes | faultflow/runner/compaction.py:240-273 | the cubes placed one after the other, no more vectors than cubes, every member of every cube detected |
| Compaction.PackBest | faultflow/runner/compaction.py:371-377 | the packing of the first order tried that gives fewest vectors |
| Compaction.CompactDynamic | faultflow/runner/compaction.py:292-394 | the best packing of the cubes of the reverse sweep; no covered target is lost, no more vectors than reverse, and fallback, to the reverse result, exactly if the packing leaves some target undetected |

## Left out

- Compose.SpliceForth: stated without a fault, because flattening happens before faults are enumerated.
- ComposeSoc.BuildRemap: ports are visited in no particular order, where the code follows dictionary order; when one block net sits on two ports either glue net may win, and `FlatExact` holds whichever does.
- ViewBuilder.BuildView: single-bit cell pins, as technology-mapped cells have; multi-bit pins are covered by the index results only. Async control pins carry a net, as stitching demands (`faultflow/scan/stitch.py:412-415`).
- ViewBuilder.DecideShared: a constant D gets a branch whatever the count of its readers; what that count decides in the code is the site key, which is not modelled.
- ViewPins.PinBack: leaves out a forwarded dropped input, where it is false (`ViewExactly`).
- BitIndexes.BitIndex.constructor: the sites of netnames are not indexed; a netname labels a net and takes no part in what the netlist computes.
- BitIndexes.BitIndex.Rewire: netnames are not rewired, for the same reason.
- Stitch.SameCapture: leaves out the stuck output of a holding flop, where it is false (`StuckHoldLost`); `CaptureExact` covers every fault.
- Stitch.StitchBack: leaves out the same fault, for the same reason.
- StitchRuns.StitchedBack: leaves out the same fault, for the same reason.
- StitchThreads.CycleAgrees: leaves out the same fault, for the same reason.
- StitchClocks.RunsAgree: leaves out the same fault, for the same reason.
- StitchView.OriginalIsViewed: leaves out the same fault, for the same reason.
- ViewBuilder.ClockPorts: a port that mixes the clock net with constants is not taken for a one-net port, and which of several ports of one clock is taken is left open.
- ViewBuilder.DropPorts: a port that mixes one net with constants is not dropped, where the code counts nets only.
- PhysicalTester.ViewGradesAsTester: supposes that flops outside the chains, if any, load alike; nothing holds them during the load.
- StitchView.ViewIsOriginal: leaves out the same fault, and a forwarded dropped input, where it is false (`ViewExactly`).
- Retarget.RetargetPattern: segment lengths are natural numbers, so a negative length in an access file is not modelled.
- CampaignRun.RunCampaign: the solver, candidate check and simulator are functions of their arguments; process-pool failures are not modelled.
- Redundancy.RoundClassifies: supposes a solver that finds a test outside the blocked ones whenever it answers SAT and answers UNSAT only when there is none.
- The compiled core: SAT encoding, bit-parallel fault simulation, fault enumeration and collapsing.
- Names as strings: built names are structural values, so a clash between a built name and an existing one appears only where the code checks for it.
- netnames, attributes, source locations, site keys and reports: no effect on what a netlist computes.
- Per-domain views, launch-on-capture, transition campaigns and transition compaction: near copies of the stuck-at versions.
- EXTEST fusion and the graybox composition that feeds it.
- x and z literals: read as 0, as the netlist parser reads them.
- Collecting eligible flops from a cell library and building wrapper chains from attributes: the plan starts from the sorted list of eligible flops.
- `_clock_controllable` and the other design rules: worklist searches that add little beside the cycle search.
- SQLite persistence, campaign fingerprints, configuration files, the command line and the Tcl shell.
