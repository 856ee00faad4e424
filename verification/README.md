# tiergen, modelled and proved

tiergen builds a network of simulated hosts, runs behaviours on them, captures what they send and
says which connection each behaviour made. This project models the parts of it that decide
something hard, in Dafny 4.11, and proves what they promise. `dafny verify dfyconfig.toml` checks it.

| module | what it models |
|---|---|
| `Ir`, `Groups` | the scenario, as much of it as the plans and checks read, and instance ids |
| `Graph`, `Routing` | shortest distances over segments, static routes, and what packets do under them |
| `Addressing`, `PlanSpelled` | the address plan: gateways, pins, and the allocation around them; what it reads off a scenario |
| `Checks`, `CheckPlans`, `Planes`, `Reports` | tie targets and check 1; check 10 on the planners' own plans; the segments' part of check 9; each finding and its condition |
| `SharedKeys` | exactly when check 1 bounds the targets of a tie, in whatever order a set is iterated over |
| `Programs`, `Unchecked` | the peers a program is given, exactly when it has all its targets, and scenarios the checks pass where it does not |
| `Sampling`, `FitClock` | the rate curve as a time change: `advance`, and the fit's walks that undo, weight and split it |
| `Schedule`, `BehaviourLoop` | scheduled events, and the behaviour loop under the simulator's jumping clock |
| `Pcapng`, `PcapngPackets`, `PcapngWriter`, `PcapngFormat`, `PcapngCopy` | pcapng blocks, options, interfaces, packets, the writer, 802.1Q tag insertion, the format byte by byte, and what copying does to the bytes |
| `Codec` | the JSON codec driven by type annotations |
| `AttribJoin`, `AssembleJoin`, `SeenByKernel` | from the collector's events to records, from records and connections to labels and flags, and from the one to the other |
| `Scheduler` | one run of a scenario: every step and every undo may raise |
| `SimLabel`, `SimSpelled`, `TellApart` | the simulator's rendering and the fit's labelling, event by event; when a connection's action is told from every other |
| `SimThenLabel`, `SimCases` | exactly when labelling undoes simulating, and runs where it does not |
| `FitRun` | a run of the loop simulated, labelled and fitted: the gaps measured are the holding times drawn |
| `Wrappers`, `Ordering`, `Sorting` | options, results, ordered maps, decimal text, Python's string order and stable sort |

Code that fills tables or moves a cursor is a method with a loop, proved equal to a definition that
has neither; code made of expressions is a function. The main results are then lemmas about the
definitions, or state what they compute without them. Bodies that are large are hidden from proofs that do not need them (`hide`).

What the proofs found, where the code does less than one would think. Each has an input or a family of
inputs where it fails and the exact condition under which it does not:

- Waiting is outside the scheduler's unwinding. An ordinary error from the clock or the sleep while
  the run waits, or anything raised while the waited time is read, leaves hosts, collectors and the
  capture up (`Scheduler.Run.RunScenario`, with the exact condition and a family of runs).
- A pcapng block type is read little-endian in every section and written in the section's order, so a
  big-endian file is not copied (`PcapngCopy.BigEndianIsNotCopied`). Reading also accepts a block whose
  length makes `read(-1)` take the rest of the file, and a copy corrects it (`PcapngCopy.SevenIsCorrected`).
  `PcapngCopy.CopyThrough` says exactly which files come through as they are.
- A packet block that holds less data than it says were captured may read differently once tagged
  (`PcapngCopy.CutPacketDiffers`); exactly when is `PcapngPackets.PacketCommutes`.
- Labelling undoes simulating exactly where every connection is told apart, none is taken for a copy,
  none is folded into the one before, and invocations at one instant come in the order of their states'
  names (`SimThenLabel.SimulateThenLabel`, `SimThenLabel.StreamIsTheRecords`). One run for each that does
  not: two SMB reads with disjoint paths are ambiguous, because the simulator shows the path of HTTP only
  (`SimCases.SmbIsAmbiguous`); a scan of a port a request names is taken for the request
  (`SimCases.NamedPortWins`); the 16385th request in one instant has the first one's source port
  (`SimCases.BurstLosesOne`); two invocations at one instant are reordered (`SimCases.OneInstantIsReordered`);
  pages browsed within a second are folded (`SimCases.BrowsesAreFolded`).
- Once check 10 is clean an instance's program has all the targets of a tie exactly when forwarders join it
  to each (`Programs.TotalExactlyWhenJoined`, `Programs.CheckThenBuild`). Check 10 cuts a wire's key at the
  first dot, so it never asks that of a kind with a dot in its name: clean checks give the instances of a
  kind all their targets, whatever the scenario, exactly when there is no dot
  (`Unchecked.TotalExactlyWithoutDot`; `Unchecked.DottedPasses` is a run for each name with one).
- Ties of two held kinds may share a wire key (`a` with tie `b.t`, `a.b` with tie `t`). Check 1 keeps one of
  them, which one is up to the order of a set, and never counts the targets of the other
  (`Unchecked.SharedPasses`: a `single` tie with two peers, no name used twice, and a verdict that depends on
  the order). A clean check 1 gives a tie as many targets as it allows, whatever the groups and the order,
  exactly when every tie under its key stands for it (`SharedKeys.EnoughExactlyWhenAllStand`), as without
  dots (`Programs.PlainTiesAreCounted`). Ties of one kind with one name are left to check 11, which reports them.
- Where two invocations own one record, an invocation may go unflagged and unlabelled, and a larger
  tolerance may move a label (`AssembleJoin.SharedRecordHidesFailure`, `AssembleJoin.SharedRecordMovesLabel`);
  exactly when is `AssembleJoin.FailedIsUnlabelled` and `AssembleJoin.ToleranceKeepsLabels`.
- Routes are exact while distances stay below the planner's stand-in for infinity, so the plan asks for fewer than 10^9 segments.

## Model

| member | source | states |
|---|---|---|
| `Graph.Distances` | core/tiergen/core/routing.py:55-65 | the queue-and-seen search finds exactly the vertices a walk reaches, each at its true shortest distance |
| `Routing.Adjacency` | core/tiergen/core/routing.py:79-85 | two data segments are adjacent exactly when one forwarder sits on both |
| `Routing.AllDistances` | core/tiergen/core/routing.py:86 | every data segment's table of true shortest distances through forwarders |
| `Routing.EntryOf` | core/tiergen/core/routing.py:101-106 | what one forwarder leaves in `best`: its first segment the instance shares, at the forwarder's own best distance, or nothing if it shares none or cannot get there |
| `Routing.FirstHops` | core/tiergen/core/routing.py:97-106 | `best` holds exactly the candidate first hops, each with its shared segment and its distance to the destination |
| `Routing.Closest` | core/tiergen/core/routing.py:109-110 | the candidates no other candidate is nearer than, sorted |
| `Routing.PlanDestination` | core/tiergen/core/routing.py:94-122 | the route via the only closest forwarder, or the ambiguity if there are several |
| `Routing.PlanInstance` | core/tiergen/core/routing.py:90-123 | an instance's routes and problems, over the sorted segments connected to one of its own and not its own |
| `Routing.PlanRoutes` | core/tiergen/core/routing.py:68-124 | every instance's routes are the declarative plan's, each with the prefix the last segment of its destination's name was given, and the problems are exactly the ambiguous destinations, in order |
| `Routing.RoutePrefix` | core/tiergen/core/routing.py:77 | every route planned for a topology carries the prefix of the last segment of its name |
| `Programs.RouteCovers` | core/tiergen/core/routing.py:77-122 | on a clean plan a route has a prefix, and every address the plan gives anyone on its segment is a host of that prefix |
| `Routing.RoutesOfMember` | core/tiergen/core/routing.py:94-122 | a route is in the plan if and only if its destination is connected and has one closest forwarder, and the route names that forwarder's address on the first shared segment |
| `Routing.WinnersAreOneStepNearer` | core/tiergen/core/routing.py:95-110 | the chosen forwarder is exactly one step nearer the destination than the instance, for every reachable destination |
| `Routing.RunsDescend` | core/tiergen/core/routing.py:86-124 | whatever problems were reported, a packet passed on by each forwarder's own route is one step nearer at every hop |
| `Routing.RunsNeverLoop` | core/tiergen/core/routing.py:86-124 | no host sees a packet twice, every hop is a forwarder, and a run is no longer than the distance |
| `Routing.RunsAgree` | core/tiergen/core/routing.py:68-124 | forwarding is deterministic: two runs from one host agree as far as both go |
| `Routing.NoProblemsMeansUnique` | core/tiergen/core/routing.py:111-119 | no problem is reported if and only if every reachable destination of every instance has one closest first hop |
| `Routing.Arrives` | core/tiergen/core/routing.py:68-124 | with no ambiguity a packet reaches any connected segment in exactly as many hops as the segment is away |
| `Routing.Delivers` | core/tiergen/core/routing.py:68-124 | a packet sent by a route arrives after exactly one forwarder more than the chosen forwarder's own distance |
| `Routing.NoShorterChain` | core/tiergen/core/routing.py:55-65 | no chain of forwarders, routed or not, is shorter than the way the routes take |
| `Routing.ReachableIsConnectivity` | core/tiergen/core/routing.py:127-135 | with no ambiguity, reachable if and only if some data segment of one is joined to some data segment of the other by forwarders |
| `Routing.ReachableIsSymmetric` | core/tiergen/core/routing.py:127-135 | with no ambiguity reachability is symmetric |
| `PlanSpelled.InstancesAre` | core/tiergen/core/groups.py:18-31 | the instances are one for each group, kind and number below the group's count of the kind, called path/kind[number] |
| `Addressing.Survey` | core/tiergen/core/addressing.py:71-92 | each segment name keeps its first definition; members and parsed prefixes are those of the first definitions, and every duplicate or malformed prefix is reported in order |
| `PlanSpelled.ForwardersAre` | core/tiergen/core/routing.py:78 | the forwarders are the instances of a kind said to forward |
| `PlanSpelled.DataAre` | core/tiergen/core/routing.py:76 | the data segments are those said to be on the data plane |
| `PlanSpelled.MembersAre` | core/tiergen/core/addressing.py:79-86 | a segment's members are everyone on the management plane, and otherwise the instances whose group attaches their kind to it |
| `PlanSpelled.UsableAre` | core/tiergen/core/addressing.py:94-105 | a segment is usable by its first definition, with a prefix of four addresses or more |
| `Addressing.Gateways` | core/tiergen/core/addressing.py:94-103 | exactly the prefixes of four addresses or more are usable, with their first host address as gateway; the rest are reported |
| `Addressing.PlacePin` | core/tiergen/core/addressing.py:107-126 | one pin leaves the state sound and is settled: honoured on its home segment, or reported with the reason that holds, never both |
| `Addressing.PlacePins` | core/tiergen/core/addressing.py:107-126 | after all pins every one of them is honoured or reported and nothing else is placed |
| `Addressing.FillSegment` | core/tiergen/core/addressing.py:128-143 | a segment's waiting members take its free addresses in order; it is reported full if and only if its members exceed `num_addresses - 3` |
| `Addressing.RoomCount` | core/tiergen/core/addressing.py:128-142 | more members wait than host addresses are free if and only if the members exceed `num_addresses - 3`, however the pins fell |
| `Addressing.Allocate` | core/tiergen/core/addressing.py:128-143 | filling all segments keeps earlier ones done and reports exactly the full ones |
| `Addressing.SettledForGood` | core/tiergen/core/addressing.py:117-143 | what a pin was given or refused stays so: allocation never gives a pin's refused address to its instance nor takes an honoured one away |
| `PlanSpelled.PinVerdict` | core/tiergen/core/addressing.py:107-126 | what becomes of each pin: unknown, malformed, on none of the instance's networks, not a host address, taken by the gateway or by whom, or honoured |
| `Addressing.EveryoneServed` | core/tiergen/core/addressing.py:128-143 | no member of a segment with room goes without an address |
| `Addressing.PlanAddresses` | core/tiergen/core/addressing.py:61-155 | the finished plan: on each segment all addresses distinct, inside the prefix, never network, broadcast or gateway; every pin honoured or reported; full reported exactly when there is no room; everyone addressed if nothing is reported; unpinned members in order of the free addresses |
| `Addressing.CleanExactlyWhen` | core/tiergen/core/addressing.py:61-155 | nothing is reported if and only if every segment is usable and has room and every pin is honoured |
| `Sampling.ByHoursIntegrates` | runtime/behaviour/tiergen/runtime/behaviour/sampling.py:33-40 | the hour-by-hour area really integrates the piecewise constant rate |
| `Sampling.WorkInHour` | runtime/behaviour/tiergen/runtime/behaviour/sampling.py:33-40 | within an hour operational time passes at the factor times the curve's entry for the hour of the day or of the week |
| `Sampling.WorkWithoutCurve` | runtime/behaviour/tiergen/runtime/behaviour/sampling.py:36-37 | without a curve operational time is wall time times the factor |
| `Sampling.Advance` | runtime/behaviour/tiergen/runtime/behaviour/sampling.py:43-68 | the elapsed time is the first moment the asked work has passed, or the limit if that comes first, and `done` is the integral of factor times curve up to then; never more than the limit |
| `Sampling.FirstPassageUnique` | runtime/behaviour/tiergen/runtime/behaviour/sampling.py:43-68 | that description determines the result |
| `Sampling.AdvanceIsAdditive` | runtime/behaviour/tiergen/runtime/behaviour/sampling.py:43-68 | advancing under L1 + L2 is advancing under L1 and, if unfinished, the remainder from t + L1 under L2 |
| `FitClock.Operational` | fit/tiergen/fit/behaviour.py:88-98 | the fit's walk computes the integral of the 24-entry curve between two wall times |
| `FitClock.AdvanceThenOperational` | fit/tiergen/fit/behaviour.py:88-98 | over the wall interval `advance` returned, at factor 1, the fit's clock finds exactly the operational seconds done |
| `FitClock.Hourly` | stats/tiergen/stats/streams.py:89-104 | `counts[h]` is the number of events in hour h and `exposure[h]` the wall time of all windows spent in hour h, in hours |
| `FitClock.WorkIsDot` | fit/tiergen/fit/behaviour.py:88-98 | operational time is the sum over hours of the curve's value times the wall time in that hour |
| `FitClock.ExposureIsOperational` | stats/tiergen/stats/streams.py:89-104 | for every curve, the sum over hours of `curve[h] * 3600 * exposure[h]` is the operational time of all the windows |
| `FitClock.GapsByState` | fit/tiergen/fit/behaviour.py:101-110 | the gap from each action to the next in operational seconds, under the state of the first, over all streams in order |
| `Schedule.SortedByTime` | runtime/behaviour/tiergen/runtime/behaviour/loop.py:105-112 | the loop's events are the kept ones in time order, those of one time in the schedule's order |
| `Schedule.EventsPlaces` | runtime/behaviour/tiergen/runtime/behaviour/loop.py:105-112 | the loop's events are those of the schedule that set a rate or start or stop its own behaviour, each once, by time and within one time in the schedule's order |
| `Schedule.EventsCount` | runtime/behaviour/tiergen/runtime/behaviour/loop.py:105-112 | an event is among the loop's as often as the schedule has it if it sets a rate or starts or stops the behaviour, and not at all otherwise |
| `Schedule.StartedIsOn` | runtime/behaviour/tiergen/runtime/behaviour/loop.py:127-140 | once the events due by a time are applied the behaviour is started if and only if the last of its own starts and stops in the schedule by then is a start |
| `Sorting.OnlySort` | runtime/behaviour/tiergen/runtime/behaviour/loop.py:105-112 | `sorted` gives the one list in order that keeps equal elements as they were |
| `Schedule.IntegralAdds` | runtime/behaviour/tiergen/runtime/behaviour/loop.py:127-137 | the integral of factor times curve under scheduled rate changes is additive over adjoining intervals |
| `Schedule.UntilNext` | runtime/behaviour/tiergen/runtime/behaviour/loop.py:143-151 | up to the next event the integral is the curve's under the factor in force |
| `Schedule.IntegralWithin` | runtime/behaviour/tiergen/runtime/behaviour/loop.py:143-151 | the integral is at most the speed limit times the wall time |
| `BehaviourLoop.ApplyEventKeeps` | runtime/behaviour/tiergen/runtime/behaviour/loop.py:127-140 | applying a due event keeps the loop's invariant |
| `BehaviourLoop.EnterKeeps` | runtime/behaviour/tiergen/runtime/behaviour/loop.py:158-164 | entering a state, invoking its action and drawing its holding time keeps the invariant |
| `BehaviourLoop.HoldKeeps` | runtime/behaviour/tiergen/runtime/behaviour/loop.py:151-153 | holding on for part of a holding keeps the invariant: what is left is what was drawn less the integral so far, across rate changes |
| `BehaviourLoop.LastIsConserved` | runtime/behaviour/tiergen/runtime/behaviour/loop.py:151-156 | when a holding runs out, the integral of factor times curve over its whole wall interval equals the holding time drawn on entry |
| `BehaviourLoop.ChainedIsKept` | runtime/behaviour/tiergen/runtime/behaviour/loop.py:151-156 | in a run started once each holding ends where the next state is entered, and every step keeps it so |
| `BehaviourLoop.IteratedKeeps` | runtime/behaviour/tiergen/runtime/behaviour/loop.py:125-156 | one pass of the loop keeps the invariant |
| `BehaviourLoop.RunsKeep` | runtime/behaviour/tiergen/runtime/behaviour/loop.py:116-156 | every state any run reaches satisfies the invariant |
| `BehaviourLoop.RecordsNumbered` | runtime/behaviour/tiergen/runtime/behaviour/loop.py:171-209 | invocations are numbered 1 to n without gaps, each made at an entry to its state |
| `BehaviourLoop.HoldingTakesTime` | runtime/behaviour/tiergen/runtime/behaviour/loop.py:151-156 | a completed holding of at least d at speed at most R takes at least d / R of wall time |
| `BehaviourLoop.HoldingsFit` | runtime/behaviour/tiergen/runtime/behaviour/loop.py:116-156 | at any moment of a run the completed holdings are at most R * duration / d |
| `BehaviourLoop.IteratedDrops` | runtime/behaviour/tiergen/runtime/behaviour/loop.py:125-156 | a pass that does not end the run decreases the passes left, so a run terminates |
| `BehaviourLoop.EndsExactly` | runtime/behaviour/tiergen/runtime/behaviour/loop.py:141-145 | a run past its duration stands exactly at it |
| `BehaviourLoop.RunSummary` | runtime/behaviour/tiergen/runtime/behaviour/loop.py:116-182 | every completed holding conserved; entries at most effective starts plus R * duration / d; records numbered and none after the duration |
| `BehaviourLoop.Loop.ApplyDueEvents` | runtime/behaviour/tiergen/runtime/behaviour/loop.py:127-140 | the inner loop applies every event whose time has come, as the specification does |
| `BehaviourLoop.Loop.InvokeAction` | runtime/behaviour/tiergen/runtime/behaviour/loop.py:171-209 | the action runs against the tie's peers, one or all; nothing happens without peers; the record is numbered next |
| `BehaviourLoop.Loop.EnterState` | runtime/behaviour/tiergen/runtime/behaviour/loop.py:158-164 | draw, invoke and holding time in that order on the streams |
| `BehaviourLoop.Loop.Iterate` | runtime/behaviour/tiergen/runtime/behaviour/loop.py:125-156 | one pass is one step of the specification, and ends the run exactly when the duration has come |
| `BehaviourLoop.Loop.Run` | runtime/behaviour/tiergen/runtime/behaviour/loop.py:116-156 | the run terminates with the clock exactly at the duration, with all of the above, and has entered a state if and only if by the schedule itself the behaviour is on at some moment from 0 to before the end; with no entry there is no record |
| `BehaviourLoop.Loop.constructor` | runtime/behaviour/tiergen/runtime/behaviour/loop.py:89-114 | a loop holds each event of the program that concerns its behaviour as often as the program does, and no other |
| `BehaviourLoop.NeverOn` | runtime/behaviour/tiergen/runtime/behaviour/loop.py:105-112 | a schedule with no start naming the behaviour never has it on |
| `BehaviourLoop.StartIsOn` | runtime/behaviour/tiergen/runtime/behaviour/loop.py:105-112 | a start of the behaviour before the end, after every stop of its, has it on |
| `FitRun.GapIsDrawn` | fit/tiergen/fit/behaviour.py:101-110 | between two records of a run started once at the curve's own rate the fit's clock finds the holding time drawn at the first |
| `FitRun.GapsAreDrawn` | fit/tiergen/fit/behaviour.py:101-110 | the gaps of such a run's stream under a state are the holding times drawn for it, in order |
| `FitRun.FitTheRun` | fit/tiergen/fit/behaviour.py:101-110 | a run simulated, labelled and fitted: where labelling recovers its records, the gaps under each state are exactly the holding times the loop drew, but for the last |
| `Pcapng.ReadBlocks` | runtime/capture/tiergen/runtime/capture/pcapng.py:83-111 | the cursor loop reads the blocks the recursive parser finds, or fails where it fails |
| `Pcapng.ReadEmit` | runtime/capture/tiergen/runtime/capture/pcapng.py:78-111 | a block written in its section's order is read back whatever follows it, its type reversed if that order is big-endian |
| `Pcapng.ReadEmitAll` | runtime/capture/tiergen/runtime/capture/pcapng.py:78-111 | a file written block by block reads back as its blocks, types in big-endian sections reversed |
| `Pcapng.ParsedInSections` | runtime/capture/tiergen/runtime/capture/pcapng.py:83-111 | what reading finds is section headers with their magic and blocks in the order of the section they are in |
| `Pcapng.CopiesExactly` | runtime/capture/tiergen/runtime/capture/pcapng.py:247-250 | reading a block and writing it again gives its own bytes if and only if its stated length is what it takes up and its section is little-endian or its type a palindrome |
| `PcapngPackets.ReadOptions` | runtime/capture/tiergen/runtime/capture/pcapng.py:62-71 | the first option of each code up to the end marker, padding skipped |
| `PcapngPackets.UnitsAndBack` | runtime/capture/tiergen/runtime/capture/pcapng.py:136 | a timestamp written and read is floored to the interface's resolution |
| `PcapngPackets.FlooredIsClose` | runtime/capture/tiergen/runtime/capture/pcapng.py:136 | flooring loses less than one unit, and nothing from nine digits on |
| `PcapngPackets.Read` | runtime/capture/tiergen/runtime/capture/pcapng.py:141-163 | the interfaces and packets of a file in order, section bases counted over the whole file, or nothing where reading raises |
| `PcapngPackets.TagShape` | runtime/capture/tiergen/runtime/capture/pcapng.py:213-215 | twelve bytes, 0x8100, the low twelve bits of the id, then the rest unchanged |
| `PcapngPackets.TagLengths` | runtime/capture/tiergen/runtime/capture/pcapng.py:213-245 | captured and wire length both grow by four; timestamp and interface stay |
| `PcapngPackets.OneForOne` | runtime/capture/tiergen/runtime/capture/pcapng.py:226-250 | one block out for each block in, the very same unless it is a packet on a mapped Ethernet interface; then only its data and lengths change |
| `PcapngPackets.CountsRetagged` | runtime/capture/tiergen/runtime/capture/pcapng.py:226-251 | the count is the number of blocks tagged |
| `PcapngPackets.InsertTags` | runtime/capture/tiergen/runtime/capture/pcapng.py:218-251 | the loop writes the tagged blocks and returns the number tagged |
| `PcapngPackets.PacketCommutes` | runtime/capture/tiergen/runtime/capture/pcapng.py:236-246 | reading a tagged packet block is tagging the packet read if and only if the captured bytes lie inside the block, or the wire length is neither the captured length nor what there is of it |
| `PcapngPackets.TrailerKept` | runtime/capture/tiergen/runtime/capture/pcapng.py:238-245 | what follows the padded packet data is kept byte for byte |
| `PcapngPackets.BlocksCommute` | runtime/capture/tiergen/runtime/capture/pcapng.py:218-251 | reading the tagged blocks is tagging what reading the source gives, if and only if the tagged packets' lengths are settled, over any number of sections |
| `PcapngPackets.TaggedFileReadsBack` | runtime/capture/tiergen/runtime/capture/pcapng.py:218-251 | the output reads back as the blocks written, over sections of either order, types in big-endian ones reversed |
| `PcapngPackets.InsertTagsThenRead` | runtime/capture/tiergen/runtime/capture/pcapng.py:218-251 | with no interface or packet in a big-endian section, each item of the output is the source's, but a packet whose interface is mapped and was declared with link type 1 carries an 802.1Q header after twelve bytes, if and only if the tagged packets' lengths are settled; the count is the number of those packets; whatever can be read is tagged where no length outgrows its field |
| `PcapngPackets.ItemsTaggedAre` | runtime/capture/tiergen/runtime/capture/pcapng.py:212-215 | tagging the items is exactly giving the packets of mapped Ethernet interfaces their header and their lengths and leaving everything else |
| `PcapngPackets.TaggingRaises` | runtime/capture/tiergen/runtime/capture/pcapng.py:228-251 | tagging raises at a block exactly where an interface cannot be read, a packet is too short, its interface is mapped and not declared, or a packet to tag lacks its fields or room for four bytes more |
| `PcapngPackets.ReadableIsTaggable` | runtime/capture/tiergen/runtime/capture/pcapng.py:228-251 | whatever can be read can be tagged, where no length outgrows its field |
| `PcapngWriter.ReadInterface` | runtime/capture/tiergen/runtime/capture/pcapng.py:114-124 | an interface block reads back as the interface, its name without trailing NULs; a power-of-two resolution is refused |
| `PcapngWriter.ReadPacket` | runtime/capture/tiergen/runtime/capture/pcapng.py:127-138 | a packet block reads back as the packet, its time floored and its wire length only where it differs |
| `PcapngWriter.Writer.AddInterface` | runtime/capture/tiergen/runtime/capture/pcapng.py:176-183 | the file grows by the interface, keeps reading back as what was written, and the index is the interface's |
| `PcapngWriter.Writer.WritePacket` | runtime/capture/tiergen/runtime/capture/pcapng.py:185-201 | the file grows by the packet and keeps reading back as what was written |
| `PcapngWriter.Write` | runtime/capture/tiergen/runtime/capture/pcapng.py:204-210 | reading a written file gives the interfaces and then the packets back, normalised |
| `PcapngFormat.SectionBytes` | runtime/capture/tiergen/runtime/capture/pcapng.py:169-174 | the section header written, byte by byte |
| `PcapngFormat.InterfaceBytes` | runtime/capture/tiergen/runtime/capture/pcapng.py:176-183 | an interface block written, byte by byte, for every interface |
| `PcapngFormat.PacketBytes` | runtime/capture/tiergen/runtime/capture/pcapng.py:185-201 | a packet block written, byte by byte, for every packet |
| `PcapngFormat.OptionsRead` | runtime/capture/tiergen/runtime/capture/pcapng.py:62-71 | any list of options in either byte order is read as the first value of each code |
| `PcapngFormat.InterfaceRead` | runtime/capture/tiergen/runtime/capture/pcapng.py:114-124 | an interface block of any writer in either byte order gives its link type, its name without the NULs it ends with and its resolution, six by default, and nothing exactly where the resolution is no power of ten |
| `PcapngFormat.PacketRead` | runtime/capture/tiergen/runtime/capture/pcapng.py:127-138 | a packet block of any writer in either byte order gives its interface counted from the section's first, its time, as much of its data as is there and its length on the wire, and nothing exactly where the interface is not declared |
| `PcapngFormat.UnitsRead` | runtime/capture/tiergen/runtime/capture/pcapng.py:136 | a timestamp is so many nanoseconds per unit, or what is left of it below one |
| `PcapngFormat.ShortBodies` | runtime/capture/tiergen/runtime/capture/pcapng.py:114-129 | what too short a block is read as |
| `PcapngCopy.CopyIsExact` | runtime/capture/tiergen/runtime/capture/pcapng.py:218-251 | a whole file copied block by block is itself if and only if every block is copied exactly |
| `PcapngCopy.FileIsItsPieces` | runtime/capture/tiergen/runtime/capture/pcapng.py:83-111 | a file is the bytes of its blocks, one after the other |
| `PcapngCopy.OthersAsTheyWere` | runtime/capture/tiergen/runtime/capture/pcapng.py:218-251 | a block that is not tagged is written byte for byte as it was if and only if its stated length is what it takes up and its section is little-endian or its type a palindrome |
| `PcapngCopy.CopyThrough` | runtime/capture/tiergen/runtime/capture/pcapng.py:218-251 | with nothing to tag the output is the file itself if and only if every block of it is copied exactly |
| `PcapngCopy.BigEndianIsNotCopied` | runtime/capture/tiergen/runtime/capture/pcapng.py:92-111 | a big-endian file that reading accepts and copying changes: every block type is read little-endian |
| `PcapngCopy.SevenIsCorrected` | runtime/capture/tiergen/runtime/capture/pcapng.py:105-111 | a block whose stated length is 7 takes the rest of the file, whatever it is, and a copy corrects the length |
| `PcapngCopy.CutPacketDiffers` | runtime/capture/tiergen/runtime/capture/pcapng.py:127-138 | a packet block that says more was captured than it holds reads differently once tagged |
| `Codec.UnionIsFirst` | core/tiergen/core/codec.py:147-157 | a union decodes as its first arm that decodes |
| `Codec.DecodesWhatConforms` | core/tiergen/core/codec.py:139-222 | decoding succeeds on exactly the JSON conforming to the annotation |
| `Codec.DecodesAs` | core/tiergen/core/codec.py:139-222 | decoding gives a value if and only if it is what the JSON stands for: an integer at `float` the real equal to it, other atoms themselves, containers item by item and key by key, a dataclass the entry or the default under each name, a union what its first conforming arm gives |
| `Codec.ReasonIs` | core/tiergen/core/codec.py:139-222 | the reason of an error at the value itself says what is wrong with it: both lengths, the unknown names, the missing field |
| `Codec.UnionReason` | core/tiergen/core/codec.py:147-157 | a union with one arm for the shape fails as that arm does, and otherwise names every such arm's reason, in order |
| `Codec.Blame` | core/tiergen/core/codec.py:139-222 | the path of a decoding error leads to a value that exists, and to the one at fault: whatever else is changed, with that value there the data does not decode |
| `Codec.DecodeTyped` | core/tiergen/core/codec.py:139-222 | what decodes is a well-typed finite value |
| `Codec.RawRoundTrip` | core/tiergen/core/codec.py:199-207 | arbitrary finite JSON passes through and back unchanged |
| `Codec.RoundTrip` | core/tiergen/core/codec.py:59-81 | a well-typed value's encoding decodes to it again if and only if, in every union on the way down, an arm it belongs to comes before any other that takes its encoding |
| `Codec.OrderedRoundTrip` | core/tiergen/core/codec.py:7-10 | with stricter arms first everywhere, decoding undoes encoding on every well-typed value |
| `Codec.DecodeIsStable` | core/tiergen/core/codec.py:36-52 | whatever decodes is encoded to something that decodes the same |
| `Codec.SeparateIsApart` | core/tiergen/core/codec.py:7-10 | told from the annotations alone: a strict scalar first, no JSON shape in common, or a telling field keep two arms apart |
| `Codec.LooserArmFirst` | core/tiergen/core/codec.py:164-168 | with a float arm before an int arm, 2 comes back as 2.0 |
| `Codec.EncodeMapping` | core/tiergen/core/codec.py:74-80 | the loop stops at the first key that is no string or value without a JSON form, and else gives the encoded mapping |
| `Codec.DecodeUnion` | core/tiergen/core/codec.py:147-157 | the loop over the fitting arms is the specification's choice, with every failure's reason |
| `Codec.DecodeDataclass` | core/tiergen/core/codec.py:210-222 | the loop over fields is the specification's: unknown fields first, then the first bad or missing field, defaults filled in |
| `AttribJoin.NextTouchIsFirst` | backends/attrib/_base/tiergen/backends/attrib/_base/join.py:45-49 | the close or recorded open found for a socket is the first one |
| `AttribJoin.EndsAtItsClose` | backends/attrib/_base/tiergen/backends/attrib/_base/join.py:45-49 | a recorded open ends at the close of its socket no other recorded open comes before, and where it began if there is none |
| `AttribJoin.PendingIsSound` | backends/attrib/_base/tiergen/backends/attrib/_base/join.py:40-64 | the pending table's indexes are valid and distinct |
| `AttribJoin.OneMore` | backends/attrib/_base/tiergen/backends/attrib/_base/join.py:42-64 | one more event changes a record only if it is the close of its still open socket |
| `AttribJoin.Conserved` | backends/attrib/_base/tiergen/backends/attrib/_base/join.py:42-64 | records, starts, closes and dropped events account for every event |
| `AttribJoin.Join` | backends/attrib/_base/tiergen/backends/attrib/_base/join.py:37-65 | one record per non-start, non-close event of a known container, in order, each as the definitions say; the dropped counted by kind |
| `AttribJoin.RecordsAre` | backends/attrib/_base/tiergen/backends/attrib/_base/join.py:29-63 | each record says whose container and process its event was, when, and from where to where: the local side originates a connect, a UDP send and a packet, the remote side an accept and a UDP receive |
| `SeenByKernel.OpenedIsNear` | backends/assemble/tiergen/backends/assemble/join.py:102-124 | a connection a container opened or sent, about when the event was, is near its record if and only if its source address is planned for the container's instance |
| `SeenByKernel.AcceptedIsNot` | backends/assemble/tiergen/backends/assemble/join.py:3-12 | an accept's record is near a connection only where the address it came from is the container's own |
| `SeenByKernel.OpenedIsLabelled` | backends/assemble/tiergen/backends/assemble/join.py:102-149 | from the event to the label: a connection a container opened, with no other record near it, is labelled with the first invocation of the instance in that cgroup at the time |
| `AssembleJoin.StrOf` | backends/assemble/tiergen/backends/assemble/join.py:58 | a thread group's number as it stands in a principal |
| `AssembleJoin.OwnsByPrincipal` | backends/assemble/tiergen/backends/assemble/join.py:46-66 | a `pid` principal owns what its thread group did, any other only its very own, on the same host within the widened interval |
| `AssembleJoin.OneEach` | backends/assemble/tiergen/backends/assemble/join.py:102-149 | every connection has exactly one label or one unattributed flag |
| `AssembleJoin.LabelledBy` | backends/assemble/tiergen/backends/assemble/join.py:102-149 | an invocation has a label if and only if a connection was matched to a record of its own that no earlier one owns |
| `AssembleJoin.PickedIsClosest` | backends/assemble/tiergen/backends/assemble/join.py:102-124 | near is a record of the originator's with the five-tuple, started within the tolerance before or after; picked is the closest, the first of those |
| `AssembleJoin.LabelAt` | backends/assemble/tiergen/backends/assemble/join.py:139-149 | each connection whose maker is known has a label, in the connections' order, with the invocation's key and outcome and the record's principal and time |
| `AssembleJoin.LabelSays` | backends/assemble/tiergen/backends/assemble/join.py:139-149 | every label is some such connection's and says that |
| `AssembleJoin.LabelledIsShown` | backends/assemble/tiergen/backends/assemble/join.py:150-164 | a labelled invocation is never flagged failed |
| `AssembleJoin.FailedIsUnlabelled` | backends/assemble/tiergen/backends/assemble/join.py:150-164 | flagged failed is the same as not labelled, unless every record of its own that a connection was matched to is an earlier invocation's as well and there is one; so always where no record has two owners |
| `AssembleJoin.SharedRecordHidesFailure` | backends/assemble/tiergen/backends/assemble/join.py:91-98 | with two owners an invocation may be neither flagged nor labelled |
| `AssembleJoin.PickStays` | backends/assemble/tiergen/backends/assemble/join.py:103-124 | raising the tolerance keeps the record a connection is matched to |
| `AssembleJoin.ToleranceKeepsLabels` | backends/assemble/tiergen/backends/assemble/join.py:102-149 | raising the tolerance keeps a label if and only if no earlier invocation comes to own its record; so always where no record has two owners at the larger one |
| `AssembleJoin.SharedRecordMovesLabel` | backends/assemble/tiergen/backends/assemble/join.py:91-98 | with two owners a larger tolerance may hand a label to another invocation |
| `AssembleJoin.ClocksCancel` | backends/assemble/tiergen/backends/assemble/assemble.py:140-154 | stamping a host's records earlier and giving it as much more offset changes nothing on the capture host's clock |
| `AssembleJoin.SameLabels` | backends/assemble/tiergen/backends/assemble/join.py:102-149 | labels and connection flags depend on invocations only through the capture host's clock |
| `AssembleJoin.SortedFlags` | backends/assemble/tiergen/backends/assemble/join.py:165-173 | the flags come sorted by time, kind, reason, invocation and flow, and are the ones there were |
| `AssembleJoin.FindPick` | backends/assemble/tiergen/backends/assemble/join.py:103-124 | the index finds the nearest record, the first of equals, of the plain definition |
| `AssembleJoin.OwnerOf` | backends/assemble/tiergen/backends/assemble/join.py:89-98 | the memo table holds the first owner of each record it has been asked of |
| `AssembleJoin.Join` | backends/assemble/tiergen/backends/assemble/join.py:69-174 | the indexed, memoised join equals the plain quadratic definition: labels by sensor, sorted flags, or the first due label's missing signature |
| `AssembleJoin.JoinMovedClocks` | backends/assemble/tiergen/backends/assemble/assemble.py:140-154 | every stamp of each host moved back and its offset raised by as much, the joins on the capture host's clock are equal: labels, flags and errors |
| `Scheduler.Run.BringUp` | runtime/scheduler/tiergen/runtime/scheduler/scheduler.py:125-160 | the steps are hosts, collectors, capture, clock and release, in order, as far as the first that raises; what started is on the undo list in order |
| `Scheduler.Run.TakeOff` | runtime/scheduler/tiergen/runtime/scheduler/scheduler.py:81-87 | exactly: collect, then down whatever became of that, and the state file dropped only if that went well |
| `Scheduler.Run.Unwind` | runtime/scheduler/tiergen/runtime/scheduler/scheduler.py:90-100 | the undo list is taken down in reverse, every entry once, whichever of them fail; only an interrupt stops it, at a prefix |
| `Scheduler.Run.Wait` | runtime/scheduler/tiergen/runtime/scheduler/scheduler.py:165-170 | the wait ends at the duration, or cut by an interrupt, or with an error that escapes |
| `Scheduler.Run.WaitAndFall` | runtime/scheduler/tiergen/runtime/scheduler/scheduler.py:165-178 | from the release on: recorded if and only if nothing raised but an interrupt of the wait; the time recorded runs from the start to a clock reading after the wait; everything taken down once in reverse if and only if no error escaped the wait |
| `Scheduler.Run.RunScenario` | runtime/scheduler/tiergen/runtime/scheduler/scheduler.py:103-178 | the way up goes through its steps in order, as far as the first that raises; `run.json` is written if and only if nothing raised but an interrupt of the wait; what was started is taken down once, in reverse, if and only if no error escaped the wait; agents released only with everything on; an error at the first clock reading of the wait leaves everything up |
| `Scheduler.UpSummary` | runtime/scheduler/tiergen/runtime/scheduler/scheduler.py:161-163 | a failed way up has undone nothing yet and holds everything started, in order |
| `SimLabel.SourceIsMine` | sim/tiergen/sim/simulate.py:172-178 | the source address is one of the instance's own |
| `SimLabel.Render` | sim/tiergen/sim/simulate.py:203-247 | the loops number the connections on and emit each slot's events, with an HTTP action's method, host and path |
| `SimSpelled.SourceIs` | sim/tiergen/sim/simulate.py:172-178 | an invocation comes from the instance's address on the first segment it shares with the target's address, and otherwise from its first |
| `SimSpelled.SlotsAre` | sim/tiergen/sim/simulate.py:181-218 | an invocation connects to each port of each of its targets as often as its shape says for each time the port is listed, and nowhere else |
| `SimSpelled.ConnectionEvents` | sim/tiergen/sim/simulate.py:214-247 | a connection's five-tuple, its source port by its number, and with HTTP a request, a POST where the signature says so, of the path asked for |
| `SimLabel.BuildVocabulary` | fit/tiergen/fit/vocabulary.py:81-123 | each address lists the candidates of the programs holding it, once per listing, in order, and names the last of them |
| `SimLabel.Dedupe` | fit/tiergen/fit/ingest.py:70-79 | sorted by start, the first of each five-tuple and millisecond |
| `SimSpelled.CopiesAre` | fit/tiergen/fit/ingest.py:70-79 | two connections are taken for one if and only if they have one five-tuple and one millisecond is nearest to both, halves going to the even |
| `SimSpelled.CoverageIs` | fit/tiergen/fit/ingest.py:106-110 | how many connections in the window are HTTP's by port or by an event, and how many of those have an event |
| `SimLabel.Label` | fit/tiergen/fit/ingest.py:82-141 | streams by key are the folded sorted hits of the kept connections in the window, with an empty one for every candidate's; reasons, unknown originators and HTTP coverage are counted |
| `TellApart.MatchExactly` | fit/tiergen/fit/vocabulary.py:48-69 | a connection is matched to a candidate if and only if that claims it, by name or by a scan where nothing is named, and every other that does is excluded by the paths seen, which it allows |
| `TellApart.MatchIs` | fit/tiergen/fit/vocabulary.py:48-69 | it is matched whatever path the action draws if and only if the candidate claims it and is apart from every other that does: HTTP with disjoint path sets, or no path against some |
| `SimThenLabel.Rendered` | sim/tiergen/sim/simulate.py:206-247 | with one connection each, connection k is record k's |
| `SimThenLabel.CopyIsWrapped` | sim/tiergen/sim/simulate.py:219-228 | two connections with one five-tuple are a multiple of 16384 connections apart |
| `SimThenLabel.DedupeKeeps` | fit/tiergen/fit/ingest.py:70-79 | every simulated connection is kept if and only if no two agree on the five-tuple and on the millisecond |
| `SimThenLabel.ReachesOwn` | fit/tiergen/fit/vocabulary.py:95-107 | an action's connection is among its candidate's endpoints, if and only if the port is served over the signature's transport where the port is the target's |
| `SimThenLabel.ToldByPaths` | fit/tiergen/fit/vocabulary.py:72-78 | actions told apart for every path they can draw are told apart in every record |
| `SimThenLabel.FoundIsRecord` | fit/tiergen/fit/vocabulary.py:48-69 | the fit finds a record's connection to be the record's own behaviour and state if and only if it is told apart |
| `SimThenLabel.KeptExactly` | fit/tiergen/fit/ingest.py:70-79 | exactly the records whose connections copy an earlier one are lost from a behaviour's stream |
| `SimThenLabel.FoldExactly` | fit/tiergen/fit/ingest.py:121-128 | folding keeps every hit if and only if none comes less than a second after one of its state that opens many connections |
| `SimThenLabel.HitsAreRecords` | fit/tiergen/fit/ingest.py:99-116 | where connections are told apart, the hits of a behaviour are the times and states of its records that are no copies |
| `SimThenLabel.NothingMissed` | fit/tiergen/fit/ingest.py:108-113 | where connections are told apart nothing is unmapped |
| `SimThenLabel.StreamIsTheRecords` | fit/tiergen/fit/ingest.py:121-130 | a stream is its records' own sequence if and only if none is a copy, none is folded, and those at one instant come in the order of their states |
| `SimThenLabel.SimulateThenLabel` | fit/tiergen/fit/ingest.py:82-141 | with one connection per invocation: if all are told apart nothing is unmapped, and each behaviour's stream is its records' own sequence if and only if none is a copy, folded or out of order; in a run whose records are all at different times every stream is, if and only if all are told apart and none is a copy or folded |
| `SimCases.SmbIsAmbiguous` | sim/tiergen/sim/simulate.py:238-247 | two SMB reads with disjoint paths on one share are ambiguous, because only HTTP shows a path |
| `SimCases.NamedPortWins` | fit/tiergen/fit/vocabulary.py:54-57 | a request is told apart from a scan of its peer, and a scan of the request's port is taken for the request |
| `SimCases.BurstLosesOne` | sim/tiergen/sim/simulate.py:219-228 | of more than 16384 requests in one instant the 16385th is taken for a copy of the first and its record lost |
| `SimCases.OneInstantIsReordered` | fit/tiergen/fit/ingest.py:121-130 | two invocations at one instant come out in the order of their states' names |
| `SimCases.BrowsesAreFolded` | fit/tiergen/fit/ingest.py:123-128 | two invocations of a many-connection action within a second come out as one |
| `Checks.Targets` | core/tiergen/core/groups.py:39-55 | the instances of the tie's target kind in the wired groups, in order, or none where the tie is not wired |
| `Checks.ReachedIsTotal` | check/tiergen/check/c01_ties.py:74-78 | a wire reaches as many instances as the check counts |
| `Checks.ExpectedIs` | check/tiergen/check/c01_ties.py:44-47 | whatever order the held kinds come in, under a wire key stands the tie of a held kind, if there is one |
| `Reports.TieFindings` | check/tiergen/check/c01_ties.py:20-93 | check 1 reports each finding exactly where its condition holds: a bad target kind, an unknown or negative count, an unwired key, a stray, empty or unknown wire, a multiplicity not met |
| `Checks.CleanTie` | check/tiergen/check/c01_ties.py:44-93 | a clean check 1 wires every tie of every held kind, with as many targets as it allows if the tie counted under its key stands for it, and so in any order if every tie of a held kind under the key does |
| `SharedKeys.EnoughExactlyWhenAllStand` | check/tiergen/check/c01_ties.py:44-93 | over every scenario of the same kinds and every order of the held set, a clean check 1 gives a tie as many targets as it allows if and only if each tie of a held kind under its key stands for it: the tie is `multiple`, or they have one target kind and the other is `single` or as strict |
| `SharedKeys.OrderIsNoMatter` | check/tiergen/check/c01_ties.py:44-47 | where no two ties of held kinds share a key, check 1 says the same in any order |
| `Planes.CheckPlanes` | check/tiergen/check/c09_planes.py:26-48 | the loops report a number of management segments other than one, and every data segment a management segment overlaps, in order |
| `Planes.OneHostAnywhere` | check/tiergen/check/c09_planes.py:26-48 | where checks 9 and 10 find no overlap an address is one host's on one segment, of either plane, whatever the plan reported |
| `Planes.PlannedAddressesAreOwn` | sim/tiergen/sim/simulate.py:105-121 | where checks 9 and 10 find no overlap no address is listed twice over all programs the simulator is given |
| `CheckPlans.FindOverlaps` | check/tiergen/check/c10_addresses.py:40-52 | every pair of data segments whose prefixes share an address, in order |
| `CheckPlans.CheckAttachments` | check/tiergen/check/c10_addresses.py:54-75 | unknown kinds, unknown and management segments, and kinds held but joined to no data segment, in order |
| `Reports.OverlapFindings` | check/tiergen/check/c10_addresses.py:40-52 | an overlap is reported exactly of two data segments with an address in common |
| `Reports.AttachmentFindings` | check/tiergen/check/c10_addresses.py:54-75 | of attachments each finding is reported exactly where its condition holds, a kind held as unattached exactly where none of its networks is a data segment |
| `CheckPlans.CheckReach` | check/tiergen/check/c10_addresses.py:77-101 | the loops report exactly the wired ties with a pair that cannot reach, by the first such pair and their number |
| `CheckPlans.Check` | check/tiergen/check/c10_addresses.py:25-101 | the whole check on the planners' own plans: both plans' problems, overlaps, attachments and reach |
| `Programs.PeerAddressIsReachable` | core/tiergen/core/program.py:103-116 | a peer has an address if and only if check 10 finds it reachable, and it is on a shared or routed data segment |
| `Programs.BuildPeers` | core/tiergen/core/program.py:185-193 | the targets with an address, in order |
| `Programs.CleanChecksGiveTotalPrograms` | core/tiergen/core/program.py:185-193 | with checks 1 and 10 clean an instance has exactly its targets as peers on every covered tie, each at an address it can reach, and as many as the tie allows if the tie counted stands for it |
| `Programs.TotalExactlyWhenJoined` | core/tiergen/core/program.py:185-193 | on unambiguous planned routes an instance has all the targets of a tie as peers if and only if forwarders join it to each of them |
| `Programs.PlainTiesAreCounted` | check/tiergen/check/c01_ties.py:44-47 | with no dot in the names of the kinds held and no two ties of one name, the tie counted is the tie built, in any order |
| `Programs.AllStandIsVouched` | check/tiergen/check/c01_ties.py:44-47 | where each tie of a held kind under a key stands for the one built, so does the one counted, in any order |
| `Programs.CleanIsAttached` | check/tiergen/check/c10_addresses.py:67-75 | attachments clean and the plan complete, every instance is on a data segment |
| `Programs.PlansAreUnique` | core/tiergen/core/addressing.py:105-143 | a plan gives each address on a segment to one instance, which forwarding relies on |
| `Programs.OneHostPerAddress` | check/tiergen/check/c10_addresses.py:40-52 | where check 10 finds no overlap an address is one host's on one segment, whatever the plan reported |
| `Programs.CheckThenBuild` | core/tiergen/core/program.py:185-193 | check 10 run on the planners' own plans: if it finds nothing every member has its address, every route delivers, and programs have all targets of a tie exactly when forwarders join them; if check 1 finds nothing either every covered tie is total |
| `Unchecked.DottedKindIsUnchecked` | check/tiergen/check/c10_addresses.py:82-87 | for every kind name with a dot: a client of that kind and its server on two segments with no forwarder; on any plan the planners give checks 1, 9 and 10 find nothing and the `single` tie has no peer |
| `Unchecked.DottedPasses` | check/tiergen/check/c10_addresses.py:25-101 | that scenario run: both planners, both checks of the plans, no finding, no peer |
| `Unchecked.TotalExactlyWithoutDot` | check/tiergen/check/c10_addresses.py:81-101 | over every scenario, topology, plan and order with checks 1, 9 and 10 clean, the instances of a kind have all the targets of every tie if and only if the kind's name has no dot |
| `Unchecked.SharedTiesReported` | check/tiergen/check/c01_ties.py:44-47 | two held kinds whose ties share a key: check 1 finds nothing if one is counted and reports the other if that one is |
| `Unchecked.SharedKeyIsUnchecked` | check/tiergen/check/c01_ties.py:44-93 | for them, on any plan the planners give check 9 and check 10 find nothing and the `single` tie of the one has both servers as peers |
| `Unchecked.SharedPasses` | check/tiergen/check/c01_ties.py:44-93 | that scenario run: no name used twice, no finding in one order of the held set and one in another, and two peers on a `single` tie |

## Left out

- Docker, libvirt, dumpcap, tshark, guest agents, images: steps that may raise, in the scheduler; otherwise not part of this model.
- Collector and eBPF C code, sensor log adapters, CLI, reports, manifests, loaders and registries.
- Floating point and microseconds: times and rates are exact reals, timestamps integers. `int` to `float` in the codec is exact, so its overflow on huge integers is not modelled.
- Text of addresses, prefixes, port lists and numbers: given parsed. IPv6: the plan is for one IPv4 prefix per segment.
- MAC addresses, bridge names and seeds: hashes no result depends on.
- Addressing.PlanAddresses: does not model the host names and MAC addresses of the plan, because they are text and hashes of instance ids that no result depends on.
- UTF-8: names in pcapng are bytes, and invalid sequences are not replaced.
- Error message texts: an error is its path and its reason; for a decoding shape error the expected shapes are not listed.
- `__post_init__` of dataclasses, and dataclass fields that are not constructor parameters.
- Random distributions, estimators, transition matrices and the fitted curve: numerics. `FitRun.FitTheRun` takes the fitted curve to be the run's own.
- The 168-entry curve in the fit: `operational` and `hourly` read 24 entries; `advance` is proved for both lengths and for no curve.
- UTC offsets that change during a run: one fixed offset, as scenario starts carry.
- Checks other than 1, 9 and 10; of check 9 all but the segments, of check 10 its remarks on egress. What check 11 sees to (names used once) is a hypothesis where it is needed.
- SimLabel.Label: does not model the last regrouping of streams under (kind, behaviour) and by host, because a map by kind, behaviour and instance holds the same streams; originators and coverage are counted in a loop of their own.
- `signatures` of the assemble join: the map is an input.
- `log` calls of the scheduler: taken not to raise.
- BehaviourLoop.Loop.InvokeAction: does not model the choice of implementation and of parameters, nor the draws they take from the selection stream, because the record's number, state, targets and times do not depend on them.
- BehaviourLoop.Loop.Run: `run`'s local variables are fields of the loop, because its passes are methods here; a `run_sequence` event never reaches the loop, whose constructor filters it out, so its warning is not modelled.
- PcapngPackets.InsertTags: returns nothing where the source raises, and does not model the partial output file left behind, because the caller discards it.
- PcapngPackets.InsertTagsThenRead: says nothing of files with an interface or packet block in a big-endian section, because what is one before copying is none after it and the other way round; `PcapngPackets.TaggedFileReadsBack` says what is read of those.
- PcapngWriter.Write: asks for lengths and counts that fit their fields, because packing anything larger raises.
- Scheduler.Run.RunScenario: the clock passes every instant sooner or later, because a wait on a clock that stands still never ends.
- Parameters of an action other than its paths, such as an SMB share: labelling reads none of them.
- SimThenLabel.SimulateThenLabel: asks for one connection per invocation, because an invocation of several gives several hits and one of none gives none.
- FitRun.FitTheRun: takes the simulator's records of the behaviour to be the loop's, and asks for a run started once, without rate changes, whose every state acts, because other gaps span several holdings or are measured at another rate.
