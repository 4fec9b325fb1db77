# A model of the robot brain's builder, tape, odometry and control loops

This project models the parts of the robot-brain runtime that carry small algorithms and state machines, and proves what
they promise. Every file is one module, named after the component it models.

| file | what it models |
|---|---|
| `Order.dfy` | the suggested execution order of a brain's modules: Kahn's algorithm with a least-index queue and a cycle branch |
| `Odometry.dfy`, `TrunkFrame.dfy` | contact odometry: two feet, one anchored sole corner, and the trunk's position from it, in whatever frame the trunk has |
| `LiveSync.dfy`, `LiveDiff.dfy`, `Keys.dfy` | the difference between the edited document and the running host, what it asks for, and the host's patch machine |
| `Topics.dfy`, `Text.dfy`, `Json.dfy` | topics composed from params by a pattern and split back by the pattern's regular expression |
| `Wiring.dfy`, `Sockets.dfy`, `Build.dfy`, `BuildLaws.dfy`, `LinkLaws.dfy`, `Canvas.dfy` | pins, sockets, nodes, links by matching topics, why each pin and link is there, and what a built canvas guarantees |
| `Slots.dfy`, `Connect.dfy`, `ConnectLaws.dfy`, `ProducerWins.dfy`, `Wires.dfy` | connecting and disconnecting two pins as edits of the document, what they promise and whose params they write, and which pin an id leads to |
| `LiveProtocol.dfy`, `ProtocolLaws.dfy` | the newline-framed request and reply protocol between the live client and the control server |
| `Layout.dfy`, `LayoutLaws.dfy` | the canvas layout: bounded longest-path relaxation and column packing |
| `Graph.dfy`, `GraphLaws.dfy` | the document, its edits and its capped undo history |
| `Parsers.dfy`, `Tape.dfy`, `BrainTape.dfy`, `TapeFaults.dfy` | the brain tape's format, its writer and its reader |
| `Digest.dfy` | the 64-bit FNV-1a digest of a brain's outputs |
| `SectorGate.dfy`, `Heading.dfy`, `Detour.dfy`, `Arming.dfy`, `DetourRuns.dfy` | the control loops above the walking policy: sector gate, heading and reference, detours |
| `Freeze.dfy` | freezing and thawing learning through the rates, in the three adapters |
| `Prelude.dfy` | options, distinct elements, and the like |

Code that updates fields or arrays in loops is modelled by classes and methods with loops. Each such method's contract
equates its result or new state with a specification function, and the laws are lemmas about those functions over all
inputs and all runs. State machines that run for a whole session (the protocol, the odometry, the detour, the gate, the
freeze switches, the document's history) have a `Run` function over event sequences; the class methods are tied to single
steps of it.

Conventions. Doubles are `real`s; the odometry takes a reading together with the norm of its quaternion, so that no square
root is computed; headings are vectors or angles given by the caller. Floats on the tape are their bit patterns, strings
there are bytes. 64-bit arithmetic in the digest is modulo 2^64, written out. JSON objects keep insertion order, and where a law needs it their keys are unique. Fields of
model states marked as not in the source (`mine`, `ever`) only record history for the statements.

Findings, where the code differs from its documentation or from what one might expect:

- `Odometry.hpp` says the estimate never jumps at a switch. It moves by the corner's recorded XY less its current one, and up
  by the corner's depth below the ground: not at all only when the corner is where it was recorded, on the ground
  (`Odometry.SwitchMovesByTheDrift`; two readings that jump are in `Odometry.EstimateJumps`).
- A cycle note that says "stays where it is" can name a module on no cycle (`Order.CycleNoteMayNameABystander`); when the
  module is on one is told by `Order.OnCycleIffAFeederIsReached`, and "kept before" is always right
  (`Order.KeptBeforeNamesACycle`).
- A live sync batch is refused exactly when the document has an id twice that the host lacks (`LiveSync.BatchRunsIff`); with
  an id twice that it has, a recreation takes the first module of the id where the difference reads the last
  (`LiveSync.Converges`).
- Adopting the host's modules and comparing again is quiet exactly when every element has an id
  (`LiveSync.AdoptThenDiffIsQuiet`).
- Wiring can succeed and the socket still give another topic, or none: with text around the placeholder, or with params that
  are not the placeholders (`ConnectLaws.PrefixedSocketMisses`, `ConnectLaws.TextBesideAPlaceholder`). And it can succeed by
  editing another socket: a live pin's topic is looked up among all params, inputs and outputs alike
  (`ConnectLaws.SlotSuitsIffOwn`, `ConnectLaws.OutputPinRewiresTheInput`).
- Removing a wire erases a scalar param rather than restoring a blank one, and leaves an empty list where there was none
  (`ConnectLaws.ClearUndoesScalar`, `ConnectLaws.ClearUndoesEntry`). When the wire was made by setting the producer's output,
  it is the consumer that loses its topic (`ConnectLaws.DisconnectRestores`, `ConnectLaws.ProducerKeepsTheTopic`). The wire of
  a socket of several params is removed at its other end or not at all (`Wires.ComposedWireStays`).
- Pins of two nodes can share an id when a module's id holds a colon (`Wires.ColonsCollide`).
- The joint brain's adapter forgets a rate that is not a double when it freezes; the other two adapters turn an integer rate
  into a double (`Freeze.FreezeAndThaw`).
- A turn and a hold overlap exactly when the host asks for a hold while the detour turns (`Detour.HostHoldDuringATurn`,
  `Detour.OverlapIsReached`).
- Writing the body manifest is neither an undo step nor a new revision (`Graph.Graph.SetBodyManifest`).
- Ids stay unique below 10,000 modules, one more than the numbered names alone give, since the fallback name counts too.

## Model

| member | source | states |
|---|---|---|
| Order.TopologicalOrder | brain_builder/src/Order.cpp:9-53 | the loop returns the one order the placing rule allows; `changed` exactly when it is not the identity; one note per use of the cycle branch, and the closing note |
| Order.IndexByName | brain_builder/src/Order.cpp:12-13 | every id leads to the last module that has it |
| Order.LinkUp | brain_builder/src/Order.cpp:15-23 | the successor sets are the forward links between different known modules, and the in-degrees count each module's distinct feeders |
| Order.InitialQueue | brain_builder/src/Order.cpp:25-27 | the queue starts as the modules without a feeder |
| Order.PickNext | brain_builder/src/Order.cpp:30-43 | the next module is the least ready one, or the earliest unplaced one when none is ready |
| Order.Turn | brain_builder/src/Order.cpp:30-48 | one turn places the next module, keeps the books of those unplaced, and notes a use of the cycle branch |
| Order.PlaceAll | brain_builder/src/Order.cpp:25-49 | the turns place every module once, in the one order the rule allows, with a note for each use of the cycle branch |
| Order.Release | brain_builder/src/Order.cpp:47-48 | each unplaced successor waits for one module less, and exactly those that wait for none join the queue |
| Order.Place | brain_builder/src/Order.cpp:44-48 | placing a module keeps the in-degrees and the queue those of the modules still unplaced |
| Order.IsMoved | brain_builder/src/Order.cpp:50 | tells the identity from every other order |
| Order.SortedIsPermutation | brain_builder/src/Order.cpp:29-49 | every module is placed exactly once, cycles or not |
| Order.SortedIsUnique | brain_builder/src/Order.cpp:29-49 | the rule leaves no choice: there is one suggestion for a graph |
| Order.ViolatedLinkEndsAtCycleBranch | brain_builder/src/Order.cpp:31-48 | a forward link the order runs backwards ends at a module that the cycle branch placed |
| Order.CycleBranchNeedsCycle | brain_builder/src/Order.cpp:31-38 | the cycle branch runs only when the unplaced modules hold a directed cycle, which leads into the module placed |
| Order.OnCycleIffAFeederIsReached | brain_builder/src/Order.cpp:31-38 | a module is on a cycle of unplaced modules if and only if searching along its forward links, for as many rounds as there are modules, comes to one of its own unplaced feeders |
| Order.KeptBeforeNamesACycle | brain_builder/src/Order.cpp:34-37 | a note that says "kept before" names a module on a cycle of two, and with no empty id every module placed while on such a cycle gets that note |
| Order.CycleNoteMayNameABystander | brain_builder/src/Order.cpp:15-37 | links of three modules, any distinct ids: a and b feed each other, the reader reads a, and the first note says of the reader, which is on no cycle, that it stays where it is |
| Order.TopologicalHasNoCycle | brain_builder/src/Order.cpp:25-49 | a topological order excludes a directed cycle of forward links |
| Order.TopologicalIffAcyclic | brain_builder/src/Order.cpp:25-49 | the suggestion is a topological order if and only if the forward links hold no directed cycle |
| Order.SortedIsLexLeast | brain_builder/src/Order.cpp:25-49 | when there is a topological order, the suggestion is the lexicographically least of them |
| Order.ReorderRelabels | brain_builder/src/Graph.cpp:188-191 | reordering the modules turns their links into the same graph under the new positions |
| Order.SortedOnceMoreStays | brain_builder/src/Order.cpp:25-50 | the rule on the relabelled graph gives the identity, on cyclic graphs too |
| Order.SortIsIdempotent | brain_builder/src/Order.cpp:15-51 | with distinct ids the suggestion is a permutation, and on the reordered modules, for the same links, the only suggestion is to change nothing |
| Order.FeedbackDoesNotCount | brain_builder/src/Order.cpp:19 | feedback links taken out of any list of links change neither the suggested order nor the notes nor the changed flag |
| Order.SameForwardLinksSameGraph | brain_builder/src/Order.cpp:18-23 | only which non-feedback links there are counts: not their number, order or listing |
| Order.LinksRunForward | brain_builder/src/Order.cpp:18-49 | with distinct ids the suggestion puts the producer of every non-feedback link between two different modules before its consumer if and only if those links form no cycle |
| Order.CycleNoteSays | brain_builder/src/Order.cpp:34-37 | a note names the module and then, in index order, exactly the unplaced modules it has mutual links with, or says that it stays where it is when there are none |
| Odometry.Odometry.constructor | mj_host/src/Odometry.hpp:51-58 | the state before any update |
| Odometry.Odometry.ContactPoint | mj_host/src/Odometry.cpp:71-72 | a sole point carried into the world by the foot's pose and the IMU's rotation |
| Odometry.Odometry.AxesOf | mj_host/src/Odometry.cpp:41 | a point of the trunk turned into world axes, as the first update does with the anchor foot |
| Odometry.Odometry.Reproject | mj_host/src/Odometry.cpp:70-74 | the trunk is put where the anchor contact is at the anchor |
| Odometry.Odometry.TryCorner | mj_host/src/Odometry.cpp:84-91 | one corner against the running minimum |
| Odometry.Odometry.FindLowestCorner | mj_host/src/Odometry.cpp:76-95 | the loop ends with the running minimum over all eight corners |
| Odometry.Odometry.Update | mj_host/src/Odometry.cpp:38-68 | one update is the step of the anchor machine, every field |
| Odometry.EveryReadingIsRigid | mj_host/src/Odometry.cpp:9-22 | rotation and foot pose carry opposite sole points symmetrically about the foot's centre |
| Odometry.LowestIsLeast | mj_host/src/Odometry.cpp:81-94 | the corner named is under the margin, at or below every corner, and strictly below the earlier ones |
| Odometry.ACandidateAlwaysExists | mj_host/src/Odometry.cpp:81-94 | with the anchor on the ground `lowest_corner` always finds a corner |
| Odometry.StepStaysReachable | mj_host/src/Odometry.cpp:38-68 | every update keeps the invariant the candidate rests on |
| Odometry.RunStaysReachable | mj_host/src/Odometry.cpp:38-68 | so every run does |
| Odometry.AnchorTouchesTheGround | mj_host/src/Odometry.cpp:45-73 | after every update the anchor contact is exactly at the anchor XY with Z 0 |
| Odometry.FirstUpdateIsTheOrigin | mj_host/src/Odometry.cpp:40-45 | the first update puts the trunk at XY (0, 0) |
| Odometry.PendingIsTheLastCandidate | mj_host/src/Odometry.cpp:46-56 | the pending candidate's foot held the lowest corner on the update before |
| Odometry.AnchorHeldTheLowestCornerTwice | mj_host/src/Odometry.cpp:50-65 | a foot becomes the anchor only after holding the lowest corner on two consecutive updates, with the corner and XY of the first |
| Odometry.SwitchMovesByTheDrift | mj_host/src/Odometry.cpp:57-73 | a switch moves the estimate by the pending corner's recorded XY less its current one, and up by that corner's depth below the ground; so it moves nothing if and only if the corner is still where it was recorded, on the ground; without a switch nothing moves |
| Odometry.EstimateJumps | mj_host/src/Odometry.cpp:38-95 | two valid readings for any depth and slip: with the left foot anchored and still, a lower right foot becomes the anchor and the trunk goes back by the slip and up by the depth |
| Odometry.RotateTurned | mj_host/src/Odometry.cpp:9-17 | premultiplying a quaternion by a turn about Z spins what it rotates |
| Odometry.HeadingTurned | mj_host/src/Odometry.cpp:24-28 | and its heading vector |
| Odometry.TurnedReadingSeesSpun | mj_host/src/Odometry.cpp:9-34 | a reading with a premultiplied nonzero quaternion sees every point spun, heights kept |
| Odometry.StepSpun | mj_host/src/Odometry.cpp:38-95 | one update of the spun view is the spun update |
| Odometry.RunSpun | mj_host/src/Odometry.cpp:38-95 | and so over whole runs |
| Odometry.YawEquivariance | mj_host/src/Odometry.cpp:9-95 | turning every nonzero IMU quaternion of a run by one yaw turns every XY, anchor XY and heading, and leaves every Z, anchor foot, corner and switch as it was |
| Odometry.ZeroReadingDoesNotTurn | mj_host/src/Odometry.cpp:30-34 | the one reading outside it: a zero quaternion is its own premultiple |
| TrunkFrame.NormOfProduct | mj_host/src/Odometry.cpp:9-34 | norms multiply, so the turned readings are valid ones |
| TrunkFrame.ConjugateOfProduct | mj_host/src/Odometry.cpp:9-17 | a product of quaternions rotates as the one after the other |
| TrunkFrame.FootTurns | mj_host/src/Odometry.cpp:19-22 | a sole point of a foot whose place and quaternion are turned is the turned sole point if and only if the foot's quaternion is a unit, or the turn leaves the point of the foot frame alone |
| TrunkFrame.FootYawSpins | mj_host/src/Odometry.cpp:19-22 | premultiplying a foot's unit quaternion by a turn about Z spins its sole points about the foot's place |
| TrunkFrame.ReframedSeesTheSame | mj_host/src/Odometry.cpp:9-34 | with both feet turned by a unit quaternion and the IMU's multiplied by its conjugate on the right, every sole point is seen where it was |
| TrunkFrame.ZeroReadingTurns | mj_host/src/Odometry.cpp:30-34 | the exception: under a zero IMU quaternion what is seen turns with the frame |
| TrunkFrame.StepSame | mj_host/src/Odometry.cpp:38-95 | one update from readings that show the same is the same, the heading aside |
| TrunkFrame.TrunkFrameDoesNotMatter | mj_host/src/Odometry.cpp:9-95 | over whole runs, with a frame chosen anew for every reading, every position, anchor, corner, candidate, tick count and switch is as it was |
| LiveSync.IndexHost | brain_builder/src/LiveSync.cpp:9-14 | the host's modules by id, last entry winning, entries without an id skipped |
| LiveSync.IndexDocument | brain_builder/src/LiveSync.cpp:21-27 | the document's modules by id, and its order |
| LiveSync.RemoveStale | brain_builder/src/LiveSync.cpp:28-29 | a removal for each host id the document lacks, in key order |
| LiveSync.ConsiderKeys | brain_builder/src/LiveSync.cpp:44-54 | per key: nothing, a hot set, the default as a hot set, or a recreation |
| LiveSync.DiffModule | brain_builder/src/LiveSync.cpp:37-56 | one module's sets or its need to be recreated |
| LiveSync.UpdateAll | brain_builder/src/LiveSync.cpp:30-57 | adds, sets and recreations in document order |
| LiveSync.KeepShared | brain_builder/src/LiveSync.cpp:61-63 | the ids both sides have, in one side's order |
| LiveSync.ListHost | brain_builder/src/LiveSync.cpp:59-60 | the host's ids in its own order |
| LiveSync.DiffForLive | brain_builder/src/LiveSync.cpp:18-66 | the whole difference: batch, recreations and the order note |
| LiveSync.AdoptLiveModules | brain_builder/src/LiveSync.cpp:78-92 | the document's modules become the host's, or nothing changes; an element that is no object throws first |
| LiveSync.PrefixesApply | brain_builder/src/LiveSync.cpp:18-66 | a batch the host accepts is accepted op by op, at every prefix |
| LiveSync.RecreateRuns | brain_builder/src/LiveSync.cpp:68-76 | the two ops of a recreation give the host the document's module |
| LiveSync.BatchRuns | brain_builder/src/LiveSync.cpp:18-57 | when the host has every id that the document has twice, the batch runs: removals hit present ids, adds absent ones, sets hot params; every module not listed for recreation then agrees with the document |
| LiveSync.BatchRunsIff | brain_builder/src/LiveSync.cpp:18-57 | the host accepts the batch if and only if it has every id that the document has twice |
| LiveSync.FirstIsLast | brain_builder/src/LiveSync.cpp:19-71 | a recreation takes the first module of an id, a difference the last; with distinct ids they are the same |
| LiveSync.SecondLook | brain_builder/src/LiveSync.cpp:18-57 | against a host with the document's ids, a difference asks for nothing but sets of values held if and only if every module already holds the document's values, defaults aside |
| LiveSync.Converges | brain_builder/src/LiveSync.cpp:18-76 | batch and recreations run to the end and leave the document's ids; the host then has the document's types and effective params if and only if, for each id recreated, the first module of the id runs as the last, and a second difference asks only for sets of values held if and only if it also holds the last's values; with distinct ids both always hold |
| LiveSync.NoOpsChangeNothing | brain_builder/src/LiveSync.cpp:46 | such a set changes nothing |
| LiveSync.AdoptThenDiffIsQuiet | brain_builder/src/LiveSync.cpp:18-92 | adopting and then comparing finds nothing if and only if every adopted element has an id |
| LiveDiff.LocalIsTheLast | brain_builder/src/LiveSync.cpp:21-27 | of the document's modules with one id the last is compared |
| LiveDiff.HostIsTheLast | brain_builder/src/LiveSync.cpp:9-14 | and of the host's entries; one without a type or params reads as the empty ones |
| LiveDiff.HostHasIds | brain_builder/src/LiveSync.cpp:9-14 | the host has exactly the ids its entries give |
| LiveDiff.RecreatedIff | brain_builder/src/LiveSync.cpp:37-56 | an id is to be recreated if and only if both sides have it and either the types differ or some differing param is not hot, or is absent from the document without a default |
| LiveDiff.BatchIsWhatIsAsked | brain_builder/src/LiveSync.cpp:28-57 | the batch holds exactly: a removal per id the document lacks, an addition per id the host lacks with the document's type and params, and for each shared id not recreated a set per differing param, to the document's value or else the default |
| LiveDiff.BatchAsksOnce | brain_builder/src/LiveSync.cpp:28-57 | with distinct ids no op and no recreation is asked for twice |
| LiveDiff.OrderNoteIff | brain_builder/src/LiveSync.cpp:58-64 | with distinct ids on both sides the order note is given if and only if two ids that both sides have stand in opposite orders |
| Keys.First | brain_builder/src/LiveSync.cpp:28 | the least key of a map, in string order |
| Keys.InOrder | brain_builder/src/LiveSync.cpp:28 | the order in which a map's keys are visited |
| Topics.Compose | brain_builder/src/Wiring.cpp:30-42 | the loop substitutes each param in turn, or gives no topic |
| Topics.ReadPattern | brain_builder/src/Wiring.cpp:394-409 | the pattern read into literals and groups; an unclosed brace is an error |
| Topics.TokensRenderThePattern | brain_builder/src/Wiring.cpp:396-409 | reading a pattern loses nothing of it |
| Topics.MatchSound | brain_builder/src/Wiring.cpp:410-414 | what the greedy backtracking match returns is a reading of the topic by the pattern |
| Topics.MatchComplete | brain_builder/src/Wiring.cpp:410-414 | whenever there is a reading, the match finds one |
| Topics.ReadingIsUnique | brain_builder/src/Wiring.cpp:404-414 | with literals that start with '.', there is at most one |
| Topics.ReplacedRenders | brain_builder/src/Wiring.cpp:37-39 | find-and-replace hits exactly the placeholder meant, whatever has been substituted before |
| Topics.ComposeIsFill | brain_builder/src/Wiring.cpp:30-42 | composing is filling the groups, in whatever order the params are listed |
| Topics.SplitOfCompose | brain_builder/src/Wiring.cpp:30-42 | splitting a composed topic gives back the dot-free, brace-free values |
| Topics.ComposeMisses | brain_builder/src/Wiring.cpp:30-42 | a param without a placeholder leaves no topic at all; a placeholder without a param leaves its brace in the topic |
| Topics.ComposeOfSplitIff | brain_builder/src/Wiring.cpp:30-42 | params that hold the groups of a split compose to the topic if and only if they are exactly the placeholders |
| Topics.ComposeOfSplit | brain_builder/src/Wiring.cpp:393-416 | composing the split of any brace-free topic gives back the topic |
| Sockets.IsUnset | brain_builder/src/Wiring.cpp:46-56 | a socket is unset exactly when the effective value of some param is null, empty text or an empty list |
| Sockets.TopicsOf | brain_builder/src/Wiring.cpp:59-79 | the topics of a socket from the document or the defaults |
| Sockets.ScalarGivesIffBare | brain_builder/src/Wiring.cpp:59-79 | a one-param socket holding a topic gives exactly that topic if and only if its pattern is the bare placeholder |
| Sockets.ListGives | brain_builder/src/Wiring.cpp:65-76 | a list socket gives a topic in its list if and only if its pattern is the bare placeholder, or just that topic without a placeholder, or another entry gives the same |
| Sockets.SplitGives | brain_builder/src/Wiring.cpp:393-416 | a socket of several params gives the topic its params were split from if and only if they are exactly the pattern's placeholders, and is then set |
| Sockets.DefaultsFillAbsent | brain_builder/src/Wiring.cpp:62-63 | an absent param reads as its non-null default, every other as it is |
| Sockets.DefaultCountsAsGiven | brain_builder/src/Wiring.cpp:30-78 | leaving a param out is the same as giving it its default: as unset, and with the same topics |
| Sockets.UnsetIffNoTopic | brain_builder/src/Wiring.cpp:30-78 | a bare one-param socket with a string or nothing for its param is unset if and only if it gives no topic |
| Build.AddSocket | brain_builder/src/Wiring.cpp:195-222 | one socket's pins: its topics not on show yet, polled when setup ran, or its placeholder |
| Build.AddSockets | brain_builder/src/Wiring.cpp:195-233 | all of them, and the "+" pin exactly when an optional input is unset |
| Build.AddFixed | brain_builder/src/Wiring.cpp:234-240 | after a failed setup the fixed topics of the type |
| Build.HasOptional | brain_builder/src/Wiring.cpp:225-227 | whether some optional input socket is unset |
| Build.BuildNode | brain_builder/src/Wiring.cpp:146-247 | one module's node: name, type, category, setup and its error, declared ports, sockets and fixed topics |
| Build.BuildBody | brain_builder/src/Wiring.cpp:249-275 | the body's nodes: sources under their topic or prefix, sinks and reads, events |
| Build.BuildNodes | brain_builder/src/Wiring.cpp:142-279 | the nodes of the canvas, the body's three last when there is a body |
| Build.ModuleShowsItsSockets | brain_builder/src/Wiring.cpp:195-211 | whatever the trial setup declares or fails to, every topic of a set socket is a pin of its module |
| Build.RefsAre | brain_builder/src/Wiring.cpp:282-287 | producers and consumers are exactly the pins with a topic |
| Build.LinksInto | brain_builder/src/Wiring.cpp:288-307 | one consumer's links |
| Build.LinkUp | brain_builder/src/Wiring.cpp:281-308 | the links are exactly the matching pairs of a producer and a consumer on different nodes |
| BuildLaws.DeclaredPortIsShown | brain_builder/src/Wiring.cpp:177-192 | every port the trial setup declares is a pin of the node |
| BuildLaws.SetUpPinsAre | brain_builder/src/Wiring.cpp:174-233 | after a setup that goes through every pin is a declared port, a topic of a set socket not declared, a hole for an unset socket that is required or an output, or the "+" pin of an unset optional input |
| BuildLaws.PlusIsShown | brain_builder/src/Wiring.cpp:224-233 | and the "+" pin is there whenever an optional input is unset |
| BuildLaws.UnsetHasAHole | brain_builder/src/Wiring.cpp:195-223 | an unset socket that is required or an output has a hole, and after a failed setup every unset socket has |
| BuildLaws.FailedPinsAre | brain_builder/src/Wiring.cpp:193-240 | after a failed setup every pin is a topic of a set socket, a hole, or a fixed topic of the type |
| BuildLaws.FixedIsShown | brain_builder/src/Wiring.cpp:234-240 | and every fixed topic is shown |
| LinkLaws.PrefixConsumerTakesAll | brain_builder/src/Wiring.cpp:288-304 | an input for everything under a has a link from each output of another node whose topic is a followed by anything, over the output's topic |
| LinkLaws.PrefixProducerFeedsAll | brain_builder/src/Wiring.cpp:288-304 | an output for everything under a has a link to each plain input whose topic is a followed by anything, over the input's topic |
| LinkLaws.SameTopicIsLinked | brain_builder/src/Wiring.cpp:288-304 | an output and an input of one topic on different nodes are linked over it |
| LinkLaws.LinksWrittenOut | brain_builder/src/Wiring.cpp:281-308 | there are no other links: a link is in the list if and only if it joins an output and an input of different nodes, with topics, in one of those ways, over that topic, with the input's feedback flag |
| LinkLaws.SubscriptionHearsAll | brain_builder/src/Wiring.cpp:178-304 | a module that declares an input whose topic ends with a dot is linked to every output of another node under it |
| LinkLaws.SourceFeeds | brain_builder/src/Wiring.cpp:249-304 | a source of the body feeds every input of its topic, or under its prefix when it has no topic of its own |
| LinkLaws.EventIsHeard | brain_builder/src/Wiring.cpp:178-304 | an event of the body is linked to every module that declares an input for a prefix of it ending with a dot |
| LinkLaws.SinkIsFed | brain_builder/src/Wiring.cpp:249-304 | a sink or read of the body is linked from every output of its topic on another node |
| Canvas.BuiltIsWellNamed | brain_builder/src/Wiring.cpp:142-279 | with distinct ids of their own, the nodes have distinct names, the three reserved ones on the body's nodes only |
| Canvas.BuiltIsWellLinked | brain_builder/src/Wiring.cpp:281-308 | and the links are what the layout needs: none from a node to itself, and one place for each module |
| Canvas.ReorderKeepsLinks | brain_builder/src/Wiring.cpp:142-308 | reordering the modules and building again gives the same links |
| Canvas.SuggestionIsStable | brain_builder/src/Order.cpp:9-53 | suggest, reorder, build again, suggest: the second suggestion, on the new links, is to change nothing |
| Connect.FindSlot | brain_builder/src/Wiring.cpp:360-380 | where a pin's topic lives: the first scalar, else the first list entry, else a composition, else fixed |
| Connect.EntryIndex | brain_builder/src/Wiring.cpp:369-373 | the first entry equal to the topic |
| Connect.FindComposed | brain_builder/src/Wiring.cpp:374-378 | whether some socket of several params composes to the topic |
| Connect.AssignSocket | brain_builder/src/Wiring.cpp:385-450 | the edit of each kind of slot, and each refusal |
| Connect.SplitInto | brain_builder/src/Wiring.cpp:393-418 | the split assigned param by param under one undo step |
| Connect.ConnectPins | brain_builder/src/Wiring.cpp:454-489 | which pin's params are written, with which topic, and every refusal |
| Connect.ClearPin | brain_builder/src/Wiring.cpp:495-512 | what clearing one side does |
| Connect.DisconnectLink | brain_builder/src/Wiring.cpp:491-521 | the consumer's side is cleared if it can be, else the producer's |
| ConnectLaws.SetAllAt | brain_builder/src/Wiring.cpp:415-416 | assigning a split changes that module's params only, and no history |
| ConnectLaws.AssignIsOneStep | brain_builder/src/Wiring.cpp:385-450 | a refused edit changes nothing; any other adds one undo step |
| ConnectLaws.ConnectIsOneUndoStep | brain_builder/src/Wiring.cpp:454-489 | a refused connect changes nothing, and after a successful one a single undo restores the document |
| ConnectLaws.TextBesideAPlaceholder | brain_builder/src/Wiring.cpp:30-76 | not wirable: one placeholder beside text, alone as in `prediction.{targets}` or with one more param as in `sequence.motif.{source_topic}` |
| ConnectLaws.SlotSuitsIffOwn | brain_builder/src/Wiring.cpp:360-380 | the slot of a pin is a socket's own if and only if the pin is its placeholder, or the first param holding the pin's topic, alone or else in a list, is the socket's |
| ConnectLaws.EditedSocketDerives | brain_builder/src/Wiring.cpp:385-450 | after an edit into a socket's own params nothing else changed, and the socket gives the other pin's topic if and only if it is wirable, or another entry of its list gives the same |
| ConnectLaws.PrefixedSocketMisses | brain_builder/src/Wiring.cpp:388-430 | wiring an unset socket succeeds if and only if its param has a name and, of several params, the topic fits the pattern; a socket without a list then gives that topic and no other if and only if it is wirable |
| ConnectLaws.OtherSocketsStay | brain_builder/src/Wiring.cpp:364-450 | an edit that does not go into a one-param socket's own param leaves that socket's topics as they were |
| ConnectLaws.OutputPinRewiresTheInput | brain_builder/src/Wiring.cpp:364-450 | when an input and an output hold one topic, editing the output's pin succeeds, rewires the input and leaves the output as it was |
| ConnectLaws.PlanTakesTheOtherTopic | brain_builder/src/Wiring.cpp:454-489 | the topic written is that of a pin on another node and on the other side |
| ConnectLaws.ConnectLinks | brain_builder/src/Wiring.cpp:142-489 | after a successful connect whose edit goes into a socket's own params and lands, the rebuilt canvas has a link over the topic between the edited module and the other pin's node |
| ProducerWins.WhoIsWritten | brain_builder/src/Wiring.cpp:454-489 | whose params a drag writes, on documents: the consumer's with the producer's topic, unless the producer is a hole, or the consumer is no module, or the input has a topic that no param holds while the output's is in a param; and exactly when it is refused beforehand or has nothing to do |
| ProducerWins.EditWrites | brain_builder/src/Wiring.cpp:385-450 | an edit writes its own module's params alone; done, they hold the topic where the pin's own was, or in its hole: as the param, at the list's end, or split among the placeholders, every other param as it was |
| ProducerWins.ConnectWrites | brain_builder/src/Wiring.cpp:385-489 | a connect changes one module at most, the producer's only if it yields; done, that module's params hold the other pin's topic |
| ProducerWins.ProducersNameWins | brain_builder/src/Wiring.cpp:466-479 | connecting a live producer to a module's input whose topic is a param, a list entry or still to be given leaves the producer's module as it was, and done, the consumer's params hold the producer's topic |
| ConnectLaws.PlaceholderSuits | brain_builder/src/Wiring.cpp:214-222 | the placeholder pin of a socket resolves to that socket, and its edit goes there |
| Slots.FirstScalarIs | brain_builder/src/Wiring.cpp:364-365 | the scalar found is the first param that is the topic; none found, none is |
| Slots.FirstEntryIs | brain_builder/src/Wiring.cpp:366-373 | the list found is the first that holds the topic, at that entry; none found, none does |
| ConnectLaws.SlotHoldsTheTopic | brain_builder/src/Wiring.cpp:360-380 | the slot of a live pin is the first param that is its topic, else the first list that holds it; a pin said to be composed or fixed has it in none of the params |
| ConnectLaws.ComposedOrFixed | brain_builder/src/Wiring.cpp:360-380 | a live topic that no param holds is composed if and only if a socket of several params of the pin's direction gives it from the params as they stand, and else fixed |
| ConnectLaws.ClearUndoesScalar | brain_builder/src/Wiring.cpp:495-498 | clearing a scalar that connect wrote removes the param, which restores the document exactly when the param had been absent |
| ConnectLaws.ClearUndoesEntry | brain_builder/src/Wiring.cpp:499-507 | clearing a list entry that connect added leaves the list it was, empty if the param was none, which restores the document exactly when the param was a list |
| ConnectLaws.ClearableIffFound | brain_builder/src/Wiring.cpp:495-510 | on a module with unique keys only composed and fixed topics cannot be cleared |
| ConnectLaws.ConsumerIsClearedFirst | brain_builder/src/Wiring.cpp:513-517 | clearing the consumer of a socket that was wired as the producer never gives the document back |
| ConnectLaws.DisconnectRestores | brain_builder/src/Wiring.cpp:491-521 | wiring a one-param socket, its topic nowhere else in the params, and removing the wire: the removal succeeds, and restores the document (an absent list left empty) if and only if the param was absent or a list, and the socket is the wire's consumer, or the consumer is no module, or its topic cannot be cleared |
| ConnectLaws.ProducerKeepsTheTopic | brain_builder/src/Wiring.cpp:454-521 | the plainest document where it is not: wiring an unset output to a consumer's topic and removing the wire leaves the topic with the producer and erases the consumer's param |
| ConnectLaws.EmptyListIsUnset | brain_builder/src/Wiring.cpp:46-76 | an empty list is as unset as no param and gives no topic |
| Wires.PinKeyIsInjective | brain_builder/src/Wiring.cpp:81-88 | node, direction and key can be told from what a pin's id is the hash of, when node names hold no colon |
| Wires.ColonsCollide | brain_builder/src/Wiring.cpp:81-88 | with a colon they cannot: two pins of two nodes share an id, whatever the hash |
| Wires.OwnerIsTheFirst | brain_builder/src/Wiring.cpp:112-126 | an id leads to a node if and only if it shows the id and no earlier node does |
| Wires.IdLeadsHome | brain_builder/src/Wiring.cpp:81-126 | on a canvas of colon-free names without hash collisions a pin's id leads back to its own node, and there to its own direction and key |
| Wires.DrawThenRemove | brain_builder/src/Wiring.cpp:142-521 | draw a wire from an unset one-param socket, build the canvas again, remove the link that appeared: the removal succeeds, and the document is restored (an absent list left empty) if and only if the param was absent or a list, and the socket is the consumer, or the consumer is no module, or its topic cannot be cleared |
| Wires.ComposedWireStays | brain_builder/src/Wiring.cpp:391-521 | removing the wire of a socket of several params never takes the split back; it succeeds if and only if the other end is a module's and can be cleared, which then loses its topic, and changes nothing when it is refused |
| LiveProtocol.HandleClient | cpp_core/src/control_server.cpp:131-171 | the replies are those to the complete lines of the stream, in order, as many as turns and caps allow; and the same steps are a run of the joint machine's server events that handles those lines, sends those replies and leaves |
| LiveProtocol.FillBuffer | cpp_core/src/control_server.cpp:140-153 | the inner loop ends with a line, at the client's end, or past the cap, in the joint machine too |
| LiveProtocol.ServerRunIsARun | cpp_core/src/control_server.cpp:131-171 | what the server's thread does on its connection is a run of the joint machine that leaves everything else as it was |
| LiveProtocol.LaterBytesWait | cpp_core/src/control_server.cpp:140-153 | bytes that arrive later change nothing of what the server does with the earlier ones |
| LiveProtocol.ShortLinesFit | cpp_core/src/control_server.cpp:151-152 | lines well under the cap never meet it, however the stream is cut |
| LiveProtocol.LinesOfUnlines | cpp_core/src/control_server.cpp:144-158 | lines joined with newlines split into the same lines |
| LiveProtocol.ServerStepKeepsInv | cpp_core/src/control_server.cpp:140-168 | the server's steps keep the protocol's invariant |
| LiveProtocol.ClientStepKeepsInv | brain_builder/src/LiveClient.cpp:26-81 | so do the client's |
| LiveProtocol.RunKeepsInv | brain_builder/src/LiveClient.cpp:26-81 | every run keeps it |
| LiveProtocol.EveryReplyIsItsOwn | brain_builder/src/LiveClient.cpp:26-81 | for every cutting, failure and reconnect, a line a call returns is the server's reply to that call's own request, and each connection's server has answered exactly the first of its requests, one reply each |
| LiveProtocol.LiveClient.Close | brain_builder/src/LiveClient.cpp:52-54 | a step of the protocol |
| LiveProtocol.LiveClient.Connect | brain_builder/src/LiveClient.cpp:26-50 | close, then on success a new connection and an empty buffer |
| LiveProtocol.LiveClient.SendAll | brain_builder/src/LiveClient.cpp:59-65 | the send loop is a run of the protocol |
| LiveProtocol.LiveClient.OnOutcome | brain_builder/src/LiveClient.cpp:76-79 | one receive outcome is a step of it |
| LiveProtocol.LiveClient.ReceiveLine | brain_builder/src/LiveClient.cpp:66-80 | the receive loop is a run of it |
| LiveProtocol.LiveClient.Call | brain_builder/src/LiveClient.cpp:56-81 | a whole call is a run of it, with the outcome the code returns |
| ProtocolLaws.OneReplyPerLine | cpp_core/src/control_server.cpp:131-168 | the bytes the server sends back split into one line per request line, each its answer, in order, with nothing left over |
| ProtocolLaws.OnlyReturnsLog | brain_builder/src/LiveClient.cpp:56-81 | only a return writes to the log, one entry: the call under way, its request, and the line the caller gets |
| ProtocolLaws.LogIsTheReturns | brain_builder/src/LiveClient.cpp:56-81 | over any run the log only grows, by one entry per return |
| ProtocolLaws.HangsUpOverTheCap | brain_builder/src/LiveClient.cpp:56-81 | receiving keeps the connection if and only if the buffer stays within the cap; a failure drops it |
| ProtocolLaws.ClientStaysInCap | brain_builder/src/LiveClient.cpp:56-81 | while connected the client never holds more than the cap |
| ProtocolLaws.CallGoesThrough | brain_builder/src/LiveClient.cpp:56-81 | any request and reply within the caps get through: there is a run of one call that returns the reply and stays connected |
| Layout.PathLengthIsLongest | brain_builder/src/Layout.cpp:11-13 | the depth meant is the length of the longest chain of forward links into a module |
| Layout.ChainIsShort | brain_builder/src/Layout.cpp:17-22 | every chain of forward links into a module has at most that module's path length of links |
| Layout.LongestChain | brain_builder/src/Layout.cpp:11-13 | there is a chain of that length |
| Layout.Pass | brain_builder/src/Layout.cpp:18-26 | an in-place pass never overshoots, and reaches every chain one link longer than before |
| Layout.FixpointIsLongest | brain_builder/src/Layout.cpp:26 | a pass that changes nothing has reached every longest chain |
| Layout.Depths | brain_builder/src/Layout.cpp:17-27 | no depth passes the longest chain, and every chain of at most 64 links is measured exactly |
| Layout.FillColumns | brain_builder/src/Layout.cpp:42-46 | each node in its column, the body's three at the ends |
| Layout.SortByIndex | brain_builder/src/Layout.cpp:47-48 | each column in index order, same nodes |
| Layout.PackColumn | brain_builder/src/Layout.cpp:51-52 | a column stacked by heights and gaps |
| Layout.Pack | brain_builder/src/Layout.cpp:49-54 | columns set side by side by widths and gaps |
| Layout.AutoLayout | brain_builder/src/Layout.cpp:9-57 | depths between the 64-link bound and the longest chains, columns by depth in index order, and their packing |
| Layout.SizesAreNonNegative | brain_builder/src/Layout.cpp:31-39 | with a scale and measured heights that are not negative, no size or gap is |
| Layout.NothingOverlaps | brain_builder/src/Layout.cpp:49-54 | packed columns: no two rectangles overlap, and an earlier column ends a whole gap before a later one starts |
| Layout.LayoutNeverOverlaps | brain_builder/src/Layout.cpp:9-57 | in any layout the code can produce, with non-negative sizes, no two placed rectangles overlap |
| Layout.HeadIsDeeper | brain_builder/src/Layout.cpp:17-27 | with no chain over 64 links a forward link's head is strictly deeper than its tail |
| Layout.ForwardLinksGoRight | brain_builder/src/Layout.cpp:11-54 | with no chain over 64 links every forward link goes strictly rightwards, a whole gap apart, in any layout the code can produce |
| LayoutLaws.BodyStandsAtTheEdges | brain_builder/src/Layout.cpp:41-46 | the body's sources and events stand left of every module by a whole gap, its sinks right of every one |
| LayoutLaws.SourcesStandLeftOfSinks | brain_builder/src/Layout.cpp:41-46 | and the sources and events left of the sinks |
| LayoutLaws.LayoutIsTight | brain_builder/src/Layout.cpp:49-54 | every node is at the top or exactly one gap below another, and every column at the left edge or exactly one gap after some node |
| LayoutLaws.EarlierIsAbove | brain_builder/src/Layout.cpp:47-54 | of two nodes not side by side the one that runs earlier is above |
| LayoutLaws.RoomForEveryCaption | brain_builder/src/Layout.cpp:31-38 | an unmeasured node has room for each of its captions |
| LayoutLaws.NoWiderThanACaption | brain_builder/src/Layout.cpp:31-38 | and is no wider than its longest caption asks |
| LayoutLaws.RoomForEveryPin | brain_builder/src/Layout.cpp:31-38 | its height is that of its longer side |
| LayoutLaws.MeasuredSizeCounts | brain_builder/src/Layout.cpp:32 | a measured size wider than 1 is taken as it is |
| Parsers.LeThenFrom | mj_host/src/BrainTape.cpp:32-35 | little-endian numbers in range read back |
| Tape.StableRecord | mj_host/src/BrainTape.cpp:119-161 | what the reader has decided on a file it decides on every longer one, and it never gives bytes back |
| Tape.ReadsStr | mj_host/src/BrainTape.cpp:36 | a string within the limit reads back from its length and bytes |
| Parsers.ReadsList | mj_host/src/BrainTape.cpp:44-45 | so does a counted list |
| Tape.ReadsRecord | mj_host/src/BrainTape.cpp:39-72 | each kind of record within the limits reads back as itself, leaving what follows |
| BrainTape.RecordsShrink | mj_host/src/BrainTape.cpp:119-161 | a record takes bytes, so reading a tape ends |
| Parsers.CutIsShort | mj_host/src/BrainTape.cpp:107 | a value's encoding cut short reads as nothing and leaves the cursor at the end |
| Parsers.ReadManyOfCut | mj_host/src/BrainTape.cpp:119-161 | values written one after another and cut anywhere read back as the whole ones |
| BrainTape.TapeRoundTrip | mj_host/src/BrainTape.cpp:39-161 | reading a written tape yields exactly the records written, then the clean end |
| BrainTape.TruncatedTape | mj_host/src/BrainTape.cpp:39-161 | reading any byte prefix yields exactly the whole records in it: a prefix of the records that fits the cut and could not be one longer |
| BrainTape.WriteTapeIsInjective | mj_host/src/BrainTape.cpp:39-72 | equal tapes hold equal records |
| TapeFaults.OversizedIsCorrupt | mj_host/src/BrainTape.cpp:112-148 | a string or list that claims to be longer than allowed is refused, whatever follows |
| TapeFaults.UnknownKindIsCorrupt | mj_host/src/BrainTape.cpp:121-158 | so is a record of a kind there is not |
| TapeFaults.OversizedTextIsCorrupt | mj_host/src/BrainTape.cpp:112-129 | a configuration or restore with too long a text |
| TapeFaults.TooManyActionsAreCorrupt | mj_host/src/BrainTape.cpp:145-155 | and an actions record that claims too many actions |
| TapeFaults.FaultKeepsWhatCameBefore | mj_host/src/BrainTape.cpp:119-161 | after good records a faulty one costs none of them: the tape reads as those records, and not as one that merely ended |
| BrainTape.Writer.constructor | mj_host/src/BrainTape.cpp:22-29 | a new tape is the magic, or nothing when the file cannot be opened |
| BrainTape.Writer.Write | mj_host/src/BrainTape.cpp:32-35 | the bytes are appended and counted |
| BrainTape.Writer.Str | mj_host/src/BrainTape.cpp:36 | a string's encoding is appended |
| BrainTape.Writer.Head | mj_host/src/BrainTape.cpp:37 | the kind and the brain, cut to a byte |
| BrainTape.Writer.PutConfig | mj_host/src/BrainTape.cpp:39 | appends that record's encoding; `bytes()` stays the file's length |
| BrainTape.Writer.PutRestore | mj_host/src/BrainTape.cpp:40 | the same for a restore |
| BrainTape.Writer.PutToken | mj_host/src/BrainTape.cpp:41-46 | the same for a token |
| BrainTape.Writer.PutEvent | mj_host/src/BrainTape.cpp:47-51 | the same for an event |
| BrainTape.Writer.PutParam | mj_host/src/BrainTape.cpp:52-55 | the same for a param |
| BrainTape.Writer.PutTick | mj_host/src/BrainTape.cpp:56 | the same for a tick |
| BrainTape.Writer.PutCall | mj_host/src/BrainTape.cpp:57-60 | the same for a call |
| BrainTape.Writer.PutActions | mj_host/src/BrainTape.cpp:61-72 | the same for the actions, written one by one |
| Parsers.BlockOfFloats | mj_host/src/BrainTape.cpp:133 | one block read is the same floats as reads one by one |
| BrainTape.Reader.constructor | mj_host/src/BrainTape.cpp:99-104 | the header is good exactly when the file starts with the magic |
| BrainTape.Reader.Rd | mj_host/src/BrainTape.cpp:107 | all the bytes asked for, or failure at the file's end |
| BrainTape.Reader.Str | mj_host/src/BrainTape.cpp:112-117 | a string as the format says, or failure |
| BrainTape.Reader.SomeActions | mj_host/src/BrainTape.cpp:148-152 | the loop reads the counted list |
| BrainTape.Reader.PayloadRecord | mj_host/src/BrainTape.cpp:127-157 | the record's fields hold what the format says for its kind |
| BrainTape.Reader.Next | mj_host/src/BrainTape.cpp:119-161 | one record as the format says into the caller's object, or failure; the count rises exactly on success |
| BrainTape.Replay | mj_host/src/BrainTape.cpp:119-161 | calling next until it fails gives exactly the tape's records, and counts them |
| Digest.XorTwice | mj_host/src/BrainTape.cpp:78 | xor with a byte undoes itself on a 64-bit word |
| Digest.StepIsBijective | mj_host/src/BrainTape.cpp:78 | each step is a bijection of the 64-bit state |
| Digest.StepIsInjectiveInByte | mj_host/src/BrainTape.cpp:78 | from one state different bytes lead to different states |
| Digest.FoldIsInjective | mj_host/src/BrainTape.cpp:76-79 | the same bytes never bring two states together |
| Digest.OneByteAlwaysShows | mj_host/src/BrainTape.cpp:74-90 | equal-length streams that differ in exactly one byte have different digests |
| Digest.Mix | mj_host/src/BrainTape.cpp:76-79 | the mixing loop folds the bytes in order |
| Digest.BrainDigest | mj_host/src/BrainTape.cpp:74-90 | output by output, the digest is that of all their bytes joined |
| Digest.DigestIgnoresBoundaries | mj_host/src/BrainTape.cpp:84-87 | it does not see where a name ends and a value starts |
| SectorGate.SwitchIsFar | mj_host/src/IntentAdapter.cpp:531-537 | a switch needs a bearing at least h or twice mid from every bearing of the sector left |
| SectorGate.SwitchesArePaid | mj_host/src/IntentAdapter.cpp:527-542 | over a hold every switch has been paid for by movement of the bearing |
| SectorGate.CannotChatter | mj_host/src/IntentAdapter.cpp:527-542 | over any run, switches times the smaller of h and 2 mid are at most the total variation while held |
| SectorGate.BareGateChatters | mj_host/src/IntentAdapter.cpp:528-529 | without hysteresis any movement, however small, can change the sector |
| SectorGate.HeldSectorIsNear | mj_host/src/IntentAdapter.cpp:531-540 | the sector held is the bearing's own, or the bearing is within h of the boundary between the two |
| SectorGate.Gate.SlotFor | mj_host/src/IntentAdapter.cpp:527-542 | one call is one step of the gate |
| SectorGate.Gate.TickGate | mj_host/src/IntentAdapter.cpp:418-424 | with hysteresis the sector the reflex erases is the very one gated that tick, whatever the bearing is by then |
| Heading.Wrap | mj_host/src/IntentAdapter.cpp:125-127 | wrapping ends within half a turn of zero |
| Heading.WrapTurns | mj_host/src/IntentAdapter.cpp:126-127 | and takes off whole turns only |
| Heading.WrapLoop | mj_host/src/IntentAdapter.cpp:125-127 | both loops end, with that value |
| Heading.HeadingIsYawTurned | mj_host/src/IntentAdapter.cpp:124-132 | over any run the heading is current yaw less first yaw, whole turns aside |
| Heading.HeadingMovesHalfATurnAtMost | mj_host/src/IntentAdapter.cpp:124-132 | a tick moves it by half a turn at most |
| Heading.UnwrappingIsFaithful | mj_host/src/IntentAdapter.cpp:124-132 | when the body turns less than half a turn per tick, the heading is exactly how far it has turned |
| Heading.AimedPointsAtTheBearing | mj_host/src/IntentAdapter.cpp:334-339 | the new reference points along heading less bearing, and with the continuous reference lies within half a turn of the one held |
| Heading.AimedIsNearest | mj_host/src/IntentAdapter.cpp:335-338 | no other turn of that direction is nearer |
| Heading.FlickerDoesNotFlip | mj_host/src/IntentAdapter.cpp:335-338 | a direction that moves by less than half a turn moves the continuous reference by exactly as much |
| Heading.PlainReferenceFlips | mj_host/src/IntentAdapter.cpp:334 | without it the same flicker can move the reference by almost a whole turn |
| Heading.Tracker.TakeYaw | mj_host/src/IntentAdapter.cpp:124-138 | the heading takes one step, and the reference closes one part in 3000 of its distance |
| Heading.Tracker.Aim | mj_host/src/IntentAdapter.cpp:332-339 | blocked lets the reference go to the heading, else it is aimed |
| Detour.RunKeepsInv | mj_host/src/IntentAdapter.cpp:436-479 | every run of ticks and host holds keeps the machine's invariant |
| Detour.TurnAndWalkOutNeverOverlap | mj_host/src/IntentAdapter.cpp:436-479 | a turn and its own walk out are never both active, and the walk out is one, two or four times the configured one |
| Detour.AloneTheyExclude | mj_host/src/IntentAdapter.cpp:309-479 | with no host holds, turning and any hold exclude each other |
| Detour.HostHoldDuringATurn | mj_host/src/IntentAdapter.cpp:309-480 | over any run a turn and a hold are at some time both active if and only if the host asks for a hold while the detour turns |
| Detour.OverlapIsReached | mj_host/src/IntentAdapter.cpp:309-480 | such runs exist whenever a turn can take two ticks, whatever the other settings |
| Detour.EarlyEndIsClear | mj_host/src/IntentAdapter.cpp:463-469 | a turn that ends before its time has taken at least 10 ticks and sees nothing ahead nor on the side the obstacle swings into |
| Detour.ForgetsAreRare | mj_host/src/IntentAdapter.cpp:442-456 | with a limit of N, over any run the target is forgotten at most once in N detours |
| Detour.StepCourse | mj_host/src/IntentAdapter.cpp:439-459 | a fresh start turns to the freer side with the configured walk out; a repeat keeps direction and doubles it, capped |
| Detour.RepeatsKeepDirection | mj_host/src/IntentAdapter.cpp:439-459 | however long a chain of repeats, every turn in it goes the same way |
| Detour.SoonIsARepeat | mj_host/src/IntentAdapter.cpp:452-458 | a start is a repeat exactly when it reopens a walk out or, with commit, comes within 500 ticks of the last end |
| Detour.FreshTurnIsToTheFreerSide | mj_host/src/IntentAdapter.cpp:439-460 | however many repeats follow a fresh start, the turn still goes to a side no nearer to an obstacle than the other was at that start, the target's on a tie |
| Detour.RemainingRunsOut | mj_host/src/IntentAdapter.cpp:463-472 | without a new start the ticks a detour can still take run out one per tick |
| Detour.DetourEnds | mj_host/src/IntentAdapter.cpp:436-479 | a detour not reopened is over max + 4 out ticks after its start, whatever the host does |
| Detour.OneAtATime | mj_host/src/IntentAdapter.cpp:309-449 | during a turn or a hold a detour starts if and only if a walk out is reopened, or it is a hold's last tick and arming takes no ticks |
| Arming.ArmedIsTheRow | mj_host/src/IntentAdapter.cpp:446-449 | over any run the arming count is the length of the row: of the ticks that came to the arming the last so many saw the return and started nothing, and no longer row did |
| Arming.FreshStartIff | mj_host/src/IntentAdapter.cpp:446-449 | after any run a tick starts a detour anew if and only if it comes to the arming and it and the arm - 1 such ticks before it all saw the return with no start among those |
| Arming.FreshStartNeedsARow | mj_host/src/IntentAdapter.cpp:446-449 | without host holds a fresh start needs `arm` consecutive ticks on which the seek loop steers and a return is nearer than its target |
| DetourRuns.ReopensIffItCloses | mj_host/src/IntentAdapter.cpp:438-445 | a walk out is reopened if and only if it has more than its last tick to go and the way ahead has closed; the turn begins anew, the same way, with the walk out doubled |
| DetourRuns.TurnEndsIffClearOrOver | mj_host/src/IntentAdapter.cpp:463-472 | a running turn ends if and only if ten ticks of it are over and it sees clear, or it is its last tick; the walk out then has its length and its noted end, and the clear is counted only if there was one |
| DetourRuns.NothingEndsWithoutATurn | mj_host/src/IntentAdapter.cpp:463-472 | without a turn no walk out begins and nothing is counted |
| DetourRuns.StartBeginsTheTurn | mj_host/src/IntentAdapter.cpp:446-466 | the tick that starts a detour is the first of its turn |
| DetourRuns.DetourTurnsItsTime | mj_host/src/IntentAdapter.cpp:446-469 | a detour that never sees clear turns until its max ticks are up, one tick at a time |
| DetourRuns.WalkOutTakesItsTicks | mj_host/src/IntentAdapter.cpp:309-472 | a walk out that nothing disturbs holds for exactly its ticks |
| DetourRuns.NotedEndIsTheEnd | mj_host/src/IntentAdapter.cpp:468-471 | over any run the end noted is the tick on which the walk out, left alone, runs out |
| DetourRuns.EveryNthStartForgets | mj_host/src/IntentAdapter.cpp:442-456 | in a chain of detours each following on the last, the target is forgotten on every N-th start exactly |
| DetourRuns.StrangerBeginsTheChain | mj_host/src/IntentAdapter.cpp:453-456 | a start that does not follow on begins the chain at one |
| Detour.Machine.SetRefHold | mj_host/src/IntentAdapter.hpp:272 | the host's hold replaces whatever hold runs |
| Detour.Machine.ReopenTick | mj_host/src/IntentAdapter.cpp:439-445 | the reopened walk out |
| Detour.Machine.ArmTick | mj_host/src/IntentAdapter.cpp:446-462 | arming and the start |
| Detour.Machine.TurnTick | mj_host/src/IntentAdapter.cpp:463-478 | a tick of the turn and the hold it ends in |
| Detour.Machine.Tick | mj_host/src/IntentAdapter.cpp:309-480 | one tick is one step of the machine, every field |
| Freeze.KeyIsInjective | mj_host/src/OgmaBrainAdapter.cpp:343 | id and rate joined by a colon tell modules and rates apart, whatever the ids hold |
| Freeze.RatesAreColonFree | mj_host/src/OgmaBrainAdapter.cpp:332-334 | the seven rates hold no colon, which the laws below rest on |
| Freeze.RunKeepsInv | mj_host/src/OgmaBrainAdapter.cpp:269-363 | every interleaving of the calls keeps what each rate and each saved value must be |
| Freeze.FreezingNeverLosesARate | mj_host/src/OgmaBrainAdapter.cpp:269-363 | a double-valued rate is zero exactly while its module is frozen and otherwise its configured value; parameters that are not rates are never touched |
| Freeze.EverIsFrozen | mj_host/src/OgmaBrainAdapter.cpp:319-358 | the model's memory of a freeze is true exactly when some of the calls left the adapter frozen |
| Freeze.ForeverIsCalled | mj_host/src/OgmaBrainAdapter.cpp:299-317 | the modules frozen for good are exactly those the calls named |
| Freeze.FreezeAndThaw | mj_host/src/OgmaBrainAdapter.cpp:269-358 | whatever the calls, a motor module that is thawed and never frozen for good has its rate back if and only if the rate is a double or there was no freeze; otherwise it is zero, or the integer as a double |
| Freeze.FrozenForGood | mj_host/src/OgmaBrainAdapter.cpp:299-317 | from `freeze_module` on, a module's rates stay zero |
| Freeze.FreezeOne | mj_host/src/OgmaBrainAdapter.cpp:344-356 | one module's rates written down and zeroed |
| Freeze.ThawOne | mj_host/src/OgmaBrainAdapter.cpp:349-353 | one module's written-down rates put back |
| Freeze.JointAdapter.SwitchLearning | mj_host/src/OgmaBrainAdapter.cpp:269-272 | one call of the machine |
| Freeze.JointAdapter.SwitchRegime | mj_host/src/OgmaBrainAdapter.cpp:274-277 | the same for the regime |
| Freeze.JointAdapter.FreezeForGood | mj_host/src/OgmaBrainAdapter.cpp:299-317 | the same for a module frozen for good |
| Freeze.JointAdapter.Apply | mj_host/src/OgmaBrainAdapter.cpp:319-358 | frozen exactly when either switch says so; nothing to do when it already is |
| Freeze.WalkerAdapter.SwitchLearning | mj_host/src/IntentAdapter.cpp:497-525 | one call of the same machine, without effect once latched |
| Freeze.WalkerAdapter.FreezeWalker | mj_host/src/IntentAdapter.hpp:165 | frozen, and latched there |
| Graph.UniqueIdIsFresh | brain_builder/src/Graph.cpp:109-116 | the id given is taken exactly when the prefix, its 9,998 numbered forms and the fallback all are, so never with fewer than 10,000 modules |
| Graph.FreshId | brain_builder/src/Graph.cpp:109-116 | the loop finds that id |
| Graph.FindIndex | brain_builder/src/Graph.cpp:75-78 | the first module of that id, or -1 |
| Graph.UndoAndRedoKeepTheTimeline | brain_builder/src/Graph.cpp:125-142 | undo stack, document and reversed redo stack are one timeline that undo and redo leave unchanged |
| Graph.UndoRedoInverse | brain_builder/src/Graph.cpp:125-142 | each takes the other back |
| Graph.HistoryStaysInCap | brain_builder/src/Graph.cpp:119-142 | the two stacks together never pass 200 |
| Graph.EditsStack | brain_builder/src/Graph.cpp:119-124 | the undo stack holds the documents before the last 200 edits |
| Graph.EditsAreUndone | brain_builder/src/Graph.cpp:119-142 | after any edits, j undos (j up to 200) restore the document j edits ago and j redos the last one |
| Graph.AfterStaysDistinct | brain_builder/src/Graph.cpp:145-225 | each edit keeps ids distinct |
| Graph.IdsStayDistinct | brain_builder/src/Graph.cpp:109-225 | so does every run of edits, undos and redos that adds to fewer than 10,000 modules |
| Graph.SuggestedOrderIsAccepted | brain_builder/src/Graph.cpp:183-194 | the suggested order is accepted and applied, and for the same links sorting again suggests nothing |
| Graph.MoveBack | brain_builder/src/Graph.cpp:171-181 | moving a module and moving it back changes nothing |
| Graph.MovedKeepsTheOthersInOrder | brain_builder/src/Graph.cpp:171-181 | a move puts the module at `to`, loses none, and leaves the others in the order they were in |
| Graph.RemoveUndoesAdd | brain_builder/src/Graph.cpp:145-169 | removing the module just added takes exactly it out again |
| Graph.RenameBack | brain_builder/src/Graph.cpp:212-225 | renaming a module and renaming it back changes no module |
| Graph.PlacesFollowTheName | brain_builder/src/Graph.cpp:218-222 | a renamed module keeps its place on the canvas, every other module its own |
| Graph.RemovedHasNoPlace | brain_builder/src/Graph.cpp:165-166 | a removed module has no place on the canvas any more, every other module its own |
| Graph.RenamedLeavesItsPlace | brain_builder/src/Graph.cpp:218-222 | nor has the old name of a renamed one |
| Graph.ParamReadsBack | brain_builder/src/Graph.cpp:196-202 | a param set reads back; the module's others and every other module stay |
| GraphLaws.AddedModuleIs | brain_builder/src/Graph.cpp:145-157 | the added module has the type and params given, under the fresh id at its place; the others keep their order and the rest of the document stays |
| GraphLaws.OthersStayInOrder | brain_builder/src/Graph.cpp:159-169 | a removal takes that module alone, the others in the order they were in |
| GraphLaws.OnlyTheIdChanges | brain_builder/src/Graph.cpp:212-225 | a rename changes one id and nothing else of the modules |
| GraphLaws.TheRestStays | brain_builder/src/Graph.cpp:171-210 | moves, reorders and edits of params touch the modules alone |
| GraphLaws.ErasedParamIsGone | brain_builder/src/Graph.cpp:204-210 | an erased param is gone, the module's others and every other module stay |
| GraphLaws.RemoveDropsOnlyThePlace | brain_builder/src/Graph.cpp:159-169 | removing a module takes its place from the metadata and nothing else |
| GraphLaws.RenameMovesOnlyThePlace | brain_builder/src/Graph.cpp:212-225 | renaming moves its place to the new name and changes nothing else there |
| GraphLaws.RenameWithoutPlace | brain_builder/src/Graph.cpp:218-222 | a module without a place is renamed without one |
| GraphLaws.BodyIsOneKey | brain_builder/src/Graph.cpp:104-107 | writing the manifest changes that key of the metadata alone, no module, no history, no revision |
| GraphLaws.WhichEditsAreSteps | brain_builder/src/Graph.cpp:119-225 | every edit a user makes is an undo step with the document before it on top and nothing to redo; the manifest, and a param set under another's step, leave the history alone |
| GraphLaws.RevisionCountsEdits | brain_builder/src/Graph.cpp:104-225 | what is refused changes nothing; what is accepted raises the revision by one, but for the manifest, and marks the document dirty, but for a bare checkpoint |
| Graph.ChecksOut | brain_builder/src/Graph.cpp:184-187 | the marks accept exactly the permutations |
| Graph.Graph.Mark | brain_builder/src/Graph.cpp:119-124 | the snapshot, the cap and the cleared redo stack |
| Graph.Graph.UndoOne | brain_builder/src/Graph.cpp:125-133 | one step back, refused on an empty stack with nothing changed |
| Graph.Graph.RedoOne | brain_builder/src/Graph.cpp:134-142 | one step on, likewise |
| Graph.Graph.AddModule | brain_builder/src/Graph.cpp:145-157 | the module under a fresh id at its place, under one undo step |
| Graph.Graph.RemoveModule | brain_builder/src/Graph.cpp:159-169 | the module and its place on the canvas go; refused, nothing changes |
| Graph.Graph.MoveModule | brain_builder/src/Graph.cpp:171-181 | the module moved; refused, nothing changes |
| Graph.Graph.ReorderModules | brain_builder/src/Graph.cpp:183-194 | a permutation applied, anything else refused with nothing changed |
| Graph.Graph.SetParam | brain_builder/src/Graph.cpp:196-202 | the param written, under an undo step of its own or not |
| Graph.Graph.EraseParam | brain_builder/src/Graph.cpp:204-210 | the param gone; absent, nothing changes |
| Graph.Graph.RenameModule | brain_builder/src/Graph.cpp:212-225 | the new id and its place on the canvas; refused, nothing changes |
| Graph.Graph.SetBodyManifest | brain_builder/src/Graph.cpp:104-107 | the manifest written, with no undo step and no new revision |

## Left out

- Floating-point rounding, square roots, `atan2` and other trigonometry: arithmetic is exact, bearings and norms are given,
  and quaternions enter with their norm.
- Sockets, threads, mutexes and timeouts: the protocol keeps byte streams, cuts, failures and reconnects. Server sends are
  taken as written whole, requests and replies as free of raw newlines and under the size caps.
- The parsing and printing of JSON; where live sync compares values, equality of JSON values is an uninterpreted equality.
- Trial setup of modules and the stable hash of pin ids are uninterpreted functions given to the model.
- The diagnostics, descriptions, dimensions, and ids of nodes and links that `Wiring::build` attaches, and the failure that a
  duplicate id reports; refusals are named, not spelt out.
- Patterns that repeat a placeholder or have a brace inside a name, params named with braces, and topics with braces: what a
  socket of several params composes to is stated without them.
- Documents as found on disk: loading, saving and shape repair. A module always has a params object, an absent id reads as
  the empty one, and the position of a metadata key created by an edit is not kept.
- `Graph::revision` and `bytes()` are unbounded naturals, as are tick counters.
- Module ids must be distinct for the freeze laws, the wiring laws and the layout; with duplicates the code edits the first one.
  For the layout, the stable order and removing a drawn wire they are also not empty, and none is `@sources`, `@sinks` or
  `@events`.
- The layout's reading and writing in the document, and the ties of `std::sort` between equal indices.
- The brain tape's buffering by stdio; what the bus holds when actions and digest are taken is given to the model.
- The heading value a detour holds and the velocities it commands; the seek gate's proximities, stand-down and range rules;
  the wander's random turns of the reference; the stuck detector.
- MuJoCo, ONNX, ZeroMQ, Godot, video and GUI code, module internals, catalogue and body files, benches and command lines.
- The head adapter's slew limiters, the place map's freeze, and the sense vectors: tuning, without a protocol.
