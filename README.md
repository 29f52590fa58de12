# Garnet routing unit: a verified model

This project models the routing decision of the Garnet on-chip network in
the gem5 simulator. It covers:

- the per-router routing unit (`RoutingUnit.cc`), that is, its routing
  and weight tables, its direction-to-port maps, the table lookup, and the
  routing algorithms it dispatches to: table, XY, ring, 2D and 3D torus
  deterministic, and 2D and 3D torus shortest-direction (ShortXY /
  ShortXYZ), with their "all candidates" variants;
- the flit (`flit.hh`), the unit whose fields the router pipeline updates;
- the three topology builders that wire the routers these algorithms run
  on (`Ring.py`, `Torus2D.py`, `Torus3D.py`).

Routers are numbered linearly. A router recovers its grid coordinates
with `%` and `/`: X varies fastest, then Y, then Z.

On one axis, both torus algorithms and the ring algorithm choose between
the lower neighbour (West, South, Down, Left) and the higher one (East,
North, Up, Right), and both axis ends wrap around. `AxisRouting` states
this choice once; the ring and torus functions apply it axis by axis.

Beyond each function's own contract, the model proves three things:

- the routing unit's coordinate decode and the ring and torus builders'
  neighbour formulas agree, so every hop the ring and torus algorithms
  pick is a link the builder created, arriving on the opposite inport
  (`RingTopology.RingStepIsLink`, `Torus2DTopology.StepIsLink`,
  `Torus3DTopology.StepIsLink`);
- following the algorithm from router to router reaches the destination,
  in exactly the number of hops the per-axis rule predicts; on a mesh,
  XY routing arrives after |dx| + |dy| hops and never meets an inport
  its assertions forbid (`MeshRouting.RouteReachesDestination`);
- the shortest-direction algorithms never take more hops than the
  deterministic ones.

The deterministic torus and ring rule is not a shortest-path rule, even
though its branches are commented "prefer go to left / right". It uses
the wrap-around link only when that link is the last hop on the axis;
otherwise it takes the direction that does not wrap. On an axis of eight
routers it therefore goes 0 → 5 in five hops up rather than three hops
down (`AxisRouting.DeterministicNotShortest`). The model follows the
code. `AxisRouting.DeterministicCharacterization` states the rule
independently of its branches.

Modules, one per file: `Wrappers`, `Directions`, `Network`, `Coordinates`,
`AxisRouting`, `RoutingTable`, `Algorithms`, `MeshRouting`, `Routing`
(the routing unit class), `Flits`, `Links`, `RingTopology`,
`Torus2DTopology`, `Torus3DTopology`.

## Model

Source paths: `RoutingUnit.cc` and `flit.hh` are under
`src/mem/ruby/network/garnet/`; the builders are under
`configs/topologies/`.

| member | source | states |
|---|---|---|
| Directions.Opposite | configs/topologies/Torus3D.py:59-142 | a link leaving by a direction arrives on the opposite inport; only Local is its own opposite |
| Coordinates.XOf | src/mem/ruby/network/garnet/RoutingUnit.cc:390 | the X coordinate `id % x_length` is a column of the row, 0 <= x < x_length |
| Coordinates.YOf3D | src/mem/ruby/network/garnet/RoutingUnit.cc:451 | the 3D Y coordinate `(id / x_length) % y_length` lies in [0, y_length) |
| Coordinates.ZOf3D | src/mem/ruby/network/garnet/RoutingUnit.cc:452 | the 3D Z coordinate of a non-negative id is non-negative |
| Coordinates.YOf2D | src/mem/ruby/network/garnet/RoutingUnit.cc:391 | the 2D Y coordinate of a non-negative id is non-negative |
| Coordinates.Decode2DOfId | src/mem/ruby/network/garnet/RoutingUnit.cc:390-394 | decoding the id of the router at (x, y) gives back x and y |
| Coordinates.Id2DOfDecode | src/mem/ruby/network/garnet/RoutingUnit.cc:390-394 | re-encoding a router's decoded (x, y) gives back its id |
| Coordinates.Range2D | configs/topologies/Torus2D.py:23-25 | an id is below x_length * y_length exactly when its decoded row is below y_length |
| Coordinates.Decode3DOfId | src/mem/ruby/network/garnet/RoutingUnit.cc:450-456 | decoding the id of the router at (x, y, z) gives back x, y and z |
| Coordinates.Id3DOfDecode | src/mem/ruby/network/garnet/RoutingUnit.cc:450-456 | re-encoding a router's decoded (x, y, z) gives back its id |
| AxisRouting.LeftDistance | src/mem/ruby/network/garnet/RoutingUnit.cc:350 | `left_distance` is my - dest when my >= dest and my - dest + len otherwise, in [0, len) |
| AxisRouting.NextInverse | configs/topologies/Ring.py:48-71 | one hop and one hop back in the reverse direction return to the start of an axis |
| AxisRouting.Hops | src/mem/ruby/network/garnet/RoutingUnit.cc:350 | the hop count in one direction is below len and zero exactly at the destination |
| AxisRouting.NextHops | src/mem/ruby/network/garnet/RoutingUnit.cc:350 | one hop in a direction leaves one hop fewer in that direction |
| AxisRouting.Run | src/mem/ruby/network/garnet/RoutingUnit.cc:352-371 | the run in a direction is Hops long, starts at the next position, steps one neighbour at a time, and ends at the destination, which it does not visit earlier |
| AxisRouting.RunWrapsOnlyAtEnd | src/mem/ruby/network/garnet/RoutingUnit.cc:358-371 | a run whose only wrap can be its final hop crosses the 0 / len-1 link at most once, on that final hop |
| AxisRouting.DeterministicCharacterization | src/mem/ruby/network/garnet/RoutingUnit.cc:358-371 | the deterministic rule takes the wrapping direction exactly when it is the shorter direction and its wrap hop is the last hop; otherwise it takes the direct direction |
| AxisRouting.DeterministicWrapOnlyLast | src/mem/ruby/network/garnet/RoutingUnit.cc:358-371 | the deterministic rule never wraps before its last hop |
| AxisRouting.DeterministicStable | src/mem/ruby/network/garnet/RoutingUnit.cc:396-414 | the router one hop on chooses the same direction again |
| AxisRouting.DeterministicFollowsRun | src/mem/ruby/network/garnet/RoutingUnit.cc:396-434 | every router on a deterministic run, before the destination, chooses the run's direction |
| AxisRouting.ShortStable | src/mem/ruby/network/garnet/RoutingUnit.cc:535-545 | the shortest-direction choice is the same one hop later |
| AxisRouting.ShortFollowsRun | src/mem/ruby/network/garnet/RoutingUnit.cc:535-557 | every router on a shortest-direction run, before the destination, chooses the run's direction |
| AxisRouting.ShortIsShortest | src/mem/ruby/network/garnet/RoutingUnit.cc:536-544 | ShortXY takes min(d, len - d) hops on an axis, never more than the reverse direction, and a tie goes to the lower direction |
| AxisRouting.DeterministicNotShortest | src/mem/ruby/network/garnet/RoutingUnit.cc:396-414 | on an axis of 8, from 0 to 5 the deterministic rule takes 5 hops up while ShortXY takes 3 hops down |
| AxisRouting.AxisStep | src/mem/ruby/network/garnet/RoutingUnit.cc:396-434 | a step in the chosen direction leaves one hop fewer in the direction then chosen |
| AxisRouting.AxisShortest | src/mem/ruby/network/garnet/RoutingUnit.cc:535-557 | per axis, the shortest rule needs the fewest hops and never more than the deterministic rule |
| RoutingTable.AppendAscending | src/mem/ruby/network/garnet/RoutingUnit.cc:123-133 | appending a link greater than all earlier ones keeps the candidate list in link order |
| RoutingTable.Matching | src/mem/ruby/network/garnet/RoutingUnit.cc:113-133 | the matching links are exactly the links whose destination set meets the packet's, in ascending link order |
| RoutingTable.MinWeight | src/mem/ruby/network/garnet/RoutingUnit.cc:113-121 | the least weight is absent only for no links, is the weight of some link, and no link weighs less |
| RoutingTable.Tied | src/mem/ruby/network/garnet/RoutingUnit.cc:123-133 | the tied links are exactly the given links of the given weight, in their original order |
| RoutingTable.MatchingStep | src/mem/ruby/network/garnet/RoutingUnit.cc:123-133 | one more link of the column adds that link to the matching links exactly when it meets the destination |
| RoutingTable.MinWeightStep | src/mem/ruby/network/garnet/RoutingUnit.cc:116-120 | one more matching link replaces the minimum when it weighs no more (the `<=` of the scan) |
| RoutingTable.TiedStep | src/mem/ruby/network/garnet/RoutingUnit.cc:126-132 | one more link adds itself to the tied links exactly when it has the minimum weight |
| RoutingTable.TiedAtMinimum | src/mem/ruby/network/garnet/RoutingUnit.cc:113-133 | the links tied at the least weight are exactly those that weigh no more than every other |
| RoutingTable.Candidates | src/mem/ruby/network/garnet/RoutingUnit.cc:113-133 | the candidates are exactly the matching links that weigh no more than any other matching link, ascending, and empty exactly when no link meets the destination |
| RoutingTable.PrefixMinWeightStep | src/mem/ruby/network/garnet/RoutingUnit.cc:113-121 | one iteration of the minimum scan, as a function of the prefix scanned so far |
| RoutingTable.PrefixTiedStep | src/mem/ruby/network/garnet/RoutingUnit.cc:123-133 | one iteration of the collecting scan, as a function of the prefix scanned so far |
| RoutingTable.PrefixWhole | src/mem/ruby/network/garnet/RoutingUnit.cc:113-133 | the two scans over the whole column give exactly the candidates |
| RoutingTable.Lookup | src/mem/ruby/network/garnet/RoutingUnit.cc:98-147 | NoRoute exactly when no link meets the destination; otherwise a link that meets it, weighs no more than any other that does, is a candidate, and, on an ordered vnet, is the first such link; the choice is the first candidate on an ordered vnet and candidate number `r mod count` otherwise |
| RoutingTable.FirstCandidateIsFirst | src/mem/ruby/network/garnet/RoutingUnit.cc:140-143 | every link before an ordered vnet's choice that meets the destination is strictly heavier |
| RoutingTable.OrderedIgnoresDraw | src/mem/ruby/network/garnet/RoutingUnit.cc:140-146 | an ordered vnet's choice does not depend on `rand()` |
| RoutingTable.UnorderedReachesEveryCandidate | src/mem/ruby/network/garnet/RoutingUnit.cc:144-145 | every candidate is chosen for some draw on an unordered vnet |
| Algorithms.XYDirection | src/mem/ruby/network/garnet/RoutingUnit.cc:267-321 | a mesh without rows or columns fails the first assertion; otherwise X before Y, East or West toward the destination column, then North or South toward its row, and the other error cases are exactly the inports the assertions forbid |
| MeshRouting.StepX | src/mem/ruby/network/garnet/RoutingUnit.cc:295-302 | an East or West hop reaches a router of the mesh one column nearer, which accepts the packet on the opposite inport |
| MeshRouting.StepY | src/mem/ruby/network/garnet/RoutingUnit.cc:303-312 | once the columns agree, a North or South hop reaches a router one row nearer, which accepts the packet on the opposite inport |
| MeshRouting.Step | src/mem/ruby/network/garnet/RoutingUnit.cc:267-321 | each XY hop stays in the mesh, shortens |dx| + |dy| by one, and the next router does not reject the inport the packet arrives on |
| MeshRouting.Walk | src/mem/ruby/network/garnet/RoutingUnit.cc:267-321 | following the XY choice from router to router ends at the destination after |dx| + |dy| hops |
| MeshRouting.WalkAt | src/mem/ruby/network/garnet/RoutingUnit.cc:267-321 | every hop of the walk is a mesh router, reached from the hop before by the XY choice for its inport, and arriving on the opposite inport |
| MeshRouting.RouteReachesDestination | src/mem/ruby/network/garnet/RoutingUnit.cc:267-321 | an injected packet is accepted on Local, arrives after |dx| + |dy| hops, and no router on the way meets a forbidden inport |
| Algorithms.RingDirection | src/mem/ruby/network/garnet/RoutingUnit.cc:339-375 | from the Left inport the flit goes Right, from the Right it goes Left, and an injected flit takes the deterministic axis rule |
| Algorithms.InTorus2DRange | src/mem/ruby/network/garnet/RoutingUnit.cc:390-394 | a router lies in the torus exactly when 0 <= id < x_length * y_length |
| Algorithms.InTorus3DRange | src/mem/ruby/network/garnet/RoutingUnit.cc:450-456 | a router lies in the 3D torus exactly when 0 <= id < x_length * y_length * z_length |
| Algorithms.Torus2DDistinct | src/mem/ruby/network/garnet/RoutingUnit.cc:396-434 | two different routers differ in X or Y, so one of the two branches applies |
| Algorithms.Torus3DDistinct | src/mem/ruby/network/garnet/RoutingUnit.cc:458-513 | two different routers differ in X, Y or Z |
| Algorithms.Torus3DPair | src/mem/ruby/network/garnet/RoutingUnit.cc:450-456 | the decoded layers of two torus routers are valid, and the routers differ on some axis |
| Algorithms.Torus2DDeterministic | src/mem/ruby/network/garnet/RoutingUnit.cc:377-435 | X is corrected first by the deterministic axis rule; Y is corrected only when the columns agree |
| Algorithms.Torus3DDeterministic | src/mem/ruby/network/garnet/RoutingUnit.cc:437-514 | X, then Y, then Z, each by the deterministic axis rule |
| Algorithms.Torus2DShortXY | src/mem/ruby/network/garnet/RoutingUnit.cc:516-558 | the first differing axis, in its shorter direction (Lower on a tie) |
| Algorithms.Torus3DShortXY | src/mem/ruby/network/garnet/RoutingUnit.cc:560-613 | the first differing axis of X, Y, Z, in its shorter direction |
| Algorithms.AllShort2D | src/mem/ruby/network/garnet/RoutingUnit.cc:615-661 | one shorter-direction candidate per differing axis, X first |
| Algorithms.AllShort3D | src/mem/ruby/network/garnet/RoutingUnit.cc:663-720 | one shorter-direction candidate per differing axis, X first and Z last |
| Algorithms.AllShort2DAgreesWithShortXY | src/mem/ruby/network/garnet/RoutingUnit.cc:615-661 | no candidates exactly at the destination; the first is ShortXY's choice; with two, one is East/West and one North/South |
| Algorithms.AllShort3DAgreesWithShortXY | src/mem/ruby/network/garnet/RoutingUnit.cc:663-720 | no candidates exactly at the destination; the first is ShortXYZ's choice |
| Routing.Find | src/mem/ruby/network/garnet/RoutingUnit.cc:82 | `std::find`: the first index of the value, or the length when it is absent |
| Routing.SupportsVnet | src/mem/ruby/network/garnet/RoutingUnit.cc:75-90 | a vnet is supported exactly when the list is empty or holds it |
| Routing.PortsOf | src/mem/ruby/network/garnet/RoutingUnit.cc:637-660 | each candidate direction becomes its outport index, in order |
| Routing.Decide | src/mem/ruby/network/garnet/RoutingUnit.cc:220-258 | the table is used exactly for the table selector and unknown ones; the custom selector and an XY error are errors; no algorithm routes to Local; XY, Ring and the deterministic tori apply their own routine, and ShortXY / ShortXYZ the deterministic one on an escape request and the shortest-direction one otherwise |
| Routing.EscapeSelectsDeterministic | src/mem/ruby/network/garnet/RoutingUnit.cc:234-251 | on ShortXY and ShortXYZ, an escape request routes like the deterministic algorithm and no request like the shortest-direction one |
| Routing.EscapeIgnoredElsewhere | src/mem/ruby/network/garnet/RoutingUnit.cc:220-258 | every other selector ignores the escape request |
| Routing.LeastMatchingWeight | src/mem/ruby/network/garnet/RoutingUnit.cc:113-121 | the loop computes the least weight among the matching links |
| Routing.LinksOfWeight | src/mem/ruby/network/garnet/RoutingUnit.cc:123-133 | the loop collects, in order, the matching links of the least weight |
| Routing.RoutingUnit.constructor | src/mem/ruby/network/garnet/RoutingUnit.cc:51-56 | empty tables and maps for the given router |
| Routing.RoutingUnit.AddRoute | src/mem/ruby/network/garnet/RoutingUnit.cc:58-67 | the table grows to cover the entry's vnets; each vnet of the entry gains one link at the end; nothing else changes |
| Routing.RoutingUnit.AddWeight | src/mem/ruby/network/garnet/RoutingUnit.cc:69-73 | the weight is appended; nothing else changes |
| Routing.RoutingUnit.AddInDirection | src/mem/ruby/network/garnet/RoutingUnit.cc:150-155 | both inport maps record the pair and map each other back; nothing else changes |
| Routing.RoutingUnit.AddOutDirection | src/mem/ruby/network/garnet/RoutingUnit.cc:157-162 | both outport maps record the pair and map each other back; nothing else changes |
| Routing.RoutingUnit.LookupRoutingTable | src/mem/ruby/network/garnet/RoutingUnit.cc:98-147 | the two loops and the pick compute `Lookup` on the vnet's column |
| Routing.RoutingUnit.OutportCompute | src/mem/ruby/network/garnet/RoutingUnit.cc:199-262 | at the destination router, the table lookup; otherwise the outport of the algorithm's direction, the table for table routing, or the algorithm's error |
| Routing.RoutingUnit.OutportComputeAll | src/mem/ruby/network/garnet/RoutingUnit.cc:164-191 | at the destination router, the single table port; otherwise every shortest candidate's outport for ShortXY and ShortXYZ, and an error for other selectors |
| Routing.RoutingUnit.OutportAll2D | src/mem/ruby/network/garnet/RoutingUnit.cc:615-661 | the outports of the 2D shortest candidates, in order |
| Routing.RoutingUnit.OutportAll3D | src/mem/ruby/network/garnet/RoutingUnit.cc:663-720 | the outports of the 3D shortest candidates, in order |
| Flits.Flit.SetOutport | src/mem/ruby/network/garnet/flit.hh:79 | the outport is the new one; no other field changes |
| Flits.Flit.SetTime | src/mem/ruby/network/garnet/flit.hh:80 | the time is the new one; no other field changes |
| Flits.Flit.SetVc | src/mem/ruby/network/garnet/flit.hh:81 | the VC is the new one; no other field changes |
| Flits.Flit.SetMustVc | src/mem/ruby/network/garnet/flit.hh:82 | the required VC is the new one; no other field changes |
| Flits.Flit.SetRoute | src/mem/ruby/network/garnet/flit.hh:83 | the route is the new one; no other field changes |
| Flits.Flit.SetSrcDelay | src/mem/ruby/network/garnet/flit.hh:84 | the source delay is the new one; no other field changes |
| Flits.Flit.SetDequeueTime | src/mem/ruby/network/garnet/flit.hh:85 | the dequeue time is the new one; no other field changes |
| Flits.Flit.SetEnqueueTime | src/mem/ruby/network/garnet/flit.hh:86 | the enqueue time is the new one; no other field changes |
| Flits.Flit.SetCommonOutport | src/mem/ruby/network/garnet/flit.hh:87 | the common-network outport changes and the escape outport does not |
| Flits.Flit.SetEspaceOutport | src/mem/ruby/network/garnet/flit.hh:88 | the escape-network outport changes and the common outport does not |
| Flits.Flit.SetState | src/mem/ruby/network/garnet/flit.hh:89 | the common/escape state is the new one; no other field changes |
| Flits.Flit.SetNumEscapeVc | src/mem/ruby/network/garnet/flit.hh:90 | the escape VC count is the new one; no other field changes |
| Flits.Flit.ClearPossibleOutport | src/mem/ruby/network/garnet/flit.hh:91 | no candidate outports remain; no other field changes |
| Flits.Flit.InsertPort | src/mem/ruby/network/garnet/flit.hh:92-93 | the port is appended after the earlier candidates; no other field changes |
| Flits.Flit.IncrementHops | src/mem/ruby/network/garnet/flit.hh:95 | the route's hop count goes up by one; no other field changes |
| Flits.Flit.AdvanceStage | src/mem/ruby/network/garnet/flit.hh:98-110 | afterwards `is_stage` holds for the new stage exactly from the new time on, and for no other stage |
| Flits.GreaterIsLexicographic | src/mem/ruby/network/garnet/flit.hh:112-121 | `greater` compares by time, then by flit id |
| Flits.GreaterStrictOrder | src/mem/ruby/network/garnet/flit.hh:112-121 | `greater` is irreflexive, asymmetric and transitive |
| Flits.GreaterTotal | src/mem/ruby/network/garnet/flit.hh:112-121 | `greater` orders any two flits whose (time, id) differ |
| Links.ExtLinksRoundRobin | configs/topologies/Torus2D.py:42-52 | controller k gets link k on router k mod n, and so does controller k + n |
| Links.DivModStep | configs/topologies/Ring.py:33 | `divmod` by n gives the same router for k and k + n |
| Links.MakeExtLinks | configs/topologies/Ring.py:29-42 | the controller loop builds exactly the round-robin external links and leaves the counter at the controller count |
| RingTopology.RightOf | configs/topologies/Ring.py:49 | `next_i` is a router and is the ring's higher neighbour |
| RingTopology.LeftOf | configs/topologies/Ring.py:62-70 | the far end of a Left link is a router and is the ring's lower neighbour |
| RingTopology.RightLeftInverse | configs/topologies/Ring.py:48-71 | i's Right link reaches m exactly when m's Left link reaches i |
| RingTopology.RingLinks | configs/topologies/Ring.py:48-71 | k loop iterations make 2k links |
| RingTopology.RingLinksShape | configs/topologies/Ring.py:48-71 | link 2i goes Right from i to next_i, and link 2i + 1 goes Left back to i, with ids from the counter |
| RingTopology.RingLinkAt | configs/topologies/Ring.py:48-71 | every internal link is the Right or Left link of router j / 2 |
| RingTopology.RingOneLinkEach | configs/topologies/Ring.py:48-71 | every router has exactly one Right link and exactly one Left link |
| RingTopology.RightThenLeft | configs/topologies/Ring.py:48-71 | a Right link followed by the Left link out of its far end returns to the start |
| RingTopology.RingLinksNumbered | configs/topologies/Ring.py:53-71 | internal ids run on from the counter, and every link arrives on the opposite inport |
| RingTopology.MakeTopology | configs/topologies/Ring.py:15-73 | a division by zero exactly when there are controllers and no routers, and success in every other case, with the external links, then the ring links, consecutively numbered and mirrored |
| RingTopology.RingStepIsLink | configs/topologies/Ring.py:48-71 | each Left or Right hop of the ring algorithm is a built link, arriving on the opposite inport |
| RingTopology.RingRouteReachesDestination | src/mem/ruby/network/garnet/RoutingUnit.cc:339-375 | an injected packet leaves in the deterministic direction; every router it reaches forwards it the same way over a ring link; it arrives at the destination, wrapping at most once and only on the last hop |
| Torus2DTopology.RouterCoordinates | configs/topologies/Torus2D.py:23-25 | every router of the built torus decodes to a valid (x, y) that re-encodes to it |
| Torus2DTopology.AtCoordinates | configs/topologies/Torus2D.py:23-25 | the router at a valid (x, y) is a router of the torus and decodes to (x, y) |
| Torus2DTopology.VerticalIds | configs/topologies/Torus2D.py:58-88 | `north_i` and `south_i` are the routers one row up and down, in the same column, wrapping |
| Torus2DTopology.HorizontalIds | configs/topologies/Torus2D.py:90-120 | `east_i` and `west_i` are the routers one column on and back, in the same row, wrapping |
| Torus2DTopology.SameCoordinates | configs/topologies/Torus2D.py:23-25 | two routers with equal coordinates are equal |
| Torus2DTopology.XStep | configs/topologies/Torus2D.py:90-120 | the East/West link moves one step along X and keeps the row |
| Torus2DTopology.YStep | configs/topologies/Torus2D.py:58-88 | the North/South link moves one step along Y and keeps the column |
| Torus2DTopology.NeighboursInverse | configs/topologies/Torus2D.py:58-120 | North and South, and East and West, undo each other |
| Torus2DTopology.LinkAt | configs/topologies/Torus2D.py:56-122 | link j leaves router j - start(d) by d to its d neighbour, arrives on the opposite inport and has id base + j |
| Torus2DTopology.OneLinkPerRouterDirection | configs/topologies/Torus2D.py:56-122 | each router has exactly one link per direction |
| Torus2DTopology.AddBlock | configs/topologies/Torus2D.py:59-72 | one direction's loop appends one link per router, numbered on from the counter |
| Torus2DTopology.AddIntLinks | configs/topologies/Torus2D.py:56-122 | the four loops build the internal links, and the counter grows by 4n |
| Torus2DTopology.IntLinksNumbered | configs/topologies/Torus2D.py:56-122 | internal ids run on from the counter, and every link arrives on the opposite inport |
| Torus2DTopology.MakeTopology | configs/topologies/Torus2D.py:14-122 | each assertion failure and the division by zero exactly in its case; otherwise an x_length-by-y_length torus with external then internal links, consecutively numbered and mirrored |
| Torus2DTopology.Choice | src/mem/ruby/network/garnet/RoutingUnit.cc:377-558 | both 2D torus algorithms choose one of the four planar links |
| Torus2DTopology.NextRouter | src/mem/ruby/network/garnet/RoutingUnit.cc:377-558 | the router reached over the chosen link is a router of the torus |
| Torus2DTopology.StepIsLink | configs/topologies/Torus2D.py:58-120 | the hop to the next router is the builder's link out of the router by the chosen direction, arriving on the opposite inport |
| Torus2DTopology.StepCloser | src/mem/ruby/network/garnet/RoutingUnit.cc:377-558 | that router is exactly one hop closer to the destination |
| Torus2DTopology.Walk | src/mem/ruby/network/garnet/RoutingUnit.cc:377-558 | following the algorithm from router to router ends at the destination |
| Torus2DTopology.WalkLength | src/mem/ruby/network/garnet/RoutingUnit.cc:377-558 | the walk takes exactly the per-axis hop counts added up |
| Torus2DTopology.WalkAt | src/mem/ruby/network/garnet/RoutingUnit.cc:377-558 | each router of the walk is one the previous router sends the packet to over its chosen link |
| Torus2DTopology.ShortestNoLonger | src/mem/ruby/network/garnet/RoutingUnit.cc:516-558 | ShortXY's walk is never longer than the deterministic walk, and is the sum of per-axis minima |
| Torus3DTopology.RouterCoordinates | configs/topologies/Torus3D.py:29 | every router of the built torus decodes to a valid (x, y, z) that re-encodes to it |
| Torus3DTopology.AtCoordinates | configs/topologies/Torus3D.py:29 | the router at a valid (x, y, z) is a router of the torus and decodes to it |
| Torus3DTopology.UpCoordinates | configs/topologies/Torus3D.py:59-71 | `up_i` is the router one layer up, wrapping |
| Torus3DTopology.DownCoordinates | configs/topologies/Torus3D.py:73-85 | `down_i` is the router one layer down, wrapping |
| Torus3DTopology.NorthCoordinates | configs/topologies/Torus3D.py:86-99 | the North neighbour is one row up within the layer, wrapping |
| Torus3DTopology.SouthCoordinates | configs/topologies/Torus3D.py:101-114 | the South neighbour is one row down within the layer, wrapping |
| Torus3DTopology.EastCoordinates | configs/topologies/Torus3D.py:116-128 | the East neighbour is one column on within the row, wrapping |
| Torus3DTopology.WestCoordinates | configs/topologies/Torus3D.py:130-142 | the West neighbour is one column back within the row, wrapping |
| Torus3DTopology.XStep | configs/topologies/Torus3D.py:116-142 | the East/West link moves one step along X and keeps Y and Z |
| Torus3DTopology.YStep | configs/topologies/Torus3D.py:86-114 | the North/South link moves one step along Y and keeps X and Z |
| Torus3DTopology.ZStep | configs/topologies/Torus3D.py:59-85 | the Up/Down link moves one step along Z and keeps X and Y |
| Torus3DTopology.SameCoordinates | configs/topologies/Torus3D.py:29 | two routers with equal coordinates are equal |
| Torus3DTopology.NeighboursInverse | configs/topologies/Torus3D.py:57-142 | Up and Down, North and South, and East and West undo each other |
| Torus3DTopology.LinkAt | configs/topologies/Torus3D.py:57-144 | link j leaves router j - start(d) by d to its d neighbour, arrives on the opposite inport and has id base + j |
| Torus3DTopology.OneLinkPerRouterDirection | configs/topologies/Torus3D.py:57-144 | each router has exactly one link per direction |
| Torus3DTopology.AddBlock | configs/topologies/Torus3D.py:59-71 | one direction's loop appends one link per router, numbered on from the counter |
| Torus3DTopology.AddIntLinks | configs/topologies/Torus3D.py:57-144 | the six loops build the internal links, and the counter grows by 6n |
| Torus3DTopology.IntLinksNumbered | configs/topologies/Torus3D.py:57-144 | internal ids run on from the counter, and every link arrives on the opposite inport |
| Torus3DTopology.MakeTopology | configs/topologies/Torus3D.py:19-144 | a size mismatch exactly when the product of the extents is not the router count; a division by zero exactly for controllers and no routers; otherwise the external links, then the six loops, consecutively numbered and mirrored |
| Torus3DTopology.Choice | src/mem/ruby/network/garnet/RoutingUnit.cc:437-613 | both 3D torus algorithms choose one of the six spatial links |
| Torus3DTopology.NextRouter | src/mem/ruby/network/garnet/RoutingUnit.cc:437-613 | the router reached over the chosen link is a router of the torus |
| Torus3DTopology.StepIsLink | configs/topologies/Torus3D.py:59-142 | the hop to the next router is the builder's link out of the router by the chosen direction, arriving on the opposite inport |
| Torus3DTopology.StepCloser | src/mem/ruby/network/garnet/RoutingUnit.cc:437-613 | that router is exactly one hop closer to the destination |
| Torus3DTopology.Walk | src/mem/ruby/network/garnet/RoutingUnit.cc:437-613 | following the algorithm from router to router ends at the destination |
| Torus3DTopology.WalkLength | src/mem/ruby/network/garnet/RoutingUnit.cc:437-613 | the walk takes exactly the per-axis hop counts added up |
| Torus3DTopology.WalkAt | src/mem/ruby/network/garnet/RoutingUnit.cc:437-613 | each router of the walk is one the previous router sends the packet to over its chosen link |
| Torus3DTopology.ShortestNoLonger | src/mem/ruby/network/garnet/RoutingUnit.cc:560-613 | ShortXYZ's walk is never longer than the deterministic walk, and is the sum of per-axis minima |

## Left out

- The TRY2 selectors (`outportComputeTorus2DTRY2`, `outportComputeTorus3DTRY2`) and their helper `C`, in RoutingUnit.cc:723-862. They choose by floating-point probabilities and `rand()`. `Routing.Routable` excludes them, so `Routing.Decide` never meets them.
- `rand()` in the table lookup is a parameter `r`. The chosen candidate is number `r mod count`.
- RoutingTable.Lookup: the source starts the minimum scan at `INFINITE_` (RoutingUnit.cc:109) and lowers it only through `<=`, so a matching link heavier than `INFINITE_` is never a candidate, and a lookup whose matching links are all that heavy is fatal (RoutingUnit.cc:135-138). The model starts from "no minimum yet" (`None`) and picks the lightest matching links whatever their weight; it assumes every weight is at most `INFINITE_`, whose value, in CommonTypes.hh, is not part of this model.
- `fatal`, `panic` and `assert` are error results (`RoutingError`, `TopologyError`). They do not stop the simulation. Where a member below has a `requires` instead, its line says why.
- The mesh builder is not part of this model. `MeshRouting.Neighbour` follows the XY routine's own coordinate decode (East adds one to the id, North adds a row of `num_cols`), not a builder's link list.
- The custom algorithm's placeholder (RoutingUnit.cc:325-331) is the error `PlaceholderExecuted`.
- Port directions are a closed `Direction` datatype, not strings.
- A `NetDest` is a set of node ids, and `intersectionIsNotEmpty` is set intersection.
- Algorithms.XYDirection: requires my != dest, which the routine asserts (RoutingUnit.cc:293) and `outportCompute` guarantees by handling the destination router first. It also requires non-negative router ids, because Dafny's `%` and `/` differ from C++'s on negative operands. An empty mesh is the error `EmptyMesh`.
- Algorithms.Torus2DDeterministic: requires my != dest. When all coordinates agree, the C++ body falls off its end without a return value. The dispatcher never calls it in that case.
- Routing.RoutingUnit.OutportCompute: requires (through `CanRoute`) that the chosen direction has an outport, and that the vnet has a table column. The C++ `operator[]` would silently insert port 0 for an unknown direction.
- Routing.RoutingUnit.OutportComputeAll: requires the same of every candidate direction.
- Routing.RoutingUnit.LookupRoutingTable: requires a weight for every link of the vnet's column, as `addRoute` and `addWeight` keep them in step.
- Flit construction (the `flit.cc` constructor), `print`, `functionalRead`, `functionalWrite`, `serialize`, `deserialize` and the message pointer are not part of this model. Flits.Flit has no constructor; its fields are the state the setters change.
- The flit getters are one-line field reads with no contract of their own.
- Router and link SimObjects, latencies, `registerTopology`, and the statistics script `plot_analyze.py` are not part of this model.
- The C++ `int` is unbounded here. Overflow of ids, weights and hop counts is not modelled.
- The builders take the number of controllers rather than the controller list. Their size options are natural numbers, so negative extents and Python's negative indexing are not modelled.
- Torus2DTopology.MakeTopology: `y_length = int(num_routers / x_length)` uses float division. It is modelled as exact integer division; float rounding for very large router counts is not modelled.
- Torus2DTopology.MakeTopology: the builder's X extent comes from the `mesh_rows` option.
- Torus3DTopology.MakeTopology: with zero routers the internal link list is empty, and no torus shape is claimed.
- The per-router facts about runs and walks (`AxisRouting.DeterministicFollowsRun`, `AxisRouting.ShortFollowsRun`, `Torus2DTopology.WalkAt`, `Torus3DTopology.WalkAt`) are stated one index at a time, for an index the caller chooses.
