/** The routing unit of one router: its routing and weight tables, its
    direction <-> port-index maps, and the routing decision for a packet. */
module Routing {
  import opened Wrappers
  import opened Directions
  import opened Network
  import opened RoutingTable
  import opened Coordinates
  import opened AxisRouting
  import opened Algorithms

  /** Index of the first occurrence of `x` in `s`, or |s| when there is
      none, as `std::find` returns the end iterator. */
  function Find(s: seq<int>, x: int): (i: nat)
    ensures i <= |s|
    ensures i < |s| ==> s[i] == x
    ensures forall j :: 0 <= j < i ==> s[j] != x
    decreases |s|
  {
    if s == [] then 0
    else if s[0] == x then 0
    else 1 + Find(s[1..], x)
  }

  /** `supportsVnet`: an empty list of supported vnets means all of them. */
  function SupportsVnet(vnet: int, sVnets: seq<int>): (b: bool)
    ensures b <==> |sVnets| == 0 || vnet in sVnets
  {
    if |sVnets| == 0 then true
    else Find(sVnets, vnet) != |sVnets|
  }

  /** The port indices that a sequence of directions names. */
  function PortsOf(dirn2idx: map<Direction, int>, ds: seq<Direction>): (ports: seq<int>)
    requires forall i :: 0 <= i < |ds| ==> ds[i] in dirn2idx
    ensures |ports| == |ds|
    ensures forall i :: 0 <= i < |ds| ==> ports[i] == dirn2idx[ds[i]]
  {
    seq(|ds|, i requires 0 <= i < |ds| => dirn2idx[ds[i]])
  }

  /** What the dispatcher settles on before any port index is read: the
      routing table, or a direction for the outport map. */
  datatype Decision = ByTable | ByDirection(dirn: Direction)

  /** What an algorithm needs of the network and of the two routers: the
      sizes that it divides by are positive and the routers lie inside the
      ring or torus. The TRY2 selectors are not part of this model. */
  predicate Routable(my: int, dest: int, net: NetworkParams)
  {
    match net.algorithm
    case Table => true
    case Other(_) => true
    case Custom => true
    case XY => my >= 0 && dest >= 0
    case Ring => 0 <= my < net.numRouters && 0 <= dest < net.numRouters
    case Torus2DD => InTorus2D(my, net.xLength, net.yLength) && InTorus2D(dest, net.xLength, net.yLength)
    case ShortXY => InTorus2D(my, net.xLength, net.yLength) && InTorus2D(dest, net.xLength, net.yLength)
    case Torus3DD =>
      InTorus3D(my, net.xLength, net.yLength, net.zLength) &&
      InTorus3D(dest, net.xLength, net.yLength, net.zLength)
    case ShortXYZ =>
      InTorus3D(my, net.xLength, net.yLength, net.zLength) &&
      InTorus3D(dest, net.xLength, net.yLength, net.zLength)
    case Torus2D2 => false
    case Torus3D2 => false
  }

  /** The `switch` of `outportCompute` for a packet not yet at its
      destination router. */
  function Decide(my: int, dest: int, inDirn: Direction, getEspace: bool, net: NetworkParams)
    : (r: Result<Decision, RoutingError>)
    requires my != dest && Routable(my, dest, net)
    ensures r == Ok(ByTable) <==> net.algorithm == Table || net.algorithm.Other?
    ensures r.Err? <==> net.algorithm == Custom || (net.algorithm == XY && XYDirection(my, dest, net.numRows, net.numCols, inDirn).Err?)
    ensures r.Ok? && r.value.ByDirection? ==> r.value.dirn != Local
    ensures net.algorithm == XY ==>
      r == match XYDirection(my, dest, net.numRows, net.numCols, inDirn)
           case Ok(d) => Ok(ByDirection(d))
           case Err(e) => Err(e)
    ensures net.algorithm == Ring ==>
      r == Ok(ByDirection(RingDirection(my, dest, net.numRouters, inDirn)))
    ensures net.algorithm == Torus2DD || (net.algorithm == ShortXY && getEspace) ==>
      r == Ok(ByDirection(Torus2DDeterministic(my, dest, net.xLength, net.yLength)))
    ensures net.algorithm == Torus3DD || (net.algorithm == ShortXYZ && getEspace) ==>
      r == Ok(ByDirection(Torus3DDeterministic(my, dest, net.xLength, net.yLength, net.zLength)))
    ensures net.algorithm == ShortXY && !getEspace ==>
      r == Ok(ByDirection(Torus2DShortXY(my, dest, net.xLength, net.yLength)))
    ensures net.algorithm == ShortXYZ && !getEspace ==>
      r == Ok(ByDirection(Torus3DShortXY(my, dest, net.xLength, net.yLength, net.zLength)))
  {
    var xl, yl, zl := net.xLength, net.yLength, net.zLength;
    match net.algorithm
    case Table => Ok(ByTable)
    case Other(_) => Ok(ByTable)
    case Custom => Err(PlaceholderExecuted)
    case XY =>
      (match XYDirection(my, dest, net.numRows, net.numCols, inDirn)
       case Ok(d) => Ok(ByDirection(d))
       case Err(e) => Err(e))
    case Ring => Ok(ByDirection(RingDirection(my, dest, net.numRouters, inDirn)))
    case Torus2DD => Ok(ByDirection(Torus2DDeterministic(my, dest, xl, yl)))
    case Torus3DD => Ok(ByDirection(Torus3DDeterministic(my, dest, xl, yl, zl)))
    case ShortXY =>
      if getEspace then Ok(ByDirection(Torus2DDeterministic(my, dest, xl, yl)))
      else Ok(ByDirection(Torus2DShortXY(my, dest, xl, yl)))
    case ShortXYZ =>
      if getEspace then Ok(ByDirection(Torus3DDeterministic(my, dest, xl, yl, zl)))
      else Ok(ByDirection(Torus3DShortXY(my, dest, xl, yl, zl)))
  }

  /** On a torus the escape request selects the deterministic algorithm
      and its absence the shortest-direction one. */
  lemma EscapeSelectsDeterministic(my: int, dest: int, inDirn: Direction, net: NetworkParams)
    requires my != dest && Routable(my, dest, net)
    requires net.algorithm == ShortXY || net.algorithm == ShortXYZ
    ensures net.algorithm == ShortXY ==>
      && Decide(my, dest, inDirn, true, net) == Decide(my, dest, inDirn, true, net.(algorithm := Torus2DD))
      && Decide(my, dest, inDirn, false, net) == Ok(ByDirection(Torus2DShortXY(my, dest, net.xLength, net.yLength)))
    ensures net.algorithm == ShortXYZ ==>
      && Decide(my, dest, inDirn, true, net) == Decide(my, dest, inDirn, true, net.(algorithm := Torus3DD))
      && Decide(my, dest, inDirn, false, net) ==
           Ok(ByDirection(Torus3DShortXY(my, dest, net.xLength, net.yLength, net.zLength)))
  {
  }

  /** The escape flag matters only to ShortXY and ShortXYZ. */
  lemma EscapeIgnoredElsewhere(my: int, dest: int, inDirn: Direction, net: NetworkParams)
    requires my != dest && Routable(my, dest, net)
    requires net.algorithm != ShortXY && net.algorithm != ShortXYZ
    ensures Decide(my, dest, inDirn, true, net) == Decide(my, dest, inDirn, false, net)
  {
  }

  /** The first loop of `lookupRoutingTable`: the least weight among the
      links whose destination set meets `dest` (None for INFINITE_). */
  method LeastMatchingWeight(column: seq<set<int>>, weights: seq<int>, dest: set<int>)
    returns (minWeight: Option<int>)
    requires |column| <= |weights|
    ensures minWeight == PrefixMinWeight(column, weights, dest, |column|)
  {
    minWeight := None;
    var link := 0;
    while link < |column|
      invariant 0 <= link <= |column|
      invariant minWeight == PrefixMinWeight(column, weights, dest, link)
    {
      PrefixMinWeightStep(column, weights, dest, link);
      if Intersects(column[link], dest) {
        if minWeight.None? || weights[link] <= minWeight.value {
          minWeight := Some(weights[link]);
        }
      }
      link := link + 1;
    }
  }

  /** The second loop of `lookupRoutingTable`: the links, in order, whose
      destination set meets `dest` and whose weight is `minWeight`. */
  method LinksOfWeight(column: seq<set<int>>, weights: seq<int>, dest: set<int>, minWeight: Option<int>)
    returns (candidates: seq<nat>)
    requires |column| <= |weights|
    ensures minWeight.None? ==> candidates == []
    ensures minWeight.Some? ==> candidates == PrefixTied(column, weights, dest, |column|, minWeight.value)
  {
    candidates := [];
    var link := 0;
    while link < |column|
      invariant 0 <= link <= |column|
      invariant minWeight.None? ==> candidates == []
      invariant minWeight.Some? ==> candidates == PrefixTied(column, weights, dest, link, minWeight.value)
    {
      if minWeight.Some? {
        PrefixTiedStep(column, weights, dest, link, minWeight.value);
        if Intersects(column[link], dest) && weights[link] == minWeight.value {
          candidates := candidates + [link];
        }
      }
      link := link + 1;
    }
  }

  class RoutingUnit {
    const routerId: int                     // m_router->get_id()
    var routingTable: seq<seq<set<int>>>    // per vnet, per link: destination set
    var weightTable: seq<int>               // per link: weight
    var inportsDirn2Idx: map<Direction, int>
    var inportsIdx2Dirn: map<int, Direction>
    var outportsDirn2Idx: map<Direction, int>
    var outportsIdx2Dirn: map<int, Direction>

    constructor (id: int)
      ensures routerId == id
      ensures routingTable == [] && weightTable == []
      ensures inportsDirn2Idx == map[] && inportsIdx2Dirn == map[]
      ensures outportsDirn2Idx == map[] && outportsIdx2Dirn == map[]
    {
      routerId := id;
      routingTable := [];
      weightTable := [];
      inportsDirn2Idx, inportsIdx2Dirn := map[], map[];
      outportsDirn2Idx, outportsIdx2Dirn := map[], map[];
    }

    /** `addRoute`: one more link, with entry[v] its destination set on
        vnet v. The table grows to cover every vnet of the entry; columns of
        vnets beyond the entry are left alone. */
    method AddRoute(entry: seq<set<int>>)
      modifies this`routingTable
      ensures |routingTable| == if |entry| > |old(routingTable)| then |entry| else |old(routingTable)|
      ensures forall v :: 0 <= v < |entry| ==>
        routingTable[v] == (if v < |old(routingTable)| then old(routingTable)[v] else []) + [entry[v]]
      ensures forall v :: |entry| <= v < |routingTable| ==> routingTable[v] == old(routingTable)[v]
      ensures weightTable == old(weightTable)
      ensures inportsDirn2Idx == old(inportsDirn2Idx) && inportsIdx2Dirn == old(inportsIdx2Dirn)
      ensures outportsDirn2Idx == old(outportsDirn2Idx) && outportsIdx2Dirn == old(outportsIdx2Dirn)
    {
      if |entry| > |routingTable| {
        routingTable := routingTable + seq(|entry| - |routingTable|, _ => []);
      }
      var v := 0;
      while v < |entry|
        invariant 0 <= v <= |entry| <= |routingTable|
        invariant |routingTable| == if |entry| > |old(routingTable)| then |entry| else |old(routingTable)|
        invariant forall u :: 0 <= u < v ==>
          routingTable[u] == (if u < |old(routingTable)| then old(routingTable)[u] else []) + [entry[u]]
        invariant forall u :: v <= u < |routingTable| ==>
          routingTable[u] == if u < |old(routingTable)| then old(routingTable)[u] else []
      {
        routingTable := routingTable[v := routingTable[v] + [entry[v]]];
        v := v + 1;
      }
    }

    /** `addWeight`: the weight of the next link. */
    method AddWeight(linkWeight: int)
      modifies this
      ensures weightTable == old(weightTable) + [linkWeight]
      ensures routingTable == old(routingTable)
      ensures inportsDirn2Idx == old(inportsDirn2Idx) && inportsIdx2Dirn == old(inportsIdx2Dirn)
      ensures outportsDirn2Idx == old(outportsDirn2Idx) && outportsIdx2Dirn == old(outportsIdx2Dirn)
    {
      weightTable := weightTable + [linkWeight];
    }

    /** `addInDirection`: records the inport both ways. */
    method AddInDirection(inportDirn: Direction, inportIdx: int)
      modifies this
      ensures inportsDirn2Idx == old(inportsDirn2Idx)[inportDirn := inportIdx]
      ensures inportsIdx2Dirn == old(inportsIdx2Dirn)[inportIdx := inportDirn]
      ensures inportsIdx2Dirn[inportsDirn2Idx[inportDirn]] == inportDirn
      ensures routingTable == old(routingTable) && weightTable == old(weightTable)
      ensures outportsDirn2Idx == old(outportsDirn2Idx) && outportsIdx2Dirn == old(outportsIdx2Dirn)
    {
      inportsDirn2Idx := inportsDirn2Idx[inportDirn := inportIdx];
      inportsIdx2Dirn := inportsIdx2Dirn[inportIdx := inportDirn];
    }

    /** `addOutDirection`: records the outport both ways. */
    method AddOutDirection(outportDirn: Direction, outportIdx: int)
      modifies this
      ensures outportsDirn2Idx == old(outportsDirn2Idx)[outportDirn := outportIdx]
      ensures outportsIdx2Dirn == old(outportsIdx2Dirn)[outportIdx := outportDirn]
      ensures outportsIdx2Dirn[outportsDirn2Idx[outportDirn]] == outportDirn
      ensures routingTable == old(routingTable) && weightTable == old(weightTable)
      ensures inportsDirn2Idx == old(inportsDirn2Idx) && inportsIdx2Dirn == old(inportsIdx2Dirn)
    {
      outportsDirn2Idx := outportsDirn2Idx[outportDirn := outportIdx];
      outportsIdx2Dirn := outportsIdx2Dirn[outportIdx := outportDirn];
    }

    /** The table has a column for `vnet` and a weight for each of its links. */
    predicate TableCovers(vnet: int)
      reads this
    {
      0 <= vnet < |routingTable| && |routingTable[vnet]| <= |weightTable|
    }

    /** `lookupRoutingTable`: first the least weight among the links whose
        destination set meets the packet's, then the links of that weight;
        `ordered` is `isVNetOrdered(vnet)` and `r` the value of `rand()`. */
    method LookupRoutingTable(vnet: int, msgDestination: set<int>, ordered: bool, r: nat)
      returns (res: Result<int, RoutingError>)
      requires TableCovers(vnet)
      ensures res == Lookup(routingTable[vnet], weightTable, msgDestination, ordered, r)
    {
      var column := routingTable[vnet];
      var minWeight := LeastMatchingWeight(column, weightTable, msgDestination);
      var candidates := LinksOfWeight(column, weightTable, msgDestination, minWeight);
      var numCandidates := |candidates|;
      PrefixWhole(column, weightTable, msgDestination);

      if |candidates| == 0 {
        return Err(NoRoute);
      }
      var candidate := 0;
      if !ordered {
        candidate := r % numCandidates;
      }
      res := Ok(candidates[candidate]);
    }

    /** Every direction of `ds` has an outport (the source's map lookup
        would otherwise insert a port 0). */
    predicate KnowsAll(ds: seq<Direction>)
      reads this
    {
      forall i :: 0 <= i < |ds| ==> ds[i] in outportsDirn2Idx
    }

    /** What `outportCompute` needs: a table column for the packet's vnet
        when the table is consulted, an outport for the direction chosen
        otherwise. */
    predicate CanRoute(route: RouteInfo, inDirn: Direction, getEspace: bool, net: NetworkParams)
      reads this
    {
      if route.destRouter == routerId then TableCovers(route.vnet)
      else
        && Routable(routerId, route.destRouter, net)
        && match Decide(routerId, route.destRouter, inDirn, getEspace, net)
           case Ok(ByTable) => TableCovers(route.vnet)
           case Ok(ByDirection(d)) => d in outportsDirn2Idx
           case Err(_) => true
    }

    /** `outportCompute`: the table when the packet has reached its
        destination router (several NIs may hang off the Local direction),
        else the network's routing algorithm. `r` is the `rand()` draw of a
        table lookup; errors stand for the source's panics and assertions. */
    method OutportCompute(route: RouteInfo, inport: int, inDirn: Direction, getEspace: bool,
                          net: NetworkParams, r: nat)
      returns (res: Result<int, RoutingError>)
      requires CanRoute(route, inDirn, getEspace, net)
      ensures route.destRouter == routerId ==>
        res == Lookup(routingTable[route.vnet], weightTable, route.netDest,
                      route.vnet in net.orderedVnets, r)
      ensures route.destRouter != routerId ==>
        match Decide(routerId, route.destRouter, inDirn, getEspace, net)
        case Ok(ByTable) =>
          res == Lookup(routingTable[route.vnet], weightTable, route.netDest,
                        route.vnet in net.orderedVnets, r)
        case Ok(ByDirection(d)) => res == Ok(outportsDirn2Idx[d])
        case Err(e) => res == Err(e)
    {
      var ordered := route.vnet in net.orderedVnets;
      if route.destRouter == routerId {
        res := LookupRoutingTable(route.vnet, route.netDest, ordered, r);
        return;
      }
      var decision := Decide(routerId, route.destRouter, inDirn, getEspace, net);
      match decision {
        case Ok(ByTable) =>
          res := LookupRoutingTable(route.vnet, route.netDest, ordered, r);
        case Ok(ByDirection(d)) =>
          res := Ok(outportsDirn2Idx[d]);
        case Err(e) =>
          res := Err(e);
      }
    }

    /** What `outportComputeAll` needs: a table column at the destination
        router, otherwise routers inside the torus and an outport for every
        candidate direction. */
    predicate CanRouteAll(route: RouteInfo, net: NetworkParams)
      reads this
    {
      var my, dest, xl, yl, zl := routerId, route.destRouter, net.xLength, net.yLength, net.zLength;
      if dest == my then TableCovers(route.vnet)
      else if net.algorithm == ShortXY then
        InTorus2D(my, xl, yl) && InTorus2D(dest, xl, yl) && KnowsAll(AllShort2D(my, dest, xl, yl))
      else if net.algorithm == ShortXYZ then
        InTorus3D(my, xl, yl, zl) && InTorus3D(dest, xl, yl, zl) && KnowsAll(AllShort3D(my, dest, xl, yl, zl))
      else true
    }

    /** `outportComputeAll`: the single table port at the destination
        router; else every shortest-direction candidate, which only ShortXY
        and ShortXYZ provide. */
    method OutportComputeAll(route: RouteInfo, inport: int, inDirn: Direction, net: NetworkParams, r: nat)
      returns (res: Result<seq<int>, RoutingError>)
      requires CanRouteAll(route, net)
      ensures route.destRouter == routerId ==>
        match Lookup(routingTable[route.vnet], weightTable, route.netDest, route.vnet in net.orderedVnets, r)
        case Ok(l) => res == Ok([l])
        case Err(e) => res == Err(e)
      ensures route.destRouter != routerId && net.algorithm == ShortXY ==>
        res == Ok(PortsOf(outportsDirn2Idx, AllShort2D(routerId, route.destRouter, net.xLength, net.yLength)))
      ensures route.destRouter != routerId && net.algorithm == ShortXYZ ==>
        res == Ok(PortsOf(outportsDirn2Idx,
                          AllShort3D(routerId, route.destRouter, net.xLength, net.yLength, net.zLength)))
      ensures route.destRouter != routerId && net.algorithm != ShortXY && net.algorithm != ShortXYZ ==>
        res == Err(UnsupportedAlgorithm)
    {
      if route.destRouter == routerId {
        var outport := LookupRoutingTable(route.vnet, route.netDest, route.vnet in net.orderedVnets, r);
        match outport {
          case Ok(l) => res := Ok([l]);
          case Err(e) => res := Err(e);
        }
        return;
      }
      match net.algorithm {
        case ShortXY =>
          var outports := OutportAll2D(route, inport, inDirn, net.xLength, net.yLength);
          res := Ok(outports);
        case ShortXYZ =>
          var outports := OutportAll3D(route, inport, inDirn, net.xLength, net.yLength, net.zLength);
          res := Ok(outports);
        case _ =>
          res := Err(UnsupportedAlgorithm);
      }
    }

    /** `outportAll2D`: the outport of each differing axis, X then Y. */
    method OutportAll2D(route: RouteInfo, inport: int, inDirn: Direction, xl: int, yl: int)
      returns (outports: seq<int>)
      requires InTorus2D(routerId, xl, yl) && InTorus2D(route.destRouter, xl, yl)
      requires KnowsAll(AllShort2D(routerId, route.destRouter, xl, yl))
      ensures outports == PortsOf(outportsDirn2Idx, AllShort2D(routerId, route.destRouter, xl, yl))
    {
      ghost var ds := AllShort2D(routerId, route.destRouter, xl, yl);
      var my, dest := routerId, route.destRouter;
      Torus2DCoordinates(my, xl, yl);
      Torus2DCoordinates(dest, xl, yl);
      var myX, myY := XOf(my, xl), YOf2D(my, xl);
      var destX, destY := XOf(dest, xl), YOf2D(dest, xl);
      outports := [];
      if destX != myX {
        var outportDirn := if LeftDistance(myX, destX, xl) * 2 <= xl then West else East;
        assert outportDirn == ds[0];
        outports := outports + [outportsDirn2Idx[outportDirn]];
      }
      if destY != myY {
        var outportDirn := if LeftDistance(myY, destY, yl) * 2 <= yl then South else North;
        assert outportDirn == ds[|ds| - 1];
        outports := outports + [outportsDirn2Idx[outportDirn]];
      }
    }

    /** `outportAll3D`: the outport of each differing axis, X, Y, then Z. */
    method OutportAll3D(route: RouteInfo, inport: int, inDirn: Direction, xl: int, yl: int, zl: int)
      returns (outports: seq<int>)
      requires InTorus3D(routerId, xl, yl, zl) && InTorus3D(route.destRouter, xl, yl, zl)
      requires KnowsAll(AllShort3D(routerId, route.destRouter, xl, yl, zl))
      ensures outports == PortsOf(outportsDirn2Idx, AllShort3D(routerId, route.destRouter, xl, yl, zl))
    {
      ghost var ds := AllShort3D(routerId, route.destRouter, xl, yl, zl);
      var my, dest := routerId, route.destRouter;
      Torus3DCoordinates(my, xl, yl, zl);
      Torus3DCoordinates(dest, xl, yl, zl);
      var myX, myY, myZ := XOf(my, xl), YOf3D(my, xl, yl), ZOf3D(my, xl, yl);
      var destX, destY, destZ := XOf(dest, xl), YOf3D(dest, xl, yl), ZOf3D(dest, xl, yl);
      outports := [];
      if destX != myX {
        var outportDirn := if LeftDistance(myX, destX, xl) * 2 <= xl then West else East;
        assert outportDirn == ds[0];
        outports := outports + [outportsDirn2Idx[outportDirn]];
      }
      if destY != myY {
        var outportDirn := if LeftDistance(myY, destY, yl) * 2 <= yl then South else North;
        assert outportDirn == ds[|outports|];
        outports := outports + [outportsDirn2Idx[outportDirn]];
      }
      if destZ != myZ {
        var outportDirn := if LeftDistance(myZ, destZ, zl) * 2 <= zl then Down else Up;
        assert outportDirn == ds[|ds| - 1];
        outports := outports + [outportsDirn2Idx[outportDirn]];
      }
    }
  }
}
