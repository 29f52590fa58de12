/** The 2D torus builder: `num_routers` routers in rows of `x_length`, each
    with a North, South, East and West link to its wrap-around neighbour.
    Its neighbour formulas agree with the routing unit's coordinate decode,
    so routing by the torus algorithms walks these links to the
    destination. */
module Torus2DTopology {
  import opened Wrappers
  import opened Directions
  import opened Coordinates
  import opened AxisRouting
  import opened Algorithms
  import opened Links

  /** `north_i`, `south_i`, `east_i` and `west_i` of the builder. */
  function NorthOf(i: int, x: int, n: int): int
    requires n > 0
  {
    (i + x) % n
  }

  function SouthOf(i: int, x: int, n: int): int
    requires n > 0
  {
    (i - x + n) % n
  }

  function EastOf(i: int, x: int): int
    requires x > 0
  {
    (i + 1) % x + (i / x) * x
  }

  function WestOf(i: int, x: int): int
    requires x > 0
  {
    (i - 1 + x) % x + (i / x) * x
  }

  predicate Planar(d: Direction)
  {
    d == North || d == South || d == East || d == West
  }

  /** The router that the `d` link out of router `i` leads to. */
  function Neighbour(i: int, d: Direction, x: int, n: int): int
    requires x > 0 && n > 0 && Planar(d)
  {
    match d
    case North => NorthOf(i, x, n)
    case South => SouthOf(i, x, n)
    case East => EastOf(i, x)
    case West => WestOf(i, x)
  }

  // ------------------------------------------------ neighbours and coordinates

  /** The shape the builder's assertions establish: n = x * y routers. */
  predicate Shape(x: int, y: int, n: int)
  {
    x > 0 && y > 0 && n == x * y
  }

  lemma RouterCoordinates(i: int, x: int, y: int, n: int)
    requires Shape(x, y, n) && 0 <= i < n
    ensures InTorus2D(i, x, y)
    ensures i == XOf(i, x) + YOf2D(i, x) * x
    ensures 0 <= YOf2D(i, x) < y
    ensures x <= n
  {
    Range2D(i, x, y);
    Id2DOfDecode(i, x);
    MulMonotone(1, y, x);
  }

  /** The router at (cx, cy) of the torus. */
  lemma AtCoordinates(cx: int, cy: int, x: int, y: int, n: int)
    requires Shape(x, y, n) && 0 <= cx < x && 0 <= cy < y
    ensures 0 <= Id2D(cx, cy, x) < n
    ensures InTorus2D(Id2D(cx, cy, x), x, y)
    ensures XOf(Id2D(cx, cy, x), x) == cx && YOf2D(Id2D(cx, cy, x), x) == cy
  {
    Decode2DOfId(cx, cy, x);
    MulMonotone(0, cy, x);
    Range2D(Id2D(cx, cy, x), x, y);
  }

  /** The North link moves one row up and the South link one row down,
      both keeping the column and wrapping around. */
  lemma VerticalIds(i: int, x: int, y: int, n: int)
    requires Shape(x, y, n) && 0 <= i < n
    ensures NorthOf(i, x, n) == Id2D(XOf(i, x), Next(YOf2D(i, x), Higher, y), x)
    ensures SouthOf(i, x, n) == Id2D(XOf(i, x), Next(YOf2D(i, x), Lower, y), x)
  {
    RouterCoordinates(i, x, y, n);
    var cx, cy := XOf(i, x), YOf2D(i, x);
    AtCoordinates(cx, Next(cy, Higher, y), x, y, n);
    AtCoordinates(cx, Next(cy, Lower, y), x, y, n);
    if cy + 1 < y {
      assert (cy + 1) * x == cy * x + x;
      DivModUnique(i + x, n, 0, i + x);
    } else {
      DivModUnique(i + x, n, 1, cx);
    }
    if cy > 0 {
      assert (cy - 1) * x == cy * x - x;
      DivModUnique(i - x + n, n, 1, i - x);
    } else {
      assert (y - 1) * x == n - x;
      DivModUnique(i - x + n, n, 0, i - x + n);
    }
  }

  /** The East link moves one column on and the West link one column back,
      both keeping the row and wrapping around within it. */
  lemma HorizontalIds(i: int, x: int, y: int, n: int)
    requires Shape(x, y, n) && 0 <= i < n
    ensures EastOf(i, x) == Id2D(Next(XOf(i, x), Higher, x), YOf2D(i, x), x)
    ensures WestOf(i, x) == Id2D(Next(XOf(i, x), Lower, x), YOf2D(i, x), x)
  {
    RouterCoordinates(i, x, y, n);
    var cx, cy := XOf(i, x), YOf2D(i, x);
    assert (cy + 1) * x == cy * x + x;
    DivModUnique(i, x, cy, cx);
    if cx + 1 < x {
      DivModUnique(i + 1, x, cy, cx + 1);
    } else {
      DivModUnique(i + 1, x, cy + 1, 0);
    }
    if cx > 0 {
      DivModUnique(i - 1 + x, x, cy + 1, cx - 1);
    } else {
      DivModUnique(i - 1 + x, x, cy, x - 1);
    }
  }

  /** Two routers of the torus with the same coordinates are the same router. */
  lemma SameCoordinates(i: int, j: int, x: int, y: int, n: int)
    requires Shape(x, y, n) && 0 <= i < n && 0 <= j < n
    requires XOf(i, x) == XOf(j, x) && YOf2D(i, x) == YOf2D(j, x)
    ensures i == j
  {
    RouterCoordinates(i, x, y, n);
    RouterCoordinates(j, x, y, n);
  }

  /** The link in direction XDirection(s) takes one step in sense s
      along the X axis and keeps the row: the builder's East and West
      neighbours are those of the routing unit's coordinate decode. */
  lemma XStep(i: int, s: Sense, x: int, y: int, n: int)
    requires Shape(x, y, n) && 0 <= i < n && InTorus2D(i, x, y)
    ensures var j := Neighbour(i, XDirection(s), x, n);
      && 0 <= j < n && InTorus2D(j, x, y)
      && XOf(j, x) == Next(XOf(i, x), s, x) && YOf2D(j, x) == YOf2D(i, x)
  {
    HorizontalIds(i, x, y, n);
    AtCoordinates(Next(XOf(i, x), s, x), YOf2D(i, x), x, y, n);
  }

  /** The link in direction YDirection(s) takes one step in sense s along
      the Y axis and keeps the column. */
  lemma YStep(i: int, s: Sense, x: int, y: int, n: int)
    requires Shape(x, y, n) && 0 <= i < n && InTorus2D(i, x, y)
    ensures var j := Neighbour(i, YDirection(s), x, n);
      && 0 <= j < n && InTorus2D(j, x, y)
      && XOf(j, x) == XOf(i, x) && YOf2D(j, x) == Next(YOf2D(i, x), s, y)
  {
    VerticalIds(i, x, y, n);
    AtCoordinates(XOf(i, x), Next(YOf2D(i, x), s, y), x, y, n);
  }

  /** North and South, and East and West, undo each other. */
  lemma NeighboursInverse(i: int, s: Sense, x: int, y: int, n: int)
    requires Shape(x, y, n) && 0 <= i < n
    ensures Neighbour(Neighbour(i, XDirection(s), x, n), XDirection(Reverse(s)), x, n) == i
    ensures Neighbour(Neighbour(i, YDirection(s), x, n), YDirection(Reverse(s)), x, n) == i
  {
    RouterCoordinates(i, x, y, n);
    var cx, cy := XOf(i, x), YOf2D(i, x);
    XStep(i, s, x, y, n);
    var jx := Neighbour(i, XDirection(s), x, n);
    XStep(jx, Reverse(s), x, y, n);
    NextInverse(cx, s, x);
    SameCoordinates(Neighbour(jx, XDirection(Reverse(s)), x, n), i, x, y, n);
    YStep(i, s, x, y, n);
    var jy := Neighbour(i, YDirection(s), x, n);
    YStep(jy, Reverse(s), x, y, n);
    NextInverse(cy, s, y);
    SameCoordinates(Neighbour(jy, YDirection(Reverse(s)), x, n), i, x, y, n);
  }

  // ------------------------------------------------ the link list

  /** The links the loop for direction `d` adds for routers 0 .. k - 1. */
  function Block(base: int, k: nat, n: nat, x: int, d: Direction): (links: seq<IntLink>)
    requires k <= n && x > 0 && Planar(d)
    ensures |links| == k
  {
    seq(k, i requires 0 <= i < k => IntLink(base + i, i, Neighbour(i, d, x, n), d, Opposite(d)))
  }

  /** The internal links: the North, South, East and West loops in turn. */
  function IntLinks(n: nat, x: int, base: int): (links: seq<IntLink>)
    requires x > 0
    ensures |links| == 4 * n
  {
    Block(base, n, n, x, North) + Block(base + n, n, n, x, South)
    + Block(base + 2 * n, n, n, x, East) + Block(base + 3 * n, n, n, x, West)
  }

  /** Where the loop for `d` starts in the internal link list. */
  function BlockStart(d: Direction, n: nat): nat
    requires Planar(d)
  {
    match d
    case North => 0
    case South => n
    case East => 2 * n
    case West => 3 * n
  }

  /** Link j of the internal list: from router j - BlockStart(d), out by d
      and in by the opposite, to that router's d neighbour, with id base + j. */
  lemma LinkAt(n: nat, x: int, base: int, j: int)
    requires x > 0 && 0 <= j < 4 * n
    ensures var l := IntLinks(n, x, base)[j];
      && Planar(l.srcOutport)
      && j == BlockStart(l.srcOutport, n) + l.src
      && 0 <= l.src < n
      && l == IntLink(base + j, l.src, Neighbour(l.src, l.srcOutport, x, n), l.srcOutport, Opposite(l.srcOutport))
  {
    var b0, b1 := Block(base, n, n, x, North), Block(base + n, n, n, x, South);
    var b2, b3 := Block(base + 2 * n, n, n, x, East), Block(base + 3 * n, n, n, x, West);
    var links := IntLinks(n, x, base);
    assert links == b0 + b1 + b2 + b3;
    if j < n {
      assert links[j] == b0[j];
    } else if j < 2 * n {
      assert links[j] == b1[j - n];
    } else if j < 3 * n {
      assert links[j] == b2[j - 2 * n];
    } else {
      assert links[j] == b3[j - 3 * n];
    }
  }

  /** There is exactly one link per router and direction: the link out of
      router i by d is number BlockStart(d) + i. */
  lemma OneLinkPerRouterDirection(n: nat, x: int, base: int, i: int, d: Direction, j: int)
    requires x > 0 && 0 <= i < n && Planar(d) && 0 <= j < 4 * n
    ensures var l := IntLinks(n, x, base)[j];
      l.src == i && l.srcOutport == d <==> j == BlockStart(d, n) + i
  {
    LinkAt(n, x, base, j);
    var l := IntLinks(n, x, base)[j];
    if j == BlockStart(d, n) + i {
      if l.srcOutport != d {
        match l.srcOutport
        case North =>
        case South =>
        case East =>
        case West =>
      }
    }
  }

  /** The loop for direction `d`: one link per router, numbered on from
      `linkCount`. */
  method AddBlock(intLinks: seq<IntLink>, linkCount: int, n: nat, x: int, d: Direction)
    returns (links: seq<IntLink>, count: int)
    requires x > 0 && Planar(d)
    ensures links == intLinks + Block(linkCount, n, n, x, d)
    ensures count == linkCount + n
  {
    links, count := intLinks, linkCount;
    var i := 0;
    while i < n
      invariant 0 <= i <= n
      invariant count == linkCount + i
      invariant links == intLinks + Block(linkCount, i, n, x, d)
    {
      var next := Neighbour(i, d, x, n);
      links := links + [IntLink(count, i, next, d, Opposite(d))];
      count := count + 1;
      i := i + 1;
      assert Block(linkCount, i, n, x, d) == Block(linkCount, i - 1, n, x, d) + [links[|links| - 1]];
    }
  }

  /** The four loops of internal links, one after the other. */
  method AddIntLinks(linkCount: int, n: nat, x: int) returns (links: seq<IntLink>, count: int)
    requires x > 0
    ensures links == IntLinks(n, x, linkCount)
    ensures count == linkCount + 4 * n
  {
    links, count := [], linkCount;
    links, count := AddBlock(links, count, n, x, North);
    assert links == Block(linkCount, n, n, x, North);
    links, count := AddBlock(links, count, n, x, South);
    links, count := AddBlock(links, count, n, x, East);
    links, count := AddBlock(links, count, n, x, West);
  }

  /** The internal links are numbered on from `base` and each arrives on
      the inport opposite to its outport. */
  lemma IntLinksNumbered(n: nat, x: int, base: int)
    requires x > 0
    ensures forall j :: 0 <= j < 4 * n ==> IntLinks(n, x, base)[j].linkId == base + j
    ensures Mirrored(IntLinks(n, x, base))
  {
    forall j | 0 <= j < 4 * n
      ensures IntLinks(n, x, base)[j].linkId == base + j
      ensures IntLinks(n, x, base)[j].dstInport == Opposite(IntLinks(n, x, base)[j].srcOutport)
    {
      LinkAt(n, x, base, j);
    }
  }

  /** `makeTopology`. A zero row length fails the first assertion; a router
      count that the row length does not divide fails the second; with no
      routers, dealing out a controller divides by zero. Otherwise the
      controllers' links come first, then the four loops of internal links,
      all numbered by `link_count`. */
  method MakeTopology(numNodes: nat, numRouters: nat, xLength: nat)
    returns (res: Result<Topology, TopologyError>)
    ensures res == Err(ZeroRows) <==> xLength == 0
    ensures res == Err(SizeMismatch) <==> xLength > 0 && numRouters % xLength != 0
    ensures res == Err(DivisionByZero) <==> xLength > 0 && numRouters == 0 && numNodes > 0
    ensures res.Ok? ==> Shape(xLength, numRouters / xLength, numRouters) || numRouters == 0
    ensures res.Ok? ==> res.value == Topology(ExtLinks(numNodes, numRouters),
                                               IntLinks(numRouters, xLength, numNodes))
    ensures res.Ok? ==> Numbered(res.value) && Mirrored(res.value.intLinks)
  {
    if xLength == 0 {
      return Err(ZeroRows);
    }
    var yLength := numRouters / xLength;
    assert numRouters == xLength * yLength + numRouters % xLength;
    if xLength * yLength != numRouters {
      return Err(SizeMismatch);
    }
    if numRouters == 0 && numNodes > 0 {
      return Err(DivisionByZero);
    }
    var extLinks, linkCount := MakeExtLinks(numNodes, numRouters);
    var intLinks;
    intLinks, linkCount := AddIntLinks(linkCount, numRouters, xLength);
    IntLinksNumbered(numRouters, xLength, numNodes);
    if numRouters > 0 {
      assert yLength > 0;
    }
    return Ok(Topology(extLinks, intLinks));
  }

  // ------------------------------------------------ routing over the links

  /** The direction a torus router picks: `outportComputeTorus2DDeteministic`,
      or `outportComputeTorus2DShortXY` when `shortest`. */
  function Choice(my: int, dest: int, x: int, y: int, shortest: bool): (d: Direction)
    requires InTorus2D(my, x, y) && InTorus2D(dest, x, y) && my != dest
    ensures Planar(d)
  {
    if shortest then Torus2DShortXY(my, dest, x, y) else Torus2DDeterministic(my, dest, x, y)
  }

  /** The hops left on both axes when each is travelled in the sense the
      algorithm picks for it. */
  function Distance(my: int, dest: int, x: int, y: int, shortest: bool): nat
    requires InTorus2D(my, x, y) && InTorus2D(dest, x, y)
  {
    AxisHops(XOf(my, x), XOf(dest, x), x, shortest)
    + AxisHops(YOf2D(my, x), YOf2D(dest, x), y, shortest)
  }

  /** The router a packet for `dest` moves to from `my`: the far end of
      the link the algorithm picks, a router of the torus. */
  function NextRouter(my: int, dest: int, x: int, y: int, n: int, shortest: bool): (j: int)
    requires Shape(x, y, n) && 0 <= my < n && 0 <= dest < n && my != dest
    requires InTorus2D(my, x, y) && InTorus2D(dest, x, y)
    ensures j == Neighbour(my, Choice(my, dest, x, y, shortest), x, n)
    ensures 0 <= j < n && InTorus2D(j, x, y)
  {
    Torus2DDistinct(my, dest, x);
    var cx, cy := XOf(my, x), YOf2D(my, x);
    var dx, dy := XOf(dest, x), YOf2D(dest, x);
    if cx != dx then
      XStep(my, AxisSense(cx, dx, x, shortest), x, y, n);
      Neighbour(my, Choice(my, dest, x, y, shortest), x, n)
    else
      YStep(my, AxisSense(cy, dy, y, shortest), x, y, n);
      Neighbour(my, Choice(my, dest, x, y, shortest), x, n)
  }

  /** The hop `NextRouter` describes is a link the builder made: the link
      out of `my` by the chosen direction, number BlockStart(d) + my, leads
      to the next router and arrives on the opposite inport. */
  lemma StepIsLink(my: int, dest: int, x: int, y: int, n: int, shortest: bool, base: int)
    requires Shape(x, y, n) && 0 <= my < n && 0 <= dest < n && my != dest
    requires InTorus2D(my, x, y) && InTorus2D(dest, x, y)
    ensures var d := Choice(my, dest, x, y, shortest);
      var j := BlockStart(d, n) + my;
      && 0 <= j < 4 * n
      && var l := IntLinks(n, x, base)[j];
      && l.src == my && l.srcOutport == d
      && l.dst == NextRouter(my, dest, x, y, n, shortest) && l.dstInport == Opposite(d)
  {
    var d := Choice(my, dest, x, y, shortest);
    LinkAt(n, x, base, BlockStart(d, n) + my);
    OneLinkPerRouterDirection(n, x, base, my, d, BlockStart(d, n) + my);
  }

  /** The router the packet moves to is one hop closer to `dest`. */
  lemma StepCloser(my: int, dest: int, x: int, y: int, n: int, shortest: bool)
    requires Shape(x, y, n) && 0 <= my < n && 0 <= dest < n && my != dest
    requires InTorus2D(my, x, y) && InTorus2D(dest, x, y)
    ensures Distance(NextRouter(my, dest, x, y, n, shortest), dest, x, y, shortest)
         == Distance(my, dest, x, y, shortest) - 1
  {
    Torus2DDistinct(my, dest, x);
    var cx, cy := XOf(my, x), YOf2D(my, x);
    var dx, dy := XOf(dest, x), YOf2D(dest, x);
    if cx != dx {
      XStep(my, AxisSense(cx, dx, x, shortest), x, y, n);
      AxisStep(cx, dx, x, shortest);
    } else {
      YStep(my, AxisSense(cy, dy, y, shortest), x, y, n);
      AxisStep(cy, dy, y, shortest);
    }
  }

  /** The routers a packet visits after `my` when every router on the way
      sends it over the link its routing algorithm picks: the walk ends at
      `dest`. */
  function Walk(my: int, dest: int, x: int, y: int, n: int, shortest: bool): (r: seq<int>)
    requires Shape(x, y, n) && 0 <= my < n && 0 <= dest < n
    requires InTorus2D(my, x, y) && InTorus2D(dest, x, y)
    ensures r == [] <==> my == dest
    ensures r != [] ==> r[|r| - 1] == dest
    decreases Distance(my, dest, x, y, shortest)
  {
    if my == dest then []
    else
      var j := NextRouter(my, dest, x, y, n, shortest);
      StepCloser(my, dest, x, y, n, shortest);
      [j] + Walk(j, dest, x, y, n, shortest)
  }

  /** The walk takes exactly `Distance` hops. */
  lemma {:induction false} WalkLength(my: int, dest: int, x: int, y: int, n: int, shortest: bool)
    requires Shape(x, y, n) && 0 <= my < n && 0 <= dest < n
    requires InTorus2D(my, x, y) && InTorus2D(dest, x, y)
    ensures |Walk(my, dest, x, y, n, shortest)| == Distance(my, dest, x, y, shortest)
    decreases Distance(my, dest, x, y, shortest)
  {
    if my != dest {
      var j := NextRouter(my, dest, x, y, n, shortest);
      StepCloser(my, dest, x, y, n, shortest);
      WalkLength(j, dest, x, y, n, shortest);
    }
  }

  /** Every router of the walk is a router of the torus; the first one is
      where `my` sends the packet, and each later one is where the router
      before it, not yet the destination, sends it. */
  lemma {:induction false} WalkAt(my: int, dest: int, x: int, y: int, n: int, shortest: bool, i: int)
    requires Shape(x, y, n) && 0 <= my < n && 0 <= dest < n
    requires InTorus2D(my, x, y) && InTorus2D(dest, x, y)
    requires 0 <= i < |Walk(my, dest, x, y, n, shortest)|
    decreases |Walk(my, dest, x, y, n, shortest)|
    ensures var r := Walk(my, dest, x, y, n, shortest);
      && 0 <= r[i] < n && InTorus2D(r[i], x, y)
      && (i == 0 ==> my != dest && r[0] == NextRouter(my, dest, x, y, n, shortest))
      && (i + 1 < |r| ==> r[i] != dest && r[i + 1] == NextRouter(r[i], dest, x, y, n, shortest))
  {
    var j := NextRouter(my, dest, x, y, n, shortest);
    var rest := Walk(j, dest, x, y, n, shortest);
    var r := Walk(my, dest, x, y, n, shortest);
    assert r == [j] + rest;
    if i == 0 {
      assert r[0] == j;
      if rest != [] {
        WalkAt(j, dest, x, y, n, shortest, 0);
        assert r[1] == rest[0];
      }
    } else {
      WalkAt(j, dest, x, y, n, shortest, i - 1);
      assert r[i] == rest[i - 1];
      if i + 1 < |r| {
        assert r[i + 1] == rest[i];
      }
    }
  }

  /** ShortXY never needs more hops than the deterministic algorithm, and
      on each axis it needs min(d, len - d) for the leftward distance d. */
  lemma ShortestNoLonger(my: int, dest: int, x: int, y: int)
    requires InTorus2D(my, x, y) && InTorus2D(dest, x, y)
    ensures Distance(my, dest, x, y, true) <= Distance(my, dest, x, y, false)
    ensures Distance(my, dest, x, y, true) ==
      MinHops(XOf(my, x), XOf(dest, x), x) + MinHops(YOf2D(my, x), YOf2D(dest, x), y)
  {
    var cx, cy := XOf(my, x), YOf2D(my, x);
    var dx, dy := XOf(dest, x), YOf2D(dest, x);
    AxisShortest(cx, dx, x);
    AxisShortest(cy, dy, y);
  }
}
