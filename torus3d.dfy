/** The 3D torus builder: `x_length * y_length * z_length` routers, X
    varying fastest, each with an Up, Down, North, South, East and West
    link to its wrap-around neighbour. Its neighbour formulas agree with
    the routing unit's 3D coordinate decode, so routing by the 3D torus
    algorithms walks these links to the destination. */
module Torus3DTopology {
  import opened Wrappers
  import opened Directions
  import opened Coordinates
  import opened AxisRouting
  import opened Algorithms
  import opened Links

  /** `up_i`, `down_i` and the `next_i` of the North, South, East and West
      loops of the builder. */
  function UpOf(i: int, x: int, y: int, n: int): int
    requires n > 0
  {
    (i + x * y) % n
  }

  function DownOf(i: int, x: int, y: int, n: int): int
    requires n > 0
  {
    (i + n - x * y) % n
  }

  function NorthOf(i: int, x: int, y: int): int
    requires x > 0 && y > 0
  {
    assert x * y > 0;
    (i / (x * y)) * (x * y) + (i + x) % (x * y)
  }

  function SouthOf(i: int, x: int, y: int): int
    requires x > 0 && y > 0
  {
    assert x * y > 0;
    (i / (x * y)) * (x * y) + (i - x + x * y) % (x * y)
  }

  function EastOf(i: int, x: int): int
    requires x > 0
  {
    (i / x) * x + (i + 1) % x
  }

  function WestOf(i: int, x: int): int
    requires x > 0
  {
    (i / x) * x + (i - 1 + x) % x
  }

  predicate Spatial(d: Direction)
  {
    d == Up || d == Down || d == North || d == South || d == East || d == West
  }

  /** The router that the `d` link out of router `i` leads to. */
  function Neighbour(i: int, d: Direction, x: int, y: int, n: int): int
    requires x > 0 && y > 0 && n > 0 && Spatial(d)
  {
    match d
    case Up => UpOf(i, x, y, n)
    case Down => DownOf(i, x, y, n)
    case North => NorthOf(i, x, y)
    case South => SouthOf(i, x, y)
    case East => EastOf(i, x)
    case West => WestOf(i, x)
  }

  // ------------------------------------------------ neighbours and coordinates

  /** The shape the builder's assertion establishes, for a non-empty torus. */
  predicate Shape(x: int, y: int, z: int, n: int)
  {
    x > 0 && y > 0 && z > 0 && n == x * y * z
  }

  /** A router's position within its layer, and its layer. */
  lemma RouterCoordinates(i: int, x: int, y: int, z: int, n: int)
    requires Shape(x, y, z, n) && 0 <= i < n
    ensures InTorus3D(i, x, y, z)
    ensures 0 <= ZOf3D(i, x, y) < z
    ensures i == Id3D(XOf(i, x), YOf3D(i, x, y), ZOf3D(i, x, y), x, y)
  {
    InTorus3DRange(i, x, y, z);
    Torus3DCoordinates(i, x, y, z);
    Id3DOfDecode(i, x, y);
  }

  /** The router at (cx, cy, cz), split into its offset within its layer
      and the start of its layer. */
  lemma AtCoordinates(cx: int, cy: int, cz: int, x: int, y: int, z: int, n: int)
    requires Shape(x, y, z, n) && 0 <= cx < x && 0 <= cy < y && 0 <= cz < z
    ensures var id := Id3D(cx, cy, cz, x, y);
      && 0 <= id < n && InTorus3D(id, x, y, z)
      && XOf(id, x) == cx && YOf3D(id, x, y) == cy && ZOf3D(id, x, y) == cz
    ensures 0 <= cx + cy * x < x * y
    ensures x * y <= n
  {
    Decode3DOfId(cx, cy, cz, x, y);
    MulMonotone(cy, y - 1, x);
    MulMonotone(0, cy, x);
    MulMonotone(0, cz, x * y);
    MulMonotone(1, z, x * y);
    InTorus3DRange(Id3D(cx, cy, cz, x, y), x, y, z);
  }

  /** The Up link keeps the layer position and moves one layer up, wrapping. */
  lemma UpCoordinates(i: int, x: int, y: int, z: int, n: int)
    requires Shape(x, y, z, n) && 0 <= i < n
    ensures UpOf(i, x, y, n) == Id3D(XOf(i, x), YOf3D(i, x, y), Next(ZOf3D(i, x, y), Higher, z), x, y)
  {
    RouterCoordinates(i, x, y, z, n);
    var cx, cy, cz := XOf(i, x), YOf3D(i, x, y), ZOf3D(i, x, y);
    var xy := x * y;
    AtCoordinates(cx, cy, cz, x, y, z, n);
    assert (cz + 1) * xy == cz * xy + xy;
    if cz + 1 < z {
      AtCoordinates(cx, cy, cz + 1, x, y, z, n);
      DivModUnique(i + xy, n, 0, i + xy);
    } else {
      assert n == z * xy;
      DivModUnique(i + xy, n, 1, cx + cy * x);
    }
  }

  /** The Down link keeps the layer position and moves one layer down, wrapping. */
  lemma DownCoordinates(i: int, x: int, y: int, z: int, n: int)
    requires Shape(x, y, z, n) && 0 <= i < n
    ensures DownOf(i, x, y, n) == Id3D(XOf(i, x), YOf3D(i, x, y), Next(ZOf3D(i, x, y), Lower, z), x, y)
  {
    RouterCoordinates(i, x, y, z, n);
    var cx, cy, cz := XOf(i, x), YOf3D(i, x, y), ZOf3D(i, x, y);
    var xy := x * y;
    AtCoordinates(cx, cy, cz, x, y, z, n);
    assert n == z * xy;
    if cz > 0 {
      assert (cz - 1) * xy == cz * xy - xy;
      AtCoordinates(cx, cy, cz - 1, x, y, z, n);
      DivModUnique(i + n - xy, n, 1, Id3D(cx, cy, cz - 1, x, y));
    } else {
      assert (z - 1) * xy == z * xy - xy;
      AtCoordinates(cx, cy, z - 1, x, y, z, n);
      DivModUnique(i + n - xy, n, 0, i + n - xy);
    }
  }

  /** The North link keeps the column and the layer and moves one row up,
      wrapping within the layer. */
  lemma NorthCoordinates(i: int, x: int, y: int, z: int, n: int)
    requires Shape(x, y, z, n) && 0 <= i < n
    ensures NorthOf(i, x, y) == Id3D(XOf(i, x), Next(YOf3D(i, x, y), Higher, y), ZOf3D(i, x, y), x, y)
  {
    RouterCoordinates(i, x, y, z, n);
    var cx, cy, cz := XOf(i, x), YOf3D(i, x, y), ZOf3D(i, x, y);
    var xy := x * y;
    AtCoordinates(cx, cy, cz, x, y, z, n);
    DivModUnique(i, xy, cz, cx + cy * x);
    assert (cy + 1) * x == cy * x + x;
    if cy + 1 < y {
      AtCoordinates(cx, cy + 1, cz, x, y, z, n);
      DivModUnique(i + x, xy, cz, cx + (cy + 1) * x);
    } else {
      assert (cz + 1) * xy == cz * xy + xy;
      DivModUnique(i + x, xy, cz + 1, cx);
    }
  }

  /** The South link keeps the column and the layer and moves one row
      down, wrapping within the layer. */
  lemma SouthCoordinates(i: int, x: int, y: int, z: int, n: int)
    requires Shape(x, y, z, n) && 0 <= i < n
    ensures SouthOf(i, x, y) == Id3D(XOf(i, x), Next(YOf3D(i, x, y), Lower, y), ZOf3D(i, x, y), x, y)
  {
    RouterCoordinates(i, x, y, z, n);
    var cx, cy, cz := XOf(i, x), YOf3D(i, x, y), ZOf3D(i, x, y);
    var xy := x * y;
    AtCoordinates(cx, cy, cz, x, y, z, n);
    DivModUnique(i, xy, cz, cx + cy * x);
    if cy > 0 {
      assert (cy - 1) * x == cy * x - x;
      AtCoordinates(cx, cy - 1, cz, x, y, z, n);
      assert (cz + 1) * xy == cz * xy + xy;
      DivModUnique(i - x + xy, xy, cz + 1, cx + (cy - 1) * x);
    } else {
      assert (y - 1) * x == xy - x;
      AtCoordinates(cx, y - 1, cz, x, y, z, n);
      DivModUnique(i - x + xy, xy, cz, cx + (y - 1) * x);
    }
  }

  /** The East link keeps the row and the layer and moves one column on,
      wrapping within the row. */
  lemma EastCoordinates(i: int, x: int, y: int, z: int, n: int)
    requires Shape(x, y, z, n) && 0 <= i < n
    ensures EastOf(i, x) == Id3D(Next(XOf(i, x), Higher, x), YOf3D(i, x, y), ZOf3D(i, x, y), x, y)
  {
    RouterCoordinates(i, x, y, z, n);
    var cx, cy, cz := XOf(i, x), YOf3D(i, x, y), ZOf3D(i, x, y);
    var row := cy + cz * y;
    assert i == cx + row * x by { assert cz * (x * y) == (cz * y) * x; }
    DivModUnique(i, x, row, cx);
    if cx + 1 < x {
      DivModUnique(i + 1, x, row, cx + 1);
    } else {
      assert (row + 1) * x == row * x + x;
      DivModUnique(i + 1, x, row + 1, 0);
    }
    assert cz * (x * y) == (cz * y) * x;
  }

  /** The West link keeps the row and the layer and moves one column back,
      wrapping within the row. */
  lemma WestCoordinates(i: int, x: int, y: int, z: int, n: int)
    requires Shape(x, y, z, n) && 0 <= i < n
    ensures WestOf(i, x) == Id3D(Next(XOf(i, x), Lower, x), YOf3D(i, x, y), ZOf3D(i, x, y), x, y)
  {
    RouterCoordinates(i, x, y, z, n);
    var cx, cy, cz := XOf(i, x), YOf3D(i, x, y), ZOf3D(i, x, y);
    var row := cy + cz * y;
    assert i == cx + row * x by { assert cz * (x * y) == (cz * y) * x; }
    DivModUnique(i, x, row, cx);
    if cx > 0 {
      assert (row + 1) * x == row * x + x;
      DivModUnique(i - 1 + x, x, row + 1, cx - 1);
    } else {
      DivModUnique(i - 1 + x, x, row, x - 1);
    }
    assert cz * (x * y) == (cz * y) * x;
  }

  /** The link in direction XDirection(s), YDirection(s) or ZDirection(s)
      takes one step in sense s along its own axis and keeps the other two
      coordinates: the builder's neighbours are those of the routing unit's
      3D coordinate decode. */
  lemma XStep(i: int, s: Sense, x: int, y: int, z: int, n: int)
    requires Shape(x, y, z, n) && 0 <= i < n && InTorus3D(i, x, y, z)
    ensures var j := Neighbour(i, XDirection(s), x, y, n);
      && 0 <= j < n && InTorus3D(j, x, y, z)
      && XOf(j, x) == Next(XOf(i, x), s, x)
      && YOf3D(j, x, y) == YOf3D(i, x, y) && ZOf3D(j, x, y) == ZOf3D(i, x, y)
  {
    RouterCoordinates(i, x, y, z, n);
    if s == Higher { EastCoordinates(i, x, y, z, n); } else { WestCoordinates(i, x, y, z, n); }
    AtCoordinates(Next(XOf(i, x), s, x), YOf3D(i, x, y), ZOf3D(i, x, y), x, y, z, n);
  }

  lemma YStep(i: int, s: Sense, x: int, y: int, z: int, n: int)
    requires Shape(x, y, z, n) && 0 <= i < n && InTorus3D(i, x, y, z)
    ensures var j := Neighbour(i, YDirection(s), x, y, n);
      && 0 <= j < n && InTorus3D(j, x, y, z)
      && XOf(j, x) == XOf(i, x)
      && YOf3D(j, x, y) == Next(YOf3D(i, x, y), s, y) && ZOf3D(j, x, y) == ZOf3D(i, x, y)
  {
    RouterCoordinates(i, x, y, z, n);
    if s == Higher { NorthCoordinates(i, x, y, z, n); } else { SouthCoordinates(i, x, y, z, n); }
    AtCoordinates(XOf(i, x), Next(YOf3D(i, x, y), s, y), ZOf3D(i, x, y), x, y, z, n);
  }

  lemma ZStep(i: int, s: Sense, x: int, y: int, z: int, n: int)
    requires Shape(x, y, z, n) && 0 <= i < n && InTorus3D(i, x, y, z)
    ensures var j := Neighbour(i, ZDirection(s), x, y, n);
      && 0 <= j < n && InTorus3D(j, x, y, z)
      && XOf(j, x) == XOf(i, x) && YOf3D(j, x, y) == YOf3D(i, x, y)
      && ZOf3D(j, x, y) == Next(ZOf3D(i, x, y), s, z)
  {
    RouterCoordinates(i, x, y, z, n);
    if s == Higher { UpCoordinates(i, x, y, z, n); } else { DownCoordinates(i, x, y, z, n); }
    AtCoordinates(XOf(i, x), YOf3D(i, x, y), Next(ZOf3D(i, x, y), s, z), x, y, z, n);
  }

  /** Two routers with the same coordinates are the same router. */
  lemma SameCoordinates(i: int, j: int, x: int, y: int, z: int, n: int)
    requires Shape(x, y, z, n) && 0 <= i < n && 0 <= j < n
    requires XOf(i, x) == XOf(j, x) && YOf3D(i, x, y) == YOf3D(j, x, y) && ZOf3D(i, x, y) == ZOf3D(j, x, y)
    ensures i == j
  {
    RouterCoordinates(i, x, y, z, n);
    RouterCoordinates(j, x, y, z, n);
  }

  /** Up and Down, North and South, East and West undo each other. */
  lemma NeighboursInverse(i: int, s: Sense, x: int, y: int, z: int, n: int)
    requires Shape(x, y, z, n) && 0 <= i < n
    ensures Neighbour(Neighbour(i, XDirection(s), x, y, n), XDirection(Reverse(s)), x, y, n) == i
    ensures Neighbour(Neighbour(i, YDirection(s), x, y, n), YDirection(Reverse(s)), x, y, n) == i
    ensures Neighbour(Neighbour(i, ZDirection(s), x, y, n), ZDirection(Reverse(s)), x, y, n) == i
  {
    RouterCoordinates(i, x, y, z, n);
    var cx, cy, cz := XOf(i, x), YOf3D(i, x, y), ZOf3D(i, x, y);
    XStep(i, s, x, y, z, n);
    var jx := Neighbour(i, XDirection(s), x, y, n);
    XStep(jx, Reverse(s), x, y, z, n);
    NextInverse(cx, s, x);
    SameCoordinates(Neighbour(jx, XDirection(Reverse(s)), x, y, n), i, x, y, z, n);
    YStep(i, s, x, y, z, n);
    var jy := Neighbour(i, YDirection(s), x, y, n);
    YStep(jy, Reverse(s), x, y, z, n);
    NextInverse(cy, s, y);
    SameCoordinates(Neighbour(jy, YDirection(Reverse(s)), x, y, n), i, x, y, z, n);
    ZStep(i, s, x, y, z, n);
    var jz := Neighbour(i, ZDirection(s), x, y, n);
    ZStep(jz, Reverse(s), x, y, z, n);
    NextInverse(cz, s, z);
    SameCoordinates(Neighbour(jz, ZDirection(Reverse(s)), x, y, n), i, x, y, z, n);
  }

  // ------------------------------------------------ the link list

  /** The links the loop for direction `d` adds for routers 0 .. k - 1. */
  function Block(base: int, k: nat, n: nat, x: int, y: int, d: Direction): (links: seq<IntLink>)
    requires k <= n && x > 0 && y > 0 && Spatial(d)
    ensures |links| == k
  {
    seq(k, i requires 0 <= i < k => IntLink(base + i, i, Neighbour(i, d, x, y, n), d, Opposite(d)))
  }

  /** The internal links: the Up, Down, North, South, East and West loops. */
  function IntLinks(n: nat, x: int, y: int, base: int): (links: seq<IntLink>)
    requires x > 0 && y > 0
    ensures |links| == 6 * n
  {
    Block(base, n, n, x, y, Up) + Block(base + n, n, n, x, y, Down)
    + Block(base + 2 * n, n, n, x, y, North) + Block(base + 3 * n, n, n, x, y, South)
    + Block(base + 4 * n, n, n, x, y, East) + Block(base + 5 * n, n, n, x, y, West)
  }

  /** Where the loop for `d` starts in the internal link list. */
  function BlockStart(d: Direction, n: nat): nat
    requires Spatial(d)
  {
    match d
    case Up => 0
    case Down => n
    case North => 2 * n
    case South => 3 * n
    case East => 4 * n
    case West => 5 * n
  }

  /** Link j of the internal list: from router j - BlockStart(d), out by d
      and in by the opposite, to that router's d neighbour, with id base + j. */
  lemma LinkAt(n: nat, x: int, y: int, base: int, j: int)
    requires x > 0 && y > 0 && 0 <= j < 6 * n
    ensures var l := IntLinks(n, x, y, base)[j];
      && Spatial(l.srcOutport)
      && j == BlockStart(l.srcOutport, n) + l.src
      && 0 <= l.src < n
      && l == IntLink(base + j, l.src, Neighbour(l.src, l.srcOutport, x, y, n), l.srcOutport, Opposite(l.srcOutport))
  {
    var b0, b1 := Block(base, n, n, x, y, Up), Block(base + n, n, n, x, y, Down);
    var b2, b3 := Block(base + 2 * n, n, n, x, y, North), Block(base + 3 * n, n, n, x, y, South);
    var b4, b5 := Block(base + 4 * n, n, n, x, y, East), Block(base + 5 * n, n, n, x, y, West);
    var links := IntLinks(n, x, y, base);
    assert links == b0 + b1 + b2 + b3 + b4 + b5;
    if j < n {
      assert links[j] == b0[j];
    } else if j < 2 * n {
      assert links[j] == b1[j - n];
    } else if j < 3 * n {
      assert links[j] == b2[j - 2 * n];
    } else if j < 4 * n {
      assert links[j] == b3[j - 3 * n];
    } else if j < 5 * n {
      assert links[j] == b4[j - 4 * n];
    } else {
      assert links[j] == b5[j - 5 * n];
    }
  }

  /** There is exactly one link per router and direction: the link out of
      router i by d is number BlockStart(d) + i. */
  lemma OneLinkPerRouterDirection(n: nat, x: int, y: int, base: int, i: int, d: Direction, j: int)
    requires x > 0 && y > 0 && 0 <= i < n && Spatial(d) && 0 <= j < 6 * n
    ensures var l := IntLinks(n, x, y, base)[j];
      l.src == i && l.srcOutport == d <==> j == BlockStart(d, n) + i
  {
    LinkAt(n, x, y, base, j);
  }

  /** The loop for direction `d`: one link per router, numbered on from
      `linkCount`. */
  method AddBlock(intLinks: seq<IntLink>, linkCount: int, n: nat, x: int, y: int, d: Direction)
    returns (links: seq<IntLink>, count: int)
    requires x > 0 && y > 0 && Spatial(d)
    ensures links == intLinks + Block(linkCount, n, n, x, y, d)
    ensures count == linkCount + n
  {
    links, count := intLinks, linkCount;
    var i := 0;
    while i < n
      invariant 0 <= i <= n
      invariant count == linkCount + i
      invariant links == intLinks + Block(linkCount, i, n, x, y, d)
    {
      var next := Neighbour(i, d, x, y, n);
      links := links + [IntLink(count, i, next, d, Opposite(d))];
      count := count + 1;
      i := i + 1;
      assert Block(linkCount, i, n, x, y, d) == Block(linkCount, i - 1, n, x, y, d) + [links[|links| - 1]];
    }
  }

  /** The six loops of internal links, one after the other. */
  method AddIntLinks(linkCount: int, n: nat, x: int, y: int) returns (links: seq<IntLink>, count: int)
    requires x > 0 && y > 0
    ensures links == IntLinks(n, x, y, linkCount)
    ensures count == linkCount + 6 * n
  {
    links, count := [], linkCount;
    links, count := AddBlock(links, count, n, x, y, Up);
    assert links == Block(linkCount, n, n, x, y, Up);
    links, count := AddBlock(links, count, n, x, y, Down);
    links, count := AddBlock(links, count, n, x, y, North);
    links, count := AddBlock(links, count, n, x, y, South);
    links, count := AddBlock(links, count, n, x, y, East);
    links, count := AddBlock(links, count, n, x, y, West);
  }

  /** The internal links are numbered on from `base` and each arrives on
      the inport opposite to its outport. */
  lemma IntLinksNumbered(n: nat, x: int, y: int, base: int)
    requires x > 0 && y > 0
    ensures forall j :: 0 <= j < 6 * n ==> IntLinks(n, x, y, base)[j].linkId == base + j
    ensures Mirrored(IntLinks(n, x, y, base))
  {
    forall j | 0 <= j < 6 * n
      ensures IntLinks(n, x, y, base)[j].linkId == base + j
      ensures IntLinks(n, x, y, base)[j].dstInport == Opposite(IntLinks(n, x, y, base)[j].srcOutport)
    {
      LinkAt(n, x, y, base, j);
    }
  }

  /** `makeTopology`. Extents whose product is not the router count fail
      the assertion; with no routers, dealing out a controller divides by
      zero. Otherwise the controllers' links come first, then the six loops
      of internal links, all numbered by `link_count`. */
  method MakeTopology(numNodes: nat, numRouters: nat, xLength: nat, yLength: nat, zLength: nat)
    returns (res: Result<Topology, TopologyError>)
    ensures res == Err(SizeMismatch) <==> xLength * yLength * zLength != numRouters
    ensures res == Err(DivisionByZero) <==>
      xLength * yLength * zLength == numRouters && numRouters == 0 && numNodes > 0
    ensures res != Err(ZeroRows)
    ensures res.Ok? && numRouters > 0 ==> Shape(xLength, yLength, zLength, numRouters)
    ensures res.Ok? ==> res.value.extLinks == ExtLinks(numNodes, numRouters)
    ensures res.Ok? && numRouters > 0 ==>
      res.value.intLinks == IntLinks(numRouters, xLength, yLength, numNodes)
    ensures res.Ok? && numRouters == 0 ==> res.value.intLinks == []
    ensures res.Ok? ==> Numbered(res.value) && Mirrored(res.value.intLinks)
  {
    if xLength * yLength * zLength != numRouters {
      return Err(SizeMismatch);
    }
    if numRouters == 0 && numNodes > 0 {
      return Err(DivisionByZero);
    }
    var extLinks, linkCount := MakeExtLinks(numNodes, numRouters);
    if numRouters == 0 {
      return Ok(Topology(extLinks, []));
    }
    assert xLength > 0 && yLength > 0 && zLength > 0;
    var intLinks;
    intLinks, linkCount := AddIntLinks(linkCount, numRouters, xLength, yLength);
    IntLinksNumbered(numRouters, xLength, yLength, numNodes);
    return Ok(Topology(extLinks, intLinks));
  }

  // ------------------------------------------------ routing over the links

  /** The direction a 3D torus router picks: `outportComputeTorus3DDeteministic`,
      or `outportComputeTorus3DShortXY` when `shortest`. */
  function Choice(my: int, dest: int, x: int, y: int, z: int, shortest: bool): (d: Direction)
    requires InTorus3D(my, x, y, z) && InTorus3D(dest, x, y, z) && my != dest
    ensures Spatial(d)
  {
    if shortest then Torus3DShortXY(my, dest, x, y, z) else Torus3DDeterministic(my, dest, x, y, z)
  }

  /** The hops left on the three axes when each is travelled in the sense
      the algorithm picks for it. */
  function Distance(my: int, dest: int, x: int, y: int, z: int, shortest: bool): nat
    requires InTorus3D(my, x, y, z) && InTorus3D(dest, x, y, z)
  {
    Torus3DCoordinates(my, x, y, z);
    Torus3DCoordinates(dest, x, y, z);
    AxisHops(XOf(my, x), XOf(dest, x), x, shortest)
    + AxisHops(YOf3D(my, x, y), YOf3D(dest, x, y), y, shortest)
    + AxisHops(ZOf3D(my, x, y), ZOf3D(dest, x, y), z, shortest)
  }

  /** The router a packet for `dest` moves to from `my`: the far end of
      the link the algorithm picks, a router of the torus. */
  function NextRouter(my: int, dest: int, x: int, y: int, z: int, n: int, shortest: bool): (j: int)
    requires Shape(x, y, z, n) && 0 <= my < n && 0 <= dest < n && my != dest
    requires InTorus3D(my, x, y, z) && InTorus3D(dest, x, y, z)
    ensures j == Neighbour(my, Choice(my, dest, x, y, z, shortest), x, y, n)
    ensures 0 <= j < n && InTorus3D(j, x, y, z)
  {
    Torus3DPair(my, dest, x, y, z);
    Torus3DCoordinates(my, x, y, z);
    var cx, cy, cz := XOf(my, x), YOf3D(my, x, y), ZOf3D(my, x, y);
    var dx, dy, dz := XOf(dest, x), YOf3D(dest, x, y), ZOf3D(dest, x, y);
    if cx != dx then
      XStep(my, AxisSense(cx, dx, x, shortest), x, y, z, n);
      Neighbour(my, Choice(my, dest, x, y, z, shortest), x, y, n)
    else if cy != dy then
      YStep(my, AxisSense(cy, dy, y, shortest), x, y, z, n);
      Neighbour(my, Choice(my, dest, x, y, z, shortest), x, y, n)
    else
      ZStep(my, AxisSense(cz, dz, z, shortest), x, y, z, n);
      Neighbour(my, Choice(my, dest, x, y, z, shortest), x, y, n)
  }

  /** The hop `NextRouter` describes is a link the builder made: the link
      out of `my` by the chosen direction, number BlockStart(d) + my, leads
      to the next router and arrives on the opposite inport. */
  lemma StepIsLink(my: int, dest: int, x: int, y: int, z: int, n: int, shortest: bool, base: int)
    requires Shape(x, y, z, n) && 0 <= my < n && 0 <= dest < n && my != dest
    requires InTorus3D(my, x, y, z) && InTorus3D(dest, x, y, z)
    ensures var d := Choice(my, dest, x, y, z, shortest);
      var j := BlockStart(d, n) + my;
      && 0 <= j < 6 * n
      && var l := IntLinks(n, x, y, base)[j];
      && l.src == my && l.srcOutport == d
      && l.dst == NextRouter(my, dest, x, y, z, n, shortest) && l.dstInport == Opposite(d)
  {
    var d := Choice(my, dest, x, y, z, shortest);
    LinkAt(n, x, y, base, BlockStart(d, n) + my);
    OneLinkPerRouterDirection(n, x, y, base, my, d, BlockStart(d, n) + my);
  }

  /** The router the packet moves to is one hop closer to `dest`. */
  lemma StepCloser(my: int, dest: int, x: int, y: int, z: int, n: int, shortest: bool)
    requires Shape(x, y, z, n) && 0 <= my < n && 0 <= dest < n && my != dest
    requires InTorus3D(my, x, y, z) && InTorus3D(dest, x, y, z)
    ensures Distance(NextRouter(my, dest, x, y, z, n, shortest), dest, x, y, z, shortest)
         == Distance(my, dest, x, y, z, shortest) - 1
  {
    Torus3DPair(my, dest, x, y, z);
    Torus3DCoordinates(my, x, y, z);
    var cx, cy, cz := XOf(my, x), YOf3D(my, x, y), ZOf3D(my, x, y);
    var dx, dy, dz := XOf(dest, x), YOf3D(dest, x, y), ZOf3D(dest, x, y);
    if cx != dx {
      XStep(my, AxisSense(cx, dx, x, shortest), x, y, z, n);
      AxisStep(cx, dx, x, shortest);
    } else if cy != dy {
      YStep(my, AxisSense(cy, dy, y, shortest), x, y, z, n);
      AxisStep(cy, dy, y, shortest);
    } else {
      ZStep(my, AxisSense(cz, dz, z, shortest), x, y, z, n);
      AxisStep(cz, dz, z, shortest);
    }
  }

  /** The routers a packet visits after `my` when every router on the way
      sends it over the link its routing algorithm picks: the walk ends at
      `dest`. */
  function Walk(my: int, dest: int, x: int, y: int, z: int, n: int, shortest: bool): (r: seq<int>)
    requires Shape(x, y, z, n) && 0 <= my < n && 0 <= dest < n
    requires InTorus3D(my, x, y, z) && InTorus3D(dest, x, y, z)
    ensures r == [] <==> my == dest
    ensures r != [] ==> r[|r| - 1] == dest
    decreases Distance(my, dest, x, y, z, shortest)
  {
    if my == dest then []
    else
      var j := NextRouter(my, dest, x, y, z, n, shortest);
      StepCloser(my, dest, x, y, z, n, shortest);
      [j] + Walk(j, dest, x, y, z, n, shortest)
  }

  /** The walk takes exactly `Distance` hops. */
  lemma {:induction false} WalkLength(my: int, dest: int, x: int, y: int, z: int, n: int, shortest: bool)
    requires Shape(x, y, z, n) && 0 <= my < n && 0 <= dest < n
    requires InTorus3D(my, x, y, z) && InTorus3D(dest, x, y, z)
    ensures |Walk(my, dest, x, y, z, n, shortest)| == Distance(my, dest, x, y, z, shortest)
    decreases Distance(my, dest, x, y, z, shortest)
  {
    if my != dest {
      var j := NextRouter(my, dest, x, y, z, n, shortest);
      StepCloser(my, dest, x, y, z, n, shortest);
      WalkLength(j, dest, x, y, z, n, shortest);
    }
  }

  /** Every router of the walk is a router of the torus; the first one is
      where `my` sends the packet, and each later one is where the router
      before it, not yet the destination, sends it. */
  lemma {:induction false} WalkAt(my: int, dest: int, x: int, y: int, z: int, n: int, shortest: bool, i: int)
    requires Shape(x, y, z, n) && 0 <= my < n && 0 <= dest < n
    requires InTorus3D(my, x, y, z) && InTorus3D(dest, x, y, z)
    requires 0 <= i < |Walk(my, dest, x, y, z, n, shortest)|
    decreases |Walk(my, dest, x, y, z, n, shortest)|
    ensures var r := Walk(my, dest, x, y, z, n, shortest);
      && 0 <= r[i] < n && InTorus3D(r[i], x, y, z)
      && (i == 0 ==> my != dest && r[0] == NextRouter(my, dest, x, y, z, n, shortest))
      && (i + 1 < |r| ==> r[i] != dest && r[i + 1] == NextRouter(r[i], dest, x, y, z, n, shortest))
  {
    var j := NextRouter(my, dest, x, y, z, n, shortest);
    var rest := Walk(j, dest, x, y, z, n, shortest);
    var r := Walk(my, dest, x, y, z, n, shortest);
    assert r == [j] + rest;
    if i == 0 {
      assert r[0] == j;
      if rest != [] {
        WalkAt(j, dest, x, y, z, n, shortest, 0);
        assert r[1] == rest[0];
      }
    } else {
      WalkAt(j, dest, x, y, z, n, shortest, i - 1);
      assert r[i] == rest[i - 1];
      if i + 1 < |r| {
        assert r[i + 1] == rest[i];
      }
    }
  }

  /** ShortXYZ never needs more hops than the deterministic algorithm, and
      on each axis it needs min(d, len - d) for the leftward distance d. */
  lemma ShortestNoLonger(my: int, dest: int, x: int, y: int, z: int)
    requires InTorus3D(my, x, y, z) && InTorus3D(dest, x, y, z)
    ensures Distance(my, dest, x, y, z, true) <= Distance(my, dest, x, y, z, false)
    ensures Distance(my, dest, x, y, z, true) ==
        MinHops(XOf(my, x), XOf(dest, x), x) + MinHops(YOf3D(my, x, y), YOf3D(dest, x, y), y)
        + MinHops(ZOf3D(my, x, y), ZOf3D(dest, x, y), z)
  {
    Torus3DCoordinates(my, x, y, z);
    Torus3DCoordinates(dest, x, y, z);
    var cx, cy, cz := XOf(my, x), YOf3D(my, x, y), ZOf3D(my, x, y);
    var dx, dy, dz := XOf(dest, x), YOf3D(dest, x, y), ZOf3D(dest, x, y);
    AxisShortest(cx, dx, x);
    AxisShortest(cy, dy, y);
    AxisShortest(cz, dz, z);
  }
}
