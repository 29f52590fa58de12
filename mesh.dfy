/** XY routing over a mesh: the routers form `rows` rows of `cols`, with no
    wrap-around links. The neighbours follow the XY routine's own
    coordinate decode: East and West change the column by one, North and
    South change the row by one, with North raising it. Following the XY
    choice from router to router, each hop arriving on the inport
    opposite to the outport it left by, reaches the destination in
    |dx| + |dy| hops, and no router on the way meets an inport its
    assertions forbid. */
module MeshRouting {
  import opened Wrappers
  import opened Directions
  import opened Coordinates
  import opened RoutingTable
  import opened Algorithms

  /** A router of a mesh of `rows` rows of `cols` routers. */
  predicate InMesh(id: int, rows: int, cols: int)
  {
    rows > 0 && cols > 0 && 0 <= id && YOf2D(id, cols) < rows
  }

  predicate Planar(d: Direction)
  {
    d == North || d == South || d == East || d == West
  }

  /** The router one hop from `id` in direction `d`. */
  function Neighbour(id: int, d: Direction, cols: int): int
    requires Planar(d)
  {
    match d
    case East => id + 1
    case West => id - 1
    case North => id + cols
    case South => id - cols
  }

  function Abs(a: int): nat
  {
    if a < 0 then -a else a
  }

  /** The hops the XY route takes: the column difference plus the row
      difference. */
  function Distance(my: int, dest: int, cols: int): nat
    requires cols > 0
  {
    Abs(XOf(dest, cols) - XOf(my, cols)) + Abs(YOf2D(dest, cols) - YOf2D(my, cols))
  }

  /** Moving to column `nx` within the row keeps the row. */
  lemma ColumnMove(my: int, nx: int, cols: int)
    requires cols > 0 && my >= 0 && 0 <= nx < cols
    ensures var j := my + (nx - XOf(my, cols));
      XOf(j, cols) == nx && YOf2D(j, cols) == YOf2D(my, cols)
  {
    Id2DOfDecode(my, cols);
    Decode2DOfId(nx, YOf2D(my, cols), cols);
  }

  /** Moving to row `ny` within the column keeps the column. */
  lemma RowMove(my: int, ny: int, cols: int)
    requires cols > 0 && my >= 0
    ensures var j := my + (ny - YOf2D(my, cols)) * cols;
      XOf(j, cols) == XOf(my, cols) && YOf2D(j, cols) == ny
  {
    var x, y := XOf(my, cols), YOf2D(my, cols);
    Id2DOfDecode(my, cols);
    assert my + (ny - y) * cols == Id2D(x, ny, cols) by {
      assert (ny - y) * cols == ny * cols - y * cols;
    }
    Decode2DOfId(x, ny, cols);
  }

  /** A hop along X: the next router is one column nearer `dest`, in the
      same row, and accepts the packet on the inport opposite to `d`. */
  lemma StepX(my: int, dest: int, rows: int, cols: int, d: Direction)
    requires InMesh(my, rows, cols) && InMesh(dest, rows, cols)
    requires XOf(my, cols) != XOf(dest, cols)
    requires d == if XOf(dest, cols) > XOf(my, cols) then East else West
    ensures var j := Neighbour(my, d, cols);
      && InMesh(j, rows, cols)
      && Distance(j, dest, cols) == Distance(my, dest, cols) - 1
      && (j != dest ==> XYDirection(j, dest, rows, cols, Opposite(d)).Ok?)
  {
    var x, dx := XOf(my, cols), XOf(dest, cols);
    var nx := if dx > x then x + 1 else x - 1;
    ColumnMove(my, nx, cols);
    var j := Neighbour(my, d, cols);
    assert j == my + (nx - x);
    if j != dest {
      assert j >= 0 && dest >= 0;
      assert XYDirection(j, dest, rows, cols, Opposite(d)).Ok?;
    }
  }

  /** A hop along Y, once the columns agree: the next router is one row
      nearer `dest`, in the same column, and accepts the packet on the
      inport opposite to `d`. */
  lemma StepY(my: int, dest: int, rows: int, cols: int, d: Direction)
    requires InMesh(my, rows, cols) && InMesh(dest, rows, cols)
    requires XOf(my, cols) == XOf(dest, cols) && YOf2D(my, cols) != YOf2D(dest, cols)
    requires d == if YOf2D(dest, cols) > YOf2D(my, cols) then North else South
    ensures var j := Neighbour(my, d, cols);
      && InMesh(j, rows, cols)
      && Distance(j, dest, cols) == Distance(my, dest, cols) - 1
      && (j != dest ==> XYDirection(j, dest, rows, cols, Opposite(d)).Ok?)
  {
    var y, dy := YOf2D(my, cols), YOf2D(dest, cols);
    var ny := if dy > y then y + 1 else y - 1;
    RowMove(my, ny, cols);
    var j := Neighbour(my, d, cols);
    assert j == my + (ny - y) * cols;
    assert j >= 0 by {
      Id2DOfDecode(j, cols);
      MulMonotone(0, ny, cols);
    }
    if j != dest {
      assert XYDirection(j, dest, rows, cols, Opposite(d)).Ok?;
    }
  }

  /** One hop of the XY route: the router `my` sends the packet, which came
      in on `inDirn`, over direction `d` to a router of the mesh one hop
      closer to `dest`; that router, if not `dest`, accepts the packet on
      the inport opposite to `d`. */
  lemma Step(my: int, dest: int, rows: int, cols: int, inDirn: Direction)
    requires InMesh(my, rows, cols) && InMesh(dest, rows, cols) && my != dest
    requires XYDirection(my, dest, rows, cols, inDirn).Ok?
    ensures var d := XYDirection(my, dest, rows, cols, inDirn).value;
      var j := Neighbour(my, d, cols);
      && Planar(d)
      && InMesh(j, rows, cols)
      && Distance(j, dest, cols) == Distance(my, dest, cols) - 1
      && (j != dest ==> XYDirection(j, dest, rows, cols, Opposite(d)).Ok?)
  {
    var d := XYDirection(my, dest, rows, cols, inDirn).value;
    if XOf(my, cols) != XOf(dest, cols) {
      StepX(my, dest, rows, cols, d);
    } else {
      StepY(my, dest, rows, cols, d);
    }
  }

  /** A hop of the route: the router reached and the inport it is reached on. */
  datatype Hop = Hop(router: int, inport: Direction)

  /** The hops of a packet that is at `my`, having come in on `inDirn`,
      when every router on the way forwards it by the XY choice. */
  function Walk(my: int, dest: int, rows: int, cols: int, inDirn: Direction): (r: seq<Hop>)
    requires InMesh(my, rows, cols) && InMesh(dest, rows, cols)
    requires my != dest ==> XYDirection(my, dest, rows, cols, inDirn).Ok?
    ensures r == [] <==> my == dest
    ensures r != [] ==> r[|r| - 1].router == dest
    ensures |r| == Distance(my, dest, cols)
    decreases Distance(my, dest, cols)
  {
    if my == dest then []
    else
      var d := XYDirection(my, dest, rows, cols, inDirn).value;
      Step(my, dest, rows, cols, inDirn);
      var j := Neighbour(my, d, cols);
      [Hop(j, Opposite(d))] + Walk(j, dest, rows, cols, Opposite(d))
  }

  /** Hop i of the walk is a router of the mesh. The first hop is where
      `my` sends the packet; each later hop is where the router of the hop
      before sends it, by the XY choice for the inport the packet arrived
      on, which is never a forbidden turn, and the packet arrives on the
      inport opposite to the direction it left by. */
  lemma {:induction false} WalkAt(my: int, dest: int, rows: int, cols: int, inDirn: Direction, i: int)
    requires InMesh(my, rows, cols) && InMesh(dest, rows, cols)
    requires my != dest ==> XYDirection(my, dest, rows, cols, inDirn).Ok?
    requires 0 <= i < |Walk(my, dest, rows, cols, inDirn)|
    decreases |Walk(my, dest, rows, cols, inDirn)|
    ensures var r := Walk(my, dest, rows, cols, inDirn);
      && InMesh(r[i].router, rows, cols)
      && (i == 0 ==>
            && my != dest
            && var d := XYDirection(my, dest, rows, cols, inDirn).value;
            && Planar(d) && r[0] == Hop(Neighbour(my, d, cols), Opposite(d)))
      && (i + 1 < |r| ==>
            && r[i].router != dest
            && XYDirection(r[i].router, dest, rows, cols, r[i].inport).Ok?
            && var d := XYDirection(r[i].router, dest, rows, cols, r[i].inport).value;
            && Planar(d) && r[i + 1] == Hop(Neighbour(r[i].router, d, cols), Opposite(d)))
  {
    var d := XYDirection(my, dest, rows, cols, inDirn).value;
    Step(my, dest, rows, cols, inDirn);
    var j := Neighbour(my, d, cols);
    var rest := Walk(j, dest, rows, cols, Opposite(d));
    var r := Walk(my, dest, rows, cols, inDirn);
    assert r == [Hop(j, Opposite(d))] + rest;
    if i == 0 {
      if rest != [] {
        WalkAt(j, dest, rows, cols, Opposite(d), 0);
        assert r[1] == rest[0];
      }
    } else {
      WalkAt(j, dest, rows, cols, Opposite(d), i - 1);
      assert r[i] == rest[i - 1];
      if i + 1 < |r| {
        assert r[i + 1] == rest[i];
      }
    }
  }

  /** A packet injected at `my` on the Local inport for another router of
      the mesh is accepted there; the XY route reaches `dest` after exactly
      |dx| + |dy| hops, and every router before `dest` accepts the packet
      on the inport it arrives on. */
  lemma RouteReachesDestination(my: int, dest: int, rows: int, cols: int)
    requires InMesh(my, rows, cols) && InMesh(dest, rows, cols) && my != dest
    ensures XYDirection(my, dest, rows, cols, Local).Ok?
    ensures var r := Walk(my, dest, rows, cols, Local);
      && |r| == Abs(XOf(dest, cols) - XOf(my, cols)) + Abs(YOf2D(dest, cols) - YOf2D(my, cols))
      && r[|r| - 1].router == dest
      && forall i :: 0 <= i < |r| - 1 ==>
           && InMesh(r[i].router, rows, cols) && r[i].router != dest
           && XYDirection(r[i].router, dest, rows, cols, r[i].inport).Ok?
  {
    var r := Walk(my, dest, rows, cols, Local);
    forall i | 0 <= i < |r| - 1
      ensures InMesh(r[i].router, rows, cols) && r[i].router != dest
      ensures XYDirection(r[i].router, dest, rows, cols, r[i].inport).Ok?
    {
      WalkAt(my, dest, rows, cols, Local, i);
    }
  }
}
