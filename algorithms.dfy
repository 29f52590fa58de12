/** The routing algorithms of the routing unit, as functions from the
    current router, the destination router, the network's shape and the
    inport direction to the outport direction. The routing unit turns the
    direction into a port index through its direction map. */
module Algorithms {
  import opened Wrappers
  import opened Directions
  import opened Coordinates
  import opened AxisRouting
  import opened RoutingTable

  function XDirection(s: Sense): Direction { if s == Lower then West else East }
  function YDirection(s: Sense): Direction { if s == Lower then South else North }
  function ZDirection(s: Sense): Direction { if s == Lower then Down else Up }
  function RingDirectionOf(s: Sense): Direction { if s == Lower then Left else Right }

  // ---------------------------------------------------------------- mesh XY

  /** `outportComputeXY`: dimension-order routing on a mesh of `rows` rows
      that hold `cols` routers each. A mesh without rows or columns fails
      the routine's first assertion. X is corrected first, East exactly
      when the destination column is greater; Y only once the columns
      agree, North exactly when the destination row is greater. An inport
      that the source's assertions rule out is an error. */
  function XYDirection(my: int, dest: int, rows: int, cols: int, inDirn: Direction)
    : (r: Result<Direction, RoutingError>)
    requires my >= 0 && dest >= 0 && my != dest
    ensures rows <= 0 || cols <= 0 <==> r == Err(EmptyMesh)
    ensures r.Err? ==> r.error == EmptyMesh || r.error == IllegalTurn
    ensures rows > 0 && cols > 0 && XOf(my, cols) != XOf(dest, cols) && r.Ok? ==>
      r.value == (if XOf(dest, cols) > XOf(my, cols) then East else West)
    ensures rows > 0 && cols > 0 && XOf(my, cols) == XOf(dest, cols) && r.Ok? ==>
      YOf2D(my, cols) != YOf2D(dest, cols) &&
      r.value == (if YOf2D(dest, cols) > YOf2D(my, cols) then North else South)
    ensures rows > 0 && cols > 0 ==> (r.Err? <==>
      if XOf(my, cols) != XOf(dest, cols) then
        inDirn != Local && inDirn != (if XOf(dest, cols) > XOf(my, cols) then West else East)
      else
        inDirn == (if YOf2D(dest, cols) > YOf2D(my, cols) then North else South))
  {
    if !(rows > 0 && cols > 0) then Err(EmptyMesh)
    else
    var myX, myY := my % cols, my / cols;
    var destX, destY := dest % cols, dest / cols;
    if destX != myX then
      if destX > myX then
        if inDirn == Local || inDirn == West then Ok(East) else Err(IllegalTurn)
      else
        if inDirn == Local || inDirn == East then Ok(West) else Err(IllegalTurn)
    else
      Id2DOfDecode(my, cols);
      Id2DOfDecode(dest, cols);
      assert destY != myY;
      if destY > myY then
        if inDirn != North then Ok(North) else Err(IllegalTurn)
      else
        if inDirn != South then Ok(South) else Err(IllegalTurn)
  }

  // ---------------------------------------------------------------- ring

  /** `outportComputeRing`: a flit that came in from the Left keeps going
      Right and one from the Right keeps going Left; an injected flit takes
      the deterministic axis rule over the whole ring. */
  function RingDirection(my: int, dest: int, n: int, inDirn: Direction): (d: Direction)
    requires 0 <= my < n && 0 <= dest < n
    ensures d == Left || d == Right
    ensures inDirn == Right ==> d == Left
    ensures inDirn == Left ==> d == Right
    ensures inDirn != Left && inDirn != Right ==>
      d == RingDirectionOf(DeterministicSense(my, dest, n))
  {
    if inDirn == Right then Left
    else if inDirn == Left then Right
    else if LeftDistance(my, dest, n) * 2 <= n then
      if dest < my || dest == n - 1 then Left else Right
    else
      if dest > my || dest == 0 then Right else Left
  }

  // ---------------------------------------------------------------- torus

  /** A router of an `xl` by `yl` torus: its decoded row is one of the
      `yl` rows (equivalently, 0 <= id < xl * yl; see `InTorus2DRange`). */
  predicate InTorus2D(id: int, xl: int, yl: int)
  {
    xl > 0 && yl > 0 && 0 <= id && YOf2D(id, xl) < yl
  }

  /** A router of an `xl` by `yl` by `zl` torus: its decoded layer is one
      of the `zl` layers (equivalently, 0 <= id < xl * yl * zl). */
  predicate InTorus3D(id: int, xl: int, yl: int, zl: int)
  {
    xl > 0 && yl > 0 && zl > 0 && 0 <= id && ZOf3D(id, xl, yl) < zl
  }

  lemma InTorus2DRange(id: int, xl: int, yl: int)
    requires xl > 0 && yl > 0
    ensures InTorus2D(id, xl, yl) <==> 0 <= id < xl * yl
    ensures InTorus2D(id, xl, yl) ==> 0 <= YOf2D(id, xl)
  {
    if id >= 0 { Range2D(id, xl, yl); }
  }

  lemma InTorus3DRange(id: int, xl: int, yl: int, zl: int)
    requires xl > 0 && yl > 0 && zl > 0
    ensures InTorus3D(id, xl, yl, zl) <==> 0 <= id < xl * yl * zl
    ensures InTorus3D(id, xl, yl, zl) ==> 0 <= ZOf3D(id, xl, yl)
  {
    if id >= 0 {
      assert xl * yl > 0;
      Range2D(id, xl * yl, zl);
      assert xl * yl * zl == (xl * yl) * zl;
    }
  }

  lemma Torus2DCoordinates(id: int, xl: int, yl: int)
    requires InTorus2D(id, xl, yl)
    ensures 0 <= YOf2D(id, xl) < yl
  {
    InTorus2DRange(id, xl, yl);
  }

  lemma Torus3DCoordinates(id: int, xl: int, yl: int, zl: int)
    requires InTorus3D(id, xl, yl, zl)
    ensures 0 <= ZOf3D(id, xl, yl) < zl
  {
    InTorus3DRange(id, xl, yl, zl);
  }

  /** Two routers of a 2D torus with the same coordinates are the same router. */
  lemma Torus2DDistinct(my: int, dest: int, xl: int)
    requires xl > 0 && my != dest
    ensures XOf(my, xl) != XOf(dest, xl) || YOf2D(my, xl) != YOf2D(dest, xl)
  {
    Id2DOfDecode(my, xl);
    Id2DOfDecode(dest, xl);
  }

  lemma Torus3DDistinct(my: int, dest: int, xl: int, yl: int)
    requires xl > 0 && yl > 0 && my != dest
    ensures || XOf(my, xl) != XOf(dest, xl)
            || YOf3D(my, xl, yl) != YOf3D(dest, xl, yl)
            || ZOf3D(my, xl, yl) != ZOf3D(dest, xl, yl)
  {
    Id3DOfDecode(my, xl, yl);
    Id3DOfDecode(dest, xl, yl);
  }

  /** `outportComputeTorus2DDeteministic`: X is resolved before Y, each
      with the deterministic axis rule. */
  function Torus2DDeterministic(my: int, dest: int, xl: int, yl: int): (d: Direction)
    requires InTorus2D(my, xl, yl) && InTorus2D(dest, xl, yl) && my != dest
    ensures XOf(my, xl) != XOf(dest, xl) ==>
      d == XDirection(DeterministicSense(XOf(my, xl), XOf(dest, xl), xl))
    ensures XOf(my, xl) == XOf(dest, xl) ==>
      YOf2D(my, xl) != YOf2D(dest, xl) &&
      d == YDirection(DeterministicSense(YOf2D(my, xl), YOf2D(dest, xl), yl))
  {
    Torus2DCoordinates(my, xl, yl);
    Torus2DCoordinates(dest, xl, yl);
    Torus2DDistinct(my, dest, xl);
    var myX, myY := XOf(my, xl), YOf2D(my, xl);
    var destX, destY := XOf(dest, xl), YOf2D(dest, xl);
    if destX != myX then XDirection(DeterministicSense(myX, destX, xl))
    else YDirection(DeterministicSense(myY, destY, yl))
  }

  /** What the 3D routing functions need of the decode of two routers. */
  lemma Torus3DPair(my: int, dest: int, xl: int, yl: int, zl: int)
    requires InTorus3D(my, xl, yl, zl) && InTorus3D(dest, xl, yl, zl) && my != dest
    ensures 0 <= ZOf3D(my, xl, yl) < zl && 0 <= ZOf3D(dest, xl, yl) < zl
    ensures || XOf(my, xl) != XOf(dest, xl)
            || YOf3D(my, xl, yl) != YOf3D(dest, xl, yl)
            || ZOf3D(my, xl, yl) != ZOf3D(dest, xl, yl)
  {
    Torus3DCoordinates(my, xl, yl, zl);
    Torus3DCoordinates(dest, xl, yl, zl);
    Torus3DDistinct(my, dest, xl, yl);
  }

  /** `outportComputeTorus3DDeteministic`: X, then Y, then Z. */
  function Torus3DDeterministic(my: int, dest: int, xl: int, yl: int, zl: int): (d: Direction)
    requires InTorus3D(my, xl, yl, zl) && InTorus3D(dest, xl, yl, zl) && my != dest
    ensures XOf(my, xl) != XOf(dest, xl) ==>
      d == XDirection(DeterministicSense(XOf(my, xl), XOf(dest, xl), xl))
    ensures XOf(my, xl) == XOf(dest, xl) && YOf3D(my, xl, yl) != YOf3D(dest, xl, yl) ==>
      d == YDirection(DeterministicSense(YOf3D(my, xl, yl), YOf3D(dest, xl, yl), yl))
    ensures XOf(my, xl) == XOf(dest, xl) && YOf3D(my, xl, yl) == YOf3D(dest, xl, yl) ==>
      ZOf3D(my, xl, yl) != ZOf3D(dest, xl, yl) &&
      d == ZDirection(DeterministicSense(ZOf3D(my, xl, yl), ZOf3D(dest, xl, yl), zl))
  {
    Torus3DPair(my, dest, xl, yl, zl);
    var myX, myY, myZ := XOf(my, xl), YOf3D(my, xl, yl), ZOf3D(my, xl, yl);
    var destX, destY, destZ := XOf(dest, xl), YOf3D(dest, xl, yl), ZOf3D(dest, xl, yl);
    if destX != myX then XDirection(DeterministicSense(myX, destX, xl))
    else if destY != myY then YDirection(DeterministicSense(myY, destY, yl))
    else ZDirection(DeterministicSense(myZ, destZ, zl))
  }

  /** `outportComputeTorus2DShortXY`: the first axis that differs, in the
      shorter direction on that axis. */
  function Torus2DShortXY(my: int, dest: int, xl: int, yl: int): (d: Direction)
    requires InTorus2D(my, xl, yl) && InTorus2D(dest, xl, yl) && my != dest
    ensures XOf(my, xl) != XOf(dest, xl) ==>
      d == XDirection(ShortSense(XOf(my, xl), XOf(dest, xl), xl))
    ensures XOf(my, xl) == XOf(dest, xl) ==>
      YOf2D(my, xl) != YOf2D(dest, xl) &&
      d == YDirection(ShortSense(YOf2D(my, xl), YOf2D(dest, xl), yl))
  {
    Torus2DCoordinates(my, xl, yl);
    Torus2DCoordinates(dest, xl, yl);
    Torus2DDistinct(my, dest, xl);
    var myX, myY := XOf(my, xl), YOf2D(my, xl);
    var destX, destY := XOf(dest, xl), YOf2D(dest, xl);
    if destX != myX then XDirection(ShortSense(myX, destX, xl))
    else YDirection(ShortSense(myY, destY, yl))
  }

  /** `outportComputeTorus3DShortXY`. */
  function Torus3DShortXY(my: int, dest: int, xl: int, yl: int, zl: int): (d: Direction)
    requires InTorus3D(my, xl, yl, zl) && InTorus3D(dest, xl, yl, zl) && my != dest
    ensures XOf(my, xl) != XOf(dest, xl) ==>
      d == XDirection(ShortSense(XOf(my, xl), XOf(dest, xl), xl))
    ensures XOf(my, xl) == XOf(dest, xl) && YOf3D(my, xl, yl) != YOf3D(dest, xl, yl) ==>
      d == YDirection(ShortSense(YOf3D(my, xl, yl), YOf3D(dest, xl, yl), yl))
    ensures XOf(my, xl) == XOf(dest, xl) && YOf3D(my, xl, yl) == YOf3D(dest, xl, yl) ==>
      ZOf3D(my, xl, yl) != ZOf3D(dest, xl, yl) &&
      d == ZDirection(ShortSense(ZOf3D(my, xl, yl), ZOf3D(dest, xl, yl), zl))
  {
    Torus3DPair(my, dest, xl, yl, zl);
    var myX, myY, myZ := XOf(my, xl), YOf3D(my, xl, yl), ZOf3D(my, xl, yl);
    var destX, destY, destZ := XOf(dest, xl), YOf3D(dest, xl, yl), ZOf3D(dest, xl, yl);
    if destX != myX then XDirection(ShortSense(myX, destX, xl))
    else if destY != myY then YDirection(ShortSense(myY, destY, yl))
    else ZDirection(ShortSense(myZ, destZ, zl))
  }

  // ---------------------------------------------------------------- all candidates

  /** `outportAll2D`: one direction per axis on which the routers differ,
      X before Y, each the shorter direction on its axis. */
  function AllShort2D(my: int, dest: int, xl: int, yl: int): (ds: seq<Direction>)
    requires InTorus2D(my, xl, yl) && InTorus2D(dest, xl, yl)
    ensures |ds| == (if XOf(my, xl) != XOf(dest, xl) then 1 else 0)
                  + (if YOf2D(my, xl) != YOf2D(dest, xl) then 1 else 0)
    ensures XOf(my, xl) != XOf(dest, xl) ==>
      ds[0] == XDirection(ShortSense(XOf(my, xl), XOf(dest, xl), xl))
    ensures YOf2D(my, xl) != YOf2D(dest, xl) ==>
      ds[|ds| - 1] == YDirection(ShortSense(YOf2D(my, xl), YOf2D(dest, xl), yl))
  {
    Torus2DCoordinates(my, xl, yl);
    Torus2DCoordinates(dest, xl, yl);
    var myX, myY := XOf(my, xl), YOf2D(my, xl);
    var destX, destY := XOf(dest, xl), YOf2D(dest, xl);
    (if destX != myX then [XDirection(ShortSense(myX, destX, xl))] else [])
    + (if destY != myY then [YDirection(ShortSense(myY, destY, yl))] else [])
  }

  /** `outportAll3D`: one direction per differing axis, X, Y, then Z. */
  function AllShort3D(my: int, dest: int, xl: int, yl: int, zl: int): (ds: seq<Direction>)
    requires InTorus3D(my, xl, yl, zl) && InTorus3D(dest, xl, yl, zl)
    ensures |ds| == (if XOf(my, xl) != XOf(dest, xl) then 1 else 0)
                  + (if YOf3D(my, xl, yl) != YOf3D(dest, xl, yl) then 1 else 0)
                  + (if ZOf3D(my, xl, yl) != ZOf3D(dest, xl, yl) then 1 else 0)
    ensures XOf(my, xl) != XOf(dest, xl) ==>
      ds[0] == XDirection(ShortSense(XOf(my, xl), XOf(dest, xl), xl))
    ensures YOf3D(my, xl, yl) != YOf3D(dest, xl, yl) ==>
      YDirection(ShortSense(YOf3D(my, xl, yl), YOf3D(dest, xl, yl), yl)) in ds
    ensures ZOf3D(my, xl, yl) != ZOf3D(dest, xl, yl) ==>
      ds[|ds| - 1] == ZDirection(ShortSense(ZOf3D(my, xl, yl), ZOf3D(dest, xl, yl), zl))
  {
    Torus3DCoordinates(my, xl, yl, zl);
    Torus3DCoordinates(dest, xl, yl, zl);
    var myX, myY, myZ := XOf(my, xl), YOf3D(my, xl, yl), ZOf3D(my, xl, yl);
    var destX, destY, destZ := XOf(dest, xl), YOf3D(dest, xl, yl), ZOf3D(dest, xl, yl);
    (if destX != myX then [XDirection(ShortSense(myX, destX, xl))] else [])
    + (if destY != myY then [YDirection(ShortSense(myY, destY, yl))] else [])
    + (if destZ != myZ then [ZDirection(ShortSense(myZ, destZ, zl))] else [])
  }

  /** The candidates of `outportAll2D` are empty exactly at the destination,
      and otherwise start with the choice of `outportComputeTorus2DShortXY`;
      no two of them lie on the same axis. */
  lemma AllShort2DAgreesWithShortXY(my: int, dest: int, xl: int, yl: int)
    requires InTorus2D(my, xl, yl) && InTorus2D(dest, xl, yl)
    ensures AllShort2D(my, dest, xl, yl) == [] <==> my == dest
    ensures my != dest ==> AllShort2D(my, dest, xl, yl)[0] == Torus2DShortXY(my, dest, xl, yl)
    ensures |AllShort2D(my, dest, xl, yl)| == 2 ==>
      AllShort2D(my, dest, xl, yl)[0] in {East, West} &&
      AllShort2D(my, dest, xl, yl)[1] in {North, South}
  {
    Id2DOfDecode(my, xl);
    Id2DOfDecode(dest, xl);
  }

  /** The 3D counterpart: empty exactly at the destination, first the
      `outportComputeTorus3DShortXY` choice, and at most one per axis. */
  lemma AllShort3DAgreesWithShortXY(my: int, dest: int, xl: int, yl: int, zl: int)
    requires InTorus3D(my, xl, yl, zl) && InTorus3D(dest, xl, yl, zl)
    ensures AllShort3D(my, dest, xl, yl, zl) == [] <==> my == dest
    ensures my != dest ==> AllShort3D(my, dest, xl, yl, zl)[0] == Torus3DShortXY(my, dest, xl, yl, zl)
  {
    if my != dest {
      Torus3DPair(my, dest, xl, yl, zl);
    }
  }
}
