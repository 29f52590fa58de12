/** Router coordinates. Routers are numbered linearly; the routing unit
    recovers grid coordinates from a router id with `%` and `/` on the
    extents of the axes, X varying fastest, then Y, then Z. */
module Coordinates {

  /** Division with a positive divisor is determined by quotient and
      remainder: the fact every coordinate proof below rests on. */
  lemma DivModUnique(n: int, c: int, q: int, r: int)
    requires c > 0 && 0 <= r < c && n == q * c + r
    ensures n / c == q && n % c == r
  {
    var q', r' := n / c, n % c;
    assert n == q' * c + r';
    assert (q - q') * c == r' - r;
    if q - q' >= 1 {
      MulAtLeast(q - q', c);
      assert false;
    } else if q' - q >= 1 {
      MulAtLeast(q' - q, c);
      assert false;
    }
  }

  lemma MulAtLeast(k: int, c: int)
    requires k >= 1 && c > 0
    ensures k * c >= c
  {
    assert k * c == (k - 1) * c + c;
    assert (k - 1) * c >= 0;
  }

  /** The X coordinate: `id % x_length`, in 2D and 3D alike. */
  function XOf(id: int, xl: int): (x: int)
    requires xl > 0
    ensures 0 <= x < xl
  {
    id % xl
  }

  /** The Y coordinate of a 2D router: `id / x_length`. */
  function YOf2D(id: int, xl: int): (y: int)
    requires xl > 0
    ensures id >= 0 ==> y >= 0
  {
    id / xl
  }

  /** The Y coordinate of a 3D router: `(id / x_length) % y_length`. */
  function YOf3D(id: int, xl: int, yl: int): (y: int)
    requires xl > 0 && yl > 0
    ensures 0 <= y < yl
  {
    (id / xl) % yl
  }

  /** The Z coordinate of a 3D router: `id / (x_length * y_length)`. */
  function ZOf3D(id: int, xl: int, yl: int): (z: int)
    requires xl > 0 && yl > 0
    ensures id >= 0 ==> z >= 0
  {
    assert xl * yl > 0;
    id / (xl * yl)
  }

  /** The id of the router at (x, y) in a grid whose rows hold `xl` routers. */
  function Id2D(x: int, y: int, xl: int): int
  {
    x + y * xl
  }

  /** The id of the router at (x, y, z) in a grid of `xl` by `yl` layers. */
  function Id3D(x: int, y: int, z: int, xl: int, yl: int): int
  {
    x + y * xl + z * (xl * yl)
  }

  /** Decoding an encoded 2D position gives the position back. */
  lemma {:induction false} Decode2DOfId(x: int, y: int, xl: int)
    requires 0 <= x < xl
    ensures XOf(Id2D(x, y, xl), xl) == x && YOf2D(Id2D(x, y, xl), xl) == y
  {
    DivModUnique(Id2D(x, y, xl), xl, y, x);
  }

  /** Encoding the decoded 2D position of a router gives its id back. */
  lemma Id2DOfDecode(id: int, xl: int)
    requires xl > 0
    ensures Id2D(XOf(id, xl), YOf2D(id, xl), xl) == id
  {
  }

  /** A router id lies in an `xl` by `yl` grid exactly when its Y
      coordinate is a row of that grid. */
  lemma Range2D(id: int, xl: int, yl: int)
    requires xl > 0 && yl > 0 && id >= 0
    ensures id < xl * yl <==> YOf2D(id, xl) < yl
    ensures YOf2D(id, xl) >= 0
  {
    var y := YOf2D(id, xl);
    Id2DOfDecode(id, xl);
    if y < yl {
      MulMonotone(y + 1, yl, xl);
      assert id < (y + 1) * xl;
    } else {
      MulMonotone(yl, y, xl);
      assert id >= y * xl;
    }
  }

  lemma MulMonotone(a: int, b: int, c: int)
    requires a <= b && c >= 0
    ensures a * c <= b * c
  {
    assert b * c - a * c == (b - a) * c;
  }

  /** The 3D decode agrees with the encoding: X, Y and Z of the router at
      (x, y, z) are x, y and z. */
  lemma {:induction false} Decode3DOfId(x: int, y: int, z: int, xl: int, yl: int)
    requires 0 <= x < xl && 0 <= y < yl
    ensures XOf(Id3D(x, y, z, xl, yl), xl) == x
    ensures YOf3D(Id3D(x, y, z, xl, yl), xl, yl) == y
    ensures ZOf3D(Id3D(x, y, z, xl, yl), xl, yl) == z
  {
    var id := Id3D(x, y, z, xl, yl);
    assert id == x + (y + z * yl) * xl;
    DivModUnique(id, xl, y + z * yl, x);
    DivModUnique(y + z * yl, yl, z, y);
    var low := x + y * xl;
    MulMonotone(y, yl - 1, xl);
    assert 0 <= low < xl * yl;
    DivModUnique(id, xl * yl, z, low);
  }

  /** Every router id in range has a 3D position that encodes back to it. */
  lemma {:induction false} Id3DOfDecode(id: int, xl: int, yl: int)
    requires xl > 0 && yl > 0
    ensures Id3D(XOf(id, xl), YOf3D(id, xl, yl), ZOf3D(id, xl, yl), xl, yl) == id
  {
    var x, q := id % xl, id / xl;
    var y, z := q % yl, q / yl;
    var xy := xl * yl;
    assert id == x + q * xl;
    assert q == y + z * yl;
    assert q * xl == y * xl + z * xy by {
      assert (y + z * yl) * xl == y * xl + (z * yl) * xl;
      assert (z * yl) * xl == z * xy;
    }
    MulMonotone(y, yl - 1, xl);
    assert (yl - 1) * xl == xy - xl;
    MulMonotone(0, y, xl);
    DivModUnique(id, xy, z, x + y * xl);
  }
}
