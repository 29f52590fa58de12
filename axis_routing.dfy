/** The per-axis decision shared by the ring and torus routing algorithms.
    On one axis of `len` positions (a ring, or one row, column or pillar of
    a torus) a packet at coordinate `my` bound for `dest` either moves to
    the lower neighbour (West, South, Down, or Left on a ring) or to the
    higher one (East, North, Up, or Right), wrapping between 0 and len - 1. */
module AxisRouting {
  import opened Coordinates

  datatype Sense = Lower | Higher

  function Reverse(s: Sense): Sense
  {
    if s == Lower then Higher else Lower
  }

  /** `left_distance`: how many Lower hops lead from `my` to `dest`. */
  function LeftDistance(my: int, dest: int, len: int): (d: int)
    requires 0 <= my < len && 0 <= dest < len
    ensures 0 <= d < len
    ensures my >= dest ==> d == my - dest
    ensures my < dest ==> d == my - dest + len
  {
    if my >= dest then
      DivModUnique(my - dest + len, len, 1, my - dest);
      (my - dest + len) % len
    else
      DivModUnique(my - dest + len, len, 0, my - dest + len);
      (my - dest + len) % len
  }

  /** The neighbouring coordinate in direction `s`, wrapping at the ends. */
  function Next(c: int, s: Sense, len: int): (c': int)
    requires 0 <= c < len
    ensures 0 <= c' < len
  {
    match s
    case Lower => if c == 0 then len - 1 else c - 1
    case Higher => if c == len - 1 then 0 else c + 1
  }

  /** A hop back in the reverse direction undoes a hop. */
  lemma NextInverse(c: int, s: Sense, len: int)
    requires 0 <= c < len
    ensures Next(Next(c, s, len), Reverse(s), len) == c
  {
  }

  /** The hop out of `c` in direction `s` is the wrap-around link between
      position 0 and position len - 1. */
  predicate CrossesWrap(c: int, s: Sense, len: int)
  {
    (s == Lower && c == 0) || (s == Higher && c == len - 1)
  }

  /** Number of hops in direction `s` that lead from `my` to `dest`. */
  function Hops(my: int, dest: int, s: Sense, len: int): (h: nat)
    requires 0 <= my < len && 0 <= dest < len
    ensures h < len
    ensures h == 0 <==> my == dest
  {
    if s == Lower then LeftDistance(my, dest, len) else LeftDistance(dest, my, len)
  }

  /** One hop brings a packet one hop closer along its direction. */
  lemma NextHops(my: int, dest: int, s: Sense, len: int)
    requires 0 <= my < len && 0 <= dest < len && my != dest
    ensures Hops(Next(my, s, len), dest, s, len) == Hops(my, dest, s, len) - 1
  {
  }

  /** The positions visited after `my` when a packet keeps moving in
      direction `s` until it reaches `dest`. */
  function Run(my: int, dest: int, s: Sense, len: int): (r: seq<int>)
    requires 0 <= my < len && 0 <= dest < len
    ensures |r| == Hops(my, dest, s, len)
    ensures r != [] ==> r[|r| - 1] == dest && r[0] == Next(my, s, len)
    ensures forall i :: 0 <= i < |r| ==> 0 <= r[i] < len
    ensures forall i :: 0 <= i < |r| - 1 ==> r[i] != dest && r[i + 1] == Next(r[i], s, len)
    decreases Hops(my, dest, s, len)
  {
    if my == dest then []
    else
      NextHops(my, dest, s, len);
      [Next(my, s, len)] + Run(Next(my, s, len), dest, s, len)
  }

  /** A path in direction `s` from `my` to `dest` may cross the wrap link
      only as its final hop. */
  predicate WrapOnlyLast(my: int, dest: int, s: Sense, len: int)
  {
    && (s == Higher && dest < my ==> dest == 0)
    && (s == Lower && dest > my ==> dest == len - 1)
  }

  /** If the start satisfies `WrapOnlyLast`, the run crosses the wrap link
      at most once, on its last hop: the hop out of `my` wraps only when it
      is the whole run, and the hop out of r[i] (which leads to r[i + 1])
      wraps only when r[i + 1] is the last position. */
  lemma {:induction false} RunWrapsOnlyAtEnd(my: int, dest: int, s: Sense, len: int)
    requires 0 <= my < len && 0 <= dest < len
    requires WrapOnlyLast(my, dest, s, len)
    ensures CrossesWrap(my, s, len) && my != dest ==> Run(my, dest, s, len) == [dest]
    ensures var r := Run(my, dest, s, len);
      forall i :: 0 <= i < |r| - 2 ==> !CrossesWrap(r[i], s, len)
    decreases Hops(my, dest, s, len)
  {
    if my != dest {
      var n := Next(my, s, len);
      NextHops(my, dest, s, len);
      assert WrapOnlyLast(n, dest, s, len);
      RunWrapsOnlyAtEnd(n, dest, s, len);
      var rest := Run(n, dest, s, len);
      var r := Run(my, dest, s, len);
      assert r == [n] + rest;
      if CrossesWrap(my, s, len) {
        assert n == dest;
      }
      forall i | 0 <= i < |r| - 2
        ensures !CrossesWrap(r[i], s, len)
      {
        if i == 0 {
          assert r[0] == n && n != dest;
        } else {
          assert r[i] == rest[i - 1];
        }
      }
    }
  }

  /** The deterministic torus and ring rule (RoutingUnit.cc, the
      "prefer go to left / right" branches). */
  function DeterministicSense(my: int, dest: int, len: int): Sense
    requires 0 <= my < len && 0 <= dest < len
  {
    if LeftDistance(my, dest, len) * 2 <= len then
      if dest < my || dest == len - 1 then Lower else Higher
    else
      if dest > my || dest == 0 then Higher else Lower
  }

  /** The shortest-direction rule of ShortXY / ShortXYZ. */
  function ShortSense(my: int, dest: int, len: int): Sense
    requires 0 <= my < len && 0 <= dest < len
  {
    if LeftDistance(my, dest, len) * 2 <= len then Lower else Higher
  }

  /** The direction that never crosses the wrap link. */
  function DirectSense(my: int, dest: int): Sense
  {
    if dest < my then Lower else Higher
  }

  /** An independent description of the deterministic rule: take the
      direction that does not wrap, unless the wrapping direction is the
      shorter one and its wrap hop would be its last hop. */
  lemma DeterministicCharacterization(my: int, dest: int, len: int)
    requires 0 <= my < len && 0 <= dest < len && my != dest
    ensures var wrapping := Reverse(DirectSense(my, dest));
      DeterministicSense(my, dest, len) ==
        if ShortSense(my, dest, len) == wrapping && WrapOnlyLast(my, dest, wrapping, len)
        then wrapping else DirectSense(my, dest)
  {
  }

  /** The deterministic rule never makes a wrap hop that is not the last
      hop of its run. */
  lemma DeterministicWrapOnlyLast(my: int, dest: int, len: int)
    requires 0 <= my < len && 0 <= dest < len && my != dest
    ensures WrapOnlyLast(my, dest, DeterministicSense(my, dest, len), len)
  {
  }

  /** Re-applying the deterministic rule one hop later keeps the direction. */
  lemma DeterministicStable(my: int, dest: int, len: int)
    requires 0 <= my < len && 0 <= dest < len && my != dest
    ensures var s := DeterministicSense(my, dest, len);
      Next(my, s, len) != dest ==> DeterministicSense(Next(my, s, len), dest, len) == s
  {
  }

  /** Every router on a deterministic run, except the destination, chooses
      the direction of the run. */
  lemma {:induction false} DeterministicFollowsRun(my: int, dest: int, len: int, i: int)
    requires 0 <= my < len && 0 <= dest < len
    requires 0 <= i < |Run(my, dest, DeterministicSense(my, dest, len), len)| - 1
    ensures var s := DeterministicSense(my, dest, len);
      DeterministicSense(Run(my, dest, s, len)[i], dest, len) == s
    decreases i
  {
    var s := DeterministicSense(my, dest, len);
    var n := Next(my, s, len);
    NextHops(my, dest, s, len);
    var rest := Run(n, dest, s, len);
    assert Run(my, dest, s, len) == [n] + rest;
    DeterministicStable(my, dest, len);
    if i > 0 {
      DeterministicFollowsRun(n, dest, len, i - 1);
      assert Run(my, dest, s, len)[i] == rest[i - 1];
    }
  }

  /** Re-applying the shortest-direction rule one hop later keeps the direction. */
  lemma ShortStable(my: int, dest: int, len: int)
    requires 0 <= my < len && 0 <= dest < len && my != dest
    ensures var s := ShortSense(my, dest, len);
      Next(my, s, len) != dest ==> ShortSense(Next(my, s, len), dest, len) == s
  {
  }

  /** Every router on a shortest-direction run, except the destination,
      chooses the direction of the run. */
  lemma {:induction false} ShortFollowsRun(my: int, dest: int, len: int, i: int)
    requires 0 <= my < len && 0 <= dest < len
    requires 0 <= i < |Run(my, dest, ShortSense(my, dest, len), len)| - 1
    ensures var s := ShortSense(my, dest, len);
      ShortSense(Run(my, dest, s, len)[i], dest, len) == s
    decreases i
  {
    var s := ShortSense(my, dest, len);
    var n := Next(my, s, len);
    NextHops(my, dest, s, len);
    var rest := Run(n, dest, s, len);
    assert Run(my, dest, s, len) == [n] + rest;
    ShortStable(my, dest, len);
    if i > 0 {
      ShortFollowsRun(n, dest, len, i - 1);
      assert Run(my, dest, s, len)[i] == rest[i - 1];
    }
  }

  /** The shortest-direction rule takes min(d, len - d) hops, where d is the
      leftward distance, and no more than the other direction; a tie goes
      to the lower direction. */
  lemma ShortIsShortest(my: int, dest: int, len: int)
    requires 0 <= my < len && 0 <= dest < len && my != dest
    ensures var d := LeftDistance(my, dest, len);
      Hops(my, dest, ShortSense(my, dest, len), len) == if 2 * d <= len then d else len - d
    ensures var s := ShortSense(my, dest, len);
      Hops(my, dest, s, len) <= Hops(my, dest, Reverse(s), len)
    ensures 2 * LeftDistance(my, dest, len) == len ==> ShortSense(my, dest, len) == Lower
  {
  }

  /** The deterministic rule is not a shortest-path rule: on an axis of
      eight routers, from 0 to 5 it takes five hops up instead of three
      hops down through the wrap link. */
  lemma DeterministicNotShortest()
    ensures DeterministicSense(0, 5, 8) == Higher && Hops(0, 5, Higher, 8) == 5
    ensures ShortSense(0, 5, 8) == Lower && Hops(0, 5, Lower, 8) == 3
  {
  }

  // ---------------------------------------------------------------- walking an axis

  /** The sense either algorithm picks on one axis. */
  function AxisSense(a: int, b: int, len: int, shortest: bool): Sense
    requires 0 <= a < len && 0 <= b < len
  {
    if shortest then ShortSense(a, b, len) else DeterministicSense(a, b, len)
  }

  function AxisHops(a: int, b: int, len: int, shortest: bool): nat
    requires 0 <= a < len && 0 <= b < len
  {
    Hops(a, b, AxisSense(a, b, len, shortest), len)
  }

  /** A step in the sense the algorithm picks leaves one hop fewer on that
      axis, because the algorithm picks the same sense again after it. */
  lemma AxisStep(a: int, b: int, len: int, shortest: bool)
    requires 0 <= a < len && 0 <= b < len && a != b
    ensures var s := AxisSense(a, b, len, shortest);
      AxisHops(Next(a, s, len), b, len, shortest) == AxisHops(a, b, len, shortest) - 1
  {
    var s := AxisSense(a, b, len, shortest);
    NextHops(a, b, s, len);
    if Next(a, s, len) != b {
      if shortest { ShortStable(a, b, len); } else { DeterministicStable(a, b, len); }
    }
  }

  /** Fewest hops between two positions of an axis of `len`. */
  function MinHops(a: int, b: int, len: int): nat
    requires 0 <= a < len && 0 <= b < len
  {
    var d := LeftDistance(a, b, len);
    if a == b then 0 else if 2 * d <= len then d else len - d
  }

  /** On one axis the shortest rule needs min(d, len - d) hops for the
      leftward distance d, and never more than the deterministic rule. */
  lemma AxisShortest(a: int, b: int, len: int)
    requires 0 <= a < len && 0 <= b < len
    ensures AxisHops(a, b, len, true) == MinHops(a, b, len)
    ensures AxisHops(a, b, len, true) <= AxisHops(a, b, len, false)
  {
    if a != b {
      ShortIsShortest(a, b, len);
    }
  }
}
