/** The ring topology builder: router i and router (i + 1) mod n are joined
    by a Right link from i and a Left link back, and the ring routing
    algorithm moves packets along those links. */
module RingTopology {
  import opened Wrappers
  import opened Directions
  import opened Coordinates
  import opened AxisRouting
  import opened Algorithms
  import opened Links

  /** `next_i`: the router a Right link from `i` leads to. */
  function RightOf(i: int, n: int): (j: int)
    requires 0 <= i < n
    ensures 0 <= j < n
    ensures j == Next(i, Higher, n)
  {
    if i + 1 < n then
      DivModUnique(i + 1, n, 0, i + 1);
      (i + 1) % n
    else
      DivModUnique(i + 1, n, 1, 0);
      (i + 1) % n
  }

  /** The router a Left link from `m` leads to: the `i` with next_i == m. */
  function LeftOf(m: int, n: int): (i: int)
    requires 0 <= m < n
    ensures 0 <= i < n
    ensures i == Next(m, Lower, n)
  {
    if m == 0 then n - 1 else m - 1
  }

  /** `next_i` is a bijection on the routers: the Left neighbour undoes it. */
  lemma RightLeftInverse(i: int, m: int, n: int)
    requires 0 <= i < n && 0 <= m < n
    ensures RightOf(i, n) == m <==> LeftOf(m, n) == i
  {
  }

  /** The two links that iteration i of the loop adds. */
  function RingPair(i: int, n: int, base: int): seq<IntLink>
    requires 0 <= i < n
  {
    [ IntLink(base + 2 * i, i, RightOf(i, n), Right, Left),
      IntLink(base + 2 * i + 1, RightOf(i, n), i, Left, Right) ]
  }

  /** The internal links of the first k iterations, numbered from `base`. */
  function RingLinks(k: nat, n: nat, base: int): (links: seq<IntLink>)
    requires k <= n
    ensures |links| == 2 * k
  {
    if k == 0 then [] else RingLinks(k - 1, n, base) + RingPair(k - 1, n, base)
  }

  /** Link 2i is the Right link out of i and link 2i + 1 the Left link
      back into i; their ids run on from `base`. */
  lemma {:induction false} RingLinksShape(k: nat, n: nat, base: int)
    requires k <= n
    ensures forall i :: 0 <= i < k ==>
      RingLinks(k, n, base)[2 * i] == IntLink(base + 2 * i, i, RightOf(i, n), Right, Left)
    ensures forall i :: 0 <= i < k ==>
      RingLinks(k, n, base)[2 * i + 1] == IntLink(base + 2 * i + 1, RightOf(i, n), i, Left, Right)
  {
    if k > 0 {
      RingLinksShape(k - 1, n, base);
      var prefix := RingLinks(k - 1, n, base);
      assert RingLinks(k, n, base) == prefix + RingPair(k - 1, n, base);
      forall i | 0 <= i < k
        ensures RingLinks(k, n, base)[2 * i] == IntLink(base + 2 * i, i, RightOf(i, n), Right, Left)
        ensures RingLinks(k, n, base)[2 * i + 1] == IntLink(base + 2 * i + 1, RightOf(i, n), i, Left, Right)
      {
        if i < k - 1 {
          assert RingLinks(k, n, base)[2 * i] == prefix[2 * i];
          assert RingLinks(k, n, base)[2 * i + 1] == prefix[2 * i + 1];
        }
      }
    }
  }

  /** Every link index is the Right link of the router j / 2 or the Left
      link back into it. */
  lemma RingLinkAt(n: nat, base: int, j: int)
    requires 0 <= j < 2 * n
    ensures var l := RingLinks(n, n, base)[j];
      && l.linkId == base + j
      && (j % 2 == 0 ==> l == IntLink(base + j, j / 2, RightOf(j / 2, n), Right, Left))
      && (j % 2 == 1 ==> l == IntLink(base + j, RightOf(j / 2, n), j / 2, Left, Right))
  {
    RingLinksShape(n, n, base);
    var i := j / 2;
    if j % 2 == 0 {
      assert j == 2 * i;
    } else {
      assert j == 2 * i + 1;
    }
  }

  /** Each router is the source of exactly one Right link, number 2m, and
      exactly one Left link, number 2 * LeftOf(m) + 1. */
  lemma RingOneLinkEach(n: nat, base: int, m: int, j: int)
    requires 0 <= m < n && 0 <= j < 2 * n
    ensures var l := RingLinks(n, n, base)[j];
      && (l.src == m && l.srcOutport == Right <==> j == 2 * m)
      && (l.src == m && l.srcOutport == Left <==> j == 2 * LeftOf(m, n) + 1)
  {
    RingLinkAt(n, base, j);
    RightLeftInverse(j / 2, m, n);
  }

  /** Following a Right link and then the Left link out of where it lands
      returns to the start, over the link pair of one loop iteration. */
  lemma RightThenLeft(n: nat, base: int, i: int)
    requires 0 <= i < n
    ensures var links := RingLinks(n, n, base);
      && links[2 * i].src == i && links[2 * i].srcOutport == Right
      && links[2 * i + 1].src == links[2 * i].dst && links[2 * i + 1].srcOutport == Left
      && links[2 * i + 1].dst == i
  {
    RingLinksShape(n, n, base);
  }

  /** The internal links are numbered on from `base` and each arrives on
      the inport opposite to its outport. */
  lemma RingLinksNumbered(n: nat, base: int)
    ensures forall j :: 0 <= j < 2 * n ==> RingLinks(n, n, base)[j].linkId == base + j
    ensures Mirrored(RingLinks(n, n, base))
  {
    forall j | 0 <= j < 2 * n
      ensures RingLinks(n, n, base)[j].linkId == base + j
      ensures RingLinks(n, n, base)[j].dstInport == Opposite(RingLinks(n, n, base)[j].srcOutport)
    {
      RingLinkAt(n, base, j);
    }
  }

  /** `makeTopology`. With no routers, dealing out a controller divides by
      zero; otherwise the controllers' links come first, then two links per
      router, all numbered by `link_count`. */
  method MakeTopology(numNodes: nat, numRouters: nat) returns (res: Result<Topology, TopologyError>)
    ensures numRouters == 0 && numNodes > 0 <==> res == Err(DivisionByZero)
    ensures res.Ok? <==> !(numRouters == 0 && numNodes > 0)
    ensures res.Ok? ==> res.value == Topology(ExtLinks(numNodes, numRouters),
                                               RingLinks(numRouters, numRouters, numNodes))
    ensures res.Ok? ==> Numbered(res.value) && Mirrored(res.value.intLinks)
  {
    if numRouters == 0 && numNodes > 0 {
      return Err(DivisionByZero);
    }
    var extLinks, linkCount := MakeExtLinks(numNodes, numRouters);
    var intLinks: seq<IntLink> := [];
    var i := 0;
    while i < numRouters
      invariant 0 <= i <= numRouters
      invariant linkCount == numNodes + 2 * i
      invariant intLinks == RingLinks(i, numRouters, numNodes)
    {
      var nextI := RightOf(i, numRouters);
      intLinks := intLinks + [IntLink(linkCount, i, nextI, Right, Left)];
      linkCount := linkCount + 1;
      intLinks := intLinks + [IntLink(linkCount, nextI, i, Left, Right)];
      linkCount := linkCount + 1;
      i := i + 1;
    }
    RingLinksNumbered(numRouters, numNodes);
    return Ok(Topology(extLinks, intLinks));
  }

  /** The router reached from `i` through its outport `d`. */
  function RingStep(i: int, d: Direction, n: int): int
    requires 0 <= i < n
  {
    if d == Right then RightOf(i, n) else LeftOf(i, n)
  }

  /** The hop `RingStep` describes is a link of the ring: out of `m` by
      outport `d`, into the next router by the opposite inport. */
  lemma RingStepIsLink(n: nat, base: int, m: int, d: Direction)
    requires 0 <= m < n && (d == Left || d == Right)
    ensures var j := if d == Right then 2 * m else 2 * LeftOf(m, n) + 1;
      var l := RingLinks(n, n, base)[j];
      && l.src == m && l.srcOutport == d
      && l.dst == RingStep(m, d, n) && l.dstInport == Opposite(d)
  {
    RingLinksShape(n, n, base);
    if d == Left {
      var i := LeftOf(m, n);
      RightLeftInverse(i, m, n);
      assert RingLinks(n, n, base)[2 * i + 1] == IntLink(base + 2 * i + 1, m, i, Left, Right);
    }
  }

  /** A packet injected at `my` for `dest` leaves in the direction of the
      deterministic axis rule; at every router it then reaches it comes in
      on the opposite inport and the ring rule keeps it going the same way,
      so the routers it visits are exactly the run in that direction,
      ending at `dest`. The run crosses the link between router n - 1 and
      router 0 at most once, as its final hop. */
  lemma {:induction false} RingRouteReachesDestination(my: int, dest: int, n: int)
    requires 0 <= my < n && 0 <= dest < n && my != dest
    ensures var s := DeterministicSense(my, dest, n);
      var d := RingDirection(my, dest, n, Local);
      var r := Run(my, dest, s, n);
      && d == RingDirectionOf(s)
      && r[0] == RingStep(my, d, n)
      && r[|r| - 1] == dest
      && (forall i :: 0 <= i < |r| - 1 ==>
            RingDirection(r[i], dest, n, Opposite(d)) == d && r[i + 1] == RingStep(r[i], d, n))
      && (CrossesWrap(my, s, n) ==> r == [dest])
      && (forall i :: 0 <= i < |r| - 2 ==> !CrossesWrap(r[i], s, n))
  {
    var s := DeterministicSense(my, dest, n);
    DeterministicWrapOnlyLast(my, dest, n);
    RunWrapsOnlyAtEnd(my, dest, s, n);
  }
}
