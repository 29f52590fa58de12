/** The link lists a topology builder hands to the network: external links
    between controllers and routers, and internal links between routers,
    all numbered by one running link counter. */
module Links {
  import opened Directions
  import opened Coordinates

  datatype ExtLink = ExtLink(linkId: int, extNode: int, intNode: int)
  datatype IntLink = IntLink(linkId: int, src: int, dst: int, srcOutport: Direction, dstInport: Direction)
  datatype Topology = Topology(extLinks: seq<ExtLink>, intLinks: seq<IntLink>)

  /** Why a builder stops: one of its assertions fails, or `divmod` by a
      router count of zero. */
  datatype TopologyError = ZeroRows | SizeMismatch | DivisionByZero

  /** Controller k hangs off router k mod n through link k (`divmod(i,
      num_routers)` in the builders). */
  function ExtLinks(numNodes: nat, n: nat): seq<ExtLink>
    requires n > 0 || numNodes == 0
  {
    if numNodes == 0 then [] else seq(numNodes, k => ExtLink(k, k, k % n))
  }

  /** The controllers are dealt out round robin: controller k is number
      k / n on router k mod n, which is one of the n routers. */
  lemma ExtLinksRoundRobin(numNodes: nat, n: nat, k: nat)
    requires n > 0 && k < numNodes
    ensures var l := ExtLinks(numNodes, n)[k];
      && l.linkId == k && l.extNode == k
      && 0 <= l.intNode < n
      && k == (k / n) * n + l.intNode
      && (k + n < numNodes ==> ExtLinks(numNodes, n)[k + n].intNode == l.intNode)
  {
    if k + n < numNodes {
      DivModStep(k, n);
    }
  }

  lemma DivModStep(k: nat, n: nat)
    requires n > 0
    ensures (k + n) % n == k % n
  {
    var q := k / n;
    assert k + n == (q + 1) * n + k % n by {
      assert (q + 1) * n == q * n + n;
    }
    DivModUnique(k + n, n, q + 1, k % n);
  }

  /** The external links come first, numbered from 0, and the internal
      links follow on from them with consecutive ids. */
  predicate Numbered(t: Topology)
  {
    && (forall k :: 0 <= k < |t.extLinks| ==> t.extLinks[k].linkId == k)
    && (forall j :: 0 <= j < |t.intLinks| ==> t.intLinks[j].linkId == |t.extLinks| + j)
  }

  /** Every internal link arrives on the inport opposite to the outport it
      leaves by. */
  predicate Mirrored(links: seq<IntLink>)
  {
    forall j :: 0 <= j < |links| ==> links[j].dstInport == Opposite(links[j].srcOutport)
  }

  /** The loop over the controllers that every builder starts with; the
      link counter ends at the number of controllers. */
  method MakeExtLinks(numNodes: nat, n: nat) returns (extLinks: seq<ExtLink>, linkCount: nat)
    requires n > 0 || numNodes == 0
    ensures extLinks == ExtLinks(numNodes, n)
    ensures linkCount == numNodes
  {
    extLinks := [];
    linkCount := 0;
    while linkCount < numNodes
      invariant linkCount <= numNodes
      invariant |extLinks| == linkCount
      invariant forall k :: 0 <= k < linkCount ==> extLinks[k] == ExtLink(k, k, k % n)
    {
      var routerId := linkCount % n;
      extLinks := extLinks + [ExtLink(linkCount, linkCount, routerId)];
      linkCount := linkCount + 1;
    }
  }
}
