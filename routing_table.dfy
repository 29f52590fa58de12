/** The routing table of one router and the weight-based choice among its
    links. A column of the table is one virtual network's list of
    destination sets, indexed by output link; the weight table gives each
    link its deadlock-avoidance weight, with the same indexing. */
module RoutingTable {
  import opened Wrappers

  /** The ways a routing decision can fail; in the simulator each one ends
      the run with a diagnostic. */
  datatype RoutingError =
    | NoRoute               // no link of the vnet reaches the destination set
    | IllegalTurn           // XY routing met an inport its assertions forbid
    | EmptyMesh             // XY routing on a mesh without rows or columns
    | PlaceholderExecuted   // the custom algorithm has no implementation
    | UnsupportedAlgorithm  // outportComputeAll with a selector it does not handle

  /** `NetDest::intersectionIsNotEmpty`, with a destination set as a set of
      node ids. */
  predicate Intersects(a: set<int>, b: set<int>)
  {
    a * b != {}
  }

  predicate Ascending(s: seq<nat>)
  {
    forall i, j :: 0 <= i < j < |s| ==> s[i] < s[j]
  }

  lemma AppendAscending(s: seq<nat>, k: nat)
    requires Ascending(s)
    requires forall l :: l in s ==> l < k
    ensures Ascending(s + [k])
  {
    var t := s + [k];
    forall i, j | 0 <= i < j < |t|
      ensures t[i] < t[j]
    {
      if j == |s| { assert t[i] in s; }
    }
  }

  /** The links of a column whose destination set meets `dest`, in link order. */
  function Matching(column: seq<set<int>>, dest: set<int>): (links: seq<nat>)
    ensures forall k: nat :: k in links <==> k < |column| && Intersects(column[k], dest)
    ensures Ascending(links)
    decreases |column|
  {
    if column == [] then []
    else
      var k := |column| - 1;
      var prefix := Matching(column[..k], dest);
      assert forall l :: l in prefix ==> l < k;
      AppendAscending(prefix, k);
      prefix + (if Intersects(column[k], dest) then [k] else [])
  }

  /** The least weight among `links`, or None when there is no link. */
  function MinWeight(weights: seq<int>, links: seq<nat>): (m: Option<int>)
    requires forall l :: l in links ==> l < |weights|
    ensures m.None? <==> links == []
    ensures m.Some? ==> exists l :: l in links && weights[l] == m.value
    ensures m.Some? ==> forall l :: l in links ==> m.value <= weights[l]
    decreases |links|
  {
    if links == [] then None
    else
      var l := links[|links| - 1];
      var rest := links[..|links| - 1];
      assert links == rest + [l];
      assert forall k :: k in rest ==> k in links;
      assert l in links;
      match MinWeight(weights, rest)
      case None => Some(weights[l])
      case Some(m) => Some(if weights[l] <= m then weights[l] else m)
  }

  /** The links among `links` whose weight is `w`, in their original order. */
  function Tied(weights: seq<int>, links: seq<nat>, w: int): (t: seq<nat>)
    requires forall l :: l in links ==> l < |weights|
    ensures forall l :: l in t <==> l in links && weights[l] == w
    ensures Ascending(links) ==> Ascending(t)
    decreases |links|
  {
    if links == [] then []
    else
      var l := links[|links| - 1];
      var rest := links[..|links| - 1];
      assert links == rest + [l];
      assert forall k :: k in rest ==> k in links;
      assert Ascending(links) ==> forall k :: k in rest ==> k < l;
      assert l in links;
      if Ascending(links) then
        assert Ascending(rest);
        AppendAscending(Tied(weights, rest, w), l);
        Tied(weights, rest, w) + (if weights[l] == w then [l] else [])
      else
      Tied(weights, rest, w) + (if weights[l] == w then [l] else [])
  }

  /** Extending a column by one link extends its matching links by that
      link if it meets `dest`. */
  lemma MatchingStep(column: seq<set<int>>, dest: set<int>, link: nat)
    requires link < |column|
    ensures Matching(column[..link + 1], dest) ==
      Matching(column[..link], dest) + (if Intersects(column[link], dest) then [link] else [])
  {
    assert column[..link + 1][..link] == column[..link];
  }

  lemma MinWeightStep(weights: seq<int>, links: seq<nat>, l: nat)
    requires forall k :: k in links ==> k < |weights|
    requires l < |weights|
    ensures MinWeight(weights, links + [l]) ==
      match MinWeight(weights, links)
      case None => Some(weights[l])
      case Some(m) => Some(if weights[l] <= m then weights[l] else m)
  {
    assert (links + [l])[..|links|] == links;
  }

  lemma TiedStep(weights: seq<int>, links: seq<nat>, l: nat, w: int)
    requires forall k :: k in links ==> k < |weights|
    requires l < |weights|
    ensures Tied(weights, links + [l], w) ==
      Tied(weights, links, w) + (if weights[l] == w then [l] else [])
  {
    assert (links + [l])[..|links|] == links;
  }

  /** Link `l` meets `dest`, and no link of the column that meets `dest`
      weighs less. */
  predicate IsCandidate(column: seq<set<int>>, weights: seq<int>, dest: set<int>, l: nat)
    requires |column| <= |weights|
  {
    && l < |column| && Intersects(column[l], dest)
    && forall k :: 0 <= k < |column| && Intersects(column[k], dest) ==> weights[l] <= weights[k]
  }

  /** The links tied at the least weight are the links that weigh no more
      than any other. */
  lemma TiedAtMinimum(weights: seq<int>, links: seq<nat>, m: int)
    requires forall l :: l in links ==> l < |weights|
    requires MinWeight(weights, links) == Some(m)
    ensures forall l :: l in Tied(weights, links, m) <==>
      l in links && forall k :: k in links ==> weights[l] <= weights[k]
  {
    var w :| w in links && weights[w] == m;
    forall l | l in links && (forall k :: k in links ==> weights[l] <= weights[k])
      ensures weights[l] == m
    {
      assert weights[l] <= weights[w];
    }
  }

  /** The minimum-weight links that meet `dest`: exactly the links that
      meet `dest` and weigh no more than any other link that does, in link
      order. */
  function Candidates(column: seq<set<int>>, weights: seq<int>, dest: set<int>): (c: seq<nat>)
    requires |column| <= |weights|
    ensures forall l: nat :: l in c <==> IsCandidate(column, weights, dest, l)
    ensures Ascending(c)
    ensures c == [] <==> forall k :: 0 <= k < |column| ==> !Intersects(column[k], dest)
  {
    var links := Matching(column, dest);
    match MinWeight(weights, links)
    case None => []
    case Some(m) =>
      TiedAtMinimum(weights, links, m);
      var l :| l in links && weights[l] == m;
      assert l in Tied(weights, links, m);
      Tied(weights, links, m)
  }

  /** The least weight among the first `n` links of `column` that meet `dest`. */
  function PrefixMinWeight(column: seq<set<int>>, weights: seq<int>, dest: set<int>, n: nat): Option<int>
    requires n <= |column| <= |weights|
  {
    MinWeight(weights, Matching(column[..n], dest))
  }

  /** The first `n` links of `column` that meet `dest` with weight `w`. */
  function PrefixTied(column: seq<set<int>>, weights: seq<int>, dest: set<int>, n: nat, w: int): seq<nat>
    requires n <= |column| <= |weights|
  {
    Tied(weights, Matching(column[..n], dest), w)
  }

  lemma PrefixMinWeightStep(column: seq<set<int>>, weights: seq<int>, dest: set<int>, n: nat)
    requires n < |column| <= |weights|
    ensures PrefixMinWeight(column, weights, dest, n + 1) ==
      if !Intersects(column[n], dest) then PrefixMinWeight(column, weights, dest, n)
      else match PrefixMinWeight(column, weights, dest, n)
        case None => Some(weights[n])
        case Some(m) => Some(if weights[n] <= m then weights[n] else m)
  {
    var links := Matching(column[..n], dest);
    MatchingStep(column, dest, n);
    if Intersects(column[n], dest) {
      assert Matching(column[..n + 1], dest) == links + [n];
      MinWeightStep(weights, links, n);
    } else {
      assert Matching(column[..n + 1], dest) == links;
    }
  }

  lemma PrefixTiedStep(column: seq<set<int>>, weights: seq<int>, dest: set<int>, n: nat, w: int)
    requires n < |column| <= |weights|
    ensures PrefixTied(column, weights, dest, n + 1, w) ==
      PrefixTied(column, weights, dest, n, w) +
        (if Intersects(column[n], dest) && weights[n] == w then [n] else [])
  {
    var links := Matching(column[..n], dest);
    MatchingStep(column, dest, n);
    if Intersects(column[n], dest) {
      assert Matching(column[..n + 1], dest) == links + [n];
      TiedStep(weights, links, n, w);
    } else {
      assert Matching(column[..n + 1], dest) == links;
    }
  }

  lemma PrefixWhole(column: seq<set<int>>, weights: seq<int>, dest: set<int>)
    requires |column| <= |weights|
    ensures Candidates(column, weights, dest) ==
      match PrefixMinWeight(column, weights, dest, |column|)
      case None => []
      case Some(m) => PrefixTied(column, weights, dest, |column|, m)
  {
    assert column[..|column|] == column;
  }

  /** `lookupRoutingTable` on one vnet's column: among the minimum-weight
      links that meet `dest`, an ordered vnet takes the first and an
      unordered one takes candidate number `r mod count`, `r` standing for
      the simulator's `rand()`. No such link is a fatal error. */
  function Lookup(column: seq<set<int>>, weights: seq<int>, dest: set<int>, ordered: bool, r: nat)
    : (res: Result<nat, RoutingError>)
    requires |column| <= |weights|
    ensures res.Err? <==> forall k :: 0 <= k < |column| ==> !Intersects(column[k], dest)
    ensures res.Err? ==> res.error == NoRoute
    ensures res.Ok? ==> res.value < |column| && Intersects(column[res.value], dest)
    ensures res.Ok? ==> forall k :: 0 <= k < |column| && Intersects(column[k], dest) ==>
      weights[res.value] <= weights[k]
    ensures res.Ok? && ordered ==> forall k :: 0 <= k < res.value && Intersects(column[k], dest) ==>
      weights[k] > weights[res.value]
    ensures res.Ok? ==> res.value in Candidates(column, weights, dest)
    ensures res.Ok? ==> var c := Candidates(column, weights, dest);
      c != [] && res.value == if ordered then c[0] else c[r % |c|]
  {
    var c := Candidates(column, weights, dest);
    if c == [] then Err(NoRoute)
    else
      var l := if ordered then c[0] else c[r % |c|];
      if ordered then
        FirstCandidateIsFirst(column, weights, dest);
        Ok(l)
      else
      Ok(l)
  }

  /** No link before the first candidate meets `dest` with a weight as low
      as the candidate's. */
  lemma FirstCandidateIsFirst(column: seq<set<int>>, weights: seq<int>, dest: set<int>)
    requires |column| <= |weights|
    requires Candidates(column, weights, dest) != []
    ensures var l := Candidates(column, weights, dest)[0];
      forall k :: 0 <= k < l && Intersects(column[k], dest) ==> weights[k] > weights[l]
  {
    var c := Candidates(column, weights, dest);
    var l := c[0];
    assert IsCandidate(column, weights, dest, l);
    forall k | 0 <= k < l && Intersects(column[k], dest)
      ensures weights[k] > weights[l]
    {
      forall i | 0 <= i < |c|
        ensures c[i] != k
      {
        assert i == 0 || c[0] < c[i];
      }
      assert !IsCandidate(column, weights, dest, k);
    }
  }

  /** An ordered vnet's choice does not depend on the random draw, so every
      packet of an ordered flow takes the same link. */
  lemma OrderedIgnoresDraw(column: seq<set<int>>, weights: seq<int>, dest: set<int>, r1: nat, r2: nat)
    requires |column| <= |weights|
    ensures Lookup(column, weights, dest, true, r1) == Lookup(column, weights, dest, true, r2)
  {
  }

  lemma ModOfSmaller(i: int, n: int)
    requires 0 <= i < n
    ensures i % n == i
  {
  }

  /** An unordered vnet can reach every tied candidate with a suitable draw. */
  lemma UnorderedReachesEveryCandidate(column: seq<set<int>>, weights: seq<int>, dest: set<int>, l: nat)
    requires |column| <= |weights|
    requires l in Candidates(column, weights, dest)
    ensures exists r: nat :: Lookup(column, weights, dest, false, r) == Ok(l)
  {
    var c := Candidates(column, weights, dest);
    var i :| 0 <= i < |c| && c[i] == l;
    var i': nat := i;
    assert i' % |c| == i by { ModOfSmaller(i, |c|); }
    assert Lookup(column, weights, dest, false, i') == Ok(c[i' % |c|]);
  }
}
