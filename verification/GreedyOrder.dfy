/** The order the workflow normalizer promises: at every step the earliest node whose dependencies are placed. */
module GreedyOrder {
  import opened WorkflowNode

  // ---- Specification: repeatedly take the earliest node whose dependencies are all placed ----

  ghost function Elems(order: seq<nat>): set<nat> {
    set i | i in order
  }

  ghost predicate Ready(nodes: seq<Node>, done: set<nat>, i: nat) {
    && i < |nodes|
    && i !in done
    && forall j :: Edge(nodes, j, i) ==> j in done
  }

  /** The least ready index from `i` on, or `|nodes|`. */
  ghost function FirstReady(nodes: seq<Node>, done: set<nat>, i: nat): (r: nat)
    requires i <= |nodes|
    ensures i <= r <= |nodes|
    ensures r < |nodes| ==> Ready(nodes, done, r)
    ensures forall j :: i <= j < r ==> !Ready(nodes, done, j)
    decreases |nodes| - i
  {
    if i == |nodes| || Ready(nodes, done, i) then i else FirstReady(nodes, done, i + 1)
  }

  /** The indices placed by the first `k` greedy choices. */
  ghost function Greedy(nodes: seq<Node>, k: nat): (order: seq<nat>)
    ensures |order| <= k
    ensures forall m :: 0 <= m < |order| ==> order[m] < |nodes|
  {
    if k == 0 then [] else
      var order := Greedy(nodes, k - 1);
      var i := FirstReady(nodes, Elems(order), 0);
      if i == |nodes| then order else order + [i]
  }

  ghost function Pick(nodes: seq<Node>, order: seq<nat>): (r: seq<Node>)
    requires forall m :: 0 <= m < |order| ==> order[m] < |nodes|
  {
    seq(|order|, m requires 0 <= m < |order| => nodes[order[m]])
  }

  /** The value of the sort for nodes with unique ids: the greedy order, or the input when the greedy choice gets
      stuck. */
  ghost function SortSpec(nodes: seq<Node>): seq<Node> {
    var order := Greedy(nodes, |nodes|);
    if |order| < |nodes| then nodes else Pick(nodes, order)
  }

  // ---- Properties of the greedy order ----

  ghost predicate Distinct(order: seq<nat>) {
    forall a, b :: 0 <= a < b < |order| ==> order[a] != order[b]
  }

  /** `order` lists node indices so that dependencies come first. */
  ghost predicate Respects(nodes: seq<Node>, order: seq<nat>) {
    && (forall m :: 0 <= m < |order| ==> order[m] < |nodes|)
    && Distinct(order)
    && forall m :: 0 <= m < |order| ==> Ready(nodes, Elems(order[..m]), order[m])
  }

  lemma SameChoice(nodes: seq<Node>, k: nat, m: nat)
    requires k > 0 && m > 0 && Greedy(nodes, k - 1) == Greedy(nodes, m - 1)
    ensures Greedy(nodes, k) == Greedy(nodes, m)
  {
  }

  lemma OneMore(nodes: seq<Node>, k: nat)
    requires k > 0
    ensures var before, all := Greedy(nodes, k - 1), Greedy(nodes, k);
      before == all || all == before + [FirstReady(nodes, Elems(before), 0)]
  {
  }

  lemma NextChoice(nodes: seq<Node>, m: nat, k: nat)
    requires m < k && Greedy(nodes, m) <= Greedy(nodes, k - 1)
    ensures Greedy(nodes, m) <= Greedy(nodes, k)
  {
    OneMore(nodes, k);
  }

  lemma StillStuck(nodes: seq<Node>, m: nat, k: nat)
    requires 0 < m < k && Greedy(nodes, m - 1) == Greedy(nodes, m) == Greedy(nodes, k - 1)
    ensures Greedy(nodes, k) == Greedy(nodes, m)
  {
    SameChoice(nodes, k, m);
  }

  /** Further choices extend the order, or it is stuck for good. */
  lemma {:induction false} ChoicesExtend(nodes: seq<Node>, m: nat, k: nat)
    requires m <= k
    ensures Greedy(nodes, m) <= Greedy(nodes, k)
    decreases k
  {
    if m < k {
      ChoicesExtend(nodes, m, k - 1);
      NextChoice(nodes, m, k);
    }
  }

  lemma {:induction false} StuckForGood(nodes: seq<Node>, m: nat, k: nat)
    requires 0 < m <= k && Greedy(nodes, m - 1) == Greedy(nodes, m)
    ensures Greedy(nodes, k) == Greedy(nodes, m)
    decreases k
  {
    if m < k {
      StuckForGood(nodes, m, k - 1);
      StillStuck(nodes, m, k);
    }
  }

  /** Until it is stuck the order grows by one with each choice. */
  lemma {:induction false} GrowsByOne(nodes: seq<Node>, m: nat, k: nat)
    requires m <= |Greedy(nodes, k)|
    ensures m <= k && |Greedy(nodes, m)| == m
    decreases m
  {
    if m > 0 {
      GrowsByOne(nodes, m - 1, k);
      OneMore(nodes, m);
      if Greedy(nodes, m - 1) == Greedy(nodes, m) {
        StuckForGood(nodes, m, k);
      }
    }
  }

  lemma PrefixKept(nodes: seq<Node>, k: nat, m: nat)
    requires m <= |Greedy(nodes, k)|
    ensures Greedy(nodes, k)[..m] == Greedy(nodes, m)
  {
    GrowsByOne(nodes, m, k);
    ChoicesExtend(nodes, m, k);
  }

  /** Each greedy choice is the first node ready at the time. */
  lemma GreedyPrefix(nodes: seq<Node>, k: nat, m: nat)
    requires m <= |Greedy(nodes, k)|
    ensures Greedy(nodes, k)[..m] == Greedy(nodes, m)
    ensures m < |Greedy(nodes, k)| ==> Greedy(nodes, k)[m] == FirstReady(nodes, Elems(Greedy(nodes, m)), 0)
  {
    PrefixKept(nodes, k, m);
    if m < |Greedy(nodes, k)| {
      PrefixKept(nodes, k, m + 1);
      OneMore(nodes, m + 1);
      assert Greedy(nodes, k)[..m + 1][m] == Greedy(nodes, k)[m];
    }
  }

  lemma GreedyRespects(nodes: seq<Node>, k: nat)
    ensures Respects(nodes, Greedy(nodes, k))
  {
    var order := Greedy(nodes, k);
    forall m | 0 <= m < |order|
      ensures Ready(nodes, Elems(order[..m]), order[m])
    {
      GreedyPrefix(nodes, k, m);
    }
    forall a, b | 0 <= a < b < |order|
      ensures order[a] != order[b]
    {
      assert order[a] in order[..b];
      assert order[a] in Elems(order[..b]);
    }
  }

  lemma {:induction false} ElemsSize(order: seq<nat>)
    requires Distinct(order)
    ensures |Elems(order)| == |order|
  {
    if order != [] {
      var last := |order| - 1;
      ElemsSize(order[..last]);
      assert Elems(order) == Elems(order[..last]) + {order[last]};
    }
  }

  function Upto(n: nat): (s: set<nat>)
    ensures |s| == n
    ensures forall i :: i in s <==> 0 <= i < n
  {
    if n == 0 then {} else Upto(n - 1) + {n - 1}
  }

  /** Pigeonhole: distinct indices below `n` number at most `n`, and exactly `n` only if none is missing. */
  lemma Pigeonhole(order: seq<nat>, n: nat)
    requires Distinct(order) && forall m :: 0 <= m < |order| ==> order[m] < n
    ensures |order| <= n
    ensures |order| == n ==> forall i :: 0 <= i < n ==> i in order
  {
    ElemsSize(order);
    var missing := Upto(n) - Elems(order);
    assert Upto(n) == Elems(order) + missing;
    assert |Upto(n)| == |Elems(order)| + |missing|;
    if |order| == n {
      assert missing == {};
      forall i | 0 <= i < n
        ensures i in order
      {
        assert i in Upto(n);
      }
    }
  }

  // ---- Stuck exactly when cyclic ----

  /** Node `i` depends on a member of `open`. */
  ghost predicate Waits(nodes: seq<Node>, open: set<nat>, i: nat) {
    exists j :: j in open && Edge(nodes, j, i)
  }

  lemma WalkExtends(nodes: seq<Node>, walk: seq<nat>, next: nat)
    requires IsWalk(nodes, walk) && walk != [] && Edge(nodes, walk[|walk| - 1], next)
    ensures IsWalk(nodes, walk + [next])
  {
    var longer := walk + [next];
    forall k | 0 <= k < |longer| - 1
      ensures Edge(nodes, longer[k], longer[k + 1])
    {
      assert k < |walk| - 1 ==> Edge(nodes, walk[k], walk[k + 1]);
    }
  }

  /** Walks the dependency edges backwards for `steps` steps inside a set in which every node waits for another
      member. */
  lemma {:induction false} BackWalk(nodes: seq<Node>, open: set<nat>, from: nat, steps: nat) returns (walk: seq<nat>)
    requires from in open
    requires forall i {:trigger Waits(nodes, open, i)} :: i in open ==> Waits(nodes, open, i)
    ensures |walk| == steps + 1 && IsWalk(nodes, walk) && walk[steps] == from
    ensures forall m :: 0 <= m < |walk| ==> walk[m] in open
    decreases steps
  {
    if steps == 0 {
      walk := [from];
    } else {
      assert Waits(nodes, open, from);
      var j :| j in open && Edge(nodes, j, from);
      var rest := BackWalk(nodes, open, j, steps - 1);
      walk := rest + [from];
      WalkExtends(nodes, rest, from);
    }
  }

  /** Following dependencies inside a set that waits on itself must come back to a node already seen. */
  lemma WaitingMeansCyclic(nodes: seq<Node>, open: set<nat>, from: nat)
    requires from in open
    requires forall i :: i in open ==> i < |nodes|
    requires forall i {:trigger Waits(nodes, open, i)} :: i in open ==> Waits(nodes, open, i)
    ensures Cyclic(nodes)
  {
    var walk := BackWalk(nodes, open, from, |nodes|);
    if Distinct(walk) {
      Pigeonhole(walk, |nodes|);
    }
    var a, b :| 0 <= a < b < |walk| && walk[a] == walk[b];
    var cycle := walk[a..b + 1];
    forall k | 0 <= k < |cycle| - 1
      ensures Edge(nodes, cycle[k], cycle[k + 1])
    {
      assert Edge(nodes, walk[a + k], walk[a + k + 1]);
    }
    assert IsWalk(nodes, cycle);
    assert |cycle| >= 2 && cycle[0] == cycle[|cycle| - 1];
  }

  lemma StuckMeansCyclic(nodes: seq<Node>, done: set<nat>, from: nat)
    requires from < |nodes| && from !in done
    requires forall i {:trigger Ready(nodes, done, i)} :: !Ready(nodes, done, i)
    ensures Cyclic(nodes)
  {
    var open := Upto(|nodes|) - done;
    forall i | i in open
      ensures Waits(nodes, open, i)
    {
      assert !Ready(nodes, done, i);
      var j :| Edge(nodes, j, i) && j !in done;
      assert j in open;
    }
    WaitingMeansCyclic(nodes, open, from);
  }

  /** If the first `k` greedy choices place fewer than `k` nodes, no further node is ready. */
  lemma {:induction false} ShortMeansStuck(nodes: seq<Node>, k: nat)
    requires |Greedy(nodes, k)| < k
    ensures forall i {:trigger Ready(nodes, Elems(Greedy(nodes, k)), i)} :: !Ready(nodes, Elems(Greedy(nodes, k)), i)
  {
    var order := Greedy(nodes, k - 1);
    if |order| < k - 1 {
      ShortMeansStuck(nodes, k - 1);
    }
    assert FirstReady(nodes, Elems(order), 0) == |nodes|;
  }

  ghost function Position(order: seq<nat>, i: nat): (p: nat)
    requires i in order
    ensures p < |order| && order[p] == i
  {
    var p :| 0 <= p < |order| && order[p] == i; p
  }

  lemma {:induction false} WalkAdvances(nodes: seq<Node>, order: seq<nat>, walk: seq<nat>)
    requires Respects(nodes, order) && (forall i :: 0 <= i < |nodes| ==> i in order)
    requires |walk| >= 2 && IsWalk(nodes, walk)
    ensures walk[0] in order && walk[|walk| - 1] in order
    ensures Position(order, walk[0]) < Position(order, walk[|walk| - 1])
  {
    assert Edge(nodes, walk[0], walk[1]);
    var p := Position(order, walk[1]);
    assert walk[0] in Elems(order[..p]);
    var q :| 0 <= q < p && order[q] == walk[0];
    assert q == Position(order, walk[0]);
    if |walk| > 2 {
      forall k | 0 <= k < |walk[1..]| - 1
        ensures Edge(nodes, walk[1..][k], walk[1..][k + 1])
      {
        assert Edge(nodes, walk[k + 1], walk[k + 2]);
      }
      WalkAdvances(nodes, order, walk[1..]);
    }
  }

  /** The greedy order covers all nodes exactly when the dependency graph has no cycle. */
  lemma CompleteIffAcyclic(nodes: seq<Node>)
    ensures |Greedy(nodes, |nodes|)| == |nodes| <==> !Cyclic(nodes)
  {
    var order := Greedy(nodes, |nodes|);
    GreedyRespects(nodes, |nodes|);
    Pigeonhole(order, |nodes|);
    if |order| < |nodes| {
      ShortMeansStuck(nodes, |nodes|);
      ElemsSize(order);
      assert Elems(order) != Upto(|nodes|);
      assert Elems(order) <= Upto(|nodes|);
      var i: nat :| i < |nodes| && i !in Elems(order);
      StuckMeansCyclic(nodes, Elems(order), i);
    } else if Cyclic(nodes) {
      var walk: seq<nat> :| |walk| >= 2 && IsWalk(nodes, walk) && walk[0] == walk[|walk| - 1];
      WalkAdvances(nodes, order, walk);
    }
  }

  // ---- What the sort promises ----

  /** `sorted` is `nodes` in some other order. */
  ghost predicate Rearranged(nodes: seq<Node>, sorted: seq<Node>) {
    exists order: seq<nat> ::
      && |order| == |nodes| && Distinct(order)
      && (forall m :: 0 <= m < |order| ==> order[m] < |nodes|)
      && sorted == Pick(nodes, order)
  }

  lemma {:induction false} DepsFirstWalk(nodes: seq<Node>, walk: seq<nat>)
    requires DepsFirst(nodes) && |walk| >= 2 && IsWalk(nodes, walk)
    ensures walk[0] < walk[|walk| - 1]
  {
    assert Edge(nodes, walk[0], walk[1]);
    if |walk| > 2 {
      forall k | 0 <= k < |walk[1..]| - 1
        ensures Edge(nodes, walk[1..][k], walk[1..][k + 1])
      {
        assert Edge(nodes, walk[k + 1], walk[k + 2]);
      }
      DepsFirstWalk(nodes, walk[1..]);
    }
  }

  lemma PickDepsFirst(nodes: seq<Node>, order: seq<nat>)
    requires Respects(nodes, order) && forall i :: 0 <= i < |nodes| ==> i in order
    ensures DepsFirst(Pick(nodes, order))
  {
    forall a: nat, b: nat | Edge(Pick(nodes, order), a, b)
      ensures a < b
    {
      assert Edge(nodes, order[a], order[b]);
      assert order[a] in Elems(order[..b]);
      var p :| 0 <= p < b && order[p] == order[a];
    }
  }

  lemma OrderedIsAcyclic(nodes: seq<Node>)
    requires DepsFirst(nodes)
    ensures !Cyclic(nodes)
  {
    if Cyclic(nodes) {
      var walk: seq<nat> :| |walk| >= 2 && IsWalk(nodes, walk) && walk[0] == walk[|walk| - 1];
      DepsFirstWalk(nodes, walk);
    }
  }

  lemma CyclicStays(nodes: seq<Node>)
    requires Cyclic(nodes)
    ensures SortSpec(nodes) == nodes
  {
    CompleteIffAcyclic(nodes);
  }

  lemma AcyclicIsPicked(nodes: seq<Node>)
    requires !Cyclic(nodes)
    ensures SortSpec(nodes) == Pick(nodes, Greedy(nodes, |nodes|))
    ensures Respects(nodes, Greedy(nodes, |nodes|)) && |Greedy(nodes, |nodes|)| == |nodes|
    ensures DepsFirst(SortSpec(nodes))
  {
    var order := Greedy(nodes, |nodes|);
    GreedyRespects(nodes, |nodes|);
    CompleteIffAcyclic(nodes);
    Pigeonhole(order, |nodes|);
    PickDepsFirst(nodes, order);
  }

  lemma ItselfRearranged(nodes: seq<Node>)
    ensures Rearranged(nodes, nodes)
  {
    assert Pick(nodes, Identity(|nodes|)) == nodes;
  }

  /** The sort rearranges its input, puts every known dependency before its dependents
      exactly when there is no cycle, and otherwise gives the input back. */
  lemma SortOrders(nodes: seq<Node>)
    ensures Rearranged(nodes, SortSpec(nodes))
    ensures DepsFirst(SortSpec(nodes)) <==> !Cyclic(nodes)
    ensures Cyclic(nodes) ==> SortSpec(nodes) == nodes
  {
    if Cyclic(nodes) {
      CyclicStays(nodes);
      ItselfRearranged(nodes);
      if DepsFirst(nodes) {
        OrderedIsAcyclic(nodes);
      }
    } else {
      AcyclicIsPicked(nodes);
    }
  }

  ghost predicate LexLeq(a: seq<nat>, b: seq<nat>) {
    a == b || exists k :: 0 <= k < |a| && k < |b| && a[..k] == b[..k] && a[k] < b[k]
  }

  lemma {:induction false} FirstDifference(a: seq<nat>, b: seq<nat>) returns (k: nat)
    requires |a| == |b| && a != b
    ensures k < |a| && a[..k] == b[..k] && a[k] != b[k]
  {
    if a[0] != b[0] {
      k := 0;
    } else {
      assert a == [a[0]] + a[1..] && b == [b[0]] + b[1..];
      var m := FirstDifference(a[1..], b[1..]);
      k := m + 1;
      assert a[..k] == [a[0]] + a[1..][..m] && b[..k] == [b[0]] + b[1..][..m];
    }
  }

  /** Among all orders that put dependencies first, the sort takes the lexicographically least by original position. */
  lemma SortIsLeast(nodes: seq<Node>, other: seq<nat>)
    requires !Cyclic(nodes)
    requires Respects(nodes, other) && |other| == |nodes|
    ensures SortSpec(nodes) == Pick(nodes, Greedy(nodes, |nodes|))
    ensures LexLeq(Greedy(nodes, |nodes|), other)
  {
    AcyclicIsPicked(nodes);
    if Greedy(nodes, |nodes|) != other {
      var k := FirstDifference(Greedy(nodes, |nodes|), other);
      FirstChoiceIsLess(nodes, other, k);
    }
  }

  /** Where another order differs first, the greedy choice is the smaller one. */
  lemma FirstChoiceIsLess(nodes: seq<Node>, other: seq<nat>, k: nat)
    requires Respects(nodes, other) && k < |other| && k < |Greedy(nodes, |nodes|)|
    requires Greedy(nodes, |nodes|)[..k] == other[..k] && Greedy(nodes, |nodes|)[k] != other[k]
    ensures Greedy(nodes, |nodes|)[k] < other[k]
  {
    GreedyPrefix(nodes, |nodes|, k);
    assert Ready(nodes, Elems(other[..k]), other[k]);
  }

  ghost function Identity(n: nat): (order: seq<nat>)
    ensures |order| == n && forall i :: 0 <= i < n ==> order[i] == i
  {
    if n == 0 then [] else Identity(n - 1) + [n - 1]
  }

  lemma NextIsReady(nodes: seq<Node>, k: nat)
    requires DepsFirst(nodes) && k < |nodes|
    ensures Ready(nodes, Elems(Identity(k)), k)
    ensures forall j: nat :: j in Elems(Identity(k)) <==> j < k
  {
    forall j: nat | j < k
      ensures j in Elems(Identity(k))
    {
      assert Identity(k)[j] in Identity(k);
    }
  }

  lemma {:induction false} OrderedStaysPut(nodes: seq<Node>, k: nat)
    requires DepsFirst(nodes) && k <= |nodes|
    ensures Greedy(nodes, k) == Identity(k)
  {
    if k > 0 {
      OrderedStaysPut(nodes, k - 1);
      NextIsReady(nodes, k - 1);
    }
  }

  /** An already ordered input comes back unchanged, so sorting twice is sorting once. */
  lemma SortIsStable(nodes: seq<Node>)
    ensures DepsFirst(nodes) ==> SortSpec(nodes) == nodes
    ensures SortSpec(SortSpec(nodes)) == SortSpec(nodes)
  {
    if DepsFirst(nodes) {
      OrderedStaysPut(nodes, |nodes|);
      assert Pick(nodes, Greedy(nodes, |nodes|)) == nodes;
    }
    SortOrders(nodes);
    if !Cyclic(nodes) {
      var sorted := SortSpec(nodes);
      OrderedStaysPut(sorted, |sorted|);
      assert Pick(sorted, Greedy(sorted, |sorted|)) == sorted;
    }
  }
}
