/** The order in which sets are generated: each after the sets that it needs. */
module SetOrder {
  /** needs[i] lists the sets that set i needs. */
  type Needs = seq<seq<nat>>

  predicate Proper(needs: Needs) {
    forall i, j :: 0 <= i < |needs| && 0 <= j < |needs[i]| ==> needs[i][j] < |needs|
  }

  /** A set that can come after the sets in `before`. */
  predicate Ready(needs: Needs, before: seq<nat>, i: nat) {
    i < |needs| && i !in before && forall j :: j in needs[i] ==> j in before
  }

  /** Sets each of which comes once, after the sets that it needs. */
  predicate Steps(needs: Needs, order: seq<nat>) {
    forall k :: 0 <= k < |order| ==> Ready(needs, order[..k], order[k])
  }

  /** Every set once, after the sets that it needs. */
  predicate Respects(needs: Needs, order: seq<nat>) {
    |order| == |needs| && Steps(needs, order)
  }

  /** Each place holds the least set that is ready for it. */
  predicate Greedy(needs: Needs, order: seq<nat>) {
    forall k :: 0 <= k < |order| ==> Ready(needs, order[..k], order[k])
                                     && forall i :: 0 <= i < order[k] ==> !Ready(needs, order[..k], i)
  }

  /** The lexicographic order. */
  predicate NotAfter(a: seq<nat>, b: seq<nat>) {
    a == [] || (b != [] && (a[0] < b[0] || (a[0] == b[0] && NotAfter(a[1..], b[1..]))))
  }

  /** A ring of sets, each of which needs the next. */
  predicate Cycle(needs: Needs, ring: seq<nat>) {
    && ring != [] && (forall k :: 0 <= k < |ring| ==> ring[k] < |needs|)
    && (forall k :: 0 <= k < |ring| - 1 ==> ring[k + 1] in needs[ring[k]])
    && ring[0] in needs[ring[|ring| - 1]]
  }

  // ------------------------------------------------------------------------------------- the least order

  /** From the first place where they differ, a greedy order is the lesser. */
  lemma {:induction false} LeastFrom(needs: Needs, order: seq<nat>, other: seq<nat>, k: nat)
    requires Greedy(needs, order) && Respects(needs, other) && |order| == |other| && k <= |order|
    requires order[..k] == other[..k]
    ensures NotAfter(order[k..], other[k..])
    decreases |order| - k
  {
    hide Ready;
    if k < |order| {
      assert Ready(needs, other[..k], other[k]);
      if order[k] == other[k] {
        assert order[..k + 1] == order[..k] + [order[k]] && other[..k + 1] == other[..k] + [other[k]];
        LeastFrom(needs, order, other, k + 1);
        assert order[k..][1..] == order[k + 1..] && other[k..][1..] == other[k + 1..];
      } else {
        assert order[k] < other[k];
      }
    }
  }

  /** A greedy order comes before every other order. */
  lemma GreedyIsLeast(needs: Needs, order: seq<nat>, other: seq<nat>)
    requires Greedy(needs, order) && |order| == |needs| && Respects(needs, other)
    ensures Respects(needs, order) && NotAfter(order, other)
  {
    LeastFrom(needs, order, other, 0);
    assert order[0..] == order && other[0..] == other;
  }

  // ------------------------------------------------------------------------------------- cycles

  lemma {:induction false} CoversAll(order: seq<nat>, n: nat)
    requires |order| == n && (forall k :: 0 <= k < n ==> order[k] < n)
    requires forall i, j :: 0 <= i < j < n ==> order[i] != order[j]
    ensures forall i :: 0 <= i < n ==> i in order
  {
    var s := set k | 0 <= k < n :: order[k];
    var all := Below(n);
    Distinct(order, n);
    if exists i :: 0 <= i < n && i !in order {
      var i :| 0 <= i < n && i !in order;
      assert s <= all - {i};
      Subset(s, all - {i});
    }
  }

  lemma {:induction false} Distinct(order: seq<nat>, n: nat)
    requires n <= |order| && forall i, j :: 0 <= i < j < n ==> order[i] != order[j]
    ensures |set k | 0 <= k < n :: order[k]| == n
  {
    if n > 0 {
      Distinct(order, n - 1);
      var s := set k | 0 <= k < n - 1 :: order[k];
      assert order[n - 1] !in s;
      assert (set k | 0 <= k < n :: order[k]) == s + {order[n - 1]};
    }
  }

  function Below(n: nat): (r: set<nat>)
    ensures |r| == n && forall i :: i in r <==> 0 <= i < n
  {
    if n == 0 then {} else Below(n - 1) + {n - 1}
  }

  lemma {:induction false} Subset(a: set<nat>, b: set<nat>)
    requires a <= b
    ensures |a| <= |b|
    decreases |a|
  {
    if a != {} {
      var x :| x in a;
      Subset(a - {x}, b - {x});
    }
  }

  /** The place of a set in an order. */
  function Place(order: seq<nat>, i: nat): (k: nat)
    requires i in order
    ensures k < |order| && order[k] == i
  {
    if order[0] == i then 0 else 1 + Place(order[1..], i)
  }

  lemma OrderIsDistinct(needs: Needs, order: seq<nat>)
    requires Respects(needs, order)
    ensures forall i :: 0 <= i < |needs| ==> i in order
  {
    StepsAreDistinct(needs, order);
    CoversAll(order, |needs|);
  }

  /** A set that another needs has the earlier place. */
  lemma NeedIsEarlier(needs: Needs, order: seq<nat>, i: nat, j: nat)
    requires Steps(needs, order) && i < |needs| && i in order && j in needs[i]
    ensures j in order && Place(order, j) < Place(order, i)
  {
    StepsAreDistinct(needs, order);
    var k := Place(order, i);
    assert Ready(needs, order[..k], order[k]);
    var m :| 0 <= m < k && order[..k][m] == j;
    assert order[m] == j;
  }

  lemma StepsAreDistinct(needs: Needs, order: seq<nat>)
    requires Steps(needs, order)
    ensures forall i, j :: 0 <= i < j < |order| ==> order[i] != order[j]
  {
    forall i, j | 0 <= i < j < |order| ensures order[i] != order[j] {
      assert Ready(needs, order[..j], order[j]);
      assert order[..j][i] == order[i];
    }
  }

  /** Along a ring the places fall. */
  lemma {:induction false} PlacesFall(needs: Needs, order: seq<nat>, ring: seq<nat>, a: nat, k: nat)
    requires Steps(needs, order) && Cycle(needs, ring) && a <= k < |ring| && ring[a] in order
    ensures ring[k] in order && Place(order, ring[k]) <= Place(order, ring[a]) - (k - a)
  {
    hide Steps, Place;
    if a < k {
      PlacesFall(needs, order, ring, a, k - 1);
      assert ring[(k - 1) + 1] in needs[ring[k - 1]];
      NeedIsEarlier(needs, order, ring[k - 1], ring[k]);
    }
  }

  /** No set of a cycle has a place after the sets that it needs. */
  lemma NoPlaceOnCycle(needs: Needs, order: seq<nat>, ring: seq<nat>, a: nat)
    requires Steps(needs, order) && Cycle(needs, ring) && a < |ring|
    ensures ring[a] !in order
  {
    hide Steps, Place;
    if ring[a] in order {
      PlacesFall(needs, order, ring, a, |ring| - 1);
      NeedIsEarlier(needs, order, ring[|ring| - 1], ring[0]);
      PlacesFall(needs, order, ring, 0, |ring| - 1);
    }
  }

  lemma NoOrderOfCycle(needs: Needs, order: seq<nat>, ring: seq<nat>)
    requires Cycle(needs, ring)
    ensures !Respects(needs, order)
  {
    if Respects(needs, order) {
      OrderIsDistinct(needs, order);
      NoPlaceOnCycle(needs, order, ring, 0);
    }
  }

  // ------------------------------------------------------------------------------------- sets that lead to a cycle

  predicate Walk(needs: Needs, w: seq<nat>) {
    && w != [] && (forall k :: 0 <= k < |w| ==> w[k] < |needs|)
    && (forall k :: 0 <= k < |w| - 1 ==> w[k + 1] in needs[w[k]])
  }

  ghost predicate OnCycle(needs: Needs, i: nat) {
    exists ring :: Cycle(needs, ring) && i in ring
  }

  /** The set is on a cycle, or needs one that leads to a cycle. */
  ghost predicate Leads(needs: Needs, i: nat) {
    exists w :: Walk(needs, w) && w[0] == i && OnCycle(needs, w[|w| - 1])
  }

  /** A walk from a set that has a place stays among the sets that have one. */
  lemma {:induction false} WalkStays(needs: Needs, order: seq<nat>, w: seq<nat>, k: nat)
    requires Steps(needs, order) && Walk(needs, w) && k < |w| && w[0] in order
    ensures w[k] in order
  {
    hide Steps, Place;
    if k > 0 {
      WalkStays(needs, order, w, k - 1);
      assert w[(k - 1) + 1] in needs[w[k - 1]];
      NeedIsEarlier(needs, order, w[k - 1], w[k]);
    }
  }

  lemma LeadsHasNoPlace(needs: Needs, order: seq<nat>, i: nat)
    requires Steps(needs, order) && Leads(needs, i)
    ensures i !in order
  {
    hide Steps;
    var w :| Walk(needs, w) && w[0] == i && OnCycle(needs, w[|w| - 1]);
    var ring :| Cycle(needs, ring) && w[|w| - 1] in ring;
    var a :| 0 <= a < |ring| && ring[a] == w[|w| - 1];
    NoPlaceOnCycle(needs, order, ring, a);
    if i in order { WalkStays(needs, order, w, |w| - 1); }
  }

  /** Where no set is ready, the sets without a place are those that lead to a cycle. */
  lemma StuckLeads(needs: Needs, order: seq<nat>, i: nat)
    requires Proper(needs) && Steps(needs, order) && Stuck(needs, order) && i < |needs|
    ensures i !in order <==> Leads(needs, i)
  {
    hide Steps, Stuck, Leads;
    if Leads(needs, i) { LeadsHasNoPlace(needs, order, i); }
    if i !in order { StuckWalk(needs, order, i); }
  }

  lemma StuckWalk(needs: Needs, order: seq<nat>, i: nat)
    requires Proper(needs) && Stuck(needs, order) && i < |needs| && i !in order
    ensures Leads(needs, i)
  {
    hide Stuck;
    var path, k := FindCycle(needs, order, [i]);
    var last := path[|path| - 1];
    assert last == path[k..][|path| - k - 1];
    assert OnCycle(needs, last);
    assert Walk(needs, path) && path[0] == i;
  }

  /**
    The sets that lead to a cycle are the sets on one exactly when every set that needs one of those is one of them.
   */
  lemma LeadsExactly(needs: Needs)
    ensures (forall i :: 0 <= i < |needs| && Leads(needs, i) ==> OnCycle(needs, i)) <==>
              forall i, j :: 0 <= i < |needs| && j in needs[i] && OnCycle(needs, j) ==> OnCycle(needs, i)
  {
    hide OnCycle;
    if forall i :: 0 <= i < |needs| && Leads(needs, i) ==> OnCycle(needs, i) {
      forall i, j | 0 <= i < |needs| && j in needs[i] && OnCycle(needs, j) ensures OnCycle(needs, i) {
        CycleIsProper(needs, j);
        assert Walk(needs, [i, j]) && [i, j][|[i, j]| - 1] == j;
      }
    }
    if forall i, j :: 0 <= i < |needs| && j in needs[i] && OnCycle(needs, j) ==> OnCycle(needs, i) {
      forall i | 0 <= i < |needs| && Leads(needs, i) ensures OnCycle(needs, i) {
        var w :| Walk(needs, w) && w[0] == i && OnCycle(needs, w[|w| - 1]);
        WalkOnCycle(needs, w, 0);
      }
    }
  }

  lemma CycleIsProper(needs: Needs, i: nat)
    requires OnCycle(needs, i)
    ensures i < |needs|
  {
  }

  lemma {:induction false} WalkOnCycle(needs: Needs, w: seq<nat>, k: nat)
    requires Walk(needs, w) && OnCycle(needs, w[|w| - 1]) && k < |w|
    requires forall i, j :: 0 <= i < |needs| && j in needs[i] && OnCycle(needs, j) ==> OnCycle(needs, i)
    ensures OnCycle(needs, w[k])
    decreases |w| - k
  {
    hide OnCycle;
    if k + 1 < |w| {
      WalkOnCycle(needs, w, k + 1);
      assert w[k + 1] in needs[w[k]];
    }
  }

  /** A set that leads to a cycle without being on one. */
  lemma LeadsWithoutCycle()
    ensures var needs := [[1], [0], [0]]; Leads(needs, 2) && !OnCycle(needs, 2)
  {
    var needs := [[1], [0], [0]];
    assert Cycle(needs, [0, 1]) && 0 in [0, 1];
    assert OnCycle(needs, 0);
    var w := [2, 0];
    assert Walk(needs, w) && w[|w| - 1] == 0;
    if OnCycle(needs, 2) { var p := NeededOnCycle(needs, 2); }
  }

  /** A set on a cycle is needed by another. */
  lemma NeededOnCycle(needs: Needs, i: nat) returns (p: nat)
    requires OnCycle(needs, i)
    ensures p < |needs| && i in needs[p]
  {
    var ring :| Cycle(needs, ring) && i in ring;
    var k :| 0 <= k < |ring| && ring[k] == i;
    if k == 0 {
      p := ring[|ring| - 1];
    } else {
      p := ring[k - 1];
      assert ring[(k - 1) + 1] in needs[ring[k - 1]];
    }
  }

  /** A way through sets that are not done: each needs the next. */
  predicate Way(needs: Needs, path: seq<nat>, done: seq<nat>) {
    && (forall k :: 0 <= k < |path| ==> path[k] < |needs| && path[k] !in done)
    && (forall k :: 0 <= k < |path| - 1 ==> path[k + 1] in needs[path[k]])
    && (forall i, j :: 0 <= i < j < |path| ==> path[i] != path[j])
  }

  predicate Stuck(needs: Needs, done: seq<nat>) {
    forall i :: 0 <= i < |needs| ==> !Ready(needs, done, i)
  }

  /** Where no set is ready, a way that follows the needs comes back to itself. */
  lemma {:induction false} FindCycle(needs: Needs, done: seq<nat>, path: seq<nat>) returns (way: seq<nat>, k: nat)
    requires Proper(needs) && Stuck(needs, done) && path != [] && Way(needs, path, done)
    ensures path <= way && Way(needs, way, done) && k < |way| && Cycle(needs, way[k..])
    decreases |needs| - |path|
  {
    WayIsShort(needs, path, done);
    var last := path[|path| - 1];
    assert !Ready(needs, done, last);
    var next :| next in needs[last] && next !in done;
    var n :| 0 <= n < |needs[last]| && needs[last][n] == next;
    if next in path {
      k :| 0 <= k < |path| && path[k] == next;
      way := path;
      Closes(needs, path, done, k);
    } else {
      var longer := path + [next];
      Longer(needs, path, done, next);
      WayIsShort(needs, longer, done);
      way, k := FindCycle(needs, done, longer);
    }
  }

  lemma WayIsShort(needs: Needs, path: seq<nat>, done: seq<nat>)
    requires Way(needs, path, done)
    ensures |path| <= |needs|
  {
    Distinct(path, |path|);
    var s := set k | 0 <= k < |path| :: path[k];
    Subset(s, Below(|needs|));
  }

  lemma Longer(needs: Needs, path: seq<nat>, done: seq<nat>, next: nat)
    requires Way(needs, path, done) && path != [] && next < |needs| && next !in done && next !in path
    requires next in needs[path[|path| - 1]]
    ensures Way(needs, path + [next], done)
  {
  }

  lemma Closes(needs: Needs, path: seq<nat>, done: seq<nat>, k: nat)
    requires Way(needs, path, done) && k < |path| && path[k] in needs[path[|path| - 1]]
    ensures Cycle(needs, path[k..])
  {
    var ring := path[k..];
    forall m | 0 <= m < |ring| - 1 ensures ring[m + 1] in needs[ring[m]] {
      assert ring[m + 1] == path[k + m + 1] && ring[m] == path[k + m];
    }
  }

  // ------------------------------------------------------------------------------------- the loop

  method AllDone(needed: seq<nat>, done: array<bool>) returns (all: bool)
    requires forall m :: 0 <= m < |needed| ==> needed[m] < done.Length
    ensures all <==> forall m :: 0 <= m < |needed| ==> done[needed[m]]
  {
    for n := 0 to |needed|
      invariant forall m :: 0 <= m < n ==> done[needed[m]]
    {
      if !done[needed[n]] { return false; }
    }
    return true;
  }

  /** A generation order, or the sets that the refusal names. */
  datatype Ordered = Order(order: seq<nat>) | Refused(named: seq<nat>)

  predicate Ascending(s: seq<nat>) {
    forall a, b :: 0 <= a < b < |s| ==> s[a] < s[b]
  }

  /** Refused when the needs have a cycle; the refusal names all sets that lead to one. */
  method OrderSets(needs: Needs) returns (r: Ordered)
    requires Proper(needs)
    ensures r.Refused? <==> exists ring :: Cycle(needs, ring)
    ensures r.Order? ==> Respects(needs, r.order)
    ensures r.Order? ==> forall other :: Respects(needs, other) ==> NotAfter(r.order, other)
    ensures r.Refused? ==> Ascending(r.named) && forall i: nat :: i in r.named <==> i < |needs| && Leads(needs, i)
  {
    hide Cycle, Respects, NotAfter, Ready, Leads;
    var n := |needs|;
    var done := new bool[n](i => false);
    var order: seq<nat> := [];
    while |order| < n
      invariant |order| <= n && Greedy(needs, order)
      invariant forall i :: 0 <= i < n ==> (done[i] <==> i in order)
      decreases n - |order|
    {
      var next := NextReady(needs, done, order);
      if next == n {
        Blocked(needs, order);
        var named := NotDone(done);
        forall i: nat | i < n ensures i in named <==> Leads(needs, i) { StuckLeads(needs, order, i); }
        return Refused(named);
      }
      done[next] := true;
      Extends(needs, order, next);
      order := order + [next];
    }
    Complete(needs, order);
    return Order(order);
  }

  /** The sets that are not done. */
  method NotDone(done: array<bool>) returns (named: seq<nat>)
    ensures Ascending(named) && forall i :: i in named <==> 0 <= i < done.Length && !done[i]
  {
    named := [];
    for i := 0 to done.Length
      invariant Ascending(named) && forall a :: 0 <= a < |named| ==> named[a] < i
      invariant forall j :: j in named <==> 0 <= j < i && !done[j]
    {
      if !done[i] { named := named + [i]; }
    }
  }

  /** The least set that is ready, or the number of sets when none is. */
  method NextReady(needs: Needs, done: array<bool>, ghost order: seq<nat>) returns (next: nat)
    requires Proper(needs) && done.Length == |needs| && forall i :: 0 <= i < |needs| ==> (done[i] <==> i in order)
    ensures next <= |needs| && (next < |needs| ==> Ready(needs, order, next))
    ensures forall i :: 0 <= i < next ==> !Ready(needs, order, i)
  {
    for i := 0 to |needs|
      invariant forall j :: 0 <= j < i ==> !Ready(needs, order, j)
    {
      var all := AllDone(needs[i], done);
      if !done[i] && all { return i; }
    }
    return |needs|;
  }

  lemma Extends(needs: Needs, order: seq<nat>, next: nat)
    requires Greedy(needs, order) && Ready(needs, order, next) && forall i :: 0 <= i < next ==> !Ready(needs, order, i)
    ensures Greedy(needs, order + [next])
  {
    hide Ready;
    var more := order + [next];
    forall k | 0 <= k < |more|
      ensures Ready(needs, more[..k], more[k]) && forall i :: 0 <= i < more[k] ==> !Ready(needs, more[..k], i)
    {
      if k < |order| { assert more[..k] == order[..k]; } else { assert more[..k] == order; }
    }
  }

  lemma Complete(needs: Needs, order: seq<nat>)
    requires Proper(needs) && Greedy(needs, order) && |order| == |needs|
    ensures Respects(needs, order) && !exists ring :: Cycle(needs, ring)
    ensures forall other :: Respects(needs, other) ==> NotAfter(order, other)
  {
    hide Ready, Cycle, NotAfter;
    assert Respects(needs, order);
    if exists ring :: Cycle(needs, ring) {
      var ring :| Cycle(needs, ring);
      NoOrderOfCycle(needs, order, ring);
    }
    forall other | Respects(needs, other) ensures NotAfter(order, other) { GreedyIsLeast(needs, order, other); }
  }

  /** When no set is ready and some are left, they hold a cycle. */
  lemma Blocked(needs: Needs, order: seq<nat>)
    requires Proper(needs) && Stuck(needs, order) && |order| < |needs| && Greedy(needs, order)
    ensures Steps(needs, order) && exists ring :: Cycle(needs, ring)
  {
    var i := Missing(needs, order);
    var way, k := FindCycle(needs, order, [i]);
  }

  lemma Missing(needs: Needs, order: seq<nat>) returns (i: nat)
    requires |order| < |needs|
    ensures i < |needs| && i !in order
  {
    var s := set k | 0 <= k < |order| :: order[k];
    AtMost(order, |order|);
    if Below(|needs|) <= s { Subset(Below(|needs|), s); }
    i :| i in Below(|needs|) && i !in s;
  }

  lemma {:induction false} AtMost(order: seq<nat>, n: nat)
    requires n <= |order|
    ensures |set k | 0 <= k < n :: order[k]| <= n
  {
    if n > 0 {
      AtMost(order, n - 1);
      assert (set k | 0 <= k < n :: order[k]) == (set k | 0 <= k < n - 1 :: order[k]) + {order[n - 1]};
    }
  }
}
