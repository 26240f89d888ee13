/**
  The three promises of canonicalization: it keeps the meaning, it is a fixed point, and it depends on the shape alone.
 */
module CanonicalForm {
  import opened Common
  import opened Ir
  import opened IrMeaning
  import opened Canonical
  import opened CanonicalLaws
  import opened CanonicalMeaning

  /** When canonicalization reports no error, the new request with the new parameters means what the old one meant. */
  lemma CanonicalKeepsMeaning(i: Interp, r: Request, params: seq<Value>)
    requires Refused(r, params).None?
    ensures Mean(i, CanonOf(r, params).ir, CanonOf(r, params).params) == Mean(i, r, params)
  {
    hide Slots, Fill, Mean, Leftover;
    var ss := Slots(r);
    var c := CanonOf(r, params);
    var e := Swap(Same, params, c.params);
    forall n | 0 <= n < |ss|
      ensures AgreeAt(ss, 0, e, n)
    {
      assert c.params[n] == Values(ss, params)[n];
    }
    RequestMean(i, r, 0, e);
    MeanIgnoresCount(i, Fill(r, 0, Same), c.params, |c.params|);
  }

  lemma MeanIgnoresCount(i: Interp, r: Request, params: seq<Value>, n: int)
    ensures Mean(i, r.(nParams := n), params) == Mean(i, r, params)
  {
  }

  lemma CountIsNoPlace(r: Request, n: int, k: int, f: int -> int)
    ensures Slots(r.(nParams := n)) == Slots(r)
    ensures Fill(r.(nParams := n), k, f) == Fill(r, k, f).(nParams := n)
  {
    hide QuerySlots, AssignsSlots, RowsSlots, OptimistSlots, FillQuery, FillAssigns, FillRows, FillOptimist;
  }

  /** The places of a canonical request are numbered 0, 1, 2, ... */
  lemma CanonicalSlots(r: Request, params: seq<Value>)
    ensures Slots(CanonOf(r, params).ir) == Renamed(Slots(r), 0, Same)
    ensures Fill(CanonOf(r, params).ir, 0, Same) == CanonOf(r, params).ir
  {
    hide Slots, Fill, Leftover;
    RequestLaw(r, 0, Same, 0, Same);
    CountIsNoPlace(Fill(r, 0, Same), CanonOf(r, params).ir.nParams, 0, Same);
  }

  lemma NoBadPlace(r: Request, params: seq<Value>, n: nat)
    requires Refused(r, params).None? && n < |Slots(r)|
    ensures Fault(Slots(r)[n], params).None? && !Slots(r)[n].Bad?
    ensures Fault(Renamed(Slots(r), 0, Same)[n], CanonOf(r, params).params).None?
    ensures Bound(Renamed(Slots(r), 0, Same)[n], CanonOf(r, params).params) == CanonOf(r, params).params[n]
  {
    hide Slots, Fill, Leftover;
    var s := Slots(r)[n];
    assert CanonOf(r, params).params[n] == Values(Slots(r), params)[n] == Bound(s, params);
  }

  lemma LeftoverTail(params: seq<Value>, named: set<int>, i: nat, n: nat)
    requires n <= |params| && i <= |params| && forall x :: 0 <= x < |params| ==> (x in named <==> x < n)
    ensures Leftover(params, named, i) == if i < n then params[n..] else params[i..]
    decreases |params| - i
  {
    if i < |params| { LeftoverTail(params, named, i + 1, n); }
  }

  lemma {:induction false} LeftoverHolds(params: seq<Value>, named: set<int>, i: nat, k: nat)
    requires i <= k < |params| && k !in named
    ensures params[k] in Leftover(params, named, i)
    decreases |params| - i
  {
    var first, rest := if i in named then [] else [params[i]], Leftover(params, named, i + 1);
    if i < k {
      LeftoverHolds(params, named, i + 1, k);
      assert params[k] in first + rest;
    } else {
      assert (first + rest)[0] == params[k];
    }
  }

  /** No parameter is lost, whether the tree refers to it or not. */
  lemma CanonicalKeepsParams(r: Request, params: seq<Value>, k: nat)
    requires Refused(r, params).None? && k < |params|
    ensures params[k] in CanonOf(r, params).params
  {
    hide Slots, Fill, Leftover;
    var ss := Slots(r);
    if k in Named(ss) {
      var n :| 0 <= n < |ss| && (ss[n].Of? || ss[n].Page?) && ss[n].p == k;
      assert Values(ss, params)[n] == params[k];
      assert CanonOf(r, params).params[n] == params[k];
    } else {
      LeftoverHolds(params, Named(ss), 0, k);
    }
  }

  /** Canonicalizing a canonical request reports no error and changes neither its tree nor its parameters. */
  lemma CanonicalIsFixed(r: Request, params: seq<Value>)
    requires Refused(r, params).None?
    ensures var c := CanonOf(r, params);
            Refused(c.ir, c.params).None? && CanonOf(c.ir, c.params) == c
  {
    hide Slots, Fill, Leftover, Renamed;
    var c := CanonOf(r, params);
    var ss := Slots(r);
    var again := Slots(c.ir);
    CanonicalSlots(r, params);
    forall n | 0 <= n < |again|
      ensures Fault(again[n], c.params).None? && Bound(again[n], c.params) == c.params[n]
    {
      NoBadPlace(r, params, n);
    }
    assert Values(again, c.params) == c.params[..|ss|];
    forall x | 0 <= x < |c.params|
      ensures x in Named(again) <==> x < |ss|
    {
      RenamedNamed(r, params, x);
    }
    LeftoverTail(c.params, Named(again), 0, |ss|);
    assert c.params[..|ss|] + c.params[|ss|..] == c.params;
    assert |ss| == 0 ==> c.params[0..] == c.params;
  }

  lemma RenamedNamed(r: Request, params: seq<Value>, x: nat)
    requires Refused(r, params).None?
    ensures x in Named(Renamed(Slots(r), 0, Same)) <==> x < |Slots(r)|
  {
    hide Slots, Fill, Leftover;
    var ss := Slots(r);
    var rs := Renamed(ss, 0, Same);
    forall n | 0 <= n < |ss|
      ensures (rs[n].Of? || rs[n].Page?) && rs[n].p == n
    {
      NoBadPlace(r, params, n);
    }
    if x < |ss| { assert rs[x] in rs; }
  }

  /**
    A request without its parameter numbers: an IN list is as long as its bucket, and a root limit holds parameters.
   */
  function Skeleton(r: Request): Request {
    Fill(r, 0, (x: int) => 0).(nParams := 0)
  }

  /** The parameters that no place names. */
  function Unnamed(r: Request, params: seq<Value>): nat { |Leftover(params, Named(Slots(r)), 0)| }

  /** Two requests get one canonical tree exactly when they have one skeleton and as many unnamed parameters. */
  lemma CanonicalByShape(r1: Request, ps1: seq<Value>, r2: Request, ps2: seq<Value>)
    ensures CanonOf(r1, ps1).ir == CanonOf(r2, ps2).ir <==>
            Skeleton(r1) == Skeleton(r2) && Unnamed(r1, ps1) == Unnamed(r2, ps2)
  {
    hide Slots, Fill, Leftover;
    var zero := (x: int) => 0;
    assert Skeleton(r1) == Fill(r1, 0, zero).(nParams := 0) && Skeleton(r2) == Fill(r2, 0, zero).(nParams := 0);
    ShapeOf(r1, ps1, zero);
    ShapeOf(r2, ps2, zero);
  }

  lemma ShapeOf(r: Request, params: seq<Value>, zero: int -> int)
    ensures var c, s := CanonOf(r, params).ir, Fill(r, 0, zero).(nParams := 0);
            && Fill(s, 0, Same).(nParams := c.nParams) == c
            && Fill(c, 0, zero).(nParams := 0) == s
            && |Slots(c)| == |Slots(s)| == |Slots(r)|
            && c.nParams == |Slots(r)| + Unnamed(r, params)
  {
    hide Slots, Fill, Leftover;
    RequestLaw(r, 0, Same, 0, zero);
    RequestLaw(r, 0, zero, 0, Same);
    CountIsNoPlace(Fill(r, 0, Same), CanonOf(r, params).ir.nParams, 0, zero);
    CountIsNoPlace(Fill(r, 0, zero), 0, 0, Same);
  }
}
