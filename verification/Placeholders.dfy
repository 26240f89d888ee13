/**
  Expanding the one parent placeholder of a relation statement into a list, and binding the statement.  A statement with
  its placeholders replaced by what they read is the measure: it must not change, except that the parent placeholder
  becomes the list of the padded values.
 */
module Placeholders {
  import opened Common

  /** What a bind slot reads: the parents' values, or a value of its own. */
  datatype Slot = Parent | Own(value: Value)

  /** A statement after binding: characters and the values that stand for placeholders. */
  datatype Piece = Lit(c: char) | Arg(v: Value)

  /** The slot `p` is the only parent slot. */
  predicate OneParent(slots: seq<Slot>, p: nat) {
    p < |slots| && slots[p].Parent? && forall i :: 0 <= i < |slots| && i != p ==> slots[i].Own?
  }

  /** The arguments of a statement: a parent slot contributes all its values. */
  function Args(slots: seq<Slot>, vals: seq<Value>): seq<Value> {
    if slots == [] then []
    else (if slots[0].Parent? then vals else [slots[0].value]) + Args(slots[1..], vals)
  }

  method BindArgs(slots: seq<Slot>, vals: seq<Value>) returns (out: seq<Value>)
    ensures out == Args(slots, vals)
  {
    out := [];
    for i := 0 to |slots|
      invariant Args(slots, vals) == out + Args(slots[i..], vals)
    {
      assert slots[i..][0] == slots[i] && slots[i..][1..] == slots[i + 1..];
      ghost var rest := Args(slots[i + 1..], vals);
      match slots[i] {
        case Parent =>
          Regroup(out, vals, rest);
          out := out + vals;
        case Own(v) =>
          Regroup(out, [v], rest);
          out := out + [v];
      }
    }
  }

  lemma {:induction false} ArgsConcat(a: seq<Slot>, b: seq<Slot>, vals: seq<Value>)
    ensures Args(a + b, vals) == Args(a, vals) + Args(b, vals)
    decreases |a|
  {
    if a == [] {
      assert a + b == b;
    } else {
      assert (a + b)[0] == a[0] && (a + b)[1..] == a[1..] + b;
      ArgsConcat(a[1..], b, vals);
      Regroup(if a[0].Parent? then vals else [a[0].value], Args(a[1..], vals), Args(b, vals));
    }
  }

  predicate AllOwn(slots: seq<Slot>) {
    forall i :: 0 <= i < |slots| ==> slots[i].Own?
  }

  /** The values of slots that have their own. */
  function Owns(slots: seq<Slot>): (r: seq<Value>)
    requires AllOwn(slots)
    ensures |r| == |slots| && forall i :: 0 <= i < |slots| ==> r[i] == slots[i].value
  {
    seq(|slots|, i requires 0 <= i < |slots| => slots[i].value)
  }

  lemma {:induction false} OwnArgs(slots: seq<Slot>, vals: seq<Value>)
    requires AllOwn(slots)
    ensures Args(slots, vals) == Owns(slots)
    decreases |slots|
  {
    if slots != [] {
      OwnArgs(slots[1..], vals);
      assert Owns(slots) == [slots[0].value] + Owns(slots[1..]);
    }
  }

  lemma ParentArgs(vals: seq<Value>)
    ensures Args([Parent], vals) == vals
  {
    assert [Parent][1..] == [];
    assert vals + [] == vals;
  }

  /** The arguments are the values before the parent slot, the parents' values and the values after it. */
  lemma ArgsParts(slots: seq<Slot>, vals: seq<Value>, p: nat)
    requires OneParent(slots, p)
    ensures AllOwn(slots[..p]) && AllOwn(slots[p + 1..])
    ensures Args(slots, vals) == Owns(slots[..p]) + (vals + Owns(slots[p + 1..]))
  {
    hide Args, Owns;
    var a, b := slots[..p], slots[p + 1..];
    assert slots == a + ([Parent] + b);
    ArgsConcat(a, [Parent] + b, vals);
    ArgsConcat([Parent], b, vals);
    ParentArgs(vals);
    OwnArgs(a, vals);
    OwnArgs(b, vals);
  }

  /** Where the arguments of every slot lie once the parent slot is expanded. */
  lemma ArgsAt(slots: seq<Slot>, vals: seq<Value>, p: nat)
    requires OneParent(slots, p)
    ensures |Args(slots, vals)| == |slots| - 1 + |vals|
    ensures forall i :: 0 <= i < p ==> Args(slots, vals)[i] == slots[i].value
    ensures forall m :: 0 <= m < |vals| ==> Args(slots, vals)[p + m] == vals[m]
    ensures forall i :: p < i < |slots| ==> Args(slots, vals)[i + |vals| - 1] == slots[i].value
  {
    hide Args, Owns;
    ArgsParts(slots, vals, p);
    var a, b := Owns(slots[..p]), Owns(slots[p + 1..]);
    var args := a + (vals + b);
    forall i | p < i < |slots| ensures args[i + |vals| - 1] == slots[i].value {
      assert args[i + |vals| - 1] == b[i - p - 1];
      assert slots[p + 1..][i - p - 1] == slots[i];
    }
  }

  // ------------------------------------------------------------------------------------- the list

  /** What stands before element m of the list. */
  function Separator(m: nat, width: nat): string {
    if m == 0 then "" else if width > 1 && m % width == 0 then "), (" else ", "
  }

  function Lits(s: string): (r: seq<Piece>)
    ensures |r| == |s|
  {
    seq(|s|, i requires 0 <= i < |s| => Lit(s[i]))
  }

  /** The bound list from element m on. */
  function BoundList(vals: seq<Value>, width: nat, m: nat): seq<Piece>
    decreases |vals| - m
  {
    if m >= |vals| then [] else Lits(Separator(m, width)) + [Arg(vals[m])] + BoundList(vals, width, m + 1)
  }

  lemma BoundListStep(vals: seq<Value>, width: nat, m: nat)
    requires m < |vals|
    ensures BoundList(vals, width, m) == (Lits(Separator(m, width)) + [Arg(vals[m])]) + BoundList(vals, width, m + 1)
  {
  }

  lemma BoundListEnd(vals: seq<Value>, width: nat)
    ensures BoundList(vals, width, |vals|) == []
  {
  }

  // ------------------------------------------------------------------------------------- positional placeholders

  /** A statement with its question marks bound to the arguments from `next` on. */
  function BoundMarks(sql: string, args: seq<Value>, next: nat): seq<Piece> {
    if sql == "" then []
    else if sql[0] != '?' then [Lit(sql[0])] + BoundMarks(sql[1..], args, next)
    else [Arg(if next < |args| then args[next] else Null)] + BoundMarks(sql[1..], args, next + 1)
  }

  /** A statement whose question marks read the slots from `slot` on, the parent slot as a list. */
  function ReadMarks(sql: string, slots: seq<Slot>, vals: seq<Value>, width: nat, slot: nat): seq<Piece> {
    if sql == "" then []
    else if sql[0] != '?' then [Lit(sql[0])] + ReadMarks(sql[1..], slots, vals, width, slot)
    else
      (if slot >= |slots| then [Arg(Null)]
       else if slots[slot].Parent? then BoundList(vals, width, 0)
       else [Arg(slots[slot].value)]) + ReadMarks(sql[1..], slots, vals, width, slot + 1)
  }

  function Marks(sql: string): nat { if sql == "" then 0 else (if sql[0] == '?' then 1 else 0) + Marks(sql[1..]) }

  function MarkList(n: nat, width: nat, m: nat): string
    decreases n - m
  {
    if m >= n then "" else Separator(m, width) + "?" + MarkList(n, width, m + 1)
  }

  /** The statement with the mark of the parent slot expanded. */
  function ExpandMarks(sql: string, slots: seq<Slot>, n: nat, width: nat, slot: nat): string {
    if sql == "" then ""
    else if sql[0] != '?' then [sql[0]] + ExpandMarks(sql[1..], slots, n, width, slot)
    else (if slot < |slots| && slots[slot].Parent? then MarkList(n, width, 0) else "?")
         + ExpandMarks(sql[1..], slots, n, width, slot + 1)
  }

  method WriteList(n: nat, width: nat, write: nat -> string) returns (out: string)
    ensures out == Written(n, width, write, 0)
  {
    out := "";
    for m := 0 to n
      invariant out + Written(n, width, write, m) == Written(n, width, write, 0)
    {
      ghost var rest := Written(n, width, write, m + 1);
      Regroup(out, Separator(m, width) + write(m), rest);
      Regroup(out, Separator(m, width), write(m));
      if m > 0 {
        out := out + if width > 1 && m % width == 0 then "), (" else ", ";
      }
      out := out + write(m);
    }
  }

  /** A list whose element m is written by `write`. */
  function Written(n: nat, width: nat, write: nat -> string, m: nat): string
    decreases n - m
  {
    if m >= n then "" else Separator(m, width) + write(m) + Written(n, width, write, m + 1)
  }

  const MARK: nat -> string := (m: nat) => "?"

  lemma {:induction false} WrittenMarks(n: nat, width: nat, m: nat)
    ensures Written(n, width, MARK, m) == MarkList(n, width, m)
    decreases n - m
  {
    if m < n { WrittenMarks(n, width, m + 1); }
  }

  method ExpandPositional(sql: string, slots: seq<Slot>, n: nat, width: nat) returns (out: string)
    requires Marks(sql) <= |slots|
    ensures out == ExpandMarks(sql, slots, n, width, 0)
  {
    hide MarkList, Written;
    out := "";
    var slot := 0;
    WrittenMarks(n, width, 0);
    for i := 0 to |sql|
      invariant slot + Marks(sql[i..]) <= |slots|
      invariant ExpandMarks(sql, slots, n, width, 0) == out + ExpandMarks(sql[i..], slots, n, width, slot)
    {
      assert sql[i..][0] == sql[i] && sql[i..][1..] == sql[i + 1..];
      if sql[i] != '?' {
        Regroup(out, [sql[i]], ExpandMarks(sql[i + 1..], slots, n, width, slot));
        out := out + [sql[i]];
        continue;
      }
      ghost var rest := ExpandMarks(sql[i + 1..], slots, n, width, slot + 1);
      if slots[slot].Parent? {
        var list := WriteList(n, width, MARK);
        Regroup(out, list, rest);
        out := out + list;
      } else {
        Regroup(out, "?", rest);
        out := out + "?";
      }
      slot := slot + 1;
    }
    assert sql[|sql|..] == "";
  }

  // ------------------------------------------------------------------------------------- aligned marks

  lemma {:induction false} MarksConcat(a: string, b: string, args: seq<Value>, next: nat)
    ensures BoundMarks(a + b, args, next) == BoundMarks(a, args, next) + BoundMarks(b, args, next + Marks(a))
    decreases |a|
  {
    if a == "" {
      assert a + b == b;
    } else {
      assert (a + b)[0] == a[0] && (a + b)[1..] == a[1..] + b;
      MarksConcat(a[1..], b, args, if a[0] == '?' then next + 1 else next);
    }
  }

  lemma {:induction false} PlainLits(s: string, args: seq<Value>, next: nat)
    requires '?' !in s
    ensures BoundMarks(s, args, next) == Lits(s) && Marks(s) == 0
    decreases |s|
  {
    if s != "" {
      PlainLits(s[1..], args, next);
      assert Lits(s) == [Lit(s[0])] + Lits(s[1..]);
    }
  }

  lemma OneMark(args: seq<Value>, next: nat)
    requires next < |args|
    ensures BoundMarks("?", args, next) == [Arg(args[next])] && Marks("?") == 1
  {
    assert "?"[1..] == "";
    assert BoundMarks("", args, next + 1) == [];
  }

  lemma MarkListStep(n: nat, width: nat, m: nat)
    requires m < n
    ensures MarkList(n, width, m) == (Separator(m, width) + "?") + MarkList(n, width, m + 1)
  {
  }

  lemma MarkListEnd(n: nat, width: nat, args: seq<Value>, next: nat)
    ensures BoundMarks(MarkList(n, width, n), args, next) == [] && Marks(MarkList(n, width, n)) == 0
  {
  }

  lemma SeparatorIsPlain(m: nat, width: nat)
    ensures '?' !in Separator(m, width)
  {
  }

  /** The expanded list reads the values one after the other. */
  lemma {:induction false} MarkListReads(vals: seq<Value>, width: nat, m: nat, args: seq<Value>, next: nat)
    requires m <= |vals| && next + |vals| - m <= |args|
    requires forall i :: m <= i < |vals| ==> args[next + i - m] == vals[i]
    ensures BoundMarks(MarkList(|vals|, width, m), args, next) == BoundList(vals, width, m)
    ensures Marks(MarkList(|vals|, width, m)) == |vals| - m
    decreases |vals| - m
  {
    hide Separator, BoundMarks, MarkList, BoundList, Marks, Lits;
    if m == |vals| {
      MarkListEnd(|vals|, width, args, next);
      BoundListEnd(vals, width);
    } else {
      var sep, rest := Separator(m, width), MarkList(|vals|, width, m + 1);
      forall i | m + 1 <= i < |vals|
        ensures args[next + 1 + i - (m + 1)] == vals[i]
      {
        assert args[next + i - m] == vals[i];
      }
      MarkListReads(vals, width, m + 1, args, next + 1);
      MarkListStep(|vals|, width, m);
      BoundListStep(vals, width, m);
      SeparatorIsPlain(m, width);
      MarksConcat(sep + "?", rest, args, next);
      MarksConcat(sep, "?", args, next);
      PlainLits(sep, args, next);
      assert args[next + m - m] == vals[m];
      OneMark(args, next);
      CountMarks(sep + "?", rest);
      CountMarks(sep, "?");
    }
  }

  lemma {:induction false} CountMarks(a: string, b: string)
    ensures Marks(a + b) == Marks(a) + Marks(b)
    decreases |a|
  {
    if a == "" {
      assert a + b == b;
    } else {
      assert (a + b)[0] == a[0] && (a + b)[1..] == a[1..] + b;
      CountMarks(a[1..], b);
    }
  }

  /** Position of the arguments of a slot once the parent slot `p` holds n values. */
  function Place(slot: nat, p: nat, n: nat): int { if slot <= p then slot else slot + n - 1 }

  /** The first mark of an expanded statement reads its slot. */
  lemma MarkAligned(slots: seq<Slot>, vals: seq<Value>, width: nat, slot: nat, p: nat)
    requires OneParent(slots, p) && slot < |slots| && vals != []
    ensures var text := if slots[slot].Parent? then MarkList(|vals|, width, 0) else "?";
            var at := Place(slot, p, |vals|);
            && BoundMarks(text, Args(slots, vals), at)
                 == (if slots[slot].Parent? then BoundList(vals, width, 0) else [Arg(slots[slot].value)])
            && at + Marks(text) == Place(slot + 1, p, |vals|)
  {
    hide Args, MarkList, BoundList, BoundMarks, Marks;
    ArgsAt(slots, vals, p);
    var at := Place(slot, p, |vals|);
    if slot == p { MarkListReads(vals, width, 0, Args(slots, vals), at); } else { OneMark(Args(slots, vals), at); }
  }

  /** What an expanded slot looks like, and what it reads. */
  function MarkText(slots: seq<Slot>, n: nat, width: nat, slot: nat): string {
    if slot < |slots| && slots[slot].Parent? then MarkList(n, width, 0) else "?"
  }

  function MarkPieces(slots: seq<Slot>, vals: seq<Value>, width: nat, slot: nat): seq<Piece> {
    if slot >= |slots| then [Arg(Null)]
    else if slots[slot].Parent? then BoundList(vals, width, 0)
    else [Arg(slots[slot].value)]
  }

  lemma MarkStep(sql: string, slots: seq<Slot>, vals: seq<Value>, width: nat, slot: nat)
    requires sql != "" && sql[0] == '?'
    ensures ExpandMarks(sql, slots, |vals|, width, slot)
              == MarkText(slots, |vals|, width, slot) + ExpandMarks(sql[1..], slots, |vals|, width, slot + 1)
    ensures ReadMarks(sql, slots, vals, width, slot)
              == MarkPieces(slots, vals, width, slot) + ReadMarks(sql[1..], slots, vals, width, slot + 1)
    ensures Marks(sql) == 1 + Marks(sql[1..])
  {
    hide MarkList, BoundList;
  }

  lemma CharStep(sql: string, slots: seq<Slot>, vals: seq<Value>, width: nat, slot: nat, args: seq<Value>, at: nat)
    requires sql != "" && sql[0] != '?'
    ensures BoundMarks(ExpandMarks(sql, slots, |vals|, width, slot), args, at)
              == [Lit(sql[0])] + BoundMarks(ExpandMarks(sql[1..], slots, |vals|, width, slot), args, at)
    ensures ReadMarks(sql, slots, vals, width, slot) == [Lit(sql[0])] + ReadMarks(sql[1..], slots, vals, width, slot)
    ensures Marks(sql) == Marks(sql[1..])
  {
    hide MarkList, BoundList;
    var tail := ExpandMarks(sql[1..], slots, |vals|, width, slot);
    assert ([sql[0]] + tail)[1..] == tail;
  }

  lemma NoMarks(slots: seq<Slot>, vals: seq<Value>, width: nat, slot: nat, args: seq<Value>, at: nat)
    ensures BoundMarks(ExpandMarks("", slots, |vals|, width, slot), args, at) == ReadMarks("", slots, vals, width, slot)
  {
  }

  /** The expanded statement, bound to the expanded arguments, reads what the statement reads. */
  lemma {:induction false} PositionalAligned(
    sql: string, slots: seq<Slot>, vals: seq<Value>, width: nat, slot: nat, p: nat)
    requires OneParent(slots, p) && slot + Marks(sql) <= |slots| && vals != []
    ensures BoundMarks(ExpandMarks(sql, slots, |vals|, width, slot), Args(slots, vals), Place(slot, p, |vals|))
              == ReadMarks(sql, slots, vals, width, slot)
    decreases |sql|
  {
    hide Args, MarkList, BoundList, BoundMarks, ExpandMarks, ReadMarks, Marks;
    var args, at := Args(slots, vals), Place(slot, p, |vals|);
    if sql == "" {
      NoMarks(slots, vals, width, slot, args, at);
    } else if sql[0] != '?' {
      CharStep(sql, slots, vals, width, slot, args, at);
      PositionalAligned(sql[1..], slots, vals, width, slot, p);
    } else {
      MarkStep(sql, slots, vals, width, slot);
      PositionalAligned(sql[1..], slots, vals, width, slot + 1, p);
      MarkAligned(slots, vals, width, slot, p);
      MarksConcat(MarkText(slots, |vals|, width, slot), ExpandMarks(sql[1..], slots, |vals|, width, slot + 1), args,
        at);
    }
  }
}
