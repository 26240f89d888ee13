/** The numbered form: `$k` reads argument k, so the placeholders after the parent's are renumbered. */
module NumberedPlaceholders {
  import opened Common
  import opened Numerals
  import opened Placeholders

  datatype Token = Ch(c: char) | Ph(k: nat)

  /** The number of digits that a text starts with. */
  function Run(s: string): (j: nat)
    ensures j <= |s| && (forall i :: 0 <= i < j ==> IsDigit(s[i])) && (j < |s| ==> !IsDigit(s[j]))
  {
    if s == "" || !IsDigit(s[0]) then 0 else 1 + Run(s[1..])
  }

  function NumberOf(s: string): nat
    requires forall i :: 0 <= i < |s| ==> IsDigit(s[i])
  {
    DigitsOf(s);
    Amount(s, 10)
  }

  /** The characters and placeholders of a statement; a dollar sign without digits is a character. */
  function Lex(s: string): seq<Token> {
    if s == "" then []
    else if s[0] != '$' || Run(s[1..]) == 0 then [Ch(s[0])] + Lex(s[1..])
    else
      var j := 1 + Run(s[1..]);
      [Ph(NumberOf(s[1..j]))] + Lex(s[j..])
  }

  function PrintOne(t: Token): string { if t.Ch? then [t.c] else "$" + Numeral(t.k, 10) }

  function Print(ts: seq<Token>): string { if ts == [] then "" else PrintOne(ts[0]) + Print(ts[1..]) }

  function Chars(s: string): (r: seq<Token>)
    ensures |r| == |s|
  {
    seq(|s|, i requires 0 <= i < |s| => Ch(s[i]))
  }

  function PhList(k: nat, n: nat, width: nat, m: nat): seq<Token>
    decreases n - m
  {
    if m >= n then [] else Chars(Separator(m, width)) + [Ph(k + m)] + PhList(k, n, width, m + 1)
  }

  function ExpandOne(t: Token, parent: int, n: nat, width: nat): seq<Token>
    requires n > 0
  {
    if t.Ch? || t.k < parent then [t] else if t.k == parent then PhList(t.k, n, width, 0) else [Ph(t.k + n - 1)]
  }

  function Expand(ts: seq<Token>, parent: int, n: nat, width: nat): seq<Token>
    requires n > 0
  {
    if ts == [] then [] else ExpandOne(ts[0], parent, n, width) + Expand(ts[1..], parent, n, width)
  }

  // ------------------------------------------------------------------------------------- writing

  lemma {:induction false} PrintConcat(a: seq<Token>, b: seq<Token>)
    ensures Print(a + b) == Print(a) + Print(b)
    decreases |a|
  {
    if a == [] {
      assert a + b == b;
    } else {
      assert (a + b)[0] == a[0] && (a + b)[1..] == a[1..] + b;
      PrintConcat(a[1..], b);
      Regroup(PrintOne(a[0]), Print(a[1..]), Print(b));
    }
  }

  lemma {:induction false} PrintChars(s: string)
    ensures Print(Chars(s)) == s
    decreases |s|
  {
    if s != "" {
      assert Chars(s)[1..] == Chars(s[1..]);
      PrintChars(s[1..]);
      assert s == [s[0]] + s[1..];
    }
  }

  lemma PrintSingle(t: Token)
    ensures Print([t]) == PrintOne(t)
  {
    assert [t][1..] == [];
    assert Print([]) == "";
  }

  function Dollar(k: nat): nat -> string { (m: nat) => "$" + Numeral(k + m, 10) }

  lemma {:induction false} PrintPhList(k: nat, n: nat, width: nat, m: nat)
    ensures Print(PhList(k, n, width, m)) == Written(n, width, Dollar(k), m)
    decreases n - m
  {
    hide Numeral, Separator;
    if m < n {
      var sep := Separator(m, width);
      PrintPhList(k, n, width, m + 1);
      PrintConcat(Chars(sep) + [Ph(k + m)], PhList(k, n, width, m + 1));
      PrintConcat(Chars(sep), [Ph(k + m)]);
      PrintChars(sep);
      PrintSingle(Ph(k + m));
    }
  }

  method WriteToken(t: Token, parent: int, n: nat, width: nat) returns (out: string)
    requires n > 0
    ensures out == Print(ExpandOne(t, parent, n, width))
  {
    hide Numeral, Print, PhList;
    match t {
      case Ch(c) =>
        PrintSingle(t);
        return [c];
      case Ph(k) =>
        if k == parent {
          PrintPhList(k, n, width, 0);
          out := WriteList(n, width, Dollar(k));
        } else if k > parent {
          PrintSingle(Ph(k + n - 1));
          return "$" + Numeral(k + n - 1, 10);
        } else {
          PrintSingle(t);
          return "$" + Numeral(k, 10);
        }
    }
  }

  const MAX_INT := 0x7fff_ffff_ffff_ffff

  /** Every number of a placeholder fits in 64 bits. */
  predicate Readable(ts: seq<Token>) {
    forall i :: 0 <= i < |ts| && ts[i].Ph? ==> ts[i].k <= MAX_INT
  }

  /** The token at i and the place after it. */
  method ReadToken(sql: string, i: nat) returns (t: Token, j: nat)
    requires i < |sql|
    ensures i < j <= |sql| && Lex(sql[i..]) == [t] + Lex(sql[j..])
  {
    j := i + 1;
    while j < |sql| && IsDigit(sql[j])
      invariant i + 1 <= j <= |sql| && forall m :: i + 1 <= m < j ==> IsDigit(sql[m])
    {
      j := j + 1;
    }
    LexStep(sql, i, j);
    if sql[i] != '$' || j == i + 1 {
      return Ch(sql[i]), i + 1;
    }
    return Ph(NumberOf(sql[i + 1..j])), j;
  }

  /** Rewrites the statement; None when a placeholder's number does not fit. */
  method ExpandNumbered(sql: string, parent: int, n: nat, width: nat) returns (r: Option<string>)
    requires n > 0
    ensures r.Some? <==> Readable(Lex(sql))
    ensures r.Some? ==> r.value == Print(Expand(Lex(sql), parent, n, width))
  {
    hide Print, Expand, ExpandOne, Lex;
    var out := "";
    var i := 0;
    assert sql[0..] == sql;
    while i < |sql|
      invariant 0 <= i <= |sql|
      invariant Readable(Lex(sql)) <==> Readable(Lex(sql[i..]))
      invariant Print(Expand(Lex(sql), parent, n, width)) == out + Print(Expand(Lex(sql[i..]), parent, n, width))
    {
      var t, j := ReadToken(sql, i);
      ReadableStep(t, Lex(sql[j..]));
      if t.Ph? && t.k > MAX_INT { return None; }
      var text := WriteToken(t, parent, n, width);
      ExpandStep(t, Lex(sql[j..]), parent, n, width);
      Regroup(out, text, Print(Expand(Lex(sql[j..]), parent, n, width)));
      out := out + text;
      i := j;
    }
    LexNothing(sql, i);
    PrintNothing(parent, n, width);
    assert out + "" == out;
    return Some(out);
  }

  lemma ReadableStep(t: Token, ts: seq<Token>)
    ensures Readable([t] + ts) <==> Readable(ts) && (t.Ph? ==> t.k <= MAX_INT)
  {
    var all := [t] + ts;
    assert all[0] == t && forall i :: 0 <= i < |ts| ==> ts[i] == all[i + 1];
  }

  lemma ExpandStep(t: Token, ts: seq<Token>, parent: int, n: nat, width: nat)
    requires n > 0
    ensures Print(Expand([t] + ts, parent, n, width))
              == Print(ExpandOne(t, parent, n, width)) + Print(Expand(ts, parent, n, width))
  {
    hide Print, ExpandOne;
    assert ([t] + ts)[1..] == ts;
    PrintConcat(ExpandOne(t, parent, n, width), Expand(ts, parent, n, width));
  }

  lemma LexNothing(sql: string, i: nat)
    requires i == |sql|
    ensures Lex(sql[i..]) == []
  {
  }

  lemma PrintNothing(parent: int, n: nat, width: nat)
    requires n > 0
    ensures Print(Expand([], parent, n, width)) == ""
  {
  }

  /** One token, given the end of the digits after it. */
  lemma LexStep(sql: string, i: nat, j: nat)
    requires i < j <= |sql| && (forall m :: i + 1 <= m < j ==> IsDigit(sql[m])) && (j < |sql| ==> !IsDigit(sql[j]))
    ensures Lex(sql[i..]) == if sql[i] != '$' || j == i + 1 then [Ch(sql[i])] + Lex(sql[i + 1..])
                             else [Ph(NumberOf(sql[i + 1..j]))] + Lex(sql[j..])
  {
    var s := sql[i..];
    assert s[0] == sql[i] && s[1..] == sql[i + 1..];
    RunIs(s[1..], j - i - 1);
    assert s[1..][..j - i - 1] == sql[i + 1..j];
    if j > i + 1 {
      assert s[1..j - i] == sql[i + 1..j] && s[j - i..] == sql[j..];
    }
  }

  lemma {:induction false} RunIs(s: string, j: nat)
    requires j <= |s| && (forall m :: 0 <= m < j ==> IsDigit(s[m])) && (j < |s| ==> !IsDigit(s[j]))
    ensures Run(s) == j
    decreases j
  {
    if j > 0 { RunIs(s[1..], j - 1); }
  }

  // ------------------------------------------------------------------------------------- reading back

  predicate StartsWithDigit(ts: seq<Token>) { ts != [] && ts[0].Ch? && IsDigit(ts[0].c) }

  /** No digit follows a placeholder or a dollar sign. */
  predicate Spaced(ts: seq<Token>) {
    ts == [] || (Spaced(ts[1..]) && (ts[0].Ph? || ts[0].c == '$' ==> !StartsWithDigit(ts[1..])))
  }

  lemma {:induction false} LexSpaced(s: string)
    ensures Spaced(Lex(s))
    ensures StartsWithDigit(Lex(s)) <==> s != "" && IsDigit(s[0])
    decreases |s|
  {
    hide NumberOf;
    if s != "" {
      var j := Run(s[1..]);
      LexSpaced(s[1..]);
      LexSpaced(s[1 + j..]);
      var rest := if s[0] == '$' && j > 0 then s[1 + j..] else s[1..];
      if s[0] == '$' && j > 0 {
        assert 1 + j < |s| ==> s[1 + j..][0] == s[1..][j];
      }
      assert Lex(s)[1..] == Lex(rest);
    }
  }

  lemma PrintStarts(ts: seq<Token>)
    ensures (Print(ts) != "" && IsDigit(Print(ts)[0])) <==> StartsWithDigit(ts)
  {
    if ts != [] {
      assert Print(ts)[0] == PrintOne(ts[0])[0];
    }
  }

  lemma NumeralIsDigits(n: nat)
    ensures forall i :: 0 <= i < |Numeral(n, 10)| ==> IsDigit(Numeral(n, 10)[i])
  {
    forall i | 0 <= i < |Numeral(n, 10)| ensures IsDigit(Numeral(n, 10)[i]) {
      assert 0 <= DigitValue(Numeral(n, 10)[i]) < 10;
    }
  }

  /** A printed statement reads back as the tokens that were printed. */
  lemma {:induction false} LexPrint(ts: seq<Token>)
    requires Spaced(ts)
    ensures Lex(Print(ts)) == ts
    decreases |ts|
  {
    hide Lex, Numeral;
    if ts == [] {
      LexNothing("", 0);
    } else {
      var rest := Print(ts[1..]);
      LexPrint(ts[1..]);
      PrintStarts(ts[1..]);
      match ts[0] {
        case Ch(c) => LexChar(c, rest);
        case Ph(k) => LexPlaceholder(k, rest);
      }
      assert ts == [ts[0]] + ts[1..];
    }
  }

  lemma LexChar(c: char, rest: string)
    requires c == '$' && rest != "" ==> !IsDigit(rest[0])
    ensures Lex([c] + rest) == [Ch(c)] + Lex(rest)
  {
    var s := [c] + rest;
    assert s[0] == c && s[1..] == rest;
  }

  lemma LexPlaceholder(k: nat, rest: string)
    requires rest != "" ==> !IsDigit(rest[0])
    ensures Lex("$" + Numeral(k, 10) + rest) == [Ph(k)] + Lex(rest)
  {
    hide Numeral, NumberOf, Lex, Run, IsDigit;
    var d := Numeral(k, 10);
    var s := "$" + d + rest;
    NumeralIsDigits(k);
    assert s[0] == '$' && forall i :: 1 <= i < 1 + |d| ==> s[i] == d[i - 1];
    assert s[1..1 + |d|] == d && s[1 + |d|..] == rest && s[0..] == s;
    LexStep(s, 0, 1 + |d|);
    NumberOfNumeral(k);
  }

  lemma NumberOfNumeral(k: nat)
    requires forall i :: 0 <= i < |Numeral(k, 10)| ==> IsDigit(Numeral(k, 10)[i])
    ensures NumberOf(Numeral(k, 10)) == k
  {
    AmountOfNumeral(k, 10);
  }

  lemma {:induction false} SpacedConcat(a: seq<Token>, b: seq<Token>)
    requires Spaced(a) && Spaced(b) && !StartsWithDigit(b)
    ensures Spaced(a + b)
    decreases |a|
  {
    if a == [] {
      assert a + b == b;
    } else {
      assert (a + b)[0] == a[0] && (a + b)[1..] == a[1..] + b;
      SpacedConcat(a[1..], b);
      if a[1..] == [] { assert a[1..] + b == b; } else { assert (a[1..] + b)[0] == a[1..][0]; }
    }
  }

  lemma {:induction false} PhListSpaced(k: nat, n: nat, width: nat, m: nat, rest: seq<Token>)
    requires m < n && Spaced(rest) && !StartsWithDigit(rest)
    ensures Spaced(PhList(k, n, width, m) + rest) && !StartsWithDigit(PhList(k, n, width, m) + rest)
    decreases n - m
  {
    hide Separator, Chars;
    var sep := Chars(Separator(m, width));
    var list := PhList(k, n, width, m + 1);
    if m + 1 < n {
      PhListSpaced(k, n, width, m + 1, rest);
    } else {
      assert list + rest == rest;
    }
    Regroup(sep + [Ph(k + m)], list, rest);
    Regroup(sep, [Ph(k + m)], list + rest);
    assert ([Ph(k + m)] + (list + rest))[1..] == list + rest;
    SeparatorSpaced(m, width);
    SpacedConcat(sep, [Ph(k + m)] + (list + rest));
  }

  lemma SeparatorSpaced(m: nat, width: nat)
    ensures Spaced(Chars(Separator(m, width))) && !StartsWithDigit(Chars(Separator(m, width)))
  {
    NoDigits(Separator(m, width));
  }

  lemma {:induction false} NoDigits(s: string)
    requires forall i :: 0 <= i < |s| ==> !IsDigit(s[i])
    ensures Spaced(Chars(s)) && !StartsWithDigit(Chars(s))
    decreases |s|
  {
    if s != "" {
      assert Chars(s)[1..] == Chars(s[1..]);
      NoDigits(s[1..]);
    }
  }

  lemma {:induction false} ExpandSpaced(ts: seq<Token>, parent: int, n: nat, width: nat)
    requires n > 0 && Spaced(ts)
    ensures Spaced(Expand(ts, parent, n, width))
    ensures StartsWithDigit(Expand(ts, parent, n, width)) <==> StartsWithDigit(ts)
    decreases |ts|
  {
    hide PhList;
    if ts != [] {
      ExpandSpaced(ts[1..], parent, n, width);
      var rest := Expand(ts[1..], parent, n, width);
      if ts[0].Ph? && ts[0].k == parent {
        PhListSpaced(ts[0].k, n, width, 0, rest);
      } else {
        var t := if ts[0].Ph? && ts[0].k > parent then Ph(ts[0].k + n - 1) else ts[0];
        assert Expand(ts, parent, n, width) == [t] + rest;
        assert ([t] + rest)[1..] == rest;
      }
    }
  }

  // ------------------------------------------------------------------------------------- aligned numbers

  /** A statement with placeholder k bound to argument k. */
  function BoundTokens(ts: seq<Token>, args: seq<Value>): seq<Piece> {
    if ts == [] then []
    else [if ts[0].Ch? then Lit(ts[0].c) else Arg(if 1 <= ts[0].k <= |args| then args[ts[0].k - 1] else Null)]
         + BoundTokens(ts[1..], args)
  }

  /** A statement whose placeholder k reads slot k, the parent slot as a list. */
  function ReadTokens(ts: seq<Token>, slots: seq<Slot>, vals: seq<Value>, width: nat): seq<Piece> {
    if ts == [] then []
    else (if ts[0].Ch? then [Lit(ts[0].c)]
          else if !(1 <= ts[0].k <= |slots|) then [Arg(Null)]
          else if slots[ts[0].k - 1].Parent? then BoundList(vals, width, 0)
          else [Arg(slots[ts[0].k - 1].value)]) + ReadTokens(ts[1..], slots, vals, width)
  }

  /** Every placeholder names a slot. */
  predicate Numbered(ts: seq<Token>, slots: seq<Slot>) {
    forall i :: 0 <= i < |ts| && ts[i].Ph? ==> 1 <= ts[i].k <= |slots|
  }

  lemma {:induction false} BoundConcat(a: seq<Token>, b: seq<Token>, args: seq<Value>)
    ensures BoundTokens(a + b, args) == BoundTokens(a, args) + BoundTokens(b, args)
    decreases |a|
  {
    if a == [] {
      assert a + b == b;
    } else {
      assert (a + b)[0] == a[0] && (a + b)[1..] == a[1..] + b;
      BoundConcat(a[1..], b, args);
    }
  }

  lemma {:induction false} BoundChars(s: string, args: seq<Value>)
    ensures BoundTokens(Chars(s), args) == Lits(s)
    decreases |s|
  {
    if s != "" {
      assert Chars(s)[1..] == Chars(s[1..]);
      BoundChars(s[1..], args);
      assert Lits(s) == [Lit(s[0])] + Lits(s[1..]);
    }
  }

  lemma BoundOne(k: nat, args: seq<Value>)
    requires 1 <= k <= |args|
    ensures BoundTokens([Ph(k)], args) == [Arg(args[k - 1])]
  {
    assert [Ph(k)][1..] == [];
    assert BoundTokens([], args) == [];
  }

  lemma PhListStep(k: nat, n: nat, width: nat, m: nat)
    requires m < n
    ensures PhList(k, n, width, m) == (Chars(Separator(m, width)) + [Ph(k + m)]) + PhList(k, n, width, m + 1)
  {
  }

  lemma PhListEnd(k: nat, n: nat, width: nat, args: seq<Value>)
    ensures BoundTokens(PhList(k, n, width, n), args) == []
  {
  }

  lemma {:induction false} PhListReads(vals: seq<Value>, width: nat, k: nat, m: nat, args: seq<Value>)
    requires k >= 1 && m <= |vals| && k - 1 + |vals| <= |args|
    requires forall i :: 0 <= i < |vals| ==> args[k - 1 + i] == vals[i]
    ensures BoundTokens(PhList(k, |vals|, width, m), args) == BoundList(vals, width, m)
    decreases |vals| - m
  {
    hide Separator, BoundTokens, PhList, BoundList, Chars, Lits;
    if m == |vals| {
      PhListEnd(k, |vals|, width, args);
      BoundListEnd(vals, width);
    } else {
      var sep := Separator(m, width);
      PhListReads(vals, width, k, m + 1, args);
      PhListStep(k, |vals|, width, m);
      BoundListStep(vals, width, m);
      BoundConcat(Chars(sep) + [Ph(k + m)], PhList(k, |vals|, width, m + 1), args);
      BoundConcat(Chars(sep), [Ph(k + m)], args);
      BoundChars(sep, args);
      BoundOne(k + m, args);
      assert args[k - 1 + m] == vals[m];
    }
  }

  lemma {:induction false} TokensAligned(ts: seq<Token>, slots: seq<Slot>, vals: seq<Value>, width: nat, p: nat)
    requires OneParent(slots, p) && vals != [] && Numbered(ts, slots)
    ensures BoundTokens(Expand(ts, p + 1, |vals|, width), Args(slots, vals)) == ReadTokens(ts, slots, vals, width)
    decreases |ts|
  {
    hide Args, PhList, BoundList;
    if ts != [] {
      var args := Args(slots, vals);
      ArgsAt(slots, vals, p);
      var rest := Expand(ts[1..], p + 1, |vals|, width);
      assert forall i :: 0 <= i < |ts[1..]| ==> ts[1..][i] == ts[i + 1];
      TokensAligned(ts[1..], slots, vals, width, p);
      BoundConcat(ExpandOne(ts[0], p + 1, |vals|, width), rest, args);
      OneAligned(ts[0], slots, vals, width, p);
    }
  }

  lemma OneAligned(t: Token, slots: seq<Slot>, vals: seq<Value>, width: nat, p: nat)
    requires OneParent(slots, p) && vals != [] && (t.Ph? ==> 1 <= t.k <= |slots|)
    ensures BoundTokens(ExpandOne(t, p + 1, |vals|, width), Args(slots, vals))
              == if t.Ch? then [Lit(t.c)]
                 else if t.k == p + 1 then BoundList(vals, width, 0)
                 else [Arg(slots[t.k - 1].value)]
  {
    hide Args, PhList, BoundList;
    var args := Args(slots, vals);
    ArgsAt(slots, vals, p);
    if t.Ch? {
      assert [t][1..] == [];
      assert BoundTokens([], args) == [];
    } else if t.k == p + 1 {
      PhListReads(vals, width, t.k, 0, args);
    } else {
      BoundOne(if t.k < p + 1 then t.k else t.k + |vals| - 1, args);
    }
  }

  /** The rewritten text, read again and bound to the expanded arguments, reads what the statement reads. */
  lemma NumberedAligned(sql: string, out: string, slots: seq<Slot>, vals: seq<Value>, width: nat, p: nat)
    requires OneParent(slots, p) && vals != [] && Numbered(Lex(sql), slots)
    requires out == Print(Expand(Lex(sql), p + 1, |vals|, width))
    ensures BoundTokens(Lex(out), Args(slots, vals)) == ReadTokens(Lex(sql), slots, vals, width)
  {
    hide Lex, Print, Expand, Args, BoundTokens, ReadTokens, Spaced, Numbered;
    LexSpaced(sql);
    ExpandSpaced(Lex(sql), p + 1, |vals|, width);
    LexPrint(Expand(Lex(sql), p + 1, |vals|, width));
    TokensAligned(Lex(sql), slots, vals, width, p);
  }

  // ------------------------------------------------------------------------------------- both forms

  method ParentSlot(slots: seq<Slot>) returns (parent: int)
    ensures forall p: nat :: OneParent(slots, p) ==> parent == p + 1
  {
    parent := -1;
    for i := 0 to |slots|
      invariant forall p: nat :: OneParent(slots, p) ==> if p < i then parent == p + 1 else parent == -1
    {
      if slots[i].Parent? { parent := i + 1; }
    }
  }

  predicate Contains(s: string, sub: string) {
    sub <= s || (s != "" && Contains(s[1..], sub))
  }

  /**
    Expands the parent placeholder of a statement for the padded values of a chunk.  Bound to its arguments, the result
    reads what the statement reads, with the list of the values in the parent's place; None when a number does not fit.
   */
  method ExpandIn(
    sql: string, slots: seq<Slot>, padded: seq<Value>, width: nat, ghost p: nat) returns (r: Option<string>)
    requires OneParent(slots, p) && padded != []
    requires if Contains(sql, "$1") then Numbered(Lex(sql), slots) else Marks(sql) <= |slots|
    ensures r.None? ==> Contains(sql, "$1") && !Readable(Lex(sql))
    ensures r.Some? && Contains(sql, "$1") ==>
              BoundTokens(Lex(r.value), Args(slots, padded)) == ReadTokens(Lex(sql), slots, padded, width)
    ensures r.Some? && !Contains(sql, "$1") ==>
              BoundMarks(r.value, Args(slots, padded), 0) == ReadMarks(sql, slots, padded, width, 0)
  {
    hide Lex, Print, Expand, Args, BoundTokens, ReadTokens, Numbered, Readable, Contains, BoundMarks, ReadMarks,
         ExpandMarks;
    if Contains(sql, "$1") {
      var parent := ParentSlot(slots);
      r := ExpandNumbered(sql, parent, |padded|, width);
      if r.Some? { NumberedAligned(sql, r.value, slots, padded, width, p); }
      return;
    }
    var out := ExpandPositional(sql, slots, |padded|, width);
    PositionalAligned(sql, slots, padded, width, 0, p);
    return Some(out);
  }
}
