/** The parser of chain names at work, proved against the grammar. */
module ChainParser {
  import opened Common
  import opened Names
  import opened ChainNames
  import opened ChainReadBack

  // ------------------------------------------------------------------------------------- column names

  predicate Doubled(s: string) { |s| >= 2 && ((s[0] == '_' && s[1] == '_') || Doubled(s[1..])) }

  predicate ReservedPrefix(n: string) {
    exists p :: p in PREFIXES && (n == p || p + "_" <= n)
  }

  const PREFIXES: seq<string> :=
    ["and", "or", "get", "set", "new", "plus", "minus", "order_by", "group_by", "tuple", "gt", "lt", "ge", "le", "eq",
     "ne", "lk", "lb", "between", "fulltext"]

  const COLUMNS: seq<string> :=
    ["and", "or", "not", "get", "gets", "gets_page", "get_query", "limit", "alias", "connect", "create", "creates",
     "update", "delete", "restore", "save", "on", "random"]

  /** What the name rules of the generator ask of a column. */
  predicate Passes(n: string) { !Doubled(n) && Unreserved(n) && n !in COLUMNS && !ReservedPrefix(n) }

  /** The name rules of the generator; a name that passes has no segment that is a word of the grammar. */
  method CheckFieldName(n: string) returns (ok: bool)
    ensures ok <==> Passes(n)
  {
    hide ReservedSegment;
    if Doubled(n) { return false; }
    var segments := Segments(n);
    for i := 0 to |segments|
      invariant forall j :: 0 <= j < i ==> !ReservedSegment(segments[j])
    {
      if ReservedSegment(segments[i]) { return false; }
    }
    if n in COLUMNS { return false; }
    for i := 0 to |PREFIXES|
      invariant forall j :: 0 <= j < i ==> !(n == PREFIXES[j] || PREFIXES[j] + "_" <= n)
    {
      if n == PREFIXES[i] || PREFIXES[i] + "_" <= n {
        assert PREFIXES[i] in PREFIXES;
        return false;
      }
    }
    return true;
  }

  // ------------------------------------------------------------------------------------- lists of columns

  method SplitColumns(cols: seq<string>, ws: seq<string>) returns (out: Option<seq<string>>)
    ensures out == SplitWith(cols, ws)
  {
    hide Find, Join, SplitAt, FindAll;
    var found: seq<string> := [];
    var start := 0;
    ghost var all := FindAll(cols, SplitAt(ws, "With"));
    assert ws[0..] == ws;
    for i := 0 to |ws| + 1
      invariant start <= i && (start <= |ws| || i == |ws| + 1)
      invariant i <= |ws| ==> "With" !in ws[start..i] && Rest(all, found, FindAll(cols, SplitAt(ws[start..], "With")))
      invariant i == |ws| + 1 ==> all == Some(found)
    {
      if i < |ws| && ws[i] != "With" {
        assert ws[start..i + 1] == ws[start..i] + [ws[i]];
        continue;
      }
      var part := ws[start..i];
      Columns(cols, ws, start, i);
      var c := Find(cols, Join(part));
      if c.None? { return None; }
      found := found + [c.value];
      start := i + 1;
      if i < |ws| { assert ws[start..start] == []; }
    }
    return Some(found);
  }

  /** What is found in all, when `done` is found already and `more` is still to come. */
  predicate Rest<T(==)>(all: Option<seq<T>>, done: seq<T>, more: Option<seq<T>>) {
    (all.Some? <==> more.Some?) && (all.Some? ==> all.value == done + more.value)
  }

  /** The first part of the words from `start` on ends at i. */
  lemma Columns(cols: seq<string>, ws: seq<string>, start: nat, i: nat)
    requires start <= i <= |ws| && "With" !in ws[start..i] && (i < |ws| ==> ws[i] == "With")
    ensures var c := Find(cols, Join(ws[start..i]));
            var whole := FindAll(cols, SplitAt(ws[start..], "With"));
            if i == |ws| then (if c.None? then whole.None? else whole == Some([c.value]))
            else var more := FindAll(cols, SplitAt(ws[i + 1..], "With"));
                 (whole.Some? <==> c.Some? && more.Some?) && (whole.Some? ==> whole.value == [c.value] + more.value)
  {
    hide Find, Join, SplitAt;
    var part := ws[start..i];
    if i == |ws| {
      assert ws[start..] == part;
      SplitFirst(part, "With", []);
      assert FindAll(cols, []) == Some([]);
      assert [part][1..] == [];
      var c := Find(cols, Join(part));
      if c.Some? { assert [c.value] + [] == [c.value]; }
    } else {
      SplitFirst(part, "With", ws[i + 1..]);
      assert ws[start..] == part + (["With"] + ws[i + 1..]);
      var rest := SplitAt(ws[i + 1..], "With");
      assert ([part] + rest)[1..] == rest;
    }
  }

  // ------------------------------------------------------------------------------------- one key

  method ReadTupleKey(s: Schema, ws: seq<string>, op: string) returns (ks: seq<ChainKey>)
    ensures ks == Tuple(s, ws, op)
  {
    hide SplitWith;
    var cols := SplitColumns(s.columns, ws);
    if cols.None? || |cols.value| < 2 { return []; }
    for i := 0 to |cols.value|
      invariant forall j :: 0 <= j < i ==> s.rules.tuple(cols.value[j])
    {
      if !s.rules.tuple(cols.value[i]) { return []; }
    }
    return [ChainKey(op, "", cols.value, "")];
  }

  method ReadFulltextKey(s: Schema, ws: seq<string>) returns (ks: seq<ChainKey>)
    ensures ks == Fulltext(s, ws)
  {
    hide SplitWith;
    if ws == [] || ws[0] != "Fulltext" { return []; }
    var mode, start := "fulltext", 1;
    if |ws| > 1 && ws[1] == "Boolean" { mode, start := "fulltext_boolean", 2; }
    var cols := SplitColumns(s.columns, ws[start..]);
    if cols.None? || |cols.value| == 0 { return []; }
    var valid := true;
    for i := 0 to |cols.value|
      invariant valid <==> forall j :: 0 <= j < i ==> s.rules.fulltext(cols.value[j])
    {
      if !s.rules.fulltext(cols.value[i]) { valid := false; }
    }
    return if valid then [ChainKey(mode, "", cols.value, "")] else [];
  }

  method ReadKey(s: Schema, ws: seq<string>) returns (r: Option<ChainKey>)
    ensures r == ParseKey(s, ws)
  {
    hide Find, Join, First, LeadingOp, CompareOp, Tuple, Fulltext, Compares;
    if ws == [] { return None; }
    var candidates: seq<ChainKey> := [];
    var c := Find(s.columns, Join(ws));
    if c.Some? && s.rules.op(c.value, "") { candidates := [ChainKey("", c.value, [], "")]; }
    assert candidates == Plainly(s, ws);
    var text := ReadFulltextKey(s, ws);
    var lead: seq<ChainKey> := [];
    var op := LeadingOp(ws[0]);
    if op.Some? && |ws| > 1 {
      if ws[0] == "Ne" && ws[1] == "Tuple" {
        lead := ReadTupleKey(s, ws[2..], "ne_tuple");
      } else {
        c := Find(s.columns, Join(ws[1..]));
        if c.Some? && s.rules.op(c.value, op.value) { lead := [ChainKey(op.value, c.value, [], "")]; }
      }
    }
    assert lead == Leading(s, ws);
    var tuple: seq<ChainKey> := [];
    if ws[0] == "Tuple" { tuple := ReadTupleKey(s, ws[1..], "tuple"); }
    var compares := ReadCompares(s, ws);
    candidates := candidates + (text + (lead + (tuple + compares)));
    assert candidates == Meanings(s, ws);
    return if |candidates| == 1 then Some(candidates[0]) else None;
  }

  method ReadCompares(s: Schema, ws: seq<string>) returns (ks: seq<ChainKey>)
    requires ws != []
    ensures ks == Compares(s, ws, 1)
  {
    hide Find, Join, First, CompareOp;
    ks := [];
    var i := 1;
    while i < |ws| - 1
      invariant 1 <= i <= |ws|
      invariant ks + Compares(s, ws, i) == Compares(s, ws, 1)
    {
      ghost var at := CompareAt(s, ws, i);
      ghost var more := Compares(s, ws, i + 1);
      assert ks + (at + more) == (ks + at) + more;
      var op := CompareOp(ws[i]);
      var left := Find(s.columns, Join(ws[..i]));
      var right := First(s.all, Join(ws[i + 1..]));
      if op.Some? && left.Some? && right.Some? && s.rules.compare(left.value, op.value) {
        ks := ks + [ChainKey(op.value, left.value, [], right.value)];
      } else {
        assert ks + at == ks;
      }
      i := i + 1;
    }
    assert ks + [] == ks;
  }

  // ------------------------------------------------------------------------------------- chains

  method ReadChain(s: Schema, name: string) returns (r: Option<seq<Linked>>)
    ensures r == ParseChain(s, name)
  {
    hide ParseKey, ParseWords, ConnOf;
    var ws := SplitWords(name);
    if |ws| == 0 { return None; }
    var keys: seq<Linked> := [];
    var conn := "";
    var start := 0;
    ghost var all := ParseWords(s, ws, "");
    assert ws[0..] == ws;
    for i := 0 to |ws|
      invariant start <= i
      invariant forall j :: start <= j < i ==> ws[j] != "And" && ws[j] != "Or"
      invariant Rest(all, keys, ParseWords(s, ws[start..], conn))
    {
      if ws[i] == "And" || ws[i] == "Or" {
        KeyEnds(s, ws, start, i, conn);
        var k := ReadKey(s, ws[start..i]);
        if k.None? { return None; }
        keys := keys + [Linked(conn, k.value)];
        conn, start := ConnOf(ws[i]), i + 1;
      }
    }
    KeyEnds(s, ws, start, |ws|, conn);
    assert ws[start..|ws|] == ws[start..];
    var k := ReadKey(s, ws[start..]);
    if k.None? { return None; }
    return Some(keys + [Linked(conn, k.value)]);
  }

  /** The first key of the words from `start` on ends at i. */
  lemma KeyEnds(s: Schema, ws: seq<string>, start: nat, i: nat, conn: string)
    requires start <= i <= |ws| && (forall j :: start <= j < i ==> ws[j] != "And" && ws[j] != "Or")
    requires i < |ws| ==> ws[i] == "And" || ws[i] == "Or"
    ensures var k := ParseKey(s, ws[start..i]);
            var whole := ParseWords(s, ws[start..], conn);
            if i == |ws| then (if k.None? then whole.None? else whole == Some([Linked(conn, k.value)]))
            else var more := ParseWords(s, ws[i + 1..], ConnOf(ws[i]));
                 (whole.Some? <==> k.Some? && more.Some?) &&
                   (whole.Some? ==> whole.value == [Linked(conn, k.value)] + more.value)
  {
    hide ParseKey, ToConn;
    var a, b := ws[start..i], ws[i..];
    var all := ws[start..];
    assert all == a + b;
    ConnAfter(a, b);
    assert all[..|a|] == a;
    if i < |ws| { assert all[|a|] == ws[i] && all[|a| + 1..] == ws[i + 1..]; }
  }

  method ReadOrder(s: Schema, name: string) returns (r: Option<seq<OrderKey>>)
    ensures r == ParseOrder(s, name)
  {
    hide ParseOrderPart, ParseOrderParts, SplitAt;
    var ws := SplitWords(name);
    var out: seq<OrderKey> := [];
    var start := 0;
    ghost var all := ParseOrderParts(s, SplitAt(ws, "And"));
    assert ws[0..] == ws;
    for i := 0 to |ws| + 1
      invariant start <= i && (start <= |ws| || i == |ws| + 1)
      invariant i <= |ws| ==> "And" !in ws[start..i] && Rest(all, out, ParseOrderParts(s, SplitAt(ws[start..], "And")))
      invariant i == |ws| + 1 ==> all == Some(out)
    {
      if i < |ws| && ws[i] != "And" {
        assert ws[start..i + 1] == ws[start..i] + [ws[i]];
        continue;
      }
      OrderEnds(s, ws, start, i);
      var k := ReadOrderPart(s, ws[start..i]);
      if k.None? { return None; }
      out := out + [k.value];
      start := i + 1;
      if i < |ws| { assert ws[start..start] == []; }
    }
    return Some(out);
  }

  method ReadOrderPart(s: Schema, part: seq<string>) returns (k: Option<OrderKey>)
    ensures k == ParseOrderPart(s, part)
  {
    hide Find, Join;
    if |part| < 2 { return None; }
    var dir := part[|part| - 1];
    if dir != "Asc" && dir != "Desc" { return None; }
    var c := Find(s.columns, Join(part[..|part| - 1]));
    if c.None? { return None; }
    return Some(OrderKey(c.value, dir == "Desc"));
  }

  lemma OrderEnds(s: Schema, ws: seq<string>, start: nat, i: nat)
    requires start <= i <= |ws| && "And" !in ws[start..i] && (i < |ws| ==> ws[i] == "And")
    ensures var k := ParseOrderPart(s, ws[start..i]);
            var whole := ParseOrderParts(s, SplitAt(ws[start..], "And"));
            if i == |ws| then (if k.None? then whole.None? else whole == Some([k.value]))
            else var more := ParseOrderParts(s, SplitAt(ws[i + 1..], "And"));
                 (whole.Some? <==> k.Some? && more.Some?) && (whole.Some? ==> whole.value == [k.value] + more.value)
  {
    hide ParseOrderPart, SplitAt;
    var part := ws[start..i];
    if i == |ws| {
      assert ws[start..] == part;
      SplitFirst(part, "And", []);
      assert ParseOrderParts(s, []) == Some([]);
      assert [part][1..] == [];
      var k := ParseOrderPart(s, part);
      if k.Some? { assert [k.value] + [] == [k.value]; }
    } else {
      SplitFirst(part, "And", ws[i + 1..]);
      assert ws[start..] == part + (["And"] + ws[i + 1..]);
      var rest := SplitAt(ws[i + 1..], "And");
      assert ([part] + rest)[1..] == rest;
    }
  }
}
