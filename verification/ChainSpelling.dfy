/** A chain name that is read is spelled by the keys that it is read as, and the type rules allow those keys. */
module ChainSpelling {
  import opened Common
  import opened Names
  import opened ChainNames
  import opened ChainReadBack

  /** The text of a key; equality with one column may also be written with the word Eq. */
  predicate Spells(text: string, k: ChainKey)
    requires Named(k)
  {
    text == Join(KeyWords(k)) || (k.op == "" && k.compare == "" && text == "Eq" + Join(KeyWords(k)))
  }

  /** A key on several columns has columns. */
  predicate Named(k: ChainKey) {
    k.op in ["tuple", "ne_tuple", "fulltext", "fulltext_boolean"] ==> k.columns != []
  }

  ghost predicate Right(s: Schema, ws: seq<string>, k: ChainKey) {
    Named(k) && Allowed(s, k) && Spells(Join(ws), k)
  }

  ghost predicate AllRight(s: Schema, ws: seq<string>, ks: seq<ChainKey>) {
    forall i :: 0 <= i < |ks| ==> Right(s, ws, ks[i])
  }

  lemma AllRightConcat(s: Schema, ws: seq<string>, a: seq<ChainKey>, b: seq<ChainKey>)
    requires AllRight(s, ws, a) && AllRight(s, ws, b)
    ensures AllRight(s, ws, a + b)
  {
    hide Right;
  }

  // ------------------------------------------------------------------------------------- columns

  lemma FoundColumn(s: Schema, text: string)
    requires Accepted(s) && Find(s.columns, text).Some?
    ensures var c := Find(s.columns, text).value;
            c in s.columns && c in s.all && c != "" && Join(ColumnWords(c)) == text
  {
    hide Find, ColumnWords, IsReserved, Join;
    FindWhich(s.columns, text);
    Column(s, Find(s.columns, text).value);
  }

  lemma {:induction false} FirstWhich(cols: seq<string>, text: string)
    ensures First(cols, text).Some? ==> First(cols, text).value in cols && PascalOf(First(cols, text).value) == text
    decreases |cols|
  {
    hide PascalOf;
    if cols != [] { FirstWhich(cols[1..], text); }
  }

  lemma FirstFound(s: Schema, text: string)
    requires Accepted(s) && First(s.all, text).Some?
    ensures var c := First(s.all, text).value; c in s.all && c != "" && Join(ColumnWords(c)) == text
  {
    hide First, ColumnWords, IsReserved, Join;
    FirstWhich(s.all, text);
    Column(s, First(s.all, text).value);
  }

  /** The text of the parts with a separator between them. */
  function Rejoined(parts: seq<seq<string>>, sep: string): string
    requires parts != []
  {
    if |parts| == 1 then Join(parts[0]) else Join(parts[0]) + (sep + Rejoined(parts[1..], sep))
  }

  lemma {:induction false} SplitRejoins(ws: seq<string>, sep: string)
    ensures Rejoined(SplitAt(ws, sep), sep) == Join(ws)
    decreases |ws|
  {
    if ws != [] {
      var rest := SplitAt(ws[1..], sep);
      SplitRejoins(ws[1..], sep);
      if ws[0] == sep {
        assert ([[]] + rest)[1..] == rest;
      } else {
        var parts := [[ws[0]] + rest[0]] + rest[1..];
        assert parts[1..] == rest[1..];
        JoinConcat([ws[0]], rest[0]);
        assert [ws[0]][1..] == [] && Join([ws[0]]) == ws[0];
      }
    }
  }

  lemma {:induction false} FoundAll(s: Schema, parts: seq<seq<string>>)
    requires Accepted(s) && parts != [] && FindAll(s.columns, parts).Some?
    ensures var cs := FindAll(s.columns, parts).value;
            cs != [] && Among(s.columns, cs) && Join(WithWords(cs)) == Rejoined(parts, "With")
    decreases |parts|
  {
    hide Accepted, Find, ColumnWords, Join;
    FoundColumn(s, Join(parts[0]));
    var c := Find(s.columns, Join(parts[0])).value;
    var cs := FindAll(s.columns, parts).value;
    FindNone(s.columns);
    if |parts| == 1 {
      assert parts[1..] == [] && cs == [c];
    } else {
      FoundAll(s, parts[1..]);
      var rest := FindAll(s.columns, parts[1..]).value;
      assert cs == [c] + rest && cs[1..] == rest;
      JoinConcat(ColumnWords(c), ["With"] + WithWords(rest));
      JoinConcat(["With"], WithWords(rest));
      OneJoined("With");
    }
  }

  lemma OneJoined(w: string)
    ensures Join([w]) == w
  {
    assert [w][1..] == [];
    assert w + "" == w;
  }

  lemma FoundList(s: Schema, ws: seq<string>)
    requires Accepted(s) && SplitWith(s.columns, ws).Some?
    ensures var cs := SplitWith(s.columns, ws).value;
            cs != [] && Among(s.columns, cs) && Join(WithWords(cs)) == Join(ws)
  {
    hide Accepted, FindAll, SplitAt, WithWords, Join;
    SplitRejoins(ws, "With");
    FoundAll(s, SplitAt(ws, "With"));
  }

  // ------------------------------------------------------------------------------------- one key

  lemma PlainRight(s: Schema, ws: seq<string>)
    requires Accepted(s)
    ensures AllRight(s, ws, Plainly(s, ws))
  {
    hide Accepted, Find, ColumnWords, Join;
    if Find(s.columns, Join(ws)).Some? { FoundColumn(s, Join(ws)); }
  }

  /** Words in front of words. */
  lemma Prefixed(ws: seq<string>, n: nat)
    requires n <= |ws|
    ensures Join(ws) == Join(ws[..n]) + Join(ws[n..])
  {
    assert ws == ws[..n] + ws[n..];
    JoinConcat(ws[..n], ws[n..]);
  }

  lemma FulltextRight(s: Schema, ws: seq<string>)
    requires Accepted(s)
    ensures AllRight(s, ws, Fulltext(s, ws))
  {
    hide Accepted, SplitWith, WithWords, Join, Among, AllOf;
    if ws != [] && ws[0] == "Fulltext" {
      var n := if |ws| > 1 && ws[1] == "Boolean" then 2 else 1;
      var head := ws[..n];
      assert head == if n == 2 then ["Fulltext", "Boolean"] else ["Fulltext"];
      if SplitWith(s.columns, ws[n..]).Some? {
        FoundList(s, ws[n..]);
        Prefixed(ws, n);
        JoinConcat(head, WithWords(SplitWith(s.columns, ws[n..]).value));
      }
    }
  }

  lemma TupleRight(s: Schema, ws: seq<string>, n: nat, op: string)
    requires Accepted(s) && n <= |ws|
    requires (op == "tuple" && ws[..n] == ["Tuple"]) || (op == "ne_tuple" && ws[..n] == ["Ne", "Tuple"])
    ensures AllRight(s, ws, Tuple(s, ws[n..], op))
  {
    hide Accepted, SplitWith, WithWords, Join, Among, AllOf;
    if SplitWith(s.columns, ws[n..]).Some? {
      FoundList(s, ws[n..]);
      Prefixed(ws, n);
      JoinConcat(ws[..n], WithWords(SplitWith(s.columns, ws[n..]).value));
    }
  }

  lemma LeadingRight(s: Schema, ws: seq<string>)
    requires Accepted(s)
    ensures AllRight(s, ws, Leading(s, ws))
  {
    hide Accepted, Find, ColumnWords, Join, Tuple;
    if |ws| >= 2 && LeadingOp(ws[0]).Some? {
      if ws[0] == "Ne" && ws[1] == "Tuple" {
        TupleRight(s, ws, 2, "ne_tuple");
      } else if Find(s.columns, Join(ws[1..])).Some? {
        var op, c := LeadingOp(ws[0]).value, Find(s.columns, Join(ws[1..])).value;
        FoundColumn(s, Join(ws[1..]));
        Prefixed(ws, 1);
        assert ws[..1] == [ws[0]];
        OneJoined(ws[0]);
        JoinConcat([LeadingWord(op)], ColumnWords(c));
        OperatorSpelled(ws[0]);
      }
    }
  }

  lemma OperatorSpelled(w: string)
    ensures LeadingOp(w).Some? ==>
              var op := LeadingOp(w).value;
              && op in ["", "ne", "gt", "lt", "ge", "le", "lk", "lb", "between"] && LeadingWord(op) == w
              && (op == "" <==> w == "Eq")
    ensures CompareOp(w).Some? ==>
              CompareOp(w).value in ["", "ne", "gt", "lt", "ge", "le"] && LeadingWord(CompareOp(w).value) == w
  {
  }

  lemma CompareRight(s: Schema, ws: seq<string>, i: nat)
    requires Accepted(s) && i < |ws|
    ensures AllRight(s, ws, CompareAt(s, ws, i))
  {
    hide Accepted, Find, First, ColumnWords, Join, LeadingWord;
    var op, left, right := CompareOp(ws[i]), Find(s.columns, Join(ws[..i])), First(s.all, Join(ws[i + 1..]));
    if op.Some? && left.Some? && right.Some? {
      FoundColumn(s, Join(ws[..i]));
      FirstFound(s, Join(ws[i + 1..]));
      OperatorSpelled(ws[i]);
      Prefixed(ws, i);
      Prefixed(ws[i..], 1);
      assert ws[i..][..1] == [ws[i]] && ws[i..][1..] == ws[i + 1..];
      JoinConcat(ColumnWords(left.value), [ws[i]] + ColumnWords(right.value));
      JoinConcat([ws[i]], ColumnWords(right.value));
    }
  }

  lemma {:induction false} ComparesRight(s: Schema, ws: seq<string>, i: nat)
    requires Accepted(s)
    ensures AllRight(s, ws, Compares(s, ws, i))
    decreases |ws| - i
  {
    hide AllRight, CompareAt, Accepted;
    if i + 1 < |ws| {
      CompareRight(s, ws, i);
      ComparesRight(s, ws, i + 1);
      AllRightConcat(s, ws, CompareAt(s, ws, i), Compares(s, ws, i + 1));
    } else {
      NothingRight(s, ws);
    }
  }

  lemma NothingRight(s: Schema, ws: seq<string>)
    ensures AllRight(s, ws, [])
  {
  }

  /** Words that are read as a key spell it, and the rules allow it. */
  lemma KeyIsSpelled(s: Schema, ws: seq<string>)
    requires Accepted(s) && ParseKey(s, ws).Some?
    ensures Right(s, ws, ParseKey(s, ws).value)
  {
    hide Right, Accepted, Plainly, Fulltext, Leading, Tuple, Compares;
    var tuples := if ws[0] == "Tuple" then Tuple(s, ws[1..], "tuple") else [];
    PlainRight(s, ws);
    FulltextRight(s, ws);
    LeadingRight(s, ws);
    if ws[0] == "Tuple" { TupleRight(s, ws, 1, "tuple") by { assert ws[..1] == ["Tuple"]; } }
    ComparesRight(s, ws, 1);
    AllRightConcat(s, ws, tuples, Compares(s, ws, 1));
    AllRightConcat(s, ws, Leading(s, ws), tuples + Compares(s, ws, 1));
    AllRightConcat(s, ws, Fulltext(s, ws), Leading(s, ws) + (tuples + Compares(s, ws, 1)));
    AllRightConcat(s, ws, Plainly(s, ws), Fulltext(s, ws) + (Leading(s, ws) + (tuples + Compares(s, ws, 1))));
  }

  // ------------------------------------------------------------------------------------- a chain

  /** Keys with their connectors between them: the words up to the connector of the next key spell the first key. */
  ghost predicate ChainSpelled(s: Schema, ws: seq<string>, ks: seq<Linked>)
    decreases |ks|
  {
    && ks != []
    && if |ks| == 1 then Right(s, ws, ks[0].key)
       else exists n :: 0 <= n < |ws| && SpelledAt(s, ws, ks, n)
  }

  ghost predicate SpelledAt(s: Schema, ws: seq<string>, ks: seq<Linked>, n: nat)
    requires n < |ws| && |ks| >= 2
    decreases |ks|, 0
  {
    && Right(s, ws[..n], ks[0].key) && ws[n] == (if ks[1].conn == "and" then "And" else "Or")
    && ChainSpelled(s, ws[n + 1..], ks[1..])
  }

  lemma {:induction false} WordsAreSpelled(s: Schema, ws: seq<string>, conn: string)
    requires Accepted(s) && ParseWords(s, ws, conn).Some? && (conn == "" || conn == "and" || conn == "or")
    ensures var ks := ParseWords(s, ws, conn).value;
            ChainSpelled(s, ws, ks) && AllowedChain(s, ks, conn == "") && ks[0].conn == conn
    decreases |ws|
  {
    hide Right, Accepted, ParseKey, Allowed;
    var n := ToConn(ws);
    KeyIsSpelled(s, ws[..n]);
    RightIsAllowed(s, ws[..n], ParseKey(s, ws[..n]).value);
    var ks := ParseWords(s, ws, conn).value;
    if n == |ws| {
      assert ws[..n] == ws;
    } else {
      WordsAreSpelled(s, ws[n + 1..], ConnOf(ws[n]));
      var rest := ParseWords(s, ws[n + 1..], ConnOf(ws[n])).value;
      assert ks[1..] == rest && ks[1] == rest[0];
      assert SpelledAt(s, ws, ks, n);
    }
  }

  lemma RightIsAllowed(s: Schema, ws: seq<string>, k: ChainKey)
    requires Right(s, ws, k)
    ensures Allowed(s, k)
  {
  }

  /** A name that is read is spelled by its keys, which the rules of the schema allow. */
  lemma ChainIsSpelled(s: Schema, name: string)
    requires Accepted(s) && ParseChain(s, name).Some?
    ensures AllowedChain(s, ParseChain(s, name).value, true)
    ensures ChainSpelled(s, Words(name), ParseChain(s, name).value)
  {
    hide Accepted, Words, ParseWords, ChainSpelled;
    WordsAreSpelled(s, Words(name), "");
  }

  // ------------------------------------------------------------------------------------- order names

  lemma OrderPartIsSpelled(s: Schema, part: seq<string>)
    requires Accepted(s) && ParseOrderPart(s, part).Some?
    ensures var k := ParseOrderPart(s, part).value; k.column in s.columns && Join(OrderPart(k)) == Join(part)
  {
    hide Accepted, Find, ColumnWords, Join;
    var n := |part| - 1;
    var k := ParseOrderPart(s, part).value;
    FoundColumn(s, Join(part[..n]));
    Prefixed(part, n);
    assert part[n..] == [if k.desc then "Desc" else "Asc"];
    JoinConcat(ColumnWords(k.column), part[n..]);
  }

  lemma {:induction false} OrderPartsAreSpelled(s: Schema, parts: seq<seq<string>>)
    requires Accepted(s) && parts != [] && ParseOrderParts(s, parts).Some?
    ensures var ks := ParseOrderParts(s, parts).value;
            && ks != [] && (forall i :: 0 <= i < |ks| ==> ks[i].column in s.columns)
            && Join(OrderWords(ks)) == Rejoined(parts, "And")
    decreases |parts|
  {
    hide Accepted, ParseOrderPart, OrderPart, Join;
    OrderPartIsSpelled(s, parts[0]);
    var k, ks := ParseOrderPart(s, parts[0]).value, ParseOrderParts(s, parts).value;
    if |parts| == 1 {
      OrderEnd(s);
      assert parts[1..] == [] && ks == [k];
    } else {
      OrderPartsAreSpelled(s, parts[1..]);
      var rest := ParseOrderParts(s, parts[1..]).value;
      assert ks == [k] + rest && ks[1..] == rest;
      JoinConcat(OrderPart(k), ["And"] + OrderWords(rest));
      JoinConcat(["And"], OrderWords(rest));
      OneJoined("And");
    }
  }

  /** An order name that is read is the printed name of its keys, which are columns of the entity. */
  lemma OrderIsSpelled(s: Schema, name: string)
    requires Accepted(s) && ParseOrder(s, name).Some?
    ensures var ks := ParseOrder(s, name).value;
            && ks != [] && (forall i :: 0 <= i < |ks| ==> ks[i].column in s.columns)
            && Join(OrderWords(ks)) == name
  {
    hide Accepted, Words, SplitAt, ParseOrderParts, OrderWords, Join;
    OrderPartsAreSpelled(s, SplitAt(Words(name), "And"));
    SplitRejoins(Words(name), "And");
    JoinWords(name);
  }

  lemma {:induction false} JoinWords(name: string)
    ensures Join(Words(name)) == name
    decreases |name|
  {
    if name != "" {
      var n := 1 + Run(name[1..]);
      JoinWords(name[n..]);
      assert ([name[..n]] + Words(name[n..]))[1..] == Words(name[n..]);
      assert name == name[..n] + name[n..];
    }
  }
}
