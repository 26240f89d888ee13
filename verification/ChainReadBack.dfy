/** Chain and order names read back as the keys that they were printed from. */
module ChainReadBack {
  import opened Common
  import opened Names
  import opened ChainNames

  // ------------------------------------------------------------------------------------- words of the grammar

  lemma GrammarWords()
    ensures IsReserved("And") && IsReserved("Or") && IsReserved("With") && IsReserved("Fulltext") && IsReserved("Tuple")
    ensures IsReserved("Gt") && IsReserved("Lt") && IsReserved("Ge") && IsReserved("Le") && IsReserved("Eq")
    ensures IsReserved("Ne")
    ensures IsReserved("Lk") && IsReserved("Lb") && IsReserved("Between")
  {
  }

  /** A word that no column has is no operator, connector or keyword. */
  lemma PlainIsNoKeyword(w: string)
    requires !IsReserved(w)
    ensures w != "And" && w != "Or" && w != "With" && w != "Fulltext" && w != "Tuple"
    ensures LeadingOp(w).None? && CompareOp(w).None?
  {
    hide IsReserved;
    GrammarWords();
  }

  lemma OperatorWords(op: string)
    ensures IsReserved(LeadingWord(op)) && IsWord(LeadingWord(op))
    ensures op in ["", "ne", "gt", "lt", "ge", "le", "lk", "lb", "between"] ==> LeadingOp(LeadingWord(op)) == Some(op)
    ensures op in ["", "ne", "gt", "lt", "ge", "le"] ==> CompareOp(LeadingWord(op)) == Some(op)
    ensures LeadingWord(op) != "And" && LeadingWord(op) != "Or" && LeadingWord(op) != "Fulltext"
    ensures LeadingWord(op) != "Tuple"
  {
    hide IsReserved;
    GrammarWords();
  }

  lemma CapitalOf(s: string)
    requires s != "" && forall i :: 0 <= i < |s| ==> s[i] != '_'
    ensures PascalOf(s) == [ToUpper(s[0])] + s[1..]
  {
    Unbroken(s[1..]);
  }

  lemma {:induction false} Unbroken(s: string)
    requires forall i :: 0 <= i < |s| ==> s[i] != '_'
    ensures PascalFrom(s, false) == s
    decreases |s|
  {
    if s != "" {
      Unbroken(s[1..]);
      assert s == [s[0]] + s[1..];
    }
  }

  /** Operators, connectors and directions are written as their own names in PascalCase. */
  lemma WordsAreNames(op: string)
    requires op in ["ne", "gt", "lt", "ge", "le", "lk", "lb", "between"]
    ensures LeadingWord(op) == PascalOf(op) && LeadingOp(PascalOf(op)) == Some(op)
    ensures ConnOf(PascalOf("and")) == "and" && ConnOf(PascalOf("or")) == "or"
    ensures forall c :: OrderPart(OrderKey(c, true)) == ColumnWords(c) + [PascalOf("desc")]
    ensures forall c :: OrderPart(OrderKey(c, false)) == ColumnWords(c) + [PascalOf("asc")]
  {
    hide PascalOf, ColumnWords;
    CapitalOf(op);
    CapitalOf("and");
    CapitalOf("or");
    CapitalOf("desc");
    CapitalOf("asc");
    assert [ToUpper('d')] + "desc"[1..] == "Desc" && [ToUpper('a')] + "asc"[1..] == "Asc";
    assert [ToUpper('a')] + "and"[1..] == "And" && [ToUpper('o')] + "or"[1..] == "Or";
  }

  // ------------------------------------------------------------------------------------- lookups

  /** The words of an accepted column. */
  lemma Column(s: Schema, c: string)
    requires Accepted(s) && c in s.all
    ensures ColumnWords(c) != [] && AllPlain(ColumnWords(c)) && AllWords(ColumnWords(c))
    ensures Join(ColumnWords(c)) == PascalOf(c)
  {
    hide Words, IsReserved, Segments;
    ColumnWordsPlain(c);
  }

  lemma {:induction false} FindColumn(cols: seq<string>, c: string)
    requires c in cols && forall d :: d in cols && PascalOf(d) == PascalOf(c) ==> d == c
    ensures Find(cols, PascalOf(c)) == Some(c)
    decreases |cols|
  {
    hide PascalOf;
    var n := |cols| - 1;
    assert cols[n] in cols;
    if cols[n] != c {
      assert cols == cols[..n] + [cols[n]];
      FindColumn(cols[..n], c);
    }
  }

  lemma {:induction false} FirstColumn(cols: seq<string>, c: string)
    requires c in cols && forall d :: d in cols && PascalOf(d) == PascalOf(c) ==> d == c
    ensures First(cols, PascalOf(c)) == Some(c)
    decreases |cols|
  {
    hide PascalOf;
    if cols[0] != c {
      assert cols == [cols[0]] + cols[1..];
      FirstColumn(cols[1..], c);
    }
  }

  lemma {:induction false} FindWhich(cols: seq<string>, text: string)
    ensures Find(cols, text).Some? ==> Find(cols, text).value in cols && PascalOf(Find(cols, text).value) == text
    decreases |cols|
  {
    hide PascalOf;
    if cols != [] { FindWhich(cols[..|cols| - 1], text); }
  }

  lemma FindWords(s: Schema, c: string)
    requires Accepted(s) && c in s.columns
    ensures Find(s.columns, Join(ColumnWords(c))) == Some(c)
  {
    hide Words, IsReserved, Segments, Find, PascalOf;
    Column(s, c);
    FindColumn(s.columns, c);
  }

  lemma FirstWords(s: Schema, c: string)
    requires Accepted(s) && c in s.all
    ensures First(s.all, Join(ColumnWords(c))) == Some(c)
  {
    hide Words, IsReserved, Segments, First, PascalOf;
    Column(s, c);
    FirstColumn(s.all, c);
  }

  /** Words that include a word of the grammar are no column. */
  lemma NoColumn(s: Schema, ws: seq<string>, i: nat)
    requires Accepted(s) && AllWords(ws) && i < |ws| && IsReserved(ws[i])
    ensures Find(s.columns, Join(ws)).None?
  {
    hide Words, IsReserved, Segments, Find, PascalOf, IsWord;
    FindWhich(s.columns, Join(ws));
    var c := Find(s.columns, Join(ws));
    if c.Some? {
      WordsJoin(ws);
      ColumnWordsOf(c.value, ws);
      Column(s, c.value);
    }
  }

  lemma ColumnWordsOf(c: string, ws: seq<string>)
    requires PascalOf(c) == Join(ws) && Words(Join(ws)) == ws
    ensures ColumnWords(c) == ws
  {
  }

  // ------------------------------------------------------------------------------------- lists of columns

  lemma {:induction false} WithWordsAll(s: Schema, cols: seq<string>)
    requires Accepted(s) && cols != [] && Among(s.columns, cols)
    ensures AllWords(WithWords(cols)) && WithWords(cols) != [] && WithWords(cols)[0] == ColumnWords(cols[0])[0]
    ensures ColumnWords(cols[0]) != []
    ensures forall i :: 0 <= i < |WithWords(cols)| ==> WithWords(cols)[i] == "With" || !IsReserved(WithWords(cols)[i])
    decreases |cols|
  {
    hide ColumnWords, IsReserved, Accepted, IsWord;
    AmongAll(s, cols);
    Column(s, cols[0]);
    if |cols| > 1 {
      WithWordsAll(s, cols[1..]);
      IsWordWith();
    }
  }

  lemma AmongAll(s: Schema, cols: seq<string>)
    requires Accepted(s) && Among(s.columns, cols)
    ensures forall i :: 0 <= i < |cols| ==> cols[i] in s.columns && cols[i] in s.all
  {
  }

  lemma IsWordWith()
    ensures IsWord("With") && IsWord("Tuple") && IsWord("Fulltext") && IsWord("Boolean") && IsWord("Ne")
    ensures IsWord("And") && IsWord("Or")
    ensures IsWord("Asc") && IsWord("Desc")
  {
  }

  /** Words without the separator, then the separator, then others: the first part is those words. */
  lemma {:induction false} SplitFirst(a: seq<string>, sep: string, b: seq<string>)
    requires sep !in a
    ensures SplitAt(a, sep) == [a]
    ensures SplitAt(a + ([sep] + b), sep) == [a] + SplitAt(b, sep)
    decreases |a|
  {
    var ws := a + ([sep] + b);
    if a == [] {
      assert ws == [sep] + b && ws[1..] == b;
    } else {
      assert ws[0] == a[0] && ws[1..] == a[1..] + ([sep] + b);
      SplitFirst(a[1..], sep, b);
      assert a == [a[0]] + a[1..];
      assert ([a[1..]] + SplitAt(b, sep))[1..] == SplitAt(b, sep);
      var none: seq<seq<string>> := [];
      assert [a[1..]][1..] == none;
    }
  }

  /** Columns joined with With read back as those columns. */
  lemma {:induction false} SplitWithWords(s: Schema, cols: seq<string>)
    requires Accepted(s) && cols != [] && Among(s.columns, cols)
    ensures SplitWith(s.columns, WithWords(cols)) == Some(cols)
    decreases |cols|
  {
    hide ColumnWords, IsReserved, Accepted, SplitAt, Find, Join;
    AmongAll(s, cols);
    Column(s, cols[0]);
    NoWith(ColumnWords(cols[0]));
    FindWords(s, cols[0]);
    FindNone(s.columns);
    if |cols| == 1 {
      SplitFirst(ColumnWords(cols[0]), "With", []);
      FindOne(s.columns, ColumnWords(cols[0]), []);
      assert [ColumnWords(cols[0])] + [] == [ColumnWords(cols[0])];
      assert cols == [cols[0]] + [];
    } else {
      var rest := cols[1..];
      SplitWithWords(s, rest);
      SplitFirst(ColumnWords(cols[0]), "With", WithWords(rest));
      FindOne(s.columns, ColumnWords(cols[0]), SplitAt(WithWords(rest), "With"));
      assert cols == [cols[0]] + rest;
    }
  }

  lemma FindNone(cols: seq<string>)
    ensures FindAll(cols, []) == Some([])
  {
  }

  lemma FindOne(cols: seq<string>, part: seq<string>, rest: seq<seq<string>>)
    requires Find(cols, Join(part)).Some? && FindAll(cols, rest).Some?
    ensures FindAll(cols, [part] + rest) == Some([Find(cols, Join(part)).value] + FindAll(cols, rest).value)
  {
    hide Find, Join;
    assert ([part] + rest)[1..] == rest;
  }

  lemma NoWith(ws: seq<string>)
    requires AllPlain(ws)
    ensures "With" !in ws && "And" !in ws && "Or" !in ws
  {
    hide IsReserved;
    GrammarWords();
  }

  // ------------------------------------------------------------------------------------- one key

  /** Words after the first that are no operators compare nothing. */
  lemma {:induction false} NoCompares(s: Schema, ws: seq<string>, i: nat)
    requires forall j :: i <= j < |ws| ==> CompareOp(ws[j]).None?
    ensures Compares(s, ws, i) == []
    decreases |ws| - i
  {
    hide CompareOp, Find, First;
    if i + 1 < |ws| { NoCompares(s, ws, i + 1); }
  }

  lemma {:induction false} OneCompare(s: Schema, ws: seq<string>, i: nat, at: nat)
    requires i <= at && at + 1 < |ws| && forall j :: i <= j < |ws| && j != at ==> CompareOp(ws[j]).None?
    ensures Compares(s, ws, i) == CompareAt(s, ws, at)
    decreases |ws| - i
  {
    hide CompareOp, Find, First;
    if i < at {
      OneCompare(s, ws, i + 1, at);
      assert [] + CompareAt(s, ws, at) == CompareAt(s, ws, at);
    } else {
      NoCompares(s, ws, i + 1);
      assert CompareAt(s, ws, at) + [] == CompareAt(s, ws, at);
    }
  }

  lemma PlainWords(ws: seq<string>)
    requires AllPlain(ws)
    ensures AllWords(ws)
    ensures forall i :: 0 <= i < |ws| ==>
              CompareOp(ws[i]).None? && LeadingOp(ws[i]).None? && ws[i] != "Tuple" && ws[i] != "Fulltext"
  {
    hide IsReserved, CompareOp, LeadingOp, IsWord;
    forall i | 0 <= i < |ws|
      ensures CompareOp(ws[i]).None? && LeadingOp(ws[i]).None? && ws[i] != "Tuple" && ws[i] != "Fulltext"
    {
      PlainIsNoKeyword(ws[i]);
    }
  }

  /** An equality is a column without an operator. */
  lemma ReadPlain(s: Schema, c: string)
    requires Accepted(s) && c in s.columns && s.rules.op(c, "")
    ensures Meanings(s, ColumnWords(c)) == [ChainKey("", c, [], "")]
  {
    hide ColumnWords, Accepted, Find, Join, CompareOp, LeadingOp, AllPlain;
    AmongAll(s, [c]);
    assert [c][0] == c;
    Column(s, c);
    PlainWords(ColumnWords(c));
    FindWords(s, c);
    NoCompares(s, ColumnWords(c), 1);
  }

  /** An operator in front of a column; Eq is the equality once more. */
  lemma ReadLeading(s: Schema, c: string, op: string)
    requires Accepted(s) && c in s.columns && s.rules.op(c, op)
    requires op in ["", "ne", "gt", "lt", "ge", "le", "lk", "lb", "between"]
    ensures Meanings(s, [LeadingWord(op)] + ColumnWords(c)) == [ChainKey(op, c, [], "")]
  {
    hide ColumnWords, Accepted, Find, Join, CompareOp, LeadingOp, AllPlain, LeadingWord, IsReserved, IsWord;
    AmongAll(s, [c]);
    assert [c][0] == c;
    Column(s, c);
    PlainWords(ColumnWords(c));
    FindWords(s, c);
    OperatorWords(op);
    var ws := [LeadingWord(op)] + ColumnWords(c);
    assert ws[1..] == ColumnWords(c);
    assert forall i :: 1 <= i < |ws| ==> ws[i] == ColumnWords(c)[i - 1];
    NoColumn(s, ws, 0);
    NoCompares(s, ws, 1);
  }

  /** A list of columns behind words of the grammar is no column and compares nothing. */
  lemma ListOnly(s: Schema, head: seq<string>, cols: seq<string>)
    requires Accepted(s) && cols != [] && Among(s.columns, cols) && head != [] && IsReserved(head[0]) && AllWords(head)
    requires forall i :: 1 <= i < |head| ==> CompareOp(head[i]).None?
    ensures var ws := head + WithWords(cols);
            Plainly(s, ws) == [] && Compares(s, ws, 1) == [] && ws[|head|..] == WithWords(cols)
  {
    hide Accepted, Find, Join, CompareOp, IsReserved, IsWord, WithWords;
    var list := WithWords(cols);
    var ws := head + list;
    WithWordsAll(s, cols);
    ListCompares(list);
    assert forall i :: |head| <= i < |ws| ==> ws[i] == list[i - |head|];
    NoColumn(s, ws, 0);
    NoCompares(s, ws, 1);
  }

  lemma ReadTuple(s: Schema, cols: seq<string>)
    requires Accepted(s) && |cols| >= 2 && Among(s.columns, cols) && AllOf(cols, s.rules.tuple)
    ensures Meanings(s, ["Tuple"] + WithWords(cols)) == [ChainKey("tuple", "", cols, "")]
  {
    hide Accepted, CompareOp, IsReserved, WithWords, SplitWith, Plainly, Compares, AllOf, Among;
    GrammarWords();
    IsWordWith();
    TupleIsNoOperator();
    ListOnly(s, ["Tuple"], cols);
    SplitWithWords(s, cols);
    assert LeadingOp("Tuple").None?;
  }

  lemma ReadNeTuple(s: Schema, cols: seq<string>)
    requires Accepted(s) && |cols| >= 2 && Among(s.columns, cols) && AllOf(cols, s.rules.tuple)
    ensures Meanings(s, ["Ne", "Tuple"] + WithWords(cols)) == [ChainKey("ne_tuple", "", cols, "")]
  {
    hide Accepted, CompareOp, IsReserved, WithWords, SplitWith, Plainly, Compares, AllOf, Among;
    GrammarWords();
    IsWordWith();
    TupleIsNoOperator();
    ListOnly(s, ["Ne", "Tuple"], cols);
    SplitWithWords(s, cols);
    assert LeadingOp("Ne") == Some("ne");
  }

  lemma TupleIsNoOperator()
    ensures CompareOp("Tuple").None? && CompareOp("With").None? && CompareOp("Boolean").None?
  {
  }

  lemma ListCompares(list: seq<string>)
    requires forall i :: 0 <= i < |list| ==> list[i] == "With" || !IsReserved(list[i])
    ensures forall i :: 0 <= i < |list| ==> CompareOp(list[i]).None?
  {
    hide IsReserved, CompareOp;
    TupleIsNoOperator();
    forall i | 0 <= i < |list| ensures CompareOp(list[i]).None? {
      if list[i] != "With" { PlainIsNoKeyword(list[i]); }
    }
  }

  lemma ReadFulltext(s: Schema, cols: seq<string>, boolean: bool)
    requires Accepted(s) && cols != [] && Among(s.columns, cols) && AllOf(cols, s.rules.fulltext)
    ensures ColumnWords(cols[0]) != []
    ensures Meanings(s, (if boolean then ["Fulltext", "Boolean"] else ["Fulltext"]) + WithWords(cols))
              == [ChainKey(if boolean then "fulltext_boolean" else "fulltext", "", cols, "")]
            <==> boolean || ColumnWords(cols[0])[0] != "Boolean"
  {
    hide Accepted, CompareOp, IsReserved, WithWords, SplitWith, Plainly, Compares, AllOf, Among, ColumnWords;
    GrammarWords();
    IsWordWith();
    TupleIsNoOperator();
    WithWordsAll(s, cols);
    ListOnly(s, if boolean then ["Fulltext", "Boolean"] else ["Fulltext"], cols);
    SplitWithWords(s, cols);
    assert LeadingOp("Fulltext").None?;
    var ws := (if boolean then ["Fulltext", "Boolean"] else ["Fulltext"]) + WithWords(cols);
    assert Meanings(s, ws) == Fulltext(s, ws);
    assert |"fulltext_boolean"| != |"fulltext"|;
    if !boolean && ColumnWords(cols[0])[0] == "Boolean" {
      assert ws[1] == "Boolean";
      assert Fulltext(s, ws) == [] || Fulltext(s, ws)[0].op == "fulltext_boolean";
    }
  }

  lemma ReadCompare(s: Schema, c: string, op: string, d: string)
    requires Accepted(s) && c in s.columns && d in s.all && s.rules.compare(c, op)
    requires op in ["", "ne", "gt", "lt", "ge", "le"]
    ensures Meanings(s, ColumnWords(c) + ([LeadingWord(op)] + ColumnWords(d))) == [ChainKey(op, c, [], d)]
  {
    hide ColumnWords, Accepted, Find, First, Join, CompareOp, LeadingOp, AllPlain, LeadingWord, IsReserved, IsWord;
    AmongAll(s, [c]);
    assert [c][0] == c;
    Column(s, c);
    Column(s, d);
    var a, b := ColumnWords(c), ColumnWords(d);
    PlainWords(a);
    PlainWords(b);
    FindWords(s, c);
    FirstWords(s, d);
    OperatorWords(op);
    var ws := a + ([LeadingWord(op)] + b);
    var at := |a|;
    assert ws[at] == LeadingWord(op) && ws[..at] == a && ws[at + 1..] == b;
    assert forall i :: 0 <= i < at ==> ws[i] == a[i];
    assert forall i :: at < i < |ws| ==> ws[i] == b[i - at - 1];
    NoColumn(s, ws, at);
    OneCompare(s, ws, 1, at);
  }

  /** An allowed key means exactly one thing, itself, unless it is a full-text search that reads as a boolean one. */
  lemma KeyReadsBack(s: Schema, k: ChainKey)
    requires Accepted(s) && Allowed(s, k)
    ensures Meanings(s, KeyWords(k)) == [k] <==> Clear(k)
  {
    hide Accepted, Meanings, ColumnWords, WithWords, LeadingWord, Among, AllOf;
    if k.op == "tuple" || k.op == "ne_tuple" {
      if k.op == "tuple" { ReadTuple(s, k.columns); } else { ReadNeTuple(s, k.columns); }
    } else if k.op == "fulltext" || k.op == "fulltext_boolean" {
      ReadFulltext(s, k.columns, k.op == "fulltext_boolean");
    } else if k.compare != "" {
      ReadCompare(s, k.column, k.op, k.compare);
    } else if k.op == "" {
      ReadPlain(s, k.column);
    } else {
      ReadLeading(s, k.column, k.op);
    }
  }

  // ------------------------------------------------------------------------------------- chains

  /** The words of a key are words, and none of them is a connector. */
  lemma KeyHasNoConn(s: Schema, k: ChainKey)
    requires Accepted(s) && Allowed(s, k)
    ensures AllWords(KeyWords(k)) && KeyWords(k) != []
    ensures forall i :: 0 <= i < |KeyWords(k)| ==> KeyWords(k)[i] != "And" && KeyWords(k)[i] != "Or"
  {
    hide Accepted, ColumnWords, WithWords, LeadingWord, IsWord;
    IsWordWith();
    OperatorWords(k.op);
    if k.op == "tuple" || k.op == "ne_tuple" || k.op == "fulltext" || k.op == "fulltext_boolean" {
      ListHasNoConn(s, k.columns);
    } else {
      ColumnHasNoConn(s, k.column);
      if k.compare != "" { CompareHasNoConn(s, k.compare); }
    }
  }

  lemma ListHasNoConn(s: Schema, cols: seq<string>)
    requires Accepted(s) && cols != [] && Among(s.columns, cols)
    ensures AllWords(WithWords(cols))
    ensures forall i :: 0 <= i < |WithWords(cols)| ==> WithWords(cols)[i] != "And" && WithWords(cols)[i] != "Or"
  {
    hide Accepted, WithWords, IsReserved, IsWord;
    GrammarWords();
    WithWordsAll(s, cols);
  }

  lemma CompareHasNoConn(s: Schema, c: string)
    requires Accepted(s) && c in s.all
    ensures ColumnWords(c) != [] && AllWords(ColumnWords(c))
    ensures forall i :: 0 <= i < |ColumnWords(c)| ==> ColumnWords(c)[i] != "And" && ColumnWords(c)[i] != "Or"
  {
    hide Accepted, ColumnWords, IsWord;
    Column(s, c);
    NoWith(ColumnWords(c));
  }

  lemma ColumnHasNoConn(s: Schema, c: string)
    requires Accepted(s) && c in s.columns
    ensures ColumnWords(c) != [] && AllWords(ColumnWords(c))
    ensures forall i :: 0 <= i < |ColumnWords(c)| ==> ColumnWords(c)[i] != "And" && ColumnWords(c)[i] != "Or"
  {
    hide ColumnWords, IsWord, IsName, Unreserved, PascalOf;
    CompareHasNoConn(s, c);
  }

  lemma {:induction false} ConnAfter(a: seq<string>, b: seq<string>)
    requires forall i :: 0 <= i < |a| ==> a[i] != "And" && a[i] != "Or"
    requires b != [] ==> b[0] == "And" || b[0] == "Or"
    ensures ToConn(a + b) == |a|
    decreases |a|
  {
    if a == [] {
      assert a + b == b;
    } else {
      assert (a + b)[0] == a[0] && (a + b)[1..] == a[1..] + b;
      ConnAfter(a[1..], b);
    }
  }

  lemma {:induction false} ChainKeys(s: Schema, ks: seq<Linked>, first: bool)
    requires AllowedChain(s, ks, first)
    ensures forall i :: 0 <= i < |ks| ==> Allowed(s, ks[i].key)
    ensures Printable(ks)
    decreases |ks|
  {
    hide Among, AllOf;
    if |ks| > 1 {
      ChainKeys(s, ks[1..], false);
      assert forall i :: 1 <= i < |ks| ==> ks[i] == ks[1..][i - 1];
    }
  }

  lemma {:induction false} ChainWordsAll(s: Schema, ks: seq<Linked>, first: bool)
    requires Accepted(s) && AllowedChain(s, ks, first)
    ensures Printable(ks)
    ensures AllWords(ChainWords(ks)) && ChainWords(ks) != []
    decreases |ks|
  {
    hide Accepted, KeyWords, Allowed, IsWord;
    ChainKeys(s, ks, first);
    KeyHasNoConn(s, ks[0].key);
    IsWordWith();
    if |ks| > 1 { ChainWordsAll(s, ks[1..], false); }
  }

  lemma KeyParses(s: Schema, k: ChainKey)
    requires Accepted(s) && Allowed(s, k)
    ensures ParseKey(s, KeyWords(k)) == Some(k) <==> Clear(k)
  {
    hide Accepted, Allowed, Meanings, KeyWords, Clear;
    KeyReadsBack(s, k);
  }

  lemma {:induction false} WordsReadBack(s: Schema, ks: seq<Linked>, first: bool)
    requires Accepted(s) && AllowedChain(s, ks, first)
    ensures Printable(ks) && (ParseWords(s, ChainWords(ks), ks[0].conn) == Some(ks) <==> AllClear(ks))
    decreases |ks|
  {
    hide Accepted, KeyWords, Allowed, IsWord, ParseKey, ParseWords, Clear;
    ChainKeys(s, ks, first);
    var a := KeyWords(ks[0].key);
    KeyParses(s, ks[0].key);
    KeyHasNoConn(s, ks[0].key);
    if |ks| == 1 {
      ParseLast(s, a, ks[0].key, ks[0].conn);
      assert ks == [Linked(ks[0].conn, ks[0].key)];
    } else {
      var rest := ks[1..];
      WordsReadBack(s, rest, false);
      var w := if ks[1].conn == "and" then "And" else "Or";
      assert ConnOf(w) == rest[0].conn;
      ParseStep(s, a, ks[0].key, ks[0].conn, w, ChainWords(rest), rest);
      assert ks == [Linked(ks[0].conn, ks[0].key)] + rest;
      assert AllClear(ks) <==> Clear(ks[0].key) && AllClear(rest);
    }
  }

  lemma ParseLast(s: Schema, a: seq<string>, k: ChainKey, conn: string)
    requires forall i :: 0 <= i < |a| ==> a[i] != "And" && a[i] != "Or"
    ensures ParseWords(s, a, conn) == Some([Linked(conn, k)]) <==> ParseKey(s, a) == Some(k)
  {
    hide ParseKey, ToConn;
    ConnAfter(a, []);
    assert a + [] == a && a[..|a|] == a;
    if ParseWords(s, a, conn) == Some([Linked(conn, k)]) { assert [Linked(conn, k)][0].key == k; }
  }

  lemma ParseStep(
    s: Schema, a: seq<string>, k: ChainKey, conn: string, w: string, rest: seq<string>, ks: seq<Linked>)
    requires (forall i :: 0 <= i < |a| ==> a[i] != "And" && a[i] != "Or") && (w == "And" || w == "Or")
    ensures ParseWords(s, a + ([w] + rest), conn) == Some([Linked(conn, k)] + ks) <==>
              ParseKey(s, a) == Some(k) && ParseWords(s, rest, ConnOf(w)) == Some(ks)
  {
    hide ParseKey, ToConn;
    var ws := a + ([w] + rest);
    ConnAfter(a, [w] + rest);
    assert ws[..|a|] == a && ws[|a|] == w && ws[|a| + 1..] == rest;
    var all := [Linked(conn, k)] + ks;
    assert all[0] == Linked(conn, k) && all[1..] == ks;
    var key, more := ParseKey(s, a), ParseWords(s, rest, ConnOf(w));
    if key.Some? && more.Some? {
      var got := [Linked(conn, key.value)] + more.value;
      assert got[0] == Linked(conn, key.value) && got[1..] == more.value;
    }
  }

  /** A chain of allowed keys, printed and read, is that chain exactly when each of its keys reads back. */
  lemma ChainReadsBack(s: Schema, ks: seq<Linked>)
    requires Accepted(s) && AllowedChain(s, ks, true)
    ensures Printable(ks) && (ParseChain(s, Join(ChainWords(ks))) == Some(ks) <==> AllClear(ks))
  {
    hide Accepted, Allowed, IsWord, ChainWords, ParseWords, Words, Join, AllClear;
    ChainWordsAll(s, ks, true);
    WordsJoin(ChainWords(ks));
    WordsReadBack(s, ks, true);
  }

  // ------------------------------------------------------------------------------------- order names

  lemma OrderPartWords(s: Schema, k: OrderKey)
    requires Accepted(s) && k.column in s.columns
    ensures AllWords(OrderPart(k)) && "And" !in OrderPart(k) && ParseOrderPart(s, OrderPart(k)) == Some(k)
  {
    hide Accepted, ColumnWords, IsWord, Find, Join;
    ColumnHasNoConn(s, k.column);
    FindWords(s, k.column);
    IsWordWith();
    var a := ColumnWords(k.column);
    assert OrderPart(k)[..|OrderPart(k)| - 1] == a;
  }

  lemma OrderStep(s: Schema, part: seq<string>, rest: seq<seq<string>>)
    requires ParseOrderPart(s, part).Some? && ParseOrderParts(s, rest).Some?
    ensures ParseOrderParts(s, [part] + rest) == Some([ParseOrderPart(s, part).value] + ParseOrderParts(s, rest).value)
  {
    hide ParseOrderPart;
    assert ([part] + rest)[1..] == rest;
  }

  lemma OrderEnd(s: Schema)
    ensures ParseOrderParts(s, []) == Some([])
  {
  }

  lemma {:induction false} OrderWordsReadBack(s: Schema, ks: seq<OrderKey>)
    requires Accepted(s) && ks != [] && forall i :: 0 <= i < |ks| ==> ks[i].column in s.columns
    ensures AllWords(OrderWords(ks)) && ParseOrderParts(s, SplitAt(OrderWords(ks), "And")) == Some(ks)
    decreases |ks|
  {
    hide Accepted, IsWord, SplitAt, ParseOrderParts, ParseOrderPart, OrderPart;
    var part := OrderPart(ks[0]);
    OrderPartWords(s, ks[0]);
    OrderEnd(s);
    IsWordWith();
    if |ks| == 1 {
      SplitFirst(part, "And", []);
      OrderStep(s, part, []);
      assert [part] + [] == [part] && ks == [ks[0]] + [];
    } else {
      OrderWordsReadBack(s, ks[1..]);
      SplitFirst(part, "And", OrderWords(ks[1..]));
      OrderStep(s, part, SplitAt(OrderWords(ks[1..]), "And"));
      assert ks == [ks[0]] + ks[1..];
    }
  }

  /** An order chain, printed and read back, is that chain. */
  lemma OrderReadsBack(s: Schema, ks: seq<OrderKey>)
    requires Accepted(s) && ks != [] && forall i :: 0 <= i < |ks| ==> ks[i].column in s.columns
    ensures ParseOrder(s, Join(OrderWords(ks))) == Some(ks)
  {
    hide Accepted, IsWord, SplitAt, ParseOrderParts, OrderWords, Words, Join;
    OrderWordsReadBack(s, ks);
    WordsJoin(OrderWords(ks));
  }
}
