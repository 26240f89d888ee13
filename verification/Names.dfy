/** Column names and the words of the method names that are printed from them. */
module Names {
  import opened Common
  import opened Numerals

  predicate IsUpper(c: char) { 'A' <= c <= 'Z' }

  predicate IsLetter(c: char) { 'a' <= c <= 'z' }

  function ToUpper(c: char): char { if IsLetter(c) then (c as int - 32) as char else c }

  // ------------------------------------------------------------------------------------- printing a column

  /** The name in PascalCase; `up` when the next character starts a segment. */
  function PascalFrom(s: string, up: bool): string {
    if s == "" then ""
    else if s[0] == '_' then PascalFrom(s[1..], true)
    else [if up then ToUpper(s[0]) else s[0]] + PascalFrom(s[1..], false)
  }

  function PascalOf(s: string): string { PascalFrom(s, true) }

  method Pascal(s: string) returns (b: string)
    ensures b == PascalOf(s)
  {
    b := "";
    var up := true;
    assert s[0..] == s;
    for i := 0 to |s|
      invariant b + PascalFrom(s[i..], up) == PascalOf(s)
    {
      assert s[i..][0] == s[i] && s[i..][1..] == s[i + 1..];
      if s[i] == '_' {
        up := true;
        continue;
      }
      ghost var rest := PascalFrom(s[i + 1..], false);
      assert b + ([if up then ToUpper(s[i]) else s[i]] + rest) == b + [if up then ToUpper(s[i]) else s[i]] + rest;
      if up {
        b := b + [ToUpper(s[i])];
        up := false;
      } else {
        b := b + [s[i]];
      }
    }
    assert s[|s|..] == "" && b + "" == b;
  }

  // ------------------------------------------------------------------------------------- words

  /** The number of characters before the next upper-case letter. */
  function Run(s: string): (n: nat)
    ensures n <= |s| && (forall i :: 0 <= i < n ==> !IsUpper(s[i])) && (n < |s| ==> IsUpper(s[n]))
  {
    if s == "" || IsUpper(s[0]) then 0 else 1 + Run(s[1..])
  }

  /** The words of a PascalCase name; digits stay with the word before them. */
  function Words(s: string): (r: seq<string>)
    decreases |s|
  {
    if s == "" then [] else
    var n := 1 + Run(s[1..]);
    [s[..n]] + Words(s[n..])
  }

  method SplitWords(name: string) returns (out: seq<string>)
    ensures out == Words(name)
  {
    hide Words;
    out := [];
    var start := 0;
    assert name[0..] == name;
    for i := 0 to |name|
      invariant start <= i && (start == i ==> i == 0)
      invariant forall j :: start < j < i ==> !IsUpper(name[j])
      invariant Words(name) == out + Words(name[start..])
    {
      if i > 0 && IsUpper(name[i]) {
        FirstWord(name, start, i);
        Regroup(out, [name[start..i]], Words(name[i..]));
        out := out + [name[start..i]];
        start := i;
      }
    }
    NoWords(name[|name|..]);
    if start < |name| {
      FirstWord(name, start, |name|);
      assert name[start..|name|] == name[start..];
      out := out + [name[start..]];
    }
  }

  lemma NoWords(s: string)
    requires s == ""
    ensures Words(s) == []
  {
  }

  lemma FirstWord(name: string, start: nat, end: nat)
    requires start < end <= |name| && (forall j :: start < j < end ==> !IsUpper(name[j]))
    requires (end < |name| ==> IsUpper(name[end]))
    ensures Words(name[start..]) == [name[start..end]] + Words(name[end..])
  {
    var s := name[start..];
    RunIs(s[1..], end - start - 1);
    assert s[..end - start] == name[start..end] && s[end - start..] == name[end..];
  }

  lemma {:induction false} RunIs(s: string, n: nat)
    requires n <= |s| && (forall i :: 0 <= i < n ==> !IsUpper(s[i])) && (n < |s| ==> IsUpper(s[n]))
    ensures Run(s) == n
    decreases n
  {
    if n > 0 { RunIs(s[1..], n - 1); }
  }

  /** An upper-case letter followed by other characters. */
  predicate IsWord(w: string) {
    w != "" && IsUpper(w[0]) && forall i :: 1 <= i < |w| ==> !IsUpper(w[i])
  }

  predicate AllWords(ws: seq<string>) {
    forall i :: 0 <= i < |ws| ==> IsWord(ws[i])
  }

  function Join(ws: seq<string>): string { if ws == [] then "" else ws[0] + Join(ws[1..]) }

  lemma {:induction false} JoinConcat(a: seq<string>, b: seq<string>)
    ensures Join(a + b) == Join(a) + Join(b)
    decreases |a|
  {
    if a == [] {
      assert a + b == b;
    } else {
      assert (a + b)[0] == a[0] && (a + b)[1..] == a[1..] + b;
      JoinConcat(a[1..], b);
    }
  }

  /** A word in front of a text that starts with a word is its first word. */
  lemma WordFirst(w: string, t: string)
    requires IsWord(w) && (t != "" ==> IsUpper(t[0]))
    ensures Words(w + t) == [w] + Words(t)
  {
    var s := w + t;
    FirstWord(s, 0, |w|);
    assert s[0..] == s && s[0..|w|] == w && s[|w|..] == t;
  }

  /** The words of joined words are those words. */
  lemma {:induction false} WordsJoin(ws: seq<string>)
    requires AllWords(ws)
    ensures Words(Join(ws)) == ws
    decreases |ws|
  {
    if ws != [] {
      var rest := ws[1..];
      WordsJoin(rest);
      if rest != [] { assert Join(rest)[0] == rest[0][0]; }
      WordFirst(ws[0], Join(rest));
      assert ws == [ws[0]] + rest;
    }
  }

  // ------------------------------------------------------------------------------------- column names

  /** The names of a schema document: a lower-case letter, then lower-case letters, digits and underscores. */
  predicate IsName(s: string) {
    s != "" && IsLetter(s[0]) && forall i :: 0 <= i < |s| ==> IsLetter(s[i]) || IsDigit(s[i]) || s[i] == '_'
  }

  /** The segments of a name, between its underscores. */
  function Segments(s: string): (r: seq<string>)
    ensures r != []
  {
    if s == "" then [""]
    else
      var rest := Segments(s[1..]);
      if s[0] == '_' then [""] + rest else [[s[0]] + rest[0]] + rest[1..]
  }

  /** The words of the grammar, as segments of a name. */
  predicate ReservedSegment(s: string) {
    match s
    case "and" => true case "or" => true case "with" => true case "gt" => true case "lt" => true case "ge" => true
    case "le" => true case "eq" => true case "ne" => true case "lk" => true case "lb" => true case "between" => true
    case "fulltext" => true case "tuple" => true
    case _ => false
  }

  /** No segment is a word of the grammar. */
  predicate Unreserved(s: string) {
    forall i :: 0 <= i < |Segments(s)| ==> !ReservedSegment(Segments(s)[i])
  }

  function Capital(s: string): string { if s == "" then "" else [ToUpper(s[0])] + s[1..] }

  /** The words of the grammar as they are printed. */
  predicate IsReserved(w: string) {
    match w
    case "And" => true case "Or" => true case "With" => true case "Gt" => true case "Lt" => true case "Ge" => true
    case "Le" => true case "Eq" => true case "Ne" => true case "Lk" => true case "Lb" => true case "Between" => true
    case "Fulltext" => true case "Tuple" => true
    case _ => false
  }

  predicate HasDigit(w: string) {
    exists i :: 0 <= i < |w| && IsDigit(w[i])
  }

  // ------------------------------------------------------------------------------------- the words of a column

  /** A word that the grammar does not use. */
  predicate Plain(w: string) { IsWord(w) && !IsReserved(w) }

  predicate AllPlain(ws: seq<string>) {
    forall i :: 0 <= i < |ws| ==> Plain(ws[i])
  }

  predicate Lower(s: string) {
    forall i :: 0 <= i < |s| ==> IsLetter(s[i]) || IsDigit(s[i])
  }

  function Capitals(segs: seq<string>): string { if segs == [] then "" else Capital(segs[0]) + Capitals(segs[1..]) }

  lemma {:induction false} PascalSegments(s: string)
    ensures PascalFrom(s, true) == Capitals(Segments(s))
    ensures PascalFrom(s, false) == Segments(s)[0] + Capitals(Segments(s)[1..])
    decreases |s|
  {
    hide ToUpper, Capital, Capitals, Segments;
    SegmentsStep(s);
    if s == "" {
      CapitalsStep("", []);
      assert [""] + [] == [""];
    } else {
      PascalSegments(s[1..]);
      var rest := Segments(s[1..]);
      if s[0] == '_' {
        CapitalsStep("", rest);
      } else {
        CapitalsStep([s[0]] + rest[0], rest[1..]);
        CapitalStep(s[0], rest[0]);
        var tail := Capitals(rest[1..]);
        assert [ToUpper(s[0])] + (rest[0] + tail) == [ToUpper(s[0])] + rest[0] + tail;
        assert [s[0]] + (rest[0] + tail) == [s[0]] + rest[0] + tail;
      }
    }
  }

  lemma SegmentsStep(s: string)
    ensures s == "" ==> Segments(s) == [""] && Segments(s)[1..] == []
    ensures s != "" && s[0] == '_' ==> Segments(s) == [""] + Segments(s[1..]) && Segments(s)[1..] == Segments(s[1..])
    ensures s != "" && s[0] != '_' ==>
              var rest := Segments(s[1..]);
              Segments(s) == [[s[0]] + rest[0]] + rest[1..] && Segments(s)[1..] == rest[1..]
  {
  }

  lemma CapitalsStep(seg: string, rest: seq<string>)
    ensures Capitals([seg] + rest) == Capital(seg) + Capitals(rest)
    ensures Capitals([]) == "" && Capitals([""] + rest) == Capitals(rest)
  {
    assert ([seg] + rest)[1..] == rest && ([""] + rest)[1..] == rest;
    assert "" + Capitals(rest) == Capitals(rest);
  }

  lemma CapitalStep(c: char, rest: string)
    ensures Capital([c] + rest) == [ToUpper(c)] + rest
  {
  }

  lemma {:induction false} SegmentsLower(s: string)
    requires forall i :: 0 <= i < |s| ==> IsLetter(s[i]) || IsDigit(s[i]) || s[i] == '_'
    ensures forall i :: 0 <= i < |Segments(s)| ==> Lower(Segments(s)[i])
    decreases |s|
  {
    if s != "" { SegmentsLower(s[1..]); }
  }

  lemma SegmentsHead(s: string)
    requires s != "" && s[0] != '_'
    ensures Segments(s)[0] != "" && Segments(s)[0][0] == s[0]
  {
  }

  lemma ReservedIsLetters(w: string)
    requires IsReserved(w)
    ensures !HasDigit(w)
  {
  }

  /** A segment that starts with a letter makes a word that the grammar does not use. */
  lemma SegmentWord(seg: string)
    requires seg != "" && Lower(seg) && IsLetter(seg[0]) && !ReservedSegment(seg)
    ensures Plain(Capital(seg))
  {
    hide Capital, IsReserved;
    CapitalIsWord(seg);
    if IsReserved(Capital(seg)) { Uncapital(seg); }
  }

  lemma CapitalIsWord(seg: string)
    requires seg != "" && Lower(seg) && IsLetter(seg[0])
    ensures IsWord(Capital(seg))
  {
  }

  function Uncapitalized(w: string): string {
    if w == "" then "" else [(if IsUpper(w[0]) then (w[0] as int + 32) as char else w[0])] + w[1..]
  }

  lemma ReservedLower(w: string)
    requires IsReserved(w)
    ensures ReservedSegment(Uncapitalized(w))
  {
    match w
    case "And" => assert Uncapitalized(w) == "and";
    case "Or" => assert Uncapitalized(w) == "or";
    case "With" => assert Uncapitalized(w) == "with";
    case "Gt" => assert Uncapitalized(w) == "gt";
    case "Lt" => assert Uncapitalized(w) == "lt";
    case "Ge" => assert Uncapitalized(w) == "ge";
    case "Le" => assert Uncapitalized(w) == "le";
    case "Eq" => assert Uncapitalized(w) == "eq";
    case "Ne" => assert Uncapitalized(w) == "ne";
    case "Lk" => assert Uncapitalized(w) == "lk";
    case "Lb" => assert Uncapitalized(w) == "lb";
    case "Between" => assert Uncapitalized(w) == "between";
    case "Fulltext" => assert Uncapitalized(w) == "fulltext";
    case "Tuple" => assert Uncapitalized(w) == "tuple";
    case _ =>
  }

  lemma Uncapital(seg: string)
    requires seg != "" && IsLetter(seg[0]) && IsReserved(Capital(seg))
    ensures ReservedSegment(seg)
  {
    hide IsReserved, ReservedSegment;
    ReservedLower(Capital(seg));
    assert Uncapitalized(Capital(seg)) == seg;
  }

  /** A segment that starts with a digit stays with the word before it. */
  lemma DigitWord(cur: string, seg: string)
    requires IsWord(cur) && seg != "" && Lower(seg) && IsDigit(seg[0])
    ensures Capital(seg) == seg && Plain(cur + seg)
  {
    assert seg == [seg[0]] + seg[1..];
    var w := cur + seg;
    assert w[|cur|] == seg[0];
    if IsReserved(w) { ReservedIsLetters(w); }
  }

  lemma {:induction false} SegmentWords(segs: seq<string>, cur: string)
    requires Plain(cur) && forall i :: 0 <= i < |segs| ==> Lower(segs[i]) && !ReservedSegment(segs[i])
    ensures Words(cur + Capitals(segs)) != [] && AllPlain(Words(cur + Capitals(segs)))
    ensures Join(Words(cur + Capitals(segs))) == cur + Capitals(segs)
    decreases |segs|
  {
    hide Words, Plain, Capital, Capitals;
    PlainIsWord(cur);
    if segs == [] {
      CapitalsStep("", []);
      OneWord(cur);
    } else {
      var seg, rest := segs[0], segs[1..];
      assert segs == [seg] + rest;
      CapitalsStep(seg, rest);
      if seg == "" {
        SegmentWords(rest, cur);
      } else if IsLetter(seg[0]) {
        SegmentWord(seg);
        SegmentWords(rest, Capital(seg));
        NextWord(cur, Capital(seg), Capitals(rest));
      } else {
        DigitWord(cur, seg);
        SegmentWords(rest, cur + seg);
        assert cur + (seg + Capitals(rest)) == cur + seg + Capitals(rest);
      }
    }
  }

  lemma PlainIsWord(w: string)
    requires Plain(w)
    ensures IsWord(w)
  {
  }

  lemma OneWord(w: string)
    requires Plain(w)
    ensures Words(w + "") == [w] && AllPlain([w]) && Join([w]) == w + ""
  {
    WordFirst(w, "");
    NoWords("");
    assert w + "" == w && [w] + [] == [w] && [w][1..] == [];
  }

  lemma NextWord(cur: string, w: string, rest: string)
    requires Plain(cur) && Plain(w) && AllPlain(Words(w + rest)) && Join(Words(w + rest)) == w + rest
    ensures Words(cur + (w + rest)) == [cur] + Words(w + rest) && AllPlain(Words(cur + (w + rest)))
    ensures Join(Words(cur + (w + rest))) == cur + (w + rest)
  {
    hide Words, IsReserved;
    WordFirst(cur, w + rest);
    assert ([cur] + Words(w + rest))[1..] == Words(w + rest);
  }

  /** The words of a column. */
  function ColumnWords(s: string): seq<string> { Words(PascalOf(s)) }

  /** A column is one or more words, none of them a word of the grammar, and they join to its PascalCase name. */
  lemma ColumnWordsPlain(s: string)
    requires IsName(s) && Unreserved(s)
    ensures ColumnWords(s) != [] && AllPlain(ColumnWords(s)) && Join(ColumnWords(s)) == PascalOf(s)
  {
    hide Words, IsReserved, Segments;
    var segs := Segments(s);
    PascalSegments(s);
    SegmentsLower(s);
    SegmentsHead(s);
    SegmentWord(segs[0]);
    SegmentWords(segs[1..], Capital(segs[0]));
  }
}
