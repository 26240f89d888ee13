/** Names that are printed alike: a full-text search and a boolean one, and two columns with one PascalCase name. */
module ChainClashes {
  import opened Common
  import opened Numerals
  import opened Names
  import opened ChainNames
  import opened ChainReadBack
  import ChainParser

  // ------------------------------------------------------------------------------------- boolean searches

  function BooleanName(c: string): string { "boolean_" + c }

  lemma BooleanWords(c: string)
    requires IsName(c)
    ensures ColumnWords(BooleanName(c)) == ["Boolean"] + ColumnWords(c)
  {
    hide Words;
    PascalBoolean(c);
    WordFirst("Boolean", PascalOf(c));
  }

  lemma PascalBoolean(c: string)
    requires IsName(c)
    ensures PascalOf(BooleanName(c)) == "Boolean" + PascalOf(c) && PascalOf(c) != "" && IsUpper(PascalOf(c)[0])
  {
    hide PascalFrom;
    PascalStart(c);
    var tail := "_" + c;
    PascalStep('b', "oolean" + tail, true);
    PascalPlain("oolean", tail);
    PascalStep('_', c, false);
    assert ['b'] + ("oolean" + tail) == BooleanName(c);
    assert ['_'] + c == tail;
    assert ['B'] + ("oolean" + PascalOf(c)) == "Boolean" + PascalOf(c);
  }

  lemma PascalStart(c: string)
    requires IsName(c)
    ensures PascalOf(c) != "" && IsUpper(PascalOf(c)[0])
  {
  }

  lemma {:induction false} PascalPlain(a: string, rest: string)
    requires '_' !in a
    ensures PascalFrom(a + rest, false) == a + PascalFrom(rest, false)
    decreases |a|
  {
    if a == "" {
      assert a + rest == rest;
    } else {
      assert (a + rest)[1..] == a[1..] + rest;
      PascalPlain(a[1..], rest);
      assert a == [a[0]] + a[1..];
    }
  }

  /** A full-text search on boolean_c has the name of a boolean search on c, and is read as that. */
  lemma BooleanMisread(s: Schema, c: string)
    requires Accepted(s) && c in s.columns && BooleanName(c) in s.columns
    requires s.rules.fulltext(c) && s.rules.fulltext(BooleanName(c))
    ensures var search := ChainKey("fulltext", "", [BooleanName(c)], "");
            var boolean := ChainKey("fulltext_boolean", "", [c], "");
            && Allowed(s, search) && Allowed(s, boolean) && !Clear(search)
            && KeyWords(search) == KeyWords(boolean)
            && ParseChain(s, Join(KeyWords(search))) == Some([Linked("", boolean)])
  {
    hide ColumnWords, Words, ParseChain, Join, PascalOf, Unreserved, BooleanName;
    BooleanWords(c);
    var search := ChainKey("fulltext", "", [BooleanName(c)], "");
    var boolean := ChainKey("fulltext_boolean", "", [c], "");
    assert KeyWords(search) == ["Fulltext"] + (["Boolean"] + ColumnWords(c));
    assert KeyWords(boolean) == ["Fulltext", "Boolean"] + ColumnWords(c);
    ChainReadsBack(s, [Linked("", boolean)]);
  }

  const RULES := Rules((c: string, o: string) => true, (c: string, o: string) => true, (c: string) => true,
    (c: string) => true)

  const FLAGS := Schema(["flag", "boolean_flag"], ["flag", "boolean_flag"], RULES)

  /** The rules of the generator besides that on segments. */
  predicate Unlisted(n: string) {
    n !in ChainParser.COLUMNS && !ChainParser.Doubled(n) && !ChainParser.ReservedPrefix(n)
  }

  /** No prefix of the rules has these first two characters. */
  predicate Start(a: char, b: char) {
    (a == 'a' && (b == '_' || b == '1')) || (a == 'b' && b == 'o') || (a == 'f' && b == 'l')
  }

  lemma NoPrefix(n: string)
    requires |n| >= 2 && Start(n[0], n[1])
    ensures !ChainParser.ReservedPrefix(n)
  {
    hide Start;
    forall p | p in ChainParser.PREFIXES ensures n != p && !(p + "_" <= n) {
      PrefixStart(p);
      if p + "_" <= n { SameStart(p, n); }
    }
  }

  lemma SameStart(p: string, n: string)
    requires |p| >= 2 && p + "_" <= n
    ensures |n| >= 2 && n[0] == p[0] && n[1] == p[1]
  {
    assert (p + "_")[0] == p[0] && (p + "_")[1] == p[1];
  }

  lemma PrefixStart(p: string)
    requires p in ChainParser.PREFIXES
    ensures |p| >= 2 && !Start(p[0], p[1])
  {
  }

  lemma FlagsPass()
    ensures Unlisted("flag") && Unlisted("boolean_flag")
  {
    hide ChainParser.ReservedPrefix, ChainParser.Doubled;
    NoPrefix("flag");
    NoPrefix("boolean_flag");
    FlagsPlain();
  }

  lemma FlagsPlain()
    ensures !ChainParser.Doubled("flag") && !ChainParser.Doubled("boolean_flag")
  {
    hide ChainParser.Doubled;
    OneUnderscore("flag");
    NotDoubled("boolean", "_" + "flag");
    assert "boolean" + ("_" + "flag") == "boolean_flag";
  }

  lemma OneUnderscore(b: string)
    requires '_' !in b
    ensures !ChainParser.Doubled(b) && !ChainParser.Doubled("_" + b)
  {
    NotDoubled(b, "");
    assert b + "" == b && ("_" + b)[1..] == b;
  }

  lemma {:induction false} NotDoubled(a: string, b: string)
    requires '_' !in a && !ChainParser.Doubled(b)
    ensures !ChainParser.Doubled(a + b)
    decreases |a|
  {
    if a == "" {
      assert a + b == b;
    } else {
      assert (a + b)[1..] == a[1..] + b;
      NotDoubled(a[1..], b);
    }
  }

  lemma FlagsAccepted()
    ensures Accepted(FLAGS)
  {
    hide Segments, ReservedSegment, PascalFrom, IsName;
    PlainName("flag");
    BooleanFlag();
    PascalBoolean("flag");
    assert |PascalOf("boolean_flag")| == 7 + |PascalOf("flag")|;
  }

  lemma PlainName(s: string)
    requires s == "flag"
    ensures IsName(s) && Unreserved(s)
  {
    PlainSegment(s);
  }

  lemma BooleanFlag()
    ensures IsName("boolean_flag") && Unreserved("boolean_flag") && BooleanName("flag") == "boolean_flag"
  {
    hide Segments, ReservedSegment;
    TwoSegments("boolean", "flag");
    assert "boolean" + "_" + "flag" == "boolean_flag";
    NotReserved();
  }

  lemma NotReserved()
    ensures !ReservedSegment("boolean") && !ReservedSegment("flag")
  {
  }

  lemma {:induction false} PlainSegment(s: string)
    requires '_' !in s
    ensures Segments(s) == [s]
    decreases |s|
  {
    if s != "" {
      PlainSegment(s[1..]);
      assert s == [s[0]] + s[1..];
      assert [s[1..]][1..] == [];
    }
  }

  lemma {:induction false} TwoSegments(a: string, b: string)
    requires '_' !in a && '_' !in b
    ensures Segments(a + "_" + b) == [a, b]
    decreases |a|
  {
    var s := a + "_" + b;
    if a == "" {
      assert s[1..] == b;
      PlainSegment(b);
    } else {
      assert s[1..] == a[1..] + "_" + b;
      TwoSegments(a[1..], b);
      assert a == [a[0]] + a[1..] && [a[1..], b][1..] == [b];
    }
  }

  /** An accepted schema on which an allowed key is read as another one. */
  lemma FulltextReadsAsBoolean()
    ensures var search := ChainKey("fulltext", "", ["boolean_flag"], "");
            && ChainParser.Passes("flag") && ChainParser.Passes("boolean_flag")
            && Accepted(FLAGS) && Allowed(FLAGS, search)
            && ParseChain(FLAGS, Join(KeyWords(search))) ==
              Some([Linked("", ChainKey("fulltext_boolean", "", ["flag"], ""))])
  {
    hide Accepted, KeyWords, ParseChain, Join, Unreserved, ChainParser.Doubled, ChainParser.ReservedPrefix;
    FlagsAccepted();
    FlagsPass();
    PlainName("flag");
    BooleanFlag();
    BooleanMisread(FLAGS, "flag");
  }

  // ---------------------------------------------------------------------------------- columns with one PascalCase name

  /** A name without the underscores that no letter follows. */
  function Squeezed(s: string): string {
    if s == "" then ""
    else if s[0] == '_' && (|s| == 1 || !IsLetter(s[1])) then Squeezed(s[1..])
    else [s[0]] + Squeezed(s[1..])
  }

  predicate NameChars(s: string) {
    forall i :: 0 <= i < |s| ==> IsLetter(s[i]) || IsDigit(s[i]) || s[i] == '_'
  }

  /** Each upper-case letter of a PascalCase name starts a segment. */
  function Snake(p: string): string {
    if p == "" then ""
    else (if IsUpper(p[0]) then ['_', (p[0] as int + 32) as char] else [p[0]]) + Snake(p[1..])
  }

  lemma SnakeStep(c: char, p: string)
    ensures Snake([c] + p) == (if IsUpper(c) then ['_', (c as int + 32) as char] else [c]) + Snake(p)
  {
    assert ([c] + p)[1..] == p;
  }

  lemma SqueezedStep(c: char, s: string)
    ensures c != '_' ==> Squeezed([c] + s) == [c] + Squeezed(s)
    ensures Squeezed(['_'] + s) == if s == "" || !IsLetter(s[0]) then Squeezed(s) else ['_'] + Squeezed(s)
  {
    assert ([c] + s)[1..] == s && (['_'] + s)[1..] == s;
  }

  lemma {:induction false} SnakeOfPascal(s: string)
    requires NameChars(s)
    ensures Snake(PascalFrom(s, false)) == Squeezed(s)
    ensures Snake(PascalFrom(s, true)) == Squeezed(['_'] + s)
    decreases |s|
  {
    hide Snake, Squeezed;
    if s == "" {
      SqueezedStep('_', "");
      SnakeNothing();
    } else {
      var rest := s[1..];
      SnakeOfPascal(rest);
      assert s == [s[0]] + rest;
      SqueezedStep(s[0], rest);
      SqueezedStep('_', s);
      SnakeStep(s[0], PascalFrom(rest, false));
      SnakeStep(ToUpper(s[0]), PascalFrom(rest, false));
    }
  }

  lemma SnakeNothing()
    ensures Snake("") == "" && Squeezed("") == ""
  {
  }

  lemma {:induction false} PascalOfSqueezed(s: string)
    requires NameChars(s)
    ensures PascalFrom(Squeezed(s), false) == PascalFrom(s, false)
    ensures PascalFrom(Squeezed(['_'] + s), false) == PascalFrom(s, true)
    decreases |s|
  {
    hide Squeezed;
    if s == "" {
      SqueezedStep('_', "");
      SnakeNothing();
    } else {
      var rest := s[1..];
      PascalOfSqueezed(rest);
      assert s == [s[0]] + rest;
      SqueezedStep(s[0], rest);
      SqueezedStep('_', s);
      PascalStep(s[0], Squeezed(rest), false);
      PascalStep(s[0], Squeezed(rest), true);
      PascalStep('_', Squeezed(s), false);
    }
  }

  lemma PascalStep(c: char, s: string, up: bool)
    ensures PascalFrom([c] + s, up) ==
              if c == '_' then PascalFrom(s, true) else [if up then ToUpper(c) else c] + PascalFrom(s, false)
  {
    assert ([c] + s)[1..] == s;
  }

  /** Two names share a PascalCase name exactly when they differ only in underscores that no letter follows. */
  lemma SharedExactly(c: string, d: string)
    requires IsName(c) && IsName(d)
    ensures PascalOf(c) == PascalOf(d) <==> Squeezed(c) == Squeezed(d)
  {
    hide PascalFrom, Squeezed, Snake;
    SnakeOfPascal(c);
    SnakeOfPascal(d);
    PascalOfSqueezed(c);
    PascalOfSqueezed(d);
    SqueezedStep('_', c);
    SqueezedStep('_', d);
    if PascalOf(c) == PascalOf(d) {
      assert Squeezed(c) == (['_'] + Squeezed(c))[1..] && Squeezed(d) == (['_'] + Squeezed(d))[1..];
    }
  }

  /**
    The columns of a schema have PascalCase names of their own exactly when no two are alike without those underscores.
   */
  lemma AcceptedExactly(s: Schema)
    requires (forall c :: c in s.all ==> IsName(c) && Unreserved(c)) && forall c :: c in s.columns ==> c in s.all
    ensures Accepted(s) <==> forall c, d :: c in s.all && d in s.all && Squeezed(c) == Squeezed(d) ==> c == d
  {
    hide PascalOf, Squeezed, Unreserved, IsName;
    forall c, d | c in s.all && d in s.all ensures PascalOf(c) == PascalOf(d) <==> Squeezed(c) == Squeezed(d) {
      SharedExactly(c, d);
    }
  }

  const TWINS := Schema(["a_1", "a1"], ["a_1", "a1"], RULES)

  lemma TwinsPass()
    ensures Unlisted("a_1") && Unlisted("a1")
  {
    hide ChainParser.ReservedPrefix;
    NoPrefix("a_1");
    NoPrefix("a1");
  }

  /** Two names that pass every check of the generator, of which the first cannot be reached. */
  lemma TwinColumns()
    ensures IsName("a_1") && ChainParser.Passes("a_1") && IsName("a1") && ChainParser.Passes("a1") && !Accepted(TWINS)
    ensures Find(TWINS.columns, PascalOf("a_1")) == Some("a1")
  {
    hide ChainParser.Doubled, ChainParser.ReservedPrefix;
    TwoSegments("a", "1");
    assert "a" + "_" + "1" == "a_1";
    PlainSegment("a1");
    assert "a_1"[1..] == "_1" && "_1"[1..] == "1" && "1"[1..] == "" && "a1"[1..] == "1";
    assert PascalFrom("1", true) == "1" && PascalFrom("1", false) == "1";
    assert PascalFrom("_1", false) == "1";
    assert PascalOf("a_1") == "A1" && PascalOf("a1") == "A1";
    TwinsPass();
    assert "a_1" in TWINS.all && "a1" in TWINS.all && |"a_1"| != |"a1"|;
  }
}
