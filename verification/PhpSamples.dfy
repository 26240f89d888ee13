/** Texts of PHP's serialize format as PHP writes them, and the letters that are refused. */
module PhpSamples {
  import opened Common
  import opened Numerals
  import opened Php

  lemma SmallNumbers()
    ensures Signed(0) == "0" && Signed(7) == "7" && Signed(-3) == "-3" && Numeral(1, 10) == "1" && Numeral(3, 10) == "3"
  {
  }

  lemma SmallKeys()
    ensures IntKey("7") == Some(7) && IntKey("a") == None
  {
    assert "7"[..0] == "";
    assert Amount("", 10) == 0;
    DigitsOf("7");
    assert !AllDigits("a") by { assert !IsDigit("a"[0]); }
  }

  lemma ScalarTexts()
    ensures Ser(Nil, "") == "N;" && Ser(Bool(true), "") == "b:1;" && Ser(Bool(false), "") == "b:0;"
    ensures Ser(Num(-3), "") == "i:-3;" && Ser(Str("x:y"), "") == "s:3:\"x:y\";"
  {
    hide Signed, Numeral;
    SmallNumbers();
    assert ":\"" + ("x:y" + ("\";" + "")) == ":\"x:y\";";
  }

  /** A list is written with the indexes of its items. */
  lemma ListText()
    ensures Ser(List([Nil]), "") == "a:1:{i:0;N;}"
  {
    hide Signed, Numeral;
    SmallNumbers();
    var items: seq<PVal> := [Nil];
    assert items[1..] == [];
    assert SerItems([], 1, "}") == "}";
    assert SerItems(items, 0, "}") == "i:0;N;}";
    assert "}" + "" == "}";
  }

  lemma NamedText()
    ensures Ser(Map([Pair("a", Nil)]), "") == "a:1:{s:1:\"a\";N;}"
  {
    hide Signed, Numeral, IntKey;
    SmallNumbers();
    SmallKeys();
    var a := [Pair("a", Nil)];
    assert a[1..] == [];
    assert SerPairs([], "}") == "}";
    assert SerPairs(a, "}") == "s:1:\"a\";N;}";
    assert "}" + "" == "}";
  }

  /** A key in the form of a number is written as a number. */
  lemma NumberedText()
    ensures Ser(Map([Pair("7", Nil)]), "") == "a:1:{i:7;N;}"
  {
    hide Signed, Numeral, IntKey;
    SmallNumbers();
    SmallKeys();
    var a := [Pair("7", Nil)];
    assert a[1..] == [];
    assert SerPairs([], "}") == "}";
    assert SerPairs(a, "}") == "i:7;N;}";
    assert "}" + "" == "}";
  }

  /** Objects, serializable classes and references are refused as unsupported, whatever follows. */
  lemma ObjectsAreRefused(c: char, rest: string)
    requires c == 'O' || c == 'C' || c == 'r' || c == 'R'
    ensures Unserialize([c] + rest) == Bad(Unsupported)
  {
  }
}
