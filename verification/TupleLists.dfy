/**
  The list of a relation statement on several key columns: tuples in parentheses, so that the text between the
  placeholders groups the values as they were bound.
 */
module TupleLists {
  import opened Common
  import opened Chunking
  import opened Placeholders
  import L = RelationLoader

  type Tuple = seq<Value>

  /** The values of one tuple with commas between them. */
  function TupleText(t: Tuple): seq<Piece> {
    if t == [] then []
    else if |t| == 1 then [Arg(t[0])]
    else [Arg(t[0])] + (Lits(", ") + TupleText(t[1..]))
  }

  /** The tuples one after the other; a tuple of several values ends with its parenthesis before the next one opens. */
  function TuplesText(ts: seq<Tuple>, width: nat): seq<Piece> {
    if ts == [] then []
    else if |ts| == 1 then TupleText(ts[0])
    else TupleText(ts[0]) + (Lits(if width > 1 then "), (" else ", ") + TuplesText(ts[1..], width))
  }

  lemma PlaceInTuple(r: nat, j: nat, width: nat)
    requires j < width
    ensures (r * width + j) % width == j
  {
    L.DivUnique(r * width + j, r, width, j);
  }

  /** The list from value j of tuple r on, after what separates it. */
  lemma {:induction false} RestOfTuple(ts: seq<Tuple>, width: nat, r: nat, j: nat)
    requires L.Wide(ts, width) && r < |ts| && j < width && r * width + width <= |Concat(ts)|
    ensures BoundList(Concat(ts), width, r * width + j)
              == Lits(Separator(r * width + j, width))
                 + (TupleText(ts[r][j..]) + BoundList(Concat(ts), width, r * width + width))
    decreases width - j
  {
    hide Concat, BoundList, Separator, Lits;
    var vals, m := Concat(ts), r * width + j;
    ValueAt(ts, width, r, j);
    BoundListStep(vals, width, m);
    var sep, rest := Lits(Separator(m, width)), BoundList(vals, width, m + 1);
    var t := ts[r][j..];
    assert t[0] == vals[m];
    Regroup(sep, [Arg(t[0])], rest);
    if j + 1 < width {
      RestOfTuple(ts, width, r, j + 1);
      Inside(r, j + 1, width);
      var tail, end := TupleText(ts[r][j + 1..]), BoundList(vals, width, r * width + width);
      assert t[1..] == ts[r][j + 1..];
      Regroup([Arg(t[0])] + Lits(", "), tail, end);
      Regroup([Arg(t[0])], Lits(", "), tail);
      Regroup([Arg(t[0])], Lits(", "), tail + end);
    } else {
      assert |t| == 1;
    }
  }

  lemma Inside(r: nat, j: nat, width: nat)
    requires 0 < j < width
    ensures Separator(r * width + j, width) == ", "
  {
    PlaceInTuple(r, j, width);
    assert r * width >= 0;
  }

  lemma Between(r: nat, width: nat)
    requires 0 < r && 0 < width
    ensures Separator(r * width, width) == if width > 1 then "), (" else ", "
  {
    PlaceInTuple(r, 0, width);
    L.Multiples(1, r, width);
  }

  lemma ValueAt(ts: seq<Tuple>, width: nat, r: nat, j: nat)
    requires L.Wide(ts, width) && r < |ts| && j < width
    ensures r * width + j < |Concat(ts)| && Concat(ts)[r * width + j] == ts[r][j]
  {
    hide Concat;
    L.ConcatSlice(ts, width, r, r + 1);
    L.Multiples(r, r + 1, width);
    assert ts[r..r + 1] == [ts[r]];
    OneConcat(ts[r]);
    assert Concat(ts)[r * width..(r + 1) * width][j] == Concat(ts)[r * width + j];
  }

  lemma OneConcat(t: Tuple)
    ensures Concat([t]) == t
  {
    assert [t][1..] == [];
  }

  lemma {:induction false} RestOfTuples(ts: seq<Tuple>, width: nat, r: nat)
    requires L.Wide(ts, width) && r < |ts| && width > 0
    ensures BoundList(Concat(ts), width, r * width)
              == Lits(Separator(r * width, width)) + TuplesText(ts[r..], width)
    decreases |ts| - r
  {
    hide Concat, BoundList, Separator, Lits, TupleText;
    L.ConcatLength(ts, width);
    L.Multiples(r + 1, |ts|, width);
    assert (r + 1) * width == r * width + width;
    RestOfTuple(ts, width, r, 0);
    assert ts[r][0..] == ts[r];
    var vals, us := Concat(ts), ts[r..];
    assert us[0] == ts[r];
    if r + 1 < |ts| {
      RestOfTuples(ts, width, r + 1);
      Between(r + 1, width);
      assert us[1..] == ts[r + 1..];
    } else {
      BoundListEnd(vals, width);
      assert TupleText(ts[r]) + [] == TupleText(ts[r]);
    }
  }

  /** The bound list is the tuples, each with all its values and in order. */
  lemma ListIsTuples(ts: seq<Tuple>, width: nat)
    requires L.Wide(ts, width) && ts != [] && width > 0
    ensures BoundList(Concat(ts), width, 0) == TuplesText(ts, width)
  {
    hide Concat, BoundList, TuplesText;
    RestOfTuples(ts, width, 0);
    assert ts[0..] == ts && 0 * width == 0;
    assert Lits(Separator(0, width)) == [];
  }

  /** The list of a chunk is its padded tuples. */
  lemma ChunkListIsTuples(ts: seq<Tuple>, width: nat)
    requires L.Wide(ts, width) && ts != [] && width > 0
    ensures BoundList(Concat(Padded(ts)), width, 0) == TuplesText(Padded(ts), width)
  {
    hide Concat, BoundList, TuplesText;
    ListIsTuples(Padded(ts), width);
  }
}
