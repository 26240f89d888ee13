/**
  Loading the rows of a relation.  The parents' keys are collected once each, split into chunks that stay within the
  driver's bind limit, padded to a power of two, and the rows that come back are found again through an index by key.
 */
module Relations {
  import opened Common
  import opened Keys
  import opened Chunking

  type Row = seq<Value>
  type Tuple = seq<Value>

  /** Whether a parent takes part in the relation; None is a failed comparison. */
  type Gate = Row -> Option<bool>

  /** How the database compares the key columns of a child row with a bound tuple. */
  type Match = (Row, Tuple) -> bool

  datatype Error = Internal | IrInvalid | Codec

  datatype Result<+T> = Ok(value: T) | Err(error: Error)

  // ------------------------------------------------------------------------------------- keys of the parents

  /** The key of a parent; a parent outside the gate has none. */
  function ParentKey(row: Row, refs: seq<int>, gate: Gate): Outcome<Key> {
    match gate(row)
    case None => Failed
    case Some(false) => Absent
    case Some(true) => KeyOfRow(row, refs)
  }

  function TupleOf(row: Row, refs: seq<int>): (r: Tuple)
    requires KeyOfRow(row, refs).Got?
    ensures |r| == |refs| && KeyOfValues(r) == KeyOfRow(row, refs)
  {
    Scan(row, refs).value
  }

  /** The tuples of the parents whose keys are not in `seen`, one for each key. */
  function Tuples(parents: seq<Row>, refs: seq<int>, gate: Gate, seen: set<Key>): Option<seq<Tuple>> {
    if parents == [] then Some([])
    else match ParentKey(parents[0], refs, gate)
      case Failed => None
      case Absent => Tuples(parents[1..], refs, gate, seen)
      case Got(k) =>
        if k in seen then Tuples(parents[1..], refs, gate, seen)
        else match Tuples(parents[1..], refs, gate, seen + {k})
          case None => None
          case Some(ts) => Some([TupleOf(parents[0], refs)] + ts)
  }

  /** Tuples of one width with keys that are all different. */
  ghost predicate Keyed(ts: seq<Tuple>, width: nat) {
    && (forall i :: 0 <= i < |ts| ==> |ts[i]| == width && KeyOfValues(ts[i]).Got?)
    && (forall i, j :: 0 <= i < j < |ts| ==> KeyOfValues(ts[i]) != KeyOfValues(ts[j]))
  }

  ghost predicate HasKey(ts: seq<Tuple>, k: Key) {
    exists i :: 0 <= i < |ts| && KeyOfValues(ts[i]) == Got(k)
  }

  /** The tuples have different keys, none of them seen, and cover every parent. */
  lemma {:induction false} TuplesCover(parents: seq<Row>, refs: seq<int>, gate: Gate, seen: set<Key>, ts: seq<Tuple>)
    requires Tuples(parents, refs, gate, seen) == Some(ts)
    ensures Keyed(ts, |refs|)
    ensures forall k :: k in seen ==> !HasKey(ts, k)
    ensures forall i :: 0 <= i < |parents| ==> !ParentKey(parents[i], refs, gate).Failed?
    ensures forall i :: 0 <= i < |parents| && ParentKey(parents[i], refs, gate).Got? ==>
              ParentKey(parents[i], refs, gate).value in seen || HasKey(ts, ParentKey(parents[i], refs, gate).value)
    decreases |parents|
  {
    hide KeyOfRow, KeyOfValues, ParentKey;
    if parents != [] {
      var p := ParentKey(parents[0], refs, gate);
      if p.Got? && p.value !in seen {
        GateOpen(parents[0], refs, gate);
        var t := TupleOf(parents[0], refs);
        var rest := ts[1..];
        assert ts == [t] + rest;
        TuplesCover(parents[1..], refs, gate, seen + {p.value}, rest);
        FirstTuple(t, rest, p.value, |refs|);
      } else {
        TuplesCover(parents[1..], refs, gate, seen, ts);
      }
      forall i | 0 <= i < |parents| ensures parents[i] == if i == 0 then parents[0] else parents[1..][i - 1] {}
    }
  }

  /** The key of a child row can be read, or a component is null. */
  predicate Readable(row: Row, refs: seq<int>) { NullCell(row, refs) || KeyedRow(row, refs) }

  /** A parent that takes no part in the relation, or takes part with a null component or with a key. */
  predicate Reads(row: Row, refs: seq<int>, gate: Gate) {
    gate(row).Some? && (gate(row).value ==> Readable(row, refs))
  }

  /** The keys of all parents can be read. */
  predicate AllRead(parents: seq<Row>, refs: seq<int>, gate: Gate) {
    forall i :: 0 <= i < |parents| ==> Reads(parents[i], refs, gate)
  }

  predicate Readables(table: seq<Row>, refs: seq<int>) {
    forall j :: 0 <= j < |table| ==> Readable(table[j], refs)
  }

  /** The tuples find a row whose key cannot be read. */
  predicate Spoils(table: seq<Row>, ts: seq<Tuple>, eq: Match, refs: seq<int>) {
    exists j :: 0 <= j < |table| && Hit(table[j], ts, eq) && !Readable(table[j], refs)
  }

  lemma ReadsExactly(row: Row, refs: seq<int>, gate: Gate)
    ensures ParentKey(row, refs, gate).Failed? <==> !Reads(row, refs, gate)
    ensures ParentKey(row, refs, gate).Absent? <==>
              gate(row).Some? && (gate(row).value ==> NullCell(row, refs))
  {
    hide KeyOfRow, NullCell, KeyedRow;
    KeyOfRowExactly(row, refs);
  }

  /** There are tuples exactly when the key of every parent can be read. */
  lemma {:induction false} TuplesExactly(parents: seq<Row>, refs: seq<int>, gate: Gate, seen: set<Key>)
    ensures Tuples(parents, refs, gate, seen).Some? <==> AllRead(parents, refs, gate)
    decreases |parents|
  {
    hide KeyOfRow, ParentKey, Reads;
    if parents != [] {
      var p, rest := ParentKey(parents[0], refs, gate), parents[1..];
      ReadsExactly(parents[0], refs, gate);
      TuplesExactly(rest, refs, gate, if p.Got? then seen + {p.value} else seen);
      TuplesExactly(rest, refs, gate, seen);
      assert forall i :: 1 <= i < |parents| ==> parents[i] == rest[i - 1];
      assert forall i :: 0 <= i < |rest| ==> rest[i] == parents[i + 1];
    }
  }

  lemma GateOpen(row: Row, refs: seq<int>, gate: Gate)
    requires ParentKey(row, refs, gate).Got?
    ensures KeyOfRow(row, refs) == ParentKey(row, refs, gate)
  {
  }

  lemma FirstTuple(t: Tuple, rest: seq<Tuple>, k: Key, width: nat)
    requires |t| == width && KeyOfValues(t) == Got(k) && Keyed(rest, width) && !HasKey(rest, k)
    ensures Keyed([t] + rest, width)
    ensures forall l :: HasKey([t] + rest, l) <==> l == k || HasKey(rest, l)
  {
    hide KeyOfValues;
    var ts := [t] + rest;
    assert forall i :: 1 <= i < |ts| ==> ts[i] == rest[i - 1];
    assert ts[0] == t;
    forall l ensures HasKey(ts, l) <==> l == k || HasKey(rest, l) {
      if HasKey(rest, l) {
        var i :| 0 <= i < |rest| && KeyOfValues(rest[i]) == Got(l);
        assert ts[i + 1] == rest[i];
      }
    }
  }

  // ------------------------------------------------------------------------------------- the rows of a key

  /** The rows with key k, in order. */
  function Rows(data: seq<Row>, refs: seq<int>, k: Key): seq<Row> {
    if data == [] then []
    else if KeyOfRow(data[0], refs) == Got(k) then [data[0]] + Rows(data[1..], refs, k)
    else Rows(data[1..], refs, k)
  }

  lemma {:induction false} RowsConcat(a: seq<Row>, b: seq<Row>, refs: seq<int>, k: Key)
    ensures Rows(a + b, refs, k) == Rows(a, refs, k) + Rows(b, refs, k)
    decreases |a|
  {
    hide KeyOfRow;
    if a == [] {
      assert a + b == b;
    } else {
      assert (a + b)[0] == a[0] && (a + b)[1..] == a[1..] + b;
      RowsConcat(a[1..], b, refs, k);
    }
  }

  /** Whether the database finds the row with one of the tuples. */
  predicate Hit(row: Row, ts: seq<Tuple>, eq: Match) {
    exists t :: t in ts && eq(row, t)
  }

  /** The rows that a statement with the given tuples returns, in the order of the table. */
  function Select(table: seq<Row>, ts: seq<Tuple>, eq: Match): seq<Row> {
    if table == [] then []
    else if Hit(table[0], ts, eq) then [table[0]] + Select(table[1..], ts, eq)
    else Select(table[1..], ts, eq)
  }

  /** Padding a chunk does not change its rows. */
  lemma {:induction false} SelectPadded(table: seq<Row>, ts: seq<Tuple>, eq: Match)
    requires ts != []
    ensures Select(table, Padded(ts), eq) == Select(table, ts, eq)
    decreases |table|
  {
    if table != [] {
      forall t ensures t in Padded(ts) <==> t in ts { PaddedHolds(ts, t); }
      SelectPadded(table[1..], ts, eq);
    }
  }

  /** The rows of all chunks, chunk after chunk. */
  function Loaded(table: seq<Row>, chunks: seq<seq<Tuple>>, eq: Match): seq<Row> {
    if chunks == [] then [] else Select(table, chunks[0], eq) + Loaded(table, chunks[1..], eq)
  }

  /** The database finds every row whose key equals a bound tuple. */
  ghost predicate Complete(table: seq<Row>, refs: seq<int>, eq: Match) {
    forall row, t {:trigger eq(row, t)} ::
      row in table && KeyOfValues(t).Got? && KeyOfRow(row, refs) == KeyOfValues(t) ==> eq(row, t)
  }

  /** No row with key k is found with the tuples. */
  ghost predicate Misses(table: seq<Row>, refs: seq<int>, k: Key, ts: seq<Tuple>, eq: Match) {
    forall row :: row in table && KeyOfRow(row, refs) == Got(k) ==> !Hit(row, ts, eq)
  }

  /** The chunk that holds the key returns all its rows. */
  lemma {:induction false} HomeChunk(table: seq<Row>, refs: seq<int>, k: Key, ts: seq<Tuple>, eq: Match)
    requires Complete(table, refs, eq) && HasKey(ts, k)
    ensures Rows(Select(table, ts, eq), refs, k) == Rows(table, refs, k)
    decreases |table|
  {
    hide KeyOfRow, KeyOfValues;
    if table != [] {
      HomeChunk(table[1..], refs, k, ts, eq);
      if KeyOfRow(table[0], refs) == Got(k) {
        var i :| 0 <= i < |ts| && KeyOfValues(ts[i]) == Got(k);
        assert ts[i] in ts && eq(table[0], ts[i]);
      }
      if Hit(table[0], ts, eq) {
        RowsConcat([table[0]], Select(table[1..], ts, eq), refs, k);
      }
    }
  }

  /** Another chunk returns none of them exactly when it misses them. */
  lemma {:induction false} OtherChunk(table: seq<Row>, refs: seq<int>, k: Key, ts: seq<Tuple>, eq: Match)
    ensures Rows(Select(table, ts, eq), refs, k) == [] <==> Misses(table, refs, k, ts, eq)
    decreases |table|
  {
    hide KeyOfRow;
    if table != [] {
      OtherChunk(table[1..], refs, k, ts, eq);
      assert table == [table[0]] + table[1..];
      if Hit(table[0], ts, eq) {
        RowsConcat([table[0]], Select(table[1..], ts, eq), refs, k);
      }
    }
  }

  /** No row of the key comes back exactly when every chunk misses the key. */
  lemma {:induction false} NoChunk(table: seq<Row>, chunks: seq<seq<Tuple>>, refs: seq<int>, k: Key, eq: Match)
    ensures Rows(Loaded(table, chunks, eq), refs, k) == [] <==>
              forall c :: 0 <= c < |chunks| ==> Misses(table, refs, k, chunks[c], eq)
    decreases |chunks|
  {
    hide KeyOfRow, Misses, Select;
    if chunks != [] {
      var rest := chunks[1..];
      NoChunk(table, rest, refs, k, eq);
      OtherChunk(table, refs, k, chunks[0], eq);
      RowsConcat(Select(table, chunks[0], eq), Loaded(table, rest, eq), refs, k);
      assert forall c :: 0 <= c < |rest| ==> rest[c] == chunks[c + 1];
      assert forall c :: 1 <= c < |chunks| ==> chunks[c] == rest[c - 1];
    }
  }

  /**
    The rows loaded for a key are the rows of the table with that key, in order and once each, exactly when the database
    finds none of them with the tuples of another chunk.
   */
  lemma {:induction false} LoadedExact(
    table: seq<Row>, chunks: seq<seq<Tuple>>, refs: seq<int>, k: Key, home: nat, eq: Match)
    requires Complete(table, refs, eq) && home < |chunks| && HasKey(chunks[home], k)
    ensures |Rows(Loaded(table, chunks, eq), refs, k)| >= |Rows(table, refs, k)|
    ensures Rows(Loaded(table, chunks, eq), refs, k) == Rows(table, refs, k) <==>
              forall c :: 0 <= c < |chunks| && c != home ==> Misses(table, refs, k, chunks[c], eq)
    decreases |chunks|
  {
    hide KeyOfRow, KeyOfValues, Misses, Select, HasKey, Complete;
    var rest := chunks[1..];
    var first, more := Rows(Select(table, chunks[0], eq), refs, k), Rows(Loaded(table, rest, eq), refs, k);
    var all := Rows(table, refs, k);
    RowsConcat(Select(table, chunks[0], eq), Loaded(table, rest, eq), refs, k);
    assert forall c :: 0 <= c < |rest| ==> rest[c] == chunks[c + 1];
    assert forall c :: 1 <= c < |chunks| ==> chunks[c] == rest[c - 1];
    if home == 0 {
      HomeChunk(table, refs, k, chunks[0], eq);
      NoChunk(table, rest, refs, k, eq);
      assert first + more == all <==> more == [];
    } else {
      LoadedExact(table, rest, refs, k, home - 1, eq);
      OtherChunk(table, refs, k, chunks[0], eq);
      assert first + more == all <==> first == [] && more == all;
    }
  }

  /** A row is loaded exactly when the table holds it and one of the tuples finds it. */
  lemma {:induction false} LoadedRow(table: seq<Row>, chunks: seq<seq<Tuple>>, eq: Match, row: Row)
    ensures row in Loaded(table, chunks, eq) <==> row in table && Hit(row, Concat(chunks), eq)
    decreases |chunks|
  {
    hide Hit;
    if chunks == [] {
      NoTuple(row, eq);
    } else {
      SelectedRow(table, chunks[0], eq, row);
      LoadedRow(table, chunks[1..], eq, row);
      HitConcat(row, chunks[0], Concat(chunks[1..]), eq);
    }
  }

  lemma NoTuple(row: Row, eq: Match)
    ensures !Hit(row, [], eq)
  {
  }

  lemma HitConcat(row: Row, a: seq<Tuple>, b: seq<Tuple>, eq: Match)
    ensures Hit(row, a + b, eq) <==> Hit(row, a, eq) || Hit(row, b, eq)
  {
    assert forall t :: t in a + b <==> t in a || t in b;
  }

  lemma {:induction false} SelectedRow(table: seq<Row>, ts: seq<Tuple>, eq: Match, row: Row)
    ensures row in Select(table, ts, eq) <==> row in table && Hit(row, ts, eq)
    decreases |table|
  {
    hide Hit;
    if table != [] {
      SelectedRow(table[1..], ts, eq, row);
      assert table == [table[0]] + table[1..];
    }
  }

  // ------------------------------------------------------------------------------------- the nested loop

  /** The database compares the key columns as the client compares keys. */
  ghost predicate Faithful(table: seq<Row>, refs: seq<int>, eq: Match) {
    forall row, t {:trigger eq(row, t)} ::
      row in table && KeyOfValues(t).Got? ==> (eq(row, t) <==> KeyOfRow(row, refs) == KeyOfValues(t))
  }

  /** The cells hold these values; a null cell holds none. */
  predicate Holds(row: Row, refs: seq<int>, t: Tuple) {
    Scan(row, refs).Got? && AllAlike(Scan(row, refs).value, t)
  }

  /** What the schema rules give every key column: one binary collation, so that cells are compared by their values. */
  ghost predicate Binary(refs: seq<int>, eq: Match) {
    forall row, t {:trigger eq(row, t)} :: eq(row, t) <==> Holds(row, refs, t)
  }

  /** Under the schema rules the database compares as the client does. */
  lemma BinaryIsFaithful(table: seq<Row>, refs: seq<int>, eq: Match)
    requires Binary(refs, eq)
    ensures Faithful(table, refs, eq)
  {
    hide Scan, KeyOfValues, AllAlike;
    forall row, t | row in table && KeyOfValues(t).Got?
      ensures eq(row, t) <==> KeyOfRow(row, refs) == KeyOfValues(t)
    {
      if Scan(row, refs).Got? {
        var vs := Scan(row, refs).value;
        if AllAlike(vs, t) { AlikeHasKey(vs, t); }
        if KeyOfValues(vs).Got? { KeysAreExact(vs, t); }
        assert |vs| == |refs|;
        SomeValue(t);
        SameWidth(vs, t);
      }
    }
  }

  lemma SomeValue(t: Tuple)
    requires KeyOfValues(t).Got?
    ensures t != []
  {
  }

  lemma SameWidth(a: Tuple, b: Tuple)
    ensures AllAlike(a, b) ==> |a| == |b|
  {
  }

  lemma {:induction false} AlikeHasKey(a: Tuple, b: Tuple)
    requires AllAlike(a, b) && KeyOfValues(b).Got?
    ensures KeyOfValues(a).Got?
  {
    if |a| > 1 { AlikeHasParts(a, b); }
  }

  lemma {:induction false} AlikeHasParts(a: Tuple, b: Tuple)
    requires AllAlike(a, b) && Parts(b).Some?
    ensures Parts(a).Some?
    decreases |a|
  {
    if a != [] {
      assert AllAlike(a[1..], b[1..]);
      assert Alike(a[0], b[0]);
      AlikeHasParts(a[1..], b[1..]);
    }
  }

  lemma {:induction false} Home(chunks: seq<seq<Tuple>>, width: nat, k: Key) returns (h: nat)
    requires Keyed(Concat(chunks), width) && HasKey(Concat(chunks), k)
    ensures h < |chunks| && HasKey(chunks[h], k)
    ensures forall c :: 0 <= c < |chunks| && c != h ==> !HasKey(chunks[c], k)
    decreases |chunks|
  {
    hide KeyOfValues;
    var rest := chunks[1..];
    var a, b := chunks[0], Concat(rest);
    KeyedSplit(a, b, width, k);
    assert forall c :: 1 <= c < |chunks| ==> chunks[c] == rest[c - 1];
    if HasKey(a, k) {
      h := 0;
      NoneOf(rest, k);
    } else {
      var g := Home(rest, width, k);
      h := g + 1;
    }
  }

  lemma KeyedSplit(a: seq<Tuple>, b: seq<Tuple>, width: nat, k: Key)
    requires Keyed(a + b, width)
    ensures Keyed(a, width) && Keyed(b, width)
    ensures HasKey(a + b, k) <==> HasKey(a, k) || HasKey(b, k)
    ensures !(HasKey(a, k) && HasKey(b, k))
  {
    hide KeyOfValues;
    var s := a + b;
    assert forall i :: 0 <= i < |a| ==> a[i] == s[i];
    assert forall i :: 0 <= i < |b| ==> b[i] == s[|a| + i];
    if HasKey(s, k) {
      var i :| 0 <= i < |s| && KeyOfValues(s[i]) == Got(k);
      assert if i < |a| then a[i] == s[i] else b[i - |a|] == s[i];
    }
  }

  lemma {:induction false} NoneOf(chunks: seq<seq<Tuple>>, k: Key)
    requires !HasKey(Concat(chunks), k)
    ensures forall c :: 0 <= c < |chunks| ==> !HasKey(chunks[c], k)
    decreases |chunks|
  {
    hide KeyOfValues;
    if chunks != [] {
      var rest := chunks[1..];
      var a, b := chunks[0], Concat(rest);
      assert forall i :: 0 <= i < |a| ==> a[i] == (a + b)[i];
      assert forall i :: 0 <= i < |b| ==> b[i] == (a + b)[|a| + i];
      NoneOf(rest, k);
      assert forall c :: 1 <= c < |chunks| ==> chunks[c] == rest[c - 1];
    }
  }

  lemma FaithfulMisses(table: seq<Row>, refs: seq<int>, k: Key, ts: seq<Tuple>, eq: Match)
    requires Faithful(table, refs, eq) && !HasKey(ts, k) && forall i :: 0 <= i < |ts| ==> KeyOfValues(ts[i]).Got?
    ensures Misses(table, refs, k, ts, eq)
  {
    hide KeyOfRow, KeyOfValues;
  }

  lemma {:induction false} KeyedChunk(chunks: seq<seq<Tuple>>, width: nat, c: nat)
    requires Keyed(Concat(chunks), width) && c < |chunks|
    ensures Keyed(chunks[c], width)
    decreases |chunks|
  {
    hide KeyOfValues;
    KeyedSplit(chunks[0], Concat(chunks[1..]), width, Key('s', ""));
    if c > 0 { KeyedChunk(chunks[1..], width, c - 1); }
  }

  /** The rows with the key of a tuple are those that a statement with that tuple alone returns. */
  lemma {:induction false} RowsOfTuple(table: seq<Row>, refs: seq<int>, eq: Match, t: Tuple)
    requires Faithful(table, refs, eq) && KeyOfValues(t).Got?
    ensures Rows(table, refs, KeyOfValues(t).value) == Select(table, [t], eq)
    decreases |table|
  {
    hide KeyOfRow, KeyOfValues;
    if table != [] {
      var row, rest := table[0], table[1..];
      assert row in table && forall r :: r in rest ==> r in table;
      RowsOfTuple(rest, refs, eq, t);
      assert Hit(row, [t], eq) <==> eq(row, t) by {
        assert t in [t];
      }
    }
  }

  /** Relation loading refines the nested loop: every parent gets exactly the child rows that have its key, in order. */
  lemma LoadingRefinesNestedLoop(
    parents: seq<Row>, parentRefs: seq<int>, gate: Gate, ts: seq<Tuple>, table: seq<Row>, childRefs: seq<int>,
    eq: Match, size: nat, p: nat)
    requires Tuples(parents, parentRefs, gate, {}) == Some(ts) && size > 0 && Faithful(table, childRefs, eq)
    requires p < |parents| && ParentKey(parents[p], parentRefs, gate).Got?
    ensures var k := ParentKey(parents[p], parentRefs, gate).value;
            Rows(Loaded(table, Chunks(ts, size), eq), childRefs, k) == Rows(table, childRefs, k)
  {
    hide KeyOfRow, KeyOfValues, ParentKey, Misses, Select, Rows, Chunks;
    var k := ParentKey(parents[p], parentRefs, gate).value;
    var chunks := Chunks(ts, size);
    TuplesCover(parents, parentRefs, gate, {}, ts);
    ChunksOf(ts, size);
    var h := Home(chunks, |parentRefs|, k);
    LoadedExact(table, chunks, childRefs, k, h, eq);
    forall c | 0 <= c < |chunks| && c != h ensures Misses(table, childRefs, k, chunks[c], eq) {
      KeyedChunk(chunks, |parentRefs|, c);
      FaithfulMisses(table, childRefs, k, chunks[c], eq);
    }
  }
}
