/** The methods that load a relation, proved against the tuples, chunks and rows of `Relations`. */
module RelationLoader {
  import opened Common
  import opened Keys
  import opened Chunking
  import opened Relations
  import Canonical

  /** The number of bind parameters that one statement may have. */
  function BindLimit(driver: string): int { if driver == "sqlite" then 999 else 65535 }

  /** Every tuple has the given width. */
  predicate Wide(ts: seq<Tuple>, width: nat) {
    forall i :: 0 <= i < |ts| ==> |ts[i]| == width
  }

  lemma {:induction false} ConcatLength(ts: seq<Tuple>, width: nat)
    requires Wide(ts, width)
    ensures |Concat(ts)| == |ts| * width
    decreases |ts|
  {
    if ts != [] {
      ConcatLength(ts[1..], width);
      assert |ts| * width == width + (|ts| - 1) * width;
    }
  }

  lemma {:induction false} ConcatSplit(ts: seq<Tuple>, a: nat)
    requires a <= |ts|
    ensures Concat(ts) == Concat(ts[..a]) + Concat(ts[a..])
    decreases a
  {
    if a > 0 {
      ConcatSplit(ts[1..], a - 1);
      assert ts[..a] == [ts[0]] + ts[1..][..a - 1];
      assert ts[a..] == ts[1..][a - 1..];
      assert Concat(ts[..a]) == ts[0] + Concat(ts[1..][..a - 1]);
    } else {
      assert ts[0..] == ts && ts[..0] == [];
    }
  }

  lemma Middle<T>(x: seq<T>, y: seq<T>, z: seq<T>)
    ensures (x + (y + z))[|x|..|x| + |y|] == y
  {
  }

  lemma Multiples(a: nat, b: nat, width: nat)
    requires a <= b
    ensures a * width <= b * width && a * width + (b - a) * width == b * width
  {
    assert a * width + (b - a) * width == b * width;
  }

  /** The values of tuples a to b are those between the multiples of the width. */
  lemma ConcatSlice(ts: seq<Tuple>, width: nat, a: nat, b: nat)
    requires Wide(ts, width) && a <= b <= |ts|
    ensures a * width <= b * width <= |Concat(ts)| && Concat(ts)[a * width..b * width] == Concat(ts[a..b])
  {
    hide Concat;
    ConcatSplit(ts, a);
    ConcatSplit(ts[a..], b - a);
    assert ts[a..][..b - a] == ts[a..b];
    ConcatLength(ts[..a], width);
    ConcatLength(ts[a..b], width);
    Multiples(a, b, width);
    Middle(Concat(ts[..a]), Concat(ts[a..b]), Concat(ts[a..][b - a..]));
  }

  method ParentValues(parents: seq<Row>, refs: seq<int>, gate: Gate) returns (r: Option<seq<Value>>)
    ensures r.None? <==> Tuples(parents, refs, gate, {}).None?
    ensures r.Some? ==> r.value == Concat(Tuples(parents, refs, gate, {}).value)
  {
    hide KeyOfRow, KeyOfValues;
    var seen: set<Key> := {};
    var out: seq<Value> := [];
    for i := 0 to |parents|
      invariant Tuples(parents, refs, gate, {}).None? <==> Tuples(parents[i..], refs, gate, seen).None?
      invariant Tuples(parents, refs, gate, {}).Some? ==>
                  Concat(Tuples(parents, refs, gate, {}).value) ==
                    out + Concat(Tuples(parents[i..], refs, gate, seen).value)
    {
      assert parents[i..][0] == parents[i] && parents[i..][1..] == parents[i + 1..];
      var row := parents[i];
      var open := gate(row);
      if open.None? { return None; }
      if !open.value { continue; }
      var key := KeyFromRow(row, refs);
      if key.Failed? { return None; }
      if key.Absent? || key.value in seen { continue; }
      seen := seen + {key.value};
      ScanOf(row, refs);
      ghost var rest := Tuples(parents[i + 1..], refs, gate, seen);
      assert rest.Some? ==> ([TupleOf(row, refs)] + rest.value)[1..] == rest.value;
      ghost var t := TupleOf(row, refs);
      label before:
      var cells: seq<Value> := [];
      for n := 0 to |refs|
        invariant |cells| == n && forall m :: 0 <= m < n ==> cells[m] == t[m]
      {
        cells := cells + [row[refs[n]]];
      }
      assert cells == t;
      out := out + cells;
    }
    assert parents[|parents|..] == [] && out + Concat<Value>([]) == out;
    return Some(out);
  }

  lemma ScanOf(row: Row, refs: seq<int>)
    requires KeyOfRow(row, refs).Got?
    ensures |TupleOf(row, refs)| == |refs|
    ensures forall i :: 0 <= i < |refs| ==> 0 <= refs[i] < |row| && TupleOf(row, refs)[i] == row[refs[i]]
  {
  }

  // ------------------------------------------------------------------------------------- chunks

  /** The values of every chunk. */
  function FlatChunks(chunks: seq<seq<Tuple>>): seq<seq<Value>> {
    if chunks == [] then [] else [Concat(chunks[0])] + FlatChunks(chunks[1..])
  }

  /** Bounds one relation statement by the driver's bind limit; `ts` are the tuples whose values are given. */
  method RelationChunks(vals: seq<Value>, width: nat, nonParent: nat, driver: string, ghost ts: seq<Tuple>)
    returns (r: Result<seq<seq<Value>>>, ghost size: nat)
    requires width > 0 && |vals| % width == 0 ==> Wide(ts, width) && vals == Concat(ts)
    ensures r == Err(Internal) <==> width == 0 || |vals| % width != 0
    ensures r == Err(IrInvalid) <==> width > 0 && |vals| % width == 0 && BindLimit(driver) - nonParent < width
    ensures r.Ok? ==>
              Pow2(size) && size * width + nonParent <= BindLimit(driver) && r.value == FlatChunks(Chunks(ts, size))
    ensures r.Ok? ==> 2 * size * width + nonParent > BindLimit(driver)
    ensures r.Err? ==> r.error != Codec
  {
    hide Concat, Pow2, Chunks;
    size := 1;
    if width == 0 || |vals| % width != 0 { return Err(Internal), 1; }
    ConcatLength(ts, width);
    TuplesCount(|vals|, |ts|, width);
    var room := BindLimit(driver) - nonParent;
    if room < width { return Err(IrInvalid), 1; }
    var most := room / width;
    RoomFor(room, width);
    var chunk := LargestPower(most);
    size := chunk;
    Multiples(chunk, most, width);
    NoMoreRoom(room, width, chunk);
    PowerIsPositive(chunk);
    var out := Slices(vals, width, chunk, ts);
    return Ok(out), chunk;
  }

  method Slices(vals: seq<Value>, width: nat, chunk: nat, ghost ts: seq<Tuple>) returns (out: seq<seq<Value>>)
    requires width > 0 && chunk > 0 && Wide(ts, width) && vals == Concat(ts) && |vals| / width == |ts|
    ensures out == FlatChunks(Chunks(ts, chunk))
  {
    hide Concat, Chunks, FlatChunks;
    var tuples := |vals| / width;
    out := [];
    var start := 0;
    assert ts[0..] == ts;
    while start < tuples
      invariant 0 <= start <= tuples
      invariant FlatChunks(Chunks(ts, chunk)) == out + FlatChunks(Chunks(ts[start..], chunk))
    {
      var end := if start + chunk <= tuples then start + chunk else tuples;
      ConcatSlice(ts, width, start, end);
      out := out + [vals[start * width..end * width]];
      NextChunk(ts, start, chunk);
      start := end;
    }
    assert ts[start..] == [];
    NoChunks(chunk);
  }

  lemma TuplesCount(n: nat, m: nat, width: nat)
    requires width > 0 && n == m * width
    ensures n % width == 0 && n / width == m
  {
    assert n == m * width + 0;
    DivUnique(n, m, width, 0);
  }

  lemma DivUnique(n: nat, q: nat, d: nat, r: nat)
    requires d > 0 && n == q * d + r && r < d
    ensures n / d == q && n % d == r
  {
    var x := n / d - q;
    assert n == (n / d) * d + n % d;
    assert x * d == (n / d) * d - q * d;
    assert x >= 1 ==> x * d >= 1 * d;
    assert x <= -1 ==> x * d <= -1 * d;
  }

  lemma RoomFor(room: int, width: nat)
    requires 0 < width <= room
    ensures 1 <= room / width && (room / width) * width <= room
  {
    var q := room / width;
    assert room == q * width + room % width;
    assert q <= 0 ==> q * width <= 0;
  }

  /** More than room / width tuples do not fit. */
  lemma NoMoreRoom(room: int, width: nat, chunk: nat)
    requires 0 < width <= room && room / width < 2 * chunk
    ensures 2 * chunk * width > room
  {
    var q := room / width;
    assert room == q * width + room % width;
    Multiples(q + 1, 2 * chunk, width);
    assert (q + 1) * width == q * width + width;
  }

  lemma PowerIsPositive(n: nat)
    requires Pow2(n)
    ensures n >= 1
  {
  }

  lemma NextChunk(ts: seq<Tuple>, start: nat, size: nat)
    requires size > 0 && start < |ts|
    ensures var end := if start + size <= |ts| then start + size else |ts|;
            FlatChunks(Chunks(ts[start..], size)) == [Concat(ts[start..end])] + FlatChunks(Chunks(ts[end..], size))
  {
    hide Concat;
    var s := ts[start..];
    if |s| <= size {
      assert ts[|ts|..] == [] && ts[start..|ts|] == s;
      var none: seq<seq<Tuple>> := [];
      assert [s][1..] == none;
    } else {
      assert s[..size] == ts[start..start + size] && s[size..] == ts[start + size..];
      var rest := Chunks(s[size..], size);
      assert ([s[..size]] + rest)[1..] == rest;
    }
  }

  lemma NoChunks(size: nat)
    requires size > 0
    ensures FlatChunks(Chunks<Tuple>([], size)) == []
  {
  }

  /** A padded chunk stays within the driver's bind limit. */
  lemma PaddedWithinLimit(ts: seq<Tuple>, size: nat, width: nat, nonParent: nat, driver: string, c: nat)
    requires Pow2(size) && size * width + nonParent <= BindLimit(driver) && c < |Chunks(ts, size)|
    ensures |Chunks(ts, size)[c]| >= 1
    ensures |Padded(Chunks(ts, size)[c])| * width + nonParent <= BindLimit(driver)
  {
    ChunksOf(ts, size);
    var n := |Chunks(ts, size)[c]|;
    BucketWithin(n, size);
    Multiples(Canonical.Bucket(n), size, width);
  }

  // ------------------------------------------------------------------------------------- padding

  /** Pads the values of a chunk: the tuples past the last one repeat it. */
  method PadValues(vals: seq<Value>, width: nat, ghost ts: seq<Tuple>) returns (padded: seq<Value>)
    requires width > 0 && ts != [] && Wide(ts, width) && vals == Concat(ts)
    ensures padded == Concat(Padded(ts))
  {
    hide Concat;
    ConcatLength(ts, width);
    TuplesCount(|vals|, |ts|, width);
    var tuples := |vals| / width;
    var n := SmallestPower(tuples);
    ghost var goal := Padded(ts);
    assert goal[..tuples] == ts;
    padded := vals;
    for i := tuples to n
      invariant padded == Concat(goal[..i])
    {
      ConcatSlice(ts, width, tuples - 1, tuples);
      assert ts[tuples - 1..tuples] == [ts[tuples - 1]];
      padded := padded + vals[(tuples - 1) * width..tuples * width];
      ConcatSplit(goal[..i + 1], i);
      assert goal[..i + 1][..i] == goal[..i] && goal[..i + 1][i..] == [ts[tuples - 1]];
    }
    assert goal[..n] == goal;
  }

  /** The tuples of the values that a statement binds. */
  function TuplesOf(vals: seq<Value>, width: nat): seq<Tuple>
    requires width > 0
  {
    if |vals| < width then [] else [vals[..width]] + TuplesOf(vals[width..], width)
  }

  lemma {:induction false} TuplesOfConcat(ts: seq<Tuple>, width: nat)
    requires width > 0 && Wide(ts, width)
    ensures TuplesOf(Concat(ts), width) == ts
    decreases |ts|
  {
    if ts != [] {
      TuplesOfConcat(ts[1..], width);
      var vals := Concat(ts);
      assert vals[..width] == ts[0] && vals[width..] == Concat(ts[1..]);
    }
  }

  /** The statement of one chunk returns the rows that its tuples hit. */
  method RunChunk(
    table: seq<Row>, vals: seq<Value>, width: nat, eq: Match, ghost ts: seq<Tuple>) returns (rows: seq<Row>)
    requires width > 0 && ts != [] && Wide(ts, width) && vals == Concat(ts)
    ensures rows == Select(table, ts, eq)
  {
    hide Concat, TuplesOf;
    var padded := PadValues(vals, width, ts);
    TuplesOfConcat(Padded(ts), width);
    SelectPadded(table, ts, eq);
    return Select(table, TuplesOf(padded, width), eq);
  }

  // ------------------------------------------------------------------------------------- the index by key

  /** The positions of the rows with key k. */
  function Positions(data: seq<Row>, refs: seq<int>, k: Key): (r: seq<nat>)
    ensures forall i :: 0 <= i < |r| ==> r[i] < |data|
  {
    if data == [] then []
    else
      var n := |data| - 1;
      var before := Positions(data[..n], refs, k);
      if KeyOfRow(data[n], refs) == Got(k) then before + [n] else before
  }

  function At(data: seq<Row>, ps: seq<nat>): (r: seq<Row>)
    requires forall i :: 0 <= i < |ps| ==> ps[i] < |data|
    ensures |r| == |ps|
  {
    seq(|ps|, i requires 0 <= i < |ps| => data[ps[i]])
  }

  /** The rows at the positions of a key are the rows with that key. */
  lemma {:induction false} PositionsAreRows(data: seq<Row>, refs: seq<int>, k: Key)
    ensures At(data, Positions(data, refs, k)) == Rows(data, refs, k)
    decreases |data|
  {
    hide KeyOfRow;
    if data != [] {
      var n := |data| - 1;
      PositionsAreRows(data[..n], refs, k);
      assert data == data[..n] + [data[n]];
      RowsConcat(data[..n], [data[n]], refs, k);
      var before := Positions(data[..n], refs, k);
      assert At(data, before) == At(data[..n], before);
      assert Rows([data[n]], refs, k) == if KeyOfRow(data[n], refs) == Got(k) then [data[n]] else [];
      if KeyOfRow(data[n], refs) == Got(k) {
        assert At(data, before + [n]) == At(data, before) + [data[n]];
      }
    }
  }

  function Lookup(m: map<Key, seq<nat>>, k: Key): seq<nat> { if k in m then m[k] else [] }

  /** The rows of one relation step and their index. */
  class StepRows {
    var data: seq<Row>
    var byKey: map<Key, seq<nat>>

    constructor ()
      ensures data == [] && byKey == map[]
    {
      data, byKey := [], map[];
    }

    /** The index gives the positions of every key. */
    ghost predicate Indexed(refs: seq<int>)
      reads this
    {
      forall k :: Lookup(byKey, k) == Positions(data, refs, k)
    }

    method Index(refs: seq<int>) returns (ok: bool)
      requires byKey == map[]
      modifies this`byKey
      ensures ok ==> Indexed(refs)
      ensures ok <==> Readables(data, refs)
    {
      hide KeyOfRow, NullCell, KeyedRow;
      for j := 0 to |data|
        invariant forall k :: Lookup(byKey, k) == Positions(data[..j], refs, k)
        invariant forall i :: 0 <= i < j ==> Readable(data[i], refs)
      {
        var key := KeyFromRow(data[j], refs);
        if key.Failed? { return false; }
        assert data[..j + 1][..j] == data[..j];
        if key.Got? {
          byKey := byKey[key.value := Lookup(byKey, key.value) + [j]];
        }
      }
      assert data[..|data|] == data;
      return true;
    }

    /** The rows of the relation for one parent. */
    method Related(
      parent: Row, parentRefs: seq<int>, gate: Gate, ghost childRefs: seq<int>) returns (r: Outcome<seq<Row>>)
      requires Indexed(childRefs)
      ensures match ParentKey(parent, parentRefs, gate)
              case Failed => r == Failed
              case Absent => r == Got([])
              case Got(k) => r == Got(Rows(data, childRefs, k))
      ensures gate(parent) == Some(false) || (gate(parent) == Some(true) && NullCell(parent, parentRefs)) ==>
                r == Got([])
      ensures r.Got? <==> Reads(parent, parentRefs, gate)
    {
      hide KeyOfRow, Rows, Positions, NullCell, KeyedRow;
      ReadsExactly(parent, parentRefs, gate);
      var open := gate(parent);
      if open.None? { return Failed; }
      if !open.value { return Got([]); }
      var key := KeyFromRow(parent, parentRefs);
      if key.Failed? { return Failed; }
      if key.Absent? { return Got([]); }
      ghost var k := key.value;
      PositionsAreRows(data, childRefs, k);
      var idxs := Lookup(byKey, key.value);
      var out: seq<Row> := [];
      for i := 0 to |idxs|
        invariant |out| == i && forall n :: 0 <= n < i ==> out[n] == data[idxs[n]]
      {
        out := out + [data[idxs[i]]];
      }
      assert out == At(data, Positions(data, childRefs, k));
      return Got(out);
    }

    /** Loads the step: on success every parent's key indexes exactly the table's rows with that key. */
    method Load(parents: seq<Row>, parentRefs: seq<int>, gate: Gate, table: seq<Row>, childRefs: seq<int>, eq: Match,
                nonParent: nat, driver: string) returns (err: Option<Error>)
      requires data == [] && byKey == map[]
      modifies this
      ensures Tuples(parents, parentRefs, gate, {}).Some? <==> AllRead(parents, parentRefs, gate)
      ensures AllRead(parents, parentRefs, gate) && Readables(table, childRefs)
              && |parentRefs| + nonParent <= BindLimit(driver)
              ==> err.None?
      ensures err == Some(Codec) <==>
                || Tuples(parents, parentRefs, gate, {}).None?
                || (&& |parentRefs| + nonParent <= BindLimit(driver)
                    && Spoils(table, Tuples(parents, parentRefs, gate, {}).value, eq, childRefs))
      ensures err == Some(IrInvalid) <==>
                Tuples(parents, parentRefs, gate, {}).Some? && Tuples(parents, parentRefs, gate, {}).value != []
                                          && BindLimit(driver) - nonParent < |parentRefs|
      ensures err != Some(Internal)
      ensures err.None? ==> Indexed(childRefs)
      ensures err.None? && Faithful(table, childRefs, eq) ==>
                forall p :: 0 <= p < |parents| && ParentKey(parents[p], parentRefs, gate).Got? ==>
                  Rows(data, childRefs, ParentKey(parents[p], parentRefs, gate).value)
                    == Rows(table, childRefs, ParentKey(parents[p], parentRefs, gate).value)
    {
      hide KeyOfRow, ParentKey, Rows, Select, Concat, Chunks, Positions, Faithful, Pow2, Spoils, AllRead, Readables,
           Loaded;
      TuplesExactly(parents, parentRefs, gate, {});
      var vals := ParentValues(parents, parentRefs, gate);
      if vals.None? { return Some(Codec); }
      ghost var ts := Tuples(parents, parentRefs, gate, {}).value;
      TuplesCover(parents, parentRefs, gate, {}, ts);
      TupleValues(ts, |parentRefs|);
      ghost var size := 1;
      if |vals.value| > 0 {
        var chunks;
        chunks, size := RelationChunks(vals.value, |parentRefs|, nonParent, driver, ts);
        if chunks.Err? { return Some(chunks.error); }
        PowerIsPositive(size);
        RunChunks(table, chunks.value, |parentRefs|, eq, Chunks(ts, size), ts, size);
        var ok := Index(childRefs);
        LoadedRead(table, ts, size, eq, childRefs);
        if Readables(table, childRefs) { NothingSpoils(table, ts, eq, childRefs); }
        if !ok { return Some(Codec); }
        if Faithful(table, childRefs, eq) {
          forall p | 0 <= p < |parents| && ParentKey(parents[p], parentRefs, gate).Got?
            ensures var k := ParentKey(parents[p], parentRefs, gate).value;
                    Rows(data, childRefs, k) == Rows(table, childRefs, k)
          {
            LoadingRefinesNestedLoop(parents, parentRefs, gate, ts, table, childRefs, eq, size, p);
          }
        }
        return None;
      }
      NothingIndexed(childRefs);
      NothingSpoils(table, ts, eq, childRefs);
      return None;
    }

    method RunChunks(table: seq<Row>, chunks: seq<seq<Value>>, width: nat, eq: Match, ghost cs: seq<seq<Tuple>>,
                     ghost ts: seq<Tuple>, ghost size: nat)
      requires width > 0 && size > 0 && Wide(ts, width) && cs == Chunks(ts, size) && chunks == FlatChunks(cs)
      requires data == []
      modifies this`data
      ensures data == Loaded(table, cs, eq)
    {
      hide Select, Concat, Chunks;
      ChunksOf(ts, size);
      FlatLength(cs);
      for i := 0 to |chunks|
        invariant Loaded(table, cs, eq) == data + Loaded(table, cs[i..], eq)
      {
        FlatAt(cs, i);
        WideChunk(cs, width, i);
        var part := RunChunk(table, chunks[i], width, eq, cs[i]);
        assert cs[i..][0] == cs[i] && cs[i..][1..] == cs[i + 1..];
        data := data + part;
      }
      assert cs[|cs|..] == [];
    }
  }

  lemma NothingSpoils(table: seq<Row>, ts: seq<Tuple>, eq: Match, refs: seq<int>)
    requires ts == [] || Readables(table, refs)
    ensures !Spoils(table, ts, eq, refs)
  {
  }

  /** A key of the loaded rows fails exactly when the tuples find a row without one. */
  lemma LoadedRead(table: seq<Row>, ts: seq<Tuple>, size: nat, eq: Match, refs: seq<int>)
    requires size > 0
    ensures var data := Loaded(table, Chunks(ts, size), eq);
            Spoils(table, ts, eq, refs) <==> !Readables(data, refs)
  {
    hide Readable, Chunks, Hit, Select, Loaded;
    var chunks := Chunks(ts, size);
    var data := Loaded(table, chunks, eq);
    ChunksOf(ts, size);
    if Spoils(table, ts, eq, refs) {
      var j :| 0 <= j < |table| && Hit(table[j], ts, eq) && !Readable(table[j], refs);
      LoadedRow(table, chunks, eq, table[j]);
      var i :| 0 <= i < |data| && data[i] == table[j];
      assert !Readable(data[i], refs);
    }
    forall j | 0 <= j < |data| && !Readable(data[j], refs) ensures Spoils(table, ts, eq, refs) {
      LoadedRow(table, chunks, eq, data[j]);
      var i :| 0 <= i < |table| && table[i] == data[j];
      assert Hit(table[i], ts, eq) && !Readable(table[i], refs);
    }
  }

  lemma NothingIndexed(refs: seq<int>)
    ensures forall k :: Positions([], refs, k) == []
  {
  }

  lemma TupleValues(ts: seq<Tuple>, width: nat)
    requires Keyed(ts, width)
    ensures |Concat(ts)| == 0 <==> ts == []
    ensures ts != [] ==> width > 0 && |Concat(ts)| % width == 0
  {
    ConcatLength(ts, width);
    if ts != [] {
      assert KeyOfValues(ts[0]).Got?;
      TuplesCount(|Concat(ts)|, |ts|, width);
      Multiples(1, |ts|, width);
    }
  }

  lemma {:induction false} FlatLength(cs: seq<seq<Tuple>>)
    ensures |FlatChunks(cs)| == |cs|
  {
    hide Concat;
    if cs != [] { FlatLength(cs[1..]); }
  }

  lemma {:induction false} FlatAt(cs: seq<seq<Tuple>>, i: nat)
    requires i < |cs|
    ensures i < |FlatChunks(cs)| && FlatChunks(cs)[i] == Concat(cs[i])
    decreases i
  {
    hide Concat;
    if i > 0 { FlatAt(cs[1..], i - 1); }
  }

  lemma {:induction false} WideChunk(cs: seq<seq<Tuple>>, width: nat, i: nat)
    requires Wide(Concat(cs), width) && i < |cs|
    ensures Wide(cs[i], width)
    decreases i
  {
    var a, b := cs[0], Concat(cs[1..]);
    assert forall j :: 0 <= j < |a| ==> a[j] == (a + b)[j];
    assert forall j :: 0 <= j < |b| ==> b[j] == (a + b)[|a| + j];
    if i > 0 { WideChunk(cs[1..], width, i - 1); }
  }
}
