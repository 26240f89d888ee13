/**
  Rotating the AES columns of a table to the current key, batch by batch, in the two forms of the clients: the one that
  reads until a batch is empty, and the one that stops after a short batch.
 */
module AesRotation {
  import opened Common

  /**
    A stage stack under a key.  Encoding may refuse a text; otherwise it draws a nonce, so that every call has a result
    of its own: `encode(n, key, plain)` is that of call n.
   */
  datatype Cipher = Cipher(
    accepts: (string, string) -> bool,
    encode: (nat, string, string) -> string,
    decode: (string, string) -> Option<string>)

  /** Decoding undoes every encoding under the same key. */
  ghost predicate Undoes(c: Cipher) {
    forall n, k, p :: c.accepts(k, p) ==> c.decode(k, c.encode(n, k, p)) == Some(p)
  }

  datatype Keyring = Keyring(keys: map<int, string>, current: int)

  /** A row: its primary key, its key version and its AES cells, null or encrypted. */
  datatype Row = Row(key: int, version: int, cells: seq<Option<string>>)

  datatype Error = Config | Codec | Conflict

  datatype Result<+T> = Ok(value: T) | Err(error: Error)

  // ------------------------------------------------------------------------------------- keyrings

  /** A keyring with a key for every version and a current version among them. */
  predicate Usable(k: Keyring) {
    k.current in k.keys && k.current >= 1 && forall v :: v in k.keys ==> v >= 1 && k.keys[v] != ""
  }

  /** Checks the keys in whatever order `versions` lists them. */
  method NewKeyring(keys: map<int, string>, versions: seq<int>, current: int) returns (r: Result<Keyring>)
    requires forall v :: v in versions <==> v in keys
    ensures r.Ok? <==> Usable(Keyring(keys, current))
    ensures r.Ok? ==> r.value == Keyring(keys, current)
    ensures r.Err? ==> r.error == Config
  {
    for i := 0 to |versions|
      invariant forall j :: 0 <= j < i ==> versions[j] >= 1 && keys[versions[j]] != ""
    {
      var v := versions[i];
      assert v in versions;
      if v < 1 || keys[v] == "" { return Err(Config); }
    }
    if current < 1 || current !in keys { return Err(Config); }
    return Ok(Keyring(keys, current));
  }

  // ------------------------------------------------------------------------------------- one row

  /** One cell under another key, encoded by call n; a null cell stays null. */
  function Recoded(cell: Option<string>, c: Cipher, from: string, to: string, n: nat): Option<Option<string>> {
    if cell.None? then Some(None)
    else
      var plain := c.decode(from, cell.value);
      if plain.None? || !c.accepts(to, plain.value) then None else Some(Some(c.encode(n, to, plain.value)))
  }

  function RecodedAll(cells: seq<Option<string>>, c: Cipher, from: string, to: string, n: nat)
    : (r: Option<seq<Option<string>>>)
    ensures r.Some? ==> |r.value| == |cells|
  {
    if cells == [] then Some([])
    else
      var one := Recoded(cells[0], c, from, to, n);
      var rest := RecodedAll(cells[1..], c, from, to, n + 1);
      if one.None? || rest.None? then None else Some([one.value] + rest.value)
  }

  /** Whether cells can be recoded does not depend on the nonces. */
  lemma {:induction false} AnyNonce(cells: seq<Option<string>>, c: Cipher, from: string, to: string, n: nat, k: nat)
    ensures RecodedAll(cells, c, from, to, n).Some? <==> RecodedAll(cells, c, from, to, k).Some?
    decreases |cells|
  {
    if cells != [] { AnyNonce(cells[1..], c, from, to, n + 1, k + 1); }
  }

  predicate AllNull(cells: seq<Option<string>>) {
    forall i :: 0 <= i < |cells| ==> cells[i].None?
  }

  /** The keys of a stored version and of the current one. */
  function KeysFor(version: int, ring: Keyring): Result<(string, string)> {
    if version < 1 || version > 0x7fff_ffff then Err(Codec)
    else if version !in ring.keys || ring.current !in ring.keys then Err(Config)
    else Ok((ring.keys[version], ring.keys[ring.current]))
  }

  /** The row under the current key; a row without a value reads no version and stays as it is. */
  function Rotated(row: Row, ring: Keyring, c: Cipher, n: nat): Result<Row> {
    if AllNull(row.cells) then Ok(row) else
    var keys := KeysFor(row.version, ring);
    if keys.Err? then Err(keys.error) else
    var cells := RecodedAll(row.cells, c, keys.value.0, keys.value.1, n);
    if cells.None? then Err(Codec) else Ok(row.(version := ring.current, cells := cells.value))
  }

  method RotateRow(row: Row, ring: Keyring, c: Cipher, n: nat) returns (r: Result<Row>)
    ensures r == Rotated(row, ring, c, n)
  {
    var out := row.cells;
    var keysRead := false;
    var oldKey, newKey := "", "";
    for i := 0 to |row.cells|
      invariant |out| == |row.cells| && (keysRead <==> !AllNull(row.cells[..i]))
      invariant forall j :: i <= j < |out| ==> out[j] == row.cells[j]
      invariant !keysRead ==> out == row.cells
      invariant keysRead ==> KeysFor(row.version, ring) == Ok((oldKey, newKey))
      invariant keysRead ==> forall j :: 0 <= j < i ==> Recoded(row.cells[j], c, oldKey, newKey, n + j) == Some(out[j])
    {
      assert row.cells[..i + 1] == row.cells[..i] + [row.cells[i]];
      if row.cells[i].None? { continue; }
      assert !AllNull(row.cells) by { assert row.cells[i].Some?; }
      if !keysRead {
        var keys := KeysFor(row.version, ring);
        if keys.Err? { return Err(keys.error); }
        oldKey, newKey := keys.value.0, keys.value.1;
        keysRead := true;
        assert forall j :: 0 <= j < i ==> row.cells[..i][j].None?;
      }
      var plain := c.decode(oldKey, row.cells[i].value);
      if plain.None? || !c.accepts(newKey, plain.value) {
        OneFails(row.cells, c, oldKey, newKey, n, i);
        return Err(Codec);
      }
      out := out[i := Some(c.encode(n + i, newKey, plain.value))];
    }
    assert row.cells[..|row.cells|] == row.cells;
    if keysRead {
      AllRecoded(row.cells, c, oldKey, newKey, n, out);
      return Ok(row.(version := ring.current, cells := out));
    }
    return Ok(row);
  }

  lemma {:induction false} OneFails(cells: seq<Option<string>>, c: Cipher, from: string, to: string, n: nat, i: nat)
    requires i < |cells| && Recoded(cells[i], c, from, to, n + i).None?
    ensures RecodedAll(cells, c, from, to, n).None?
    decreases i
  {
    if i > 0 { OneFails(cells[1..], c, from, to, n + 1, i - 1); }
  }

  lemma {:induction false} AllRecoded(
    cells: seq<Option<string>>, c: Cipher, from: string, to: string, n: nat, out: seq<Option<string>>)
    requires |out| == |cells| && forall i :: 0 <= i < |cells| ==> Recoded(cells[i], c, from, to, n + i) == Some(out[i])
    ensures RecodedAll(cells, c, from, to, n) == Some(out)
    decreases |cells|
  {
    hide Recoded;
    if cells != [] {
      forall i | 0 <= i < |cells| - 1 ensures Recoded(cells[1..][i], c, from, to, n + 1 + i) == Some(out[1..][i]) {
        assert n + 1 + i == n + (i + 1) && cells[1..][i] == cells[i + 1] && out[1..][i] == out[i + 1];
        assert Recoded(cells[i + 1], c, from, to, n + (i + 1)) == Some(out[i + 1]);
      }
      AllRecoded(cells[1..], c, from, to, n + 1, out[1..]);
      assert out == [out[0]] + out[1..];
      assert Recoded(cells[0], c, from, to, n + 0) == Some(out[0]);
    }
  }

  /** The plaintext of a cell under the key of the row's version. */
  function PlainOf(row: Row, i: nat, ring: Keyring, c: Cipher): Option<Option<string>>
    requires i < |row.cells|
  {
    if row.cells[i].None? then Some(None)
    else if row.version !in ring.keys then None
    else
      var p := c.decode(ring.keys[row.version], row.cells[i].value);
      if p.None? then None else Some(p)
  }

  lemma {:induction false} RecodedAt(
    cells: seq<Option<string>>, c: Cipher, from: string, to: string, n: nat, i: nat)
    requires i < |cells| && RecodedAll(cells, c, from, to, n).Some?
    ensures Recoded(cells[i], c, from, to, n + i) == Some(RecodedAll(cells, c, from, to, n).value[i])
    decreases i
  {
    hide Recoded;
    if i > 0 {
      RecodedAt(cells[1..], c, from, to, n + 1, i - 1);
      assert n + 1 + (i - 1) == n + i;
    }
  }

  /**
    Whatever the nonces are, rotation keeps the plaintext of every cell and the primary key; a row with a value gets the
    current version.
   */
  lemma RotationKeepsPlaintext(row: Row, ring: Keyring, c: Cipher, n: nat, i: nat)
    requires Undoes(c) && Usable(ring) && i < |row.cells| && Rotated(row, ring, c, n).Ok?
    ensures var after := Rotated(row, ring, c, n).value;
            && after.key == row.key && |after.cells| == |row.cells|
            && after.version == (if AllNull(row.cells) then row.version else ring.current)
            && PlainOf(row, i, ring, c).Some? && PlainOf(after, i, ring, c) == PlainOf(row, i, ring, c)
  {
    if !AllNull(row.cells) {
      RecodedAt(row.cells, c, ring.keys[row.version], ring.keys[ring.current], n, i);
    }
  }

  // ------------------------------------------------------------------------------------- the table

  /** The number of rows that one statement reads. */
  const LIMIT: nat := 1000

  /** How many rows are not at the current version. */
  function Pending(rows: seq<Row>, current: int): nat {
    if rows == [] then 0 else (if rows[0].version != current then 1 else 0) + Pending(rows[1..], current)
  }

  /** The first rows, at most `most` of them, that are not at the current version. */
  function Batch(rows: seq<Row>, current: int, most: nat): seq<Row> {
    if rows == [] || most == 0 then []
    else if rows[0].version != current then [rows[0]] + Batch(rows[1..], current, most - 1)
    else Batch(rows[1..], current, most)
  }

  predicate Keyed(rows: seq<Row>) {
    forall i, j :: 0 <= i < j < |rows| ==> rows[i].key != rows[j].key
  }

  lemma {:induction false} BatchOf(rows: seq<Row>, current: int, most: nat)
    requires Keyed(rows)
    ensures var b := Batch(rows, current, most);
            && |b| == (if Pending(rows, current) < most then Pending(rows, current) else most)
            && Keyed(b) && forall i :: 0 <= i < |b| ==> b[i] in rows && b[i].version != current
    decreases |rows|
  {
    if rows != [] && most > 0 {
      var rest := rows[1..];
      assert forall i :: 0 <= i < |rest| ==> rest[i] == rows[i + 1];
      assert rows == [rows[0]] + rest;
      if rows[0].version != current {
        BatchOf(rest, current, most - 1);
        FirstOfBatch(rows, Batch(rest, current, most - 1));
      } else {
        BatchOf(rest, current, most);
      }
    }
  }

  lemma FirstOfBatch(rows: seq<Row>, more: seq<Row>)
    requires rows != [] && Keyed(rows) && Keyed(more) && forall i :: 0 <= i < |more| ==> more[i] in rows[1..]
    ensures Keyed([rows[0]] + more)
  {
    forall j | 0 <= j < |more| ensures more[j].key != rows[0].key {
      var n :| 0 <= n < |rows[1..]| && rows[1..][n] == more[j];
      assert rows[n + 1] == more[j];
    }
  }

  /** Updating one pending row to the current version leaves one row less to rotate. */
  lemma {:induction false} PendingUpdate(rows: seq<Row>, current: int, i: nat, row: Row)
    requires i < |rows| && rows[i].version != current && row.version == current
    ensures Pending(rows[i := row], current) == Pending(rows, current) - 1
    decreases i
  {
    if i == 0 {
      assert rows[0 := row][1..] == rows[1..];
    } else {
      assert rows[i := row][1..] == rows[1..][i - 1 := row];
      PendingUpdate(rows[1..], current, i - 1, row);
    }
  }

  lemma {:induction false} NonePending(rows: seq<Row>, current: int, i: nat)
    requires Pending(rows, current) == 0 && i < |rows|
    ensures rows[i].version == current
    decreases i
  {
    if i > 0 { NonePending(rows[1..], current, i - 1); }
  }

  lemma {:induction false} OnePending(rows: seq<Row>, current: int, i: nat)
    requires i < |rows| && rows[i].version != current
    ensures Pending(rows, current) >= 1
    decreases i
  {
    if i > 0 { OnePending(rows[1..], current, i - 1); }
  }

  /** The row that an update by a rotation leaves: it writes the current version to every row. */
  function Target(row: Row, ring: Keyring, c: Cipher, n: nat): Row
    requires Rotated(row, ring, c, n).Ok?
  {
    Rotated(row, ring, c, n).value.(version := ring.current)
  }

  /** One row is the other, rotated with some nonces. */
  ghost predicate Rekeyed(row: Row, after: Row, ring: Keyring, c: Cipher) {
    exists n: nat :: RekeyedBy(row, after, ring, c, n)
  }

  ghost predicate RekeyedBy(row: Row, after: Row, ring: Keyring, c: Cipher, n: nat) {
    Rotated(row, ring, c, n).Ok? && after == Target(row, ring, c, n)
  }

  /** Why a row cannot be rotated, if it cannot; the nonces do not matter. */
  function Obstacle(row: Row, ring: Keyring, c: Cipher): Option<Error> {
    match Rotated(row, ring, c, 0) case Ok(_) => None case Err(e) => Some(e)
  }

  lemma ObstacleIs(row: Row, ring: Keyring, c: Cipher, n: nat)
    ensures Rotated(row, ring, c, n).Ok? <==> Obstacle(row, ring, c).None?
    ensures Rotated(row, ring, c, n).Err? ==> Obstacle(row, ring, c) == Some(Rotated(row, ring, c, n).error)
  {
    var keys := KeysFor(row.version, ring);
    if keys.Ok? { AnyNonce(row.cells, c, keys.value.0, keys.value.1, n, 0); }
  }

  /** A null cell, or one that decodes under the old key to a text that the new key accepts. */
  predicate CanRecode(cell: Option<string>, c: Cipher, from: string, to: string) {
    cell.Some? ==> c.decode(from, cell.value).Some? && c.accepts(to, c.decode(from, cell.value).value)
  }

  lemma {:induction false} RecodedExactly(cells: seq<Option<string>>, c: Cipher, from: string, to: string, n: nat)
    ensures RecodedAll(cells, c, from, to, n).Some? <==>
              forall i :: 0 <= i < |cells| ==> CanRecode(cells[i], c, from, to)
    decreases |cells|
  {
    if cells != [] {
      RecodedExactly(cells[1..], c, from, to, n + 1);
      assert forall i :: 1 <= i < |cells| ==> cells[i] == cells[1..][i - 1];
      assert forall i :: 0 <= i < |cells| - 1 ==> cells[1..][i] == cells[i + 1];
    }
  }

  /**
    A row without a value can be rotated.  Another row needs a version from 1 to the largest 32-bit integer, the keys of
    that version and of the current one, and cells that the first decodes and the second accepts.  Only a missing key is
    an error of the configuration.
   */
  lemma ObstacleExactly(row: Row, ring: Keyring, c: Cipher)
    ensures var known := row.version in ring.keys && ring.current in ring.keys;
            var proper := 1 <= row.version < 0x8000_0000;
            && (Obstacle(row, ring, c).None? <==>
                  || (forall i :: 0 <= i < |row.cells| ==> row.cells[i].None?)
                  || (&& proper && known
                      && forall i :: 0 <= i < |row.cells| ==>
                           CanRecode(row.cells[i], c, ring.keys[row.version], ring.keys[ring.current])))
            && (Obstacle(row, ring, c) == Some(Config) <==>
                  proper && !known && exists i :: 0 <= i < |row.cells| && row.cells[i].Some?)
            && Obstacle(row, ring, c) != Some(Conflict)
  {
    hide RecodedAll, CanRecode;
    var keys := KeysFor(row.version, ring);
    if keys.Ok? { RecodedExactly(row.cells, c, keys.value.0, keys.value.1, 0); }
  }

  /** Every pending row can be rotated. */
  predicate Rotatable(rows: seq<Row>, ring: Keyring, c: Cipher) {
    forall i :: 0 <= i < |rows| && rows[i].version != ring.current ==> Obstacle(rows[i], ring, c).None?
  }

  /** A pending row cannot be rotated, for this reason. */
  predicate FailsWith(rows: seq<Row>, ring: Keyring, c: Cipher, e: Error) {
    exists i :: 0 <= i < |rows| && rows[i].version != ring.current && Obstacle(rows[i], ring, c) == Some(e)
  }

  class Table {
    var rows: seq<Row>
    var calls: nat          // the calls of the cipher so far

    constructor (rows: seq<Row>)
      ensures this.rows == rows
    {
      this.rows, calls := rows, 0;
    }

    /** Updates the rows with a key and a version, and counts them. */
    method Update(key: int, stored: int, row: Row) returns (n: nat)
      requires Keyed(rows) && row.key == key
      modifies this`rows
      ensures |rows| == |old(rows)| && n <= 1
      ensures forall i :: 0 <= i < |rows| ==>
                rows[i] == if old(rows)[i].key == key && old(rows)[i].version == stored then row else old(rows)[i]
      ensures n == 1 <==> exists i :: 0 <= i < |rows| && old(rows)[i].key == key && old(rows)[i].version == stored
    {
      n := 0;
      for i := 0 to |rows|
        invariant |rows| == |old(rows)| && n <= 1
        invariant forall j :: i <= j < |rows| ==> rows[j] == old(rows)[j]
        invariant forall j :: 0 <= j < i ==>
                    rows[j] == if old(rows)[j].key == key && old(rows)[j].version == stored then row else old(rows)[j]
        invariant n == 1 <==> exists j :: 0 <= j < i && old(rows)[j].key == key && old(rows)[j].version == stored
      {
        if rows[i].key == key && rows[i].version == stored {
          rows := rows[i := row];
          n := n + 1;
        }
      }
    }

    /** Where the rotation stands: every row is as it was, or rotated. */
    ghost predicate Under(before: seq<Row>, ring: Keyring, c: Cipher)
      reads this
    {
      && |rows| == |before| && Keyed(rows)
      && forall i :: 0 <= i < |rows| ==>
           rows[i] == before[i] || (before[i].version != ring.current && Rekeyed(before[i], rows[i], ring, c))
    }

    /** Rotates the rows of a batch, in order; the first failure ends it. */
    method RotateBatch(batch: seq<Row>, ring: Keyring, c: Cipher, ghost before: seq<Row>) returns (err: Option<Error>)
      requires Under(before, ring, c) && Keyed(batch)
      requires forall i :: 0 <= i < |batch| ==> batch[i] in rows && batch[i].version != ring.current
      modifies this
      ensures err.None? ==> Under(before, ring, c)
      ensures err.None? ==> Pending(rows, ring.current) == Pending(old(rows), ring.current) - |batch|
      ensures err.Some? ==> FailsWith(before, ring, c, err.value)
    {
      hide Rotated, Pending, Obstacle;
      for n := 0 to |batch|
        invariant Under(before, ring, c)
        invariant forall i :: n <= i < |batch| ==> batch[i] in rows
        invariant Pending(rows, ring.current) == Pending(old(rows), ring.current) - n
      {
        ghost var was := rows;
        ghost var at :| 0 <= at < |rows| && rows[at] == batch[n];
        assert rows[at] == before[at];
        var rotated := RotateRow(batch[n], ring, c, calls);
        ObstacleIs(batch[n], ring, c, calls);
        if rotated.Err? { return Some(rotated.error); }
        RotatedKey(batch[n], ring, c, calls);
        assert RekeyedBy(batch[n], rotated.value.(version := ring.current), ring, c, calls);
        calls := calls + |batch[n].cells|;
        var after := rotated.value.(version := ring.current);
        var changed := Update(batch[n].key, batch[n].version, after);
        OnlyOne(was, rows, at, after);
        PendingUpdate(was, ring.current, at, after);
        assert was[at].key == batch[n].key && was[at].version == batch[n].version;
        if changed != 1 { return Some(Conflict); }
        Others(was, at, after, batch, n);
      }
      return None;
    }

    /** Reads batches until one is empty. */
    method Rotate(ring: Keyring, c: Cipher) returns (r: Result<nat>)
      requires Keyed(rows)
      modifies this
      ensures r.Ok? <==> Rotatable(old(rows), ring, c)
      ensures r.Ok? ==> r.value == Pending(old(rows), ring.current) && Finished(old(rows), rows, ring, c)
      ensures r.Err? ==> FailsWith(old(rows), ring, c, r.error)
    {
      hide Rotated, Pending, Batch, Obstacle, Rekeyed;
      var rotated := 0;
      while true
        invariant Under(old(rows), ring, c) && rotated + Pending(rows, ring.current) == Pending(old(rows), ring.current)
        decreases Pending(rows, ring.current)
      {
        var batch := Batch(rows, ring.current, LIMIT);
        BatchOf(rows, ring.current, LIMIT);
        if |batch| == 0 { break; }
        var err := RotateBatch(batch, ring, c, old(rows));
        if err.Some? { return Err(err.value); }
        rotated := rotated + |batch|;
      }
      Done(old(rows), rows, ring, c);
      return Ok(rotated);
    }

    /** Reads batches until one is short. */
    method RotateShort(ring: Keyring, c: Cipher) returns (r: Result<nat>)
      requires Keyed(rows)
      modifies this
      ensures r.Ok? <==> Rotatable(old(rows), ring, c)
      ensures r.Ok? ==> r.value == Pending(old(rows), ring.current) && Finished(old(rows), rows, ring, c)
      ensures r.Err? ==> FailsWith(old(rows), ring, c, r.error)
    {
      hide Rotated, Pending, Batch, Obstacle, Rekeyed;
      var rotated := 0;
      var more := true;
      while more
        invariant Under(old(rows), ring, c) && rotated + Pending(rows, ring.current) == Pending(old(rows), ring.current)
        invariant !more ==> Pending(rows, ring.current) == 0
        decreases more, Pending(rows, ring.current)
      {
        var batch := Batch(rows, ring.current, LIMIT);
        BatchOf(rows, ring.current, LIMIT);
        if |batch| == 0 { break; }
        var err := RotateBatch(batch, ring, c, old(rows));
        if err.Some? { return Err(err.value); }
        rotated := rotated + |batch|;
        more := |batch| == LIMIT;
      }
      Done(old(rows), rows, ring, c);
      return Ok(rotated);
    }
  }

  /** The table after a rotation: each pending row is rotated, the others are as they were, and no row is pending. */
  ghost predicate Finished(before: seq<Row>, after: seq<Row>, ring: Keyring, c: Cipher) {
    && |after| == |before| && Pending(after, ring.current) == 0
    && forall i :: 0 <= i < |before| ==>
         if before[i].version == ring.current then after[i] == before[i] else Rekeyed(before[i], after[i], ring, c)
  }

  /** A finished rotation keeps the key and every plaintext of every row, and leaves all rows at the current version. */
  lemma FinishedKeepsPlaintext(before: seq<Row>, after: seq<Row>, ring: Keyring, c: Cipher, i: nat, j: nat)
    requires Undoes(c) && Usable(ring) && Finished(before, after, ring, c) && i < |before| && j < |before[i].cells|
    ensures after[i].key == before[i].key && after[i].version == ring.current && |after[i].cells| == |before[i].cells|
    ensures PlainOf(after[i], j, ring, c) == PlainOf(before[i], j, ring, c)
  {
    hide RecodedAll, Pending;
    NonePending(after, ring.current, i);
    if before[i].version != ring.current {
      var n: nat :| RekeyedBy(before[i], after[i], ring, c, n);
      RotationKeepsPlaintext(before[i], ring, c, n, j);
      if AllNull(before[i].cells) { NullsStay(before[i], ring, c, j); }
    }
  }

  lemma NullsStay(row: Row, ring: Keyring, c: Cipher, j: nat)
    requires AllNull(row.cells) && j < |row.cells|
    ensures PlainOf(row.(version := ring.current), j, ring, c) == PlainOf(row, j, ring, c) == Some(None)
  {
  }

  lemma FinishedRow(before: seq<Row>, after: seq<Row>, ring: Keyring, c: Cipher, i: nat)
    requires Finished(before, after, ring, c) && i < |before|
    ensures after[i].key == before[i].key && after[i].version == ring.current && |after[i].cells| == |before[i].cells|
  {
    hide Pending;
    NonePending(after, ring.current, i);
    if before[i].version != ring.current {
      var n: nat :| RekeyedBy(before[i], after[i], ring, c, n);
      RotatedKey(before[i], ring, c, n);
    }
  }

  /** Rows with one key, one version and the same plaintexts, though their ciphertexts may differ. */
  predicate SameContent(a: Row, b: Row, ring: Keyring, c: Cipher) {
    && a.key == b.key && a.version == b.version && |a.cells| == |b.cells|
    && forall j :: 0 <= j < |a.cells| ==> PlainOf(a, j, ring, c) == PlainOf(b, j, ring, c)
  }

  /** Both forms of the loop leave tables with the same content, whatever the nonces are. */
  lemma OneResult(before: seq<Row>, a: seq<Row>, b: seq<Row>, ring: Keyring, c: Cipher)
    requires Undoes(c) && Usable(ring) && Finished(before, a, ring, c) && Finished(before, b, ring, c)
    ensures |a| == |b| && forall i :: 0 <= i < |a| ==> SameContent(a[i], b[i], ring, c)
  {
    hide Finished, PlainOf;
    assert |a| == |before| == |b| by { SameLength(before, a, ring, c); SameLength(before, b, ring, c); }
    forall i | 0 <= i < |a| ensures SameContent(a[i], b[i], ring, c) {
      FinishedRow(before, a, ring, c, i);
      FinishedRow(before, b, ring, c, i);
      forall j | 0 <= j < |a[i].cells| ensures PlainOf(a[i], j, ring, c) == PlainOf(b[i], j, ring, c) {
        FinishedKeepsPlaintext(before, a, ring, c, i, j);
        FinishedKeepsPlaintext(before, b, ring, c, i, j);
      }
    }
  }

  lemma SameLength(before: seq<Row>, after: seq<Row>, ring: Keyring, c: Cipher)
    requires Finished(before, after, ring, c)
    ensures |after| == |before|
  {
  }

  lemma RotatedKey(row: Row, ring: Keyring, c: Cipher, n: nat)
    requires Rotated(row, ring, c, n).Ok?
    ensures Rotated(row, ring, c, n).value.key == row.key && |Rotated(row, ring, c, n).value.cells| == |row.cells|
  {
  }

  lemma OnlyOne(was: seq<Row>, now: seq<Row>, at: nat, row: Row)
    requires Keyed(was) && at < |was| == |now| && row.key == was[at].key
    requires forall i :: 0 <= i < |was| ==>
              now[i] == if was[i].key == was[at].key && was[i].version == was[at].version then row else was[i]
    ensures now == was[at := row] && Keyed(now)
  {
  }

  lemma Others(was: seq<Row>, at: nat, row: Row, batch: seq<Row>, n: nat)
    requires Keyed(was) && at < |was| && n < |batch| && was[at] == batch[n] && Keyed(batch)
    requires forall i :: n <= i < |batch| ==> batch[i] in was
    ensures forall i :: n < i < |batch| ==> batch[i] in was[at := row]
  {
    forall i | n < i < |batch| ensures batch[i] in was[at := row] {
      var j :| 0 <= j < |was| && was[j] == batch[i];
      assert was[at := row][j] == batch[i];
    }
  }

  lemma Done(before: seq<Row>, rows: seq<Row>, ring: Keyring, c: Cipher)
    requires |rows| == |before| && Pending(rows, ring.current) == 0
    requires forall i :: 0 <= i < |rows| ==>
               rows[i] == before[i] || (before[i].version != ring.current && Rekeyed(before[i], rows[i], ring, c))
    ensures Finished(before, rows, ring, c) && Rotatable(before, ring, c)
  {
    hide Rotated, Pending, Obstacle;
    forall i | 0 <= i < |rows| ensures rows[i].version == ring.current { NonePending(rows, ring.current, i); }
    forall i | 0 <= i < |rows| && before[i].version != ring.current ensures Obstacle(before[i], ring, c).None? {
      var n: nat :| RekeyedBy(before[i], rows[i], ring, c, n);
      ObstacleIs(before[i], ring, c, n);
    }
  }
}
