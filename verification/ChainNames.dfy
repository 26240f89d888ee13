/**
  The grammar of chain method names: printing conditions and order keys as words, and reading them back.
 */
module ChainNames {
  import opened Common
  import opened Names

  /** One condition of a chain: an operator on a column, on several columns, or between two columns. */
  datatype ChainKey = ChainKey(op: string, column: string, columns: seq<string>, compare: string)

  /** Which operators the type rules allow. */
  datatype Rules = Rules(
    op: (string, string) -> bool,        // an operator on a column
    compare: (string, string) -> bool,   // a comparison of a column with another one
    tuple: string -> bool,
    fulltext: string -> bool)

  /** The columns of the entity and of the whole model. */
  datatype Schema = Schema(columns: seq<string>, all: seq<string>, rules: Rules)

  // ------------------------------------------------------------------------------------- lookups

  /** The column with a PascalCase name; of two, the later one. */
  function Find(cols: seq<string>, text: string): Option<string> {
    if cols == [] then None
    else if PascalOf(cols[|cols| - 1]) == text then Some(cols[|cols| - 1])
    else Find(cols[..|cols| - 1], text)
  }

  /** The column of any entity with a PascalCase name; of two, the earlier one. */
  function First(cols: seq<string>, text: string): Option<string> {
    if cols == [] then None else if PascalOf(cols[0]) == text then Some(cols[0]) else First(cols[1..], text)
  }

  function LeadingOp(w: string): Option<string> {
    match w
    case "Ne" => Some("ne") case "Eq" => Some("") case "Gt" => Some("gt") case "Lt" => Some("lt")
    case "Ge" => Some("ge") case "Le" => Some("le") case "Lk" => Some("lk")
    case "Lb" => Some("lb") case "Between" => Some("between")
    case _ => None
  }

  function CompareOp(w: string): Option<string> {
    match w
    case "Eq" => Some("") case "Ne" => Some("ne") case "Gt" => Some("gt") case "Lt" => Some("lt")
    case "Ge" => Some("ge") case "Le" => Some("le")
    case _ => None
  }

  // ------------------------------------------------------------------------------------- parsing a key

  /** The parts of a word list between the separators. */
  function SplitAt(ws: seq<string>, sep: string): (r: seq<seq<string>>)
    ensures r != []
  {
    if ws == [] then [[]]
    else
      var rest := SplitAt(ws[1..], sep);
      if ws[0] == sep then [[]] + rest else [[ws[0]] + rest[0]] + rest[1..]
  }

  function FindAll(cols: seq<string>, parts: seq<seq<string>>): Option<seq<string>> {
    if parts == [] then Some([])
    else
      var c := Find(cols, Join(parts[0]));
      var rest := FindAll(cols, parts[1..]);
      if c.None? || rest.None? then None else Some([c.value] + rest.value)
  }

  function SplitWith(cols: seq<string>, ws: seq<string>): Option<seq<string>> { FindAll(cols, SplitAt(ws, "With")) }

  predicate AllOf(cs: seq<string>, p: string -> bool) {
    forall i :: 0 <= i < |cs| ==> p(cs[i])
  }

  function Plainly(s: Schema, ws: seq<string>): seq<ChainKey> {
    var c := Find(s.columns, Join(ws));
    if c.Some? && s.rules.op(c.value, "") then [ChainKey("", c.value, [], "")] else []
  }

  function Fulltext(s: Schema, ws: seq<string>): seq<ChainKey> {
    if ws == [] || ws[0] != "Fulltext" then []
    else
      var boolean := |ws| > 1 && ws[1] == "Boolean";
      var cols := SplitWith(s.columns, if boolean then ws[2..] else ws[1..]);
      if cols.Some? && cols.value != [] && AllOf(cols.value, s.rules.fulltext)
      then [ChainKey(if boolean then "fulltext_boolean" else "fulltext", "", cols.value, "")] else []
  }

  function Tuple(s: Schema, ws: seq<string>, op: string): seq<ChainKey> {
    var cols := SplitWith(s.columns, ws);
    if cols.Some? && |cols.value| >= 2 && AllOf(cols.value, s.rules.tuple) then [ChainKey(op, "", cols.value, "")]
    else []
  }

  function Leading(s: Schema, ws: seq<string>): seq<ChainKey> {
    if |ws| < 2 || LeadingOp(ws[0]).None? then []
    else if ws[0] == "Ne" && ws[1] == "Tuple" then Tuple(s, ws[2..], "ne_tuple")
    else
      var op := LeadingOp(ws[0]).value;
      var c := Find(s.columns, Join(ws[1..]));
      if c.Some? && s.rules.op(c.value, op) then [ChainKey(op, c.value, [], "")] else []
  }

  /** The comparison with its operator at word i. */
  function CompareAt(s: Schema, ws: seq<string>, i: nat): seq<ChainKey>
    requires i < |ws|
  {
    var op := CompareOp(ws[i]);
    var left := Find(s.columns, Join(ws[..i]));
    var right := First(s.all, Join(ws[i + 1..]));
    if op.Some? && left.Some? && right.Some? && s.rules.compare(left.value, op.value)
    then [ChainKey(op.value, left.value, [], right.value)] else []
  }

  function Compares(s: Schema, ws: seq<string>, i: nat): seq<ChainKey>
    decreases |ws| - i
  {
    if i + 1 >= |ws| then [] else CompareAt(s, ws, i) + Compares(s, ws, i + 1)
  }

  /** All that a list of words can mean. */
  function Meanings(s: Schema, ws: seq<string>): seq<ChainKey> {
    if ws == [] then []
    else
      var tuples := if ws[0] == "Tuple" then Tuple(s, ws[1..], "tuple") else [];
      Plainly(s, ws) + (Fulltext(s, ws) + (Leading(s, ws) + (tuples + Compares(s, ws, 1))))
  }

  /** A key is read when it means exactly one thing. */
  function ParseKey(s: Schema, ws: seq<string>): Option<ChainKey> {
    var ks := Meanings(s, ws);
    if |ks| == 1 then Some(ks[0]) else None
  }

  // ------------------------------------------------------------------------------------- parsing a chain

  datatype Linked = Linked(conn: string, key: ChainKey)

  /** The number of words before the next connector. */
  function ToConn(ws: seq<string>): (n: nat)
    ensures n <= |ws| && (forall i :: 0 <= i < n ==> ws[i] != "And" && ws[i] != "Or")
    ensures n < |ws| ==> ws[n] == "And" || ws[n] == "Or"
  {
    if ws == [] || ws[0] == "And" || ws[0] == "Or" then 0 else 1 + ToConn(ws[1..])
  }

  function ConnOf(w: string): string { if w == "And" then "and" else "or" }

  function ParseWords(s: Schema, ws: seq<string>, conn: string): Option<seq<Linked>>
    decreases |ws|
  {
    var n := ToConn(ws);
    var k := ParseKey(s, ws[..n]);
    if k.None? then None
    else if n == |ws| then Some([Linked(conn, k.value)])
    else
      var rest := ParseWords(s, ws[n + 1..], ConnOf(ws[n]));
      if rest.None? then None else Some([Linked(conn, k.value)] + rest.value)
  }

  function ParseChain(s: Schema, name: string): Option<seq<Linked>> {
    var ws := Words(name);
    if ws == [] then None else ParseWords(s, ws, "")
  }

  // ------------------------------------------------------------------------------------- printing

  function WithWords(cols: seq<string>): seq<string>
    requires cols != []
  {
    if |cols| == 1 then ColumnWords(cols[0]) else ColumnWords(cols[0]) + (["With"] + WithWords(cols[1..]))
  }

  function LeadingWord(op: string): string {
    match op
    case "ne" => "Ne" case "gt" => "Gt" case "lt" => "Lt" case "ge" => "Ge" case "le" => "Le" case "lk" => "Lk"
    case "lb" => "Lb" case "between" => "Between"
    case _ => "Eq"
  }

  /** A column, several columns, or two columns, as the kinds of keys need them. */
  predicate Allowed(s: Schema, k: ChainKey) {
    if k.op == "tuple" || k.op == "ne_tuple" then
      k.column == "" && k.compare == "" && |k.columns| >= 2 && Among(s.columns, k.columns) &&
        AllOf(k.columns, s.rules.tuple)
    else if k.op == "fulltext" || k.op == "fulltext_boolean" then
      k.column == "" && k.compare == "" && k.columns != [] && Among(s.columns, k.columns) &&
        AllOf(k.columns, s.rules.fulltext)
    else if k.compare != "" then
      && k.columns == [] && k.column in s.columns && k.compare in s.all && k.op in ["", "ne", "gt", "lt", "ge", "le"]
      && s.rules.compare(k.column, k.op)
    else
      && k.columns == [] && k.column in s.columns && k.op in ["", "ne", "gt", "lt", "ge", "le", "lk", "lb", "between"]
      && s.rules.op(k.column, k.op)
  }

  predicate Among(cols: seq<string>, cs: seq<string>) {
    forall i :: 0 <= i < |cs| ==> cs[i] in cols
  }

  /** A full-text search whose first column does not start with the word Boolean. */
  predicate Clear(k: ChainKey) {
    k.op == "fulltext" && k.columns != [] && ColumnWords(k.columns[0]) != [] ==>
      ColumnWords(k.columns[0])[0] != "Boolean"
  }

  function KeyWords(k: ChainKey): seq<string>
    requires k.op in ["tuple", "ne_tuple", "fulltext", "fulltext_boolean"] ==> k.columns != []
  {
    if k.op == "tuple" then ["Tuple"] + WithWords(k.columns)
    else if k.op == "ne_tuple" then ["Ne", "Tuple"] + WithWords(k.columns)
    else if k.op == "fulltext" then ["Fulltext"] + WithWords(k.columns)
    else if k.op == "fulltext_boolean" then ["Fulltext", "Boolean"] + WithWords(k.columns)
    else if k.compare != "" then ColumnWords(k.column) + ([LeadingWord(k.op)] + ColumnWords(k.compare))
    else if k.op == "" then ColumnWords(k.column)
    else [LeadingWord(k.op)] + ColumnWords(k.column)
  }

  /** A chain: the first key has no connector, and the others follow And or Or. */
  predicate AllowedChain(s: Schema, ks: seq<Linked>, first: bool) {
    && ks != [] && Allowed(s, ks[0].key)
    && (if first then ks[0].conn == "" else ks[0].conn == "and" || ks[0].conn == "or")
    && (|ks| > 1 ==> AllowedChain(s, ks[1..], false))
  }

  predicate AllClear(ks: seq<Linked>) {
    forall i :: 0 <= i < |ks| ==> Clear(ks[i].key)
  }

  /** The keys on several columns have columns. */
  predicate Printable(ks: seq<Linked>) {
    forall i :: 0 <= i < |ks| && ks[i].key.op in ["tuple", "ne_tuple", "fulltext", "fulltext_boolean"] ==>
                  ks[i].key.columns != []
  }

  function ChainWords(ks: seq<Linked>): seq<string>
    requires Printable(ks)
  {
    if ks == [] then []
    else if |ks| == 1 then KeyWords(ks[0].key)
    else KeyWords(ks[0].key) + ([if ks[1].conn == "and" then "And" else "Or"] + ChainWords(ks[1..]))
  }

  // ------------------------------------------------------------------------------------- order keys

  datatype OrderKey = OrderKey(column: string, desc: bool)

  function ParseOrderPart(s: Schema, part: seq<string>): Option<OrderKey> {
    if |part| < 2 || (part[|part| - 1] != "Asc" && part[|part| - 1] != "Desc") then None
    else
      var c := Find(s.columns, Join(part[..|part| - 1]));
      if c.None? then None else Some(OrderKey(c.value, part[|part| - 1] == "Desc"))
  }

  function ParseOrderParts(s: Schema, parts: seq<seq<string>>): Option<seq<OrderKey>> {
    if parts == [] then Some([])
    else
      var k := ParseOrderPart(s, parts[0]);
      var rest := ParseOrderParts(s, parts[1..]);
      if k.None? || rest.None? then None else Some([k.value] + rest.value)
  }

  function ParseOrder(s: Schema, name: string): Option<seq<OrderKey>> {
    ParseOrderParts(s, SplitAt(Words(name), "And"))
  }

  function OrderPart(k: OrderKey): seq<string> { ColumnWords(k.column) + [if k.desc then "Desc" else "Asc"] }

  function OrderWords(ks: seq<OrderKey>): seq<string>
    requires ks != []
  {
    if |ks| == 1 then OrderPart(ks[0]) else OrderPart(ks[0]) + (["And"] + OrderWords(ks[1..]))
  }

  // ------------------------------------------------------------------------------------- schemas

  /** Names that the generator accepts, with PascalCase names of their own. */
  predicate Accepted(s: Schema) {
    && (forall c :: c in s.all ==> IsName(c) && Unreserved(c))
    && (forall c, d :: c in s.all && d in s.all && PascalOf(c) == PascalOf(d) ==> c == d)
    && (forall c :: c in s.columns ==> c in s.all)
  }
}
