/**
  The shape of a request: the stream that feeds the hash of the plan cache key.  Every function puts the tokens of one
  node in front of the tokens `k` that follow it, so the walk is read from left to right.
 */
module Shape {
  import opened Common
  import opened Ir

  /** One write to the hash: a byte, a 64-bit word, a byte of a string, or a digest of map entries in any order. */
  datatype Token = Byte(b: int) | Word(w: int) | Char(c: char) | Digest(entries: seq<Entry>)

  /** A map entry: its key, and its own stream, which starts with the key. */
  datatype Entry = Entry(key: string, stream: seq<Token>)

  function PutByte(b: int, k: seq<Token>): seq<Token> { [Byte(b)] + k }

  function PutWord(w: int, k: seq<Token>): seq<Token> { [Word(w)] + k }

  function PutDigest(es: seq<Entry>, k: seq<Token>): seq<Token> { [Digest(es)] + k }

  function PutBool(v: bool, k: seq<Token>): seq<Token> { PutByte(if v then 1 else 0, k) }

  function PutChars(v: string, k: seq<Token>): seq<Token> { if v == [] then k else [Char(v[0])] + PutChars(v[1..], k) }

  function PutStr(v: string, k: seq<Token>): seq<Token> { PutWord(|v|, PutChars(v, k)) }

  function PutOptInt(p: Option<int>, k: seq<Token>): seq<Token> {
    if p.None? then PutByte(0, k) else PutByte(1, PutWord(p.value, k))
  }

  function PutWords(vs: seq<int>, k: seq<Token>): seq<Token> {
    if vs == [] then k else PutWord(vs[0], PutWords(vs[1..], k))
  }

  function PutInts(vs: seq<int>, k: seq<Token>): seq<Token> { PutWord(|vs|, PutWords(vs, k)) }

  function PutEach(vs: seq<string>, k: seq<Token>): seq<Token> {
    if vs == [] then k else PutStr(vs[0], PutEach(vs[1..], k))
  }

  function PutStrs(vs: seq<string>, k: seq<Token>): seq<Token> { PutWord(|vs|, PutEach(vs, k)) }

  function PutFn(f: Option<Func>, k: seq<Token>): seq<Token> {
    if f.None? then PutByte(0, k) else PutByte(1, PutStr(f.value.name, PutInts(f.value.ps, k)))
  }

  function PutSub(s: Option<Sub>, k: seq<Token>): seq<Token> {
    if s.None? then PutByte(0, k)
    else PutByte(1, PutQueryPtr(s.value.query, PutStr(s.value.column, PutStr(s.value.agg, k))))
  }

  function PutQueryPtr(q: Option<Query>, k: seq<Token>): seq<Token> {
    if q.None? then PutByte(0, k) else PutByte(1, PutQuery(q.value, k))
  }

  function ColFnEntries(fs: seq<ColFunc>): (r: seq<Entry>)
    ensures |r| == |fs|
  {
    if fs == [] then []
    else
      var stream := PutStr(fs[0].name, PutStr(fs[0].column, PutFn(Some(fs[0].fn), [])));
      [Entry(fs[0].name, stream)] + ColFnEntries(fs[1..])
  }

  function ColSubEntries(ss: seq<ColSub>): (r: seq<Entry>)
    ensures |r| == |ss|
  {
    if ss == [] then [] else [Entry(ss[0].name, PutStr(ss[0].name, PutSub(ss[0].sub, [])))] + ColSubEntries(ss[1..])
  }

  function PutColumns(c: Option<Columns>, k: seq<Token>): seq<Token> {
    if c.None? then PutByte(0, k)
    else PutByte(1, PutStr(c.value.mode, PutStrs(c.value.add, PutStrs(c.value.remove,
           PutWord(|c.value.fn|, PutDigest(ColFnEntries(c.value.fn),
           PutWord(|c.value.sub|, PutDigest(ColSubEntries(c.value.sub), k))))))))
  }

  function PutGroup(g: Option<Group>, k: seq<Token>): seq<Token> {
    if g.None? then PutByte(0, k)
    else PutByte(1, PutStr(g.value.conn, PutBool(g.value.not, PutWord(|g.value.items|, PutItems(g.value.items, k)))))
  }

  function PutItems(items: seq<Item>, k: seq<Token>): seq<Token> {
    if items == [] then k else PutItem(items[0], PutItems(items[1..], k))
  }

  function PutItem(it: Item, k: seq<Token>): seq<Token> {
    var rest := PutJoined(it.joined, PutGroup(it.group, k));
    if it.pred.None? then PutByte(0, rest) else PutByte(1, PutPred(it.pred.value, rest))
  }

  function PutJoined(j: Option<JoinedRef>, k: seq<Token>): seq<Token> {
    if j.None? then PutByte(0, k) else PutByte(1, PutStr(j.value.conn, PutStr(j.value.join, k)))
  }

  function PutPred(p: Pred, k: seq<Token>): seq<Token> {
    PutStr(p.conn, PutStr(p.column, PutStr(p.op, PutOptInt(p.p, PutInts(p.ps, PutRef(p.ref, PutFn(p.fn, PutFn(p.value,
      PutStrs(p.cols, PutSub(p.sub, k))))))))))
  }

  function PutRef(c: Option<ColRef>, k: seq<Token>): seq<Token> {
    if c.None? then PutByte(0, k) else PutByte(1, PutStr(c.value.path, PutStr(c.value.column, k)))
  }

  function PutJoins(js: seq<Option<Join>>, k: seq<Token>): seq<Token> {
    if js == [] then k else PutJoin(js[0], PutJoins(js[1..], k))
  }

  function PutJoin(j: Option<Join>, k: seq<Token>): seq<Token> {
    if j.None? then PutByte(0, k)
    else PutByte(1, PutStr(j.value.rel, PutStr(j.value.kind, PutStr(j.value.left, PutStr(j.value.right,
           PutQueryPtr(j.value.query, k))))))
  }

  function PutRelations(rs: seq<Option<Relation>>, k: seq<Token>): seq<Token> {
    if rs == [] then k else PutRelation(rs[0], PutRelations(rs[1..], k))
  }

  function PutRelation(r: Option<Relation>, k: seq<Token>): seq<Token> {
    if r.None? then PutByte(0, k)
    else PutByte(1, PutStr(r.value.rel, PutStr(r.value.kind, PutWord(|r.value.keys|, PutKeys(r.value.keys,
           PutQueryPtr(r.value.query, k))))))
  }

  function PutKeys(ks: seq<KeyPair>, k: seq<Token>): seq<Token> {
    if ks == [] then k else PutStr(ks[0].left, PutStr(ks[0].right, PutKeys(ks[1..], k)))
  }

  function PutOrders(os: seq<Order>, k: seq<Token>): seq<Token> {
    if os == [] then k
    else PutStr(os[0].column, PutBool(os[0].desc, PutBool(os[0].random, PutFn(os[0].fn, PutOrders(os[1..], k)))))
  }

  function PutLimit(l: Option<Limit>, k: seq<Token>): seq<Token> {
    if l.None? then PutByte(0, k)
    else PutByte(1, PutWord(l.value.offset,
      PutWord(l.value.count, PutOptInt(l.value.offsetP, PutOptInt(l.value.countP, k)))))
  }

  function PutIfParent(i: Option<IfParent>, k: seq<Token>): seq<Token> {
    if i.None? then PutByte(0, k) else PutByte(1, PutStr(i.value.column, PutWord(i.value.p, k)))
  }

  function PutQuery(q: Query, k: seq<Token>): seq<Token>
    decreases q, 2
  {
    PutStr(q.entity, PutColumns(q.columns, PutFilters(q, k)))
  }

  function PutFilters(q: Query, k: seq<Token>): seq<Token>
    decreases q, 1
  {
    PutGroup(q.on, PutGroup(q.where, PutBranches(q, k)))
  }

  function PutBranches(q: Query, k: seq<Token>): seq<Token>
    decreases q, 0
  {
    PutWord(|q.joins|, PutJoins(q.joins, PutWord(|q.relations|, PutRelations(q.relations, PutTail(q, k)))))
  }

  function PutTail(q: Query, k: seq<Token>): seq<Token> {
    PutWord(|q.order|, PutOrders(q.order, PutStrs(q.groupBy, PutLimit(q.limit, PutOptions(q.options, q.ifParent, k)))))
  }

  function PutOptions(o: Options, i: Option<IfParent>, k: seq<Token>): seq<Token> {
    PutStr(o.forceIdx, PutStr(o.lock, PutStr(o.keyBy, PutBool(o.flatten, PutWord(o.limitPerParent,
      PutIfParent(i, PutBool(o.noCascadeDelete, k)))))))
  }

  function PutAssigns(s: seq<Assign>, k: seq<Token>): seq<Token> {
    if s == [] then k
    else PutStr(s[0].column, PutOptInt(s[0].p, PutBool(s[0].isNull, PutOptInt(s[0].plusP, PutOptInt(s[0].minusP,
           PutAssigns(s[1..], k))))))
  }

  function PutRows(rows: seq<seq<int>>, k: seq<Token>): seq<Token> {
    if rows == [] then k else PutInts(rows[0], PutRows(rows[1..], k))
  }

  function PutOptimist(o: Option<Optimist>, k: seq<Token>): seq<Token> {
    if o.None? then PutByte(0, k) else PutByte(1, PutStr(o.value.column, PutWord(o.value.p, k)))
  }

  function PutRequest(r: Request, k: seq<Token>): seq<Token> {
    PutWord(r.irVersion, PutStr(r.manifestHash, PutStr(r.kind, PutBool(r.load, PutQuery(r.query, PutWrites(r, k))))))
  }

  function PutWrites(r: Request, k: seq<Token>): seq<Token> {
    PutWord(|r.sets|, PutAssigns(r.sets, PutWord(|r.onDuplicate|, PutAssigns(r.onDuplicate, PutOptimist(r.optimistic,
      PutStr(r.agg, PutWord(r.nParams, PutWord(|r.rows|, PutRows(r.rows, k)))))))))
  }

  // ------------------------------------------------------------------------------------- bytes

  /** The sum of the hashes of the entries, which does not depend on their order. */
  type Summer = multiset<seq<int>> -> int

  const WORDS := 0x1_0000_0000_0000_0000

  /** The n low bytes of u, the lowest first. */
  function LowBytes(u: nat, n: nat): (r: seq<int>)
    ensures |r| == n
  {
    if n == 0 then [] else [u % 256] + LowBytes(u / 256, n - 1)
  }

  /** A 64-bit word in two's complement, the low byte first. */
  function WordBytes(w: int): (r: seq<int>)
    ensures |r| == 8
  {
    LowBytes(w % WORDS, 8)
  }

  function TokenBytes(t: Token, sum: Summer): seq<int> {
    match t
    case Byte(b) => [b]
    case Word(w) => WordBytes(w)
    case Char(c) => [c as int]
    case Digest(es) => WordBytes(sum(EntryBytes(es, sum)))
  }

  function EntryBytes(es: seq<Entry>, sum: Summer): (r: multiset<seq<int>>)
    ensures |r| == |es|
  {
    if es == [] then multiset{} else multiset{Stream(es[0].stream, sum)} + EntryBytes(es[1..], sum)
  }

  /** The bytes that reach the hash. */
  function Stream(ts: seq<Token>, sum: Summer): seq<int> {
    if ts == [] then [] else TokenBytes(ts[0], sum) + Stream(ts[1..], sum)
  }

  predicate Ordered(es: seq<Entry>) {
    forall i, j :: 0 <= i < j < |es| ==> Less(es[i].key, es[j].key)
  }

  /** Numbers fit in 64 bits, strings hold bytes, and a map lists each key once, in order. */
  predicate Fits(t: Token, sum: Summer) {
    match t
    case Byte(b) => true
    case Word(w) => -MOST - 1 <= w <= MOST
    case Char(c) => c as int < 256
    case Digest(es) => Ordered(es) && 0 <= sum(EntryBytes(es, sum)) < WORDS && forall i :: 0 <= i < |es| ==>
      AllFit(es[i].stream, sum)
  }

  predicate AllFit(ts: seq<Token>, sum: Summer) {
    forall i :: 0 <= i < |ts| ==> Fits(ts[i], sum)
  }
}
