/**
  The walk that feeds the bytes of a request to the hash, and the plan cache that is keyed by the result.
 */
module PlanCache {
  import opened Common
  import opened Ir
  import opened Shape
  import opened ShapeUnique

  /** `fed` stands for the hash state: the bytes folded into it so far. */
  class Hasher {
    const sum: Summer
    var fed: seq<int>

    constructor (sum: Summer)
      ensures this.sum == sum && fed == []
    {
      this.sum, this.fed := sum, [];
    }

    method FeedByte(b: int)
      modifies this
      ensures forall k :: fed + Stream(k, sum) == old(fed) + Stream(PutByte(b, k), sum)
    {
      fed := fed + [b];
      forall k ensures fed + Stream(k, sum) == old(fed) + Stream(PutByte(b, k), sum) {
        Uncons(Byte(b), k, sum);
        assert old(fed) + ([b] + Stream(k, sum)) == old(fed) + [b] + Stream(k, sum);
      }
    }

    method FeedLow(v: nat)
      modifies this
      ensures fed == old(fed) + LowBytes(v, 8)
    {
      var u := v;
      for i := 0 to 8
        invariant fed + LowBytes(u, 8 - i) == old(fed) + LowBytes(v, 8)
      {
        assert fed + LowBytes(u, 8 - i) == fed + [u % 256] + LowBytes(u / 256, 7 - i);
        fed := fed + [u % 256];
        u := u / 256;
      }
    }

    method FeedInt(w: int)
      modifies this
      ensures forall k :: fed + Stream(k, sum) == old(fed) + Stream(PutWord(w, k), sum)
    {
      FeedLow(w % WORDS);
      forall k ensures fed + Stream(k, sum) == old(fed) + Stream(PutWord(w, k), sum) {
        Uncons(Word(w), k, sum);
        assert old(fed) + (WordBytes(w) + Stream(k, sum)) == old(fed) + WordBytes(w) + Stream(k, sum);
      }
    }

    method FeedBool(v: bool)
      modifies this
      ensures forall k :: fed + Stream(k, sum) == old(fed) + Stream(PutBool(v, k), sum)
    {
      hide PutByte;
      if v { FeedByte(1); } else { FeedByte(0); }
    }

    method FeedStr(v: string)
      modifies this
      ensures forall k :: fed + Stream(k, sum) == old(fed) + Stream(PutStr(v, k), sum)
    {
      hide PutWord;
      FeedInt(|v|);
      label L:
      for i := 0 to |v|
        invariant forall k :: fed + Stream(PutChars(v[i..], k), sum) == old@L(fed) + Stream(PutChars(v, k), sum)
      {
        ghost var was := fed;
        fed := fed + [v[i] as int];
        forall k ensures fed + Stream(PutChars(v[i + 1..], k), sum) == old@L(fed) + Stream(PutChars(v, k), sum) {
          assert v[i..][1..] == v[i + 1..];
          Uncons(Char(v[i]), PutChars(v[i + 1..], k), sum);
          assert was + ([v[i] as int] + Stream(PutChars(v[i + 1..], k), sum)) ==
                 fed + Stream(PutChars(v[i + 1..], k), sum);
        }
      }
      assert v[|v|..] == [];
    }

    method FeedOptInt(p: Option<int>)
      modifies this
      ensures forall k :: fed + Stream(k, sum) == old(fed) + Stream(PutOptInt(p, k), sum)
    {
      hide PutByte, PutWord;
      if p.None? { FeedByte(0); return; }
      FeedByte(1);
      FeedInt(p.value);
    }

    method FeedInts(vs: seq<int>)
      modifies this
      ensures forall k :: fed + Stream(k, sum) == old(fed) + Stream(PutInts(vs, k), sum)
    {
      hide Stream, PutWord;
      FeedInt(|vs|);
      label L:
      for i := 0 to |vs|
        invariant forall k :: fed + Stream(PutWords(vs[i..], k), sum) == old@L(fed) + Stream(PutWords(vs, k), sum)
      {
        assert vs[i..][0] == vs[i] && vs[i..][1..] == vs[i + 1..];
        FeedInt(vs[i]);
      }
      assert vs[|vs|..] == [];
    }

    method FeedStrs(vs: seq<string>)
      modifies this
      ensures forall k :: fed + Stream(k, sum) == old(fed) + Stream(PutStrs(vs, k), sum)
    {
      hide Stream, PutWord, PutStr;
      FeedInt(|vs|);
      label L:
      for i := 0 to |vs|
        invariant forall k :: fed + Stream(PutEach(vs[i..], k), sum) == old@L(fed) + Stream(PutEach(vs, k), sum)
      {
        assert vs[i..][0] == vs[i] && vs[i..][1..] == vs[i + 1..];
        FeedStr(vs[i]);
      }
      assert vs[|vs|..] == [];
    }

    method FeedFn(f: Option<Func>)
      modifies this
      ensures forall k :: fed + Stream(k, sum) == old(fed) + Stream(PutFn(f, k), sum)
    {
      hide Stream, PutByte, PutStr, PutInts;
      if f.None? { FeedByte(0); return; }
      FeedByte(1);
      FeedStr(f.value.name);
      FeedInts(f.value.ps);
    }

    method FeedSub(s: Option<Sub>)
      modifies this
      ensures forall k :: fed + Stream(k, sum) == old(fed) + Stream(PutSub(s, k), sum)
      decreases s
    {
      hide Stream, PutByte, PutStr, PutQueryPtr;
      if s.None? { FeedByte(0); return; }
      FeedByte(1);
      FeedQueryPtr(s.value.query);
      FeedStr(s.value.column);
      FeedStr(s.value.agg);
    }

    method FeedQueryPtr(q: Option<Query>)
      modifies this
      ensures forall k :: fed + Stream(k, sum) == old(fed) + Stream(PutQueryPtr(q, k), sum)
      decreases q
    {
      hide Stream, PutByte, PutQuery;
      if q.None? { FeedByte(0); return; }
      FeedByte(1);
      FeedQuery(q.value);
    }

    /** Feeds the digest of the entries whose streams were collected. */
    method FeedDigest(ghost es: seq<Entry>, streams: multiset<seq<int>>)
      requires streams == EntryBytes(es, sum)
      modifies this
      ensures forall k :: fed + Stream(k, sum) == old(fed) + Stream(PutDigest(es, k), sum)
    {
      hide EntryBytes, LowBytes;
      var total := sum(streams);
      FeedLow(total % WORDS);
      ghost var w := WordBytes(total);
      assert fed == old(fed) + w;
      forall k ensures fed + Stream(k, sum) == old(fed) + Stream(PutDigest(es, k), sum) {
        DigestStream(es, k, sum);
        assert old(fed) + (w + Stream(k, sum)) == old(fed) + w + Stream(k, sum);
      }
    }

    /** The streams of the entries of a map, each walked by a hasher of its own. */
    method ColFnStreams(fs: seq<ColFunc>) returns (streams: multiset<seq<int>>)
      ensures streams == EntryBytes(ColFnEntries(fs), sum)
    {
      hide Stream, PutStr, PutFn, EntryBytes;
      streams := multiset{};
      for i := 0 to |fs|
        invariant streams + EntryBytes(ColFnEntries(fs[i..]), sum) == EntryBytes(ColFnEntries(fs), sum)
      {
        assert fs[i..][0] == fs[i] && fs[i..][1..] == fs[i + 1..];
        var e := new Hasher(sum);
        e.FeedStr(fs[i].name);
        e.FeedStr(fs[i].column);
        e.FeedFn(Some(fs[i].fn));
        ghost var ts := PutStr(fs[i].name, PutStr(fs[i].column, PutFn(Some(fs[i].fn), [])));
        assert e.fed + Stream([], sum) == [] + Stream(ts, sum);
        EmptyStream(sum);
        assert e.fed + [] == e.fed && [] + Stream(ts, sum) == Stream(ts, sum);
        EntryStep(ColFnEntries(fs[i..]), sum);
        streams := streams + multiset{e.fed};
      }
      EntryEnd(sum);
    }

    method ColSubStreams(ss: seq<ColSub>) returns (streams: multiset<seq<int>>)
      ensures streams == EntryBytes(ColSubEntries(ss), sum)
      decreases ss
    {
      hide Stream, PutStr, PutSub, EntryBytes;
      streams := multiset{};
      for i := 0 to |ss|
        invariant streams + EntryBytes(ColSubEntries(ss[i..]), sum) == EntryBytes(ColSubEntries(ss), sum)
      {
        assert ss[i..][0] == ss[i] && ss[i..][1..] == ss[i + 1..];
        var e := new Hasher(sum);
        e.FeedStr(ss[i].name);
        e.FeedSub(ss[i].sub);
        ghost var ts := PutStr(ss[i].name, PutSub(ss[i].sub, []));
        assert e.fed + Stream([], sum) == [] + Stream(ts, sum);
        EmptyStream(sum);
        assert e.fed + [] == e.fed && [] + Stream(ts, sum) == Stream(ts, sum);
        EntryStep(ColSubEntries(ss[i..]), sum);
        streams := streams + multiset{e.fed};
      }
      EntryEnd(sum);
    }

    method FeedColumns(c: Option<Columns>)
      modifies this
      ensures forall k :: fed + Stream(k, sum) == old(fed) + Stream(PutColumns(c, k), sum)
      decreases c
    {
      hide Stream, PutByte, PutWord, PutStr, PutStrs, PutDigest, ColFnEntries, ColSubEntries, EntryBytes;
      if c.None? { FeedByte(0); return; }
      FeedByte(1);
      FeedStr(c.value.mode);
      FeedStrs(c.value.add);
      FeedStrs(c.value.remove);
      FeedInt(|c.value.fn|);
      var fns := ColFnStreams(c.value.fn);
      FeedDigest(ColFnEntries(c.value.fn), fns);
      FeedInt(|c.value.sub|);
      var subs := ColSubStreams(c.value.sub);
      FeedDigest(ColSubEntries(c.value.sub), subs);
    }

    method FeedGroup(g: Option<Group>)
      modifies this
      ensures forall k :: fed + Stream(k, sum) == old(fed) + Stream(PutGroup(g, k), sum)
      decreases g
    {
      hide Stream, PutByte, PutWord, PutBool, PutStr, PutItem;
      if g.None? { FeedByte(0); return; }
      FeedByte(1);
      FeedStr(g.value.conn);
      FeedBool(g.value.not);
      var items := g.value.items;
      FeedInt(|items|);
      label L:
      for i := 0 to |items|
        invariant forall k :: fed + Stream(PutItems(items[i..], k), sum) == old@L(fed) + Stream(PutItems(items, k), sum)
      {
        assert items[i..][0] == items[i] && items[i..][1..] == items[i + 1..];
        FeedItem(items[i]);
      }
      assert items[|items|..] == [];
    }

    method FeedItem(it: Item)
      modifies this
      ensures forall k :: fed + Stream(k, sum) == old(fed) + Stream(PutItem(it, k), sum)
      decreases it
    {
      hide Stream, PutByte, PutStr, PutPred, PutGroup;
      if it.pred.None? {
        FeedByte(0);
      } else {
        FeedByte(1);
        FeedPred(it.pred.value);
      }
      if it.joined.None? {
        FeedByte(0);
      } else {
        FeedByte(1);
        FeedStr(it.joined.value.conn);
        FeedStr(it.joined.value.join);
      }
      FeedGroup(it.group);
    }

    method FeedPred(p: Pred)
      modifies this
      ensures forall k :: fed + Stream(k, sum) == old(fed) + Stream(PutPred(p, k), sum)
      decreases p
    {
      hide Stream, PutByte, PutStr, PutOptInt, PutInts, PutFn, PutStrs, PutSub;
      FeedStr(p.conn);
      FeedStr(p.column);
      FeedStr(p.op);
      FeedOptInt(p.p);
      FeedInts(p.ps);
      if p.ref.None? {
        FeedByte(0);
      } else {
        FeedByte(1);
        FeedStr(p.ref.value.path);
        FeedStr(p.ref.value.column);
      }
      FeedFn(p.fn);
      FeedFn(p.value);
      FeedStrs(p.cols);
      FeedSub(p.sub);
    }

    method FeedJoin(j: Option<Join>)
      modifies this
      ensures forall k :: fed + Stream(k, sum) == old(fed) + Stream(PutJoin(j, k), sum)
      decreases j
    {
      hide Stream, PutByte, PutStr, PutQueryPtr;
      if j.None? { FeedByte(0); return; }
      FeedByte(1);
      FeedStr(j.value.rel);
      FeedStr(j.value.kind);
      FeedStr(j.value.left);
      FeedStr(j.value.right);
      FeedQueryPtr(j.value.query);
    }

    method FeedJoins(js: seq<Option<Join>>)
      modifies this
      ensures forall k :: fed + Stream(k, sum) == old(fed) + Stream(PutWord(|js|, PutJoins(js, k)), sum)
      decreases js
    {
      hide Stream, PutWord, PutJoin;
      FeedInt(|js|);
      label L:
      for i := 0 to |js|
        invariant forall k :: fed + Stream(PutJoins(js[i..], k), sum) == old@L(fed) + Stream(PutJoins(js, k), sum)
      {
        assert js[i..][0] == js[i] && js[i..][1..] == js[i + 1..];
        FeedJoin(js[i]);
      }
      assert js[|js|..] == [];
    }

    method FeedKeys(ks: seq<KeyPair>)
      modifies this
      ensures forall k :: fed + Stream(k, sum) == old(fed) + Stream(PutWord(|ks|, PutKeys(ks, k)), sum)
    {
      hide Stream, PutWord, PutStr;
      FeedInt(|ks|);
      label L:
      for i := 0 to |ks|
        invariant forall k :: fed + Stream(PutKeys(ks[i..], k), sum) == old@L(fed) + Stream(PutKeys(ks, k), sum)
      {
        assert ks[i..][0] == ks[i] && ks[i..][1..] == ks[i + 1..];
        FeedStr(ks[i].left);
        FeedStr(ks[i].right);
      }
      assert ks[|ks|..] == [];
    }

    method FeedRelation(r: Option<Relation>)
      modifies this
      ensures forall k :: fed + Stream(k, sum) == old(fed) + Stream(PutRelation(r, k), sum)
      decreases r
    {
      hide Stream, PutByte, PutWord, PutStr, PutKeys, PutQueryPtr;
      if r.None? { FeedByte(0); return; }
      FeedByte(1);
      FeedStr(r.value.rel);
      FeedStr(r.value.kind);
      FeedKeys(r.value.keys);
      FeedQueryPtr(r.value.query);
    }

    method FeedRelations(rs: seq<Option<Relation>>)
      modifies this
      ensures forall k :: fed + Stream(k, sum) == old(fed) + Stream(PutWord(|rs|, PutRelations(rs, k)), sum)
      decreases rs
    {
      hide Stream, PutWord, PutRelation;
      FeedInt(|rs|);
      label L:
      for i := 0 to |rs|
        invariant forall k ::
                    fed + Stream(PutRelations(rs[i..], k), sum) == old@L(fed) + Stream(PutRelations(rs, k), sum)
      {
        assert rs[i..][0] == rs[i] && rs[i..][1..] == rs[i + 1..];
        FeedRelation(rs[i]);
      }
      assert rs[|rs|..] == [];
    }

    method FeedOrders(os: seq<Order>)
      modifies this
      ensures forall k :: fed + Stream(k, sum) == old(fed) + Stream(PutWord(|os|, PutOrders(os, k)), sum)
    {
      hide Stream, PutWord, PutStr, PutBool, PutFn;
      FeedInt(|os|);
      label L:
      for i := 0 to |os|
        invariant forall k :: fed + Stream(PutOrders(os[i..], k), sum) == old@L(fed) + Stream(PutOrders(os, k), sum)
      {
        assert os[i..][0] == os[i] && os[i..][1..] == os[i + 1..];
        FeedStr(os[i].column);
        FeedBool(os[i].desc);
        FeedBool(os[i].random);
        FeedFn(os[i].fn);
      }
      assert os[|os|..] == [];
    }

    method FeedLimit(l: Option<Limit>)
      modifies this
      ensures forall k :: fed + Stream(k, sum) == old(fed) + Stream(PutLimit(l, k), sum)
    {
      hide Stream, PutByte, PutWord, PutOptInt;
      if l.None? { FeedByte(0); return; }
      FeedByte(1);
      FeedInt(l.value.offset);
      FeedInt(l.value.count);
      FeedOptInt(l.value.offsetP);
      FeedOptInt(l.value.countP);
    }

    method FeedOptions(o: Options, ip: Option<IfParent>)
      modifies this
      ensures forall k :: fed + Stream(k, sum) == old(fed) + Stream(PutOptions(o, ip, k), sum)
    {
      hide Stream, PutByte, PutWord, PutBool, PutStr;
      FeedStr(o.forceIdx);
      FeedStr(o.lock);
      FeedStr(o.keyBy);
      FeedBool(o.flatten);
      FeedInt(o.limitPerParent);
      if ip.None? {
        FeedByte(0);
      } else {
        FeedByte(1);
        FeedStr(ip.value.column);
        FeedInt(ip.value.p);
      }
      FeedBool(o.noCascadeDelete);
    }

    method FeedQuery(q: Query)
      modifies this
      ensures forall k :: fed + Stream(k, sum) == old(fed) + Stream(PutQuery(q, k), sum)
      decreases q, 2
    {
      hide Stream, PutStr, PutColumns, PutFilters;
      FeedStr(q.entity);
      FeedColumns(q.columns);
      FeedFilters(q);
    }

    method FeedFilters(q: Query)
      modifies this
      ensures forall k :: fed + Stream(k, sum) == old(fed) + Stream(PutFilters(q, k), sum)
      decreases q, 1
    {
      hide Stream, PutGroup, PutBranches;
      FeedGroup(q.on);
      FeedGroup(q.where);
      FeedBranches(q);
    }

    method FeedBranches(q: Query)
      modifies this
      ensures forall k :: fed + Stream(k, sum) == old(fed) + Stream(PutBranches(q, k), sum)
      decreases q, 0
    {
      hide Stream, PutWord, PutJoins, PutRelations, PutTail;
      FeedJoins(q.joins);
      FeedRelations(q.relations);
      FeedTail(q);
    }

    method FeedTail(q: Query)
      modifies this
      ensures forall k :: fed + Stream(k, sum) == old(fed) + Stream(PutTail(q, k), sum)
    {
      hide Stream, PutWord, PutOrders, PutStrs, PutLimit, PutOptions;
      FeedOrders(q.order);
      FeedStrs(q.groupBy);
      FeedLimit(q.limit);
      FeedOptions(q.options, q.ifParent);
    }

    method FeedAssigns(assigns: seq<Assign>)
      modifies this
      ensures forall k :: fed + Stream(k, sum) == old(fed) + Stream(PutWord(|assigns|, PutAssigns(assigns, k)), sum)
    {
      hide Stream, PutWord, PutStr, PutBool, PutOptInt;
      FeedInt(|assigns|);
      label L:
      for i := 0 to |assigns|
        invariant forall k ::
                    fed + Stream(PutAssigns(assigns[i..], k), sum) == old@L(fed) + Stream(PutAssigns(assigns, k), sum)
      {
        assert assigns[i..][0] == assigns[i] && assigns[i..][1..] == assigns[i + 1..];
        FeedStr(assigns[i].column);
        FeedOptInt(assigns[i].p);
        FeedBool(assigns[i].isNull);
        FeedOptInt(assigns[i].plusP);
        FeedOptInt(assigns[i].minusP);
      }
      assert assigns[|assigns|..] == [];
    }

    method FeedRows(rows: seq<seq<int>>)
      modifies this
      ensures forall k :: fed + Stream(k, sum) == old(fed) + Stream(PutWord(|rows|, PutRows(rows, k)), sum)
    {
      hide Stream, PutWord, PutInts;
      FeedInt(|rows|);
      label L:
      for i := 0 to |rows|
        invariant forall k :: fed + Stream(PutRows(rows[i..], k), sum) == old@L(fed) + Stream(PutRows(rows, k), sum)
      {
        assert rows[i..][0] == rows[i] && rows[i..][1..] == rows[i + 1..];
        FeedInts(rows[i]);
      }
      assert rows[|rows|..] == [];
    }

    method FeedRequest(r: Request)
      modifies this
      ensures forall k :: fed + Stream(k, sum) == old(fed) + Stream(PutRequest(r, k), sum)
    {
      hide Stream, PutByte, PutWord, PutBool, PutStr, PutQuery, PutAssigns, PutRows;
      FeedInt(r.irVersion);
      FeedStr(r.manifestHash);
      FeedStr(r.kind);
      FeedBool(r.load);
      FeedQuery(r.query);
      FeedAssigns(r.sets);
      FeedAssigns(r.onDuplicate);
      if r.optimistic.None? {
        FeedByte(0);
      } else {
        FeedByte(1);
        FeedStr(r.optimistic.value.column);
        FeedInt(r.optimistic.value.p);
      }
      FeedStr(r.agg);
      FeedInt(r.nParams);
      FeedRows(r.rows);
    }
  }

  lemma EmptyStream(sum: Summer)
    ensures Stream([], sum) == []
  {
  }

  lemma DigestStream(es: seq<Entry>, k: seq<Token>, sum: Summer)
    ensures Stream(PutDigest(es, k), sum) == WordBytes(sum(EntryBytes(es, sum))) + Stream(k, sum)
  {
    hide Stream;
    Uncons(Digest(es), k, sum);
  }

  lemma EntryEnd(sum: Summer)
    ensures EntryBytes([], sum) == multiset{}
  {
  }

  lemma EntryStep(es: seq<Entry>, sum: Summer)
    requires es != []
    ensures EntryBytes(es, sum) == multiset{Stream(es[0].stream, sum)} + EntryBytes(es[1..], sum)
  {
  }

  // ------------------------------------------------------------------------------------- the cache

  /** The cache key of a request: the hash of its bytes. */
  function KeyOf(r: Request, hash: seq<int> -> int, sum: Summer): int { hash(Stream(PutRequest(r, []), sum)) }

  method ShapeKey(r: Request, hash: seq<int> -> int, sum: Summer) returns (key: int)
    ensures key == KeyOf(r, hash, sum)
  {
    hide Stream, PutRequest;
    var s := new Hasher(sum);
    s.FeedRequest(r);
    ghost var bytes := Stream(PutRequest(r, []), sum);
    assert s.fed + Stream([], sum) == [] + bytes;
    EmptyStream(sum);
    assert s.fed + [] == s.fed && [] + bytes == bytes;
    return hash(s.fed);
  }

  /** The requests of one process: they fit in machine words, and the hash separates their byte streams. */
  ghost predicate Universe(all: iset<Request>, hash: seq<int> -> int, sum: Summer) {
    && Separates(sum)
    && (forall r :: r in all ==> AllFit(PutRequest(r, []), sum))
    && (forall x, y :: x in all && y in all && KeyOf(x, hash, sum) == KeyOf(y, hash, sum)
          ==> Stream(PutRequest(x, []), sum) == Stream(PutRequest(y, []), sum))
  }

  /** In such a process a key belongs to one request. */
  lemma KeyDeterminesRequest(x: Request, y: Request, all: iset<Request>, hash: seq<int> -> int, sum: Summer)
    requires Universe(all, hash, sum) && x in all && y in all
    ensures KeyOf(x, hash, sum) == KeyOf(y, hash, sum) <==> x == y
  {
    hide AllFit, Stream, PutRequest, Separates;
    StreamDeterminesRequest(x, y, sum);
  }

  /** Any two requests that fit make such a process, with a hash that tells them apart. */
  lemma TwoRequests(x: Request, y: Request, sum: Summer)
    requires Separates(sum) && AllFit(PutRequest(x, []), sum) && AllFit(PutRequest(y, []), sum)
    ensures Universe(iset{x, y}, (s: seq<int>) => if s == Stream(PutRequest(x, []), sum) then 1 else 0, sum)
  {
    hide AllFit, Stream, PutRequest, Separates;
  }

  // A process of two requests that differ in a map of column functions.

  function ColFn(name: string): seq<ColFunc> { [ColFunc(name, "c", Func("f", []))] }

  function Mapped(name: string): Request {
    Request(1, "", "", Query("", Some(Columns("", [], [], ColFn(name), [])), None, None, [], [], [], [], None,
                             Options("", "", "", false, 0, false), None),
            false, [], [], [], None, "", 0)
  }

  predicate NoDigest(ts: seq<Token>) {
    forall i :: 0 <= i < |ts| ==> !ts[i].Digest?
  }

  /** A stream without a digest does not depend on the sum. */
  lemma {:induction false} AnySum(ts: seq<Token>, a: Summer, b: Summer)
    requires NoDigest(ts)
    ensures Stream(ts, a) == Stream(ts, b)
    decreases |ts|
  {
    if ts != [] { AnySum(ts[1..], a, b); }
  }

  const ZERO: Summer := (m: multiset<seq<int>>) => 0

  /** The bytes of the entry of a map. */
  function EntryOf(name: string): multiset<seq<int>> { EntryBytes(ColFnEntries(ColFn(name)), ZERO) }

  /** A sum that numbers the entries that occur. */
  function Numbers(x: string, y: string): Summer {
    (m: multiset<seq<int>>) =>
      if m == multiset{} then 0 else if m == EntryOf(x) then 1 else if m == EntryOf(y) then 2 else -1
  }

  lemma EntryStream(name: string) returns (ts: seq<Token>)
    requires |name| <= MOST && forall i :: 0 <= i < |name| ==> name[i] as int < 256
    ensures ColFnEntries(ColFn(name)) == [Entry(name, ts)] && NoDigest(ts)
    ensures forall sum: Summer :: AllFit(ts, sum)
  {
    ts := PutStr(name, PutStr("c", PutFn(Some(Func("f", [])), [])));
    var fs := ColFn(name);
    assert fs[1..] == [];
    assert ColFnEntries(fs) == [Entry(name, ts)] + ColFnEntries(fs[1..]);
    CharsPlain("f", PutInts([], []));
    CharsPlain("c", PutFn(Some(Func("f", [])), []));
    CharsPlain(name, PutStr("c", PutFn(Some(Func("f", [])), [])));
  }

  predicate Plain(ts: seq<Token>) {
    forall i :: 0 <= i < |ts| ==> match ts[i] case Digest(_) => false case Word(w) => 0 <= w <= MOST
                                    case Char(c) => c as int < 256 case Byte(_) => true
  }

  lemma {:induction false} CharsPlain(v: string, k: seq<Token>)
    requires Plain(k) && |v| <= MOST && forall i :: 0 <= i < |v| ==> v[i] as int < 256
    ensures Plain(PutChars(v, k)) && Plain(PutStr(v, k))
    decreases |v|
  {
    if v != [] { CharsPlain(v[1..], k); }
  }

  /** The digest of the map fits. */
  lemma DigestFits(name: string, x: string, y: string)
    requires |name| <= MOST && (forall i :: 0 <= i < |name| ==> name[i] as int < 256) && (name == x || name == y)
    ensures Fits(Digest(ColFnEntries(ColFn(name))), Numbers(x, y))
  {
    var sum := Numbers(x, y);
    var ts := EntryStream(name);
    var es := [Entry(name, ts)];
    assert es[1..] == [];
    AnySum(ts, sum, ZERO);
    assert EntryBytes(es, sum) == EntryBytes(es, ZERO);
  }

  lemma FitsInFront(sum: Summer)
    ensures forall w, k :: 0 <= w <= MOST && AllFit(k, sum) ==> AllFit(PutWord(w, k), sum)
    ensures forall b, k :: AllFit(k, sum) ==> AllFit(PutByte(b, k), sum)
    ensures forall k :: AllFit(k, sum) ==> AllFit(PutStr("", k), sum) && AllFit(PutStrs([], k), sum)
    ensures forall es, k :: Fits(Digest(es), sum) && AllFit(k, sum) ==> AllFit(PutDigest(es, k), sum)
    ensures AllFit([], sum)
  {
  }

  lemma MappedFits(name: string, sum: Summer)
    requires Fits(Digest(ColFnEntries(ColFn(name))), sum) && Fits(Digest(ColSubEntries([])), sum)
    ensures AllFit(PutRequest(Mapped(name), []), sum)
  {
    hide AllFit, Fits, PutByte, PutWord, PutStr, PutStrs, PutDigest, PutWrites, PutQuery, ColFnEntries, ColSubEntries;
    FitsInFront(sum);
    MappedQuery(name, sum);
  }

  lemma MappedQuery(name: string, sum: Summer)
    requires Fits(Digest(ColFnEntries(ColFn(name))), sum) && Fits(Digest(ColSubEntries([])), sum)
    ensures AllFit(PutQuery(Mapped(name).query, PutWrites(Mapped(name), [])), sum)
  {
    hide AllFit, Fits, PutByte, PutWord, PutStr, PutStrs, PutDigest, PutWrites, PutColumns, PutFilters;
    FitsInFront(sum);
    MappedWrites(name, sum);
    var q, k := Mapped(name).query, PutWrites(Mapped(name), []);
    MappedFilters(q, k, sum);
    MappedColumns(q.columns.value, PutFilters(q, k), sum);
  }

  lemma MappedColumns(c: Columns, k: seq<Token>, sum: Summer)
    requires c.mode == "" && c.add == [] && c.remove == [] && |c.fn| <= MOST && |c.sub| <= MOST && AllFit(k, sum)
    requires Fits(Digest(ColFnEntries(c.fn)), sum) && Fits(Digest(ColSubEntries(c.sub)), sum)
    ensures AllFit(PutColumns(Some(c), k), sum)
  {
    hide AllFit, Fits, PutByte, PutWord, PutStr, PutStrs, PutDigest, ColFnEntries, ColSubEntries;
    FitsInFront(sum);
  }

  lemma MappedFilters(q: Query, k: seq<Token>, sum: Summer)
    requires q.on.None? && q.where.None? && q.joins == [] && q.relations == [] && q.order == [] && q.groupBy == []
    requires q.limit.None? && q.ifParent.None? && q.options == Options("", "", "", false, 0, false) && AllFit(k, sum)
    ensures AllFit(PutFilters(q, k), sum)
  {
    hide AllFit, PutByte, PutWord, PutStr, PutStrs;
    FitsInFront(sum);
    assert AllFit(PutOptions(q.options, q.ifParent, k), sum);
    assert AllFit(PutTail(q, k), sum);
    assert PutJoins([], PutWord(0, PutTail(q, k))) == PutWord(0, PutTail(q, k));
    assert PutRelations([], PutTail(q, k)) == PutTail(q, k);
    assert AllFit(PutBranches(q, k), sum);
  }

  lemma MappedWrites(name: string, sum: Summer)
    ensures AllFit(PutWrites(Mapped(name), []), sum)
  {
    hide AllFit, PutByte, PutWord, PutStr, PutStrs, ColFn;
    FitsInFront(sum);
  }

  /** The hypotheses on a process can be met by requests with maps. */
  lemma SampleUniverse()
    ensures Mapped("a") != Mapped("b")
    ensures exists hash, sum :: Universe(iset{Mapped("a"), Mapped("b")}, hash, sum)
  {
    hide AllFit, PutRequest, Universe, Fits, Mapped, Separates, Numbers, ColFnEntries, ColSubEntries;
    var sum := Numbers("a", "b");
    DigestFits("a", "a", "b");
    DigestFits("b", "a", "b");
    NoEntriesFit("a", "b");
    MappedFits("a", sum);
    MappedFits("b", sum);
    NumbersSeparate("a", "b");
    TwoRequests(Mapped("a"), Mapped("b"), sum);
    MappedDiffer("a", "b");
  }

  lemma NumbersSeparate(x: string, y: string)
    ensures Separates(Numbers(x, y))
  {
    hide EntryOf;
  }

  lemma MappedDiffer(x: string, y: string)
    requires x != y
    ensures Mapped(x) != Mapped(y)
  {
    assert ColFn(x)[0].name == x && ColFn(y)[0].name == y;
  }

  lemma NoEntriesFit(x: string, y: string)
    ensures Fits(Digest(ColSubEntries([])), Numbers(x, y))
  {
  }

  predicate Distinct(s: seq<int>) {
    forall i, j :: 0 <= i < j < |s| ==> s[i] != s[j]
  }

  /** Compiled plans by key; `order` lists the keys in the order in which they were stored. */
  class Cache<P> {
    const size: int
    const hash: seq<int> -> int
    const sum: Summer
    const compile: Request -> Option<P>
    ghost const all: iset<Request>
    var plans: map<int, P>
    var order: seq<int>

    /** A configuration with a size below one is refused before the cache exists. */
    constructor (size: int, hash: seq<int> -> int, sum: Summer, compile: Request -> Option<P>, ghost all: iset<Request>)
      requires size >= 1 && Universe(all, hash, sum)
      ensures Valid() && this.all == all && this.compile == compile && this.sum == sum && this.hash == hash
    {
      this.size, this.hash, this.sum, this.compile, this.all := size, hash, sum, compile, all;
      plans, order := map[], [];
    }

    /** Every cached plan was compiled from a request with its key; the order lists every cached key once. */
    ghost predicate Valid()
      reads this
    {
      && size >= 1 && Universe(all, hash, sum)
      && Distinct(order) && |order| <= size
      && (forall k :: k in plans <==> k in order)
      && (forall k :: k in plans ==> Compiled(k, plans[k]))
    }

    ghost predicate Compiled(k: int, p: P) {
      exists r :: r in all && KeyOf(r, hash, sum) == k && compile(r) == Some(p)
    }

    /** The section under the read lock. */
    method Find(key: int) returns (p: Option<P>)
      ensures p == if key in plans then Some(plans[key]) else None
    {
      return if key in plans then Some(plans[key]) else None;
    }

    /** The section under the write lock: an earlier plan of another flow wins, and the oldest plans are evicted. */
    method Store(key: int, c: P) returns (p: P)
      requires Valid() && Compiled(key, c)
      modifies this
      ensures Valid() && Compiled(key, p)
      ensures key in plans && plans[key] == p
      ensures key in old(plans) ==> p == old(plans)[key] && plans == old(plans) && order == old(order)
      ensures key !in old(plans) ==> p == c && order == Newest(old(order) + [key], size)
    {
      hide Universe, KeyOf, Compiled;
      if key in plans {
        return plans[key];
      }
      plans := plans[key := c];
      order := order + [key];
      Evict(key, c);
      return c;
    }

    /** Drops the oldest keys until the cache has its size. */
    method Evict(ghost key: int, ghost c: P)
      requires size >= 1 && order != [] && order[|order| - 1] == key && Distinct(order)
      requires (forall k :: k in plans <==> k in order) && key in plans && plans[key] == c
      modifies this
      ensures |order| <= size && order == Newest(old(order), size) && Distinct(order)
      ensures forall k :: k in plans <==> k in order
      ensures forall k :: k in plans ==> k in old(plans) && plans[k] == old(plans)[k]
      ensures key in plans && plans[key] == c
    {
      while |order| > size
        invariant 1 <= |order| <= |old(order)| && order == old(order)[|old(order)| - |order|..]
        invariant Distinct(order) && (|old(order)| > size ==> |order| >= size)
        invariant (|old(order)| <= size ==> order == old(order))
        invariant forall k :: k in plans <==> k in order
        invariant forall k :: k in plans ==> k in old(plans) && plans[k] == old(plans)[k]
      {
        Eldest(order);
        plans := plans - {order[0]};
        order := order[1..];
      }
      assert order[|order| - 1] == key;
    }

    /**
      The plan of a request.  `others` are the plans that other flows store between the two locked sections.
      A hit is as good as compiling: the answer is the plan compiled from this very request.
     */
    method Plan(r: Request, others: seq<Request>) returns (p: Option<P>)
      requires Valid() && r in all && forall i :: 0 <= i < |others| ==> others[i] in all
      modifies this
      ensures Valid()
      ensures p == compile(r)
      ensures p.Some? ==> KeyOf(r, hash, sum) in plans && plans[KeyOf(r, hash, sum)] == p.value
    {
      hide Universe, KeyOf;
      var key := ShapeKey(r, hash, sum);
      p := Find(key);
      if p.Some? {
        OfRequest(r, p.value);
        return;
      }
      var c := compile(r);
      for i := 0 to |others|
        invariant Valid()
      {
        var k := ShapeKey(others[i], hash, sum);
        var o := compile(others[i]);
        if o.Some? {
          var _ := Store(k, o.value);
        }
      }
      if c.None? { return None; }
      var q := Store(key, c.value);
      OfRequest(r, q);
      return Some(q);
    }

    lemma OfRequest(r: Request, p: P)
      requires Universe(all, hash, sum) && r in all && Compiled(KeyOf(r, hash, sum), p)
      ensures compile(r) == Some(p)
    {
      hide Universe, KeyOf;
      var x :| x in all && KeyOf(x, hash, sum) == KeyOf(r, hash, sum) && compile(x) == Some(p);
      KeyDeterminesRequest(x, r, all, hash, sum);
    }
  }

  /** The last `size` of the keys. */
  function Newest(s: seq<int>, size: int): seq<int>
    requires size >= 0
  {
    if |s| <= size then s else s[|s| - size..]
  }

  lemma Eldest(order: seq<int>)
    requires Distinct(order) && order != []
    ensures Distinct(order[1..]) && forall k :: k in order[1..] <==> k in order && k != order[0]
  {
    assert [order[0]] + order[1..] == order;
  }
}
