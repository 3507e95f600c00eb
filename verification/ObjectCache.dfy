/**
 The object cache (cache/cache.go): hash-keyed, least recently used, with a byte ceiling and a ttl.
 A shard is one recency list, most recent first.
 */
module ObjectCaches {
  import opened Bytes

  datatype Entry = Entry(key: Hash, body: seq<byte>, class_: string, stored: int)

  datatype Lru = Lru(list: seq<Entry>, maxBytes: nat, ttl: int,
                     stored: nat, hits: nat, misses: nat, evicted: nat, expired: nat)

  function Total(l: seq<Entry>): nat {
    if l == [] then 0 else Total(l[..|l| - 1]) + |l[|l| - 1].body|
  }

  /** The front of the list that fits under the ceiling: evict from the back until it does. */
  function Fit(l: seq<Entry>, max: nat): (r: seq<Entry>)
    ensures |r| <= |l|
  {
    if Total(l) <= max then l else Fit(l[..|l| - 1], max)
  }

  function IndexOf(l: seq<Entry>, k: Hash): (i: nat)
    ensures i <= |l| && (i < |l| ==> l[i].key == k)
    ensures forall j :: 0 <= j < i ==> l[j].key != k
  {
    if l == [] then 0 else if l[0].key == k then 0 else 1 + IndexOf(l[1..], k)
  }

  function Find(l: seq<Entry>, k: Hash): Option<Entry> {
    var i := IndexOf(l, k);
    if i < |l| then Some(l[i]) else None
  }

  predicate Distinct(l: seq<Entry>) {
    forall i, j :: 0 <= i < j < |l| ==> l[i].key != l[j].key
  }

  /** What every operation keeps: one entry a key, under the ceiling, every stored entry accounted for. */
  predicate LruOk(c: Lru) {
    Distinct(c.list) && Total(c.list) <= c.maxBytes && c.stored == |c.list| + c.evicted + c.expired
  }

  function PutLru(c: Lru, e: Entry): Lru {
    var i := IndexOf(c.list, e.key);
    if i < |c.list| then c.(list := [c.list[i].(stored := e.stored)] + Without(c.list, i))
    else
      var fit := Fit([e] + c.list, c.maxBytes);
      c.(list := fit, stored := c.stored + 1, evicted := c.evicted + (|c.list| + 1 - |fit|))
  }

  predicate Expired(c: Lru, e: Entry, now: int) {
    now - e.stored > c.ttl
  }

  function GetLru(c: Lru, k: Hash, now: int): Lru {
    var i := IndexOf(c.list, k);
    if i == |c.list| then c.(misses := c.misses + 1)
    else if Expired(c, c.list[i], now) then
      c.(list := Without(c.list, i), expired := c.expired + 1, misses := c.misses + 1)
    else c.(list := [c.list[i]] + Without(c.list, i), hits := c.hits + 1)
  }

  /** What a lookup at `now` returns. */
  function Fresh(c: Lru, k: Hash, now: int): Option<Entry> {
    match Find(c.list, k)
    case None => None
    case Some(e) => if Expired(c, e, now) then None else Some(e)
  }

  // ---- The recency list --------------------------------------------------------

  lemma {:induction false} TotalPrefix(l: seq<Entry>, n: nat)
    requires n <= |l|
    ensures Total(l[..n]) <= Total(l)
    decreases |l|
  {
    if n < |l| {
      TotalPrefix(l[..|l| - 1], n);
      assert l[..|l| - 1][..n] == l[..n];
    } else {
      assert l[..n] == l;
    }
  }

  lemma {:induction false} TotalConcat(a: seq<Entry>, b: seq<Entry>)
    ensures Total(a + b) == Total(a) + Total(b)
    decreases |b|
  {
    if b == [] {
      assert a + b == a;
    } else {
      TotalConcat(a, b[..|b| - 1]);
      assert (a + b)[..|a + b| - 1] == a + b[..|b| - 1];
    }
  }

  lemma TotalWithout(l: seq<Entry>, i: nat)
    requires i < |l|
    ensures Total(Without(l, i)) == Total(l) - |l[i].body|
  {
    assert l == l[..i] + ([l[i]] + l[i + 1..]);
    TotalConcat(l[..i], [l[i]] + l[i + 1..]);
    TotalConcat([l[i]], l[i + 1..]);
    TotalConcat(l[..i], l[i + 1..]);
    TotalOne(l[i]);
  }

  lemma TotalOne(e: Entry)
    ensures Total([e]) == |e.body|
  {
    assert [e][..0] == [];
  }

  /** Eviction keeps exactly the longest recency prefix that fits. */
  lemma {:induction false} FitIsLongest(l: seq<Entry>, max: nat)
    ensures var f := Fit(l, max);
      && f <= l && Total(f) <= max
      && forall n :: |f| < n <= |l| ==> Total(l[..n]) > max
    decreases |l|
  {
    if Total(l) > max {
      var init := l[..|l| - 1];
      FitIsLongest(init, max);
      var f := Fit(l, max);
      forall n | |f| < n <= |l| ensures Total(l[..n]) > max {
        if n == |l| {
          assert l[..n] == l;
        } else {
          assert init[..n] == l[..n];
        }
      }
    }
  }

  /** The front entry survives its own insert exactly when it fits by itself. */
  lemma FitKeepsFront(l: seq<Entry>, max: nat)
    requires l != []
    ensures Fit(l, max) != [] <==> |l[0].body| <= max
  {
    FitIsLongest(l, max);
    TotalOne(l[0]);
    assert l[..1] == [l[0]];
    var f := Fit(l, max);
    if f != [] {
      TotalPrefix(f, 1);
      assert f[..1] == l[..1];
    }
  }

  lemma FrontSurvives(l: seq<Entry>, max: nat)
    requires l != []
    ensures Find(Fit(l, max), l[0].key) == if |l[0].body| <= max then Some(l[0]) else None
  {
    FitIsLongest(l, max);
    FitKeepsFront(l, max);
    var f := Fit(l, max);
    if f != [] {
      assert f[0] == l[0];
    }
  }

  lemma {:induction false} FindByKey(l: seq<Entry>, i: nat)
    requires Distinct(l) && i < |l|
    ensures IndexOf(l, l[i].key) == i && Find(l, l[i].key) == Some(l[i])
  {
  }

  lemma RemovedIsDistinct(l: seq<Entry>, i: nat)
    requires Distinct(l) && i < |l|
    ensures Distinct(Without(l, i)) && forall j :: 0 <= j < |l| - 1 ==> Without(l, i)[j].key != l[i].key
  {
    hide Without;
  }

  lemma Removed(l: seq<Entry>, i: nat, k: Hash)
    requires Distinct(l) && i < |l|
    ensures Distinct(Without(l, i))
    ensures Find(Without(l, i), k) == if k == l[i].key then None else Find(l, k)
  {
    RemovedIsDistinct(l, i);
    hide Without, IndexOf;
    var w := Without(l, i);
    var j := IndexOf(l, k);
    if j < |l| && j != i {
      var x := if j < i then j else j - 1;
      assert w[x] == l[j];
      FindByKey(w, x);
      assert l[i].key != l[j].key;
    }
  }

  /** Taking entry `i` to the front, changed or not, changes no other lookup. */
  lemma MovedToFront(l: seq<Entry>, i: nat, e: Entry, k: Hash)
    requires Distinct(l) && i < |l| && e.key == l[i].key
    ensures Distinct([e] + Without(l, i))
    ensures Find([e] + Without(l, i), k) == if k == e.key then Some(e) else Find(l, k)
  {
    RemovedIsDistinct(l, i);
    NewKeyIsDistinct(Without(l, i), e);
    Removed(l, i, k);
    Pushed(Without(l, i), e, k);
  }

  lemma Pushed(l: seq<Entry>, e: Entry, k: Hash)
    ensures Find([e] + l, k) == if k == e.key then Some(e) else Find(l, k)
  {
    assert ([e] + l)[1..] == l;
  }

  lemma PushedIsDistinct(l: seq<Entry>, e: Entry)
    requires Distinct(l) && IndexOf(l, e.key) == |l|
    ensures Distinct([e] + l) && Find(l, e.key).None?
  {
    hide Distinct;
    NewKeyIsDistinct(l, e);
  }

  lemma NewKeyIsDistinct(l: seq<Entry>, e: Entry)
    requires Distinct(l) && forall i :: 0 <= i < |l| ==> l[i].key != e.key
    ensures Distinct([e] + l)
  {
    var m := [e] + l;
    forall a, b | 0 <= a < b < |m| ensures m[a].key != m[b].key {
      assert m[b] == l[b - 1] && m[a] == if a == 0 then e else l[a - 1];
    }
  }

  lemma PrefixFinds(l: seq<Entry>, f: seq<Entry>, k: Hash)
    requires Distinct(l) && f <= l
    ensures Distinct(f) && Find(f, k) in {None, Find(l, k)}
  {
    var j := IndexOf(f, k);
    if j < |f| {
      assert f[j] == l[j];
      FindByKey(l, j);
    }
    forall a, b | 0 <= a < b < |f| ensures f[a].key != f[b].key {
      assert f[a] == l[a] && f[b] == l[b];
    }
  }

  /** Put: a held key keeps its original bytes and becomes the most recent; a new key goes to the front
      of the list, cut to what fits. Other lookups change only by eviction. */
  lemma PutOutcome(c: Lru, e: Entry, k: Hash)
    requires LruOk(c)
    ensures LruOk(PutLru(c, e))
    ensures var c' := PutLru(c, e);
      match Find(c.list, e.key)
      case Some(held) =>
        && Find(c'.list, k) == (if k == e.key then Some(held.(stored := e.stored)) else Find(c.list, k))
        && c'.list[0].key == e.key && c'.list[1..] == Without(c.list, IndexOf(c.list, e.key))
      case None =>
        && c'.list == Fit([e] + c.list, c.maxBytes)
        && Find(c'.list, k) in {None, if k == e.key then Some(e) else Find(c.list, k)}
        && Find(c'.list, e.key) == (if |e.body| <= c.maxBytes then Some(e) else None)
  {
    hide Find;
    var i := IndexOf(c.list, e.key);
    if i < |c.list| {
      FindByKey(c.list, i);
      var held := c.list[i].(stored := e.stored);
      MovedToFront(c.list, i, held, k);
      TotalWithout(c.list, i);
      TotalOne(held);
      TotalConcat([held], Without(c.list, i));
    } else {
      FitIsLongest([e] + c.list, c.maxBytes);
      Pushed(c.list, e, k);
      PushedIsDistinct(c.list, e);
      PrefixFinds([e] + c.list, Fit([e] + c.list, c.maxBytes), k);
      FrontSurvives([e] + c.list, c.maxBytes);
    }
  }

  lemma GetKeepsOk(c: Lru, k: Hash, now: int, k': Hash)
    requires LruOk(c)
    ensures LruOk(GetLru(c, k, now))
    ensures Find(GetLru(c, k, now).list, k') == if k' == k then Fresh(c, k, now) else Find(c.list, k')
  {
    hide Distinct, Total, Without;
    var i := IndexOf(c.list, k);
    if i < |c.list| {
      MovedToFront(c.list, i, c.list[i], k');
      Removed(c.list, i, k');
      TotalWithout(c.list, i);
      TotalOne(c.list[i]);
      TotalConcat([c.list[i]], Without(c.list, i));
    }
  }

  /** Get: a fresh entry, one stored no longer ago than the ttl, becomes the most recent and the rest keep
      their order; an expired one is removed; nothing else changes. One hit or one miss is counted. */
  lemma GetOutcome(c: Lru, k: Hash, now: int, k': Hash)
    requires LruOk(c)
    ensures LruOk(GetLru(c, k, now))
    ensures Find(GetLru(c, k, now).list, k') == if k' == k then Fresh(c, k, now) else Find(c.list, k')
    ensures var c', i, l := GetLru(c, k, now), IndexOf(c.list, k), c.list;
      if i == |l| then Fresh(c, k, now).None? && c' == c.(misses := c.misses + 1)
      else if now - l[i].stored <= c.ttl then
        && Fresh(c, k, now) == Some(l[i])
        && c' == c.(list := [l[i]] + (l[..i] + l[i + 1..]), hits := c.hits + 1)
      else
        && Fresh(c, k, now).None?
        && c' == c.(list := l[..i] + l[i + 1..], expired := c.expired + 1, misses := c.misses + 1)
  {
    hide LruOk;
    GetKeepsOk(c, k, now, k');
  }

  // ---- Recency over runs -----------------------------------------------------------

  datatype Op = PutOp(e: Entry) | GetOp(key: Hash, now: int)

  function Apply(c: Lru, op: Op): Lru {
    match op
    case PutOp(e) => PutLru(c, e)
    case GetOp(k, now) => GetLru(c, k, now)
  }

  function Run(c: Lru, ops: seq<Op>): Lru {
    if ops == [] then c else Apply(Run(c, ops[..|ops| - 1]), ops[|ops| - 1])
  }

  /** The operation uses `k`: a put of it, or a get that finds it. */
  predicate Uses(c: Lru, op: Op, k: Hash) {
    match op
    case PutOp(e) => e.key == k
    case GetOp(g, now) => g == k && Find(c.list, k).Some? && now - Find(c.list, k).value.stored <= c.ttl
  }

  /** The position of the last operation that used `k`; -1 if none did. */
  function LastUse(c: Lru, ops: seq<Op>, k: Hash): (n: int)
    ensures -1 <= n < |ops|
  {
    if ops == [] then -1
    else
      var last := |ops| - 1;
      if Uses(Run(c, ops[..last]), ops[last], k) then last else LastUse(c, ops[..last], k)
  }

  /** The list is in order of last use, latest first. */
  ghost predicate ByUse(c: Lru, ops: seq<Op>, l: seq<Entry>) {
    && (forall i :: 0 <= i < |l| ==> LastUse(c, ops, l[i].key) >= 0)
    && forall i, j :: 0 <= i < j < |l| ==> LastUse(c, ops, l[i].key) > LastUse(c, ops, l[j].key)
  }

  lemma WithoutByUse(c: Lru, ops: seq<Op>, l: seq<Entry>, i: nat)
    requires ByUse(c, ops, l) && i < |l|
    ensures ByUse(c, ops, Without(l, i))
  {
    hide LastUse, Without;
  }

  lemma PrefixByUse(c: Lru, ops: seq<Op>, l: seq<Entry>, f: seq<Entry>)
    requires ByUse(c, ops, l) && f <= l
    ensures ByUse(c, ops, f)
  {
    hide LastUse;
    assert forall i :: 0 <= i < |f| ==> f[i] == l[i];
  }

  lemma LastUseSnoc(c: Lru, ops: seq<Op>, op: Op, k: Hash)
    ensures LastUse(c, ops + [op], k) == if Uses(Run(c, ops), op, k) then |ops| else LastUse(c, ops, k)
  {
    hide Uses, Run;
    assert (ops + [op])[..|ops|] == ops;
  }

  /** The key used goes before all others, which keep their order. */
  lemma UsedGoesFirst(c: Lru, ops: seq<Op>, op: Op, e: Entry, l: seq<Entry>)
    requires ByUse(c, ops, l) && forall i :: 0 <= i < |l| ==> l[i].key != e.key
    requires forall k :: Uses(Run(c, ops), op, k) <==> k == e.key
    ensures ByUse(c, ops + [op], [e] + l)
  {
    hide Uses, Run, LastUse;
    var m := [e] + l;
    forall i | 0 <= i < |m|
      ensures LastUse(c, ops + [op], m[i].key) == if i == 0 then |ops| else LastUse(c, ops, l[i - 1].key)
    {
      LastUseSnoc(c, ops, op, m[i].key);
    }
  }

  lemma UnusedStays(c: Lru, ops: seq<Op>, op: Op, l: seq<Entry>)
    requires ByUse(c, ops, l) && forall k :: !Uses(Run(c, ops), op, k)
    ensures ByUse(c, ops + [op], l)
  {
    hide Uses, Run, LastUse;
    forall i | 0 <= i < |l| ensures LastUse(c, ops + [op], l[i].key) == LastUse(c, ops, l[i].key) {
      LastUseSnoc(c, ops, op, l[i].key);
    }
  }

  lemma PutByUse(c: Lru, ops: seq<Op>, e: Entry)
    requires LruOk(Run(c, ops)) && ByUse(c, ops, Run(c, ops).list)
    ensures var r := Run(c, ops);
      && ByUse(c, ops + [PutOp(e)], PutLru(r, e).list)
      && (Find(r.list, e.key).None? ==> ByUse(c, ops + [PutOp(e)], [e] + r.list))
  {
    hide ByUse, Run;
    var r := Run(c, ops);
    var i := IndexOf(r.list, e.key);
    if i < |r.list| {
      RemovedIsDistinct(r.list, i);
      WithoutByUse(c, ops, r.list, i);
      UsedGoesFirst(c, ops, PutOp(e), r.list[i].(stored := e.stored), Without(r.list, i));
    } else {
      UsedGoesFirst(c, ops, PutOp(e), e, r.list);
      FitKeepsFront([e] + r.list, r.maxBytes);
      FitIsLongest([e] + r.list, r.maxBytes);
      PrefixByUse(c, ops + [PutOp(e)], [e] + r.list, Fit([e] + r.list, r.maxBytes));
    }
  }

  lemma GetByUse(c: Lru, ops: seq<Op>, k: Hash, now: int)
    requires LruOk(Run(c, ops)) && ByUse(c, ops, Run(c, ops).list)
    ensures ByUse(c, ops + [GetOp(k, now)], GetLru(Run(c, ops), k, now).list)
  {
    hide ByUse, Run;
    var r := Run(c, ops);
    var i := IndexOf(r.list, k);
    if i == |r.list| {
      UnusedStays(c, ops, GetOp(k, now), r.list);
    } else {
      RemovedIsDistinct(r.list, i);
      WithoutByUse(c, ops, r.list, i);
      if Expired(r, r.list[i], now) {
        UnusedStays(c, ops, GetOp(k, now), Without(r.list, i));
      } else {
        UsedGoesFirst(c, ops, GetOp(k, now), r.list[i], Without(r.list, i));
      }
    }
  }

  /** Least recently used, over every run of puts and gets from an empty shard: the list is in order of last
      use, so what an insert evicts was last used before everything it keeps. */
  lemma {:induction false} RecencyIsLastUse(c: Lru, ops: seq<Op>)
    requires c.list == [] && c.stored == 0 == c.evicted && c.expired == 0
    ensures LruOk(Run(c, ops)) && ByUse(c, ops, Run(c, ops).list)
  {
    hide ByUse, LruOk, PutLru, GetLru;
    if ops == [] {
      assert LruOk(c) by { EmptyIsOk(c); }
      assert ByUse(c, [], []) by { NothingUsed(c); }
    } else {
      var n := |ops| - 1;
      var init, op := ops[..n], ops[n];
      RecencyIsLastUse(c, init);
      assert init + [op] == ops;
      match op
      case PutOp(e) =>
        PutByUse(c, init, e);
        PutOutcome(Run(c, init), e, e.key);
      case GetOp(k, now) =>
        GetByUse(c, init, k, now);
        GetOutcome(Run(c, init), k, now, k);
    }
  }

  lemma EmptyIsOk(c: Lru)
    requires c.list == [] && c.stored == 0 == c.evicted && c.expired == 0
    ensures LruOk(c)
  {
  }

  lemma NothingUsed(c: Lru)
    ensures ByUse(c, [], [])
  {
  }

  /** What an insert evicts is a tail of the list, last used before everything it keeps, and it evicts nothing
      exactly when everything fits. */
  lemma EvictsLeastRecentlyUsed(c: Lru, ops: seq<Op>, e: Entry, i: nat, j: nat)
    requires c.list == [] && c.stored == 0 == c.evicted && c.expired == 0
    requires Find(Run(c, ops).list, e.key).None?
    requires var r := Run(c, ops); i < |PutLru(r, e).list| <= j < |r.list| + 1
    ensures var r, all := Run(c, ops), [e] + Run(c, ops).list;
      && PutLru(r, e).list == all[..|PutLru(r, e).list|]
      && LastUse(c, ops + [PutOp(e)], all[i].key) > LastUse(c, ops + [PutOp(e)], all[j].key)
  {
    hide LastUse, Run;
    RecencyIsLastUse(c, ops);
    PutByUse(c, ops, e);
    var r := Run(c, ops);
    FitKeepsFront([e] + r.list, r.maxBytes);
    FitIsLongest([e] + r.list, r.maxBytes);
  }

  lemma EvictsOnlyOverCeiling(c: Lru, e: Entry)
    requires LruOk(c) && Find(c.list, e.key).None?
    ensures PutLru(c, e).evicted == c.evicted <==> Total(c.list) + |e.body| <= c.maxBytes
  {
    TotalConcat([e], c.list);
    TotalOne(e);
    FitIsLongest([e] + c.list, c.maxBytes);
  }

  // ---- The whole cache -----------------------------------------------------------

  type Cache = c: seq<Lru> | |c| == SHARDS witness seq(SHARDS, _ => Lru([], 1, 0, 0, 0, 0, 0, 0))

  function EmptyLru(maxBytes: nat, ttl: int): Lru {
    Lru([], maxBytes, ttl, 0, 0, 0, 0, 0)
  }

  /** A new cache; the ceiling is split evenly, and never to nothing. */
  function New(maxBytes: int, ttl: int, defaultTtl: nat): Cache {
    var max := if maxBytes <= 0 then 0x4000_0000 else maxBytes;
    var per := if max / SHARDS <= 0 then 1 else max / SHARDS;
    seq(SHARDS, _ => EmptyLru(per, if ttl <= 0 then defaultTtl else ttl))
  }

  /** The ceiling is shared out: every shard gets its 64th, rounded down but at least a byte, and the ttl. */
  lemma CeilingIsShared(maxBytes: int, ttl: int, defaultTtl: nat, i: nat)
    requires i < SHARDS
    ensures var s := New(maxBytes, ttl, defaultTtl)[i];
      && s.list == [] && (ttl > 0 ==> s.ttl == ttl) && (ttl <= 0 ==> s.ttl == defaultTtl)
      && (maxBytes >= 64 ==> 64 * s.maxBytes <= maxBytes < 64 * (s.maxBytes + 1))
      && (0 < maxBytes < 64 ==> s.maxBytes == 1) && (maxBytes <= 0 ==> 64 * s.maxBytes == 0x4000_0000)
  {
  }

  predicate Ok(c: Cache) {
    forall i :: 0 <= i < SHARDS ==> LruOk(c[i])
  }

  function Put(c: Cache, e: Entry): Cache {
    c[ShardIndex(e.key) := PutLru(c[ShardIndex(e.key)], e)]
  }

  function Get(c: Cache, k: Hash, now: int): Cache {
    c[ShardIndex(k) := GetLru(c[ShardIndex(k)], k, now)]
  }

  /** The entry a lookup at `now` returns: present and not expired. */
  function Held(c: Cache, k: Hash, now: int): Option<Entry> {
    Fresh(c[ShardIndex(k)], k, now)
  }

  function Stored(c: Cache, k: Hash): Option<Entry> {
    Find(c[ShardIndex(k)].list, k)
  }

  lemma CachePut(c: Cache, e: Entry, k: Hash)
    requires Ok(c)
    ensures Ok(Put(c, e))
    ensures match Stored(c, e.key)
      case Some(held) => Stored(Put(c, e), k) == if k == e.key then Some(held.(stored := e.stored)) else Stored(c, k)
      case None =>
        && Stored(Put(c, e), k) in {None, if k == e.key then Some(e) else Stored(c, k)}
        && Stored(Put(c, e), e.key) == if |e.body| <= c[ShardIndex(e.key)].maxBytes then Some(e) else None
  {
    hide PutLru, LruOk, Find, Fit;
    PutOutcome(c[ShardIndex(e.key)], e, k);
  }

  lemma OperationsKeepOk(c: Cache, e: Entry, now: int)
    requires Ok(c)
    ensures Ok(Put(c, e)) && Ok(Get(c, e.key, now)) && Ok(Put(Get(c, e.key, now), e))
  {
    hide Put, Get, Ok, Stored, Held;
    CacheGet(c, e.key, now, e.key);
    CachePut(c, e, e.key);
    CachePut(Get(c, e.key, now), e, e.key);
  }

  lemma CacheGet(c: Cache, k: Hash, now: int, k': Hash)
    requires Ok(c)
    ensures Ok(Get(c, k, now))
    ensures Stored(Get(c, k, now), k') == if k' == k then Held(c, k, now) else Stored(c, k')
  {
    hide GetLru, LruOk, Find, Fresh;
    GetOutcome(c[ShardIndex(k)], k, now, k');
  }
}

/** The cache as it runs: a map and a recency list updated together, byte for byte. */
module ObjectCacheObjects {
  import opened Bytes
  import opened ObjectCaches
  import C = ObjectCaches

  // ---- Map and list --------------------------------------------------------------

  /** Map and list hold the same keys, each once. */
  ghost predicate Linked(items: map<Hash, Entry>, lru: seq<Hash>) {
    && (forall i, j :: 0 <= i < j < |lru| ==> lru[i] != lru[j])
    && (forall i :: 0 <= i < |lru| ==> lru[i] in items)
    && (forall k :: k in items ==> k in lru && items[k].key == k)
  }

  /** The recency list that map and list together stand for. */
  ghost function ListOf(items: map<Hash, Entry>, lru: seq<Hash>): (l: seq<Entry>)
    requires Linked(items, lru)
    ensures |l| == |lru| && forall i :: 0 <= i < |lru| ==> l[i] == items[lru[i]] && l[i].key == lru[i]
  {
    seq(|lru|, i requires 0 <= i < |lru| => items[lru[i]])
  }

  lemma Located(items: map<Hash, Entry>, lru: seq<Hash>, k: Hash) returns (i: nat)
    requires Linked(items, lru) && k in items
    ensures i < |lru| && lru[i] == k && ListOf(items, lru)[i] == items[k] && IndexOf(ListOf(items, lru), k) == i
    ensures Distinct(ListOf(items, lru))
  {
    i :| 0 <= i < |lru| && lru[i] == k;
    FindByKey(ListOf(items, lru), i);
  }

  lemma Absent(items: map<Hash, Entry>, lru: seq<Hash>, k: Hash)
    requires Linked(items, lru) && k !in items
    ensures IndexOf(ListOf(items, lru), k) == |lru|
  {
  }

  lemma CutStaysLinked(items: map<Hash, Entry>, lru: seq<Hash>, i: nat)
    requires Linked(items, lru) && i < |lru|
    ensures Linked(items - {lru[i]}, Without(lru, i))
  {
    hide Without;
    var m, r := items - {lru[i]}, Without(lru, i);
    forall k | k in m ensures k in r && m[k].key == k {
      var j :| 0 <= j < |lru| && lru[j] == k;
      assert r[if j < i then j else j - 1] == k;
    }
  }

  lemma CutLinks(items: map<Hash, Entry>, lru: seq<Hash>, i: nat)
    requires Linked(items, lru) && i < |lru|
    ensures Linked(items - {lru[i]}, Without(lru, i))
    ensures ListOf(items - {lru[i]}, Without(lru, i)) == Without(ListOf(items, lru), i)
  {
    CutStaysLinked(items, lru, i);
    hide Without, Linked;
    var l, l' := ListOf(items, lru), ListOf(items - {lru[i]}, Without(lru, i));
    forall j | 0 <= j < |l'| ensures l'[j] == Without(l, i)[j] {
      assert Without(lru, i)[j] == lru[if j < i then j else j + 1];
    }
  }

  lemma PushLinks(items: map<Hash, Entry>, lru: seq<Hash>, e: Entry)
    requires Linked(items, lru) && e.key !in items
    ensures Linked(items[e.key := e], [e.key] + lru)
    ensures ListOf(items[e.key := e], [e.key] + lru) == [e] + ListOf(items, lru)
  {
    var m, r := items[e.key := e], [e.key] + lru;
    assert forall j :: 1 <= j < |r| ==> r[j] == lru[j - 1];
    forall k | k in m ensures k in r && m[k].key == k {
      if k == e.key { assert r[0] == k; }
    }
  }

  /** Moving a key to the front, with its entry replaced: a removal and a push. */
  lemma FrontLinks(items: map<Hash, Entry>, lru: seq<Hash>, i: nat, e: Entry)
    requires Linked(items, lru) && i < |lru| && e.key == lru[i]
    ensures Linked(items[e.key := e], [e.key] + Without(lru, i))
    ensures ListOf(items[e.key := e], [e.key] + Without(lru, i)) == [e] + Without(ListOf(items, lru), i)
  {
    hide Linked, Without;
    CutLinks(items, lru, i);
    var m := items - {e.key};
    PushLinks(m, Without(lru, i), e);
    assert m[e.key := e] == items[e.key := e];
  }

  // ---- One shard -------------------------------------------------------------------

  class LruObject {
    var items: map<Hash, Entry>
    var lru: seq<Hash>
    var bytes: int
    const maxBytes: nat
    const ttl: int
    var stored: nat
    var hits: nat
    var misses: nat
    var evicted: nat
    var expired: nat

    /** Map and list agree, and the byte counter is the sum of the bodies. */
    ghost predicate Counted()
      reads this
    {
      Linked(items, lru) && bytes == Total(ListOf(items, lru))
    }

    ghost function Value(): Lru
      requires Counted()
      reads this
    {
      Lru(ListOf(items, lru), maxBytes, ttl, stored, hits, misses, evicted, expired)
    }

    ghost predicate Valid()
      reads this
    {
      Counted() && LruOk(Value())
    }

    constructor (maxBytes: nat, ttl: int)
      ensures Valid() && Value() == EmptyLru(maxBytes, ttl)
    {
      items, lru, bytes, this.maxBytes, this.ttl := map[], [], 0, maxBytes, ttl;
      stored, hits, misses, evicted, expired := 0, 0, 0, 0, 0;
    }

    /** Takes a key to the front of the list with its new entry. */
    method MoveToFront(k: Hash, e: Entry)
      requires Counted() && k in items && e.key == k && |e.body| == |items[k].body|
      modifies `items, `lru
      ensures Counted()
      ensures var l := old(ListOf(items, lru));
        ListOf(items, lru) == [e] + Without(l, IndexOf(l, k))
    {
      hide Linked, ListOf, Total;
      ghost var l := ListOf(items, lru);
      ghost var at := Located(items, lru, k);
      var i :| 0 <= i < |lru| && lru[i] == k;
      FindByKey(l, i);
      FrontLinks(items, lru, i, e);
      TotalWithout(l, i);
      TotalOne(e);
      TotalConcat([e], Without(l, i));
      lru := [k] + Without(lru, i);
      items := items[k := e];
    }

    method RemoveLocked(k: Hash)
      requires Counted() && k in items
      modifies `items, `lru, `bytes
      ensures Counted()
      ensures var l := old(ListOf(items, lru));
        ListOf(items, lru) == Without(l, IndexOf(l, k))
    {
      hide Linked, ListOf, Total;
      ghost var l := ListOf(items, lru);
      ghost var at := Located(items, lru, k);
      var i :| 0 <= i < |lru| && lru[i] == k;
      FindByKey(l, i);
      CutLinks(items, lru, i);
      TotalWithout(l, i);
      bytes := bytes - |items[k].body|;
      lru := Without(lru, i);
      items := items - {k};
    }

    method PushFront(e: Entry)
      requires Counted() && e.key !in items
      modifies `items, `lru, `bytes
      ensures Counted() && ListOf(items, lru) == [e] + old(ListOf(items, lru))
    {
      hide Linked, ListOf, Total;
      PushLinks(items, lru, e);
      TotalOne(e);
      TotalConcat([e], ListOf(items, lru));
      items := items[e.key := e];
      lru := [e.key] + lru;
      bytes := bytes + |e.body|;
    }

    method EvictLocked()
      requires Counted()
      modifies `items, `lru, `bytes, `evicted
      ensures Counted() && ListOf(items, lru) == Fit(old(ListOf(items, lru)), maxBytes)
      ensures evicted == old(evicted) + old(|lru|) - |lru|
    {
      hide Linked;
      ghost var full := ListOf(items, lru);
      while bytes > maxBytes
        invariant Counted() && Fit(ListOf(items, lru), maxBytes) == Fit(full, maxBytes)
        invariant evicted == old(evicted) + |full| - |lru|
        decreases |lru|
      {
        ghost var l := ListOf(items, lru);
        var back := lru[|lru| - 1];
        Distinguished(items, lru);
        FindByKey(l, |l| - 1);
        RemoveLocked(back);
        assert ListOf(items, lru) == l[..|l| - 1];
        evicted := evicted + 1;
      }
    }

    method Put(key: Hash, class_: string, body: seq<byte>, now: int)
      requires Valid()
      modifies this
      ensures Valid() && Value() == PutLru(old(Value()), Entry(key, body, class_, now))
    {
      hide Linked, ListOf, Total, LruOk;
      PutOutcome(Value(), Entry(key, body, class_, now), key);
      if key in items {
        ghost var at := Located(items, lru, key);
        MoveToFront(key, items[key].(stored := now));
        return;
      }
      Absent(items, lru, key);
      PushFront(Entry(key, body, class_, now));
      stored := stored + 1;
      EvictLocked();
    }

    method Get(key: Hash, now: int) returns (r: Option<Entry>)
      requires Valid()
      modifies this
      ensures Valid() && Value() == GetLru(old(Value()), key, now) && r == Fresh(old(Value()), key, now)
    {
      hide Linked, ListOf, Total, LruOk;
      GetOutcome(Value(), key, now, key);
      if key !in items {
        Absent(items, lru, key);
        misses := misses + 1;
        return None;
      }
      ghost var at := Located(items, lru, key);
      var e := items[key];
      if now - e.stored > ttl {
        RemoveLocked(key);
        expired := expired + 1;
        misses := misses + 1;
        return None;
      }
      MoveToFront(key, e);
      hits := hits + 1;
      return Some(e);
    }

    method Has(key: Hash, now: int) returns (held: bool)
      requires Valid()
      ensures held == Fresh(Value(), key, now).Some?
    {
      if key in items {
        ghost var at := Located(items, lru, key);
      } else {
        Absent(items, lru, key);
      }
      held := key in items && now - items[key].stored <= ttl;
    }
  }

  lemma Distinguished(items: map<Hash, Entry>, lru: seq<Hash>)
    requires Linked(items, lru)
    ensures Distinct(ListOf(items, lru)) && forall i :: 0 <= i < |lru| ==> lru[i] in items
  {
  }

  // ---- The whole cache ---------------------------------------------------------------

  class CacheObject {
    const s: seq<LruObject>

    ghost predicate Valid()
      reads s
    {
      && |s| == SHARDS && (forall i, j :: 0 <= i < j < SHARDS ==> s[i] != s[j])
      && forall i :: 0 <= i < SHARDS ==> s[i].Valid()
    }

    ghost function Value(): (c: Cache)
      requires Valid()
      reads s
      ensures Ok(c)
    {
      seq(SHARDS, i requires 0 <= i < SHARDS && Valid() reads s => s[i].Value())
    }

    constructor (maxBytes: int, ttl: int, defaultTtl: nat)
      ensures Valid() && fresh(s) && Value() == C.New(maxBytes, ttl, defaultTtl)
    {
      var max := if maxBytes <= 0 then 0x4000_0000 else maxBytes;
      var per := if max / SHARDS <= 0 then 1 else max / SHARDS;
      var t := if ttl <= 0 then defaultTtl else ttl;
      var built: seq<LruObject> := [];
      while |built| < SHARDS
        invariant |built| <= SHARDS && fresh(built)
        invariant forall i, j :: 0 <= i < j < |built| ==> built[i] != built[j]
        invariant forall i :: 0 <= i < |built| ==> built[i].Valid() && built[i].Value() == EmptyLru(per, t)
      {
        var shard := new LruObject(per, t);
        built := built + [shard];
      }
      s := built;
      new;
      assert Value() == C.New(maxBytes, ttl, defaultTtl);
    }

    method Put(key: Hash, class_: string, body: seq<byte>, now: int)
      requires Valid()
      modifies s
      ensures Valid() && Value() == C.Put(old(Value()), Entry(key, body, class_, now))
    {
      hide PutLru, LruOk;
      s[ShardIndex(key)].Put(key, class_, body, now);
      assert Value() == C.Put(old(Value()), Entry(key, body, class_, now));
    }

    method Get(key: Hash, now: int) returns (r: Option<Entry>)
      requires Valid()
      modifies s
      ensures Valid() && Value() == C.Get(old(Value()), key, now) && r == C.Held(old(Value()), key, now)
    {
      hide GetLru, LruOk;
      r := s[ShardIndex(key)].Get(key, now);
      assert Value() == C.Get(old(Value()), key, now);
    }
  }
}
