/**
 The transaction cache (cache/generational.go): two generations, rotated wholesale, whose insert is
 also the lane's duplicate check.
 */
module TxCaches {
  import opened Bytes

  type Bodies = map<Hash, seq<byte>>

  datatype Gen = Gen(cur: Bodies, prev: Bodies, curBytes: int, prevBytes: int, maxBytes: nat, ttl: nat, rotated: int,
                     stored: nat, evicted: nat, duplicates: nat)

  datatype Op = Op(key: Hash, body: seq<byte>, now: int)

  function Rotate(g: Gen, now: int): Gen {
    g.(evicted := g.evicted + |g.prev|, prev := g.cur, prevBytes := g.curBytes, cur := map[], curBytes := 0,
       rotated := now)
  }

  predicate Due(g: Gen, now: int) {
    now - g.rotated >= g.ttl / 2 || g.curBytes >= g.maxBytes
  }

  function Aged(g: Gen, now: int): Gen {
    if Due(g, now) then Rotate(g, now) else g
  }

  predicate Holds(g: Gen, k: Hash) {
    k in g.cur || k in g.prev
  }

  /** The admission answer: new to both generations, once the shard has aged. */
  predicate Fresh(g: Gen, op: Op) {
    !Holds(Aged(g, op.now), op.key)
  }

  function Admit(g: Gen, op: Op): Gen {
    var a := Aged(g, op.now);
    if op.key in a.prev then a.(duplicates := a.duplicates + 1)
    else if op.key in a.cur then a.(cur := a.cur[op.key := op.body], duplicates := a.duplicates + 1)
    else a.(cur := a.cur[op.key := op.body], curBytes := a.curBytes + |op.body|, stored := a.stored + 1)
  }

  // ---- Byte totals ------------------------------------------------------------------

  ghost function Sum(m: Bodies): nat {
    if m == map[] then 0 else var k :| k in m; |m[k]| + Sum(m - {k})
  }

  lemma {:induction false} SumRemove(m: Bodies, k: Hash)
    requires k in m
    ensures Sum(m) == |m[k]| + Sum(m - {k})
    decreases |m|
  {
    var x :| x in m && Sum(m) == |m[x]| + Sum(m - {x});
    if x != k {
      SumRemove(m - {x}, k);
      SumRemove(m - {k}, x);
      assert (m - {x}) - {k} == (m - {k}) - {x};
    }
  }

  lemma SumInsert(m: Bodies, k: Hash, b: seq<byte>)
    ensures Sum(m[k := b]) == |b| + Sum(m) - if k in m then |m[k]| else 0
  {
    SumRemove(m[k := b], k);
    assert m[k := b] - {k} == m - {k};
    if k in m {
      SumRemove(m, k);
    } else {
      assert m - {k} == m;
    }
  }

  // ---- What every admission keeps ----------------------------------------------------

  /** Below the threshold plus one body: some one entry is what took the generation past it. */
  ghost predicate Bounded(m: Bodies, bytes: int, max: nat) {
    m != map[] ==> exists k :: k in m && bytes - |m[k]| < max
  }

  /** Disjoint generations, every stored entry accounted for. */
  predicate Accounted(g: Gen) {
    g.cur.Keys !! g.prev.Keys && g.stored == |g.cur| + |g.prev| + g.evicted
  }

  ghost predicate Exact(g: Gen) {
    g.curBytes == Sum(g.cur) && g.prevBytes == Sum(g.prev)
  }

  /** Bodies are determined by their key, as content hashes determine them. */
  ghost predicate Content(g: Gen, body: Hash -> seq<byte>) {
    (forall k :: k in g.cur ==> g.cur[k] == body(k)) && forall k :: k in g.prev ==> g.prev[k] == body(k)
  }

  ghost predicate Ok(g: Gen, body: Hash -> seq<byte>) {
    && g.maxBytes >= 1 && Accounted(g) && Exact(g) && Content(g, body)
    && Bounded(g.cur, g.curBytes, g.maxBytes) && Bounded(g.prev, g.prevBytes, g.maxBytes)
  }

  /** The two-probe insert is a set insert: it answers "new" exactly when neither generation holds the
      key, and it keeps the accounting whatever the bodies are. */
  lemma AdmissionIsSetInsert(g: Gen, op: Op, k: Hash)
    requires Accounted(g)
    ensures Accounted(Admit(g, op))
    ensures Holds(Admit(g, op), k) <==> k == op.key || Holds(Aged(g, op.now), k)
    ensures Admit(g, op).stored == g.stored + (if Fresh(g, op) then 1 else 0)
  {
  }

  /** The byte counters stay exact unless a duplicate in the current generation changes length. */
  lemma ByteCountersStayExact(g: Gen, op: Op)
    requires Accounted(g) && Exact(g)
    ensures var a := Aged(g, op.now);
      Exact(Admit(g, op)) <==> !(op.key in a.cur && |op.body| != |a.cur[op.key]|)
  {
    var a := Aged(g, op.now);
    SumInsert(a.cur, op.key, op.body);
  }

  lemma AdmitKeepsOk(g: Gen, op: Op, body: Hash -> seq<byte>)
    requires Ok(g, body) && op.body == body(op.key)
    ensures Ok(Admit(g, op), body)
  {
    hide Sum;
    var a := Aged(g, op.now);
    AdmissionIsSetInsert(g, op, op.key);
    ByteCountersStayExact(g, op);
    assert Bounded(a.cur, a.curBytes, a.maxBytes) && Bounded(a.prev, a.prevBytes, a.maxBytes);
    var r := Admit(g, op);
    if op.key in a.cur && op.key !in a.prev {
      assert r.cur == a.cur;
    } else if op.key !in a.prev {
      assert a.curBytes < a.maxBytes;
      assert op.key in r.cur && r.curBytes - |r.cur[op.key]| < r.maxBytes;
    }
  }

  // ---- Runs ---------------------------------------------------------------------------

  function Run(g: Gen, ops: seq<Op>): Gen {
    if ops == [] then g else Admit(Run(g, ops[..|ops| - 1]), ops[|ops| - 1])
  }

  function Rotations(g: Gen, ops: seq<Op>): nat {
    if ops == [] then 0
    else
      var init := ops[..|ops| - 1];
      Rotations(g, init) + if Due(Run(g, init), ops[|ops| - 1].now) then 1 else 0
  }

  lemma {:induction false} RunOk(g: Gen, ops: seq<Op>, body: Hash -> seq<byte>)
    requires Ok(g, body) && forall i :: 0 <= i < |ops| ==> ops[i].body == body(ops[i].key)
    ensures Ok(Run(g, ops), body)
  {
    if ops != [] {
      RunOk(g, ops[..|ops| - 1], body);
      AdmitKeepsOk(Run(g, ops[..|ops| - 1]), ops[|ops| - 1], body);
    }
  }

  /** A held key is demoted by one rotation and dropped by the next. */
  lemma {:induction false} Demotion(g: Gen, ops: seq<Op>, k: Hash)
    requires k in g.cur
    ensures Rotations(g, ops) == 0 ==> k in Run(g, ops).cur
    ensures Rotations(g, ops) == 1 ==> Holds(Run(g, ops), k)
  {
    if ops != [] {
      Demotion(g, ops[..|ops| - 1], k);
    }
  }

  lemma FreshIsCurrent(g: Gen, op: Op)
    requires Fresh(g, op)
    ensures op.key in Admit(g, op).cur
  {
  }

  lemma Next(g: Gen, ops: seq<Op>, i: nat)
    requires i < |ops|
    ensures Run(g, ops[..i + 1]) == Admit(Run(g, ops[..i]), ops[i])
    ensures Rotations(g, ops[..i + 1]) == Rotations(g, ops[..i]) + if Due(Run(g, ops[..i]), ops[i].now) then 1 else 0
  {
    assert ops[..i + 1][..i] == ops[..i];
  }

  /** A key that was put in the current generation is new again only after two rotations. */
  lemma FreshAgain(g: Gen, ops: seq<Op>, n: nat, k: Hash)
    requires k in g.cur && n < |ops| && ops[n].key == k && Fresh(Run(g, ops[..n]), ops[n])
    ensures Rotations(g, ops[..n + 1]) >= 2
  {
    hide Run, Rotations;
    Demotion(g, ops[..n], k);
    Next(g, ops, n);
  }

  /** A key admitted twice saw at least two rotations between the admissions. */
  lemma ReadmissionTakesTwoRotations(g: Gen, ops: seq<Op>, i: nat, j: nat)
    requires i < j < |ops| && ops[i].key == ops[j].key
    requires Fresh(Run(g, ops[..i]), ops[i]) && Fresh(Run(g, ops[..j]), ops[j])
    ensures Rotations(Run(g, ops[..i + 1]), ops[i + 1..j + 1]) >= 2
  {
    hide Run, Rotations, Fresh, Admit;
    Next(g, ops, i);
    FreshIsCurrent(Run(g, ops[..i]), ops[i]);
    var rest := ops[i + 1..];
    var n := j - i - 1;
    assert rest[..n] == ops[i + 1..j] && rest[..n + 1] == ops[i + 1..j + 1];
    assert ops[..i + 1] + ops[i + 1..j] == ops[..j];
    RunAppend(g, ops[..i + 1], ops[i + 1..j]);
    FreshAgain(Run(g, ops[..i + 1]), rest, n, ops[i].key);
  }

  lemma {:induction false} RunAppend(g: Gen, a: seq<Op>, b: seq<Op>)
    ensures Run(g, a + b) == Run(Run(g, a), b)
    decreases |b|
  {
    if b == [] {
      assert a + b == a;
    } else {
      RunAppend(g, a, b[..|b| - 1]);
      assert (a + b)[..|a + b| - 1] == a + b[..|b| - 1];
    }
  }

  /** A key in the current generation that is left alone is new again exactly after two rotations. */
  lemma {:induction false} ForgottenExactlyByRotations(g: Gen, ops: seq<Op>, k: Hash)
    requires k in g.cur && k !in g.prev && forall i :: 0 <= i < |ops| ==> ops[i].key != k
    ensures var r, n := Run(g, ops), Rotations(g, ops);
      (k in r.cur <==> n == 0) && (k in r.prev <==> n == 1) && (!Holds(r, k) <==> n >= 2)
  {
    hide Admit, Due;
    if ops != [] {
      ForgottenExactlyByRotations(g, ops[..|ops| - 1], k);
      OtherMoves(Run(g, ops[..|ops| - 1]), ops[|ops| - 1], k);
    }
  }

  lemma OtherMoves(g: Gen, op: Op, k: Hash)
    requires op.key != k
    ensures var r := Admit(g, op);
      if Due(g, op.now) then k !in r.cur && (k in r.prev <==> k in g.cur)
      else (k in r.cur <==> k in g.cur) && (k in r.prev <==> k in g.prev)
  {
  }

  /** Time alone forgets: once two later admissions each come half a ttl or more after the rotation before
      them, the key is new again, however little was admitted. */
  lemma TimeForgets(g: Gen, op: Op, o1: Op, o2: Op)
    requires Fresh(g, op) && o1.key != op.key && o2.key != op.key
    requires o1.now - Admit(g, op).rotated >= g.ttl / 2 && o2.now - o1.now >= g.ttl / 2
    ensures !Holds(Admit(Admit(Admit(g, op), o1), o2), op.key)
  {
  }

  /** Every admission counts once, as stored or as a duplicate. */
  lemma {:induction false} AdmissionsAreCounted(g: Gen, ops: seq<Op>)
    ensures var r := Run(g, ops); r.stored + r.duplicates == g.stored + g.duplicates + |ops|
  {
    if ops != [] {
      AdmissionsAreCounted(g, ops[..|ops| - 1]);
    }
  }

  function Offered(ops: seq<Op>): nat {
    if ops == [] then 0 else Offered(ops[..|ops| - 1]) + |ops[|ops| - 1].body|
  }

  /** What the configured capacity guarantees: within half the ttl, and while less than the threshold has been
      offered, a shard does not rotate, so every key it admitted stays a duplicate. */
  lemma {:induction false} RoomyShardKeepsAll(g: Gen, ops: seq<Op>)
    requires g.cur == map[] == g.prev && g.curBytes == 0 && ops != []
    requires forall i :: 0 <= i < |ops| ==> g.rotated <= ops[i].now < g.rotated + g.ttl / 2
    requires Offered(ops[..|ops| - 1]) < g.maxBytes
    ensures Rotations(g, ops) == 0 && forall i :: 0 <= i < |ops| ==> ops[i].key in Run(g, ops).cur
    ensures var r := Run(g, ops);
      && r.prev == map[] && r.rotated == g.rotated && r.maxBytes == g.maxBytes && r.ttl == g.ttl
      && r.curBytes <= Offered(ops)
  {
    var n := |ops| - 1;
    if n > 0 {
      assert ops[..n][..n - 1] == ops[..n - 1];
      RoomyShardKeepsAll(g, ops[..n]);
    }
  }

  // ---- The byte budget -----------------------------------------------------------------

  /** The rotation threshold of a shard: half its share of the configured ceiling, at least one byte. */
  function PerShard(maxBytes: int): (n: nat)
    ensures n >= 1
  {
    var max := if maxBytes <= 0 then 0x4000_0000 else maxBytes;
    if max / SHARDS / 2 <= 0 then 1 else max / SHARDS / 2
  }

  /** The threshold is the 128th part of the ceiling, rounded down but at least one byte; the ttl is kept. */
  lemma CapacityIsShared(maxBytes: int, ttl: int, defaultTtl: nat, start: int)
    ensures var g := New(maxBytes, ttl, defaultTtl, start);
      && (maxBytes >= 128 ==> 128 * g.maxBytes <= maxBytes < 128 * (g.maxBytes + 1))
      && (0 < maxBytes < 128 ==> g.maxBytes == 1) && (maxBytes <= 0 ==> 128 * g.maxBytes == 0x4000_0000)
      && (ttl > 0 ==> g.ttl == ttl) && (ttl <= 0 ==> g.ttl == defaultTtl)
  {
  }

  /** A new shard; `defaultTtl` is the source's ten minutes in the clock's unit. */
  function New(maxBytes: int, ttl: int, defaultTtl: nat, start: int): Gen {
    Gen(map[], map[], 0, 0, PerShard(maxBytes), if ttl <= 0 then defaultTtl else ttl, start, 0, 0, 0)
  }

  lemma NewIsOk(g: Gen, body: Hash -> seq<byte>)
    requires g.maxBytes >= 1 && g.cur == map[] == g.prev && g.curBytes == 0 == g.prevBytes && g.stored == 0 == g.evicted
    ensures Ok(g, body)
  {
  }

  /** A generation is below the threshold plus one body. */
  lemma GenerationIsBounded(m: Bodies, max: nat, largest: nat)
    requires max >= 1 && Bounded(m, Sum(m), max) && forall k :: k in m ==> |m[k]| <= largest
    ensures Sum(m) < max + largest
  {
    hide Sum;
    if m == map[] {
      EmptySum();
    } else {
      var k :| k in m && Sum(m) - |m[k]| < max;
    }
  }

  /** Over every run from a new shard, with bodies determined by their keys: the accounting and the byte
      counters are exact, and each generation stays below the threshold plus one body. */
  lemma LiveTotalIsBounded(maxBytes: int, ttl: int, defaultTtl: nat, start: int, ops: seq<Op>, body: Hash -> seq<byte>,
                           largest: nat)
    requires forall i :: 0 <= i < |ops| ==> ops[i].body == body(ops[i].key)
    requires forall k :: |body(k)| <= largest
    ensures var g := Run(New(maxBytes, ttl, defaultTtl, start), ops);
      && Ok(g, body)
      && g.curBytes < PerShard(maxBytes) + largest && g.prevBytes < PerShard(maxBytes) + largest
  {
    hide Sum;
    var g0 := New(maxBytes, ttl, defaultTtl, start);
    NewIsOk(g0, body);
    RunOk(g0, ops, body);
    RunKeepsThreshold(g0, ops);
    var g := Run(g0, ops);
    GenerationIsBounded(g.cur, g.maxBytes, largest);
    GenerationIsBounded(g.prev, g.maxBytes, largest);
  }

  lemma {:induction false} RunKeepsThreshold(g: Gen, ops: seq<Op>)
    ensures Run(g, ops).maxBytes == g.maxBytes
  {
    if ops != [] {
      RunKeepsThreshold(g, ops[..|ops| - 1]);
    }
  }

  lemma EmptySum()
    ensures Sum(map[]) == 0
  {
  }

  // ---- Twice the threshold -------------------------------------------------------------------

  /** A shard that has admitted nothing. */
  function Unused(max: nat, ttl: nat, start: int): Gen {
    Gen(map[], map[], 0, 0, max, ttl, start, 0, 0, 0)
  }

  /** Bodies are determined by keys, and none is longer than `largest`. */
  predicate Genuine(ops: seq<Op>, largest: nat) {
    && (forall i :: 0 <= i < |ops| ==> |ops[i].body| <= largest)
    && forall i, j :: 0 <= i < |ops| && 0 <= j < |ops| && ops[i].key == ops[j].key ==> ops[i].body == ops[j].body
  }

  ghost function BodyOf(ops: seq<Op>, k: Hash): seq<byte> {
    if i :| 0 <= i < |ops| && ops[i].key == k then ops[i].body else []
  }

  /** From an unused shard, each generation stays below the threshold plus the largest body. */
  lemma GenuineRunIsBounded(max: nat, ttl: nat, start: int, ops: seq<Op>, largest: nat)
    requires max >= 1 && Genuine(ops, largest)
    ensures var g := Run(Unused(max, ttl, start), ops);
      g.curBytes < max + largest && g.prevBytes < max + largest
  {
    hide Sum, Run;
    var body := (k: Hash) => BodyOf(ops, k);
    var g0 := Unused(max, ttl, start);
    NewIsOk(g0, body);
    RunOk(g0, ops, body);
    RunKeepsThreshold(g0, ops);
    var g := Run(g0, ops);
    GenerationIsBounded(g.cur, g.maxBytes, largest);
    GenerationIsBounded(g.prev, g.maxBytes, largest);
  }

  /** Keys numbered from zero, all of shard zero. */
  function Numbered(i: nat): Hash {
    ToBE(i, 32)
  }

  lemma NumberedApart(i: nat, j: nat)
    requires i < j < 4 * U64
    ensures Numbered(i) != Numbered(j)
  {
    Widths();
    assert Exp256(9) == 256 * Exp256(8);
    Exp256Grows(9, 32);
    BigEndianReads(i, 32);
    BigEndianReads(j, 32);
  }

  /** The `i`th admission of the filling run: a body of `large` bytes ends each generation, one-byte bodies
      come before it. */
  function Filler(max: nat, large: nat, now: int, i: nat): Op {
    Op(Numbered(i), seq(if i == max - 1 || i == 2 * max - 1 then large else 1, _ => 0), now)
  }

  function Filling(max: nat, large: nat, now: int, n: nat): (ops: seq<Op>)
    ensures |ops| == n && forall i :: 0 <= i < n ==> ops[i] == Filler(max, large, now, i)
  {
    seq(n, i requires 0 <= i < n => Filler(max, large, now, i))
  }

  /** After `n` admissions of the filling run. */
  ghost predicate Filled(g: Gen, max: nat, large: nat, start: int, n: nat) {
    && g.maxBytes == max && g.ttl >= 2 && g.rotated == start
    && (forall k :: Holds(g, k) ==> exists i :: 0 <= i < n && k == Numbered(i))
    && (n < max ==> g.curBytes == n && g.prevBytes == 0)
    && (n == max ==> g.curBytes == max - 1 + large && g.prevBytes == 0)
    && (max < n < 2 * max ==> g.curBytes == n - max && g.prevBytes == max - 1 + large)
    && (n == 2 * max ==> g.curBytes == g.prevBytes == max - 1 + large)
  }

  lemma FillOne(g: Gen, max: nat, large: nat, start: int, n: nat)
    requires 1 <= max < U64 && large >= 1 && n < 2 * max && Filled(g, max, large, start, n)
    ensures Filled(Admit(g, Filler(max, large, start, n)), max, large, start, n + 1)
  {
    var op := Filler(max, large, start, n);
    forall i | 0 <= i < n ensures Numbered(i) != op.key { NumberedApart(i, n); }
    hide Numbered;
    assert !Holds(g, op.key);
    var r := Admit(g, op);
    forall k | Holds(r, k) ensures exists i :: 0 <= i < n + 1 && k == Numbered(i) {
      if k == op.key {
        assert k == Numbered(n);
      } else {
        assert Holds(g, k);
      }
    }
  }

  lemma {:induction false} FillingFills(max: nat, large: nat, ttl: nat, start: int, n: nat)
    requires 1 <= max < U64 && large >= 1 && ttl >= 2 && n <= 2 * max
    ensures Filled(Run(Unused(max, ttl, start), Filling(max, large, start, n)), max, large, start, n)
  {
    hide Admit, Filler;
    if n > 0 {
      FillingFills(max, large, ttl, start, n - 1);
      var ops := Filling(max, large, start, n);
      assert ops[..n - 1] == Filling(max, large, start, n - 1);
      FillOne(Run(Unused(max, ttl, start), ops[..n - 1]), max, large, start, n - 1);
    }
  }

  /** The bound is attained, with bodies of one byte and of any one larger size: for every threshold both
      generations end one byte below the threshold plus the larger body. */
  lemma TwiceTheThresholdIsExceeded(max: nat, large: nat, ttl: nat, start: int)
    requires 1 <= max < U64 && large >= 1 && ttl >= 2
    ensures var ops := Filling(max, large, start, 2 * max);
      var g := Run(Unused(max, ttl, start), ops);
      Genuine(ops, large) && g.curBytes == g.prevBytes == max + large - 1
  {
    hide Run;
    FillingFills(max, large, ttl, start, 2 * max);
    var ops := Filling(max, large, start, 2 * max);
    forall i, j | 0 <= i < |ops| && 0 <= j < |ops| && ops[i].key == ops[j].key ensures ops[i].body == ops[j].body {
      if i < j { NumberedApart(i, j); } else if j < i { NumberedApart(j, i); }
    }
  }

  /** "Live total at most twice the threshold", over every run with bodies of at most `largest` bytes, holds
      exactly when no body is longer than one byte. */
  lemma TwiceTheThresholdIsExact(max: nat, largest: nat, ttl: nat, start: int)
    requires 1 <= max < U64 && ttl >= 2
    ensures (forall ops :: Genuine(ops, largest) ==>
               Run(Unused(max, ttl, start), ops).curBytes + Run(Unused(max, ttl, start), ops).prevBytes <= 2 * max) <==>
      largest <= 1
  {
    hide Run, Genuine, Filling;
    if largest <= 1 {
      forall ops | Genuine(ops, largest)
        ensures Run(Unused(max, ttl, start), ops).curBytes + Run(Unused(max, ttl, start), ops).prevBytes <= 2 * max
      {
        GenuineRunIsBounded(max, ttl, start, ops, largest);
      }
    } else {
      TwiceTheThresholdIsExceeded(max, largest, ttl, start);
    }
  }

  lemma GrowsWhenNew(m: Bodies, k: Hash, b: seq<byte>)
    ensures |m[k := b]| == |m| <==> k in m
  {
    if k in m {
      assert m[k := b].Keys == m.Keys;
    } else {
      assert m[k := b].Keys == m.Keys + {k};
    }
  }

  // ---- The shard as it runs --------------------------------------------------------------

  class GenObject {
    var cur: Bodies
    var prev: Bodies
    var curBytes: int
    var prevBytes: int
    const maxBytes: nat
    const ttl: nat
    var rotated: int
    var stored: nat
    var evicted: nat
    var duplicates: nat

    ghost function Value(): Gen
      reads this
    {
      Gen(cur, prev, curBytes, prevBytes, maxBytes, ttl, rotated, stored, evicted, duplicates)
    }

    constructor (maxBytes: nat, ttl: nat, start: int)
      ensures Value() == Gen(map[], map[], 0, 0, maxBytes, ttl, start, 0, 0, 0)
    {
      cur, prev, curBytes, prevBytes := map[], map[], 0, 0;
      this.maxBytes, this.ttl, rotated := maxBytes, ttl, start;
      stored, evicted, duplicates := 0, 0, 0;
    }

    method RotateLocked(now: int)
      modifies this
      ensures Value() == Rotate(old(Value()), now)
    {
      evicted := evicted + |prev|;
      prev, prevBytes := cur, curBytes;
      cur, curBytes := map[], 0;
      rotated := now;
    }

    /** Two probes: the older generation, then the insert itself, whose effect on the size of the
        current map says whether the key was there. */
    method AdmitOwned(key: Hash, body: seq<byte>, now: int) returns (fresh_: bool)
      modifies this
      ensures Value() == Admit(old(Value()), Op(key, body, now))
      ensures fresh_ == Fresh(old(Value()), Op(key, body, now))
    {
      if now - rotated >= ttl / 2 || curBytes >= maxBytes {
        RotateLocked(now);
      }
      if key in prev {
        duplicates := duplicates + 1;
        return false;
      }
      var n := |cur|;
      GrowsWhenNew(cur, key, body);
      cur := cur[key := body];
      if |cur| == n {
        duplicates := duplicates + 1;
        return false;
      }
      curBytes := curBytes + |body|;
      stored := stored + 1;
      return true;
    }
  }
}
