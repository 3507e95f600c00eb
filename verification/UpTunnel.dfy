/**
 The up-tunnel (internal/submit/uptunnel.go): whole objects on a bare stream, one connection at a
 time, over a failover list of addresses.
 */
module UpTunnels {
  import opened Bytes

  /** A connection as its peer sees it: the address dialled and every byte received. */
  datatype Wire = Wire(addr: nat, data: seq<byte>)

  datatype Tunnel = Tunnel(addrs: nat, conn: Option<nat>, cur: nat, wires: seq<Wire>,
                           sent: nat, bytes: nat, failures: nat, redials: nat)

  /** What the network does to one Send: which addresses accept a dial, and whether the write fails,
      after how many bytes. */
  datatype Network = Network(accepts: nat -> bool, writeFails: Option<nat>)

  datatype Event = Send(obj: seq<byte>, net: Network) | Close

  predicate Ok(u: Tunnel) {
    (u.addrs > 0 ==> u.cur < u.addrs) && (u.conn.Some? ==> u.conn.value < |u.wires|)
  }

  // ---- Dialling -----------------------------------------------------------------------

  /** `k` places round a list of `n` from `cur`. */
  function Around(cur: nat, k: nat, n: nat): (a: nat)
    requires cur < n && k <= n
    ensures a < n
  {
    if cur + k < n then cur + k else cur + k - n
  }

  /** The address is the one the program computes. */
  lemma AroundIsModulo(cur: nat, k: nat, n: nat)
    requires cur < n && k <= n
    ensures Around(cur, k, n) == (cur + k) % n
  {
    var a := cur + k;
    var q := a / n;
    assert a == n * q + a % n;
    assert (q <= 0 ==> n * q <= 0) && (q >= 2 ==> n * q >= n * 2);
    assert q == if a < n then 0 else 1;
  }

  /** The first of the attempts `k..n` that is accepted, each one address further round the list. */
  function FirstAccepting(cur: nat, n: nat, accepts: nat -> bool, k: nat): (r: Option<nat>)
    requires k <= n && cur < n
    ensures r.Some? ==> k <= r.value < n && accepts(Around(cur, r.value, n))
    ensures forall j :: k <= j < (if r.Some? then r.value else n) ==> !accepts(Around(cur, j, n))
    decreases n - k
  {
    if k == n then None
    else if accepts(Around(cur, k, n)) then Some(k)
    else FirstAccepting(cur, n, accepts, k + 1)
  }

  /** One pass over the list from the sticky cursor. */
  function Dial(u: Tunnel, accepts: nat -> bool): Tunnel
    requires Ok(u)
  {
    if u.conn.Some? || u.addrs == 0 then u
    else match FirstAccepting(u.cur, u.addrs, accepts, 0)
      case None => u.(failures := u.failures + u.addrs)
      case Some(k) =>
        var a := Around(u.cur, k, u.addrs);
        u.(cur := a, failures := u.failures + k, redials := u.redials + 1,
           conn := Some(|u.wires|), wires := u.wires + [Wire(a, [])])
  }

  function Append(w: Wire, b: seq<byte>): Wire {
    w.(data := w.data + b)
  }

  function Write(u: Tunnel, obj: seq<byte>, fails: Option<nat>): Tunnel
    requires Ok(u) && u.conn.Some?
  {
    var c := u.conn.value;
    match fails
    case None => u.(wires := u.wires[c := Append(u.wires[c], obj)], sent := u.sent + 1, bytes := u.bytes + |obj|)
    case Some(n) =>
      u.(wires := u.wires[c := Append(u.wires[c], Front(obj, n))],
         conn := None, failures := u.failures + 1)
  }

  predicate Delivers(u: Tunnel, e: Event)
    requires Ok(u)
  {
    e.Send? && e.obj != [] && Dial(u, e.net.accepts).conn.Some? && e.net.writeFails.None?
  }

  function Step(u: Tunnel, e: Event): Tunnel
    requires Ok(u)
  {
    match e
    case Close => u.(conn := None)
    case Send(obj, net) =>
      if obj == [] then u
      else
        var d := Dial(u, net.accepts);
        if d.conn.None? then d else Write(d, obj, net.writeFails)
  }

  lemma StepKeepsOk(u: Tunnel, e: Event)
    requires Ok(u)
    ensures Ok(Step(u, e)) && Step(u, e).addrs == u.addrs
  {
  }

  /** The address `k` places round from the cursor. */
  function Place(u: Tunnel, k: nat): nat
    requires u.addrs > 0
  {
    (u.cur + k) % u.addrs
  }

  /** The tunnel `r` dialled the address `k` places round after the ones before it had refused. */
  ghost predicate DialsAfter(u: Tunnel, net: Network, r: Tunnel, k: nat)
    requires u.addrs > 0
  {
    && net.accepts(Place(u, k)) && (forall j :: 0 <= j < k ==> !net.accepts(Place(u, j)))
    && r.cur == Place(u, k) && |r.wires| == |u.wires| + 1 && r.wires[|u.wires|].addr == r.cur
    && r.failures == u.failures + k + if net.writeFails.Some? then 1 else 0
  }

  /** Failover: without a connection, a send goes to the first accepting address in cyclic order from the
      cursor, every address before it having refused; an all-refused pass leaves the cursor where it was. */
  lemma Failover(u: Tunnel, obj: seq<byte>, net: Network)
    requires Ok(u) && u.conn.None? && obj != [] && u.addrs > 0
    ensures var r := Step(u, Send(obj, net));
      if forall k :: 0 <= k < u.addrs ==> !net.accepts(Place(u, k))
      then r.cur == u.cur && r.wires == u.wires && r.conn.None? && r.failures == u.failures + u.addrs
      else exists k :: 0 <= k < u.addrs && DialsAfter(u, net, r, k)
  {
    forall k | 0 <= k < u.addrs ensures Place(u, k) == Around(u.cur, k, u.addrs) {
      AroundIsModulo(u.cur, k, u.addrs);
    }
    hide Place, Around;
    match FirstAccepting(u.cur, u.addrs, net.accepts, 0)
    case None =>
      assert forall k :: 0 <= k < u.addrs ==> !net.accepts(Around(u.cur, k, u.addrs));
    case Some(k) =>
      assert net.accepts(Place(u, k));
      assert DialsAfter(u, net, Step(u, Send(obj, net)), k);
  }

  lemma WriteIsSticky(u: Tunnel, e: Event)
    requires Ok(u) && u.conn.Some?
    ensures Step(u, e).cur == u.cur
  {
  }

  // ---- Streams ------------------------------------------------------------------------

  /** A connection read as a stream of objects: whole ones, then at most the front of one more. */
  datatype Stream = Stream(whole: seq<seq<byte>>, tail: seq<byte>)

  /** A run: the tunnel, the streams it produced, and the objects whose Send succeeded, in order. */
  datatype History = History(u: Tunnel, streams: seq<Stream>, done: seq<seq<byte>>)

  ghost function AllWhole(streams: seq<Stream>): seq<seq<byte>> {
    if streams == [] then [] else AllWhole(streams[..|streams| - 1]) + streams[|streams| - 1].whole
  }

  /** The bytes of each connection are its stream, only a dropped connection has a partial object, and
      the whole objects of all connections, in order, are the objects sent. */
  ghost predicate Faithful(h: History) {
    && Ok(h.u) && |h.streams| == |h.u.wires|
    && (forall c :: 0 <= c < |h.streams| ==> h.u.wires[c].data == Flatten(h.streams[c].whole) + h.streams[c].tail)
    && (h.u.conn.Some? ==> h.u.conn.value == |h.streams| - 1 && h.streams[h.u.conn.value].tail == [])
    && AllWhole(h.streams) == h.done
  }

  const NEW: Stream := Stream([], [])

  /** The Send writes its object on connection `c`, dialled for it if need be. */
  predicate WritesOn(u: Tunnel, e: Event, c: nat)
    requires Ok(u)
  {
    e.Send? && e.obj != [] && Dial(u, e.net.accepts).conn == Some(c)
  }

  /** The Send breaks connection `c`: only the front of its object gets through. */
  predicate Breaks(u: Tunnel, e: Event, c: nat)
    requires Ok(u)
  {
    WritesOn(u, e, c) && e.net.writeFails.Some?
  }

  /** The part of its object that a Send that fails gets on the wire. */
  function Front(obj: seq<byte>, n: nat): (f: seq<byte>)
    ensures f <= obj && |f| <= n
  {
    obj[..if n <= |obj| then n else |obj|]
  }

  /** What an event makes of the stream of connection `c`. */
  function Next(u: Tunnel, e: Event, c: nat, s: Stream): Stream
    requires Ok(u)
  {
    if !WritesOn(u, e, c) then s
    else match e.net.writeFails
      case None => s.(whole := s.whole + [e.obj])
      case Some(n) => s.(tail := Front(e.obj, n))
  }

  /** One event: the stream it writes on grows by one whole object or closes with the front of one, and
      no other stream changes. */
  ghost predicate Extends(h: History, e: Event, h': History)
    requires Ok(h.u)
  {
    && h'.u == Step(h.u, e)
    && h'.done == h.done + (if Delivers(h.u, e) then [e.obj] else [])
    && |h.streams| <= |h'.streams| <= |h.streams| + 1
    && forall c :: 0 <= c < |h'.streams| ==>
         h'.streams[c] == Next(h.u, e, c, if c < |h.streams| then h.streams[c] else NEW)
  }

  lemma AllWholeSnoc(streams: seq<Stream>, s: Stream)
    ensures AllWhole(streams + [s]) == AllWhole(streams) + s.whole
  {
    assert (streams + [s])[..|streams|] == streams;
  }

  lemma StreamOpens(h: History, accepts: nat -> bool) returns (h': History)
    requires Faithful(h) && h.u.conn.None? && Dial(h.u, accepts).conn.Some?
    ensures Faithful(h') && h'.u == Dial(h.u, accepts) && h'.done == h.done
    ensures h'.streams == h.streams + [NEW] && h'.u.conn == Some(|h.streams|)
  {
    AllWholeSnoc(h.streams, NEW);
    h' := History(Dial(h.u, accepts), h.streams + [NEW], h.done);
    assert Flatten([]) + [] == [];
  }

  lemma StreamGrows(h: History, obj: seq<byte>, fails: Option<nat>) returns (h': History)
    requires Faithful(h) && h.u.conn.Some?
    ensures Faithful(h') && h'.u == Write(h.u, obj, fails)
    ensures h'.done == h.done + (if fails.None? then [obj] else [])
    ensures |h'.streams| == |h.streams| && forall c :: 0 <= c < |h.streams| - 1 ==> h'.streams[c] == h.streams[c]
    ensures var n := |h.streams| - 1;
      h'.streams[n] == match fails
        case None => h.streams[n].(whole := h.streams[n].whole + [obj])
        case Some(k) => h.streams[n].(tail := Front(obj, k))
  {
    var n := |h.streams| - 1;
    var init, s := h.streams[..n], h.streams[n];
    assert init + [s] == h.streams;
    AllWholeSnoc(init, s);
    FlattenSnoc(s.whole, obj);
    var s' := match fails
      case None => Stream(s.whole + [obj], [])
      case Some(k) => Stream(s.whole, Front(obj, k));
    AllWholeSnoc(init, s');
    h' := History(Write(h.u, obj, fails), init + [s'], h.done + if fails.None? then [obj] else []);
  }

  /** Every event keeps the streams faithful: each connection carries whole objects in order with at
      most one final partial object, and no object spans two connections. */
  lemma StepIsFaithful(h: History, e: Event) returns (h': History)
    requires Faithful(h)
    ensures Faithful(h') && Extends(h, e, h')
  {
    hide Dial, Write;
    match e
    case Close =>
      h' := h.(u := h.u.(conn := None));
    case Send(obj, net) =>
      if obj == [] {
        h' := h;
      } else {
        h' := SendIsFaithful(h, obj, net);
      }
  }

  lemma DialFacts(u: Tunnel, accepts: nat -> bool)
    requires Ok(u)
    ensures Ok(Dial(u, accepts)) && (u.conn.Some? ==> Dial(u, accepts) == u)
    ensures Dial(u, accepts).conn.None? ==> Dial(u, accepts).wires == u.wires
  {
  }

  lemma LiveIsLast(h: History)
    requires Faithful(h)
    ensures Ok(h.u) && |h.streams| == |h.u.wires| && (h.u.conn.Some? ==> h.u.conn.value == |h.streams| - 1)
  {
  }

  lemma Refused(h: History, accepts: nat -> bool)
    requires Faithful(h) && Dial(h.u, accepts).conn.None?
    ensures Faithful(h.(u := Dial(h.u, accepts)))
  {
  }

  lemma SendIsFaithful(h: History, obj: seq<byte>, net: Network) returns (h': History)
    requires Faithful(h) && obj != []
    ensures Faithful(h') && Extends(h, Send(obj, net), h')
  {
    DialFacts(h.u, net.accepts);
    LiveIsLast(h);
    hide Write, Dial, Faithful;
    if h.u.conn.Some? {
      h' := StreamGrows(h, obj, net.writeFails);
    } else if Dial(h.u, net.accepts).conn.Some? {
      var d := StreamOpens(h, net.accepts);
      h' := StreamGrows(d, obj, net.writeFails);
    } else {
      h' := h.(u := Dial(h.u, net.accepts));
      Refused(h, net.accepts);
    }
  }

  function Run(u: Tunnel, es: seq<Event>): (r: Tunnel)
    requires Ok(u)
    ensures Ok(r)
  {
    if es == [] then u
    else
      var before, e := Run(u, es[..|es| - 1]), es[|es| - 1];
      StepKeepsOk(before, e);
      Step(before, e)
  }

  function Sent(u: Tunnel, es: seq<Event>): seq<seq<byte>>
    requires Ok(u)
  {
    if es == [] then []
    else
      var init, e := es[..|es| - 1], es[|es| - 1];
      Sent(u, init) + if Delivers(Run(u, init), e) then [e.obj] else []
  }

  /** The stream of connection `c`, read off the events: the objects whose Send went through on it, in
      order, then the front of the object whose Send broke it. */
  function StreamOf(u: Tunnel, es: seq<Event>, c: nat): Stream
    requires Ok(u)
  {
    if es == [] then NEW
    else Next(Run(u, es[..|es| - 1]), es[|es| - 1], c, StreamOf(u, es[..|es| - 1], c))
  }

  const IDLE: Tunnel := Tunnel(0, None, 0, [], 0, 0, 0, 0)

  /** Over every sequence of dial and write outcomes: each connection carries the objects whose Send went
      through on it, whole and in order, then at most the front of the one object whose Send broke it;
      read connection by connection these are exactly the objects sent, in order; a live connection
      ends in a whole object. */
  lemma {:induction false} RunsAreFaithful(addrs: nat, es: seq<Event>) returns (h: History)
    ensures Faithful(h) && h.u == Run(IDLE.(addrs := addrs), es) && h.done == Sent(IDLE.(addrs := addrs), es)
    ensures forall c :: 0 <= c < |h.streams| ==> h.streams[c] == StreamOf(IDLE.(addrs := addrs), es, c)
    ensures forall c :: c >= |h.streams| ==> StreamOf(IDLE.(addrs := addrs), es, c) == NEW
  {
    hide Step, Delivers, Next, Faithful;
    var u := IDLE.(addrs := addrs);
    if es == [] {
      h := History(u, [], []);
      assert Faithful(h) by { NothingSent(u); }
    } else {
      var init, e := es[..|es| - 1], es[|es| - 1];
      var h0 := RunsAreFaithful(addrs, init);
      h := StepIsFaithful(h0, e);
      forall c | c >= |h.streams| ensures StreamOf(u, es, c) == NEW {
        UndialledStaysNew(h0, e, h, c);
      }
    }
  }

  lemma NothingSent(u: Tunnel)
    requires Ok(u) && u.conn.None? && u.wires == []
    ensures Faithful(History(u, [], []))
  {
  }

  lemma UndialledStaysNew(h: History, e: Event, h': History, c: nat)
    requires Faithful(h) && Faithful(h') && Extends(h, e, h') && c >= |h'.streams|
    ensures Next(h.u, e, c, NEW) == NEW
  {
  }

  /** The cursor is sticky over every run: it stands at the address of the last connection that was opened,
      or where it began; a failed write, an all-refused pass, a close and a send on a live connection leave
      it alone. */
  lemma {:induction false} CursorIsLastDialled(addrs: nat, es: seq<Event>)
    ensures var u := Run(IDLE.(addrs := addrs), es);
      && u.cur == (if u.wires == [] then 0 else u.wires[|u.wires| - 1].addr)
      && (forall c :: 0 <= c < |u.wires| ==> u.wires[c].addr < addrs)
      && u.redials == |u.wires| && u.addrs == addrs
  {
    if es != [] {
      CursorIsLastDialled(addrs, es[..|es| - 1]);
      StepKeepsCursor(Run(IDLE.(addrs := addrs), es[..|es| - 1]), es[|es| - 1]);
    }
  }

  lemma StepKeepsCursor(u: Tunnel, e: Event)
    requires Ok(u) && u.redials == |u.wires|
    requires u.cur == (if u.wires == [] then 0 else u.wires[|u.wires| - 1].addr)
    requires forall c :: 0 <= c < |u.wires| ==> u.wires[c].addr < u.addrs
    ensures var r := Step(u, e);
      && r.cur == (if r.wires == [] then 0 else r.wires[|r.wires| - 1].addr)
      && (forall c :: 0 <= c < |r.wires| ==> r.wires[c].addr < u.addrs)
      && r.redials == |r.wires| && r.addrs == u.addrs
  {
  }

  /** The counters, over every run: objects and bytes of the Sends that went through, and nothing else. */
  lemma {:induction false} CountersAreExact(addrs: nat, es: seq<Event>)
    ensures var u, done := Run(IDLE.(addrs := addrs), es), Sent(IDLE.(addrs := addrs), es);
      u.sent == |done| && u.bytes == |Flatten(done)|
  {
    hide Dial, Flatten;
    var u0 := IDLE.(addrs := addrs);
    if es == [] {
      assert |Flatten([])| == 0 by { FlattenNothing(); }
    } else {
      var init, e := es[..|es| - 1], es[|es| - 1];
      CountersAreExact(addrs, init);
      CountStep(Run(u0, init), e);
      if Delivers(Run(u0, init), e) {
        FlattenSnoc(Sent(u0, init), e.obj);
      } else {
        assert Sent(u0, init) + [] == Sent(u0, init);
      }
    }
  }

  lemma FlattenNothing()
    ensures Flatten([]) == []
  {
  }

  lemma CountStep(u: Tunnel, e: Event)
    requires Ok(u)
    ensures var r := Step(u, e);
      if Delivers(u, e) then r.sent == u.sent + 1 && r.bytes == u.bytes + |e.obj|
      else r.sent == u.sent && r.bytes == u.bytes
  {
  }

  /** Whether the event at `i` of the run breaks connection `c`. */
  predicate BreaksAt(u: Tunnel, es: seq<Event>, i: nat, c: nat)
    requires Ok(u) && i < |es|
  {
    Breaks(Run(u, es[..i]), es[i], c)
  }

  /** A connection that was opened and is not the live one is never written on again. */
  predicate Closed(u: Tunnel, c: nat) {
    u.conn != Some(c) && c < |u.wires|
  }

  lemma ClosedStays(u: Tunnel, e: Event, c: nat)
    requires Ok(u) && Closed(u, c)
    ensures Closed(Step(u, e), c) && !WritesOn(u, e, c)
  {
  }

  /** Closing drops the live connection for good. */
  lemma CloseEnds(u: Tunnel)
    requires Ok(u)
    ensures Step(u, Close).conn.None? && (u.conn.Some? ==> Closed(Step(u, Close), u.conn.value))
    ensures Step(u, Close).wires == u.wires && Step(u, Close).cur == u.cur
  {
  }

  lemma {:induction false} ClosedForGood(u: Tunnel, es: seq<Event>, i: nat, c: nat)
    requires Ok(u) && i <= |es| && Closed(Run(u, es[..i]), c)
    ensures Closed(Run(u, es), c) && StreamOf(u, es, c) == StreamOf(u, es[..i], c)
  {
    hide Step, Next;
    if i == |es| {
      assert es[..i] == es;
    } else {
      var init, e := es[..|es| - 1], es[|es| - 1];
      assert init[..i] == es[..i];
      ClosedForGood(u, init, i, c);
      ClosedStays(Run(u, init), e, c);
      UnwrittenStays(Run(u, init), e, c, StreamOf(u, init, c));
    }
  }

  lemma UnwrittenStays(u: Tunnel, e: Event, c: nat, s: Stream)
    requires Ok(u) && !WritesOn(u, e, c)
    ensures Next(u, e, c, s) == s
  {
  }

  lemma BreakCloses(u: Tunnel, e: Event, c: nat, s: Stream)
    requires Ok(u) && Breaks(u, e, c)
    ensures Closed(Step(u, e), c) && Next(u, e, c, s).tail == Front(e.obj, e.net.writeFails.value)
  {
  }

  /** At most one partial object a connection: a Send that breaks a connection leaves exactly the front of
      its object as the tail, for good, and no later Send breaks it again. */
  lemma BreaksOnce(u: Tunnel, es: seq<Event>, i: nat, c: nat)
    requires Ok(u) && i < |es| && BreaksAt(u, es, i, c)
    ensures StreamOf(u, es, c).tail == Front(es[i].obj, es[i].net.writeFails.value)
    ensures forall j :: i < j < |es| ==> !BreaksAt(u, es, j, c)
  {
    hide Step, Next, Run, WritesOn;
    assert es[..i + 1][..i] == es[..i];
    RunSnoc(u, es, i, c);
    BreakCloses(Run(u, es[..i]), es[i], c, StreamOf(u, es[..i], c));
    ClosedForGood(u, es, i + 1, c);
    forall j | i < j < |es| ensures !BreaksAt(u, es, j, c) {
      assert es[..j][..i + 1] == es[..i + 1];
      ClosedForGood(u, es[..j], i + 1, c);
      ClosedStays(Run(u, es[..j]), es[j], c);
    }
  }

  lemma RunSnoc(u: Tunnel, es: seq<Event>, i: nat, c: nat)
    requires Ok(u) && i < |es|
    ensures Run(u, es[..i + 1]) == Step(Run(u, es[..i]), es[i])
    ensures StreamOf(u, es[..i + 1], c) == Next(Run(u, es[..i]), es[i], c, StreamOf(u, es[..i], c))
  {
    assert es[..i + 1][..i] == es[..i];
  }

  /** Every partial object on a wire is the front of the object of the one Send that broke the wire. */
  lemma {:induction false} TailsAreBroken(u: Tunnel, es: seq<Event>, c: nat) returns (i: nat)
    requires Ok(u) && StreamOf(u, es, c).tail != []
    ensures i < |es| && BreaksAt(u, es, i, c)
    ensures StreamOf(u, es, c).tail == Front(es[i].obj, es[i].net.writeFails.value)
  {
    var n := |es| - 1;
    if Breaks(Run(u, es[..n]), es[n], c) {
      i := n;
    } else {
      i := TailsAreBroken(u, es[..n], c);
      assert es[..n][..i] == es[..i];
    }
  }

  // ---- The tunnel as it runs --------------------------------------------------------------

  class UpTunnel {
    const addrs: nat
    var conn: Option<nat>
    var cur: nat
    var wires: seq<Wire>
    var sent: nat
    var bytes: nat
    var failures: nat
    var redials: nat

    ghost function Value(): Tunnel
      reads this
    {
      Tunnel(addrs, conn, cur, wires, sent, bytes, failures, redials)
    }

    constructor (addrs: nat)
      ensures Ok(Value()) && Value() == IDLE.(addrs := addrs)
    {
      this.addrs, conn, cur, wires := addrs, None, 0, [];
      sent, bytes, failures, redials := 0, 0, 0, 0;
    }

    method Connect(accepts: nat -> bool)
      requires Ok(Value()) && conn.None? && addrs > 0
      modifies this
      ensures Value() == Dial(old(Value()), accepts)
    {
      var k := 0;
      ghost var start, base := cur, failures;
      while k < addrs
        invariant 0 <= k <= addrs && conn.None?
        invariant cur == Around(start, k, addrs) && failures == base + k
        invariant FirstAccepting(start, addrs, accepts, 0) == FirstAccepting(start, addrs, accepts, k)
        invariant wires == old(wires) && redials == old(redials) && sent == old(sent) && bytes == old(bytes)
      {
        var addr := cur;
        if accepts(addr) {
          conn := Some(|wires|);
          wires := wires + [Wire(addr, [])];
          redials := redials + 1;
          return;
        }
        failures := failures + 1;
        cur := if cur + 1 < addrs then cur + 1 else 0;
        k := k + 1;
      }
    }

    method Submit(obj: seq<byte>, net: Network) returns (ok: bool)
      requires Ok(Value())
      modifies this
      ensures Ok(Value()) && Value() == Step(old(Value()), Send(obj, net))
      ensures ok == Delivers(old(Value()), Send(obj, net))
    {
      StepKeepsOk(Value(), Send(obj, net));
      if |obj| == 0 {
        return false;
      }
      if conn.None? {
        if addrs == 0 {
          return false;
        }
        Connect(net.accepts);
        if conn.None? {
          return false;
        }
      }
      var c := conn.value;
      if net.writeFails.Some? {
        var n := net.writeFails.value;
        wires := wires[c := Append(wires[c], Front(obj, n))];
        conn := None;
        failures := failures + 1;
        return false;
      }
      wires := wires[c := Append(wires[c], obj)];
      sent := sent + 1;
      bytes := bytes + |obj|;
      return true;
    }

    method Shut()
      requires Ok(Value())
      modifies this
      ensures Ok(Value()) && Value() == Step(old(Value()), Close)
    {
      conn := None;
    }
  }
}
