/**
 Transactions as the bridge walks them: BRC-12 raw and BRC-30 extended format
 (internal/txpipe/txpipe.go). The walk never builds a transaction, it only finds
 where the parts end and which outputs the inputs spend.
 */
module Transactions {
  import opened Bytes
  import VarInts

  type Bytes4 = b: seq<byte> | |b| == 4 witness [0, 0, 0, 0]
  type Bytes8 = b: seq<byte> | |b| == 8 witness [0, 0, 0, 0, 0, 0, 0, 0]

  const MAX_LEN: nat := 0x8000_0000_0000_0000

  /** Script bytes: a length a machine `int` can hold. */
  type Script = b: seq<byte> | |b| < MAX_LEN witness []

  datatype Input = Input(prev: Hash, index: Bytes4, unlocking: Script, sequence: Bytes4,
                         spentValue: Bytes8, spentLocking: Script)
  datatype Output = Output(value: Bytes8, locking: Script)
  datatype Tx = Tx(version: Bytes4, inputs: seq<Input>, outputs: seq<Output>, locktime: Bytes4)

  const EF_MARKER: seq<byte> := [0, 0, 0, 0, 0, 0xEF]

  // ---- Serialization -------------------------------------------------------

  function Prefixed(s: Script): seq<byte> {
    VarInts.Encode(|s|) + s
  }

  function SerializeInput(i: Input, ef: bool): seq<byte> {
    (i.prev + i.index) + (Prefixed(i.unlocking) + i.sequence)
    + if ef then i.spentValue + Prefixed(i.spentLocking) else []
  }

  function SerializeInputs(ins: seq<Input>, ef: bool): seq<byte> {
    if ins == [] then [] else SerializeInput(ins[0], ef) + SerializeInputs(ins[1..], ef)
  }

  function SerializeOutputs(outs: seq<Output>): seq<byte> {
    if outs == [] then [] else (outs[0].value + Prefixed(outs[0].locking)) + SerializeOutputs(outs[1..])
  }

  predicate Serializable(t: Tx) {
    1 <= |t.inputs| < MAX_LEN && |t.outputs| < MAX_LEN
  }

  function SerializeTail(t: Tx): seq<byte>
    requires Serializable(t)
  {
    (VarInts.Encode(|t.outputs|) + SerializeOutputs(t.outputs)) + t.locktime
  }

  /** The transaction on the wire, in standard or in extended format. */
  function Serialize(t: Tx, ef: bool): seq<byte>
    requires Serializable(t)
  {
    (t.version + if ef then EF_MARKER else [])
    + ((VarInts.Encode(|t.inputs|) + SerializeInputs(t.inputs, ef)) + SerializeTail(t))
  }

  /** The layout itself: version, the marker 00 00 00 00 00 EF in extended format alone, the number of inputs,
      the first input's prevout txid; the locktime comes last. */
  lemma TxLayout(t: Tx, ef: bool)
    requires Serializable(t)
    ensures var b, m := Serialize(t, ef), if ef then 10 else 4;
      var n := VarInts.Encode(|t.inputs|);
      && |b| >= m + |n| + 40
      && b[..4] == t.version && (ef ==> b[4..10] == [0, 0, 0, 0, 0, 0xEF])
      && b[m..m + |n|] == n && b[m + |n|..m + |n| + 32] == t.inputs[0].prev
      && b[m + |n| + 32..m + |n| + 36] == t.inputs[0].index && b[|b| - 4..] == t.locktime
  {
    hide VarInts.Encode, SerializeInputs, SerializeTail, EF_MARKER;
    var n := VarInts.Encode(|t.inputs|);
    var rest := FirstInput(t.inputs, ef);
    var init := LocktimeIsLast(t);
    var head := t.version + if ef then EF_MARKER else [];
    var i := t.inputs[0];
    assert Serialize(t, ef) == head + ((n + (i.prev + (i.index + rest))) + (init + t.locktime));
    assert EF_MARKER == [0, 0, 0, 0, 0, 0xEF] by { MarkerIs(); }
    assert head[..4] == t.version && (ef ==> head[4..] == EF_MARKER);
    Pieces(head, n, i.prev, i.index, rest, init, t.locktime);
  }

  lemma MarkerIs()
    ensures EF_MARKER == [0, 0, 0, 0, 0, 0xEF]
  {
  }

  lemma FirstInput(ins: seq<Input>, ef: bool) returns (rest: seq<byte>)
    requires ins != []
    ensures SerializeInputs(ins, ef) == ins[0].prev + (ins[0].index + rest)
  {
    hide VarInts.Encode;
    var i := ins[0];
    rest := ((Prefixed(i.unlocking) + i.sequence) + if ef then i.spentValue + Prefixed(i.spentLocking) else [])
      + SerializeInputs(ins[1..], ef);
  }

  lemma LocktimeIsLast(t: Tx) returns (init: seq<byte>)
    requires Serializable(t)
    ensures SerializeTail(t) == init + t.locktime
  {
    init := VarInts.Encode(|t.outputs|) + SerializeOutputs(t.outputs);
  }

  lemma Pieces(head: seq<byte>, n: seq<byte>, p: seq<byte>, i: seq<byte>, rest: seq<byte>, init: seq<byte>,
               last: seq<byte>)
    ensures var b, m := head + ((n + (p + (i + rest))) + (init + last)), |head| + |n|;
      && b[..|head|] == head && b[|head|..m] == n && b[m..m + |p|] == p && b[m + |p|..m + |p| + |i|] == i
      && b[|b| - |last|..] == last
  {
  }

  function Prevouts(ins: seq<Input>): (r: seq<Hash>)
    ensures |r| == |ins| && forall i :: 0 <= i < |ins| ==> r[i] == ins[i].prev
  {
    if ins == [] then [] else [ins[0].prev] + Prevouts(ins[1..])
  }

  // ---- The walk ------------------------------------------------------------

  /** The prevout txids the walk reported, and where the inputs end (None: malformed). */
  datatype Walk = Walk(refs: seq<Hash>, end: Option<nat>)

  /** The end of the length-prefixed field at `off`; it may lie beyond the buffer. */
  function FieldEnd(b: seq<byte>, off: nat): (r: Option<nat>)
    ensures r.Some? ==> off < r.value
  {
    match VarInts.ReadAt(b, off)
    case None => None
    case Some(v) => Some(off + v.width + v.value)
  }

  /** The end of the input that starts at `off`. */
  function InputEnd(tx: seq<byte>, off: nat, ef: bool): (r: Option<nat>)
    ensures r.Some? ==> off + 36 < r.value <= |tx|
  {
    match FieldEnd(tx, off + 36)
    case None => None
    case Some(script) =>
      var o := script + 4;
      if ef then
        if o + 8 > |tx| then None
        else match FieldEnd(tx, o + 8)
             case None => None
             case Some(e) => if e > |tx| then None else Some(e)
      else if o > |tx| then None else Some(o)
  }

  function WalkInputs(tx: seq<byte>, off: nat, count: nat, ef: bool): (w: Walk)
    ensures w.end.Some? ==> off <= w.end.value && (count > 0 ==> off + 36 < w.end.value <= |tx|)
    decreases count
  {
    if count == 0 then Walk([], Some(off))
    else if off + 36 > |tx| then Walk([], None)
    else
      var h: Hash := tx[off..off + 32];
      match InputEnd(tx, off, ef)
      case None => Walk([h], None)
      case Some(e) =>
        var rest := WalkInputs(tx, e, count - 1, ef);
        Walk([h] + rest.refs, rest.end)
  }

  predicate IsEF(tx: seq<byte>) {
    |tx| >= 10 && tx[4..10] == EF_MARKER
  }

  /** The whole input walk: what it reports even when it fails half-way. */
  function Inputs(tx: seq<byte>): (w: Walk)
    ensures w.end.Some? ==> 10 <= w.end.value <= |tx|
  {
    if |tx| < 10 then Walk([], None)
    else
      var off := if IsEF(tx) then 10 else 4;
      match VarInts.ReadAt(tx, off)
      case None => Walk([], None)
      case Some(c) => if c.value == 0 then Walk([], None) else WalkInputs(tx, off + c.width, c.value, IsEF(tx))
  }

  function OutputsEnd(b: seq<byte>, off: nat, count: nat): (r: Option<nat>)
    ensures r.Some? ==> off <= r.value && (count > 0 ==> r.value <= |b|)
    decreases count
  {
    if count == 0 then Some(off)
    else if off + 8 > |b| then None
    else match FieldEnd(b, off + 8)
         case None => None
         case Some(e) => if e > |b| then None else OutputsEnd(b, e, count - 1)
  }

  /** The end of a transaction whose outputs start at `off`: output count, outputs, locktime. */
  function TailEnd(b: seq<byte>, off: nat): (r: Option<nat>)
    ensures r.Some? ==> off < r.value <= |b|
  {
    match VarInts.ReadAt(b, off)
    case None => None
    case Some(c) =>
      match OutputsEnd(b, off + c.width, c.value)
      case None => None
      case Some(outs) => if outs + 4 > |b| then None else Some(outs + 4)
  }

  /** The size of the transaction at the front of `b`, as the framing codec delimits it. */
  function TxSize(b: seq<byte>): (r: Option<nat>)
    ensures r.Some? ==> 10 <= r.value <= |b|
  {
    match Inputs(b).end
    case None => None
    case Some(ins) => TailEnd(b, ins)
  }

  // ---- Locality: nothing past the end is looked at ---------------------------

  lemma FieldIsLocal(b: seq<byte>, b': seq<byte>, off: nat, e: nat)
    requires Agree(b, b', e)
    requires FieldEnd(b, off).Some? && FieldEnd(b, off).value <= e
    ensures FieldEnd(b', off) == FieldEnd(b, off)
  {
    VarInts.ReadIsLocal(b, b', off, e);
  }

  lemma InputIsLocal(b: seq<byte>, b': seq<byte>, off: nat, ef: bool, e: nat)
    requires Agree(b, b', e)
    requires InputEnd(b, off, ef).Some? && InputEnd(b, off, ef).value <= e
    ensures InputEnd(b', off, ef) == InputEnd(b, off, ef)
  {
    FieldIsLocal(b, b', off + 36, e);
    if ef {
      FieldIsLocal(b, b', FieldEnd(b, off + 36).value + 12, e);
    }
  }

  lemma {:induction false} WalkIsLocal(b: seq<byte>, b': seq<byte>, off: nat, count: nat, ef: bool, e: nat)
    requires Agree(b, b', e)
    requires WalkInputs(b, off, count, ef).end.Some? && WalkInputs(b, off, count, ef).end.value <= e
    ensures WalkInputs(b', off, count, ef) == WalkInputs(b, off, count, ef)
    decreases count
  {
    hide InputEnd;
    if count > 0 {
      var next := InputEnd(b, off, ef).value;
      WalkIsLocal(b, b', next, count - 1, ef, e);
      InputIsLocal(b, b', off, ef, e);
      assert b'[off..off + 32] == b[off..off + 32];
    }
  }

  lemma {:induction false} OutputsAreLocal(b: seq<byte>, b': seq<byte>, off: nat, count: nat, e: nat)
    requires Agree(b, b', e)
    requires OutputsEnd(b, off, count).Some? && OutputsEnd(b, off, count).value <= e
    ensures OutputsEnd(b', off, count) == OutputsEnd(b, off, count)
    decreases count
  {
    if count > 0 {
      FieldIsLocal(b, b', off + 8, e);
      OutputsAreLocal(b, b', FieldEnd(b, off + 8).value, count - 1, e);
    }
  }

  lemma InputsAreLocal(b: seq<byte>, b': seq<byte>, e: nat)
    requires Agree(b, b', e)
    requires Inputs(b).end.Some? && Inputs(b).end.value <= e
    ensures Inputs(b') == Inputs(b)
  {
    hide VarInts.ReadAt, WalkInputs;
    assert b'[4..10] == b[4..10];
    var off := if IsEF(b) then 10 else 4;
    VarInts.ReadIsLocal(b, b', off, e);
    var c := VarInts.ReadAt(b, off).value;
    WalkIsLocal(b, b', off + c.width, c.value, IsEF(b), e);
  }

  lemma TailIsLocal(b: seq<byte>, b': seq<byte>, off: nat, e: nat)
    requires Agree(b, b', e) && TailEnd(b, off) == Some(e)
    ensures TailEnd(b', off) == Some(e)
  {
    hide VarInts.ReadAt;
    VarInts.ReadIsLocal(b, b', off, e);
    var c := VarInts.ReadAt(b, off).value;
    OutputsAreLocal(b, b', off + c.width, c.value, e);
  }

  /** A transaction keeps its size whatever follows it: the coinbase of a block frame and an object
      of a bare stream are delimited by this alone. */
  lemma TxSizeIsPrefixStable(b: seq<byte>, b': seq<byte>)
    requires TxSize(b).Some? && Agree(b, b', TxSize(b).value)
    ensures TxSize(b') == TxSize(b)
  {
    var e := TxSize(b).value;
    InputsAreLocal(b, b', e);
    TailIsLocal(b, b', Inputs(b).end.value, e);
  }

  // ---- The walk undoes serialization ---------------------------------------

  lemma FieldReads(b: seq<byte>, off: nat, s: Script)
    requires At(b, off, Prefixed(s))
    ensures FieldEnd(b, off) == Some(off + |Prefixed(s)|)
  {
    AtSplit(b, off, VarInts.Encode(|s|), s);
    VarInts.ReadsEncoded(b, off, |s|);
  }

  lemma InputReads(b: seq<byte>, off: nat, i: Input, ef: bool)
    requires At(b, off, SerializeInput(i, ef))
    ensures InputEnd(b, off, ef) == Some(off + |SerializeInput(i, ef)|)
    ensures off + 36 <= |b| && b[off..off + 32] == i.prev
  {
    hide FieldEnd, Prefixed, VarInts.Encode, VarInts.ReadAt, At;
    AtSlice(b, off, SerializeInput(i, ef));
    var head, script := i.prev + i.index, Prefixed(i.unlocking) + i.sequence;
    var spent := if ef then i.spentValue + Prefixed(i.spentLocking) else [];
    AtSplit(b, off, head + script, spent);
    AtSplit(b, off, head, script);
    AtSplit(b, off, i.prev, i.index);
    AtSlice(b, off, i.prev);
    AtSplit(b, off + 36, Prefixed(i.unlocking), i.sequence);
    FieldReads(b, off + 36, i.unlocking);
    if ef {
      var o := off + |head + script|;
      AtSplit(b, o, i.spentValue, Prefixed(i.spentLocking));
      FieldReads(b, o + 8, i.spentLocking);
    }
  }

  lemma FirstInputReads(b: seq<byte>, off: nat, ins: seq<Input>, ef: bool) returns (e: nat)
    requires ins != [] && At(b, off, SerializeInputs(ins, ef))
    ensures e == off + |SerializeInput(ins[0], ef)| && At(b, e, SerializeInputs(ins[1..], ef))
    ensures InputEnd(b, off, ef) == Some(e)
    ensures off + 36 <= |b| && b[off..off + 32] == ins[0].prev
  {
    e := off + |SerializeInput(ins[0], ef)|;
    AtSplit(b, off, SerializeInput(ins[0], ef), SerializeInputs(ins[1..], ef));
    InputReads(b, off, ins[0], ef);
  }

  lemma {:induction false} InputsRead(b: seq<byte>, off: nat, ins: seq<Input>, ef: bool)
    requires At(b, off, SerializeInputs(ins, ef))
    ensures WalkInputs(b, off, |ins|, ef) == Walk(Prevouts(ins), Some(off + |SerializeInputs(ins, ef)|))
    decreases |ins|
  {
    hide InputEnd, SerializeInput, At;
    if ins != [] {
      var e := FirstInputReads(b, off, ins, ef);
      InputsRead(b, e, ins[1..], ef);
    }
  }

  lemma {:induction false} OutputsRead(b: seq<byte>, off: nat, outs: seq<Output>)
    requires At(b, off, SerializeOutputs(outs))
    ensures OutputsEnd(b, off, |outs|) == Some(off + |SerializeOutputs(outs)|)
    decreases |outs|
  {
    if outs != [] {
      var one := outs[0].value + Prefixed(outs[0].locking);
      AtSplit(b, off, one, SerializeOutputs(outs[1..]));
      AtSplit(b, off, outs[0].value, Prefixed(outs[0].locking));
      FieldReads(b, off + 8, outs[0].locking);
      OutputsRead(b, off + |one|, outs[1..]);
    }
  }

  /** The marker is never misread: a standard transaction has a non-zero input count where extended
      format has its first zero byte. */
  lemma MarkerIsUnambiguous(b: seq<byte>, t: Tx, ef: bool) returns (end: nat)
    requires Serializable(t) && At(b, 0, Serialize(t, ef))
    ensures |b| >= 10 && IsEF(b) == ef
    ensures At(b, if ef then 10 else 4, VarInts.Encode(|t.inputs|) + SerializeInputs(t.inputs, ef))
    ensures end == (if ef then 10 else 4) + |VarInts.Encode(|t.inputs|) + SerializeInputs(t.inputs, ef)|
    ensures At(b, end, SerializeTail(t)) && end + |SerializeTail(t)| == |Serialize(t, ef)|
  {
    TxLayout(t, ef);
    hide SerializeInputs, SerializeTail, VarInts.Encode;
    var head := t.version + if ef then EF_MARKER else [];
    var ins := VarInts.Encode(|t.inputs|) + SerializeInputs(t.inputs, ef);
    end := |head| + |ins|;
    AtSplit(b, 0, head, ins + SerializeTail(t));
    AtSplit(b, |head|, ins, SerializeTail(t));
    if ef {
      AtSplit(b, 0, t.version, EF_MARKER);
      AtSlice(b, 4, EF_MARKER);
    } else {
      AtSplit(b, 4, VarInts.Encode(|t.inputs|), SerializeInputs(t.inputs, ef));
      assert b[4 + 0] == VarInts.Encode(|t.inputs|)[0] >= 1;
      assert b[4..10][0] == b[4];
    }
  }

  lemma TailReads(b: seq<byte>, off: nat, t: Tx)
    requires Serializable(t) && At(b, off, SerializeTail(t))
    ensures TailEnd(b, off) == Some(off + |SerializeTail(t)|)
  {
    hide VarInts.ReadAt, VarInts.Encode, SerializeOutputs;
    var count, outs := VarInts.Encode(|t.outputs|), SerializeOutputs(t.outputs);
    AtSplit(b, off, count + outs, t.locktime);
    AtSplit(b, off, count, outs);
    VarInts.ReadsEncoded(b, off, |t.outputs|);
    OutputsRead(b, off + |count|, t.outputs);
  }

  /** The input walk undoes serialization in both formats, whatever bytes follow: it succeeds and
      reports exactly the spent txids, in order. */
  lemma WalkUndoesSerialization(b: seq<byte>, t: Tx, ef: bool)
    requires Serializable(t) && At(b, 0, Serialize(t, ef))
    ensures Inputs(b).end.Some? && Inputs(b).refs == Prevouts(t.inputs)
    ensures TxSize(b) == Some(|Serialize(t, ef)|)
  {
    hide VarInts.ReadAt, VarInts.Encode, SerializeInputs, SerializeTail, At, TailEnd;
    var end := MarkerIsUnambiguous(b, t, ef);
    var off := if ef then 10 else 4;
    var count := VarInts.Encode(|t.inputs|);
    AtSplit(b, off, count, SerializeInputs(t.inputs, ef));
    VarInts.ReadsEncoded(b, off, |t.inputs|);
    InputsRead(b, off + |count|, t.inputs, ef);
    TailReads(b, end, t);
  }

  // ---- The walk as the pipe runs it ------------------------------------------

  /** One pass over the inputs, reporting each prevout txid as it goes. */
  method InputRefs(tx: seq<byte>) returns (refs: seq<Hash>, ok: bool)
    ensures refs == Inputs(tx).refs && ok == Inputs(tx).end.Some?
  {
    refs, ok := [], false;
    var off := 4;
    if |tx| < 10 {
      return;
    }
    var ef := tx[4..10] == EF_MARKER;
    if ef {
      off := off + 6;
    }
    var inCount := VarInts.ReadAt(tx, off);
    if inCount.None? || inCount.value.value == 0 {
      return;
    }
    refs, ok := WalkLoop(tx, off + inCount.value.width, inCount.value.value, ef);
  }

  /** The input loop: report the prevout txid, then step over the input. */
  method WalkLoop(tx: seq<byte>, start: nat, inCount: nat, ef: bool) returns (refs: seq<Hash>, ok: bool)
    ensures refs == WalkInputs(tx, start, inCount, ef).refs && ok == WalkInputs(tx, start, inCount, ef).end.Some?
  {
    hide InputEnd, WalkInputs;
    refs, ok := [], false;
    var off := start;
    ghost var whole := WalkInputs(tx, start, inCount, ef);
    for i := 0 to inCount
      invariant 0 <= off
      invariant whole.refs == refs + WalkInputs(tx, off, inCount - i, ef).refs
      invariant whole.end == WalkInputs(tx, off, inCount - i, ef).end
    {
      WalkUnfolds(tx, off, inCount - i, ef);
      if off + 36 > |tx| {
        assert refs + [] == refs;
        return;
      }
      var h: Hash := tx[off..off + 32];
      ghost var before := refs;
      refs := refs + [h];
      var next := SkipInput(tx, off, ef);
      if next.None? {
        return;
      }
      ghost var rest := WalkInputs(tx, next.value, inCount - i - 1, ef);
      assert before + ([h] + rest.refs) == refs + rest.refs;
      off := next.value;
    }
    WalkUnfolds(tx, off, 0, ef);
    assert refs + [] == refs;
    ok := true;
  }

  lemma WalkUnfolds(tx: seq<byte>, off: nat, count: nat, ef: bool)
    ensures WalkInputs(tx, off, count, ef) ==
      if count == 0 then Walk([], Some(off))
      else if off + 36 > |tx| then Walk([], None)
      else match InputEnd(tx, off, ef)
        case None => Walk([tx[off..off + 32]], None)
        case Some(e) =>
          Walk([tx[off..off + 32]] + WalkInputs(tx, e, count - 1, ef).refs, WalkInputs(tx, e, count - 1, ef).end)
  {
  }

  method SkipInput(tx: seq<byte>, start: nat, ef: bool) returns (end: Option<nat>)
    ensures end == InputEnd(tx, start, ef)
  {
    hide VarInts.ReadAt;
    var off := start + 36;
    var script := VarInts.ReadAt(tx, off);
    if script.None? {
      return None;
    }
    off := off + script.value.width + script.value.value + 4;
    if ef {
      if off + 8 > |tx| {
        return None;
      }
      off := off + 8;
      var locking := VarInts.ReadAt(tx, off);
      if locking.None? {
        return None;
      }
      off := off + locking.value.width + locking.value.value;
    }
    return if off > |tx| then None else Some(off);
  }

  /** Whether the transaction spends an output of a member of `ids`, as far as the walk got. */
  predicate Spends(tx: seq<byte>, ids: set<Hash>) {
    exists h | h in Inputs(tx).refs :: h in ids
  }

  method DependsOnBatch(tx: seq<byte>, ids: set<Hash>) returns (hit: bool)
    ensures hit == Spends(tx, ids)
  {
    var refs, _ := InputRefs(tx);
    hit := exists h | h in refs :: h in ids;
  }

  /** For a well-formed transaction the check is exact: true if and only if some input spends a member. */
  lemma DependencyIsExact(t: Tx, ef: bool, ids: set<Hash>)
    requires Serializable(t)
    ensures Spends(Serialize(t, ef), ids) <==> exists i | 0 <= i < |t.inputs| :: t.inputs[i].prev in ids
  {
    var b := Serialize(t, ef);
    assert At(b, 0, b);
    WalkUndoesSerialization(b, t, ef);
    forall i | 0 <= i < |t.inputs| ensures t.inputs[i].prev in Inputs(b).refs {
      assert Prevouts(t.inputs)[i] == t.inputs[i].prev;
    }
  }
}
