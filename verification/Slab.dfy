/** The transaction lane's slab owner (lanes/lanes.go): retained copies handed out of shared arenas. */
module Slabs {
  import opened Bytes

  const SLAB_SIZE: nat := 0x10_0000

  /** A slice of an arena: where it starts, how long it is and how far an append could write. */
  datatype Slice = Slice(arr: array<byte>, off: nat, len: nat, cap: nat)

  ghost predicate InBounds(s: Slice) {
    s.off + s.len <= s.off + s.cap <= s.arr.Length
  }

  ghost function Read(s: Slice): seq<byte>
    requires InBounds(s)
    reads s.arr
  {
    s.arr[s.off..s.off + s.len]
  }

  /** No byte belongs to both, even counting what an append could reach. */
  ghost predicate Disjoint(s: Slice, t: Slice) {
    s.arr != t.arr || s.off + s.cap <= t.off || t.off + t.cap <= s.off
  }

  class Owner {
    var slab: array<byte>
    var len: nat
    /** Everything handed out so far, and the objects it was handed out for. */
    ghost var handed: seq<Slice>
    ghost var objects: seq<seq<byte>>

    ghost function Arenas(): set<object>
      reads this
    {
      {slab} + set i | 0 <= i < |handed| :: handed[i].arr
    }

    /** Every slice still reads as its object, has no spare capacity, overlaps no other, and lies in the
        used part of the slab if it lies in the slab at all. */
    ghost predicate Valid()
      reads this, Arenas()
    {
      && len <= slab.Length && |handed| == |objects|
      && (forall i :: 0 <= i < |handed| ==> InBounds(handed[i]) && handed[i].cap == handed[i].len)
      && (forall i :: 0 <= i < |handed| ==> Read(handed[i]) == objects[i])
      && (forall i, j :: 0 <= i < j < |handed| ==> Disjoint(handed[i], handed[j]))
      && (forall i :: 0 <= i < |handed| && handed[i].arr == slab ==> handed[i].off + handed[i].len <= len)
    }

    constructor ()
      ensures Valid() && handed == [] && fresh(Arenas())
    {
      slab := new byte[0];
      len := 0;
      handed, objects := [], [];
    }

    /** A retained copy of `obj`. A large object gets an arena of its own; a small one is appended to
        the slab, which is replaced first when it has no room, so the append never moves it. */
    method Own(obj: seq<byte>) returns (r: Slice)
      requires Valid()
      modifies this, slab
      ensures Valid() && fresh(Arenas() - old(Arenas()))
      ensures handed == old(handed) + [r] && objects == old(objects) + [obj]
      ensures |obj| > 0x2_0000 ==> slab == old(slab) && len == old(len) && r.off == 0 && r.arr.Length == |obj|
      ensures |obj| <= 0x2_0000 && |obj| <= old(slab.Length) - old(len) ==>
        slab == old(slab) == r.arr && r.off == old(len) && len == old(len) + |obj|
      ensures |obj| <= 0x2_0000 && |obj| > old(slab.Length) - old(len) ==>
        fresh(slab) && slab.Length == 0x10_0000 && r.arr == slab && r.off == 0 && len == |obj|
    {
      if |obj| > SLAB_SIZE / 8 {
        r := OwnArena(obj);
      } else {
        if slab.Length - len < |obj| {
          slab := new byte[SLAB_SIZE];
          len := 0;
        }
        r := Append(obj);
      }
    }

    method OwnArena(obj: seq<byte>) returns (r: Slice)
      requires Valid()
      modifies `handed, `objects
      ensures Valid() && fresh(r.arr) && r.off == 0 && r.arr.Length == |obj|
      ensures handed == old(handed) + [r] && objects == old(objects) + [obj]
    {
      var n := |obj|;
      var b := new byte[n](i requires 0 <= i < n => obj[i]);
      r := Slice(b, 0, n, n);
      assert b[0..n] == obj;
      Hand(r, obj);
    }

    method Append(obj: seq<byte>) returns (r: Slice)
      requires Valid() && len + |obj| <= slab.Length
      modifies this, slab
      ensures Valid() && r.arr == slab == old(slab) && r.off == old(len) && len == old(len) + |obj|
      ensures handed == old(handed) + [r] && objects == old(objects) + [obj]
    {
      var off := len;
      CopyIn(obj);
      r := Slice(slab, off, |obj|, |obj|);
      len := len + |obj|;
      Hand(r, obj);
    }

    /** Writes past the used part of the slab, so nothing handed out can change. */
    method CopyIn(obj: seq<byte>)
      requires Valid() && len + |obj| <= slab.Length
      modifies slab
      ensures Valid() && slab[len..len + |obj|] == obj
    {
      ghost var before := slab[..];
      for i := 0 to |obj|
        invariant forall k :: 0 <= k < i ==> slab[len + k] == obj[k]
        invariant forall k :: 0 <= k < len ==> slab[k] == before[k]
      {
        slab[len + i] := obj[i];
      }
      forall i | 0 <= i < |handed| ensures Read(handed[i]) == objects[i] {
        var s := handed[i];
        if s.arr == slab {
          assert slab[s.off..s.off + s.len] == before[s.off..s.off + s.len];
        }
      }
    }

    ghost method Hand(r: Slice, obj: seq<byte>)
      requires Valid() && InBounds(r) && r.cap == r.len && Read(r) == obj
      requires forall i :: 0 <= i < |handed| ==> Disjoint(handed[i], r)
      requires r.arr == slab ==> r.off + r.len <= len
      modifies `handed, `objects
      ensures Valid() && handed == old(handed) + [r] && objects == old(objects) + [obj]
    {
      handed := handed + [r];
      objects := objects + [obj];
    }
  }

  /** A whole connection: every object it owned still reads as it arrived when the last one is done,
      and no two of the copies share a byte. */
  method OwnAll(objs: seq<seq<byte>>) returns (slices: seq<Slice>)
    ensures |slices| == |objs|
    ensures forall i :: 0 <= i < |objs| ==>
      InBounds(slices[i]) && slices[i].cap == slices[i].len && Read(slices[i]) == objs[i]
    ensures forall i, j :: 0 <= i < j < |objs| ==> Disjoint(slices[i], slices[j])
  {
    var o := new Owner();
    slices := [];
    for i := 0 to |objs|
      invariant o.Valid() && fresh(o) && fresh(o.Arenas())
      invariant slices == o.handed && o.objects == objs[..i]
    {
      var r := o.Own(objs[i]);
      slices := slices + [r];
    }
    assert objs[..|objs|] == objs;
  }
}
