/** The two byte orders of a hash (hashid/hashid.go): wire order, and reversed hex for display. */
module HashIds {
  import opened Bytes

  predicate IsLowerHex(c: char) {
    '0' <= c <= '9' || 'a' <= c <= 'f'
  }

  function Digit(n: int): (c: char)
    requires 0 <= n < 16
    ensures IsLowerHex(c)
  {
    if n < 10 then '0' + n as char else 'a' + (n - 10) as char
  }

  function DigitValue(c: char): (r: Option<nat>)
    ensures r.Some? ==> r.value < 16
  {
    if '0' <= c <= '9' then Some((c - '0') as nat)
    else if 'a' <= c <= 'f' then Some((c - 'a') as nat + 10)
    else if 'A' <= c <= 'F' then Some((c - 'A') as nat + 10)
    else None
  }

  function Lower(c: char): char {
    if 'A' <= c <= 'Z' then c + 32 as char else c
  }

  function Hex(b: seq<byte>): (s: string)
    ensures |s| == 2 * |b| && forall i :: 0 <= i < |s| ==> IsLowerHex(s[i])
  {
    if b == [] then [] else [Digit(b[0] / 16), Digit(b[0] % 16)] + Hex(b[1..])
  }

  function Unhex(s: string): (r: Option<seq<byte>>)
    ensures r.Some? ==> |s| == 2 * |r.value|
  {
    if s == [] then Some([])
    else if |s| == 1 then None
    else
      match (DigitValue(s[0]), DigitValue(s[1]), Unhex(s[2..]))
      case (Some(hi), Some(lo), Some(rest)) => Some([16 * hi + lo] + rest)
      case _ => None
  }

  function Reversed(b: seq<byte>): (r: seq<byte>)
    ensures |r| == |b| && forall i :: 0 <= i < |b| ==> r[i] == b[|b| - 1 - i]
  {
    if b == [] then [] else [b[|b| - 1]] + Reversed(b[..|b| - 1])
  }

  lemma ReversedTwice(b: seq<byte>)
    ensures Reversed(Reversed(b)) == b
  {
  }

  function Display(h: Hash): (s: string)
    ensures |s| == 64 && forall i :: 0 <= i < |s| ==> IsLowerHex(s[i])
  {
    Hex(Reversed(h))
  }

  function ParseDisplay(s: string): Option<Hash> {
    if |s| != 64 then None
    else match Unhex(s)
      case None => None
      case Some(raw) => Some(Reversed(raw))
  }

  method DisplayOf(h: Hash) returns (s: string)
    ensures s == Display(h)
  {
    var rev := new byte[32];
    for i := 0 to 32
      invariant forall k :: 0 <= k < i ==> rev[k] == h[31 - k]
    {
      rev[i] := h[31 - i];
    }
    assert rev[..] == Reversed(h);
    s := Hex(rev[..]);
  }

  method ParseDisplayOf(s: string) returns (r: Option<Hash>)
    ensures r == ParseDisplay(s)
  {
    if |s| != 64 {
      return None;
    }
    var raw := Unhex(s);
    if raw.None? {
      return None;
    }
    var h := new byte[32];
    for i := 0 to 32
      invariant forall k :: 0 <= k < i ==> h[k] == raw.value[31 - k]
    {
      h[i] := raw.value[31 - i];
    }
    assert h[..] == Reversed(raw.value);
    r := Some(h[..]);
  }

  lemma DigitReads(n: int)
    requires 0 <= n < 16
    ensures DigitValue(Digit(n)) == Some(n)
  {
  }

  lemma DigitWrites(c: char)
    requires DigitValue(c).Some?
    ensures Digit(DigitValue(c).value) == Lower(c)
  {
  }

  lemma {:induction false} UnhexReads(b: seq<byte>)
    ensures Unhex(Hex(b)) == Some(b)
  {
    hide Digit, DigitValue;
    if b != [] {
      DigitReads(b[0] / 16);
      DigitReads(b[0] % 16);
      UnhexReads(b[1..]);
      var s := Hex(b);
      assert s[2..] == Hex(b[1..]) && s[0] == Digit(b[0] / 16) && s[1] == Digit(b[0] % 16);
      assert 16 * (b[0] / 16) + b[0] % 16 == b[0];
      assert Unhex(s) == Some([b[0]] + b[1..]);
      assert [b[0]] + b[1..] == b;
    }
  }

  lemma {:induction false} HexWrites(s: string)
    requires Unhex(s).Some?
    ensures forall i :: 0 <= i < |s| ==> Hex(Unhex(s).value)[i] == Lower(s[i])
    decreases |s|
  {
    hide Digit, DigitValue, Lower;
    if s != [] {
      HexWrites(s[2..]);
      DigitWrites(s[0]);
      DigitWrites(s[1]);
      var b := Unhex(s).value;
      assert b[1..] == Unhex(s[2..]).value;
      forall i | 2 <= i < |s| ensures Hex(b)[i] == Lower(s[i]) {
        assert Hex(b)[i] == Hex(b[1..])[i - 2] && s[i] == s[2..][i - 2];
      }
    }
  }

  lemma DigitIs(n: nat)
    requires n < 16
    ensures Digit(n) == "0123456789abcdef"[n]
  {
  }

  lemma {:induction false} HexAt(b: seq<byte>, i: nat)
    requires i < |b|
    ensures Hex(b)[2 * i] == Digit(b[i] / 16) && Hex(b)[2 * i + 1] == Digit(b[i] % 16)
  {
    hide Digit;
    if i > 0 {
      HexAt(b[1..], i - 1);
      assert Hex(b)[2 * i] == Hex(b[1..])[2 * i - 2] && Hex(b)[2 * i + 1] == Hex(b[1..])[2 * i - 1];
    }
  }

  /** The display string itself: two hex digits a byte, high digit first, the last byte of the hash first. */
  lemma DisplayLayout(h: Hash, i: nat)
    requires i < 32
    ensures Display(h)[2 * i] == "0123456789abcdef"[h[31 - i] / 16]
    ensures Display(h)[2 * i + 1] == "0123456789abcdef"[h[31 - i] % 16]
  {
    hide Hex, Digit;
    HexAt(Reversed(h), i);
    DigitIs(h[31 - i] / 16);
    DigitIs(h[31 - i] % 16);
  }

  /** Parsing undoes display: no two hashes share a display string. */
  lemma DisplayRoundTrips(h: Hash)
    ensures ParseDisplay(Display(h)) == Some(h)
  {
    UnhexReads(Reversed(h));
    ReversedTwice(h);
  }

  /** Display undoes parsing, up to letter case. */
  lemma ParseRoundTrips(s: string)
    requires ParseDisplay(s).Some?
    ensures forall i :: 0 <= i < 64 ==> Display(ParseDisplay(s).value)[i] == Lower(s[i])
  {
    ReversedTwice(Unhex(s).value);
    HexWrites(s);
  }

  lemma {:induction false} UnhexAccepts(s: string)
    ensures Unhex(s).Some? <==> |s| % 2 == 0 && forall i :: 0 <= i < |s| ==> DigitValue(s[i]).Some?
    decreases |s|
  {
    hide DigitValue;
    if |s| >= 2 {
      UnhexAccepts(s[2..]);
      assert forall i :: 2 <= i < |s| ==> s[i] == s[2..][i - 2];
      if Unhex(s).Some? {
        assert DigitValue(s[0]).Some? && DigitValue(s[1]).Some? && Unhex(s[2..]).Some?;
      }
      if forall i :: 0 <= i < |s| ==> DigitValue(s[i]).Some? {
        assert DigitValue(s[0]).Some? && DigitValue(s[1]).Some?;
        assert forall i :: 0 <= i < |s| - 2 ==> s[2..][i] == s[i + 2];
      }
    }
  }

  /** A display string is accepted exactly when it is 64 hex digits of either case. */
  lemma ParseAccepts(s: string)
    ensures ParseDisplay(s).Some? <==>
      |s| == 64 && forall i :: 0 <= i < 64 ==> '0' <= s[i] <= '9' || 'a' <= s[i] <= 'f' || 'A' <= s[i] <= 'F'
  {
    hide Unhex;
    UnhexAccepts(s);
  }

  lemma DisplayIsInjective(h: Hash, k: Hash)
    ensures Display(h) == Display(k) <==> h == k
  {
    DisplayRoundTrips(h);
    DisplayRoundTrips(k);
  }
}
