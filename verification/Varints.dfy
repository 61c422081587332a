/** Base-128 varints and zigzag integers: one encoding, the program's three readers. */
module Varints {
  import opened Words

  type byte = x: int | 0 <= x < 256

  function Uvarint(v: nat): (r: seq<byte>)
    ensures |r| >= 1
  {
    if v < 128 then [v] else [v % 128 + 128] + Uvarint(v / 128)
  }

  /** The first varint of b, unbounded, and its length. */
  function Parse(b: seq<byte>): (r: Option<(nat, nat)>)
    ensures r.Some? ==> 1 <= r.value.1 <= |b|
  {
    if b == [] then None
    else if b[0] < 128 then Some((b[0], 1))
    else
      var r := Parse(b[1..]);
      if r.None? then None else Some((b[0] - 128 + 128 * r.value.0, r.value.1 + 1))
  }

  lemma {:induction false} ParseUvarint(v: nat, rest: seq<byte>)
    ensures Parse(Uvarint(v) + rest) == Some((v, |Uvarint(v)|))
    decreases v
  {
    if v >= 128 {
      ParseUvarint(v / 128, rest);
      assert (Uvarint(v) + rest)[1..] == Uvarint(v / 128) + rest;
    }
  }

  /** digit times p, as a sum. */
  function Weigh(digit: nat, p: nat): nat {
    if digit == 0 then 0 else p + Weigh(digit - 1, p)
  }

  lemma {:induction false} WeighTimes(digit: nat, p: nat)
    ensures Weigh(digit, p) == digit * p
  {
    if digit > 0 {
      WeighTimes(digit - 1, p);
      assert digit * p == p + (digit - 1) * p;
    }
  }

  /** What a reader will end with: acc so far over `len` bytes, the varint still ahead weighing p. */
  function Resume(p: nat, acc: nat, len: nat, ahead: Option<(nat, nat)>): Option<(nat, nat)> {
    if ahead.None? then None else Some((acc + Weigh(ahead.value.0, p), len + ahead.value.1))
  }

  lemma ResumeStart(r: Option<(nat, nat)>)
    ensures Resume(1, 0, 0, r) == r
  {
    if r.Some? { WeighTimes(r.value.0, 1); }
  }

  lemma ResumeStep(b: seq<byte>, p: nat, acc: nat, len: nat)
    requires b != [] && b[0] >= 128
    ensures Resume(p, acc, len, Parse(b)) == Resume(128 * p, acc + Weigh(b[0] - 128, p), len + 1, Parse(b[1..]))
  {
    var r := Parse(b[1..]);
    if r.Some? {
      var digit: nat := b[0] - 128;
      Distribute(digit, r.value.0, p);
    }
  }

  lemma Distribute(digit: nat, v: nat, p: nat)
    ensures Weigh(digit + 128 * v, p) == Weigh(digit, p) + Weigh(v, 128 * p)
  {
    WeighTimes(digit + 128 * v, p);
    WeighTimes(digit, p);
    WeighTimes(v, 128 * p);
    assert (digit + 128 * v) * p == digit * p + (128 * v) * p;
    assert (128 * v) * p == v * (128 * p);
  }

  function Pow7(k: nat): nat {
    if k == 0 then 1 else 128 * Pow7(k - 1)
  }

  /** An encoding takes at most k bytes when the value fits 7k bits. */
  lemma {:induction false} UvarintLength(v: nat, k: nat)
    requires v < Pow7(k) && k >= 1
    ensures |Uvarint(v)| <= k
  {
    if v >= 128 {
      assert Pow7(1) == 128 * Pow7(0);
      if k > 1 {
        assert v / 128 < Pow7(k - 1);
        UvarintLength(v / 128, k - 1);
      }
    }
  }

  lemma Pow7Values()
    ensures Pow7(1) == 0x80 && Pow7(2) == 0x4000 && Pow7(3) == 0x20_0000 && Pow7(4) == 0x1000_0000
    ensures Pow7(5) == 0x8_0000_0000 && Pow7(6) == 0x400_0000_0000 && Pow7(7) == 0x2_0000_0000_0000
    ensures Pow7(8) == 0x100_0000_0000_0000 && Pow7(9) == TWO_63 && Pow7(10) == 0x40_0000_0000_0000_0000
  {
    assert Pow7(1) == 128 * Pow7(0);
    assert Pow7(2) == 128 * Pow7(1);
    assert Pow7(3) == 128 * Pow7(2);
    assert Pow7(4) == 128 * Pow7(3);
    assert Pow7(5) == 128 * Pow7(4);
    assert Pow7(6) == 128 * Pow7(5);
    assert Pow7(7) == 128 * Pow7(6);
    assert Pow7(8) == 128 * Pow7(7);
    assert Pow7(9) == 128 * Pow7(8);
    assert Pow7(10) == 128 * Pow7(9);
  }

  lemma Word64Length(v: nat)
    requires v < TWO_64
    ensures |Uvarint(v)| <= 10
  {
    Pow7Values();
    UvarintLength(v, 10);
  }

  /** Appends v, low seven bits first. */
  method AppendUvarint(b: seq<byte>, v: nat) returns (r: seq<byte>)
    ensures r == b + Uvarint(v)
  {
    r := b;
    var w := v;
    while w >= 128
      invariant r + Uvarint(w) == b + Uvarint(v)
    {
      assert r + Uvarint(w) == (r + [w % 128 + 128]) + Uvarint(w / 128);
      r := r + [w % 128 + 128];
      w := w / 128;
    }
    r := r + [w];
  }

  // ---- reading ------------------------------------------------------------------------------

  /** The geometry blob's reader: no bounds check and no overflow check, so it needs a whole 64-bit varint. */
  method ReadPlain(b: seq<byte>, i: nat) returns (v: nat, next: nat)
    requires i <= |b| && Parse(b[i..]).Some? && Parse(b[i..]).value.0 < TWO_64
    ensures Parse(b[i..]) == Some((v, next - i)) && i < next <= |b|
  {
    v, next := 0, i;
    var p: nat := 1;
    ResumeStart(Parse(b[i..]));
    while true
      invariant i <= next <= |b| && Resume(p, v, next - i, Parse(b[next..])) == Parse(b[i..])
      decreases |b| - next
    {
      var c: nat := b[next];
      assert b[next..][0] == c && b[next..][1..] == b[next + 1..];
      if c < 128 {
        v, next := v + Weigh(c, p), next + 1;
        return;
      }
      ResumeStep(b[next..], p, v, next - i);
      v, next := v + Weigh(c - 128, p), next + 1;
      p := 128 * p;
    }
  }

  /** binary.ReadUvarint: the value and length of a 64-bit varint; none at the end of the input or on overflow. */
  function Read64(b: seq<byte>): Option<(nat, nat)> {
    var r := Parse(b);
    if r.Some? && r.value.1 <= 10 && r.value.0 < TWO_64 then r else None
  }

  /** The protobuf reader: at most ten bytes, the value truncated to 64 bits. */
  function ReadWire(b: seq<byte>): (r: Option<(nat, nat)>)
    ensures r.Some? ==> r.value.0 < TWO_64 && 1 <= r.value.1 <= |b|
  {
    var r := Parse(b);
    if r.Some? && r.value.1 <= 10 then Some((r.value.0 % TWO_64, r.value.1)) else None
  }

  lemma ReadersAgree(v: nat, rest: seq<byte>)
    requires v < TWO_64
    ensures Read64(Uvarint(v) + rest) == ReadWire(Uvarint(v) + rest) == Some((v, |Uvarint(v)|))
  {
    ParseUvarint(v, rest);
    Word64Length(v);
  }

  // ---- zigzag -------------------------------------------------------------------------------

  function ZigZag(v: int): nat {
    if v >= 0 then 2 * v else -2 * v - 1
  }

  function UnZigZag(u: nat): int {
    if u % 2 == 0 then u / 2 else -(u / 2) - 1
  }

  lemma ZigZagBack(v: int)
    ensures UnZigZag(ZigZag(v)) == v
    ensures -0x8000_0000_0000_0000 <= v < 0x8000_0000_0000_0000 ==> ZigZag(v) < TWO_64
  {
  }

  function Svarint(v: int): (r: seq<byte>)
    ensures |r| >= 1
  {
    Uvarint(ZigZag(v))
  }

  method AppendSvarint(b: seq<byte>, v: int) returns (r: seq<byte>)
    ensures r == b + Svarint(v)
  {
    r := AppendUvarint(b, ZigZag(v));
  }
}
