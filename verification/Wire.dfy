/** Protocol buffer wire format: the writer, the reading cursor, and the functions they compute. */
module Wire {
  import opened Words
  import opened Varints
  import opened Seqs

  // ---- what is written ------------------------------------------------------------------------

  function Tag(field: nat, wire: nat): seq<byte> { Uvarint(field * 8 + wire) }

  function VarintField(field: nat, v: nat): seq<byte> { Tag(field, 0) + Uvarint(v) }

  function BytesField(field: nat, data: seq<byte>): seq<byte> { Tag(field, 2) + (Uvarint(|data|) + data) }

  function Fixed32(bits: nat): (r: seq<byte>)
    ensures |r| == 4
  {
    [bits % 256, bits / 256 % 256, bits / 256 / 256 % 256, bits / 256 / 256 / 256 % 256]
  }

  function Fixed32Field(field: nat, bits: nat): seq<byte> { Tag(field, 5) + Fixed32(bits) }

  /** An append-only message buffer. */
  class Encoder {
    var b: seq<byte>

    constructor ()
      ensures b == []
    {
      b := [];
    }

    method PutVarint(v: nat)
      modifies this
      ensures b == old(b) + Uvarint(v)
    {
      b := AppendUvarint(b, v);
    }

    method PutTag(field: nat, wire: nat)
      modifies this
      ensures b == old(b) + Tag(field, wire)
    {
      PutVarint(field * 8 + wire);
    }

    method PutVarintField(field: nat, v: nat)
      modifies this
      ensures b == old(b) + VarintField(field, v)
    {
      PutTag(field, 0);
      PutVarint(v);
      assert b == old(b) + (Tag(field, 0) + Uvarint(v));
    }

    method PutBytesField(field: nat, data: seq<byte>)
      modifies this
      ensures b == old(b) + BytesField(field, data)
    {
      PutTag(field, 2);
      PutVarint(|data|);
      b := b + data;
      assert b == old(b) + (Tag(field, 2) + (Uvarint(|data|) + data));
    }

    method PutFixed32Field(field: nat, bits: nat)
      modifies this
      ensures b == old(b) + Fixed32Field(field, bits)
    {
      PutTag(field, 5);
      b := b + [bits % 256, bits / 256 % 256, bits / 256 / 256 % 256, bits / 256 / 256 / 256 % 256];
      assert b == old(b) + (Tag(field, 5) + Fixed32(bits));
    }
  }

  // ---- what is read ---------------------------------------------------------------------------

  function GetVarint(b: seq<byte>): (r: Option<(nat, seq<byte>)>)
    ensures r.Some? ==> |r.value.1| < |b| && r.value.0 < TWO_64
  {
    var r := ReadWire(b);
    if r.None? then None else Some((r.value.0, b[r.value.1..]))
  }

  /** A field key: number and wire type. */
  function GetField(b: seq<byte>): (r: Option<(nat, nat, seq<byte>)>)
    ensures r.Some? ==> |r.value.2| < |b|
  {
    var r := GetVarint(b);
    if r.None? then None else Some((r.value.0 / 8, r.value.0 % 8, r.value.1))
  }

  function GetBytes(b: seq<byte>): (r: Option<(seq<byte>, seq<byte>)>)
    ensures r.Some? ==> |r.value.1| < |b| && |r.value.0| < |b|
  {
    var r := GetVarint(b);
    if r.None? || r.value.0 > |r.value.1| then None
    else Some((r.value.1[..r.value.0], r.value.1[r.value.0..]))
  }

  /** The length of a payload whose length varint starts at j, and the cursor after that varint. */
  function LengthAt(m: seq<byte>, j: nat): (r: Option<(nat, nat)>)
    requires j <= |m|
    ensures r.Some? ==> j < r.value.1 <= |m| && r.value.0 < TWO_64
  {
    var v := GetVarint(m[j..]);
    if v.None? then None else Some((v.value.0, |m| - |v.value.1|))
  }

  /** Added to the cursor, the length no longer fits a signed 64-bit integer: the bounds check misses it and the slice
      expression behind it does not. */
  predicate Overlong(n: nat, cursor: nat) { n + cursor >= TWO_63 }

  /** Where a payload starts and ends. */
  function PayloadAt(m: seq<byte>, j: nat): (r: Outcome<(nat, nat)>)
    requires j <= |m|
    ensures r.Got? ==> j < r.value.0 <= r.value.1 <= |m|
  {
    var l := LengthAt(m, j);
    if l.None? then Failed
    else if Overlong(l.value.0, l.value.1) then Panicked
    else if l.value.1 + l.value.0 > |m| then Failed
    else Got((l.value.1, l.value.1 + l.value.0))
  }

  /** The payload is there exactly when the bytes can be taken. */
  lemma PayloadBytes(m: seq<byte>, j: nat)
    requires j <= |m| < TWO_63
    ensures PayloadAt(m, j).Got? <==> GetBytes(m[j..]).Some?
    ensures PayloadAt(m, j).Got? ==>
      var (c, e) := PayloadAt(m, j).value; GetBytes(m[j..]) == Some((m[c..e], m[e..]))
  {
    var l := LengthAt(m, j);
    if l.Some? {
      var rest := GetVarint(m[j..]).value.1;
      var k := ReadWire(m[j..]).value.1;
      assert rest == m[j..][k..] == m[l.value.1..];
      if l.value.1 + l.value.0 <= |m| {
        assert rest[..l.value.0] == m[l.value.1..l.value.1 + l.value.0];
        assert rest[l.value.0..] == m[l.value.1 + l.value.0..];
      }
    }
  }

  function Word(b0: nat, b1: nat, b2: nat, b3: nat): nat { b0 + b1 * 256 + b2 * 65536 + b3 * 16777216 }

  function GetFixed32(b: seq<byte>): (r: Option<(nat, seq<byte>)>)
    ensures r.Some? ==> |r.value.1| < |b|
  {
    if |b| < 4 then None
    else Some((Word(b[0], b[1], b[2], b[3]), b[4..]))
  }

  /** What is left after a field of that wire type. */
  function Skip(wire: nat, b: seq<byte>): (r: Option<seq<byte>>)
    ensures r.Some? ==> |r.value| <= |b|
  {
    match wire
    case 0 => (var r := GetVarint(b); if r.None? then None else Some(r.value.1))
    case 1 => if |b| < 8 then None else Some(b[8..])
    case 2 => (var r := GetBytes(b); if r.None? then None else Some(r.value.1))
    case 5 => if |b| < 4 then None else Some(b[4..])
    case _ => None
  }

  lemma ReadBack(v: nat, rest: seq<byte>)
    requires v < TWO_64
    ensures GetVarint(Uvarint(v) + rest) == Some((v, rest))
  {
    ReadersAgree(v, rest);
    assert (Uvarint(v) + rest)[|Uvarint(v)|..] == rest;
  }

  lemma TagBack(field: nat, wire: nat, rest: seq<byte>)
    requires wire < 8 && field < 0x1000_0000
    ensures GetField(Tag(field, wire) + rest) == Some((field, wire, rest))
  {
    ReadBack(field * 8 + wire, rest);
  }

  lemma VarintFieldBack(field: nat, v: nat, rest: seq<byte>)
    requires field < 0x1000_0000 && v < TWO_64
    ensures GetField(VarintField(field, v) + rest) == Some((field, 0, Uvarint(v) + rest))
    ensures GetVarint(Uvarint(v) + rest) == Some((v, rest))
  {
    assert VarintField(field, v) + rest == Tag(field, 0) + (Uvarint(v) + rest);
    TagBack(field, 0, Uvarint(v) + rest);
    ReadBack(v, rest);
  }

  lemma PayloadBack(data: seq<byte>, rest: seq<byte>)
    requires |data| < TWO_63
    ensures GetBytes((Uvarint(|data|) + data) + rest) == Some((data, rest))
  {
    Assoc(Uvarint(|data|), data, rest);
    ReadBack(|data|, data + rest);
    assert (data + rest)[..|data|] == data && (data + rest)[|data|..] == rest;
  }

  lemma BytesFieldBack(field: nat, data: seq<byte>, rest: seq<byte>)
    requires field < 0x1000_0000 && |data| < TWO_63
    ensures GetField(BytesField(field, data) + rest) == Some((field, 2, (Uvarint(|data|) + data) + rest))
    ensures GetBytes((Uvarint(|data|) + data) + rest) == Some((data, rest))
  {
    Assoc(Tag(field, 2), Uvarint(|data|) + data, rest);
    TagBack(field, 2, (Uvarint(|data|) + data) + rest);
    PayloadBack(data, rest);
  }

  lemma WordBack(bits: nat)
    requires bits < TWO_32
    ensures Word(bits % 256, bits / 256 % 256, bits / 256 / 256 % 256, bits / 256 / 256 / 256 % 256) == bits
  {
    var q1 := bits / 256;
    var q2 := q1 / 256;
    var q3 := q2 / 256;
    assert bits == bits % 256 + 256 * q1 && q1 == q1 % 256 + 256 * q2 && q2 == q2 % 256 + 256 * q3;
    assert q3 % 256 == q3;
  }

  lemma Fixed32FieldBack(field: nat, bits: nat, rest: seq<byte>)
    requires field < 0x1000_0000 && bits < TWO_32
    ensures GetField(Fixed32Field(field, bits) + rest) == Some((field, 5, Fixed32(bits) + rest))
    ensures GetFixed32(Fixed32(bits) + rest) == Some((bits, rest))
  {
    Assoc(Tag(field, 5), Fixed32(bits), rest);
    TagBack(field, 5, Fixed32(bits) + rest);
    WordBack(bits);
    assert (Fixed32(bits) + rest)[4..] == rest;
  }

  /** The wrapped end of a payload: beyond the cursor by n, or before the cursor if n is overlong. */
  lemma WrappedEnd(i: nat, n: nat)
    requires i < TWO_63 && n < TWO_64
    ensures Overlong(n, i) ==> Wrap64(i + ToI64(n)) < i
    ensures !Overlong(n, i) ==> Wrap64(i + ToI64(n)) == i + n
  {
  }

  /** How far a reading step got. */
  datatype Status = Ok | Error | Panic

  function Done(ok: bool): Status { if ok then Ok else Error }

  /** A cursor over one message, a slice whose length fits an int. */
  class Decoder {
    const b: seq<byte>
    var i: nat

    ghost predicate Valid()
      reads this
    {
      i <= |b| < TWO_63
    }

    ghost function Rest(): seq<byte>
      requires Valid()
      reads this
    {
      b[i..]
    }

    constructor (b: seq<byte>)
      requires |b| < TWO_63
      ensures Valid() && this.b == b && Rest() == b
    {
      this.b, i := b, 0;
    }

    lemma AtEnd()
      requires Valid() && i == |b|
      ensures Rest() == []
    {
    }

    method Varint() returns (v: nat, ok: bool)
      requires Valid()
      modifies this
      ensures Valid()
      ensures ok <==> GetVarint(old(Rest())).Some?
      ensures ok ==> GetVarint(old(Rest())).value == (v, Rest())
    {
      ghost var whole := Rest();
      v, ok := 0, false;
      var p: nat, k: nat := 1, 0;
      ResumeStart(Parse(whole));
      while i < |b|
        invariant old(i) <= i <= |b| && k == i - old(i) && Reading(whole, b[i..], p, v, k)
        decreases |b| - i
      {
        var c: nat := b[i];
        assert b[i..][0] == c && b[i..][1..] == b[i + 1..];
        if c < 128 { ReadLast(whole, b[i..], p, v, k); } else { ReadOn(whole, b[i..], p, v, k); }
        i := i + 1;
        v := v + Weigh(c % 128, p) % TWO_64;
        if c < 128 {
          assert whole[k + 1..] == b[i..];
          return v, true;
        }
        if k == 9 { return 0, false; }
        p, k := 128 * p, k + 1;
      }
      ReadOut(whole, b[i..], p, v, k);
      v := 0;
    }

    method Field() returns (field: nat, wire: nat, ok: bool)
      requires Valid()
      modifies this
      ensures Valid()
      ensures ok <==> GetField(old(Rest())).Some?
      ensures ok ==> GetField(old(Rest())).value == (field, wire, Rest())
    {
      var key;
      key, ok := Varint();
      field, wire := key / 8, key % 8;
    }

    /** Go's p.i + int(n) wraps; a slice that ends before it starts panics. */
    method Bytes() returns (s: seq<byte>, st: Status)
      requires Valid()
      modifies this
      ensures Valid()
      ensures st.Ok? <==> GetBytes(old(Rest())).Some?
      ensures st.Ok? ==> GetBytes(old(Rest())).value == (s, Rest())
      ensures match st
        case Ok => PayloadAt(b, old(i)).Got? && PayloadAt(b, old(i)).value.1 == i &&
          s == b[PayloadAt(b, old(i)).value.0..i]
        case Error => PayloadAt(b, old(i)).Failed?
        case Panic => PayloadAt(b, old(i)).Panicked?
    {
      PayloadBytes(b, i);
      s := [];
      var n, ok := Varint();
      if !ok { return s, Error; }
      WrappedEnd(i, n);
      var end := Wrap64(i + ToI64(n));
      if end > |b| { return s, Error; }
      if end < i { return s, Panic; }
      s := b[i..end];
      i := end;
      st := Ok;
    }

    method ReadFixed32() returns (v: nat, ok: bool)
      requires Valid()
      modifies this
      ensures Valid()
      ensures ok <==> GetFixed32(old(Rest())).Some?
      ensures ok ==> GetFixed32(old(Rest())).value == (v, Rest())
    {
      if i + 4 > |b| { return 0, false; }
      v := Word(b[i], b[i + 1], b[i + 2], b[i + 3]);
      i := i + 4;
      ok := true;
    }

    method SkipField(wire: nat) returns (st: Status)
      requires Valid()
      modifies this
      ensures Valid()
      ensures st.Ok? <==> Skip(wire, old(Rest())).Some?
      ensures st.Ok? ==> Skip(wire, old(Rest())).value == Rest()
      ensures st.Panic? <==> wire == 2 && PayloadAt(b, old(i)).Panicked?
      ensures st.Ok? && wire == 2 ==> PayloadAt(b, old(i)).Got? && PayloadAt(b, old(i)).value.1 == i
      ensures st.Error? && wire == 2 ==> PayloadAt(b, old(i)).Failed?
    {
      match wire
      case 0 => var _, ok := Varint(); st := Done(ok);
      case 1 =>
        if i + 8 > |b| { return Error; }
        i := i + 8;
        st := Ok;
      case 2 => var _, rest := Bytes(); st := rest;
      case 5 =>
        if i + 4 > |b| { return Error; }
        i := i + 4;
        st := Ok;
      case _ => st := Error;
    }
  }

  /** A varint being read: k bytes gave v, the next digit weighs p. */
  ghost predicate Reading(whole: seq<byte>, rest: seq<byte>, p: nat, v: nat, k: nat) {
    k <= 9 && p == Pow7(k) && v < p && Resume(p, v, k, Parse(rest)) == Parse(whole)
  }

  lemma ReadOn(whole: seq<byte>, rest: seq<byte>, p: nat, v: nat, k: nat)
    requires Reading(whole, rest, p, v, k) && rest != [] && rest[0] >= 128
    ensures k < 9 ==> Reading(whole, rest[1..], 128 * p, v + Weigh(rest[0] % 128, p) % TWO_64, k + 1)
    ensures k == 9 ==> ReadWire(whole).None?
  {
    var digit: nat := rest[0] - 128;
    assert rest[0] % 128 == digit;
    ResumeStep(rest, p, v, k);
    LastDigit(v, k, p, digit);
    if k == 9 { ReadTooLong(whole, rest, p, v); }
  }

  lemma ReadTooLong(whole: seq<byte>, rest: seq<byte>, p: nat, v: nat)
    requires Reading(whole, rest, p, v, 9) && rest != [] && rest[0] >= 128
    ensures ReadWire(whole).None?
  {
  }

  lemma ReadLast(whole: seq<byte>, rest: seq<byte>, p: nat, v: nat, k: nat)
    requires Reading(whole, rest, p, v, k) && rest != [] && rest[0] < 128
    ensures ReadWire(whole) == Some((v + Weigh(rest[0], p) % TWO_64, k + 1))
  {
    LastDigit(v, k, p, rest[0]);
  }

  lemma ReadOut(whole: seq<byte>, rest: seq<byte>, p: nat, v: nat, k: nat)
    requires Reading(whole, rest, p, v, k) && rest == []
    ensures ReadWire(whole).None?
  {
  }

  /** Adding the k-th digit of a varint, k at most 9, is exact modulo 2^64. */
  lemma LastDigit(v: nat, k: nat, p: nat, digit: nat)
    requires k <= 9 && p == Pow7(k) && v < p && digit < 128
    ensures (v + Weigh(digit, p)) % TWO_64 == v + Weigh(digit, p) % TWO_64
    ensures k < 9 ==> Weigh(digit, p) % TWO_64 == Weigh(digit, p) && v + Weigh(digit, p) < Pow7(k + 1)
  {
    Pow7Values();
    if k < 9 {
      DigitFits(v, p, digit);
      PowMono(k + 1);
    } else {
      WeighTimes(digit, p);
      assert Weigh(digit, p) == digit * TWO_63;
    }
  }

  lemma DigitFits(v: nat, p: nat, digit: nat)
    requires v < p && digit < 128
    ensures v + Weigh(digit, p) < 128 * p
  {
    WeighMono(digit, 127, p);
    WeighTimes(127, p);
  }

  lemma {:induction false} WeighMono(digit: nat, k: nat, p: nat)
    requires digit <= k
    ensures Weigh(digit, p) <= Weigh(k, p)
    decreases k
  {
    if digit < k { WeighMono(digit, k - 1, p); }
  }

  lemma PowMono(k: nat)
    requires 1 <= k <= 9
    ensures Pow7(k) <= TWO_63
  {
    Pow7Values();
  }
}
