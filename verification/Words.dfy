/** Machine words: the wrap-around of the program's fixed-width integers, written out. */
module Words {
  const TWO_16: nat := 0x1_0000
  const TWO_32: nat := 0x1_0000_0000
  const TWO_31: nat := 0x8000_0000
  const TWO_63: nat := 0x8000_0000_0000_0000
  const TWO_64: nat := 0x1_0000_0000_0000_0000

  datatype Option<+T> = None | Some(value: T)

  /** What a reader comes to: a value, an error it returns, or a panic it does not. */
  datatype Outcome<+T> = Got(value: T) | Failed | Panicked

  /** uint32 addition. */
  function Add32(a: nat, b: nat): (r: nat)
    ensures r < TWO_32
    ensures a + b < TWO_32 ==> r == a + b
  {
    (a + b) % TWO_32
  }

  /** Conversion of an integer to uint32. */
  function ToU32(v: int): (r: nat)
    ensures r < TWO_32
    ensures 0 <= v < TWO_32 ==> r == v
  {
    v % TWO_32
  }

  predicate Int32(v: int) { -0x8000_0000 <= v < 0x8000_0000 }

  predicate Int64(v: int) { -0x8000_0000_0000_0000 <= v < 0x8000_0000_0000_0000 }

  /** int32(uint32(v)). */
  function ToI32(v: nat): (r: int)
    ensures Int32(r)
  {
    if v % TWO_32 >= 0x8000_0000 then v % TWO_32 - TWO_32 else v % TWO_32
  }

  function ToI64(v: nat): int {
    if v % TWO_64 >= TWO_63 then v % TWO_64 - TWO_64 else v % TWO_64
  }

  /** uint64(uint32(v)). */
  function Low32(v: int): (r: nat)
    ensures r < TWO_32 && (Int32(v) ==> ToI32(r) == v)
  {
    v % TWO_32
  }

  /** Two's complement in 64 bits: a negative int32 takes ten bytes. */
  function Signed64(v: int): (r: nat)
    ensures r < TWO_64 && (Int64(v) ==> ToI64(r) == v) && (Int32(v) ==> ToI32(r) == v)
  {
    v % TWO_64
  }

  /** Evaluation times are after the zero time. */
  type Time = t: int | t > 0 witness 1

  /** int8(v). */
  function ToI8(v: int): (r: int)
    ensures -128 <= r < 128 && (v - r) % 256 == 0
  {
    (v + 128) % 256 - 128
  }

  /** int16(v). */
  function ToI16(v: nat): (r: int)
    ensures -0x8000 <= r < 0x8000 && (v < 0x8000 ==> r == v)
  {
    if v % TWO_16 >= 0x8000 then v % TWO_16 - TWO_16 else v % TWO_16
  }

  /** int32 arithmetic wraps. */
  function Wrap32(v: int): (r: int)
    ensures Int32(r) && (Int32(v) ==> r == v)
  {
    ToI32(Low32(v))
  }

  /** int64 arithmetic wraps. */
  function Wrap64(v: int): (r: int)
    ensures Int64(r) && (Int64(v) ==> r == v)
  {
    ToI64(Signed64(v))
  }

  /** Adding a wrapped difference gives the value back. */
  lemma DeltaBack32(prev: int, v: int)
    requires Int32(v)
    ensures Wrap32(prev + Wrap32(v - prev)) == v
  {
  }

  lemma DeltaBack64(prev: int, v: int)
    requires Int64(v)
    ensures Wrap64(prev + Wrap64(v - prev)) == v
  {
    var k := (v - prev - Wrap64(v - prev)) / TWO_64;
    assert v - prev == Wrap64(v - prev) + k * TWO_64;
    assert (v - k * TWO_64) % TWO_64 == v % TWO_64;
  }
}
