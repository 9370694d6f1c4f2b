/** Fixed-width unsigned integers and their little-endian wire form. */
module Bytes {

  type Byte = x: int | 0 <= x < 0x100
  type U16 = x: int | 0 <= x < 0x1_0000
  type U32 = x: int | 0 <= x < 0x1_0000_0000

  datatype Option<+T> = None | Some(value: T)

  /** A slice of a slice is a slice. */
  lemma SliceOfSlice<T>(s: seq<T>, a: nat, b: nat, c: nat, d: nat)
    requires a <= b <= |s| && c <= d <= b - a
    ensures s[a..b][c..d] == s[a + c..a + d]
  {
    var t := s[a..b];
    forall j | 0 <= j < d - c ensures t[c..d][j] == s[a + c..a + d][j] {
      assert t[c..d][j] == t[c + j];
    }
  }

  lemma Regroup<T>(a: seq<T>, b: seq<T>, c: seq<T>)
    ensures a + (b + c) == (a + b) + c
  {
  }

  function Min(a: nat, b: nat): nat { if a > b then b else a }

  /** The unsigned 8-bit result of an integer expression. */
  function Wrap8(x: int): Byte { x % 0x100 }

  /** The unsigned 32-bit result of an integer expression. */
  function Wrap32(x: int): U32 { x % 0x1_0000_0000 }

  function PutU16(v: U16): (b: seq<Byte>)
    ensures |b| == 2
  {
    [v % 0x100, v / 0x100]
  }

  function GetU16(b: seq<Byte>): U16
    requires |b| == 2
  {
    b[0] as int + 0x100 * b[1] as int
  }

  function PutU32(v: U32): (b: seq<Byte>)
    ensures |b| == 4
  {
    PutU16(v % 0x1_0000) + PutU16(v / 0x1_0000)
  }

  function GetU32(b: seq<Byte>): U32
    requires |b| == 4
  {
    GetU16(b[..2]) as int + 0x1_0000 * GetU16(b[2..]) as int
  }

  lemma U16RoundTrip(v: U16, b: seq<Byte>)
    requires |b| == 2
    ensures GetU16(PutU16(v)) == v
    ensures PutU16(GetU16(b)) == b
  {
  }

  lemma U32RoundTrip(v: U32, b: seq<Byte>)
    requires |b| == 4
    ensures GetU32(PutU32(v)) == v
    ensures PutU32(GetU32(b)) == b
  {
    ValueReturns(v);
    BytesReturn(b);
  }

  lemma ValueReturns(v: U32)
    ensures GetU32(PutU32(v)) == v
  {
    assert PutU32(v)[..2] == PutU16(v % 0x1_0000) && PutU32(v)[2..] == PutU16(v / 0x1_0000);
    U16RoundTrip(v % 0x1_0000, [0, 0]);
    U16RoundTrip(v / 0x1_0000, [0, 0]);
  }

  lemma BytesReturn(b: seq<Byte>)
    requires |b| == 4
    ensures PutU32(GetU32(b)) == b
  {
    U16RoundTrip(0, b[..2]);
    U16RoundTrip(0, b[2..]);
    assert GetU32(b) % 0x1_0000 == GetU16(b[..2]) && GetU32(b) / 0x1_0000 == GetU16(b[2..]);
    assert b == b[..2] + b[2..];
  }

  /** The 32-bit value that lies at index `i`, lowest byte first. */
  function U32At(b: seq<Byte>, i: nat): int
    requires i + 4 <= |b|
  {
    b[i] as int + 0x100 * b[i + 1] as int + 0x1_0000 * b[i + 2] as int + 0x100_0000 * b[i + 3] as int
  }

  lemma U32Layout(v: U32)
    ensures U32At(PutU32(v), 0) == v
  {
    var lo, hi := v % 0x1_0000, v / 0x1_0000;
    assert PutU32(v) == [lo % 0x100, lo / 0x100, hi % 0x100, hi / 0x100];
  }

  /** Consecutive 32-bit values, as an array of them lies in memory. */
  function PutU32s(vs: seq<U32>): (b: seq<Byte>)
    ensures |b| == 4 * |vs|
  {
    if vs == [] then [] else PutU32(vs[0]) + PutU32s(vs[1..])
  }

  function GetU32s(b: seq<Byte>): (vs: seq<U32>)
    requires |b| % 4 == 0
    ensures |vs| == |b| / 4
  {
    if b == [] then [] else [GetU32(b[..4])] + GetU32s(b[4..])
  }

  lemma {:induction false} U32sLayout(vs: seq<U32>, i: nat)
    requires i < |vs|
    ensures U32At(PutU32s(vs), 4 * i) == vs[i]
  {
    U32Layout(vs[0]);
    if i > 0 { U32sLayout(vs[1..], i - 1); }
  }

  lemma {:induction false} U32sRoundTrip(vs: seq<U32>)
    ensures GetU32s(PutU32s(vs)) == vs
  {
    if vs != [] {
      var b := PutU32s(vs);
      assert b[..4] == PutU32(vs[0]) && b[4..] == PutU32s(vs[1..]);
      U32RoundTrip(vs[0], b[..4]);
      U32sRoundTrip(vs[1..]);
    }
  }

  lemma {:induction false} BytesU32sRoundTrip(b: seq<Byte>)
    requires |b| % 4 == 0
    ensures PutU32s(GetU32s(b)) == b
  {
    if b != [] {
      U32RoundTrip(0, b[..4]);
      BytesU32sRoundTrip(b[4..]);
      assert b == b[..4] + b[4..];
      assert GetU32s(b)[1..] == GetU32s(b[4..]);
    }
  }

  lemma MoveOver<T>(a: seq<T>, b: seq<T>)
    requires b != []
    ensures (a + [b[0]]) + b[1..] == a + b
  {
  }
}
