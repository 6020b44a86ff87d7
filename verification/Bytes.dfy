/** Fixed-width integers and the byte encodings of `util.go`.

    The source's machine integers are subset types here, so every wrap-around the
    source relies on (or suffers from) is written out with `%` where it happens. */
module Bytes {

  type byte = x: int | 0 <= x < 0x100
  type uint16 = x: int | 0 <= x < 0x1_0000
  type uint32 = x: int | 0 <= x < 0x1_0000_0000

  /** `util.ToLE` on a 32-bit value. */
  function ToLE32(x: uint32): (b: seq<byte>)
    ensures |b| == 4
  {
    [x % 0x100, x / 0x100 % 0x100, x / 0x1_0000 % 0x100, x / 0x100_0000]
  }

  /** `util.ReadLE` on a 32-bit value. */
  function FromLE32(b: seq<byte>): uint32
    requires |b| == 4
  {
    var b0: int, b1: int, b2: int, b3: int := b[0], b[1], b[2], b[3];
    b0 + 0x100 * b1 + 0x1_0000 * b2 + 0x100_0000 * b3
  }

  /** `util.ToBE` on a 16-bit value. */
  function ToBE16(x: uint16): (b: seq<byte>)
    ensures |b| == 2
  {
    [x / 0x100, x % 0x100]
  }

  /** `util.ReadBE` on a 16-bit value. */
  function FromBE16(b: seq<byte>): uint16
    requires |b| == 2
  {
    var b0: int, b1: int := b[0], b[1];
    0x100 * b0 + b1
  }

  /** `util.ToBE` on a 32-bit value. */
  function ToBE32(x: uint32): (b: seq<byte>)
    ensures |b| == 4
  {
    [x / 0x100_0000, x / 0x1_0000 % 0x100, x / 0x100 % 0x100, x % 0x100]
  }

  /** `util.FromBE` on a 32-bit value. */
  function FromBE32(b: seq<byte>): uint32
    requires |b| == 4
  {
    var b0: int, b1: int, b2: int, b3: int := b[0], b[1], b[2], b[3];
    0x100_0000 * b0 + 0x1_0000 * b1 + 0x100 * b2 + b3
  }

  /** Which byte comes first. */
  lemma ByteOrder()
    ensures ToLE32(0x0102_0304) == [4, 3, 2, 1] && FromLE32([4, 3, 2, 1]) == 0x0102_0304
    ensures ToBE32(0x0102_0304) == [1, 2, 3, 4] && FromBE32([1, 2, 3, 4]) == 0x0102_0304
    ensures ToBE16(0x0102) == [1, 2] && FromBE16([1, 2]) == 0x0102
  {
  }

  lemma LE32RoundTrip(x: uint32)
    ensures FromLE32(ToLE32(x)) == x
  {
    assert x / 0x1_0000 == x / 0x100 / 0x100 && x / 0x100_0000 == x / 0x1_0000 / 0x100;
  }

  lemma BE32RoundTrip(x: uint32)
    ensures FromBE32(ToBE32(x)) == x
  {
    assert x / 0x1_0000 == x / 0x100 / 0x100 && x / 0x100_0000 == x / 0x1_0000 / 0x100;
  }

  lemma BE16RoundTrip(x: uint16)
    ensures FromBE16(ToBE16(x)) == x
  {
  }

  /** `util.Pad`: a zeroed buffer of the given size that receives as much of the
      source as fits. */
  function Pad(src: seq<byte>, size: nat): (r: seq<byte>)
    ensures |r| == size
    ensures |src| <= size ==> r[..|src|] == src
  {
    if |src| <= size then src + seq(size - |src|, _ => 0) else src[..size]
  }

  /** `big.Int.Bytes`: the big-endian magnitude without leading zeroes. */
  function ToMagnitude(n: nat): (b: seq<byte>)
  {
    if n == 0 then [] else ToMagnitude(n / 0x100) + [n % 0x100]
  }

  /** `big.Int.SetBytes`. */
  function FromMagnitude(b: seq<byte>): nat
  {
    if b == [] then 0 else 0x100 * FromMagnitude(b[..|b| - 1]) + b[|b| - 1]
  }

  /** The magnitude bytes decode to the number they came from, and they carry no
      leading zero byte, so distinct numbers have distinct encodings. */
  lemma {:induction false} MagnitudeRoundTrip(n: nat)
    ensures FromMagnitude(ToMagnitude(n)) == n
    ensures n == 0 <==> ToMagnitude(n) == []
    ensures n > 0 ==> ToMagnitude(n)[0] != 0
  {
    if n > 0 {
      MagnitudeRoundTrip(n / 0x100);
      var b := ToMagnitude(n);
      assert b[..|b| - 1] == ToMagnitude(n / 0x100);
    }
  }
}
