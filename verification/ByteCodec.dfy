/** Byte strings as numbers, padding, and integers of fixed size. */
module ByteCodec {
  import opened Powers

  type Byte = b: nat | b < 256

  /** The unsigned number a byte string stands for. */
  function BigEndian(data: seq<Byte>): nat {
    if data == [] then 0 else BigEndian(data[..|data| - 1]) * 256 + data[|data| - 1]
  }

  lemma {:induction false} BigEndianBound(data: seq<Byte>)
    ensures BigEndian(data) < Pow2(8 * |data|)
  {
    if data == [] {
    } else {
      BigEndianBound(data[..|data| - 1]);
      Pow2Byte(|data| - 1);
    }
  }

  lemma Pow2Byte(n: nat)
    ensures Pow2(8 * (n + 1)) == 256 * Pow2(8 * n)
  {
    ShiftLeftTwice(1, 8 * n, 8);
    ShiftLeftIsProduct(Pow2(8 * n), 8);
    assert Pow2(8) == 256;
  }

  /** A byte in front counts by the length of what follows. */
  lemma {:induction false} BigEndianFirst(b: Byte, data: seq<Byte>)
    ensures BigEndian([b] + data) == ShiftLeft(b, 8 * |data|) + BigEndian(data)
  {
    if data == [] {
      assert ([b] + data)[..0] == [];
    } else {
      var all, init := [b] + data, data[..|data| - 1];
      assert all[..|all| - 1] == [b] + init;
      BigEndianFirst(b, init);
      ShiftLeftTwice(b, 8 * |init|, 8);
      ShiftLeftIsProduct(ShiftLeft(b, 8 * |init|), 8);
      assert Pow2(8) == 256;
    }
  }

  // ------------------------------------------------------------------ padding

  function Fill(n: nat, b: Byte): seq<Byte> {
    seq(n, i => b)
  }

  /** Left-pads to `length`; longer strings stay as they are. */
  function Lpad(data: seq<Byte>, length: nat, pad: Byte): seq<Byte> {
    Fill(if length > |data| then length - |data| else 0, pad) + data
  }

  lemma ShiftZero(e: nat)
    ensures ShiftLeft(0, e) == 0
  {
    ShiftLeftIsProduct(0, e);
  }

  lemma {:induction false} ZeroFill(n: nat, data: seq<Byte>)
    ensures BigEndian(Fill(n, 0) + data) == BigEndian(data)
  {
    if n == 0 {
      assert Fill(0, 0) + data == data;
    } else {
      assert Fill(n, 0) + data == [0] + (Fill(n - 1, 0) + data);
      BigEndianFirst(0, Fill(n - 1, 0) + data);
      ShiftZero(8 * |Fill(n - 1, 0) + data|);
      ZeroFill(n - 1, data);
    }
  }

  // ------------------------------------------------------------------ signed numbers

  predicate IsNegative(data: seq<Byte>) {
    data != [] && data[0] >= 128
  }

  /** The two's complement number a byte string stands for. */
  function TwosComplement(data: seq<Byte>): int {
    if IsNegative(data) then BigEndian(data) - Pow2(8 * |data|) else BigEndian(data)
  }

  function SignByte(data: seq<Byte>): Byte {
    if IsNegative(data) then 255 else 0
  }

  /** One more sign byte in front does not change the number. */
  lemma SignExtendOnce(data: seq<Byte>)
    ensures TwosComplement([SignByte(data)] + data) == TwosComplement(data)
  {
    BigEndianFirst(SignByte(data), data);
    if IsNegative(data) {
      var n := 8 * |data|;
      ShiftLeftAdds(255, 1, n);
      ShiftLeftTwice(1, 8, n);
      assert Pow2(8) == 256;
    } else {
      ShiftZero(8 * |data|);
    }
  }

  lemma {:induction false} SignExtend(n: nat, data: seq<Byte>)
    ensures TwosComplement(Fill(n, SignByte(data)) + data) == TwosComplement(data)
    ensures SignByte(Fill(n, SignByte(data)) + data) == SignByte(data)
  {
    var b := SignByte(data);
    if n == 0 {
      assert Fill(0, b) + data == data;
    } else {
      var rest := Fill(n - 1, b) + data;
      assert Fill(n, b) + data == [b] + rest;
      SignExtend(n - 1, data);
      SignExtendOnce(rest);
    }
  }

  // ------------------------------------------------------------------ integers of fixed size

  /** Copies the bytes to the end of a zeroed buffer and reads the buffer. */
  method ToUnsigned(data: seq<Byte>, size: nat) returns (v: nat)
    requires |data| <= size
    ensures v == BigEndian(data) && v < Pow2(8 * size)
  {
    var buf := FillBuffer(data, size, 0);
    ZeroFill(size - |data|, data);
    BigEndianBound(buf[..]);
    v := BigEndian(buf[..]);
  }

  /** The same with a buffer of sign bytes, read as two's complement. */
  method ToSigned(data: seq<Byte>, size: nat) returns (v: int)
    requires |data| <= size
    ensures v == TwosComplement(data)
  {
    var negative := |data| > 0 && data[0] / 128 % 2 != 0;
    var buf := FillBuffer(data, size, if negative then 255 else 0);
    SignExtend(size - |data|, data);
    v := TwosComplement(buf[..]);
  }

  method FillBuffer(data: seq<Byte>, size: nat, pad: Byte) returns (buf: array<Byte>)
    requires |data| <= size
    ensures fresh(buf) && buf[..] == Fill(size - |data|, pad) + data
  {
    buf := new Byte[size](_ => pad);
    var start := size - |data|;
    for i := 0 to |data|
      invariant forall j: nat | j < start :: buf[j] == pad
      invariant forall j: nat | j < i :: buf[start + j] == data[j]
    {
      buf[start + i] := data[i];
    }
  }

  /** The `size` bytes of a number, the most significant first. */
  function ToBytes(v: nat, size: nat): (data: seq<Byte>)
    requires v < Pow2(8 * size)
    ensures |data| == size
  {
    if size == 0 then []
    else
      Pow2Byte(size - 1);
      ToBytes(v / 256, size - 1) + [v % 256]
  }

  /** A number and its bytes determine each other. */
  lemma {:induction false} NumberRoundTrip(v: nat, size: nat)
    requires v < Pow2(8 * size)
    ensures BigEndian(ToBytes(v, size)) == v
  {
    if size == 0 {
    } else {
      Pow2Byte(size - 1);
      NumberRoundTrip(v / 256, size - 1);
      assert ToBytes(v, size)[..size - 1] == ToBytes(v / 256, size - 1);
    }
  }

  lemma {:induction false} BytesRoundTrip(data: seq<Byte>)
    ensures BigEndian(data) < Pow2(8 * |data|) && ToBytes(BigEndian(data), |data|) == data
  {
    BigEndianBound(data);
    if data == [] {
    } else {
      var init := data[..|data| - 1];
      BytesRoundTrip(init);
      Pow2Byte(|data| - 1);
      assert data == init + [data[|data| - 1]];
    }
  }

  /** Padding on the left keeps the bytes and reaches the length, unless they are longer already. */
  lemma LpadFills(data: seq<Byte>, length: nat, pad: Byte)
    ensures var padded := Lpad(data, length, pad);
            && |padded| == (if length > |data| then length else |data|)
            && padded[|padded| - |data|..] == data
            && forall i | 0 <= i < |padded| - |data| :: padded[i] == pad
  {}

  /** Padding on the left with zeros keeps the number, with sign bytes the signed number. */
  lemma LpadKeeps(data: seq<Byte>, length: nat)
    ensures BigEndian(Lpad(data, length, 0)) == BigEndian(data)
    ensures TwosComplement(Lpad(data, length, SignByte(data))) == TwosComplement(data)
  {
    var n := if length > |data| then length - |data| else 0;
    ZeroFill(n, data);
    SignExtend(n, data);
  }
}
