/** Variable-length integers (section 16 of RFC 9000; ruvia-http/src/util/quic_varint.h). */
module QuicVarint {

  import opened Wrappers

  const MAX: nat := 0x3fff_ffff_ffff_ffff

  datatype Decoded = Incomplete | Varint(value: nat, size: nat)
  datatype EncodeResult = Encoded(size: nat) | OutOfRange | OutputTooSmall

  /** The two top bits of the first byte give the length. */
  function SizeOf(first: Byte): (n: nat)
    ensures n == 1 || n == 2 || n == 4 || n == 8
  {
    if first < 64 then 1 else if first < 128 then 2 else if first < 192 then 4 else 8
  }

  /** The remaining bits, big-endian. */
  function Value(s: seq<Byte>): nat
    requires s != []
  {
    if |s| == 1 then s[0] % 64 else Value(s[..|s| - 1]) * 256 + s[|s| - 1]
  }

  function Decode(s: seq<Byte>): Decoded {
    if s == [] || |s| < SizeOf(s[0]) then Incomplete else Varint(Value(s[..SizeOf(s[0])]), SizeOf(s[0]))
  }

  /** decode_quic_varint. */
  method DecodeVarint(input: seq<Byte>) returns (r: Decoded)
    ensures r == Decode(input)
  {
    if input == [] {
      return Incomplete;
    }
    var size := SizeOf(input[0]);
    if |input| < size {
      return Incomplete;
    }
    var value: nat := input[0] % 64;
    assert input[..1] == [input[0]];
    for i := 1 to size
      invariant value == Value(input[..i])
    {
      assert input[..i + 1][..i] == input[..i];
      value := value * 256 + input[i];
    }
    return Varint(value, size);
  }

  function Size(value: nat): nat {
    if value < 0x40 then 1 else if value < 0x4000 then 2 else if value < 0x4000_0000 then 4 else 8
  }

  function Pow256(n: nat): nat {
    if n == 0 then 1 else 256 * Pow256(n - 1)
  }

  /** The n low base-256 digits of v, most significant first. */
  function Digits(v: nat, n: nat): (r: seq<Byte>)
    ensures |r| == n
  {
    if n == 0 then [] else Digits(v / 256, n - 1) + [v % 256]
  }

  function Tag(size: nat): nat {
    if size == 1 then 0 else if size == 2 then 0x40 else if size == 4 then 0x80 else 0xc0
  }

  /** The encoding of a value that fits: its digits, tagged with their number. The top
      two bits of the first digit are clear. */
  function Encode(value: nat): (r: seq<Byte>)
    requires value <= MAX
    ensures |r| == Size(value)
  {
    var d := Digits(value, Size(value));
    FirstDigitFits(value);
    d[0 := d[0] + Tag(Size(value))]
  }

  lemma {:induction false} FirstDigit(v: nat, n: nat)
    requires n > 0
    ensures v < 64 * Pow256(n - 1) ==> Digits(v, n)[0] < 64
    decreases n
  {
    if n > 1 {
      FirstDigit(v / 256, n - 1);
      assert v < 64 * Pow256(n - 1) ==> v / 256 < 64 * Pow256(n - 2);
      assert Digits(v, n)[0] == Digits(v / 256, n - 1)[0];
    }
  }

  lemma FirstDigitFits(value: nat)
    requires value <= MAX
    ensures Digits(value, Size(value))[0] < 64
  {
    assert Pow256(1) == 0x100 && Pow256(3) == 0x100_0000 && Pow256(7) == 0x100_0000_0000_0000;
    FirstDigit(value, Size(value));
  }

  lemma {:induction false} ValueOfDigits(v: nat, n: nat, tag: nat)
    requires n > 0 && Digits(v, n)[0] < 64 && tag % 64 == 0 && tag < 256
    requires v < 64 * Pow256(n - 1)
    ensures Digits(v, n)[0] + tag < 256
    ensures Value(Digits(v, n)[0 := Digits(v, n)[0] + tag]) == v
    decreases n
  {
    var d := Digits(v, n);
    var t := d[0 := d[0] + tag];
    if n > 1 {
      var d' := Digits(v / 256, n - 1);
      assert d == d' + [v % 256] && d'[0] == d[0];
      ValueOfDigits(v / 256, n - 1, tag);
      assert t[..n - 1] == d'[0 := d'[0] + tag];
    }
  }

  /** Decoding undoes encoding, whatever follows, and needs every byte of it. */
  lemma RoundTrip(value: nat, rest: seq<Byte>)
    requires value <= MAX
    ensures Decode(Encode(value) + rest) == Varint(value, Size(value))
    ensures forall k :: 0 <= k < Size(value) ==> Decode(Encode(value)[..k]) == Incomplete
  {
    var n := Size(value);
    FirstDigitFits(value);
    assert Pow256(1) == 0x100 && Pow256(3) == 0x100_0000 && Pow256(7) == 0x100_0000_0000_0000;
    ValueOfDigits(value, n, Tag(n));
    assert SizeOf(Encode(value)[0]) == n;
    assert (Encode(value) + rest)[..n] == Encode(value);
  }

  /** More bytes never change a decision already made. */
  lemma DecodeIsStable(s: seq<Byte>, rest: seq<Byte>)
    requires Decode(s).Varint?
    ensures Decode(s + rest) == Decode(s) && Decode(s).size <= |s| && Decode(s).value <= MAX
  {
    assert (s + rest)[..SizeOf(s[0])] == s[..SizeOf(s[0])];
    ValueBound(s[..SizeOf(s[0])]);
    assert Pow256(1) == 0x100 && Pow256(3) == 0x100_0000 && Pow256(7) == 0x100_0000_0000_0000;
  }

  lemma {:induction false} ValueBound(s: seq<Byte>)
    requires s != []
    ensures Value(s) < 64 * Pow256(|s| - 1)
    decreases |s|
  {
    if |s| > 1 {
      ValueBound(s[..|s| - 1]);
    }
  }

  /** No encoding of the value is shorter, and the value could not be one larger than the largest. */
  lemma EncodingIsShortest(s: seq<Byte>)
    requires Decode(s).Varint?
    ensures Decode(s).value <= MAX && |Encode(Decode(s).value)| <= Decode(s).size
    ensures Decode([255, 255, 255, 255, 255, 255, 255, 255]) == Varint(MAX, 8)
  {
    hide Encode;
    assert Pow256(0) == 1 && Pow256(1) == 0x100 && Pow256(3) == 0x100_0000 && Pow256(7) == 0x100_0000_0000_0000;
    ValueBound(s[..SizeOf(s[0])]);
    var all: seq<Byte> := [255, 255, 255, 255, 255, 255, 255, 255];
    assert all[..8] == all;
    ValueInBytes(all);
  }

  /** Four base-256 digits, the most significant first. */
  function Four(a: nat, b: nat, c: nat, d: nat): nat {
    0x100_0000 * a + 0x1_0000 * b + 0x100 * c + d
  }

  /** The bytes of an encoding are in network order. */
  lemma ValueInBytes(s: seq<Byte>)
    requires |s| == 1 || |s| == 2 || |s| == 4 || |s| == 8
    ensures |s| == 1 ==> Value(s) == s[0] % 64
    ensures |s| == 2 ==> Value(s) == Four(0, 0, s[0] % 64, s[1])
    ensures |s| == 4 ==> Value(s) == Four(s[0] % 64, s[1], s[2], s[3])
    ensures |s| == 8 ==>
            Value(s) == 0x1_0000_0000 * Four(s[0] % 64, s[1], s[2], s[3]) + Four(s[4], s[5], s[6], s[7])
  {
    if |s| == 8 {
      FourthLast(s);
      FourthLast(s[..4]);
    } else if |s| == 4 {
      FourthLast(s);
    } else if |s| == 2 {
      assert s[..1] == [s[0]];
    }
  }

  lemma LastThree(s: seq<Byte>)
    requires |s| >= 4
    ensures var n := |s|; Value(s) == Four(Value(s[..n - 3]), s[n - 3], s[n - 2], s[n - 1])
  {
    var n := |s|;
    assert s[..n - 1][..n - 2] == s[..n - 2] && s[..n - 2][..n - 3] == s[..n - 3];
    var v := Value(s[..n - 3]);
    assert Value(s[..n - 2]) == v * 256 + s[n - 3];
    assert Value(s[..n - 1]) == Value(s[..n - 2]) * 256 + s[n - 2];
    assert Value(s) == Value(s[..n - 1]) * 256 + s[n - 1];
  }

  lemma FourthLast(s: seq<Byte>)
    requires |s| >= 4
    ensures Value(s) == if |s| == 4 then Four(s[0] % 64, s[1], s[2], s[3])
                        else 0x1_0000_0000 * Value(s[..|s| - 4])
                             + Four(s[|s| - 4], s[|s| - 3], s[|s| - 2], s[|s| - 1])
  {
    var n := |s|;
    LastThree(s);
    if n > 4 {
      assert s[..n - 3][..n - 4] == s[..n - 4];
    } else {
      assert s[..1] == [s[0]];
    }
  }

  /** The examples of appendix A.1 of RFC 9000: the two bits of the first byte are the length's logarithm. */
  lemma ExamplesOfTheStandard()
    ensures Decode([0xc2, 0x19, 0x7c, 0x5e, 0xff, 0x14, 0xe8, 0x8c]) == Varint(151288809941952652, 8)
    ensures Decode([0x9d, 0x7f, 0x3e, 0x7d]) == Varint(494878333, 4)
    ensures Decode([0x7b, 0xbd]) == Varint(15293, 2)
    ensures Decode([0x25]) == Varint(37, 1) && Decode([0x40, 0x25]) == Varint(37, 2)
  {
    var a: seq<Byte> := [0xc2, 0x19, 0x7c, 0x5e, 0xff, 0x14, 0xe8, 0x8c];
    var b: seq<Byte> := [0x9d, 0x7f, 0x3e, 0x7d];
    var c: seq<Byte> := [0x7b, 0xbd];
    var d: seq<Byte> := [0x40, 0x25];
    assert a[..8] == a && b[..4] == b && c[..2] == c && d[..2] == d;
    ValueInBytes(a);
    ValueInBytes(b);
    ValueInBytes(c);
    ValueInBytes(d);
  }

  /** The buffer while a value's digits go in from the back: those from position i on are
      there, and v is what remains to be written. */
  ghost predicate Written(buffer: seq<Byte>, before: seq<Byte>, offset: nat, value: nat, size: nat, v: nat, i: nat) {
    && |buffer| == |before| && i <= size && offset + size <= |before|
    && Digits(value, size) == Digits(v, i) + buffer[offset + i..offset + size]
    && buffer[..offset + i] == before[..offset + i] && buffer[offset + size..] == before[offset + size..]
  }

  lemma NothingWritten(before: seq<Byte>, offset: nat, value: nat, size: nat)
    requires offset + size <= |before|
    ensures Written(before, before, offset, value, size, value, size)
  {
  }

  lemma DigitWritten(buffer: seq<Byte>, before: seq<Byte>, offset: nat, value: nat, size: nat, v: nat, i: nat)
    requires Written(buffer, before, offset, value, size, v, i) && i > 0
    ensures Written(buffer[offset + i - 1 := v % 256], before, offset, value, size, v / 256, i - 1)
  {
    var after := buffer[offset + i - 1 := v % 256];
    assert after[offset + i - 1..offset + size] == [v % 256] + buffer[offset + i..offset + size];
    assert after[..offset + i - 1] == buffer[..offset + i][..offset + i - 1];
    assert after[offset + size..] == buffer[offset + size..];
  }

  lemma TagWritten(buffer: seq<Byte>, before: seq<Byte>, offset: nat, value: nat, v: nat)
    requires value <= MAX && Written(buffer, before, offset, value, Size(value), v, 0)
    ensures buffer[offset] + Tag(Size(value)) < 256
    ensures buffer[offset := buffer[offset] + Tag(Size(value))]
            == before[..offset] + Encode(value) + before[offset + Size(value)..]
  {
    hide Pow256, Value;
    var size := Size(value);
    FirstDigitFits(value);
    assert buffer[offset..offset + size] == Digits(value, size);
    assert buffer[offset] == Digits(value, size)[0];
    assert buffer == before[..offset] + Digits(value, size) + before[offset + size..];
  }

  /** encode_quic_varint into the front of a buffer. */
  method EncodeVarint(output: array<Byte>, offset: nat, value: nat) returns (r: EncodeResult)
    requires offset <= output.Length
    modifies output
    ensures r == (if value > MAX then OutOfRange
                  else if output.Length - offset < Size(value) then OutputTooSmall
                  else Encoded(Size(value)))
    ensures output[..] == if r.Encoded? then old(output[..offset]) + Encode(value) + old(output[offset + Size(value)..])
                          else old(output[..])
  {
    hide Written, Digits, Encode, Tag;
    if value > MAX {
      return OutOfRange;
    }
    var size := Size(value);
    if output.Length - offset < size {
      return OutputTooSmall;
    }
    var v, i := value, size;
    ghost var before := output[..];
    NothingWritten(before, offset, value, size);
    while i != 0
      invariant 0 <= i <= size && Written(output[..], before, offset, value, size, v, i)
    {
      DigitWritten(output[..], before, offset, value, size, v, i);
      output[offset + i - 1] := v % 256;
      v := v / 256;
      i := i - 1;
    }
    TagWritten(output[..], before, offset, value, v);
    output[offset] := output[offset] + Tag(size);
    r := Encoded(size);
  }
}
