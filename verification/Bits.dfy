/**
 The bit buffer as a sequence of bits, and fixed-width unsigned fields on it,
 least significant bit first.  Machine masks (`std::uint64_t`) are bit strings
 of length 64.
 */
module Bits {
  import opened Wrappers

  type BitString = seq<bool>

  function Pow2(n: nat): (r: nat)
    ensures r >= 1
  {
    if n == 0 then 1 else 2 * Pow2(n - 1)
  }

  /** What `write_unsigned_bits(value, width)` appends: the low `width` bits of `value`. */
  function Encode(value: nat, width: nat): (bits: BitString)
    ensures |bits| == width
  {
    if width == 0 then [] else [value % 2 == 1] + Encode(value / 2, width - 1)
  }

  function Decode(bits: BitString): (value: nat) {
    if bits == [] then 0 else (if bits[0] then 1 else 0) + 2 * Decode(bits[1..])
  }

  /** A field that fits its width is read back unchanged. */
  lemma {:induction false} DecodeEncode(value: nat, width: nat)
    requires value < Pow2(width)
    ensures Decode(Encode(value, width)) == value
  {
    if width > 0 {
      DecodeEncode(value / 2, width - 1);
      assert Encode(value, width)[1..] == Encode(value / 2, width - 1);
    }
  }

  /** `Pow2` at the field widths of the wire formats. */
  lemma FieldWidths()
    ensures Pow2(16) == 65536
    ensures Pow2(32) == 0x1_0000_0000
  {
    assert Pow2(8) == 256;
    assert Pow2(12) == 4096;
    assert Pow2(16) == 65536;
    assert Pow2(20) == 1048576;
    assert Pow2(24) == 16777216;
    assert Pow2(28) == 268435456;
  }

  /** `BitReader::read_bits`: the next `width` bits, or nothing when fewer remain. */
  function Read(bits: BitString, width: nat): (r: Option<(BitString, BitString)>) {
    if |bits| < width then None else Some((bits[..width], bits[width..]))
  }

  /** Reading back a field of the width it was written with leaves exactly the rest. */
  lemma ReadAppended(field: BitString, rest: BitString)
    ensures Read(field + rest, |field|) == Some((field, rest))
  {
    assert (field + rest)[..|field|] == field;
    assert (field + rest)[|field|..] == rest;
  }

  function ReadField(bits: BitString, width: nat): Option<(nat, BitString)> {
    match Read(bits, width)
    case None => None
    case Some((field, rest)) => Some((Decode(field), rest))
  }

  lemma ReadFieldAppended(value: nat, width: nat, rest: BitString)
    requires value < Pow2(width)
    ensures ReadField(Encode(value, width) + rest, width) == Some((value, rest))
  {
    ReadAppended(Encode(value, width), rest);
    DecodeEncode(value, width);
  }

  /** Bitwise and, position by position. */
  function And(x: BitString, y: BitString): BitString
    requires |x| == |y|
  {
    if x == [] then [] else [x[0] && y[0]] + And(x[1..], y[1..])
  }

  lemma {:induction false} AndZero(value: nat, width: nat)
    ensures Decode(And(Encode(value, width), Encode(0, width))) == 0
  {
    if width > 0 {
      AndZero(value / 2, width - 1);
      var x, y := Encode(value, width), Encode(0, width);
      assert x[1..] == Encode(value / 2, width - 1) && y[1..] == Encode(0, width - 1);
      assert And(x, y)[1..] == And(x[1..], y[1..]);
    }
  }

  lemma HalfRemainder(value: nat, m: nat)
    requires m > 0
    ensures value % (2 * m) == value % 2 + 2 * ((value / 2) % m)
  {
    var q, r := (value / 2) / m, (value / 2) % m;
    assert value / 2 == m * q + r;
    assert value == 2 * (value / 2) + value % 2;
    assert value == (2 * m) * q + (2 * r + value % 2);
    RemainderUnique(value, 2 * m, q, 2 * r + value % 2);
  }

  lemma Distribute(m: nat, a: int, b: int)
    ensures m * (a + b) == m * a + m * b
  {
  }

  lemma AtLeastOnce(m: nat, d: int)
    requires d >= 1
    ensures m * d >= m
  {
    Distribute(m, 1, d - 1);
  }

  lemma RemainderUnique(value: nat, m: nat, q: nat, r: nat)
    requires m > 0 && value == m * q + r && r < m
    ensures value % m == r
  {
    var q', r' := value / m, value % m;
    Distribute(m, q, q' - q);
    Distribute(m, q', q - q');
    if q < q' {
      AtLeastOnce(m, q' - q);
    } else if q' < q {
      AtLeastOnce(m, q - q');
    }
  }

  /** The mask's encoding: an odd number, and then the mask of one bit less. */
  lemma EncodeMask(k: nat, width: nat)
    requires 0 < k && 0 < width
    ensures Encode(Pow2(k) - 1, width)[0] && Encode(Pow2(k) - 1, width)[1..] == Encode(Pow2(k - 1) - 1, width - 1)
  {
    var mask := Pow2(k) - 1;
    assert mask % 2 == 1 && mask / 2 == Pow2(k - 1) - 1;
  }

  /** Masking bit by bit, under a mask that starts with a set bit. */
  lemma MaskedBit(x: BitString, y: BitString, x': BitString, y': BitString, rest: nat)
    requires |x| == |y| > 0 && y[0] && x[1..] == x' && y[1..] == y' && Decode(And(x', y')) == rest
    ensures Decode(And(x, y)) == (if x[0] then 1 else 0) + 2 * rest
  {
    assert And(x, y)[1..] == And(x', y');
  }

  function Remainder(value: nat, m: nat): nat
    requires m > 0
  {
    value % m
  }

  lemma RemainderStep(value: nat, k: nat)
    requires k > 0
    ensures Remainder(value, Pow2(k)) == (if value % 2 == 1 then 1 else 0) + 2 * Remainder(value / 2, Pow2(k - 1))
  {
    HalfRemainder(value, Pow2(k - 1));
  }

  /** A value masked with `2 ^ k - 1`, as the bits of both are written. */
  function Masked(value: nat, k: nat, width: nat): nat {
    Decode(And(Encode(value, width), Encode(Pow2(k) - 1, width)))
  }

  lemma MaskedStep(value: nat, k: nat, width: nat)
    requires 0 < k && 0 < width
    ensures Masked(value, k, width) == (if value % 2 == 1 then 1 else 0) + 2 * Masked(value / 2, k - 1, width - 1)
  {
    hide Decode, And, Encode, Pow2;
    EncodeMask(k, width);
    EncodeHead(value, width);
    MaskedBit(Encode(value, width), Encode(Pow2(k) - 1, width), Encode(value / 2, width - 1), Encode(Pow2(k - 1) - 1, width - 1),
              Masked(value / 2, k - 1, width - 1));
  }

  lemma {:induction false} MaskedRemainder(value: nat, k: nat, width: nat)
    requires k <= width
    ensures Masked(value, k, width) == Remainder(value, Pow2(k))
  {
    if k == 0 {
      AndZero(value, width);
    } else {
      hide Masked, Pow2, Remainder;
      MaskedRemainder(value / 2, k - 1, width - 1);
      MaskedStep(value, k, width);
      RemainderStep(value, k);
    }
  }

  lemma EncodeHead(value: nat, width: nat)
    requires width > 0
    ensures Encode(value, width)[0] == (value % 2 == 1) && Encode(value, width)[1..] == Encode(value / 2, width - 1)
  {
  }

  /** Masking with `size - 1` is the remainder, for every power of two. */
  lemma MaskIsRemainder(value: nat, k: nat, width: nat)
    requires k <= width
    ensures Decode(And(Encode(value, width), Encode(Pow2(k) - 1, width))) == value % Pow2(k)
  {
    hide Decode, And, Encode;
    MaskedRemainder(value, k, width);
  }
}
