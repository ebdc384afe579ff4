/**
 * `VarInts`: ZigZag and base-128 varints, as in the Protocol Buffers
 * encoding guide ("Base 128 Varints", "ZigZag encoding").  The output
 * stream is the sequence of bytes a method writes; the input stream is a
 * sequence of bytes read from the front, and running out of it is the
 * `EOFException` of `readByte`.
 *
 * Values are unbounded integers.  A Java `long` or `int` that the code
 * shifts with `>>>` is modelled by its unsigned bit pattern (a `nat`
 * below 2^64 or 2^32).  The decoder ORs each 7-bit group into bits the
 * accumulator does not have yet, so the OR is written as an addition.
 */
module VarInts {
  import opened Wrappers
  import opened JavaText

  /** A byte as `writeByte` writes it and `readByte` reads it, as its unsigned value. */
  newtype uint8 = x: int | 0 <= x < 256

  const TWO_32: nat := 0x1_0000_0000
  const TWO_64: nat := 0x1_0000_0000_0000_0000

  /** The range of the decoder's accumulator: an `int`, or a `long` when `wide`. */
  function Width(wide: bool): nat { if wide then TWO_64 else TWO_32 }

  /** Why `decodeUnsigned` throws: the input ended, or ten bytes all had 0x80 set. */
  datatype DecodeError = EndOfInput | TooLarge

  function Pow128(k: nat): (r: nat)
    ensures r >= 1
  {
    if k == 0 then 1 else 128 * Pow128(k - 1)
  }

  /** `d << 7k`: a group placed at the loop's `k`-th shift. */
  function Shifted(d: nat, k: nat): nat
  {
    if k == 0 then d else 128 * Shifted(d, k - 1)
  }

  /** Shifting distributes over addition. */
  lemma {:induction false} ShiftedAdd(a: nat, b: nat, k: nat)
    ensures Shifted(a, k) + Shifted(b, k) == Shifted(a + b, k)
  {
    if k > 0 {
      ShiftedAdd(a, b, k - 1);
    }
  }

  /** Shifting one group further is shifting 128 times the value. */
  lemma {:induction false} ShiftedOnce(a: nat, k: nat)
    ensures Shifted(a, k + 1) == Shifted(128 * a, k)
  {
    if k > 0 {
      ShiftedOnce(a, k - 1);
    }
  }

  /** Five groups hold 35 bits and ten hold 70. */
  lemma Pow128Bounds()
    ensures Pow128(5) == 0x8_0000_0000 && Pow128(10) == 0x40_0000_0000_0000_0000
  {
    assert Pow128(5) == 0x8_0000_0000;
  }

  /** The unsigned bit pattern of a Java `long`. */
  function Unsigned64(x: int): (u: nat)
    requires IsInt64(x)
    ensures u < TWO_64
    ensures x >= 0 ==> u == x
  {
    if x < 0 then x + TWO_64 else x
  }

  /** The `long` a 64-bit pattern stands for. */
  function Signed64(u: nat): (x: int)
    requires u < TWO_64
    ensures IsInt64(x)
  {
    if u <= LONG_MAX then u else u - TWO_64
  }

  /** The `int` a 32-bit pattern stands for. */
  function Signed32(u: nat): (x: int)
    requires u < TWO_32
    ensures IsInt32(x)
  {
    if u <= INT_MAX then u else u - TWO_32
  }

  // ---------------------------------------------------------------------
  // ZigZag.
  // ---------------------------------------------------------------------

  /**
   * ZigZag as an unsigned value: `(n << 1) ^ (n >> 31)` for an int and
   * `(n << 1) ^ (n >> 63)` for a long both come to 2n for n >= 0 and to
   * -2n - 1 for n < 0.
   */
  function ZigZag(n: int): (u: nat)
    ensures IsInt32(n) ==> u < TWO_32
    ensures IsInt64(n) ==> u < TWO_64
  {
    if n >= 0 then 2 * n else -2 * n - 1
  }

  /** `(n >>> 1) ^ -(n & 1)` on the bit pattern `u`. */
  function UnZigZag(u: nat): (n: int)
  {
    if u % 2 == 0 then u / 2 else -(u / 2) - 1
  }

  /** ZigZag decoding undoes ZigZag encoding. */
  lemma UnZigZagZigZag(n: int)
    ensures UnZigZag(ZigZag(n)) == n
  {
    if n < 0 {
      assert ZigZag(n) == 2 * (-n - 1) + 1;
    }
  }

  /** ZigZag keeps a long within `long` range when read back. */
  lemma UnZigZagRange(u: nat)
    requires u < TWO_64
    ensures IsInt64(UnZigZag(u))
  {
  }

  // ---------------------------------------------------------------------
  // Base-128 groups.
  // ---------------------------------------------------------------------

  /**
   * What `encodeUnsigned` writes for the bit pattern `u`: 7-bit groups,
   * least significant first, with 0x80 set on every byte but the last.
   */
  function Groups(u: nat): (bytes: seq<uint8>)
    ensures |bytes| > 0
    decreases u
  {
    if u < 128 then [u as uint8] else [(u % 128 + 128) as uint8] + Groups(u / 128)
  }

  /** Every group but the last has 0x80 set, so a reader knows where the value ends. */
  lemma {:induction false} GroupsMarked(u: nat)
    ensures Groups(u)[|Groups(u)| - 1] < 128
    ensures forall i :: 0 <= i < |Groups(u)| - 1 ==> Groups(u)[i] >= 128
    decreases u
  {
    if u >= 128 {
      GroupsMarked(u / 128);
    }
  }

  /** A value below 128^k takes at most k groups. */
  lemma {:induction false} GroupsLength(u: nat, k: nat)
    requires 1 <= k && u < Pow128(k)
    ensures |Groups(u)| <= k
    decreases k
  {
    if u >= 128 {
      GroupsLength(u / 128, k - 1);
    }
  }

  /** `encodeUnsigned`: the loop that writes the groups of `value`'s bit pattern. */
  method EncodeUnsigned(value: int) returns (output: seq<uint8>)
    requires IsInt64(value)
    ensures output == Groups(Unsigned64(value))
  {
    var tempValue := Unsigned64(value);
    output := [];
    while true
      invariant output + Groups(tempValue) == Groups(Unsigned64(value))
      decreases tempValue
    {
      if tempValue < 128 {
        output := output + [tempValue as uint8];
        return;
      }
      output := output + [(tempValue % 128 + 128) as uint8];
      tempValue := tempValue / 128;
    }
  }

  // ---------------------------------------------------------------------
  // Decoding.
  // ---------------------------------------------------------------------

  /**
   * The loop of `decodeUnsigned` from its `k`-th byte (shift 7k) with the
   * accumulator `acc`, kept modulo 2^32 as written, where the accumulator
   * is an `int`, and modulo 2^64 (`wide`) for a `long` accumulator.  The
   * accumulator and the number of bytes read, or why it throws.
   */
  function Accumulate(input: seq<uint8>, k: nat, acc: nat, wide: bool): (r: Result<(nat, nat), DecodeError>)
    requires k <= 10
    ensures r.Success? ==> r.value.0 < Width(wide) && k < r.value.1 <= |input| && r.value.1 <= 10
    decreases 10 - k
  {
    if k == 10 then Failure(TooLarge)
    else if k >= |input| then Failure(EndOfInput)
    else
      var b := input[k];
      var next := (acc + Shifted(b as int % 128, k)) % Width(wide);
      if b < 128 then Success((next, k + 1)) else Accumulate(input, k + 1, next, wide)
  }

  /**
   * `decodeUnsigned` as written: the `int` accumulator, widened to `long`
   * on return (so bit 31 is sign-extended), and the number of bytes read.
   */
  method DecodeUnsigned(input: seq<uint8>) returns (r: Result<(int, nat), DecodeError>)
    ensures var a := Accumulate(input, 0, 0, false);
      r == (if a.Success? then Success((Signed32(a.value.0), a.value.1)) else Failure(a.error))
  {
    var result: nat := 0;
    var shift := 0;
    var k := 0;
    while shift < 64
      invariant k <= 10 && shift == 7 * k && result < TWO_32
      invariant Accumulate(input, 0, 0, false) == Accumulate(input, k, result, false)
      decreases 64 - shift
    {
      if k >= |input| {
        return Failure(EndOfInput);
      }
      var b := input[k];
      result := (result + Shifted(b as int % 128, k)) % TWO_32;
      if b < 128 {
        return Success((Signed32(result), k + 1));
      }
      shift := shift + 7;
      k := k + 1;
    }
    return Failure(TooLarge);
  }

  /** The value that the bytes stand for: the sum of the groups, least significant first. */
  function GroupsValue(bytes: seq<uint8>): nat
  {
    if |bytes| == 0 then 0 else bytes[0] as int % 128 + 128 * GroupsValue(bytes[1..])
  }

  /** Groups read back as the value they were made from. */
  lemma {:induction false} GroupsValueGroups(u: nat)
    ensures GroupsValue(Groups(u)) == u
    decreases u
  {
    if u >= 128 {
      GroupsValueGroups(u / 128);
      assert Groups(u)[1..] == Groups(u / 128);
    }
  }

  /** Reducing the accumulator before adding the next group does not change the result. */
  lemma ModAddMod(a: int, c: int, wide: bool)
    ensures (a % Width(wide) + c) % Width(wide) == (a + c) % Width(wide)
  {
  }

  /**
   * The loop reads the groups of `u`, placed at the loop's `k`-th byte,
   * into the accumulator at shift 7k and stops after the last of them,
   * whatever follows.
   */
  lemma {:induction false} AccumulateGroups(input: seq<uint8>, k: nat, acc: nat, wide: bool, u: nat)
    requires k + |Groups(u)| <= 10 && k + |Groups(u)| <= |input|
    requires input[k..k + |Groups(u)|] == Groups(u)
    ensures Accumulate(input, k, acc, wide) == Success(((acc + Shifted(u, k)) % Width(wide), k + |Groups(u)|))
    decreases u
  {
    if u >= 128 {
      GroupsTail(input, k, u);
      AccumulateGroups(input, k + 1, (acc + Shifted(u % 128, k)) % Width(wide), wide, u / 128);
      AccumulateFirst(input, k, acc, wide, u);
    } else {
      assert input[k] == Groups(u)[0];
      AccumulateLast(input, k, acc, wide, u);
    }
  }

  /** Groups of a value of two or more groups, found in the input: the first byte, then the rest. */
  lemma GroupsTail(input: seq<uint8>, k: nat, u: nat)
    requires u >= 128 && k + |Groups(u)| <= |input|
    requires input[k..k + |Groups(u)|] == Groups(u)
    ensures |Groups(u)| == 1 + |Groups(u / 128)|
    ensures input[k] as int == u % 128 + 128
    ensures input[k + 1..k + 1 + |Groups(u / 128)|] == Groups(u / 128)
  {
    var g := Groups(u);
    assert input[k] == g[0];
    assert input[k + 1..k + 1 + |Groups(u / 128)|] == g[1..];
  }

  /** The step of `AccumulateGroups`: the first group, then the rest as the induction gives it. */
  lemma AccumulateFirst(input: seq<uint8>, k: nat, acc: nat, wide: bool, u: nat)
    requires u >= 128 && k + 1 + |Groups(u / 128)| <= 10 && k < |input|
    requires input[k] as int == u % 128 + 128
    requires var next := (acc + Shifted(u % 128, k)) % Width(wide);
      Accumulate(input, k + 1, next, wide)
      == Success(((next + Shifted(u / 128, k + 1)) % Width(wide), k + 1 + |Groups(u / 128)|))
    ensures Accumulate(input, k, acc, wide)
      == Success(((acc + Shifted(u, k)) % Width(wide), k + 1 + |Groups(u / 128)|))
  {
    assert input[k] as int % 128 == u % 128;
    AccumulateStep(input, k, acc, wide);
    AccumulateCombine(acc, u, u % 128, k, wide);
  }

  /** One byte with 0x80 set: the loop adds its group and goes on. */
  lemma AccumulateStep(input: seq<uint8>, k: nat, acc: nat, wide: bool)
    requires k < 10 && k < |input| && input[k] >= 128
    ensures Accumulate(input, k, acc, wide)
      == Accumulate(input, k + 1, (acc + Shifted(input[k] as int % 128, k)) % Width(wide), wide)
  {
  }

  /** The last group: the loop adds it and stops. */
  lemma AccumulateLast(input: seq<uint8>, k: nat, acc: nat, wide: bool, u: nat)
    requires u < 128 && k < 10 && k < |input| && input[k] as int == u
    ensures Accumulate(input, k, acc, wide) == Success(((acc + Shifted(u, k)) % Width(wide), k + 1))
  {
    assert input[k] as int % 128 == u;
  }

  /** Adding the low group, reducing, then adding the rest one shift higher adds the whole value. */
  lemma AccumulateCombine(acc: nat, u: nat, d: nat, k: nat, wide: bool)
    requires d == u % 128
    ensures ((acc + Shifted(d, k)) % Width(wide) + Shifted(u / 128, k + 1)) % Width(wide)
      == (acc + Shifted(u, k)) % Width(wide)
  {
    ShiftedOnce(u / 128, k);
    ShiftedAdd(d, 128 * (u / 128), k);
    ModAddMod(acc + Shifted(d, k), Shifted(u / 128, k + 1), wide);
  }

  /** Ten bytes with 0x80 set make the loop give up. */
  lemma {:induction false} AccumulateTooLarge(input: seq<uint8>, k: nat, acc: nat, wide: bool)
    requires k <= 10 && |input| >= 10
    requires forall i :: k <= i < 10 ==> input[i] >= 128
    ensures Accumulate(input, k, acc, wide) == Failure(TooLarge)
    decreases 10 - k
  {
    if k < 10 {
      AccumulateTooLarge(input, k + 1, (acc + Shifted(input[k] as int % 128, k)) % Width(wide), wide);
    }
  }

  // ---------------------------------------------------------------------
  // Reading and writing ints and longs.
  // ---------------------------------------------------------------------

  /** `readInt`: the accumulator cast to `int`, ZigZag-decoded; with the bytes read. */
  function ReadIntSpec(input: seq<uint8>): (r: Result<(int, nat), DecodeError>)
    ensures r.Success? ==> IsInt32(r.value.0)
  {
    match Accumulate(input, 0, 0, false)
    case Failure(e) => Failure(e)
    case Success((acc, read)) => Success((UnZigZag(acc), read))
  }

  /**
   * `readLong` as written: the `long` that `decodeUnsigned` returns is
   * the sign-extended `int` accumulator, ZigZag-decoded as a long.
   */
  function ReadLongAsWritten(input: seq<uint8>): (r: Result<(int, nat), DecodeError>)
    ensures r.Success? ==> IsInt64(r.value.0)
  {
    match Accumulate(input, 0, 0, false)
    case Failure(e) => Failure(e)
    case Success((acc, read)) =>
      var bits := Unsigned64(Signed32(acc));
      UnZigZagRange(bits);
      Success((UnZigZag(bits), read))
  }

  /** `readLong` with a `long` accumulator in `decodeUnsigned`. */
  function ReadLongCorrected(input: seq<uint8>): (r: Result<(int, nat), DecodeError>)
    ensures r.Success? ==> IsInt64(r.value.0)
  {
    match Accumulate(input, 0, 0, true)
    case Failure(e) => Failure(e)
    case Success((acc, read)) =>
      UnZigZagRange(acc);
      Success((UnZigZag(acc), read))
  }

  /** `readInt`. */
  method ReadInt(input: seq<uint8>) returns (r: Result<(int, nat), DecodeError>)
    ensures r == ReadIntSpec(input)
  {
    var d := DecodeUnsigned(input);
    if d.Failure? {
      return Failure(d.error);
    }
    var n := d.value.0;
    var bits := if n < 0 then n + TWO_32 else n;
    return Success((UnZigZag(bits), d.value.1));
  }

  /** `readLong` as written. */
  method ReadLong(input: seq<uint8>) returns (r: Result<(int, nat), DecodeError>)
    ensures r == ReadLongAsWritten(input)
  {
    var d := DecodeUnsigned(input);
    if d.Failure? {
      return Failure(d.error);
    }
    return Success((UnZigZag(Unsigned64(d.value.0)), d.value.1));
  }

  /** `readUnsignedInt`: the accumulator cast to `int`; with the bytes read. */
  method ReadUnsignedInt(input: seq<uint8>) returns (r: Result<(int, nat), DecodeError>)
    ensures var a := Accumulate(input, 0, 0, false);
      r == (if a.Success? then Success((Signed32(a.value.0), a.value.1)) else Failure(a.error))
  {
    r := DecodeUnsigned(input);
  }

  /** `writeInt`: the ZigZag value of `integer`, widened to a long and encoded. */
  method WriteInt(integer: int) returns (output: seq<uint8>)
    requires IsInt32(integer)
    ensures output == Groups(ZigZag(integer)) && |output| <= 5
  {
    output := EncodeUnsigned(ZigZag(integer));
    Pow128Bounds();
    GroupsLength(ZigZag(integer), 5);
  }

  /**
   * `writeLong`: `(n << 1) ^ (n >> 63)` in `long` arithmetic, whose bit
   * pattern is the ZigZag value, encoded.
   */
  method WriteLong(longInteger: int) returns (output: seq<uint8>)
    requires IsInt64(longInteger)
    ensures output == Groups(ZigZag(longInteger)) && |output| <= 10
  {
    var zigZag := Signed64(ZigZag(longInteger));
    output := EncodeUnsigned(zigZag);
    Pow128Bounds();
    GroupsLength(ZigZag(longInteger), 10);
  }

  /** `writeUnsignedInt`: the long's bit pattern, encoded. */
  method WriteUnsignedInt(integer: int) returns (output: seq<uint8>)
    requires IsInt64(integer)
    ensures output == Groups(Unsigned64(integer))
  {
    output := EncodeUnsigned(integer);
  }

  /** A value that fits the accumulator takes at most five groups, or ten when `wide`. */
  lemma GroupsFit(u: nat, wide: bool)
    requires u < Width(wide)
    ensures |Groups(u)| <= (if wide then 10 else 5)
  {
    Pow128Bounds();
    if wide {
      GroupsLength(u, 10);
    } else {
      GroupsLength(u, 5);
    }
  }

  lemma PrefixOf(front: seq<uint8>, rest: seq<uint8>)
    ensures |front| <= |front + rest| && (front + rest)[0..|front|] == front
  {
  }

  /**
   * The groups of a value that fits the accumulator, followed by anything,
   * read back from the start as that value, consuming exactly the groups.
   */
  lemma ReadBack(u: nat, rest: seq<uint8>, wide: bool)
    requires u < Width(wide)
    ensures Accumulate(Groups(u) + rest, 0, 0, wide) == Success((u, |Groups(u)|))
  {
    GroupsFit(u, wide);
    PrefixOf(Groups(u), rest);
    AccumulateGroups(Groups(u) + rest, 0, 0, wide, u);
    Unshifted(u, wide);
  }

  /** A value that fits the accumulator, added at shift 0 to an empty one, is kept as it is. */
  lemma Unshifted(u: nat, wide: bool)
    requires u < Width(wide)
    ensures (0 + Shifted(u, 0)) % Width(wide) == u
  {
    if wide {
      assert u % TWO_64 == u;
    } else {
      assert u % TWO_32 == u;
    }
  }

  /** Every int reads back as itself, and exactly its bytes are consumed. */
  lemma ReadIntWriteInt(n: int, rest: seq<uint8>)
    requires IsInt32(n)
    ensures ReadIntSpec(Groups(ZigZag(n)) + rest) == Success((n, |Groups(ZigZag(n))|))
  {
    ReadBack(ZigZag(n), rest, false);
    UnZigZagZigZag(n);
  }

  /** A non-negative int written unsigned reads back as itself. */
  lemma ReadUnsignedWriteUnsigned(n: int, rest: seq<uint8>)
    requires 0 <= n <= INT_MAX
    ensures Accumulate(Groups(n) + rest, 0, 0, false) == Success((n, |Groups(n)|))
  {
    ReadBack(n, rest, false);
  }

  /** As written, a long reads back as itself while its ZigZag value fits in 31 bits. */
  lemma ReadLongWriteLongSmall(n: int, rest: seq<uint8>)
    requires -0x4000_0000 <= n < 0x4000_0000
    ensures ReadLongAsWritten(Groups(ZigZag(n)) + rest) == Success((n, |Groups(ZigZag(n))|))
  {
    ReadBack(ZigZag(n), rest, false);
    UnZigZagZigZag(n);
  }

  /**
   * As written, 2^30 does not survive: its ZigZag value 2^31 sets bit 31
   * of the `int` accumulator, which is sign-extended on return.
   */
  lemma ReadLongLosesHighBits()
    ensures ReadLongAsWritten(Groups(ZigZag(0x4000_0000))) == Success((0x7FFF_FFFF_C000_0000, 5))
  {
    var u := ZigZag(0x4000_0000);
    assert u == 0x8000_0000;
    ReadBack(u, [], false);
    assert Groups(u) + [] == Groups(u);
    GroupsOfBit31();
    SignExtendedBit31();
  }

  /** 2^31 takes five groups. */
  lemma GroupsOfBit31()
    ensures |Groups(0x8000_0000)| == 5
  {
    assert Groups(0x8000_0000 / 0x1000_0000) == [8];
  }

  /** 2^31 read into an `int`, widened to a `long` and ZigZag-decoded. */
  lemma SignExtendedBit31()
    ensures UnZigZag(Unsigned64(Signed32(0x8000_0000))) == 0x7FFF_FFFF_C000_0000
  {
    assert Signed32(0x8000_0000) == -0x8000_0000;
    assert Unsigned64(-0x8000_0000) == 0xFFFF_FFFF_8000_0000;
  }

  /** With a `long` accumulator every long reads back as itself. */
  lemma ReadLongCorrectedWriteLong(n: int, rest: seq<uint8>)
    requires IsInt64(n)
    ensures ReadLongCorrected(Groups(ZigZag(n)) + rest) == Success((n, |Groups(ZigZag(n))|))
  {
    ReadBack(ZigZag(n), rest, true);
    UnZigZagZigZag(n);
  }
}
