/**
 Bytes on the wire: results of reading, fixed-width big-endian integers, and the
 base 128 variable-length integer used by flexible Kafka messages.
 */
module Wire {

  type byte = x: int | 0 <= x < 256
  type bytes = seq<byte>

  const U32_LIMIT := 0x1_0000_0000
  const I32_LIMIT := 0x8000_0000
  const I16_LIMIT := 0x8000

  /** The failures of the codec. `Panics` stands for an abort of the process. */
  datatype Error =
    | EndOfInput
    | Overflow
    | OutOfRange
    | MaxSizeExceeded
    | WithoutLength
    | InvalidUtf8
    | TooManyTags
    | UnknownMessage
    | Panics

  datatype Option<+T> = None | Some(value: T)

  datatype Result<+T> = Ok(value: T) | Err(error: Error)

  /** The outcome of reading from the front of a byte string. */
  datatype Parsed<+T> = Parsed(value: T, rest: bytes) | Failed(error: Error)

  function Take(b: bytes, n: nat): (p: Parsed<bytes>)
    ensures p.Parsed? ==> |p.value| == n && p.value + p.rest == b
  {
    if |b| < n then Failed(EndOfInput) else Parsed(b[..n], b[n..])
  }

  lemma TakeFront(front: bytes, rest: bytes)
    ensures Take(front + rest, |front|) == Parsed(front, rest)
  {
    assert (front + rest)[..|front|] == front;
    assert (front + rest)[|front|..] == rest;
  }

  // ---- sequences

  lemma Associate<T>(a: seq<T>, b: seq<T>, c: seq<T>)
    ensures a + b + c == a + (b + c)
  {
  }

  /** One more element of a prefix. */
  lemma Grow<T>(s: seq<T>, i: nat)
    requires i < |s|
    ensures s[..i + 1] == s[..i] + [s[i]] && s[..i + 1][..i] == s[..i]
  {
  }

  lemma AllButLast<T>(a: seq<T>, b: seq<T>)
    requires b != []
    ensures (a + b)[..|a + b| - 1] == a + b[..|b| - 1] && (a + b)[|a + b| - 1] == b[|b| - 1]
  {
  }

  // ---- fixed width integers

  function Pow256(width: nat): (p: nat)
    ensures p >= 1
  {
    if width == 0 then 1 else 256 * Pow256(width - 1)
  }

  function PutUnsigned(n: nat, width: nat): (b: bytes)
    ensures |b| == width
  {
    if width == 0 then [] else PutUnsigned(n / 256, width - 1) + [n % 256]
  }

  function GetUnsigned(b: bytes): (n: nat)
    ensures n < Pow256(|b|)
  {
    if b == [] then 0 else GetUnsigned(b[..|b| - 1]) * 256 + b[|b| - 1]
  }

  lemma {:induction false} UnsignedRoundTrip(n: nat, width: nat)
    requires n < Pow256(width)
    ensures GetUnsigned(PutUnsigned(n, width)) == n
  {
    if width > 0 {
      UnsignedRoundTrip(n / 256, width - 1);
      var b := PutUnsigned(n, width);
      assert b[..|b| - 1] == PutUnsigned(n / 256, width - 1);
    }
  }

  /** Fixed-width unsigned integers have one spelling each. */
  lemma {:induction false} UnsignedCanonical(b: bytes)
    ensures PutUnsigned(GetUnsigned(b), |b|) == b
  {
    if b != [] {
      var front, last := b[..|b| - 1], b[|b| - 1];
      UnsignedCanonical(front);
      assert GetUnsigned(b) / 256 == GetUnsigned(front) && GetUnsigned(b) % 256 == last;
      assert b == front + [last];
    }
  }

  /** Does `n` fit a two's complement integer of this many bytes? */
  predicate FitsSigned(n: int, width: nat)
  {
    width > 0 && -128 * Pow256(width - 1) <= n < 128 * Pow256(width - 1)
  }

  function PutSigned(n: int, width: nat): (b: bytes)
    requires FitsSigned(n, width)
    ensures |b| == width
  {
    PutUnsigned(if n < 0 then n + Pow256(width) else n, width)
  }

  function GetSigned(b: bytes): (n: int)
    requires b != []
    ensures FitsSigned(n, |b|)
  {
    var u := GetUnsigned(b);
    if u < 128 * Pow256(|b| - 1) then u else u - Pow256(|b|)
  }

  lemma SignedRoundTrip(n: int, width: nat)
    requires FitsSigned(n, width)
    ensures GetSigned(PutSigned(n, width)) == n
  {
    UnsignedRoundTrip(if n < 0 then n + Pow256(width) else n, width);
  }

  lemma SignedCanonical(b: bytes)
    requires b != []
    ensures PutSigned(GetSigned(b), |b|) == b
  {
    UnsignedCanonical(b);
  }

  /** The powers of 256 the protocol uses, spelled out. */
  lemma Widths()
    ensures Pow256(0) == 1 && Pow256(1) == 256 && Pow256(2) == 0x1_0000
    ensures Pow256(3) == 0x100_0000 && Pow256(4) == U32_LIMIT
  {
    assert Pow256(1) == 256 * Pow256(0);
    assert Pow256(2) == 256 * Pow256(1);
    assert Pow256(3) == 256 * Pow256(2);
    assert Pow256(4) == 256 * Pow256(3);
  }

  // ---- base 128 variable-length integers

  function PutVarint(n: nat): (b: bytes)
    ensures |b| >= 1
  {
    if n < 128 then [n] else [n % 128 + 128] + PutVarint(n / 128)
  }

  /** n shifted left by k groups of seven bits, for the shifts a 32 bit accumulator allows. */
  function Shift(n: nat, k: nat): (m: nat)
    requires k <= 5
    ensures m >= n
  {
    if k == 0 then n else
    if k == 1 then 0x80 * n else
    if k == 2 then 0x4000 * n else
    if k == 3 then 0x20_0000 * n else
    if k == 4 then 0x1000_0000 * n else 0x8_0000_0000 * n
  }

  /**
   Read a varint of which k groups are already in the accumulator. A group beyond the
   fifth cannot be shifted into 32 bits; bits of the fifth beyond the 32nd are lost.
   */
  function GetVarintFrom(b: bytes, k: nat, accumulator: nat): (p: Parsed<nat>)
    requires k <= 5
    requires accumulator < Shift(1, k) && accumulator < U32_LIMIT
    ensures p.Parsed? ==> p.value < U32_LIMIT && |p.rest| < |b|
    decreases b
  {
    if b == [] then Failed(EndOfInput)
    else if k == 5 then Failed(Overflow)
    else
      var shifted := Shift(b[0] % 128, k) % U32_LIMIT;
      ShiftedFits(b[0] % 128, k, accumulator);
      if b[0] >= 128 then GetVarintFrom(b[1..], k + 1, accumulator + shifted)
      else Parsed(accumulator + shifted, b[1..])
  }

  function GetVarint(b: bytes): (p: Parsed<nat>)
    ensures p.Parsed? ==> p.value < U32_LIMIT && |p.rest| < |b|
  {
    GetVarintFrom(b, 0, 0)
  }

  /** Adding a shifted group to the accumulator cannot exceed 32 bits: their bits are disjoint. */
  lemma ShiftedFits(group: nat, k: nat, accumulator: nat)
    requires group < 128 && k < 5
    requires accumulator < Shift(1, k)
    ensures accumulator + Shift(group, k) % U32_LIMIT < U32_LIMIT
    ensures accumulator + Shift(group, k) % U32_LIMIT < Shift(1, k + 1)
    ensures Shift(group, k) % U32_LIMIT == Shift(if k < 4 then group else group % 16, k)
  {
    if k == 4 {
      assert group == group / 16 * 16 + group % 16;
    }
  }

  lemma ShiftSplits(low: nat, high: nat, k: nat)
    requires k < 4
    ensures Shift(low + 128 * high, k) == Shift(low, k) + Shift(high, k + 1)
  {}

  /** The first byte of a written varint, and what follows it. */
  lemma {:induction false} VarintFront(n: nat, rest: bytes)
    ensures (PutVarint(n) + rest)[0] == if n < 128 then n else n % 128 + 128
    ensures (PutVarint(n) + rest)[1..] == if n < 128 then rest else PutVarint(n / 128) + rest
  {
    if n >= 128 {
      Associate([n % 128 + 128], PutVarint(n / 128), rest);
    }
  }

  /** A value of more than one group leaves room for the groups after the first. */
  lemma GroupsFit(n: nat, k: nat)
    requires n >= 128 && k < 5 && Shift(n, k) < U32_LIMIT
    ensures k < 4 && Shift(n, k) == Shift(n % 128, k) + Shift(n / 128, k + 1)
  {
    assert n == n % 128 + 128 * (n / 128);
    if k < 4 {
      ShiftSplits(n % 128, n / 128, k);
    }
  }

  /** One group is read, and more follow it or not. */
  lemma {:induction false} VarintSteps(b: bytes, k: nat, accumulator: nat, group: nat)
    requires b != [] && k < 5 && accumulator < Shift(1, k) && group == b[0] % 128 && Shift(group, k) < U32_LIMIT
    ensures b[0] < 128 ==> GetVarintFrom(b, k, accumulator) == Parsed(accumulator + Shift(group, k), b[1..])
    ensures accumulator + Shift(group, k) < Shift(1, k + 1) && accumulator + Shift(group, k) < U32_LIMIT
    ensures b[0] >= 128 ==>
      GetVarintFrom(b, k, accumulator) == GetVarintFrom(b[1..], k + 1, accumulator + Shift(group, k))
  {
    ShiftedFits(group, k, accumulator);
  }

  lemma {:induction false} VarintRoundTripFrom(n: nat, k: nat, accumulator: nat, rest: bytes)
    requires k < 5 && accumulator < Shift(1, k)
    requires Shift(n, k) < U32_LIMIT
    ensures GetVarintFrom(PutVarint(n) + rest, k, accumulator) == Parsed(accumulator + Shift(n, k), rest)
    decreases n
  {
    VarintFront(n, rest);
    if n < 128 {
      VarintSteps(PutVarint(n) + rest, k, accumulator, n);
    } else {
      GroupsFit(n, k);
      VarintSteps(PutVarint(n) + rest, k, accumulator, n % 128);
      VarintRoundTripFrom(n / 128, k + 1, accumulator + Shift(n % 128, k), rest);
    }
  }

  /** Reading back a written varint returns it and consumes exactly its bytes. */
  lemma VarintRoundTrip(n: nat, rest: bytes)
    requires n < U32_LIMIT
    ensures GetVarint(PutVarint(n) + rest) == Parsed(n, rest)
  {
    VarintRoundTripFrom(n, 0, 0, rest);
  }

  lemma {:induction false} VarintShortestFrom(b: bytes, k: nat, accumulator: nat) returns (m: nat)
    requires k <= 5 && accumulator < Shift(1, k) && accumulator < U32_LIMIT
    requires GetVarintFrom(b, k, accumulator).Parsed?
    ensures GetVarintFrom(b, k, accumulator).value == accumulator + Shift(m, k)
    ensures |b| - |GetVarintFrom(b, k, accumulator).rest| >= |PutVarint(m)|
    decreases b
  {
    ShiftedFits(b[0] % 128, k, accumulator);
    var low := if k == 4 then b[0] % 128 % 16 else b[0] % 128;
    if b[0] >= 128 {
      var high := VarintShortestFrom(b[1..], k + 1, accumulator + Shift(low, k));
      m := low + 128 * high;
      ShiftSplits(low, high, k);
      assert m % 128 == low && m / 128 == high;
    } else {
      m := low;
    }
  }

  /** No byte string shorter than the written form reads back as n. */
  lemma VarintShortest(b: bytes)
    requires GetVarint(b).Parsed?
    ensures |b| - |GetVarint(b).rest| >= |PutVarint(GetVarint(b).value)|
  {
    var m := VarintShortestFrom(b, 0, 0);
  }

  lemma {:induction false} VarintWithinSixFrom(b: bytes, k: nat, accumulator: nat)
    requires k <= 5 && accumulator < Shift(1, k) && accumulator < U32_LIMIT
    requires |b| >= 6 - k
    ensures GetVarintFrom(b, k, accumulator) != Failed(EndOfInput)
    ensures var p := GetVarintFrom(b, k, accumulator); p.Parsed? ==> |b| - |p.rest| <= 5 - k
    decreases b
  {
    if k < 5 {
      ShiftedFits(b[0] % 128, k, accumulator);
      if b[0] >= 128 {
        VarintWithinSixFrom(b[1..], k + 1, accumulator + Shift(b[0] % 128, k) % U32_LIMIT);
      }
    }
  }

  /** Six bytes decide a varint, whatever they are, and a value takes at most five of them. */
  lemma VarintWithinSix(b: bytes)
    requires |b| >= 6
    ensures GetVarint(b) != Failed(EndOfInput)
    ensures GetVarint(b).Parsed? ==> |b| - |GetVarint(b).rest| <= 5
  {
    VarintWithinSixFrom(b, 0, 0);
  }
}
