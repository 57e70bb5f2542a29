/** Integers in generated frames (apps/viewer-expo/generated/frame-codecs.ts): base-128
    varints over JavaScript numbers and bigints, and the zigzag map. Bit operations on
    non-negative integers are written as arithmetic. */
module Varints {
  import opened Wrappers

  type byte = x: int | 0 <= x < 256

  const MAX_SAFE_INTEGER := 0x1F_FFFF_FFFF_FFFF
  const U64_MAX := 0xFFFF_FFFF_FFFF_FFFF
  const I64_MIN := -0x8000_0000_0000_0000
  const I64_MAX := 0x7FFF_FFFF_FFFF_FFFF

  /** A JavaScript integer is a number or a bigint. */
  datatype Numeric = Number(n: int) | Big(n: int)

  datatype Error = Negative | OutOfRange | OutOfBounds | TooLong

  datatype Decoded<T> = Decoded(value: T, bytesRead: nat)

  /** Numbers carry exactly the safe integers; everything else is a bigint. */
  function Canonical(n: int): Numeric {
    if -MAX_SAFE_INTEGER <= n <= MAX_SAFE_INTEGER then Number(n) else Big(n)
  }

  /** The wire form: seven bits a byte, low bits first, high bit set on all but the last. */
  function Varint(n: nat): (bytes: seq<byte>)
    ensures |bytes| >= 1
  {
    if n < 128 then [n] else [n % 128 + 128] + Varint(n / 128)
  }

  function Pow128(k: nat): nat {
    if k == 0 then 1 else 128 * Pow128(k - 1)
  }

  /** `x` times 128 to the power `k`. */
  function Shift(x: nat, k: nat): nat {
    if k == 0 then x else 128 * Shift(x, k - 1)
  }

  lemma {:induction false} ShiftIsProduct(x: nat, k: nat)
    ensures Shift(x, k) == x * Pow128(k)
  {
    if k > 0 {
      ShiftIsProduct(x, k - 1);
      var p := Pow128(k - 1);
      assert 128 * (x * p) == x * (128 * p);
    }
  }

  /** What a byte adds as the k-th digit. */
  function Digit(b: byte, k: nat): nat {
    Shift(b % 128, k)
  }

  // ----------------------------------------------------------- the encoders

  method EncodeVarint(n: int) returns (r: Result<seq<byte>, Error>)
    ensures n < 0 ==> r == Err(Negative)
    ensures n >= 0 ==> r == Ok(Varint(n))
  {
    if n < 0 {
      return Err(Negative);
    }
    if n == 0 {
      return Ok([0]);
    }
    var bytes: seq<byte> := [];
    var rest: nat := n;
    while rest > 0
      invariant rest > 0 ==> bytes + Varint(rest) == Varint(n)
      invariant rest == 0 ==> bytes == Varint(n)
    {
      var was := rest;
      rest := rest / 128;
      var b: byte := if rest > 0 then was % 128 + 128 else was % 128;
      assert was < 128 <==> rest == 0;
      assert bytes + ([b] + Varint(rest)) == (bytes + [b]) + Varint(rest);
      bytes := bytes + [b];
    }
    r := Ok(bytes);
  }

  method EncodeVarint64(v: Numeric) returns (r: Result<seq<byte>, Error>)
    ensures r == if v.n < 0 then Err(Negative)
                 else if v.n > U64_MAX && !(v.Number? && v.n <= MAX_SAFE_INTEGER) then Err(OutOfRange)
                 else Ok(Varint(v.n))
  {
    if v.Number? && 0 <= v.n <= MAX_SAFE_INTEGER {
      r := EncodeVarint(v.n);
      return;
    }
    if v.n < 0 {
      return Err(Negative);
    }
    if v.n > U64_MAX {
      return Err(OutOfRange);
    }
    var bytes: seq<byte> := [];
    var rest: nat := v.n;
    var more := true;
    while more
      invariant more ==> bytes + Varint(rest) == Varint(v.n)
      invariant !more ==> bytes == Varint(v.n)
      decreases more, rest
    {
      var was := rest;
      rest := rest / 128;
      var next: byte := if rest != 0 then was % 128 + 128 else was % 128;
      assert was < 128 <==> rest == 0;
      assert bytes + ([next] + Varint(rest)) == (bytes + [next]) + Varint(rest);
      bytes := bytes + [next];
      more := rest != 0;
    }
    r := Ok(bytes);
  }

  // ----------------------------------------------------------- the decoders

  /** The number decoder after `k` bytes with the value so far. */
  function DecodeFrom(buf: seq<byte>, offset: nat, k: nat, value: nat): (r: Result<Decoded<int>, Error>)
    requires k <= 10
    ensures r.Ok? ==> r.value.value >= value && k < r.value.bytesRead <= 11
    decreases |buf| + 10 - k
  {
    if offset + k >= |buf| then Err(OutOfBounds)
    else
      var b := buf[offset + k];
      var sum := value + Digit(b, k);
      if b < 128 then Ok(Decoded(sum, k + 1))
      else if k + 1 > 10 then Err(TooLong)
      else DecodeFrom(buf, offset, k + 1, sum)
  }

  /** Adds a byte as the next digit. */
  method AddDigit(value: nat, b: byte, multiplier: nat, ghost k: nat) returns (sum: nat)
    requires multiplier == Pow128(k)
    ensures sum == value + Digit(b, k)
  {
    ShiftIsProduct(b % 128, k);
    sum := value + b % 128 * multiplier;
  }

  method DecodeVarint(buf: seq<byte>, offset: nat) returns (r: Result<Decoded<int>, Error>)
    ensures r == DecodeFrom(buf, offset, 0, 0)
  {
    var value: nat, multiplier: nat, bytesRead: nat := 0, 1, 0;
    while true
      invariant bytesRead <= 10 && multiplier == Pow128(bytesRead)
      invariant DecodeFrom(buf, offset, 0, 0) == DecodeFrom(buf, offset, bytesRead, value)
      decreases 10 - bytesRead
    {
      if offset + bytesRead >= |buf| {
        return Err(OutOfBounds);
      }
      var b := buf[offset + bytesRead];
      value := AddDigit(value, b, multiplier, bytesRead);
      bytesRead := bytesRead + 1;
      if b < 128 {
        return Ok(Decoded(value, bytesRead));
      }
      multiplier := multiplier * 128;
      if bytesRead > 10 {
        return Err(TooLong);
      }
    }
  }

  /** The u64 decoder after `k` bytes: numbers up to seven bytes, bigints beyond. */
  function Decode64From(buf: seq<byte>, offset: nat, k: nat, value: nat): Result<Decoded<Numeric>, Error>
    requires k < 10
    decreases |buf| + 10 - k
  {
    if offset + k >= |buf| then Err(OutOfBounds)
    else
      var b := buf[offset + k];
      var sum := value + Digit(b, k);
      if b < 128 then
        if k + 1 <= 7 then Ok(Decoded(Number(sum), k + 1))
        else if k + 1 == 10 && b > 1 then Err(OutOfRange)
        else Ok(Decoded(Canonical(sum), k + 1))
      else if k + 1 >= 10 then Err(TooLong)
      else Decode64From(buf, offset, k + 1, sum)
  }

  method DecodeVarint64(buf: seq<byte>, offset: nat) returns (r: Result<Decoded<Numeric>, Error>)
    ensures r == Decode64From(buf, offset, 0, 0)
  {
    var num: nat, multiplier: nat, big: nat, bytesRead: nat := 0, 1, 0, 0;
    while true
      invariant bytesRead < 10 && (bytesRead <= 7 ==> multiplier == Pow128(bytesRead))
      invariant Decode64From(buf, offset, 0, 0)
             == Decode64From(buf, offset, bytesRead, if bytesRead <= 7 then num else big)
      decreases 10 - bytesRead
    {
      if offset + bytesRead >= |buf| {
        return Err(OutOfBounds);
      }
      var b := buf[offset + bytesRead];
      bytesRead := bytesRead + 1;
      if bytesRead <= 7 {
        num := AddDigit(num, b, multiplier, bytesRead - 1);
        multiplier := multiplier * 128;
        if b < 128 {
          return Ok(Decoded(Number(num), bytesRead));
        }
      } else {
        if bytesRead == 8 {
          big := num;
        }
        // The bits being added lie above the bits present, so `|` is `+`.
        big := big + Digit(b, bytesRead - 1);
        if b < 128 {
          if bytesRead == 10 && b > 1 {
            return Err(OutOfRange);
          }
          return Ok(Decoded(Canonical(big), bytesRead));
        }
      }
      if bytesRead >= 10 {
        return Err(TooLong);
      }
    }
  }

  // ------------------------------------------------------------- round trips

  lemma {:induction false} VarintLength(n: nat, digits: nat)
    requires n < Pow128(digits) && digits >= 1
    ensures |Varint(n)| <= digits
  {
    if n >= 128 {
      assert n / 128 < Pow128(digits - 1);
      VarintLength(n / 128, digits - 1);
    }
  }

  /** `buf` holds the bytes of `wire` at `at`. */
  predicate HoldsAt(buf: seq<byte>, at: nat, wire: seq<byte>) {
    at + |wire| <= |buf| && buf[at..at + |wire|] == wire
  }

  lemma HoldsTail(buf: seq<byte>, at: nat, first: byte, wire: seq<byte>)
    requires HoldsAt(buf, at, [first] + wire)
    ensures buf[at] == first && HoldsAt(buf, at + 1, wire)
  {
    var slice := buf[at..at + 1 + |wire|];
    assert slice[0] == buf[at];
    assert buf[at + 1..at + 1 + |wire|] == slice[1..];
  }

  lemma {:induction false} DigitSplits(rest: nat, k: nat, b: byte)
    requires b % 128 == rest % 128
    ensures Digit(b, k) + Shift(rest / 128, k + 1) == Shift(rest, k)
  {
    if k > 0 {
      DigitSplits(rest, k - 1, b);
    }
  }

  lemma {:induction false} DecodeReadsVarint(buf: seq<byte>, offset: nat, k: nat, value: nat, rest: nat)
    requires HoldsAt(buf, offset + k, Varint(rest)) && k + |Varint(rest)| <= 11
    ensures DecodeFrom(buf, offset, k, value) == Ok(Decoded(value + Shift(rest, k), k + |Varint(rest)|))
    decreases rest
  {
    if rest < 128 {
      assert buf[offset + k] == Varint(rest)[0];
    } else {
      var b := MoreByte(rest);
      VarintMore(rest);
      HoldsTail(buf, offset + k, b, Varint(rest / 128));
      DigitSplits(rest, k, b);
      DecodeMore(buf, offset, k, value);
      DecodeReadsVarint(buf, offset, k + 1, value + Digit(b, k), rest / 128);
    }
  }

  lemma DecodeMore(buf: seq<byte>, offset: nat, k: nat, value: nat)
    requires k + 1 <= 10 && offset + k < |buf| && buf[offset + k] >= 128
    ensures DecodeFrom(buf, offset, k, value) == DecodeFrom(buf, offset, k + 1, value + Digit(buf[offset + k], k))
  {
  }

  /** Decoding an encoded safe integer at any offset returns it and its exact length. */
  lemma VarintRoundTrip(prefix: seq<byte>, n: int, suffix: seq<byte>)
    requires 0 <= n <= MAX_SAFE_INTEGER
    ensures DecodeFrom(prefix + Varint(n) + suffix, |prefix|, 0, 0) == Ok(Decoded(n, |Varint(n)|))
  {
    PowersOf128();
    VarintLength(n, 8);
    assert HoldsAt(prefix + Varint(n) + suffix, |prefix|, Varint(n));
    DecodeReadsVarint(prefix + Varint(n) + suffix, |prefix|, 0, 0, n);
  }

  lemma PowersOf128()
    ensures Pow128(7) == 0x2_0000_0000_0000
    ensures Pow128(8) == 0x100_0000_0000_0000
    ensures Pow128(9) == 0x8000_0000_0000_0000
    ensures Pow128(10) == 128 * 0x8000_0000_0000_0000
  {
    assert Pow128(2) == 0x4000 && Pow128(4) == 0x1000_0000 && Pow128(6) == 0x400_0000_0000;
  }

  lemma {:induction false} Decode64ReadsVarint(buf: seq<byte>, offset: nat, k: nat, value: nat, rest: nat)
    requires k < 10 && HoldsAt(buf, offset + k, Varint(rest)) && value < Pow128(k)
    requires value + Shift(rest, k) <= U64_MAX && k + |Varint(rest)| <= 10
    ensures Decode64From(buf, offset, k, value)
         == Ok(Decoded(Canonical(value + Shift(rest, k)), k + |Varint(rest)|))
    decreases rest
  {
    if rest < 128 {
      assert buf[offset + k] == Varint(rest)[0];
      Decode64Last(buf, offset, k, value, rest);
    } else {
      var b := MoreByte(rest);
      VarintMore(rest);
      HoldsTail(buf, offset + k, b, Varint(rest / 128));
      DigitSplits(rest, k, b);
      DigitBound(b, k, value);
      Decode64More(buf, offset, k, value);
      Decode64ReadsVarint(buf, offset, k + 1, value + Digit(b, k), rest / 128);
    }
  }

  /** The byte of a varint that has more to come. */
  function MoreByte(rest: nat): (b: byte)
    ensures b >= 128 && b % 128 == rest % 128
  {
    rest % 128 + 128
  }

  lemma VarintMore(rest: nat)
    requires rest >= 128
    ensures Varint(rest) == [MoreByte(rest)] + Varint(rest / 128)
  {
  }

  lemma Decode64More(buf: seq<byte>, offset: nat, k: nat, value: nat)
    requires k + 1 < 10 && offset + k < |buf| && buf[offset + k] >= 128
    ensures Decode64From(buf, offset, k, value)
         == Decode64From(buf, offset, k + 1, value + Digit(buf[offset + k], k))
  {
  }

  lemma Decode64Last(buf: seq<byte>, offset: nat, k: nat, value: nat, b: byte)
    requires k < 10 && b < 128 && offset + k < |buf| && buf[offset + k] == b
    requires value < Pow128(k) && value + Shift(b, k) <= U64_MAX
    ensures Decode64From(buf, offset, k, value) == Ok(Decoded(Canonical(value + Shift(b, k)), k + 1))
  {
    LastDigit(k, value, b);
    assert b % 128 == b;
  }

  lemma {:induction false} ShiftIsMonotone(x: nat, y: nat, k: nat)
    requires x <= y
    ensures Shift(x, k) <= Shift(y, k)
  {
    if k > 0 {
      ShiftIsMonotone(x, y, k - 1);
    }
  }

  lemma {:induction false} DigitBound(b: byte, k: nat, value: nat)
    requires value < Pow128(k)
    ensures value + Digit(b, k) < Pow128(k + 1)
  {
    ShiftIsMonotone(b % 128, 127, k);
    ShiftOf127(k);
  }

  lemma {:induction false} ShiftOf127(k: nat)
    ensures Shift(127, k) + Pow128(k) == Pow128(k + 1)
  {
    if k > 0 {
      ShiftOf127(k - 1);
    }
  }

  lemma {:induction false} PowGrows(k: nat, m: nat)
    requires k <= m
    ensures Pow128(k) <= Pow128(m)
    decreases m
  {
    if k < m {
      PowGrows(k, m - 1);
    }
  }

  /** Seven bytes stay a safe number, and the tenth byte of a u64 is at most one. */
  lemma LastDigit(k: nat, value: nat, rest: byte)
    requires k < 10 && rest < 128 && value < Pow128(k) && value + Shift(rest, k) <= U64_MAX
    ensures k + 1 <= 7 ==> value + Shift(rest, k) <= MAX_SAFE_INTEGER
    ensures k + 1 == 10 ==> rest <= 1
  {
    if k + 1 <= 7 {
      EarlyDigit(k, value, rest);
    }
    if k == 9 {
      TopDigit(rest);
    }
  }

  lemma EarlyDigit(k: nat, value: nat, rest: byte)
    requires k < 7 && rest < 128 && value < Pow128(k)
    ensures value + Shift(rest, k) <= MAX_SAFE_INTEGER
  {
    assert rest % 128 == rest;
    DigitBound(rest, k, value);
    SafePower(k + 1);
  }

  lemma SafePower(k: nat)
    requires k <= 7
    ensures Pow128(k) <= MAX_SAFE_INTEGER + 1
  {
    PowersOf128();
    PowGrows(k, 7);
  }

  lemma TopDigit(rest: nat)
    requires Shift(rest, 9) <= U64_MAX
    ensures rest <= 1
  {
    ShiftIsProduct(2, 9);
    PowersOf128();
    if rest >= 2 {
      ShiftIsMonotone(2, rest, 9);
    }
  }

  /** Every u64 comes back from any offset as its canonical number or bigint, with its
      exact length, across the switch at seven bytes. */
  lemma Varint64RoundTrip(prefix: seq<byte>, n: nat, suffix: seq<byte>)
    requires n <= U64_MAX
    ensures Decode64From(prefix + Varint(n) + suffix, |prefix|, 0, 0) == Ok(Decoded(Canonical(n), |Varint(n)|))
  {
    PowersOf128();
    VarintLength(n, 10);
    assert HoldsAt(prefix + Varint(n) + suffix, |prefix|, Varint(n));
    Decode64ReadsVarint(prefix + Varint(n) + suffix, |prefix|, 0, 0, n);
  }

  // ------------------------------------------------------------------ zigzag

  /** Distance from zero or minus one, whichever a bigint's sign bits repeat. */
  function Magnitude(a: int): nat {
    if a >= 0 then a else -a - 1
  }

  /** Exclusive or of two bigints, which are infinitely long in two's complement. */
  function Xor(a: int, b: int): int
    decreases Magnitude(a) + Magnitude(b)
  {
    if Magnitude(a) == 0 && Magnitude(b) == 0 then (if a == b then 0 else -1)
    else 2 * Xor(a / 2, b / 2) + if a % 2 == b % 2 then 0 else 1
  }

  /** No bit set changes nothing; every bit set complements. */
  lemma {:induction false} XorWithSignBits(a: int)
    ensures Xor(a, 0) == a && Xor(a, -1) == -a - 1
    decreases Magnitude(a)
  {
    if Magnitude(a) > 0 {
      XorWithSignBits(a / 2);
    }
  }

  const TWO_TO_63 := 0x8000_0000_0000_0000

  /** `(n << 1n) ^ (n >> 63n)`. */
  function ShiftedZigzag(n: int): int {
    Xor(2 * n, n / TWO_TO_63)
  }

  /** `(v >> 1n) ^ -(v & 1n)`. */
  function ShiftedUnzigzag(v: nat): int {
    Xor(v / 2, -(v % 2))
  }

  /** The same in arithmetic: the mask is zero, or all ones, which complements. */
  function Zigzag(n: int): nat {
    if n >= 0 then 2 * n else -(2 * n) - 1
  }

  function Unzigzag(v: nat): int {
    if v % 2 == 0 then v / 2 else -(v / 2) - 1
  }

  /** Shifting an i64 right by 63 leaves only its sign. */
  lemma SignOfI64(n: int)
    requires I64_MIN <= n <= I64_MAX
    ensures n / TWO_TO_63 == if n >= 0 then 0 else -1
  {
    var q, r := n / TWO_TO_63, n % TWO_TO_63;
    assert n == TWO_TO_63 * q + r && 0 <= r < TWO_TO_63;
  }

  /** For every i64 and every u64 the shifts and the exclusive or are that arithmetic. */
  lemma ZigzagIsShifted(n: int, v: nat)
    requires I64_MIN <= n <= I64_MAX
    ensures ShiftedZigzag(n) == Zigzag(n) && ShiftedUnzigzag(v) == Unzigzag(v)
  {
    ShiftsOut(n);
    ShiftsBack(v);
  }

  lemma ShiftsOut(n: int)
    requires I64_MIN <= n <= I64_MAX
    ensures ShiftedZigzag(n) == Zigzag(n)
  {
    var sign := n / TWO_TO_63;
    SignOfI64(n);
    XorWithSignBits(2 * n);
    assert ShiftedZigzag(n) == Xor(2 * n, sign);
  }

  lemma ShiftsBack(v: nat)
    ensures ShiftedUnzigzag(v) == Unzigzag(v)
  {
    XorWithSignBits(v / 2);
  }

  function EncodeZigzag64(v: Numeric): Result<seq<byte>, Error> {
    if v.n < I64_MIN || v.n > I64_MAX then Err(OutOfRange) else Ok(Varint(Zigzag(v.n)))
  }

  function DecodeZigzag64(buf: seq<byte>, offset: nat): Result<Decoded<Numeric>, Error> {
    match Decode64From(buf, offset, 0, 0)
    case Err(e) => Err(e)
    case Ok(d) => if d.value.n < 0 then Err(Negative) else Ok(Decoded(Canonical(Unzigzag(d.value.n)), d.bytesRead))
  }

  /** Every i64 comes back from any offset; anything else is refused. */
  lemma ZigzagRoundTrip(prefix: seq<byte>, v: Numeric, suffix: seq<byte>)
    ensures EncodeZigzag64(v).Ok? <==> I64_MIN <= v.n <= I64_MAX
    ensures EncodeZigzag64(v).Ok? ==>
      DecodeZigzag64(prefix + EncodeZigzag64(v).value + suffix, |prefix|)
      == Ok(Decoded(Canonical(v.n), |EncodeZigzag64(v).value|))
  {
    if EncodeZigzag64(v).Ok? {
      Varint64RoundTrip(prefix, Zigzag(v.n), suffix);
    }
  }

  /** The shifts and the exclusive or map the i64 one to one onto the u64. */
  lemma ZigzagIsABijection(n: int, v: nat)
    ensures I64_MIN <= n <= I64_MAX ==> 0 <= ShiftedZigzag(n) <= U64_MAX && ShiftedUnzigzag(ShiftedZigzag(n)) == n
    ensures v <= U64_MAX ==> I64_MIN <= ShiftedUnzigzag(v) <= I64_MAX && ShiftedZigzag(ShiftedUnzigzag(v)) == v
  {
    if I64_MIN <= n <= I64_MAX {
      ZigzagIsShifted(n, Zigzag(n));
    }
    if v <= U64_MAX {
      ZigzagIsShifted(Unzigzag(v), v);
    }
  }
}
