/** Generated frames (apps/viewer-expo/generated/frame-codecs.ts): length-prefixed
    strings, and the addNumbers codec in its copying and its in-place form. */
module FrameCodecs {
  import opened Wrappers
  import opened Varints
  import opened Utf8

  // ----------------------------------------------------------------- strings

  function StringBytes(s: seq<unit>): seq<byte> {
    Varint(|Encoded(s)|) + Encoded(s)
  }

  method EncodeString(s: seq<unit>) returns (bytes: seq<byte>)
    ensures bytes == StringBytes(s)
  {
    var body := Encode(s);
    var length := EncodeVarint(|body|);
    bytes := length.value + body;
  }

  /** The string a length and the bytes behind it stand for. */
  function StringOf(buf: seq<byte>, offset: nat, length: Decoded<int>): Result<Decoded<seq<unit>>, Error>
    requires length.value >= 0
  {
    var start := offset + length.bytesRead;
    var end := start + length.value;
    if end > |buf| then Err(OutOfBounds)
    else Ok(Decoded(DecodedFrom(buf, start, end), length.bytesRead + length.value))
  }

  function DecodedString(buf: seq<byte>, offset: nat): Result<Decoded<seq<unit>>, Error> {
    match DecodeFrom(buf, offset, 0, 0)
    case Err(e) => Err(e)
    case Ok(length) => StringOf(buf, offset, length)
  }

  method DecodeString(buf: seq<byte>, offset: nat) returns (r: Result<Decoded<seq<unit>>, Error>)
    ensures r == DecodedString(buf, offset)
  {
    var length := DecodeVarint(buf, offset);
    if length.Err? {
      return Err(length.error);
    }
    var start := offset + length.value.bytesRead;
    var end := start + length.value.value;
    var units := Decode(buf, start, end);
    if units.Err? {
      return Err(units.error);
    }
    r := Ok(Decoded(units.value, length.value.bytesRead + length.value.value));
  }

  lemma HoldsBoth(buf: seq<byte>, at: nat, first: seq<byte>, second: seq<byte>)
    requires HoldsAt(buf, at, first + second)
    ensures HoldsAt(buf, at, first) && HoldsAt(buf, at + |first|, second)
  {
    var slice := buf[at..at + |first| + |second|];
    assert buf[at..at + |first|] == slice[..|first|];
    assert buf[at + |first|..at + |first| + |second|] == slice[|first|..];
  }

  lemma LengthReads(buf: seq<byte>, offset: nat, n: int)
    requires 0 <= n <= MAX_SAFE_INTEGER && HoldsAt(buf, offset, Varint(n))
    ensures DecodeFrom(buf, offset, 0, 0) == Ok(Decoded(n, |Varint(n)|))
  {
    PowersOf128();
    VarintLength(n, 8);
    DecodeReadsVarint(buf, offset, 0, 0, n);
  }

  lemma StringSplits(buf: seq<byte>, offset: nat, s: seq<unit>) returns (length: Decoded<int>)
    requires HoldsAt(buf, offset, StringBytes(s)) && |Encoded(s)| <= MAX_SAFE_INTEGER
    ensures length == Decoded(|Encoded(s)|, |Varint(|Encoded(s)|)|)
    ensures DecodeFrom(buf, offset, 0, 0) == Ok(length)
    ensures HoldsAt(buf, offset + length.bytesRead, Encoded(s))
  {
    var body := Encoded(s);
    HoldsBoth(buf, offset, Varint(|body|), body);
    LengthReads(buf, offset, |body|);
    length := Decoded(|body|, |Varint(|body|)|);
  }

  /** The units behind the length. */
  lemma BodyReads(buf: seq<byte>, offset: nat, length: Decoded<int>, s: seq<unit>) returns (out: seq<unit>)
    requires length.value == |Encoded(s)| && HoldsAt(buf, offset + length.bytesRead, Encoded(s))
    ensures StringOf(buf, offset, length) == Ok(Decoded(out, length.bytesRead + length.value))
    ensures out == s <==> Paired(s)
  {
    var start := offset + length.bytesRead;
    var end := start + length.value;
    out := DecodedFrom(buf, start, end);
    Utf8RoundTripIff(buf, start, end, s);
  }

  lemma StringReads(buf: seq<byte>, offset: nat, s: seq<unit>) returns (out: seq<unit>)
    requires HoldsAt(buf, offset, StringBytes(s)) && |Encoded(s)| <= MAX_SAFE_INTEGER
    ensures DecodedString(buf, offset) == Ok(Decoded(out, |StringBytes(s)|))
    ensures out == s <==> Paired(s)
  {
    var length := StringSplits(buf, offset, s);
    out := BodyReads(buf, offset, length, s);
    assert DecodedString(buf, offset) == StringOf(buf, offset, length);
  }

  /** An encoded string, wherever a buffer holds it, decodes to itself with its exact
      length if and only if its high surrogates are paired. */
  lemma StringRoundTripIff(buf: seq<byte>, offset: nat, s: seq<unit>)
    requires HoldsAt(buf, offset, StringBytes(s)) && |Encoded(s)| <= MAX_SAFE_INTEGER
    ensures DecodedString(buf, offset) == Ok(Decoded(s, |StringBytes(s)|)) <==> Paired(s)
  {
    var _ := StringReads(buf, offset, s);
  }

  // -------------------------------------------------------------- addNumbers

  /** The command id, little-endian, and the two operands. */
  function FrameBytes(a: int, b: int): seq<byte> {
    [1, 0] + Varint(Zigzag(a)) + Varint(Zigzag(b))
  }

  predicate InRange(n: int) {
    I64_MIN <= n <= I64_MAX
  }

  method EncodeFrame(a: int, b: int) returns (r: Result<seq<byte>, Error>)
    ensures r == if InRange(a) && InRange(b) then Ok(FrameBytes(a, b)) else Err(OutOfRange)
  {
    if !InRange(a) {
      return Err(OutOfRange);
    }
    var first := EncodeVarint64(Big(Zigzag(a)));
    if !InRange(b) {
      return Err(OutOfRange);
    }
    var second := EncodeVarint64(Big(Zigzag(b)));
    r := Ok([1, 0] + first.value + second.value);
  }

  /** Room for `need` more bytes behind the `w` written ones, growing by doubling. */
  method Ensure(buffer: array<byte>, w: nat, need: nat) returns (out: array<byte>)
    requires w <= buffer.Length
    ensures w + need <= out.Length && out[..w] == buffer[..w]
    ensures out == buffer || fresh(out)
    ensures w + need <= buffer.Length ==> out == buffer
  {
    if w + need <= buffer.Length {
      return buffer;
    }
    var size := if buffer.Length * 2 >= w + need then buffer.Length * 2 else w + need;
    out := new byte[size](i => 0);
    for n := 0 to w
      invariant out[..n] == buffer[..n]
    {
      out[n] := buffer[n];
    }
  }

  /** Writes one operand behind the `w` bytes already there: every byte gets its high bit,
      which the last one loses again. */
  method WriteVarint(buffer: array<byte>, w: nat, x: nat) returns (out: array<byte>, end: nat)
    requires w <= buffer.Length
    modifies buffer
    ensures out == buffer || fresh(out)
    ensures end == w + |Varint(x)| <= out.Length
    ensures out[..end] == old(buffer[..w]) + Varint(x)
  {
    out, end := buffer, w;
    var rest := x;
    ghost var before := buffer[..w];
    var more := true;
    while more
      invariant out == buffer || fresh(out)
      invariant w <= end <= out.Length
      invariant more ==> end + |Varint(rest)| == w + |Varint(x)| && out[..end] + Varint(rest) == before + Varint(x)
      invariant !more ==> end == w + |Varint(x)| && end > w && out[end - 1] >= 128
      invariant !more ==> out[..end - 1] + [out[end - 1] - 128] == before + Varint(x)
      decreases more, rest
    {
      ghost var written, was := out[..end], rest;
      out := Ensure(out, end, 1);
      out[end] := rest % 128 + 128;
      end := end + 1;
      rest := rest / 128;
      more := rest != 0;
      assert out[..end - 1] == written;
      if more {
        assert Varint(was) == [out[end - 1]] + Varint(rest);
        assert out[..end] == written + [out[end - 1]];
        assert written + ([out[end - 1]] + Varint(rest)) == (written + [out[end - 1]]) + Varint(rest);
      } else {
        assert Varint(was) == [out[end - 1] - 128];
      }
    }
    out[end - 1] := out[end - 1] - 128;
    assert out[..end] == out[..end - 1] + [out[end - 1]];
  }

  /** `encodeInto`: whatever buffer is given, empty or too small or none at all, the bytes
      are those of `encode`. */
  method EncodeInto(a: int, b: int, reuse: Option<array<byte>>) returns (r: Result<(array<byte>, nat), Error>)
    modifies if reuse.Some? then {reuse.value} else {}
    ensures r.Ok? <==> InRange(a) && InRange(b)
    ensures r.Ok? ==> r.value.1 <= r.value.0.Length && r.value.0[..r.value.1] == FrameBytes(a, b)
  {
    var out: array<byte>;
    if reuse.Some? {
      out := reuse.value;
    } else {
      out := new byte[64](i => 0);
    }
    out := Ensure(out, 0, 2);
    out[0], out[1] := 1, 0;
    assert out[..2] == [1, 0];
    if !InRange(a) {
      return Err(OutOfRange);
    }
    var w: nat;
    out, w := WriteVarint(out, 2, Zigzag(a));
    if !InRange(b) {
      return Err(OutOfRange);
    }
    out, w := WriteVarint(out, w, Zigzag(b));
    r := Ok((out, w));
  }

  /** A receiver of the frame reads both operands back, and nothing is left over. */
  lemma FrameRoundTrip(a: int, b: int)
    requires InRange(a) && InRange(b)
    ensures var f := FrameBytes(a, b);
            && DecodeZigzag64(f, 2) == Ok(Decoded(Canonical(a), |Varint(Zigzag(a))|))
            && DecodeZigzag64(f, 2 + |Varint(Zigzag(a))|) == Ok(Decoded(Canonical(b), |Varint(Zigzag(b))|))
            && |f| == 2 + |Varint(Zigzag(a))| + |Varint(Zigzag(b))|
  {
    var first, second := Varint(Zigzag(a)), Varint(Zigzag(b));
    ZigzagRoundTrip([1, 0], Big(a), second);
    ZigzagRoundTrip([1, 0] + first, Big(b), []);
    assert [1, 0] + first + second + [] == FrameBytes(a, b);
  }
}
