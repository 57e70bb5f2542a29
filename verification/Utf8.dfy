/** Strings in generated frames (apps/viewer-expo/generated/frame-codecs.ts): UTF-16 code
    units to UTF-8 bytes and back. Bit operations are written as arithmetic. */
module Utf8 {
  import opened Wrappers
  import opened Varints

  type unit = x: int | 0 <= x < 0x1_0000

  predicate High(u: unit) { 0xD800 <= u <= 0xDBFF }

  predicate Low(u: unit) { 0xDC00 <= u <= 0xDFFF }

  function Two(c: int): seq<byte>
    requires 0x80 <= c < 0x800
  {
    [0xC0 + c / 64, 0x80 + c % 64]
  }

  function Three(c: int): seq<byte>
    requires 0 <= c < 0x1_0000
  {
    [0xE0 + c / 4096, 0x80 + c / 64 % 64, 0x80 + c % 64]
  }

  function Four(cp: int): seq<byte>
    requires 0 <= cp < 0x20_0000
  {
    [0xF0 + cp / 0x4_0000, 0x80 + cp / 4096 % 64, 0x80 + cp / 64 % 64, 0x80 + cp % 64]
  }

  /** The code point of a high unit and the unit after it. Past the end there is none,
      and the arithmetic on NaN ends in zero. */
  function CodePoint(high: unit, next: Option<unit>): (cp: int)
    requires High(high)
    ensures 0 <= cp < 0x20_0000
  {
    if next.None? then 0 else 0x1_0000 + (high - 0xD800) * 1024 + next.value - 0xDC00
  }

  function At(s: seq<unit>, i: nat): Option<unit> {
    if i < |s| then Some(s[i]) else None
  }

  function Rest(s: seq<unit>, i: nat): seq<unit> {
    if i < |s| then s[i..] else []
  }

  /** The bytes written for one unit; a high unit takes the next one with it, whatever
      that is. */
  function Group(c: unit, next: Option<unit>): seq<byte> {
    if c < 0x80 then [c]
    else if c < 0x800 then Two(c)
    else if High(c) then Four(CodePoint(c, next))
    else Three(c)
  }

  function Taken(c: unit): nat {
    if High(c) then 2 else 1
  }

  function Encoded(s: seq<unit>): seq<byte>
    decreases |s|, 1
  {
    if s == [] then [] else EncodedNext(s)
  }

  function EncodedNext(s: seq<unit>): seq<byte>
    requires s != []
    decreases |s|, 0
  {
    Group(s[0], At(s, 1)) + Encoded(Rest(s, Taken(s[0])))
  }

  method EncodeGroup(c: unit, next: Option<unit>) returns (bytes: seq<byte>)
    ensures bytes == Group(c, next)
  {
    if c < 0x80 {
      bytes := [c];
    } else if c < 0x800 {
      bytes := [0xC0 + c / 64, 0x80 + c % 64];
    } else if High(c) {
      var cp := CodePoint(c, next);
      bytes := [0xF0 + cp / 0x4_0000, 0x80 + cp / 4096 % 64, 0x80 + cp / 64 % 64, 0x80 + cp % 64];
    } else {
      bytes := [0xE0 + c / 4096, 0x80 + c / 64 % 64, 0x80 + c % 64];
    }
  }

  method Encode(s: seq<unit>) returns (bytes: seq<byte>)
    ensures bytes == Encoded(s)
  {
    bytes := [];
    var i := 0;
    assert Rest(s, 0) == s;
    while i < |s|
      invariant Encoded(s) == bytes + Encoded(Rest(s, i))
      decreases |s| + 1 - i
    {
      var c := s[i];
      StepEncoded(s, i, bytes);
      var group := EncodeGroup(c, At(s, i + 1));
      bytes := bytes + group;
      if High(c) {
        i := i + 1;
      }
      i := i + 1;
    }
  }

  lemma StepEncoded(s: seq<unit>, i: nat, bytes: seq<byte>)
    requires i < |s|
    ensures bytes + Encoded(Rest(s, i)) == (bytes + Group(s[i], At(s, i + 1))) + Encoded(Rest(s, i + Taken(s[i])))
  {
    var rest, group := Rest(s, i), Group(s[i], At(s, i + 1));
    var tail := Encoded(Rest(s, i + Taken(s[i])));
    assert At(rest, 1) == At(s, i + 1);
    assert Rest(rest, Taken(s[i])) == Rest(s, i + Taken(s[i]));
    assert Encoded(rest) == EncodedNext(rest) == group + tail;
    assert bytes + (group + tail) == (bytes + group) + tail;
  }

  /** A byte that is not there reads as zero bits. */
  function Byte(b: seq<byte>, i: nat): int {
    if i < |b| then b[i] else 0
  }

  function Join2(p: int, q: int): unit {
    p % 32 * 64 + q % 64
  }

  function Join3(p: int, q: int, r: int): unit {
    p % 16 * 4096 + q % 64 * 64 + r % 64
  }

  function Join4(p: int, q: int, r: int, t: int): (cp: int)
    ensures 0 <= cp < 0x20_0000
  {
    p % 8 * 0x4_0000 + q % 64 * 4096 + r % 64 * 64 + t % 64
  }

  /** The units of a four-byte group: nothing checks that the code point needs them. */
  function Pair(cp: int): seq<unit>
    requires 0 <= cp < 0x20_0000
  {
    [0xD800 + (cp - 0x1_0000) / 1024, 0xDC00 + (cp - 0x1_0000) % 1024]
  }

  function Width(lead: byte): nat {
    if lead < 0xC0 then 1 else if lead < 0xE0 then 2 else if lead < 0xF0 then 3 else if lead < 0xF8 then 4 else 1
  }

  /** The units read at `i`; a stray continuation byte gives none. */
  function UnitsAt(b: seq<byte>, i: nat): seq<unit>
    requires i < |b|
  {
    if b[i] < 0x80 then [b[i]]
    else if 0xC0 <= b[i] < 0xE0 then [Join2(b[i], Byte(b, i + 1))]
    else if 0xE0 <= b[i] < 0xF0 then [Join3(b[i], Byte(b, i + 1), Byte(b, i + 2))]
    else if 0xF0 <= b[i] < 0xF8 then Pair(Join4(b[i], Byte(b, i + 1), Byte(b, i + 2), Byte(b, i + 3)))
    else []
  }

  function DecodedFrom(b: seq<byte>, i: nat, end: nat): seq<unit>
    requires end <= |b|
    decreases |b| + end - i, 1
  {
    if i >= end then [] else DecodedNext(b, i, end)
  }

  function DecodedNext(b: seq<byte>, i: nat, end: nat): seq<unit>
    requires i < end <= |b|
    decreases |b| + end - i, 0
  {
    UnitsAt(b, i) + DecodedFrom(b, i + Width(b[i]), end)
  }

  method DecodeGroup(b: seq<byte>, i: nat) returns (units: seq<unit>, width: nat)
    requires i < |b|
    ensures units == UnitsAt(b, i) && width == Width(b[i])
  {
    if b[i] < 0x80 {
      units, width := [b[i]], 1;
    } else if 0xC0 <= b[i] < 0xE0 {
      units, width := [Join2(b[i], Byte(b, i + 1))], 2;
    } else if 0xE0 <= b[i] < 0xF0 {
      units, width := [Join3(b[i], Byte(b, i + 1), Byte(b, i + 2))], 3;
    } else if 0xF0 <= b[i] < 0xF8 {
      units, width := Pair(Join4(b[i], Byte(b, i + 1), Byte(b, i + 2), Byte(b, i + 3))), 4;
    } else {
      units, width := [], 1;
    }
  }

  method Decode(b: seq<byte>, start: nat, end: nat) returns (r: Result<seq<unit>, Error>)
    ensures r == if end > |b| then Err(OutOfBounds) else Ok(DecodedFrom(b, start, end))
  {
    if end > |b| {
      return Err(OutOfBounds);
    }
    var s: seq<unit> := [];
    var i := start;
    while i < end
      invariant DecodedFrom(b, start, end) == s + DecodedFrom(b, i, end)
      decreases end - i
    {
      var units, width := DecodeGroup(b, i);
      StepDecoded(b, i, end, s);
      s := s + units;
      i := i + width;
    }
    assert s + [] == s;
    r := Ok(s);
  }

  lemma StepDecoded(b: seq<byte>, i: nat, end: nat, s: seq<unit>)
    requires i < end <= |b|
    ensures s + DecodedFrom(b, i, end) == (s + UnitsAt(b, i)) + DecodedFrom(b, i + Width(b[i]), end)
  {
    var units, rest := UnitsAt(b, i), DecodedFrom(b, i + Width(b[i]), end);
    assert DecodedFrom(b, i, end) == DecodedNext(b, i, end) == units + rest;
    assert s + (units + rest) == (s + units) + rest;
  }

  // ------------------------------------------------------------- round trips

  lemma TwoReads(c: unit)
    requires 0x80 <= c < 0x800
    ensures Join2(0xC0 + c / 64, 0x80 + c % 64) == c
  {
  }

  lemma ThreeReads(c: unit)
    ensures Join3(0xE0 + c / 4096, 0x80 + c / 64 % 64, 0x80 + c % 64) == c
  {
    var q, low := c / 64, c % 64;
    assert c == 64 * q + low && q == 64 * (q / 64) + q % 64;
    assert q / 64 == c / 4096;
  }

  lemma FourReads(cp: int)
    requires 0 <= cp < 0x20_0000
    ensures Join4(0xF0 + cp / 0x4_0000, 0x80 + cp / 4096 % 64, 0x80 + cp / 64 % 64, 0x80 + cp % 64) == cp
  {
    assert cp / 64 / 64 == cp / 4096 && cp / 4096 / 64 == cp / 0x4_0000;
  }

  /** A surrogate pair comes back from its code point; after any other unit a low
      surrogate stands in its place. */
  lemma PairReads(high: unit, next: unit)
    requires High(high)
    ensures Low(next) <==> Pair(CodePoint(high, Some(next))) == [high, next]
  {
    var h := high - 0xD800;
    var adj := h * 1024 + (next - 0xDC00);
    assert CodePoint(high, Some(next)) - 0x1_0000 == adj;
    if Low(next) {
      assert adj / 1024 == h && adj % 1024 == next - 0xDC00;
    } else {
      assert Low(Pair(CodePoint(high, Some(next)))[1]);
    }
  }

  /** What one encoded group decodes to. */
  function Reread(c: unit, next: Option<unit>): seq<unit> {
    if High(c) then Pair(CodePoint(c, next)) else [c]
  }

  lemma HoldsPart(b: seq<byte>, at: nat, first: seq<byte>, rest: seq<byte>)
    requires HoldsAt(b, at, first + rest)
    ensures forall k :: 0 <= k < |first| ==> b[at + k] == first[k]
    ensures HoldsAt(b, at + |first|, rest)
  {
    var slice := b[at..at + |first| + |rest|];
    assert forall k :: 0 <= k < |first| ==> slice[k] == b[at + k];
    assert b[at + |first|..at + |first| + |rest|] == slice[|first|..];
  }

  lemma TwoReadsAt(b: seq<byte>, at: nat, c: unit)
    requires 0x80 <= c < 0x800 && at + 2 <= |b| && b[at] == Two(c)[0] && b[at + 1] == Two(c)[1]
    ensures Width(b[at]) == 2 && UnitsAt(b, at) == [c]
  {
    TwoReads(c);
  }

  lemma ThreeReadsAt(b: seq<byte>, at: nat, c: unit)
    requires at + 3 <= |b| && b[at] == Three(c)[0] && b[at + 1] == Three(c)[1] && b[at + 2] == Three(c)[2]
    ensures Width(b[at]) == 3 && UnitsAt(b, at) == [c]
  {
    ThreeReads(c);
  }

  lemma FourReadsAt(b: seq<byte>, at: nat, cp: int)
    requires 0 <= cp < 0x20_0000 && at + 4 <= |b|
    requires b[at] == Four(cp)[0] && b[at + 1] == Four(cp)[1] && b[at + 2] == Four(cp)[2] && b[at + 3] == Four(cp)[3]
    ensures Width(b[at]) == 4 && UnitsAt(b, at) == Pair(cp)
  {
    FourReads(cp);
  }

  lemma GroupReads(b: seq<byte>, at: nat, c: unit, next: Option<unit>)
    requires at + |Group(c, next)| <= |b|
    requires forall k :: 0 <= k < |Group(c, next)| ==> b[at + k] == Group(c, next)[k]
    ensures |Group(c, next)| >= 1 && Width(b[at]) == |Group(c, next)|
    ensures UnitsAt(b, at) == Reread(c, next)
  {
    var g := Group(c, next);
    assert b[at + 0] == g[0];
    if c < 0x80 {
    } else if c < 0x800 {
      assert b[at + 1] == g[1];
      TwoReadsAt(b, at, c);
    } else if High(c) {
      assert b[at + 1] == g[1] && b[at + 2] == g[2] && b[at + 3] == g[3];
      FourReadsAt(b, at, CodePoint(c, next));
    } else {
      assert b[at + 1] == g[1] && b[at + 2] == g[2];
      ThreeReadsAt(b, at, c);
    }
  }

  /** What decoding makes of an encoded string. */
  function Rereads(s: seq<unit>): seq<unit>
    decreases |s|
  {
    if s == [] then [] else Reread(s[0], At(s, 1)) + Rereads(Rest(s, Taken(s[0])))
  }

  /** One group is read at `at`, and decoding goes on behind it. */
  predicate ReadsGroup(b: seq<byte>, at: nat, mid: nat, end: nat, out: seq<unit>)
    requires end <= |b|
  {
    DecodedFrom(b, at, end) == out + DecodedFrom(b, mid, end)
  }

  lemma GroupDecodes(b: seq<byte>, at: nat, mid: nat, end: nat, c: unit, next: Option<unit>)
    requires at + |Group(c, next)| == mid <= end <= |b|
    requires forall k :: 0 <= k < |Group(c, next)| ==> b[at + k] == Group(c, next)[k]
    ensures ReadsGroup(b, at, mid, end, Reread(c, next))
  {
    GroupReads(b, at, c, next);
    assert DecodedFrom(b, at, end) == DecodedNext(b, at, end);
  }

  lemma EncodedSplits(s: seq<unit>)
    requires s != []
    ensures Encoded(s) == Group(s[0], At(s, 1)) + Encoded(Rest(s, Taken(s[0])))
    ensures |Encoded(s)| == |Group(s[0], At(s, 1))| + |Encoded(Rest(s, Taken(s[0])))|
  {
    assert Encoded(s) == EncodedNext(s);
  }

  lemma HeadDecodes(b: seq<byte>, at: nat, end: nat, s: seq<unit>) returns (mid: nat)
    requires s != [] && HoldsAt(b, at, Encoded(s)) && end == at + |Encoded(s)|
    ensures at < mid <= end && end == mid + |Encoded(Rest(s, Taken(s[0])))|
    ensures HoldsAt(b, mid, Encoded(Rest(s, Taken(s[0]))))
    ensures ReadsGroup(b, at, mid, end, Reread(s[0], At(s, 1)))
  {
    var next, rest := At(s, 1), Rest(s, Taken(s[0]));
    EncodedSplits(s);
    HoldsPart(b, at, Group(s[0], next), Encoded(rest));
    mid := at + |Group(s[0], next)|;
    GroupDecodes(b, at, mid, end, s[0], next);
    GroupReads(b, at, s[0], next);
  }

  lemma {:induction false} DecodeOfEncoded(b: seq<byte>, at: nat, end: nat, s: seq<unit>)
    requires HoldsAt(b, at, Encoded(s)) && end == at + |Encoded(s)|
    ensures DecodedFrom(b, at, end) == Rereads(s)
    decreases |s|
  {
    if s != [] {
      var mid := HeadDecodes(b, at, end, s);
      DecodeOfEncoded(b, mid, end, Rest(s, Taken(s[0])));
    }
  }

  /** Every high surrogate is followed by a low one. */
  ghost predicate Paired(s: seq<unit>) {
    forall i :: 0 <= i < |s| && High(s[i]) ==> i + 1 < |s| && Low(s[i + 1])
  }

  lemma PairedTail(s: seq<unit>)
    requires s != []
    ensures Paired(s) <==>
      (High(s[0]) ==> |s| > 1 && Low(s[1])) && Paired(Rest(s, Taken(s[0])))
  {
    var t := Taken(s[0]);
    var rest := Rest(s, t);
    assert forall i :: 0 <= i < |rest| ==> rest[i] == s[i + t];
    if Paired(s) {
      assert High(s[0]) ==> |s| > 1 && Low(s[1]);
    } else if (High(s[0]) ==> |s| > 1 && Low(s[1])) && Paired(rest) {
      forall i | 0 <= i < |s| && High(s[i])
        ensures i + 1 < |s| && Low(s[i + 1])
      {
        if i >= t {
          assert rest[i - t] == s[i];
        }
      }
    }
  }

  lemma SplitEqual(a: seq<unit>, b: seq<unit>, c: seq<unit>, d: seq<unit>)
    requires |a| == |c|
    ensures a + b == c + d <==> a == c && b == d
  {
    if a + b == c + d {
      assert (a + b)[..|a|] == (c + d)[..|a|];
      assert (a + b)[|a|..] == (c + d)[|a|..];
    }
  }

  /** What decoding makes of the first group, against the units it was encoded from. */
  lemma HeadRereadsIff(s: seq<unit>)
    requires s != [] && (High(s[0]) ==> |s| > 1)
    ensures var first := Reread(s[0], At(s, 1));
            && |first| == Taken(s[0]) <= |s|
            && (first == s[..Taken(s[0])] <==> (High(s[0]) ==> Low(s[1])))
  {
    if High(s[0]) {
      PairReads(s[0], s[1]);
      assert s[..2] == [s[0], s[1]];
    } else {
      assert s[..1] == [s[0]];
    }
  }

  lemma LoneHighGrows(s: seq<unit>)
    requires |s| == 1 && High(s[0])
    ensures Rereads(s) != s
  {
    assert |Rereads(s)| >= 2;
  }

  lemma {:induction false} RereadsIff(s: seq<unit>)
    ensures Rereads(s) == s <==> Paired(s)
    decreases |s|
  {
    if s != [] {
      var t := Taken(s[0]);
      var first, rest := Reread(s[0], At(s, 1)), Rest(s, t);
      PairedTail(s);
      RereadsIff(rest);
      if High(s[0]) && |s| == 1 {
        LoneHighGrows(s);
      } else {
        HeadRereadsIff(s);
        assert s == s[..t] + rest;
        SplitEqual(first, Rereads(rest), s[..t], rest);
      }
    }
  }

  /** Decoding an encoded string, wherever a buffer holds it, gives the string back if and
      only if every high surrogate is followed by a low one. */
  lemma Utf8RoundTripIff(b: seq<byte>, at: nat, end: nat, s: seq<unit>)
    requires HoldsAt(b, at, Encoded(s)) && end == at + |Encoded(s)|
    ensures DecodedFrom(b, at, end) == s <==> Paired(s)
  {
    DecodeOfEncoded(b, at, end, s);
    RereadsIff(s);
  }

  // ------------------------------------------------------- RFC 3629, section 4

  predicate Tail(b: byte) { 0x80 <= b <= 0xBF }

  /** The length of the well-formed character at the start of `b`, or zero. */
  function CharLength(b: seq<byte>): nat {
    if b == [] then 0
    else if b[0] <= 0x7F then 1
    else if |b| >= 2 && 0xC2 <= b[0] <= 0xDF && Tail(b[1]) then 2
    else if |b| >= 3 && Tail(b[2])
         && ((b[0] == 0xE0 && 0xA0 <= b[1] <= 0xBF) || (0xE1 <= b[0] <= 0xEC && Tail(b[1]))
             || (b[0] == 0xED && 0x80 <= b[1] <= 0x9F) || (0xEE <= b[0] <= 0xEF && Tail(b[1]))) then 3
    else if |b| >= 4 && Tail(b[2]) && Tail(b[3])
         && ((b[0] == 0xF0 && 0x90 <= b[1] <= 0xBF) || (0xF1 <= b[0] <= 0xF3 && Tail(b[1]))
             || (b[0] == 0xF4 && 0x80 <= b[1] <= 0x8F)) then 4
    else 0
  }

  predicate WellFormedUtf8(b: seq<byte>)
    decreases |b|
  {
    b == [] || (0 < CharLength(b) <= |b| && WellFormedUtf8(b[CharLength(b)..]))
  }

  /** No lone surrogate at all. */
  ghost predicate WellFormedUtf16(s: seq<unit>) {
    Paired(s) && forall i :: 0 <= i < |s| && Low(s[i]) ==> i > 0 && High(s[i - 1])
  }

  lemma TwoIsWellFormed(c: unit, rest: seq<byte>)
    requires 0x80 <= c < 0x800
    ensures CharLength(Two(c) + rest) == 2
  {
  }

  lemma ThreeIsWellFormed(c: unit, rest: seq<byte>)
    requires c >= 0x800 && !High(c) && !Low(c)
    ensures CharLength(Three(c) + rest) == 3
  {
    var b := Three(c) + rest;
    assert b[0] == 0xE0 + c / 4096 && b[1] == 0x80 + c / 64 % 64 && b[2] == 0x80 + c % 64;
  }

  lemma FourIsWellFormed(cp: int, rest: seq<byte>)
    requires 0x1_0000 <= cp < 0x11_0000
    ensures CharLength(Four(cp) + rest) == 4
  {
    var b := Four(cp) + rest;
    assert b[0] == 0xF0 + cp / 0x4_0000 && b[1] == 0x80 + cp / 4096 % 64;
    assert b[2] == 0x80 + cp / 64 % 64 && b[3] == 0x80 + cp % 64;
  }

  lemma GroupIsWellFormed(c: unit, next: Option<unit>, rest: seq<byte>)
    requires !Low(c) && (High(c) ==> next.Some? && Low(next.value))
    ensures CharLength(Group(c, next) + rest) == |Group(c, next)|
  {
    if c < 0x80 {
    } else if c < 0x800 {
      TwoIsWellFormed(c, rest);
    } else if High(c) {
      FourIsWellFormed(CodePoint(c, next), rest);
    } else {
      ThreeIsWellFormed(c, rest);
    }
  }

  lemma WellFormedTail(s: seq<unit>)
    requires s != [] && WellFormedUtf16(s)
    ensures !Low(s[0]) && (High(s[0]) ==> |s| > 1 && Low(s[1]))
    ensures WellFormedUtf16(Rest(s, Taken(s[0])))
  {
    var t := Taken(s[0]);
    var rest := Rest(s, t);
    assert forall i :: 0 <= i < |rest| ==> rest[i] == s[i + t];
    PairedTail(s);
    forall i | 0 <= i < |rest| && Low(rest[i])
      ensures i > 0 && High(rest[i - 1])
    {
      assert High(s[i + t - 1]);
    }
  }

  /** Well-formed UTF-16 becomes well-formed UTF-8. */
  lemma {:induction false} EncodedIsWellFormed(s: seq<unit>)
    requires WellFormedUtf16(s)
    ensures WellFormedUtf8(Encoded(s))
    decreases |s|
  {
    if s != [] {
      var group, rest := Group(s[0], At(s, 1)), Rest(s, Taken(s[0]));
      WellFormedTail(s);
      EncodedIsWellFormed(rest);
      EncodedSplits(s);
      GroupIsWellFormed(s[0], At(s, 1), Encoded(rest));
      assert (group + Encoded(rest))[|group|..] == Encoded(rest);
    }
  }
}
