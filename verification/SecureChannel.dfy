/** Sealed frames of the control connection (apps/viewer-expo/src/secure-channel.ts):
    a 64-bit counter in front of an authenticated ciphertext, opened only in strictly
    increasing counter order, and carried as unpadded base64url. */
module SecureChannel {
  import opened Wrappers

  type byte = x: int | 0 <= x < 256

  const COUNTER_LEN := 8
  const TAG_LEN := 16
  const MAX_PLAINTEXT := 16 * 1024 * 1024
  const WRAP := 0x1_0000_0000_0000_0000

  // ------------------------------------------------------ big-endian counters

  function BigEndian(n: nat, length: nat): (s: seq<byte>)
    ensures |s| == length
  {
    if length == 0 then [] else BigEndian(n / 256, length - 1) + [n % 256]
  }

  function FromBigEndian(s: seq<byte>): nat {
    if s == [] then 0 else FromBigEndian(s[..|s| - 1]) * 256 + s[|s| - 1]
  }

  function Pow256(n: nat): nat {
    if n == 0 then 1 else 256 * Pow256(n - 1)
  }

  /** Writing a counter truncates it to the width of the field. */
  lemma {:induction false} BigEndianRoundTrip(n: nat, length: nat)
    requires n < Pow256(length)
    ensures FromBigEndian(BigEndian(n, length)) == n
  {
    if length > 0 {
      var s := BigEndian(n, length);
      assert s[..|s| - 1] == BigEndian(n / 256, length - 1);
      BigEndianRoundTrip(n / 256, length - 1);
    }
  }

  lemma {:induction false} FromBigEndianBound(s: seq<byte>)
    ensures FromBigEndian(s) < Pow256(|s|)
  {
    if s != [] {
      FromBigEndianBound(s[..|s| - 1]);
    }
  }

  lemma {:induction false} BigEndianWraps(n: nat, m: nat, length: nat)
    ensures BigEndian(n + m * Pow256(length), length) == BigEndian(n, length)
  {
    if length > 0 {
      var k := m * Pow256(length - 1);
      assert m * Pow256(length) == 256 * k by {
        assert Pow256(length) == 256 * Pow256(length - 1);
      }
      assert (n + 256 * k) / 256 == n / 256 + k && (n + 256 * k) % 256 == n % 256;
      BigEndianWraps(n / 256, m, length - 1);
    }
  }

  lemma WrapIsEightBytes()
    ensures Pow256(COUNTER_LEN) == WRAP
  {
    assert Pow256(2) == 0x1_0000;
    assert Pow256(4) == 0x1_0000_0000;
    assert Pow256(6) == 0x1_0000_0000_0000;
  }

  function WireCounter(counter: nat): seq<byte> {
    BigEndian(counter, COUNTER_LEN)
  }

  lemma WireCounterReads(counter: nat)
    ensures FromBigEndian(WireCounter(counter)) == counter % WRAP
  {
    WrapIsEightBytes();
    var n, m := counter % WRAP, counter / WRAP;
    BigEndianWraps(n, m, COUNTER_LEN);
    assert counter == n + m * Pow256(COUNTER_LEN);
    BigEndianRoundTrip(n, COUNTER_LEN);
  }

  lemma SmallCounterReads(counter: nat)
    requires counter < WRAP
    ensures FromBigEndian(WireCounter(counter)) == counter
  {
    WrapIsEightBytes();
    BigEndianRoundTrip(counter, COUNTER_LEN);
  }

  // -------------------------------------------------------------- the sealer

  /** The cipher under one direction's key; `encrypt` and `decrypt` take the nonce
      first. */
  datatype Aead = Aead(
    encrypt: (seq<byte>, seq<byte>) -> seq<byte>,
    decrypt: (seq<byte>, seq<byte>) -> Option<seq<byte>>)

  function NonceFor(counter: nat): seq<byte> {
    [0, 0, 0, 0] + BigEndian(counter, COUNTER_LEN)
  }

  function Frame(a: Aead, counter: nat, plaintext: seq<byte>): seq<byte> {
    WireCounter(counter) + a.encrypt(NonceFor(counter), plaintext)
  }

  datatype Refusal = TooLarge | TooShort | Stale | Forged

  /** Opening one frame after `lastSeen`: the new counter and the plaintext. */
  function Opened(a: Aead, lastSeen: nat, frame: seq<byte>): Result<(nat, seq<byte>), Refusal> {
    if |frame| < COUNTER_LEN + TAG_LEN then Err(TooShort)
    else if |frame| > COUNTER_LEN + TAG_LEN + MAX_PLAINTEXT then Err(TooLarge)
    else
      var counter := FromBigEndian(frame[..COUNTER_LEN]);
      if counter == 0 || counter <= lastSeen then Err(Stale)
      else
        match a.decrypt(NonceFor(counter), frame[COUNTER_LEN..])
        case None => Err(Forged)
        case Some(plaintext) => Ok((counter, plaintext))
  }

  class StreamSealer {
    const cipher: Aead
    var next: nat
    var lastSeen: nat

    constructor (cipher: Aead)
      ensures this.cipher == cipher && next == 1 && lastSeen == 0
    {
      this.cipher, next, lastSeen := cipher, 1, 0;
    }

    method Seal(plaintext: seq<byte>) returns (r: Result<seq<byte>, Refusal>)
      modifies this`next
      ensures |plaintext| > MAX_PLAINTEXT ==> r == Err(TooLarge) && next == old(next)
      ensures |plaintext| <= MAX_PLAINTEXT ==>
        r == Ok(Frame(cipher, old(next), plaintext)) && next == old(next) + 1
    {
      if |plaintext| > MAX_PLAINTEXT {
        return Err(TooLarge);
      }
      var counter := next;
      next := next + 1;
      var frame := WireCounter(counter);
      frame := frame + cipher.encrypt(NonceFor(counter), plaintext);
      r := Ok(frame);
    }

    method Open(frame: seq<byte>) returns (r: Result<seq<byte>, Refusal>)
      modifies this`lastSeen
      ensures match Opened(cipher, old(lastSeen), frame)
              case Ok(pair) => r == Ok(pair.1) && lastSeen == pair.0
              case Err(e) => r == Err(e) && lastSeen == old(lastSeen)
    {
      if |frame| < COUNTER_LEN + TAG_LEN {
        return Err(TooShort);
      }
      if |frame| > COUNTER_LEN + TAG_LEN + MAX_PLAINTEXT {
        return Err(TooLarge);
      }
      var counter := FromBigEndian(frame[..COUNTER_LEN]);
      if counter == 0 || counter <= lastSeen {
        return Err(Stale);
      }
      var plaintext := cipher.decrypt(NonceFor(counter), frame[COUNTER_LEN..]);
      if plaintext.None? {
        return Err(Forged);
      }
      lastSeen := counter;
      r := Ok(plaintext.value);
    }
  }

  // ------------------------------------------------- a hostile byte stream

  /** The two laws of an ideal cipher (section 2.8 of RFC 8439). What was encrypted
      decrypts; and a delivered frame that decrypts was sealed by the peer, who seals
      the plaintexts of `sent` under the counters 1, 2, and so on. */
  ghost predicate Correct(a: Aead) {
    && (forall n, p :: a.decrypt(n, a.encrypt(n, p)) == Some(p))
    && (forall n, p :: |a.encrypt(n, p)| == |p| + TAG_LEN)
  }

  ghost predicate Genuine(a: Aead, sent: seq<seq<byte>>, frame: seq<byte>) {
    |frame| < COUNTER_LEN ||
    var nonce := NonceFor(FromBigEndian(frame[..COUNTER_LEN]));
    var plaintext := a.decrypt(nonce, frame[COUNTER_LEN..]);
    plaintext.Some? ==> exists i :: 0 <= i < |sent| && NonceFor(i + 1) == nonce && sent[i] == plaintext.value
  }

  ghost predicate Unforged(a: Aead, sent: seq<seq<byte>>, frames: seq<seq<byte>>) {
    forall k :: 0 <= k < |frames| ==> Genuine(a, sent, frames[k])
  }

  /** What an opener accepts from a stream of frames, with the counters. */
  function Accepted(a: Aead, lastSeen: nat, frames: seq<seq<byte>>): seq<(nat, seq<byte>)>
    decreases frames
  {
    if frames == [] then []
    else
      match Opened(a, lastSeen, frames[0])
      case Err(_) => Accepted(a, lastSeen, frames[1..])
      case Ok(pair) => [pair] + Accepted(a, pair.0, frames[1..])
  }

  lemma NonceIsInjective(i: nat, j: nat)
    requires i < WRAP && j < WRAP && NonceFor(i) == NonceFor(j)
    ensures i == j
  {
    SmallCounterReads(i);
    SmallCounterReads(j);
    assert NonceFor(i)[4..] == WireCounter(i) && NonceFor(j)[4..] == WireCounter(j);
  }

  lemma OnlySentFramesOpen(a: Aead, sent: seq<seq<byte>>, lastSeen: nat, frame: seq<byte>)
    requires Genuine(a, sent, frame) && |sent| < WRAP
    requires Opened(a, lastSeen, frame).Ok?
    ensures var pair := Opened(a, lastSeen, frame).value;
            lastSeen < pair.0 <= |sent| && pair.1 == sent[pair.0 - 1]
  {
    var counter := FromBigEndian(frame[..COUNTER_LEN]);
    WrapIsEightBytes();
    FromBigEndianBound(frame[..COUNTER_LEN]);
    var p := a.decrypt(NonceFor(counter), frame[COUNTER_LEN..]).value;
    var i :| 0 <= i < |sent| && NonceFor(i + 1) == NonceFor(counter) && sent[i] == p;
    NonceIsInjective(i + 1, counter);
  }

  /** Accepted frames carry increasing counters after `lastSeen`, each with the plaintext
      sealed under its counter. */
  ghost predicate Faithful(sent: seq<seq<byte>>, lastSeen: nat, got: seq<(nat, seq<byte>)>) {
    && (forall k :: 0 <= k < |got| ==> lastSeen < got[k].0 <= |sent| && got[k].1 == sent[got[k].0 - 1])
    && (forall i, j :: 0 <= i < j < |got| ==> got[i].0 < got[j].0)
  }

  lemma FaithfulCons(sent: seq<seq<byte>>, lastSeen: nat, pair: (nat, seq<byte>), got: seq<(nat, seq<byte>)>)
    requires lastSeen < pair.0 <= |sent| && pair.1 == sent[pair.0 - 1] && Faithful(sent, pair.0, got)
    ensures Faithful(sent, lastSeen, [pair] + got)
  {
    var all := [pair] + got;
    forall k | 0 <= k < |all|
      ensures lastSeen < all[k].0 <= |sent| && all[k].1 == sent[all[k].0 - 1]
    {
      if k > 0 {
        assert all[k] == got[k - 1];
      }
    }
    forall i, j | 0 <= i < j < |all|
      ensures all[i].0 < all[j].0
    {
      assert all[j] == got[j - 1];
      if i > 0 {
        assert all[i] == got[i - 1];
      }
    }
  }

  /** Whatever the network delivers (drops, duplicates, reordering, rejected forgeries), the
      accepted counters strictly increase, so each sent frame is accepted at most once
      and in order, and each accepted plaintext is the one sealed under its counter. */
  lemma {:induction false} AcceptedIsASubsequenceOfSent(a: Aead, sent: seq<seq<byte>>, lastSeen: nat, frames: seq<seq<byte>>)
    requires Unforged(a, sent, frames) && |sent| < WRAP
    ensures Faithful(sent, lastSeen, Accepted(a, lastSeen, frames))
    decreases frames
  {
    if frames != [] {
      match Opened(a, lastSeen, frames[0])
      case Err(_) => AcceptedIsASubsequenceOfSent(a, sent, lastSeen, frames[1..]);
      case Ok(pair) =>
        OnlySentFramesOpen(a, sent, lastSeen, frames[0]);
        AcceptedIsASubsequenceOfSent(a, sent, pair.0, frames[1..]);
        FaithfulCons(sent, lastSeen, pair, Accepted(a, pair.0, frames[1..]));
    }
  }

  /** A sent frame is opened exactly when its counter on the wire is new; after 2^64
      frames the wire counter wraps. */
  lemma SentFrameOpensIffNew(a: Aead, lastSeen: nat, counter: nat, plaintext: seq<byte>)
    requires Correct(a) && |plaintext| <= MAX_PLAINTEXT
    ensures Opened(a, lastSeen, Frame(a, counter, plaintext)).Ok? <==> counter % WRAP > lastSeen
    ensures counter % WRAP > lastSeen ==>
      Opened(a, lastSeen, Frame(a, counter, plaintext)) == Ok((counter % WRAP, plaintext))
  {
    var frame := Frame(a, counter, plaintext);
    assert frame[..COUNTER_LEN] == WireCounter(counter);
    assert frame[COUNTER_LEN..] == a.encrypt(NonceFor(counter), plaintext);
    WireCounterReads(counter);
    WrapIsEightBytes();
    var n, m := counter % WRAP, counter / WRAP;
    BigEndianWraps(n, m, COUNTER_LEN);
    assert counter == n + m * Pow256(COUNTER_LEN);
    assert NonceFor(n) == NonceFor(counter);
  }

  function Frames(a: Aead, counter: nat, sent: seq<seq<byte>>): seq<seq<byte>>
    decreases sent
  {
    if sent == [] then [] else [Frame(a, counter, sent[0])] + Frames(a, counter + 1, sent[1..])
  }

  ghost predicate Sealable(sent: seq<seq<byte>>) {
    forall i :: 0 <= i < |sent| ==> |sent[i]| <= MAX_PLAINTEXT
  }

  /** Once the last counter was seen, every later frame is stale. */
  lemma {:induction false} NothingOpensAfterTheLastCounter(a: Aead, counter: nat, sent: seq<seq<byte>>)
    requires Correct(a) && Sealable(sent)
    ensures Accepted(a, WRAP - 1, Frames(a, counter, sent)) == []
    decreases sent
  {
    if sent != [] {
      SentFrameOpensIffNew(a, WRAP - 1, counter, sent[0]);
      assert Frames(a, counter, sent)[1..] == Frames(a, counter + 1, sent[1..]);
      NothingOpensAfterTheLastCounter(a, counter + 1, sent[1..]);
    }
  }

  function Numbered(counter: nat, sent: seq<seq<byte>>): seq<(nat, seq<byte>)>
    decreases sent
  {
    if sent == [] then [] else [(counter, sent[0])] + Numbered(counter + 1, sent[1..])
  }

  function Room(counter: nat): int {
    WRAP - counter
  }

  lemma NextFrameOpens(a: Aead, counter: nat, plaintext: seq<byte>)
    requires Correct(a) && 1 <= counter < WRAP && |plaintext| <= MAX_PLAINTEXT
    ensures Opened(a, counter - 1, Frame(a, counter, plaintext)) == Ok((counter, plaintext))
  {
    assert counter % WRAP == counter;
    SentFrameOpensIffNew(a, counter - 1, counter, plaintext);
  }

  lemma AcceptedCons(a: Aead, lastSeen: nat, frame: seq<byte>, rest: seq<seq<byte>>)
    requires Opened(a, lastSeen, frame).Ok?
    ensures var pair := Opened(a, lastSeen, frame).value;
            Accepted(a, lastSeen, [frame] + rest) == [pair] + Accepted(a, pair.0, rest)
  {
    assert ([frame] + rest)[1..] == rest;
  }

  lemma LastFramesAreLost(a: Aead, sent: seq<seq<byte>>)
    requires Correct(a) && Sealable(sent)
    ensures Accepted(a, WRAP - 1, Frames(a, WRAP, sent)) == []
  {
    NothingOpensAfterTheLastCounter(a, WRAP, sent);
  }

  /** In-order delivery returns exactly the sealed plaintexts, in order, until the
      counter is used up: all of them if and only if fewer than 2^64 were sealed. */
  lemma {:induction false} InOrderDelivery(a: Aead, counter: nat, sent: seq<seq<byte>>)
    requires Correct(a) && 1 <= counter <= WRAP && Sealable(sent)
    ensures Accepted(a, counter - 1, Frames(a, counter, sent))
         == Numbered(counter, if |sent| <= Room(counter) then sent else sent[..Room(counter)])
    decreases sent
  {
    if counter == WRAP {
      LastFramesAreLost(a, sent);
    } else if sent != [] {
      var rest := sent[1..];
      NextFrameOpens(a, counter, sent[0]);
      AcceptedCons(a, counter - 1, Frame(a, counter, sent[0]), Frames(a, counter + 1, rest));
      InOrderDelivery(a, counter + 1, rest);
      if |sent| > Room(counter) {
        assert sent[..Room(counter)][1..] == rest[..Room(counter + 1)];
      }
    }
  }

  // -------------------------------------------------------------- base64url

  type sextet = x: int | 0 <= x < 64

  /** One character of the alphabet of section 4 of RFC 4648. */
  function Letter(v: sextet): char {
    if v < 26 then ('A' as int + v) as char
    else if v < 52 then ('a' as int + (v - 26)) as char
    else if v < 62 then ('0' as int + (v - 52)) as char
    else if v == 62 then '+' else '/'
  }

  function Sextet(c: char): Option<sextet> {
    if 'A' <= c <= 'Z' then Some(c as int - 'A' as int)
    else if 'a' <= c <= 'z' then Some(c as int - 'a' as int + 26)
    else if '0' <= c <= '9' then Some(c as int - '0' as int + 52)
    else if c == '+' then Some(62)
    else if c == '/' then Some(63)
    else None
  }

  // Three bytes are cut into four sextets, high bits first, and put together again.
  function First(x: byte): sextet { x / 4 }

  function Second(x: byte, y: byte): sextet { x % 4 * 16 + y / 16 }

  function Third(y: byte, z: byte): sextet { y % 16 * 4 + z / 64 }

  function Fourth(z: byte): sextet { z % 64 }

  function High(a: sextet, b: sextet): byte { a * 4 + b / 16 }

  function Middle(b: sextet, c: sextet): byte { b % 16 * 16 + c / 4 }

  function Low(c: sextet, d: sextet): byte { c % 4 * 64 + d }

  lemma GroupRoundTrip(x: byte, y: byte, z: byte)
    ensures High(First(x), Second(x, y)) == x
    ensures Middle(Second(x, y), Third(y, z)) == y
    ensures Low(Third(y, z), Fourth(z)) == z
  {
  }

  /** `btoa`: groups of three bytes become four characters, padded with `=`. */
  function Btoa(bytes: seq<byte>): string {
    if |bytes| == 0 then ""
    else if |bytes| == 1 then [Letter(First(bytes[0])), Letter(Second(bytes[0], 0)), '=', '=']
    else if |bytes| == 2 then
      [Letter(First(bytes[0])), Letter(Second(bytes[0], bytes[1])), Letter(Third(bytes[1], 0)), '=']
    else Quartet(bytes[0], bytes[1], bytes[2]) + Btoa(bytes[3..])
  }

  function Quartet(x: byte, y: byte, z: byte): string {
    [Letter(First(x)), Letter(Second(x, y)), Letter(Third(y, z)), Letter(Fourth(z))]
  }

  function UrlChar(c: char): char {
    if c == '+' then '-' else if c == '/' then '_' else c
  }

  function StandardChar(c: char): char {
    if c == '-' then '+' else if c == '_' then '/' else c
  }

  function Mapped(f: char -> char, s: string): string {
    seq(|s|, i requires 0 <= i < |s| => f(s[i]))
  }

  /** Removes every trailing `=`. */
  function Stripped(s: string): string {
    if s != "" && s[|s| - 1] == '=' then Stripped(s[..|s| - 1]) else s
  }

  function BytesToBase64Url(bytes: seq<byte>): string {
    Stripped(Mapped(UrlChar, Btoa(bytes)))
  }

  function Padding(n: nat): string {
    match (4 - n % 4) % 4
    case 0 => ""
    case 1 => "="
    case 2 => "=="
    case _ => "==="
  }

  /** `atob` of text without white space: complete groups of four, the last of which
      may end in one or two `=`; leftover bits are dropped. */
  function Atob(s: string): Option<seq<byte>>
    decreases |s|, 1
  {
    if s == "" then Some([])
    else if |s| < 4 then None
    else AtobGroup(s)
  }

  function AtobGroup(s: string): Option<seq<byte>>
    requires |s| >= 4
    decreases |s|, 0
  {
    var a, b, c, d := Sextet(s[0]), Sextet(s[1]), Sextet(s[2]), Sextet(s[3]);
    if a.None? || b.None? then None
    else if c.None? then
      if s[2..] == "==" then Some([High(a.value, b.value)]) else None
    else if d.None? then
      if s[3..] == "=" then Some([High(a.value, b.value), Middle(b.value, c.value)]) else None
    else
      match Atob(s[4..])
      case None => None
      case Some(rest) => Some([High(a.value, b.value), Middle(b.value, c.value), Low(c.value, d.value)] + rest)
  }

  function Base64UrlToBytes(encoded: string): Option<seq<byte>> {
    Atob(Mapped(StandardChar, encoded) + Padding(|encoded|))
  }

  lemma SextetInvertsLetter(v: sextet)
    ensures Sextet(Letter(v)) == Some(v)
  {
  }

  lemma AtobOfQuartet(x: byte, y: byte, z: byte, rest: string)
    requires Atob(rest).Some?
    ensures Atob(Quartet(x, y, z) + rest) == Some([x, y, z] + Atob(rest).value)
  {
    var s := Quartet(x, y, z) + rest;
    assert s[4..] == rest && Atob(s) == AtobGroup(s);
    SextetInvertsLetter(First(x));
    SextetInvertsLetter(Second(x, y));
    SextetInvertsLetter(Third(y, z));
    SextetInvertsLetter(Fourth(z));
    GroupRoundTrip(x, y, z);
  }

  lemma AtobOfTwoLetters(p: char, q: char)
    requires Sextet(p).Some? && Sextet(q).Some?
    ensures Atob([p, q, '=', '=']) == Some([High(Sextet(p).value, Sextet(q).value)])
  {
    assert Sextet('=') == None;
    var s := [p, q, '=', '='];
    assert s[2..] == "==" && Atob(s) == AtobGroup(s);
  }

  lemma AtobOfThreeLetters(p: char, q: char, r: char)
    requires Sextet(p).Some? && Sextet(q).Some? && Sextet(r).Some?
    ensures Atob([p, q, r, '='])
         == Some([High(Sextet(p).value, Sextet(q).value), Middle(Sextet(q).value, Sextet(r).value)])
  {
    assert Sextet('=') == None;
    var s := [p, q, r, '='];
    assert s[3..] == "=" && Atob(s) == AtobGroup(s);
  }

  lemma HighOfLetters(x: byte, y: byte, p: char, q: char)
    requires p == Letter(First(x)) && q == Letter(Second(x, y))
    ensures Sextet(p).Some? && Sextet(q).Some? && High(Sextet(p).value, Sextet(q).value) == x
  {
    SextetInvertsLetter(First(x));
    SextetInvertsLetter(Second(x, y));
    GroupRoundTrip(x, y, 0);
  }

  lemma AtobOfOne(x: byte, p: char, q: char)
    requires p == Letter(First(x)) && q == Letter(Second(x, 0))
    ensures Atob([p, q, '=', '=']) == Some([x])
  {
    HighOfLetters(x, 0, p, q);
    AtobOfTwoLetters(p, q);
  }

  lemma AtobOfTwo(x: byte, y: byte)
    ensures Atob([Letter(First(x)), Letter(Second(x, y)), Letter(Third(y, 0)), '=']) == Some([x, y])
  {
    SextetInvertsLetter(First(x));
    SextetInvertsLetter(Second(x, y));
    SextetInvertsLetter(Third(y, 0));
    GroupRoundTrip(x, y, 0);
    AtobOfThreeLetters(Letter(First(x)), Letter(Second(x, y)), Letter(Third(y, 0)));
  }

  lemma AtobOfShort(bytes: seq<byte>)
    requires |bytes| <= 2
    ensures Atob(Btoa(bytes)) == Some(bytes)
  {
    if |bytes| == 1 {
      AtobOfOne(bytes[0], Btoa(bytes)[0], Btoa(bytes)[1]);
      assert bytes == [bytes[0]];
    } else if |bytes| == 2 {
      AtobOfTwo(bytes[0], bytes[1]);
      assert bytes == [bytes[0], bytes[1]];
    }
  }

  lemma AtobOfLonger(bytes: seq<byte>, code: string, tail: string)
    requires |bytes| > 2 && Atob(tail) == Some(bytes[3..])
    requires code == Quartet(bytes[0], bytes[1], bytes[2]) + tail
    ensures Atob(code) == Some(bytes)
  {
    AtobOfQuartet(bytes[0], bytes[1], bytes[2], tail);
    assert [bytes[0], bytes[1], bytes[2]] + bytes[3..] == bytes;
  }

  lemma BtoaOfLonger(bytes: seq<byte>)
    requires |bytes| > 2
    ensures Btoa(bytes) == Quartet(bytes[0], bytes[1], bytes[2]) + Btoa(bytes[3..])
  {
  }

  lemma {:induction false} AtobInvertsBtoa(bytes: seq<byte>)
    ensures Atob(Btoa(bytes)) == Some(bytes)
    decreases |bytes|
  {
    if |bytes| <= 2 {
      AtobOfShort(bytes);
    } else {
      AtobInvertsBtoa(bytes[3..]);
      BtoaOfLonger(bytes);
      AtobOfLonger(bytes, Btoa(bytes), Btoa(bytes[3..]));
    }
  }

  /** The unpadded form, written directly. */
  function Unpadded(bytes: seq<byte>): string {
    if |bytes| == 0 then ""
    else if |bytes| == 1 then [Letter(First(bytes[0])), Letter(Second(bytes[0], 0))]
    else if |bytes| == 2 then
      [Letter(First(bytes[0])), Letter(Second(bytes[0], bytes[1])), Letter(Third(bytes[1], 0))]
    else Quartet(bytes[0], bytes[1], bytes[2]) + Unpadded(bytes[3..])
  }

  predicate Letters(s: string) {
    forall i :: 0 <= i < |s| ==> Sextet(s[i]).Some?
  }

  lemma QuartetIsLetters(x: byte, y: byte, z: byte)
    ensures Letters(Quartet(x, y, z))
  {
    SextetInvertsLetter(First(x));
    SextetInvertsLetter(Second(x, y));
    SextetInvertsLetter(Third(y, z));
    SextetInvertsLetter(Fourth(z));
  }

  lemma {:induction false} UnpaddedIsLetters(bytes: seq<byte>)
    ensures Letters(Unpadded(bytes))
    decreases |bytes|
  {
    if |bytes| > 2 {
      UnpaddedIsLetters(bytes[3..]);
      QuartetIsLetters(bytes[0], bytes[1], bytes[2]);
    } else if |bytes| > 0 {
      var y := if |bytes| == 2 then bytes[1] else 0;
      QuartetIsLetters(bytes[0], y, 0);
      assert Unpadded(bytes) == Quartet(bytes[0], y, 0)[..|bytes| + 1];
    }
  }

  lemma {:induction false} UnpaddedLength(bytes: seq<byte>)
    ensures |Unpadded(bytes)| == (4 * |bytes| + 2) / 3
    decreases |bytes|
  {
    if |bytes| > 2 {
      UnpaddedLength(bytes[3..]);
    }
  }

  lemma PaddingRepeats(n: nat)
    ensures Padding(4 + n) == Padding(n)
  {
    assert (4 + n) % 4 == n % 4;
  }

  lemma PaddingOfShort(bytes: seq<byte>)
    requires |bytes| <= 2
    ensures Btoa(bytes) == Unpadded(bytes) + Padding(|Unpadded(bytes)|)
  {
    assert Padding(0) == "" && Padding(2) == "==" && Padding(3) == "=";
  }

  lemma {:induction false} PaddingCompletesTheQuartet(bytes: seq<byte>)
    ensures Btoa(bytes) == Unpadded(bytes) + Padding(|Unpadded(bytes)|)
    decreases |bytes|
  {
    if |bytes| <= 2 {
      PaddingOfShort(bytes);
    } else {
      var quartet, rest := Quartet(bytes[0], bytes[1], bytes[2]), bytes[3..];
      var tail := Unpadded(rest);
      PaddingCompletesTheQuartet(rest);
      PaddingRepeats(|tail|);
      assert Btoa(bytes) == quartet + Btoa(rest) && Unpadded(bytes) == quartet + tail;
      assert quartet + (tail + Padding(|tail|)) == (quartet + tail) + Padding(|tail|);
    }
  }

  lemma StrippedOnce(text: string)
    ensures Stripped(text + "=") == Stripped(text)
  {
    assert (text + "=")[..|text|] == text;
  }

  lemma StrippedPadding(text: string, n: nat)
    requires text == "" || text[|text| - 1] != '='
    ensures Stripped(text + Padding(n)) == text
  {
    StrippedOnce(text);
    StrippedOnce(text + "=");
    StrippedOnce(text + "=" + "=");
    assert text + "" == text && text + "=" + "=" == text + "==" && text + "==" + "=" == text + "===";
  }

  predicate UrlSafe(c: char) {
    'A' <= c <= 'Z' || 'a' <= c <= 'z' || '0' <= c <= '9' || c == '-' || c == '_'
  }

  lemma UrlCharIsInvertible(c: char)
    requires Sextet(c).Some?
    ensures UrlSafe(UrlChar(c)) && StandardChar(UrlChar(c)) == c && UrlChar(c) != '='
  {
  }

  lemma EncodingIsUnpadded(bytes: seq<byte>)
    ensures BytesToBase64Url(bytes) == Mapped(UrlChar, Unpadded(bytes))
  {
    var text := Unpadded(bytes);
    PaddingCompletesTheQuartet(bytes);
    UnpaddedIsLetters(bytes);
    assert Mapped(UrlChar, text + Padding(|text|)) == Mapped(UrlChar, text) + Padding(|text|);
    if text != "" {
      UrlCharIsInvertible(text[|text| - 1]);
    }
    StrippedPadding(Mapped(UrlChar, text), |text|);
  }

  /** The encoding takes ceil(4n/3) characters, all of them URL-safe, so none needs a
      JSON escape and each is one byte on the wire. */
  lemma EncodingIsUrlSafe(bytes: seq<byte>)
    ensures |BytesToBase64Url(bytes)| == (4 * |bytes| + 2) / 3
    ensures forall i :: 0 <= i < |BytesToBase64Url(bytes)| ==> UrlSafe(BytesToBase64Url(bytes)[i])
  {
    EncodingIsUnpadded(bytes);
    UnpaddedLength(bytes);
    UnpaddedIsLetters(bytes);
    var text := Unpadded(bytes);
    forall i | 0 <= i < |text|
      ensures UrlSafe(Mapped(UrlChar, text)[i])
    {
      UrlCharIsInvertible(text[i]);
    }
  }

  /** Decoding inverts encoding (section 5 of RFC 4648, unpadded). */
  lemma Base64UrlRoundTrip(bytes: seq<byte>)
    ensures Base64UrlToBytes(BytesToBase64Url(bytes)) == Some(bytes)
  {
    EncodingIsUnpadded(bytes);
    UnpaddedIsLetters(bytes);
    var text := Unpadded(bytes);
    assert Mapped(StandardChar, Mapped(UrlChar, text)) == text by {
      forall i | 0 <= i < |text|
        ensures StandardChar(UrlChar(text[i])) == text[i]
      {
        UrlCharIsInvertible(text[i]);
      }
    }
    PaddingCompletesTheQuartet(bytes);
    AtobInvertsBtoa(bytes);
  }

  /** The frame as it travels: `{"e":"..."}`. */
  function SealedLine(frame: seq<byte>): string {
    "{\"e\":\"" + BytesToBase64Url(frame) + "\"}"
  }
}
