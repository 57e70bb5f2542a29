/** Line framing of the control socket (apps/viewer-expo/src/control.ts): text arrives
    in arbitrary chunks, is cut at newlines, and each complete line is handled in the
    mode the connection is in. A string is a sequence of UTF-16 code units. */
module LineFraming {
  import opened Wrappers
  import opened ControlChannel

  datatype Mode = Handshake | Plain | Sealed

  datatype Parsed = Blank | Malformed | Answer(reply: Reply)

  /** The end of a handshake: the server hello is refused, or it is accepted, and then the
      write of the confirmation throws or not. */
  datatype HelloEnd = Refused | WriteThrew | Confirmed

  /** What happens to a line is decided by code that is not modelled here: the server
      hello is verified and confirmed, a sealed frame is opened after the last counter seen (giving
      the new counter and the text), and a response is parsed. */
  datatype Decoders = Decoders(
    finishHandshake: string -> HelloEnd,
    unseal: (nat, string) -> Option<(nat, string)>,
    parse: string -> Parsed)

  datatype Receiver = Receiver(mode: Mode, buffer: string, lastSeen: nat, channel: Channel, delivered: seq<string>)

  function Limit(mode: Mode): nat {
    if mode == Handshake then HANDSHAKE_LINE_LIMIT else CONTROL_LINE_LIMIT
  }

  predicate Over(r: Receiver) {
    r.channel.terminal.Some?
  }

  function Failed(r: Receiver): Receiver {
    r.(buffer := "", channel := Retire(r.channel, Transport))
  }

  function PlainText(d: Decoders, r: Receiver, text: string): Receiver {
    match d.parse(text)
    case Blank => r
    case Malformed => Failed(r)
    case Answer(reply) => r.(channel := Step(r.channel, Response(true, reply)))
  }

  /** One complete line. */
  function Handle(d: Decoders, r: Receiver, line: string): Receiver {
    var r := r.(delivered := r.delivered + [line]);
    match r.mode
    case Handshake =>
      var secured := r.(mode := Sealed, lastSeen := 0);
      (match d.finishHandshake(line)
       case Refused => Failed(r)
       case WriteThrew => Failed(secured)
       case Confirmed => secured)
    case Plain => PlainText(d, r, line)
    case Sealed =>
      match d.unseal(r.lastSeen, line)
      case None => Failed(r)
      case Some(pair) => PlainText(d, r.(lastSeen := pair.0), pair.1)
  }

  /** The reference: text is consumed one character at a time. */
  function CharStep(d: Decoders, r: Receiver, ch: char): Receiver {
    if Over(r) then r
    else if ch == '\n' then Handle(d, r.(buffer := ""), r.buffer)
    else if |r.buffer| + 1 > Limit(r.mode) then Failed(r)
    else r.(buffer := r.buffer + [ch])
  }

  function Fold(d: Decoders, r: Receiver, text: string): Receiver
    decreases text
  {
    if text == "" then r else Fold(d, CharStep(d, r, text[0]), text[1..])
  }

  /** Between chunks the buffer holds no newline and is within the limit of the
      current mode; after a failure it is empty. */
  predicate Framed(r: Receiver) {
    '\n' !in r.buffer && |r.buffer| <= Limit(r.mode)
  }

  lemma {:induction false} FoldKeepsFramed(d: Decoders, r: Receiver, text: string)
    requires Framed(r)
    ensures Framed(Fold(d, r, text))
    decreases text
  {
    if text != "" {
      FoldKeepsFramed(d, CharStep(d, r, text[0]), text[1..]);
    }
  }

  lemma {:induction false} FoldAppend(d: Decoders, r: Receiver, a: string, b: string)
    ensures Fold(d, r, a + b) == Fold(d, Fold(d, r, a), b)
    decreases a
  {
    if a == "" {
      assert a + b == b;
    } else {
      assert (a + b)[1..] == a[1..] + b;
      FoldAppend(d, CharStep(d, r, a[0]), a[1..], b);
    }
  }

  lemma {:induction false} FoldOver(d: Decoders, r: Receiver, text: string)
    requires Over(r)
    ensures Fold(d, r, text) == r
    decreases text
  {
    if text != "" {
      FoldOver(d, r, text[1..]);
    }
  }

  /** A stretch without newlines is either appended whole or breaks the limit. */
  lemma {:induction false} FoldSegment(d: Decoders, r: Receiver, segment: string)
    requires Framed(r) && !Over(r) && '\n' !in segment
    ensures Fold(d, r, segment)
         == if |r.buffer| + |segment| > Limit(r.mode) then Failed(r) else r.(buffer := r.buffer + segment)
    decreases segment
  {
    if segment == "" {
      assert r.buffer + segment == r.buffer;
    } else if |r.buffer| + 1 > Limit(r.mode) {
      FoldOver(d, Failed(r), segment[1..]);
    } else {
      var next := CharStep(d, r, segment[0]);
      FoldSegment(d, next, segment[1..]);
      assert next.buffer + segment[1..] == r.buffer + segment;
    }
  }

  lemma SplitAt(d: Decoders, r: Receiver, text: string, i: nat, j: nat)
    requires i <= j <= |text|
    ensures Fold(d, r, text[..j]) == Fold(d, Fold(d, r, text[..i]), text[i..j])
  {
    assert text[..j] == text[..i] + text[i..j];
    FoldAppend(d, r, text[..i], text[i..j]);
  }

  lemma FoldTail(d: Decoders, r: Receiver, text: string, i: nat)
    requires i <= |text|
    ensures Fold(d, r, text) == Fold(d, Fold(d, r, text[..i]), text[i..])
  {
    assert text == text[..i] + text[i..];
    FoldAppend(d, r, text[..i], text[i..]);
  }

  /** The rest of the chunk is dropped when the stretch up to `end` breaks the limit. */
  lemma SegmentOverflows(d: Decoders, r: Receiver, text: string, start: nat, end: nat)
    requires start <= end <= |text| && '\n' !in text[start..end]
    requires var middle := Fold(d, r, text[..start]);
             Framed(middle) && !Over(middle) && |middle.buffer| + end - start > Limit(middle.mode)
    ensures Fold(d, r, text) == Failed(Fold(d, r, text[..start]))
  {
    var middle := Fold(d, r, text[..start]);
    SplitAt(d, r, text, start, end);
    FoldSegment(d, middle, text[start..end]);
    FoldTail(d, r, text, end);
    FoldOver(d, Failed(middle), text[end..]);
  }

  lemma SegmentFits(d: Decoders, r: Receiver, text: string, start: nat, end: nat)
    requires start <= end <= |text| && '\n' !in text[start..end]
    requires var middle := Fold(d, r, text[..start]);
             Framed(middle) && !Over(middle) && |middle.buffer| + end - start <= Limit(middle.mode)
    ensures var middle := Fold(d, r, text[..start]);
            var full := middle.(buffer := middle.buffer + text[start..end]);
            && Fold(d, r, text[..end]) == full && Framed(full)
            && (end < |text| && text[end] == '\n' ==>
                  && Fold(d, r, text[..end + 1]) == Handle(d, full.(buffer := ""), full.buffer)
                  && Framed(Fold(d, r, text[..end + 1])))
  {
    var middle := Fold(d, r, text[..start]);
    SplitAt(d, r, text, start, end);
    FoldSegment(d, middle, text[start..end]);
    FoldKeepsFramed(d, middle, text[start..end]);
    var full := Fold(d, r, text[..end]);
    if end < |text| && text[end] == '\n' {
      SplitAt(d, r, text, end, end + 1);
      assert text[end..end + 1] == ['\n'];
      assert Fold(d, full, ['\n']) == CharStep(d, full, '\n');
      FoldKeepsFramed(d, full, ['\n']);
    }
  }

  /** The only newline of a line with its delimiter is the delimiter. */
  lemma DelimiterIsFound(line: string, index: int)
    requires '\n' !in line
    requires var text := line + "\n";
             && (index == -1 ==> '\n' !in text[0..])
             && (index != -1 ==> 0 <= index < |text| && text[index] == '\n' && '\n' !in text[0..index])
    ensures index == |line|
  {
    var text := line + "\n";
    assert text[|line|] == '\n' && text[0..] == text;
    assert forall k :: 0 <= k < |line| ==> text[k] == line[k];
  }

  // ---------------------------------------------- the data handler, in place

  method IndexOf(text: string, ch: char, start: nat) returns (index: int)
    requires start <= |text|
    ensures index == -1 ==> ch !in text[start..]
    ensures index != -1 ==> start <= index < |text| && text[index] == ch && ch !in text[start..index]
  {
    index := start;
    while index < |text|
      invariant start <= index <= |text|
      invariant ch !in text[start..index]
    {
      if text[index] == ch {
        return;
      }
      index := index + 1;
    }
    index := -1;
  }

  class LineReader {
    const decoders: Decoders
    const connection: Connection
    var mode: Mode
    var buffer: string
    var lastSeen: nat
    ghost var delivered: seq<string>

    ghost function Model(): Receiver
      reads this, connection
    {
      Receiver(mode, buffer, lastSeen, connection.Model(), delivered)
    }

    constructor (decoders: Decoders, connection: Connection, secure: bool)
      ensures this.decoders == decoders && this.connection == connection
      ensures Model() == Receiver(if secure then Handshake else Plain, "", 0, connection.Model(), [])
    {
      this.decoders, this.connection := decoders, connection;
      mode := if secure then Handshake else Plain;
      buffer, lastSeen, delivered := "", 0, [];
    }

    method Fail()
      modifies this`buffer, connection
      ensures Model() == Failed(old(Model()))
    {
      connection.Fail(Transport);
      buffer := "";
    }

    method HandlePlainTextLine(text: string)
      modifies this`buffer, connection
      ensures Model() == PlainText(decoders, old(Model()), text)
    {
      match decoders.parse(text)
      case Blank =>
      case Malformed => Fail();
      case Answer(reply) => connection.HandleResponse(true, reply);
    }

    /** Delivers complete lines until none is left or the connection is over. */
    method Drain(ghost line: string)
      requires !Over(Model()) && '\n' !in line && buffer == line + "\n"
      modifies this, connection
      ensures Model() == Handle(decoders, old(Model()).(buffer := ""), line)
    {
      ghost var before := Model();
      ghost var pending := true;
      while connection.terminalError.None?
        invariant pending ==> Model() == before
        invariant !pending ==> Model() == Handle(decoders, before.(buffer := ""), line) && buffer == ""
        decreases pending
      {
        var newline := IndexOf(buffer, '\n', 0);
        if pending {
          DelimiterIsFound(line, newline);
        }
        if newline < 0 {
          return;
        }
        var raw := buffer[..newline];
        buffer := buffer[newline + 1..];
        assert raw == line;
        delivered := delivered + [raw];
        pending := false;
        if mode == Handshake {
          var end := decoders.finishHandshake(raw);
          if end != Refused {
            mode, lastSeen := Sealed, 0;
          }
          if end != Confirmed {
            Fail();
          }
          continue;
        }
        if mode == Sealed {
          var frame := decoders.unseal(lastSeen, raw);
          if frame.None? {
            Fail();
            return;
          }
          lastSeen := frame.value.0;
          HandlePlainTextLine(frame.value.1);
          continue;
        }
        HandlePlainTextLine(raw);
      }
    }

    /** The socket's data handler. Only new text is scanned for newlines. */
    method Feed(chunk: string)
      requires Framed(Model())
      modifies this, connection
      ensures Model() == Fold(decoders, old(Model()), chunk)
      ensures Framed(Model())
    {
      ghost var before := Model();
      FoldKeepsFramed(decoders, before, chunk);
      if connection.terminalError.Some? {
        FoldOver(decoders, before, chunk);
        return;
      }
      var start := 0;
      assert chunk[..0] == "" && chunk[..|chunk|] == chunk;
      while start < |chunk| && connection.terminalError.None?
        invariant 0 <= start <= |chunk|
        invariant Model() == Fold(decoders, before, chunk[..start]) && Framed(Model())
      {
        var newline := IndexOf(chunk, '\n', start);
        var end := if newline < 0 then |chunk| else newline;
        var limit := Limit(mode);
        if |buffer| + end - start > limit {
          SegmentOverflows(decoders, before, chunk, start, end);
          Fail();
          return;
        }
        SegmentFits(decoders, before, chunk, start, end);
        buffer := buffer + chunk[start..end];
        if newline < 0 {
          return;
        }
        ghost var line := buffer;
        buffer := buffer + "\n";
        Drain(line);
        start := newline + 1;
      }
      if start < |chunk| {
        FoldTail(decoders, before, chunk, start);
        FoldOver(decoders, Model(), chunk[start..]);
      }
    }
  }

  // --------------------------------------------------- framing and chunking

  function Joined(chunks: seq<string>): string {
    if chunks == [] then "" else chunks[0] + Joined(chunks[1..])
  }

  function FoldChunks(d: Decoders, r: Receiver, chunks: seq<string>): Receiver
    decreases chunks
  {
    if chunks == [] then r else FoldChunks(d, Fold(d, r, chunks[0]), chunks[1..])
  }

  lemma {:induction false} ChunksFoldLikeTheirText(d: Decoders, r: Receiver, chunks: seq<string>)
    ensures FoldChunks(d, r, chunks) == Fold(d, r, Joined(chunks))
    decreases chunks
  {
    if chunks != [] {
      ChunksFoldLikeTheirText(d, Fold(d, r, chunks[0]), chunks[1..]);
      FoldAppend(d, r, chunks[0], Joined(chunks[1..]));
    }
  }

  /** Two ways of cutting the same text into chunks leave the same delivered lines,
      mode, buffer, settled requests and failure. */
  lemma ChunkingDoesNotMatter(d: Decoders, r: Receiver, one: seq<string>, other: seq<string>)
    requires Joined(one) == Joined(other)
    ensures FoldChunks(d, r, one) == FoldChunks(d, r, other)
  {
    ChunksFoldLikeTheirText(d, r, one);
    ChunksFoldLikeTheirText(d, r, other);
  }

  /** Lines with their delimiters. */
  function Text(lines: seq<string>): string {
    if lines == [] then "" else Text(lines[..|lines| - 1]) + lines[|lines| - 1] + "\n"
  }

  lemma HandleDelivers(d: Decoders, r: Receiver, line: string)
    ensures Handle(d, r, line).delivered == r.delivered + [line]
    ensures r.buffer == "" ==> Handle(d, r, line).buffer == ""
  {
  }

  lemma StepKeepsText(d: Decoders, r: Receiver, ch: char)
    requires !Over(CharStep(d, r, ch))
    ensures !Over(r)
    ensures Text(CharStep(d, r, ch).delivered) + CharStep(d, r, ch).buffer == Text(r.delivered) + r.buffer + [ch]
  {
    if ch == '\n' {
      HandleDelivers(d, r.(buffer := ""), r.buffer);
      assert (r.delivered + [r.buffer])[..|r.delivered|] == r.delivered;
    }
  }

  /** Nothing is lost, added or reordered: while the connection lives, the delivered
      lines with their delimiters and the buffer are exactly the text received. */
  lemma {:induction false} DeliveredLinesAreTheText(d: Decoders, r: Receiver, text: string)
    requires !Over(Fold(d, r, text))
    ensures Text(Fold(d, r, text).delivered) + Fold(d, r, text).buffer == Text(r.delivered) + r.buffer + text
    decreases text
  {
    if text == "" {
      assert r.buffer + text == r.buffer;
    } else {
      var next := CharStep(d, r, text[0]);
      if Over(next) {
        FoldOver(d, next, text[1..]);
      }
      DeliveredLinesAreTheText(d, next, text[1..]);
      StepKeepsText(d, r, text[0]);
      assert [text[0]] + text[1..] == text;
    }
  }

  // ------------------------------------------------------ lines are accepted

  /** A character that is not a newline is buffered exactly while the line stays within
      its limit: sixteen kilobytes in the handshake, then twelve megabytes. */
  lemma BufferedIff(d: Decoders, r: Receiver, ch: char)
    requires r.channel.terminal == None && ch != '\n'
    ensures var t := CharStep(d, r, ch);
            var limit := if r.mode == Handshake then 16_384 else 12_582_912;
            if |r.buffer| < limit
            then t == r.(buffer := r.buffer + [ch])
            else t.channel.terminal == Some(Transport) && t.buffer == ""
  {
  }

  /** What a newline does with the buffered line. The handshake ends sealed, failed, or
      sealed and failed; a plain line is answered or fails; a sealed one moves the counter
      as the opener says. */
  lemma LineIsHandled(d: Decoders, r: Receiver)
    requires r.channel.terminal == None
    ensures var t := CharStep(d, r, '\n');
            && t.delivered == r.delivered + [r.buffer] && t.buffer == ""
            && (r.mode == Handshake ==>
                  var end := d.finishHandshake(r.buffer);
                  && (t.mode == Sealed <==> end != Refused) && (t.mode == Handshake <==> end == Refused)
                  && (end == Confirmed ==> t.channel == r.channel && t.lastSeen == 0)
                  && (end != Confirmed ==> t.channel.terminal == Some(Transport)))
            && (r.mode == Plain ==> t.mode == Plain && TextIsHandled(d, r.channel, t.channel, r.buffer))
            && (r.mode == Sealed ==>
                  && t.mode == Sealed
                  && match d.unseal(r.lastSeen, r.buffer)
                     case None => t.channel.terminal == Some(Transport)
                     case Some(pair) => t.lastSeen == pair.0 && TextIsHandled(d, r.channel, t.channel, pair.1))
  {
  }

  /** A blank text is ignored, a malformed one fails, a response is processed. */
  predicate TextIsHandled(d: Decoders, before: Channel, after: Channel, text: string) {
    match d.parse(text)
    case Blank => after == before
    case Malformed => after.terminal == Some(Transport)
    case Answer(reply) => after == Step(before, Response(true, reply))
  }

  /** A connection whose lines are short and whose responses are well formed never fails
      by reading. */
  lemma {:induction false} GoodTextNeverFails(d: Decoders, r: Receiver, text: string)
    requires r.mode == Plain && r.channel.terminal == None && |r.buffer| + |text| <= 12_582_912
    requires forall line :: !d.parse(line).Malformed?
    ensures Fold(d, r, text).channel.terminal == None && Fold(d, r, text).mode == Plain
    decreases text
  {
    if text != "" {
      GoodTextNeverFails(d, CharStep(d, r, text[0]), text[1..]);
    }
  }
}
