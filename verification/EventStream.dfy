/**
 * The incremental event-stream decoder: bytes arrive in arbitrary chunks, a buffer is drained
 * frame by frame, and each frame is parsed into an event.
 */
module EventStream {
  import opened Sequences
  import opened Wrappers
  import opened Utf8
  import opened Events

  // ---- frame boundaries --------------------------------------------------------------------

  predicate LongDelimiterAt(buf: Bytes, i: nat) {
    i + 3 < |buf| && buf[i] == CR && buf[i + 1] == LF && buf[i + 2] == CR && buf[i + 3] == LF
  }

  predicate ShortDelimiterAt(buf: Bytes, i: nat) {
    i + 1 < |buf| && buf[i] == LF && buf[i + 1] == LF
  }

  predicate DelimiterAt(buf: Bytes, i: nat) {
    LongDelimiterAt(buf, i) || ShortDelimiterAt(buf, i)
  }

  function DelimiterLength(buf: Bytes, i: nat): nat {
    if LongDelimiterAt(buf, i) then 4 else 2
  }

  /** The first frame of the buffer ends at `end`. */
  predicate EndsFrame(buf: Bytes, end: nat) {
    DelimiterAt(buf, end) && forall j :: 0 <= j < end ==> !DelimiterAt(buf, j)
  }

  predicate HoldsFrame(buf: Bytes) {
    exists i :: 0 <= i < |buf| && DelimiterAt(buf, i)
  }

  function FrameEndFrom(buf: Bytes, i: nat): (r: Option<nat>)
    requires forall j :: 0 <= j < i ==> !DelimiterAt(buf, j)
    ensures r.Some? ==> EndsFrame(buf, r.value)
    ensures r.None? <==> !HoldsFrame(buf)
    decreases |buf| - i
  {
    if i >= |buf| then None
    else if DelimiterAt(buf, i) then Some(i)
    else FrameEndFrom(buf, i + 1)
  }

  function FrameEnd(buf: Bytes): (r: Option<nat>)
    ensures r.Some? ==> EndsFrame(buf, r.value)
    ensures r.None? <==> !HoldsFrame(buf)
  {
    FrameEndFrom(buf, 0)
  }

  lemma {:induction false} FrameEndUnique(buf: Bytes, end: nat)
    requires EndsFrame(buf, end)
    ensures FrameEnd(buf) == Some(end)
  {
    assert HoldsFrame(buf);
    var r := FrameEnd(buf).value;
    assert !(r < end) && !(end < r);
  }

  method FindFrameEnd(buf: Bytes) returns (r: Option<nat>)
    ensures r.Some? ==> EndsFrame(buf, r.value)
    ensures r.None? ==> !HoldsFrame(buf)
    ensures r == FrameEnd(buf)
  {
    if |buf| < 2 {
      return None;
    }
    var i := 0;
    while i + 1 < |buf|
      invariant 0 <= i
      invariant forall j :: 0 <= j < i ==> !DelimiterAt(buf, j)
    {
      if i + 3 < |buf| && buf[i] == CR && buf[i + 1] == LF && buf[i + 2] == CR && buf[i + 3] == LF {
        FrameEndUnique(buf, i);
        return Some(i);
      }
      if buf[i] == LF && buf[i + 1] == LF {
        FrameEndUnique(buf, i);
        return Some(i);
      }
      i := i + 1;
    }
    return None;
  }

  // ---- draining ----------------------------------------------------------------------------

  datatype Drained = Drained(frames: seq<Bytes>, rest: Bytes)

  /** Where the buffer goes on after the frame that ends at `end`. */
  function AfterFrame(buf: Bytes, end: nat): (rest: Bytes)
    requires DelimiterAt(buf, end)
    ensures |rest| < |buf|
  {
    buf[end + DelimiterLength(buf, end)..]
  }

  function Cons(frame: Bytes, later: Drained): Drained {
    Drained([frame] + later.frames, later.rest)
  }

  /** One run of draining followed by another. */
  function Followed(d: Drained, later: Drained): Drained {
    Drained(d.frames + later.frames, later.rest)
  }

  /** All complete frames of a buffer, without their delimiters, and what is left. */
  function Drain(buf: Bytes): Drained
    decreases |buf|
  {
    var end := FrameEnd(buf);
    if end.None? then Drained([], buf)
    else Cons(buf[..end.value], Drain(AfterFrame(buf, end.value)))
  }

  /** A frame's end does not move, and its delimiter does not change, when bytes are appended. */
  lemma {:induction false} FrameEndStable(buf: Bytes, more: Bytes)
    requires FrameEnd(buf).Some?
    ensures FrameEnd(buf + more) == FrameEnd(buf)
    ensures DelimiterLength(buf + more, FrameEnd(buf).value) == DelimiterLength(buf, FrameEnd(buf).value)
  {
    var end := FrameEnd(buf).value;
    forall j | 0 <= j < end ensures !DelimiterAt(buf + more, j) {
      assert !DelimiterAt(buf, j);
    }
    assert LongDelimiterAt(buf, end) == LongDelimiterAt(buf + more, end);
    FrameEndUnique(buf + more, end);
  }

  lemma {:induction false} ConsFollowed(frame: Bytes, d: Drained, later: Drained)
    ensures Followed(Cons(frame, d), later) == Cons(frame, Followed(d, later))
  {
    assert ([frame] + d.frames) + later.frames == [frame] + (d.frames + later.frames);
  }

  lemma {:induction false} AfterFrameConcat(a: Bytes, b: Bytes, end: nat)
    requires FrameEnd(a) == Some(end)
    ensures FrameEnd(a + b) == Some(end) && (a + b)[..end] == a[..end]
    ensures AfterFrame(a + b, end) == AfterFrame(a, end) + b
  {
    FrameEndStable(a, b);
  }

  /** Draining early and going on with the rest is draining everything at once. */
  lemma {:induction false} DrainConcat(a: Bytes, b: Bytes)
    ensures Drain(a + b) == Followed(Drain(a), Drain(Drain(a).rest + b))
    decreases |a|
  {
    var end := FrameEnd(a);
    if end.None? {
    } else {
      var next := AfterFrame(a, end.value);
      AfterFrameConcat(a, b, end.value);
      DrainConcat(next, b);
      ConsFollowed(a[..end.value], Drain(next), Drain(Drain(next).rest + b));
    }
  }

  /** What is left holds no complete frame. */
  lemma {:induction false} DrainRest(buf: Bytes)
    ensures !HoldsFrame(Drain(buf).rest)
    decreases |buf|
  {
    var end := FrameEnd(buf);
    if end.None? {
    } else {
      DrainRest(AfterFrame(buf, end.value));
    }
  }

  // ---- parsing a frame ---------------------------------------------------------------------

  /** The JSON codec, as far as the decoder depends on it. */
  datatype Json = Json(encode: StreamEvent -> string, decode: string -> Option<StreamEvent>)

  predicate IsWhitespace(c: char) {
    var n := c as int;
    9 <= n <= 13 || n == 0x20 || n == 0x85 || n == 0xA0 || n == 0x1680 || 0x2000 <= n <= 0x200A
    || n == 0x2028 || n == 0x2029 || n == 0x202F || n == 0x205F || n == 0x3000
  }

  function TrimStart(s: string): string {
    if s != "" && IsWhitespace(s[0]) then TrimStart(s[1..]) else s
  }

  function TrimEndCr(s: string): string {
    if s != "" && s[|s| - 1] == '\r' then TrimEndCr(s[..|s| - 1]) else s
  }

  /** The pieces of a text between its line feeds: one more than there are line feeds. */
  function Lines(s: string): (ls: seq<string>)
    ensures ls != []
  {
    if s == "" then [""]
    else
      var later := Lines(s[1..]);
      if s[0] == '\n' then [""] + later else [[s[0]] + later[0]] + later[1..]
  }

  const DATA_FIELD := "data:"

  /** What one line adds to the data collected so far. */
  function AddLine(data: string, line: string): string {
    var l := TrimEndCr(line);
    if DATA_FIELD <= l
    then (if data == "" then data else data + "\n") + TrimStart(l[|DATA_FIELD|..])
    else data
  }

  function DataOf(lines: seq<string>): string {
    if lines == [] then "" else AddLine(DataOf(lines[..|lines| - 1]), lines[|lines| - 1])
  }

  /** The event a frame stands for, if any. */
  function Parsed(json: Json, frame: Bytes): Option<BackendEvent> {
    var text := Decode(frame);
    if text.None? then None
    else
      var data := DataOf(Lines(text.value));
      if data == "" then None
      else
        var event := json.decode(data);
        if event.None? then None else Some(FromWire(event.value))
  }

  method ParseFrame(json: Json, bytes: Bytes) returns (r: Option<BackendEvent>)
    ensures r == Parsed(json, bytes)
  {
    var text := Decode(bytes);
    if text.None? {
      return None;
    }
    var lines := Lines(text.value);
    var data := "";
    for i := 0 to |lines|
      invariant data == DataOf(lines[..i])
    {
      assert lines[..i + 1][..i] == lines[..i];
      var line := TrimEndCr(lines[i]);
      if DATA_FIELD <= line {
        if data != "" {
          data := data + "\n";
        }
        data := data + TrimStart(line[|DATA_FIELD|..]);
      }
    }
    assert lines[..|lines|] == lines;
    if data == "" {
      return None;
    }
    var event := json.decode(data);
    if event.None? {
      return None;
    }
    return Some(FromWire(event.value));
  }

  // ---- the receiver ------------------------------------------------------------------

  /** What the transport yields next: bytes, or the failure that ends the stream. */
  datatype Chunk = Data(bytes: Bytes) | Broken(error: string)

  type Sent = Result<BackendEvent, string>

  /** What one frame sends: its event, or nothing. */
  function EventOf(json: Json, frame: Bytes): seq<Sent> {
    match Parsed(json, frame)
    case Some(e) => [Success(e)]
    case None => []
  }

  function EventsOf(json: Json, frames: seq<Bytes>): seq<Sent> {
    if frames == [] then []
    else EventOf(json, frames[0]) + EventsOf(json, frames[1..])
  }

  lemma {:induction false} EventsConcat(json: Json, a: seq<Bytes>, b: seq<Bytes>)
    ensures EventsOf(json, a + b) == EventsOf(json, a) + EventsOf(json, b)
  {
    if a == [] {
      assert a + b == b;
    } else {
      assert (a + b)[0] == a[0] && (a + b)[1..] == a[1..] + b;
      EventsConcat(json, a[1..], b);
    }
  }

  /** How many chunks arrive before the transport breaks. */
  function Arrived(chunks: seq<Chunk>): (n: nat)
    ensures n <= |chunks|
    ensures forall i :: 0 <= i < n ==> chunks[i].Data?
    ensures n < |chunks| ==> chunks[n].Broken?
  {
    if chunks == [] || chunks[0].Broken? then 0 else 1 + Arrived(chunks[1..])
  }

  function Joined(chunks: seq<Chunk>): Bytes
    requires forall i :: 0 <= i < |chunks| ==> chunks[i].Data?
  {
    if chunks == [] then [] else Joined(chunks[..|chunks| - 1]) + chunks[|chunks| - 1].bytes
  }

  /** Decoding a whole stream at once: its frames, and a trailing frame without delimiter. */
  function WholeEvents(json: Json, stream: Bytes): seq<Sent> {
    var d := Drain(stream);
    EventsOf(json, d.frames) + (if d.rest == [] then [] else EventOf(json, d.rest))
  }

  /** What the receiver should send, as a function of the bytes that arrived and of how they ended. */
  function Expected(json: Json, chunks: seq<Chunk>): seq<Sent> {
    var n := Arrived(chunks);
    var stream := Joined(chunks[..n]);
    if n < |chunks| then EventsOf(json, Drain(stream).frames) + [Failure(chunks[n].error)]
    else WholeEvents(json, stream) + [Success(Done)]
  }

  /** Cut the first frame off the buffer, with its delimiter. */
  method CutFrame(buffered: Bytes, end: nat) returns (frame: Bytes, buf: Bytes)
    requires EndsFrame(buffered, end)
    ensures frame == buffered[..end] && buf == AfterFrame(buffered, end)
  {
    frame, buf := buffered[..end], buffered[end..];
    if |buf| >= 4 && buf[0] == CR && buf[1] == LF && buf[2] == CR && buf[3] == LF {
      assert LongDelimiterAt(buffered, end);
      buf := buf[4..];
    } else if |buf| >= 2 && buf[0] == LF && buf[1] == LF {
      assert !LongDelimiterAt(buffered, end);
      buf := buf[2..];
    } else {
      assert false;  // a frame end is always followed by one of the delimiters
    }
  }

  /** What a buffer's first frame contributes to its events. */
  lemma {:induction false} DrainEvents(json: Json, buf: Bytes, end: nat)
    requires EndsFrame(buf, end)
    ensures var later := Drain(AfterFrame(buf, end));
      Drain(buf).rest == later.rest
      && EventsOf(json, Drain(buf).frames) == EventOf(json, buf[..end]) + EventsOf(json, later.frames)
  {
    FrameEndUnique(buf, end);
    var later := Drain(AfterFrame(buf, end));
    assert ([buf[..end]] + later.frames)[1..] == later.frames;
  }

  /** The inner loop: take every complete frame out of the buffer. */
  method TakeFrames(json: Json, sentBefore: seq<Sent>, buffered: Bytes) returns (sent: seq<Sent>, buf: Bytes)
    ensures buf == Drain(buffered).rest
    ensures sent == sentBefore + EventsOf(json, Drain(buffered).frames)
  {
    sent, buf := sentBefore, buffered;
    ghost var all := sentBefore + EventsOf(json, Drain(buffered).frames);
    while true
      invariant Drain(buf).rest == Drain(buffered).rest
      invariant sent + EventsOf(json, Drain(buf).frames) == all
      decreases |buf|
    {
      var end := FindFrameEnd(buf);
      if end.None? {
        assert sent + [] == sent;
        break;
      }
      DrainEvents(json, buf, end.value);
      ghost var before := sent;
      var frame;
      frame, buf := CutFrame(buf, end.value);
      sent := SendParsed(json, sent, frame);
      AppendAssoc(before, EventOf(json, frame), EventsOf(json, Drain(buf).frames));
    }
  }

  /** Parse a frame and send its event, if it holds one. */
  method SendParsed(json: Json, sentBefore: seq<Sent>, frame: Bytes) returns (sent: seq<Sent>)
    ensures sent == sentBefore + EventOf(json, frame)
  {
    sent := sentBefore;
    var event := ParseFrame(json, frame);
    if event.Some? {
      sent := sent + [Success(event.value)];
    }
  }

  /** What one more chunk adds. */
  lemma {:induction false} JoinedDrain(json: Json, chunks: seq<Chunk>, i: nat)
    requires i < |chunks| && forall j :: 0 <= j <= i ==> chunks[j].Data?
    ensures var before, after := Drain(Joined(chunks[..i])), Drain(Joined(chunks[..i + 1]));
      var d := Drain(before.rest + chunks[i].bytes);
      after.rest == d.rest
      && EventsOf(json, after.frames) == EventsOf(json, before.frames) + EventsOf(json, d.frames)
  {
    var stream := Joined(chunks[..i]);
    assert chunks[..i + 1][..i] == chunks[..i];
    DrainConcat(stream, chunks[i].bytes);
    EventsConcat(json, Drain(stream).frames, Drain(Drain(stream).rest + chunks[i].bytes).frames);
  }

  /** How the receiver ends, once its bytes are drained. */
  lemma {:induction false} ExpectedEnd(json: Json, chunks: seq<Chunk>, i: nat)
    requires i == Arrived(chunks)
    ensures var d := Drain(Joined(chunks[..i]));
      Expected(json, chunks)
      == if i < |chunks| then EventsOf(json, d.frames) + [Failure(chunks[i].error)]
         else if d.rest == [] then EventsOf(json, d.frames) + [Success(Done)]
         else EventsOf(json, d.frames) + EventOf(json, d.rest) + [Success(Done)]
  {
    if i == |chunks| {
      var d := Drain(Joined(chunks[..i]));
      if d.rest == [] {
        assert EventsOf(json, d.frames) + [] == EventsOf(json, d.frames);
      }
    }
  }

  method Receive(json: Json, chunks: seq<Chunk>) returns (sent: seq<Sent>)
    ensures sent == Expected(json, chunks)
  {
    sent := [];
    var buf: Bytes := [];
    ghost var n := Arrived(chunks);
    for i := 0 to |chunks|
      invariant i <= n
      invariant buf == Drain(Joined(chunks[..i])).rest
      invariant sent == EventsOf(json, Drain(Joined(chunks[..i])).frames)
    {
      var chunk := chunks[i];
      if chunk.Broken? {
        ExpectedEnd(json, chunks, i);
        sent := sent + [Failure(chunk.error)];
        return;
      }
      JoinedDrain(json, chunks, i);
      buf := buf + chunk.bytes;
      sent, buf := TakeFrames(json, sent, buf);
    }
    ExpectedEnd(json, chunks, |chunks|);
    if buf != [] {
      sent := SendParsed(json, sent, buf);
    }
    sent := sent + [Success(Done)];
  }

  /**
   * Chunk invariance: however a byte stream is cut, the same events are sent, and they are those
   * of decoding the stream in one piece.
   */
  lemma {:induction false} ChunkInvariance(json: Json, a: seq<Chunk>, b: seq<Chunk>)
    requires Arrived(a) == |a| && Arrived(b) == |b| && Joined(a) == Joined(b)
    ensures Expected(json, a) == Expected(json, b) == WholeEvents(json, Joined(a)) + [Success(Done)]
  {
    assert a[..|a|] == a && b[..|b|] == b;
  }
}
