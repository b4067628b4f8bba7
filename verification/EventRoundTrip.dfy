/**
 * End to end: events mapped to the wire, framed, cut into chunks and decoded again. Framing
 * follows section 9.2.6 of the WHATWG HTML Standard, as far as the server uses it.
 */
module EventRoundTrip {
  import opened Wrappers
  import opened Utf8
  import opened Events
  import opened EventStream

  /** What the codec owes one event: a one-line object that decodes back to it. */
  predicate Faithful(json: Json, w: StreamEvent) {
    var text := json.encode(w);
    json.decode(text) == Some(w) && text != "" && text[0] == '{' && NoBreaks(text)
  }

  function EventLine(w: StreamEvent): string {
    "event: " + MessageType(w)
  }

  function DataLine(json: Json, w: StreamEvent): string {
    "data: " + json.encode(w)
  }

  /** One frame as the server writes it, without the blank line that ends it. */
  function FrameBody(json: Json, w: StreamEvent): string {
    EventLine(w) + "\n" + DataLine(json, w)
  }

  function FrameBytes(json: Json, e: BackendEvent): Bytes {
    Encode(FrameBody(json, ToWire(e)) + "\n\n")
  }

  /** The byte stream the server writes for a list of events. */
  function StreamOf(json: Json, es: seq<BackendEvent>): Bytes {
    if es == [] then [] else FrameBytes(json, es[0]) + StreamOf(json, es[1..])
  }

  function AllSent(es: seq<BackendEvent>): (sent: seq<Sent>)
    ensures |sent| == |es|
    ensures forall i :: 0 <= i < |es| ==> sent[i] == Success(es[i])
  {
    seq(|es|, i requires 0 <= i < |es| => Success(es[i]))
  }

  // ---- parsing one frame back --------------------------------------------------------------

  lemma {:induction false} LinesOfLine(s: string)
    requires forall i :: 0 <= i < |s| ==> s[i] != '\n'
    ensures Lines(s) == [s]
  {
    if s == "" {
    } else {
      LinesOfLine(s[1..]);
      assert [s[0]] + s[1..] == s;
    }
  }

  lemma {:induction false} LinesOfTwo(a: string, b: string)
    requires forall i :: 0 <= i < |a| ==> a[i] != '\n'
    requires forall i :: 0 <= i < |b| ==> b[i] != '\n'
    ensures Lines(a + "\n" + b) == [a, b]
  {
    var s := a + "\n" + b;
    if a == "" {
      assert s[1..] == b;
      LinesOfLine(b);
    } else {
      assert s[1..] == a[1..] + "\n" + b;
      LinesOfTwo(a[1..], b);
      assert [a[0]] + a[1..] == a;
    }
  }

  lemma {:induction false} MessageNamesHaveNoBreaks()
    ensures NoBreaks("message") && NoBreaks("reasoning") && NoBreaks("tool_call") && NoBreaks("tool_return")
    ensures NoBreaks("error") && NoBreaks("done") && NoBreaks("ping")
  {
  }

  lemma {:induction false} OwnNamesHaveNoBreaks()
    ensures NoBreaks("souveraine_surfacing") && NoBreaks("souveraine_reflection")
    ensures NoBreaks("souveraine_archivist")
    ensures NoBreaks("atmosphere") && NoBreaks("itinerary") && NoBreaks("outfit") && NoBreaks("interstitial")
  {
  }

  lemma {:induction false} StatusNamesHaveNoBreaks()
    ensures NoBreaks("compaction_warning") && NoBreaks("context_pressure") && NoBreaks("inference_strain")
    ensures NoBreaks("schedule_active") && NoBreaks("schedule_complete") && NoBreaks("primary_complete")
  {
  }

  lemma {:induction false} SubconsciousNamesHaveNoBreaks()
    ensures NoBreaks("subconscious_token") && NoBreaks("subconscious_tool_call")
    ensures NoBreaks("subconscious_tool_result") && NoBreaks("subconscious_halt")
    ensures NoBreaks("subconscious_pass")
  {
  }

  lemma {:induction false} NameHasNoBreaks(w: StreamEvent)
    ensures NoBreaks(MessageType(w))
  {
    MessageNamesHaveNoBreaks();
    OwnNamesHaveNoBreaks();
    StatusNamesHaveNoBreaks();
    SubconsciousNamesHaveNoBreaks();
  }

  lemma {:induction false} TrimEndKeeps(s: string)
    requires NoBreaks(s)
    ensures TrimEndCr(s) == s
  {
    if s != "" {
      assert s[|s| - 1] != '\r';
    }
  }

  lemma {:induction false} EventLineAddsNothing(w: StreamEvent)
    ensures NoBreaks(EventLine(w))
    ensures AddLine("", EventLine(w)) == ""
  {
    NameHasNoBreaks(w);
    TrimEndKeeps(EventLine(w));
    assert EventLine(w)[0] == 'e' && DATA_FIELD[0] == 'd';
  }

  lemma {:induction false} DataLineAddsEncoding(json: Json, w: StreamEvent)
    requires Faithful(json, w)
    ensures AddLine("", DataLine(json, w)) == json.encode(w)
    ensures NoBreaks(DataLine(json, w))
  {
    var text, line := json.encode(w), DataLine(json, w);
    TrimEndKeeps(line);
    var value := line[|DATA_FIELD|..];
    assert value == " " + text;
    assert value[1..] == text;
    assert TrimStart(value) == TrimStart(text) == text;
  }

  lemma {:induction false} DataOfTwo(a: string, b: string)
    ensures DataOf([a, b]) == AddLine(AddLine("", a), b)
  {
    assert [a, b][..1] == [a];
    assert [a][..0] == [];
    assert DataOf([a]) == AddLine("", a);
    assert DataOf([a, b]) == AddLine(DataOf([a]), b);
  }

  lemma {:induction false} FrameParsesBack(json: Json, w: StreamEvent)
    requires Faithful(json, w)
    ensures Parsed(json, Encode(FrameBody(json, w))) == Some(FromWire(w))
  {
    DecodeEncode(FrameBody(json, w));
    EventLineAddsNothing(w);
    DataLineAddsEncoding(json, w);
    LinesOfTwo(EventLine(w), DataLine(json, w));
    DataOfTwo(EventLine(w), DataLine(json, w));
  }

  // ---- finding the frame in the stream -----------------------------------------------------

  /** Two lines without breaks, then a blank line: the frame ends at the blank line. */
  lemma {:induction false} BlankLineEndsFrame(a: Bytes, b: Bytes, rest: Bytes)
    requires NoBreakBytes(a) && NoBreakBytes(b) && b != []
    ensures var body := a + [LF] + b;
      var buf := body + [LF, LF] + rest;
      FrameEnd(buf) == Some(|body|) && buf[..|body|] == body && AfterFrame(buf, |body|) == rest
  {
    var body := a + [LF] + b;
    var buf := body + [LF, LF] + rest;
    assert buf[|body|] == LF && buf[|body| + 1] == LF;
    forall j | 0 <= j < |body| ensures !DelimiterAt(buf, j) {
      assert buf[j] == body[j];
      assert buf[j] == LF ==> j == |a|;
      if j == |a| {
        assert buf[j + 1] == b[0];
      }
    }
    FrameEndUnique(buf, |body|);
  }

  lemma {:induction false} DrainFrame(json: Json, e: BackendEvent, rest: Bytes)
    requires Faithful(json, ToWire(e))
    ensures Drain(FrameBytes(json, e) + rest) == Cons(Encode(FrameBody(json, ToWire(e))), Drain(rest))
  {
    var w := ToWire(e);
    var a, b := Encode(EventLine(w)), Encode(DataLine(json, w));
    EventLineAddsNothing(w);
    DataLineAddsEncoding(json, w);
    EncodeNoBreaks(EventLine(w));
    EncodeNoBreaks(DataLine(json, w));
    EncodeConcat(EventLine(w) + "\n", DataLine(json, w));
    EncodeConcat(EventLine(w), "\n");
    EncodeConcat(FrameBody(json, w), "\n\n");
    EncodeLineFeeds();
    assert Encode(FrameBody(json, w)) == a + [LF] + b;
    BlankLineEndsFrame(a, b, rest);
  }

  lemma {:induction false} EncodeLineFeeds()
    ensures Encode("\n") == [LF] && Encode("\n\n") == [LF, LF]
  {
    assert "\n"[1..] == "" && "\n\n"[1..] == "\n";
  }

  lemma {:induction false} FrameSends(json: Json, e: BackendEvent)
    requires Faithful(json, ToWire(e))
    ensures EventOf(json, Encode(FrameBody(json, ToWire(e)))) == [Success(e)]
  {
    FrameParsesBack(json, ToWire(e));
    WireRoundTrip(e);
  }

  lemma {:induction false} ConsEvents(json: Json, frame: Bytes, later: Drained)
    ensures EventsOf(json, Cons(frame, later).frames) == EventOf(json, frame) + EventsOf(json, later.frames)
  {
    assert ([frame] + later.frames)[1..] == later.frames;
  }

  lemma {:induction false} FrameStep(json: Json, e: BackendEvent, rest: Bytes)
    requires Faithful(json, ToWire(e))
    ensures var d := Drain(FrameBytes(json, e) + rest);
      d.rest == Drain(rest).rest
      && EventsOf(json, d.frames) == [Success(e)] + EventsOf(json, Drain(rest).frames)
  {
    DrainFrame(json, e, rest);
    FrameSends(json, e);
    ConsEvents(json, Encode(FrameBody(json, ToWire(e))), Drain(rest));
  }

  lemma {:induction false} AllSentCons(es: seq<BackendEvent>)
    requires es != []
    ensures AllSent(es) == [Success(es[0])] + AllSent(es[1..])
  {
  }

  lemma {:induction false} StreamDrains(json: Json, es: seq<BackendEvent>)
    requires forall e :: e in es ==> Faithful(json, ToWire(e))
    ensures EventsOf(json, Drain(StreamOf(json, es)).frames) == AllSent(es)
    ensures Drain(StreamOf(json, es)).rest == []
  {
    if es == [] {
    } else {
      FrameStep(json, es[0], StreamOf(json, es[1..]));
      StreamDrains(json, es[1..]);
      AllSentCons(es);
    }
  }

  /**
   * The end-to-end round trip: whatever the events and however their stream is cut into chunks,
   * the receiver sends the same events, then one final Done.
   */
  lemma {:induction false} EndToEnd(json: Json, es: seq<BackendEvent>, chunks: seq<Chunk>)
    requires forall e :: e in es ==> Faithful(json, ToWire(e))
    requires Arrived(chunks) == |chunks| && Joined(chunks) == StreamOf(json, es)
    ensures Expected(json, chunks) == AllSent(es) + [Success(Done)]
  {
    StreamDrains(json, es);
    ChunkInvariance(json, chunks, chunks);
    assert AllSent(es) + [] == AllSent(es);
  }

  /** A stream that breaks off loses only what had not arrived: the events sent are the first ones. */
  lemma {:induction false} BrokenStreamSendsPrefix(json: Json, es: seq<BackendEvent>, chunks: seq<Chunk>)
    requires forall e :: e in es ==> Faithful(json, ToWire(e))
    requires Arrived(chunks) < |chunks| && Joined(chunks[..Arrived(chunks)]) <= StreamOf(json, es)
    ensures exists n | 0 <= n <= |es| ::
      Expected(json, chunks) == AllSent(es[..n]) + [Failure(chunks[Arrived(chunks)].error)]
  {
    var n := PrefixSends(json, es, Joined(chunks[..Arrived(chunks)]));
    assert Expected(json, chunks) == AllSent(es[..n]) + [Failure(chunks[Arrived(chunks)].error)];
  }

  lemma {:induction false} PrefixSends(json: Json, es: seq<BackendEvent>, got: Bytes) returns (n: nat)
    requires forall e :: e in es ==> Faithful(json, ToWire(e))
    requires got <= StreamOf(json, es)
    ensures n <= |es| && EventsOf(json, Drain(got).frames) == AllSent(es[..n])
  {
    n := |EventsOf(json, Drain(got).frames)|;
    var missing := StreamOf(json, es)[|got|..];
    assert got + missing == StreamOf(json, es);
    StreamDrains(json, es);
    DrainSplit(json, got, missing);
    SentPrefix(es, EventsOf(json, Drain(got).frames), EventsOf(json, Drain(Drain(got).rest + missing).frames));
  }

  lemma {:induction false} DrainSplit(json: Json, a: Bytes, b: Bytes)
    ensures EventsOf(json, Drain(a + b).frames)
        == EventsOf(json, Drain(a).frames) + EventsOf(json, Drain(Drain(a).rest + b).frames)
  {
    DrainConcat(a, b);
    EventsConcat(json, Drain(a).frames, Drain(Drain(a).rest + b).frames);
  }

  lemma {:induction false} SentPrefix(es: seq<BackendEvent>, sent: seq<Sent>, later: seq<Sent>)
    requires sent + later == AllSent(es)
    ensures |sent| <= |es| && sent == AllSent(es[..|sent|])
  {
    assert |sent + later| == |es|;
    assert forall i :: 0 <= i < |sent| ==> sent[i] == (sent + later)[i];
  }
}
