/**
 * Which decided changes in light reach the machine: the parser, the throttle and the keepalive
 * together, with other sources in between.
 */
module LightReports {
  import opened LightSensor
  import opened Wrappers

  const LIGHT_SOURCE := "light"

  /** A light reading, a reading of another source, or a turn of the keepalive. */
  datatype Moment = Sampled(sample: Sample) | Elsewhere(offer: Offer) | Tick

  /** Nothing else reports under the light's name. */
  predicate Proper(ms: seq<Moment>) {
    forall i :: 0 <= i < |ms| && ms[i].Elsewhere? ==> ms[i].offer.source != LIGHT_SOURCE
  }

  datatype Sensor = Sensor(memory: Memory, reported: Reported)

  function LightOffer(memory: Memory, s: Sample): Offer {
    Offer(LIGHT_SOURCE, Light(Next(memory, s).changing, s.lux), s.at)
  }

  function Offering(reported: Reported, o: Offer): map<string, Value> {
    if Sends(reported, o) then map[o.source := o.value] else map[]
  }

  function Handled(st: Sensor, m: Moment): Sensor {
    match m
    case Sampled(s) => Sensor(Next(st.memory, s).memory, Offered(st.reported, LightOffer(st.memory, s)))
    case Elsewhere(o) => st.(reported := Offered(st.reported, o))
    case Tick => st
  }

  /** What the machine is sent. */
  function Reports(st: Sensor, m: Moment): map<string, Value> {
    match m
    case Sampled(s) => Offering(st.reported, LightOffer(st.memory, s))
    case Elsewhere(o) => Offering(st.reported, o)
    case Tick => st.reported.last
  }

  class Daemon {
    const parser: ParserState
    const reporter: Reporter

    function State(): Sensor
      reads this, parser, reporter
    {
      Sensor(parser.State(), reporter.State())
    }

    constructor ()
      ensures fresh(parser) && fresh(reporter) && State() == Sensor(NO_MEMORY, NOTHING_REPORTED)
    {
      parser := new ParserState();
      reporter := new Reporter();
    }

    method Handle(m: Moment) returns (reports: map<string, Value>)
      modifies parser, reporter
      ensures State() == Handled(old(State()), m) && reports == Reports(old(State()), m)
    {
      match m {
        case Sampled(s) =>
          var changing := parser.ParseLight(Some(s.lux), s.at);
          var value := Light(changing.value, s.lux);
          var sent := reporter.Submit(Offer(LIGHT_SOURCE, value, s.at));
          reports := if sent then map[LIGHT_SOURCE := value] else map[];
        case Elsewhere(o) =>
          var sent := reporter.Submit(o);
          reports := if sent then map[o.source := o.value] else map[];
        case Tick =>
          reports := reporter.KeepAlive();
      }
    }
  }

  // ---- whole runs --------------------------------------------------------------------------

  function Before(ms: seq<Moment>, n: nat): Sensor
    requires n <= |ms|
  {
    if n == 0 then Sensor(NO_MEMORY, NOTHING_REPORTED) else Handled(Before(ms, n - 1), ms[n - 1])
  }

  function SentAtMoment(ms: seq<Moment>, n: nat): map<string, Value>
    requires n < |ms|
  {
    Reports(Before(ms, n), ms[n])
  }

  /** The value a moment offers for a source, if it does. */
  function OfferedFor(ms: seq<Moment>, n: nat, source: string): Option<Offer>
    requires n < |ms|
  {
    match ms[n]
    case Sampled(s) => if source == LIGHT_SOURCE then Some(LightOffer(Before(ms, n).memory, s)) else None
    case Elsewhere(o) => if source == o.source then Some(o) else None
    case Tick => None
  }

  predicate NoOfferFor(ms: seq<Moment>, source: string, from: nat, to: nat)
    requires to <= |ms|
  {
    forall i | from <= i < to :: OfferedFor(ms, i, source).None?
  }

  predicate TickIn(ms: seq<Moment>, from: nat, to: nat)
    requires to <= |ms|
  {
    exists i | from <= i < to :: ms[i].Tick?
  }

  predicate Carries(reports: map<string, Value>, source: string, value: Value) {
    source in reports && reports[source] == value
  }

  /** An offered value is remembered until the source offers again. */
  lemma {:induction false} OfferIsRemembered(ms: seq<Moment>, source: string, k: nat, n: nat)
    requires k < n <= |ms| && OfferedFor(ms, k, source).Some? && NoOfferFor(ms, source, k + 1, n)
    ensures Carries(Before(ms, n).reported.last, source, OfferedFor(ms, k, source).value.value)
    decreases n
  {
    if n == k + 1 {
    } else {
      OfferIsRemembered(ms, source, k, n - 1);
      assert OfferedFor(ms, n - 1, source).None?;
    }
  }

  /**
   * Until its source offers again, a value goes out exactly when the throttle lets the offer
   * through or the keepalive turns in between.
   */
  lemma {:induction false} OfferGoesOutIff(ms: seq<Moment>, source: string, k: nat, n: nat)
    requires k < n <= |ms| && OfferedFor(ms, k, source).Some? && NoOfferFor(ms, source, k + 1, n)
    ensures var o := OfferedFor(ms, k, source).value;
      (exists i | k <= i < n :: Carries(SentAtMoment(ms, i), source, o.value))
      <==> Sends(Before(ms, k).reported, o) || TickIn(ms, k + 1, n)
  {
    var o := OfferedFor(ms, k, source).value;
    assert o.source == source;
    forall i | k < i < n
      ensures Carries(SentAtMoment(ms, i), source, o.value) <==> ms[i].Tick?
    {
      OfferIsRemembered(ms, source, k, i);
      assert OfferedFor(ms, i, source).None?;
    }
    assert Carries(SentAtMoment(ms, k), source, o.value) <==> Sends(Before(ms, k).reported, o);
    if TickIn(ms, k + 1, n) {
      var i :| k + 1 <= i < n && ms[i].Tick?;
      assert Carries(SentAtMoment(ms, i), source, o.value);
    }
  }

  // ---- decided changes ---------------------------------------------------------------------

  /** Is this moment a light reading that the parser takes for a change? */
  predicate Decided(ms: seq<Moment>, n: nat)
    requires n < |ms|
  {
    ms[n].Sampled? && Next(Before(ms, n).memory, ms[n].sample).changing
  }

  /** The light readings among the first `n` moments. */
  function Samples(ms: seq<Moment>, n: nat): seq<Sample>
    requires n <= |ms|
  {
    if n == 0 then []
    else Samples(ms, n - 1) + if ms[n - 1].Sampled? then [ms[n - 1].sample] else []
  }

  lemma {:induction false} AfterPrefix(a: seq<Sample>, b: seq<Sample>, n: nat)
    requires n <= |a| <= |b| && a == b[..|a|]
    ensures After(a, n) == After(b, n)
  {
    if n == 0 {
    } else {
      AfterPrefix(a, b, n - 1);
    }
  }

  function Memorized(a: seq<Sample>): Memory {
    After(a, |a|)
  }

  lemma {:induction false} AfterSnoc(a: seq<Sample>, s: Sample)
    ensures Memorized(a + [s]) == Next(Memorized(a), s).memory
  {
    AfterPrefix(a, a + [s], |a|);
  }

  lemma {:induction false} MemoryStep(ms: seq<Moment>, n: nat)
    requires n < |ms|
    ensures Before(ms, n + 1).memory
      == if ms[n].Sampled? then Next(Before(ms, n).memory, ms[n].sample).memory else Before(ms, n).memory
  {
  }

  lemma {:induction false} SamplesStep(ms: seq<Moment>, n: nat)
    requires n < |ms|
    ensures Samples(ms, n + 1) == if ms[n].Sampled? then Samples(ms, n) + [ms[n].sample] else Samples(ms, n)
  {
  }

  /** The parser sees the light readings and nothing else. */
  lemma {:induction false} MemoryIsParsers(ms: seq<Moment>, n: nat)
    requires n <= |ms|
    ensures Before(ms, n).memory == Memorized(Samples(ms, n))
  {
    if n == 0 {
    } else {
      MemoryIsParsers(ms, n - 1);
      MemoryStep(ms, n - 1);
      SamplesStep(ms, n - 1);
      if ms[n - 1].Sampled? {
        AfterSnoc(Samples(ms, n - 1), ms[n - 1].sample);
      }
    }
  }

  /** So what is decided is what the debounce means, whatever else the daemon is doing. */
  lemma {:induction false} DecidedIffChange(ms: seq<Moment>, n: nat)
    requires n < |ms| && ms[n].Sampled? && InOrder(Samples(ms, n + 1))
    ensures var ss := Samples(ms, n + 1);
      |ss| > 0 && (Decided(ms, n) <==> IsChange(ss, |ss| - 1))
  {
    var before, ss := Samples(ms, n), Samples(ms, n + 1);
    MemoryIsParsers(ms, n);
    AfterPrefix(before, ss, |before|);
    DebounceMeaning(ss, |before|);
  }

  /** The last light reading before moment `n`. */
  function LastSample(ms: seq<Moment>, n: nat): (p: Option<nat>)
    requires n <= |ms|
    ensures p.Some? ==> p.value < n && ms[p.value].Sampled?
  {
    if n == 0 then None else if ms[n - 1].Sampled? then Some(n - 1) else LastSample(ms, n - 1)
  }

  /** The last light reading the read loop reported before moment `n`. */
  function LastReported(ms: seq<Moment>, n: nat): (p: Option<nat>)
    requires n <= |ms|
    ensures p.Some? ==> p.value < n && ms[p.value].Sampled?
  {
    if n == 0 then None
    else if ms[n - 1].Sampled? && LIGHT_SOURCE in SentAtMoment(ms, n - 1) then Some(n - 1)
    else LastReported(ms, n - 1)
  }

  /** What the maps hold for the light. */
  lemma {:induction false} LightIsRemembered(ms: seq<Moment>, n: nat)
    requires n <= |ms| && Proper(ms)
    ensures var r, p, s := Before(ms, n).reported, LastSample(ms, n), LastReported(ms, n);
      (LIGHT_SOURCE in r.last <==> p.Some?)
      && (p.Some? ==> r.last[LIGHT_SOURCE] == Light(Decided(ms, p.value), ms[p.value].sample.lux))
      && (LIGHT_SOURCE in r.lastSent <==> s.Some?)
      && (s.Some? ==> r.lastSent[LIGHT_SOURCE] == ms[s.value].sample.at)
  {
    if n == 0 {
    } else {
      LightIsRemembered(ms, n - 1);
    }
  }

  lemma {:induction false} SampleIsReported(ms: seq<Moment>, n: nat)
    requires n <= |ms| && Proper(ms)
    ensures LastSample(ms, n).Some? ==> LastReported(ms, n).Some?
  {
    if n == 0 {
    } else {
      SampleIsReported(ms, n - 1);
      LightIsRemembered(ms, n - 1);
    }
  }

  /** After a decided change the parser starts afresh, so the next reading is none. */
  lemma {:induction false} DecidedIsIsolated(ms: seq<Moment>, n: nat)
    requires n <= |ms| && LastSample(ms, n).Some?
    ensures Before(ms, n).memory.lastLux.Some?
    ensures Decided(ms, LastSample(ms, n).value) ==> Before(ms, n).memory.pendingSince.None?
  {
    if ms[n - 1].Sampled? {
    } else {
      DecidedIsIsolated(ms, n - 1);
    }
  }

  lemma {:induction false} DecidedNeedsSample(ms: seq<Moment>, n: nat)
    requires n <= |ms| && LastSample(ms, n).None?
    ensures Before(ms, n).memory == NO_MEMORY
  {
    if n == 0 {
    } else {
      DecidedNeedsSample(ms, n - 1);
    }
  }

  /** Is the machine told of a change? */
  predicate Flags(reports: map<string, Value>) {
    LIGHT_SOURCE in reports && reports[LIGHT_SOURCE].Light? && reports[LIGHT_SOURCE].changing
  }

  /** The throttle lets a decided change through exactly when the interval has passed. */
  lemma {:induction false} DecidedIsSentIff(ms: seq<Moment>, k: nat)
    requires k < |ms| && Proper(ms) && Decided(ms, k)
    ensures var s := LastReported(ms, k);
      s.Some? && (Flags(SentAtMoment(ms, k)) <==> ms[k].sample.at - ms[s.value].sample.at >= MIN_REPORT_INTERVAL)
  {
    if LastSample(ms, k).None? {
      DecidedNeedsSample(ms, k);
    } else {
      DecidedIsIsolated(ms, k);
      LightIsRemembered(ms, k);
      SampleIsReported(ms, k);
    }
  }

  predicate NoSample(ms: seq<Moment>, from: nat, to: nat)
    requires to <= |ms|
  {
    forall i | from <= i < to :: !ms[i].Sampled?
  }

  lemma {:induction false} LastSampleIs(ms: seq<Moment>, k: nat, n: nat)
    requires k < n <= |ms| && ms[k].Sampled?
    ensures LastSample(ms, n).Some? && k <= LastSample(ms, n).value
    ensures LastSample(ms, n) == Some(k) <==> NoSample(ms, k + 1, n)
  {
    if n == k + 1 {
    } else {
      LastSampleIs(ms, k, n - 1);
      assert NoSample(ms, k + 1, n) <==> NoSample(ms, k + 1, n - 1) && !ms[n - 1].Sampled?;
    }
  }

  /** Before the next change is decided, only the keepalive tells of this one, until the next reading. */
  lemma {:induction false} LaterFlagIff(ms: seq<Moment>, k: nat, i: nat)
    requires k < i < |ms| && Proper(ms) && Decided(ms, k) && forall j | k < j <= i :: !Decided(ms, j)
    ensures Flags(SentAtMoment(ms, i)) <==> ms[i].Tick? && NoSample(ms, k + 1, i)
  {
    LastSampleIs(ms, k, i);
    LightIsRemembered(ms, i);
    match ms[i] {
      case Sampled(_) =>
        assert !Decided(ms, i);
      case Elsewhere(o) =>
        assert o.source != LIGHT_SOURCE;
      case Tick =>
        var p := LastSample(ms, i).value;
        assert p != k ==> !Decided(ms, p);
    }
  }

  /**
   * Whether a decided change reaches the machine. Up to the next decided change, some report says
   * so exactly when the interval since the last light report had passed, or the keepalive turned
   * before the next light reading.
   */
  lemma {:induction false} ChangeReachesIff(ms: seq<Moment>, k: nat, n: nat)
    requires k < n <= |ms| && Proper(ms) && Decided(ms, k) && forall j | k < j < n :: !Decided(ms, j)
    ensures var s := LastReported(ms, k);
      s.Some?
      && ((exists i | k <= i < n :: Flags(SentAtMoment(ms, i)))
          <==> ms[k].sample.at - ms[s.value].sample.at >= MIN_REPORT_INTERVAL
               || exists i | k < i < n :: ms[i].Tick? && NoSample(ms, k + 1, i))
  {
    DecidedIsSentIff(ms, k);
    forall i | k < i < n ensures Flags(SentAtMoment(ms, i)) <==> ms[i].Tick? && NoSample(ms, k + 1, i) {
      LaterFlagIff(ms, k, i);
    }
    var sent := Flags(SentAtMoment(ms, k));
    if exists i | k < i < n :: ms[i].Tick? && NoSample(ms, k + 1, i) {
      var i :| k < i < n && ms[i].Tick? && NoSample(ms, k + 1, i);
      assert Flags(SentAtMoment(ms, i));
    }
    if exists i | k <= i < n :: Flags(SentAtMoment(ms, i)) {
      var i :| k <= i < n && Flags(SentAtMoment(ms, i));
      assert i == k || (ms[i].Tick? && NoSample(ms, k + 1, i));
    }
  }

  // ---- a change that is lost ---------------------------------------------------------------

  /** Readings over three seconds, less than the keepalive's thirty. */
  const DROPPED := [
    Sampled(Sample(0.0, 0)), Sampled(Sample(100.0, 1000)), Sampled(Sample(120.0, 2900)),
    Sampled(Sample(130.0, 3000)), Sampled(Sample(131.0, 3125))]

  lemma {:induction false} DroppedMemory(ms: seq<Moment>)
    requires |ms| >= 5 && ms[..5] == DROPPED
    ensures Before(ms, 1).memory == Memory(Some(0.0), None, false)
    ensures Before(ms, 2).memory == Memory(Some(0.0), Some(1000), true)
    ensures Before(ms, 3).memory == Memory(Some(0.0), Some(1000), true)
    ensures Before(ms, 4).memory == Memory(Some(130.0), None, true)
    ensures Decided(ms, 3) && !Decided(ms, 0) && !Decided(ms, 1) && !Decided(ms, 2) && !Decided(ms, 4)
  {
    assert ms[0] == DROPPED[0] && ms[1] == DROPPED[1] && ms[2] == DROPPED[2];
    assert ms[3] == DROPPED[3] && ms[4] == DROPPED[4];
  }

  /**
   * The fourth of these readings is a change; it is dropped, and whatever follows, no report tells
   * of it.
   */
  lemma {:induction false} ChangeIsLost(ms: seq<Moment>, n: nat)
    requires 5 <= n <= |ms| && ms[..5] == DROPPED && Proper(ms)
    requires forall j | 5 <= j < n :: !Decided(ms, j)
    ensures Decided(ms, 3) && forall i | 3 <= i < n :: !Flags(SentAtMoment(ms, i))
  {
    FourthIsDecided(ms);
    ChangeReachesIff(ms, 3, n);
    ThirdIsReported(ms);
    assert forall i | 4 < i < n :: !NoSample(ms, 4, i) by {
      assert ms[4].Sampled?;
    }
  }

  lemma {:induction false} FourthIsDecided(ms: seq<Moment>)
    requires |ms| >= 5 && ms[..5] == DROPPED
    ensures Decided(ms, 3) && !Decided(ms, 4)
    ensures ms[2].Sampled? && ms[4].Sampled? && ms[3].sample.at - ms[2].sample.at < MIN_REPORT_INTERVAL
  {
    DroppedMemory(ms);
    assert ms[2] == DROPPED[2] && ms[3] == DROPPED[3] && ms[4] == DROPPED[4];
  }

  lemma {:induction false} ThirdIsReported(ms: seq<Moment>)
    requires |ms| >= 5 && ms[..5] == DROPPED && Proper(ms)
    ensures LastReported(ms, 3) == Some(2)
  {
    assert ms[0] == DROPPED[0] && ms[1] == DROPPED[1] && ms[2] == DROPPED[2];
    DroppedMemory(ms);
    assert LastSample(ms, 2) == Some(1);
    LightIsRemembered(ms, 2);
    SampleIsReported(ms, 2);
  }
}
