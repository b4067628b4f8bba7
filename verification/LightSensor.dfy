/**
 * The light sensor's debounced edge and the reporter's throttle. Times are in milliseconds.
 */
module LightSensor {
  import opened Wrappers

  const LIGHT_CHANGE_LUX := 15.0
  const LIGHT_BRIGHTENING_DEBOUNCE: nat := 2000
  const LIGHT_DARKENING_DEBOUNCE: nat := 4000

  datatype Sample = Sample(lux: real, at: nat)

  /** Where a level stands with respect to a reference. */
  datatype Side = Inside | Brighter | Darker

  function SideOf(lux: real, reference: real): Side {
    var delta := lux - reference;
    if -LIGHT_CHANGE_LUX <= delta <= LIGHT_CHANGE_LUX then Inside
    else if delta > 0.0 then Brighter else Darker
  }

  function Debounce(side: Side): nat {
    if side.Brighter? then LIGHT_BRIGHTENING_DEBOUNCE else LIGHT_DARKENING_DEBOUNCE
  }

  /** The parser's memory: the level last reported, and the excursion under way. */
  datatype Memory = Memory(lastLux: Option<real>, pendingSince: Option<nat>, pendingBrightening: bool)

  const NO_MEMORY := Memory(None, None, false)

  class ParserState {
    var lastLux: Option<real>
    var pendingSince: Option<nat>
    var pendingBrightening: bool

    function State(): Memory
      reads this
    {
      Memory(lastLux, pendingSince, pendingBrightening)
    }

    constructor ()
      ensures State() == NO_MEMORY
    {
      lastLux, pendingSince, pendingBrightening := None, None, false;
    }

    /** One parsed reading; a line without a number is not one. */
    method ParseLight(reading: Option<real>, now: nat) returns (changing: Option<bool>)
      modifies this
      ensures reading.None? ==> changing.None? && State() == old(State())
      ensures reading.Some? ==>
        var r := Next(old(State()), Sample(reading.value, now));
        State() == r.memory && changing == Some(r.changing)
    {
      if reading.None? {
        return None;
      }
      var lux := reading.value;
      match lastLux {
        case None =>
          lastLux := Some(lux);
          changing := Some(false);
        case Some(prev) =>
          var delta := lux - prev;
          if (if delta < 0.0 then -delta else delta) <= LIGHT_CHANGE_LUX {
            pendingSince := None;
            return Some(false);
          }
          var brightening := delta > 0.0;
          var needed := if brightening then LIGHT_BRIGHTENING_DEBOUNCE else LIGHT_DARKENING_DEBOUNCE;
          var continuing := pendingSince.Some? && pendingBrightening == brightening;
          if !continuing {
            pendingSince := Some(now);
            pendingBrightening := brightening;
            changing := Some(false);
          } else if now - pendingSince.value >= needed {
            lastLux := Some(lux);
            pendingSince := None;
            changing := Some(true);
          } else {
            changing := Some(false);
          }
      }
    }
  }

  datatype Reaction = Reaction(memory: Memory, changing: bool)

  /** What one sample does to the memory, and whether it is reported as a change. */
  function Next(m: Memory, s: Sample): Reaction {
    if m.lastLux.None? then Reaction(m.(lastLux := Some(s.lux)), false)
    else
      var side := SideOf(s.lux, m.lastLux.value);
      if side.Inside? then Reaction(m.(pendingSince := None), false)
      else if m.pendingSince.None? || m.pendingBrightening != side.Brighter? then
        Reaction(m.(pendingSince := Some(s.at), pendingBrightening := side.Brighter?), false)
      else if s.at - m.pendingSince.value >= Debounce(side) then
        Reaction(m.(lastLux := Some(s.lux), pendingSince := None), true)
      else Reaction(m, false)
  }

  /** The memory after the first `n` samples. */
  function After(ss: seq<Sample>, n: nat): Memory
    requires n <= |ss|
  {
    if n == 0 then NO_MEMORY else Next(After(ss, n - 1), ss[n - 1]).memory
  }

  predicate Changing(ss: seq<Sample>, n: nat)
    requires n < |ss|
  {
    Next(After(ss, n), ss[n]).changing
  }

  // ---- the same in terms of whole histories ------------------------------------------------

  predicate InOrder(ss: seq<Sample>) {
    forall i, j :: 0 <= i <= j < |ss| ==> ss[i].at <= ss[j].at
  }

  /** All samples from `from` to `to` lie on this side of sample `reference`. */
  predicate AllOn(ss: seq<Sample>, reference: nat, from: nat, to: nat, side: Side)
    requires reference < |ss| && to < |ss|
  {
    forall i :: from <= i <= to ==> SideOf(ss[i].lux, ss[reference].lux) == side
  }

  /** The samples since `from` have stayed on one side of the reference for its debounce. */
  predicate HeldSince(ss: seq<Sample>, reference: nat, from: nat, n: nat)
    requires reference < |ss| && from <= n < |ss|
  {
    var side := SideOf(ss[n].lux, ss[reference].lux);
    !side.Inside? && AllOn(ss, reference, from, n, side) && ss[n].at - ss[from].at >= Debounce(side)
  }

  /** The sample whose level was the last one reported before sample `n`, or the first sample. */
  function Reference(ss: seq<Sample>, n: nat): (r: nat)
    requires 0 < n <= |ss|
    ensures r < n
    decreases n, 0
  {
    if n == 1 then 0 else if IsChange(ss, n - 1) then n - 1 else Reference(ss, n - 1)
  }

  /** A sample is a change when a one-sided run since the last reference has lasted long enough. */
  predicate IsChange(ss: seq<Sample>, n: nat)
    requires n < |ss|
    decreases n, 1
  {
    n > 0
    && var r := Reference(ss, n);
       exists from | r < from <= n :: HeldSince(ss, r, from, n)
  }

  /**
   * What the memory stands for after `n` samples: the reference's level, and the start of the
   * longest one-sided run that ends at the last sample.
   */
  predicate MemoryMeans(ss: seq<Sample>, n: nat, start: nat)
    requires 0 < n <= |ss|
  {
    var m, r := After(ss, n), Reference(ss, n);
    m.lastLux == Some(ss[r].lux)
    && (if m.pendingSince.None? then r == n - 1 || SideOf(ss[n - 1].lux, ss[r].lux).Inside?
        else
          var side := if m.pendingBrightening then Brighter else Darker;
          r < start < n && m.pendingSince == Some(ss[start].at) && AllOn(ss, r, start, n - 1, side)
          && (start > r + 1 ==> SideOf(ss[start - 1].lux, ss[r].lux) != side))
  }

  /** In a history in time order, only the start of the longest run matters. */
  lemma {:induction false} LongestRunDecides(ss: seq<Sample>, r: nat, start: nat, n: nat, side: Side)
    requires InOrder(ss) && r < start <= n < |ss| && !side.Inside? && AllOn(ss, r, start, n, side)
    requires start > r + 1 ==> SideOf(ss[start - 1].lux, ss[r].lux) != side
    ensures (exists from | r < from <= n :: HeldSince(ss, r, from, n)) <==> ss[n].at - ss[start].at >= Debounce(side)
  {
    assert SideOf(ss[n].lux, ss[r].lux) == side;
    if ss[n].at - ss[start].at >= Debounce(side) {
      assert HeldSince(ss, r, start, n);
    }
    forall from | r < from <= n && HeldSince(ss, r, from, n)
      ensures ss[n].at - ss[start].at >= Debounce(side)
    {
      assert !(from < start);
      assert ss[start].at <= ss[from].at;
    }
  }

  lemma {:induction false} NoRunInside(ss: seq<Sample>, r: nat, n: nat)
    requires r < n < |ss| && SideOf(ss[n].lux, ss[r].lux).Inside?
    ensures !exists from | r < from <= n :: HeldSince(ss, r, from, n)
  {
  }

  /** One sample on: the flag is the declared one, and the memory keeps its meaning. */
  lemma {:induction false} NextMeans(ss: seq<Sample>, n: nat, start: nat) returns (start': nat)
    requires InOrder(ss) && 0 < n < |ss| && MemoryMeans(ss, n, start)
    ensures Changing(ss, n) <==> IsChange(ss, n)
    ensures MemoryMeans(ss, n + 1, start')
  {
    var m, r := After(ss, n), Reference(ss, n);
    var side := SideOf(ss[n].lux, ss[r].lux);
    start' := n;
    if side.Inside? {
      NoRunInside(ss, r, n);
    } else if m.pendingSince.None? || m.pendingBrightening != side.Brighter? {
      LongestRunDecides(ss, r, n, n, side);
    } else {
      start' := start;
      LongestRunDecides(ss, r, start, n, side);
    }
  }

  lemma {:induction false} AfterMeans(ss: seq<Sample>, n: nat) returns (start: nat)
    requires InOrder(ss) && 0 < n <= |ss|
    ensures MemoryMeans(ss, n, start)
  {
    if n == 1 {
      start := 0;
    } else {
      var before := AfterMeans(ss, n - 1);
      start := NextMeans(ss, n - 1, before);
    }
  }

  /** The debounce is its declarative meaning: every sample of every history in time order. */
  lemma {:induction false} DebounceMeaning(ss: seq<Sample>, n: nat)
    requires InOrder(ss) && n < |ss|
    ensures Changing(ss, n) <==> IsChange(ss, n)
  {
    if n > 0 {
      var start := AfterMeans(ss, n);
      var start' := NextMeans(ss, n, start);
    }
  }

  /** The remembered level is that of the first sample or of the last change, and nothing else. */
  lemma {:induction false} LevelMovesOnlyOnChange(ss: seq<Sample>, n: nat)
    requires InOrder(ss) && 0 < n < |ss|
    ensures After(ss, n).lastLux.Some?
    ensures After(ss, n + 1).lastLux == if IsChange(ss, n) then Some(ss[n].lux) else After(ss, n).lastLux
  {
    var start := AfterMeans(ss, n);
    var start' := NextMeans(ss, n, start);
  }

  lemma {:induction false} ReferenceAtLeast(ss: seq<Sample>, m: nat, n: nat)
    requires 0 < m < n <= |ss| && IsChange(ss, m)
    ensures m <= Reference(ss, n)
    decreases n
  {
    if m == n - 1 {
    } else {
      ReferenceAtLeast(ss, m, n - 1);
    }
  }

  /** Changes are at least two seconds apart, and four before one that darkens. */
  lemma {:induction false} ChangesAreSpaced(ss: seq<Sample>, m: nat, n: nat)
    requires InOrder(ss) && m < n < |ss| && Changing(ss, m) && Changing(ss, n)
    ensures ss[n].at - ss[m].at >= LIGHT_BRIGHTENING_DEBOUNCE
    ensures ss[n].lux < ss[Reference(ss, n)].lux ==> ss[n].at - ss[m].at >= LIGHT_DARKENING_DEBOUNCE
  {
    DebounceMeaning(ss, m);
    DebounceMeaning(ss, n);
    ReferenceAtLeast(ss, m, n);
    var start := AfterMeans(ss, n);
    var r := Reference(ss, n);
    var from :| r < from <= n && HeldSince(ss, r, from, n);
    assert ss[m].at <= ss[from].at;
  }

  // ---- the reporter's throttle -------------------------------------------------------------

  const MIN_REPORT_INTERVAL: nat := 250

  /** What a source reports. */
  datatype Value = Light(changing: bool, lux: real) | Other(text: string)

  /** A value read from a source, as the machine would see it. */
  datatype Offer = Offer(source: string, value: Value, at: nat)

  datatype Reported = Reported(last: map<string, Value>, lastSent: map<string, nat>)

  const NOTHING_REPORTED := Reported(map[], map[])

  predicate Sends(r: Reported, o: Offer) {
    !(o.source in r.last && r.last[o.source] == o.value)
    && (o.source in r.lastSent ==> o.at - r.lastSent[o.source] >= MIN_REPORT_INTERVAL)
  }

  function Offered(r: Reported, o: Offer): Reported {
    Reported(r.last[o.source := o.value], if Sends(r, o) then r.lastSent[o.source := o.at] else r.lastSent)
  }

  class Reporter {
    var last: map<string, Value>
    var lastSent: map<string, nat>

    function State(): Reported
      reads this
    {
      Reported(last, lastSent)
    }

    constructor ()
      ensures State() == NOTHING_REPORTED
    {
      last, lastSent := map[], map[];
    }

    method Submit(o: Offer) returns (sent: bool)
      modifies this
      ensures sent <==> Sends(old(State()), o)
      ensures State() == Offered(old(State()), o)
    {
      var same := o.source in last && last[o.source] == o.value;
      last := last[o.source := o.value];
      if same {
        return false;
      }
      if o.source in lastSent {
        if o.at - lastSent[o.source] < MIN_REPORT_INTERVAL {
          return false;
        }
      }
      lastSent := lastSent[o.source := o.at];
      return true;
    }

    /** Re-send every source's last value; the throttle takes no notice. */
    method KeepAlive() returns (reports: map<string, Value>)
      ensures reports == State().last
    {
      reports := map[];
      var left := last.Keys;
      while left != {}
        invariant left <= last.Keys && reports.Keys == last.Keys - left
        invariant forall source :: source in reports ==> reports[source] == last[source]
        decreases |left|
      {
        var source :| source in left;
        reports := reports[source := last[source]];
        left := left - {source};
      }
    }
  }

  function AfterOffers(os: seq<Offer>, n: nat): Reported
    requires n <= |os|
  {
    if n == 0 then NOTHING_REPORTED else Offered(AfterOffers(os, n - 1), os[n - 1])
  }

  predicate SentAt(os: seq<Offer>, n: nat)
    requires n < |os|
  {
    Sends(AfterOffers(os, n), os[n])
  }

  /** The last offer of a source among the first `n`, or nothing. */
  function LastOffer(os: seq<Offer>, n: nat, source: string): Option<nat>
    requires n <= |os|
  {
    if n == 0 then None
    else if os[n - 1].source == source then Some(n - 1) else LastOffer(os, n - 1, source)
  }

  /** The last offer of a source that was sent. */
  function LastSentOffer(os: seq<Offer>, n: nat, source: string): Option<nat>
    requires n <= |os|
  {
    if n == 0 then None
    else if os[n - 1].source == source && SentAt(os, n - 1) then Some(n - 1)
    else LastSentOffer(os, n - 1, source)
  }

  lemma {:induction false} LastOfferInRange(os: seq<Offer>, n: nat, source: string)
    requires n <= |os|
    ensures var l, s := LastOffer(os, n, source), LastSentOffer(os, n, source);
      (l.Some? ==> l.value < n && os[l.value].source == source)
      && (s.Some? ==> s.value < n && os[s.value].source == source)
      && forall m :: (if s.Some? then s.value else -1) < m < n && os[m].source == source ==> !SentAt(os, m)
  {
    if n == 0 {
    } else {
      LastOfferInRange(os, n - 1, source);
    }
  }

  /** The maps hold what they are named for: the last value offered, and when one was last sent. */
  lemma {:induction false} OffersRemembered(os: seq<Offer>, n: nat, source: string)
    requires n <= |os|
    ensures var r, l, s := AfterOffers(os, n), LastOffer(os, n, source), LastSentOffer(os, n, source);
      LastOffersIn(os, n, l, s)
      && (source in r.last <==> l.Some?) && (l.Some? ==> r.last[source] == os[l.value].value)
      && (source in r.lastSent <==> s.Some?) && (s.Some? ==> r.lastSent[source] == os[s.value].at)
  {
    LastOfferInRange(os, n, source);
    if n == 0 {
    } else {
      OffersRemembered(os, n - 1, source);
    }
  }

  predicate LastOffersIn(os: seq<Offer>, n: nat, l: Option<nat>, s: Option<nat>)
    requires n <= |os|
  {
    (l.Some? ==> l.value < n) && (s.Some? ==> s.value < n)
  }

  /**
   * An offer is sent exactly when it differs from the source's previous offer and the source was
   * not sent within the interval before it.
   */
  lemma {:induction false} SentIff(os: seq<Offer>, n: nat)
    requires n < |os|
    ensures var l, s := LastOffer(os, n, os[n].source), LastSentOffer(os, n, os[n].source);
      LastOffersIn(os, n, l, s)
      && (SentAt(os, n) <==>
            (l.Some? ==> os[l.value].value != os[n].value)
            && (s.Some? ==> os[n].at - os[s.value].at >= MIN_REPORT_INTERVAL))
  {
    OffersRemembered(os, n, os[n].source);
  }

  /** Reports of one source are at least a quarter of a second apart. */
  lemma {:induction false} ReportsAreSpaced(os: seq<Offer>, m: nat, n: nat)
    requires forall i, j :: 0 <= i <= j < |os| ==> os[i].at <= os[j].at
    requires m < n < |os| && os[m].source == os[n].source && SentAt(os, m) && SentAt(os, n)
    ensures os[n].at - os[m].at >= MIN_REPORT_INTERVAL
  {
    SentIff(os, n);
    LastOfferInRange(os, n, os[n].source);
  }
}
