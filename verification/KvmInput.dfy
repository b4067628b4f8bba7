/** Pointer and touch tracking: from window events to the motions and taps that are reported. */
module KvmInput {
  import opened Wrappers
  import opened KvmHid

  datatype Position = Position(x: real, y: real)

  /** The touch being followed: where it was last, and how far it has travelled. */
  datatype Touch = Touch(id: nat, last: Position, travel: real)

  datatype Track = Track(cursor: Option<Position>, touch: Option<Touch>)

  const NOTHING_TRACKED := Track(None, None)

  const TAP_TRAVEL := 12.0

  /** What the window system reports; keys, buttons and loss of focus need no tracking. */
  datatype Raw =
    | Direct(event: Event)
    | CursorMoved(to: Position)
    | CursorLeft
    | WheelLines(y: real)
    | WheelPixels(y: real)
    | TouchStarted(id: nat, at: Position)
    | TouchMoved(id: nat, at: Position)
    | TouchEnded(id: nat)

  predicate IsDirect(e: Event) {
    e.Key? || e.Button? || e.FocusLost?
  }

  // ---- rounding ----------------------------------------------------------------------------

  /** To the nearest whole number, halves away from zero. */
  function Rounded(v: real): int {
    if v >= 0.0 then (v + 0.5).Floor else -((0.5 - v).Floor)
  }

  /** A cast to 32 bits saturates. */
  function ToInt32(v: real): Int32 {
    var r := Rounded(v);
    if r < -0x8000_0000 then -0x8000_0000 else if r > 0x7FFF_FFFF then 0x7FFF_FFFF else r
  }

  function Magnitude(v: real): real {
    if v < 0.0 then -v else v
  }

  lemma {:induction false} RoundedIsNear(v: real)
    requires Magnitude(v) <= 1073741824.0
    ensures -0.5 <= ToInt32(v) as real - v <= 0.5
  {
  }

  // ---- one event ---------------------------------------------------------------------------

  function Between(a: Position, b: Position): Motion {
    Motion(ToInt32(b.x - a.x), ToInt32(b.y - a.y), 0)
  }

  function Distance(a: Position, b: Position): real {
    Magnitude(b.x - a.x) + Magnitude(b.y - a.y)
  }

  predicate Follows(t: Track, id: nat) {
    t.touch.Some? && t.touch.value.id == id
  }

  /** What is tracked after an event. */
  function Tracked(t: Track, r: Raw): Track {
    match r
    case CursorMoved(to) => t.(cursor := Some(to))
    case CursorLeft => t.(cursor := None)
    case TouchStarted(id, at) => t.(touch := Some(Touch(id, at, 0.0)))
    case TouchMoved(id, at) =>
      if Follows(t, id)
      then t.(touch := Some(Touch(id, at, t.touch.value.travel + Distance(t.touch.value.last, at)))) else t
    case TouchEnded(_) => t.(touch := None)
    case _ => t
  }

  /** The event it amounts to, if any. */
  function Decoded(t: Track, r: Raw): (e: Option<Event>)
    ensures !r.Direct? && e.Some? && e.value.Move? ==> InRange(e.value.motion)
  {
    match r
    case Direct(e) => Some(e)
    case CursorMoved(to) => if t.cursor.Some? then Some(Move(Between(t.cursor.value, to))) else None
    case CursorLeft => None
    case WheelLines(y) => Some(Move(Motion(0, 0, ToInt32(y * 3.0))))
    case WheelPixels(y) => Some(Move(Motion(0, 0, ToInt32(y / 24.0))))
    case TouchStarted(_, _) => None
    case TouchMoved(id, at) => if Follows(t, id) then Some(Move(Between(t.touch.value.last, at))) else None
    case TouchEnded(id) => if Follows(t, id) && t.touch.value.travel < TAP_TRAVEL then Some(Tap) else None
  }

  class Input {
    const app: App
    var cursor: Option<Position>
    var touch: Option<Touch>

    function State(): Track
      reads this
    {
      Track(cursor, touch)
    }

    constructor ()
      ensures State() == NOTHING_TRACKED && fresh(app) && app.sent == [] && app.State() == RELEASED
    {
      app := new App();
      cursor, touch := None, None;
    }

    /** Follow the cursor and the touch, and say which event this amounts to. */
    method Follow(r: Raw) returns (e: Option<Event>)
      modifies this
      ensures State() == Tracked(old(State()), r) && e == Decoded(old(State()), r)
    {
      e := None;
      match r {
        case Direct(event) =>
          e := Some(event);
        case CursorMoved(to) =>
          var last := cursor;
          cursor := Some(to);
          if last.Some? {
            e := Some(Move(Motion(ToInt32(to.x - last.value.x), ToInt32(to.y - last.value.y), 0)));
          }
        case CursorLeft =>
          cursor := None;
        case WheelLines(y) =>
          e := Some(Move(Motion(0, 0, ToInt32(y * 3.0))));
        case WheelPixels(y) =>
          e := Some(Move(Motion(0, 0, ToInt32(y / 24.0))));
        case TouchStarted(id, at) =>
          touch := Some(Touch(id, at, 0.0));
        case TouchMoved(id, at) =>
          if touch.None? || touch.value.id != id {
            return;
          }
          var dx, dy := at.x - touch.value.last.x, at.y - touch.value.last.y;
          touch := Some(Touch(id, at, touch.value.travel + (Magnitude(dx) + Magnitude(dy))));
          e := Some(Move(Motion(ToInt32(dx), ToInt32(dy), 0)));
        case TouchEnded(id) =>
          var track := touch;
          touch := None;
          if track.Some? && track.value.id == id && track.value.travel < TAP_TRAVEL {
            e := Some(Tap);
          }
      }
    }

    method Handle(r: Raw)
      requires r.Direct? ==> IsDirect(r.event)
      modifies this, app
      ensures State() == Tracked(old(State()), r)
      ensures var e := Decoded(old(State()), r);
        if e.None? then app.State() == old(app.State()) && app.sent == old(app.sent)
        else app.State() == AfterEvent(old(app.State()), e.value)
             && app.sent == old(app.sent) + SentFor(old(app.State()), e.value)
    {
      var e := Follow(r);
      if e.Some? {
        app.WindowEvent(e.value);
      }
    }
  }

  // ---- whole runs --------------------------------------------------------------------------

  function TrackAfter(rs: seq<Raw>): Track {
    if rs == [] then NOTHING_TRACKED else Tracked(TrackAfter(rs[..|rs| - 1]), rs[|rs| - 1])
  }

  /** The events a run amounts to. */
  function Events(rs: seq<Raw>): seq<Event> {
    if rs == [] then []
    else
      var e := Decoded(TrackAfter(rs[..|rs| - 1]), rs[|rs| - 1]);
      Events(rs[..|rs| - 1]) + if e.Some? then [e.value] else []
  }

  /** The last touch that started and has not ended, whichever touch an end was for. */
  function Started(rs: seq<Raw>): (start: Option<nat>)
    ensures start.Some? ==> start.value < |rs| && rs[start.value].TouchStarted?
  {
    if rs == [] then None
    else
      var last := rs[|rs| - 1];
      if last.TouchStarted? then Some(|rs| - 1)
      else if last.TouchEnded? then None
      else Started(rs[..|rs| - 1])
  }

  /** Where that touch has been. */
  function Path(rs: seq<Raw>, start: nat): (path: seq<Position>)
    requires start < |rs| && rs[start].TouchStarted?
    ensures path != []
    decreases |rs|
  {
    var last := rs[|rs| - 1];
    if start == |rs| - 1 then [last.at]
    else
      var before := Path(rs[..|rs| - 1], start);
      if last.TouchMoved? && last.id == rs[start].id then before + [last.at] else before
  }

  function Length(path: seq<Position>): real {
    if |path| <= 1 then 0.0
    else Length(path[..|path| - 1]) + Distance(path[|path| - 2], path[|path| - 1])
  }

  /** The tracked touch is that one, at the end of its path, with the path's length as its travel. */
  lemma {:induction false} TouchMeaning(rs: seq<Raw>)
    ensures TrackAfter(rs).touch
      == if Started(rs).None? then None
         else
           var path := Path(rs, Started(rs).value);
           Some(Touch(rs[Started(rs).value].id, path[|path| - 1], Length(path)))
  {
    if rs == [] {
    } else {
      var front, last := rs[..|rs| - 1], rs[|rs| - 1];
      TouchMeaning(front);
      if last.TouchMoved? && Started(front).Some? && front[Started(front).value].id == last.id {
        var before := Path(front, Started(front).value);
        assert (before + [last.at])[..|before|] == before;
      }
    }
  }

  /** The end of a touch is a tap exactly when that touch travelled less than twelve. */
  lemma {:induction false} TapIff(rs: seq<Raw>, id: nat)
    ensures Decoded(TrackAfter(rs), TouchEnded(id)) == Some(Tap)
      <==> Started(rs).Some? && rs[Started(rs).value].id == id && Length(Path(rs, Started(rs).value)) < TAP_TRAVEL
  {
    TouchMeaning(rs);
  }

  /** What is reported as a pointer goes through these places. */
  function Reported(path: seq<Position>): Motion {
    if |path| <= 1 then STILL
    else Plus(Reported(path[..|path| - 1]), Between(path[|path| - 2], path[|path| - 1]))
  }

  predicate SmallStep(a: Position, b: Position) {
    Magnitude(b.x - a.x) <= 1073741824.0 && Magnitude(b.y - a.y) <= 1073741824.0
  }

  predicate SmallSteps(path: seq<Position>) {
    forall i :: 0 < i < |path| ==> SmallStep(path[i - 1], path[i])
  }

  /** Is this within half a unit for each of `steps` steps? */
  predicate Near(reported: int, moved: real, steps: nat) {
    -0.5 * steps as real <= reported as real - moved <= 0.5 * steps as real
  }

  lemma {:induction false} NearNext(reported: int, moved: real, steps: nat, step: real)
    requires Near(reported, moved, steps) && Magnitude(step) <= 1073741824.0
    ensures Near(reported + ToInt32(step), moved + step, steps + 1)
  {
    RoundedIsNear(step);
  }

  /** Each step is rounded on its own, so the reported motion may stray by half a unit a step. */
  lemma {:induction false} ReportedIsNear(path: seq<Position>)
    requires path != [] && SmallSteps(path)
    ensures var last := path[|path| - 1];
      Near(Reported(path).x, last.x - path[0].x, |path| - 1) && Near(Reported(path).y, last.y - path[0].y, |path| - 1)
      && Reported(path).wheel == 0
  {
    if |path| == 1 {
    } else {
      var front, a, b := path[..|path| - 1], path[|path| - 2], path[|path| - 1];
      ReportedIsNear(front);
      assert SmallStep(a, b);
      NearNext(Reported(front).x, a.x - path[0].x, |path| - 2, b.x - a.x);
      NearNext(Reported(front).y, a.y - path[0].y, |path| - 2, b.y - a.y);
    }
  }

  /** Where the cursor has been since it came in, whatever else happened. */
  function CursorPath(rs: seq<Raw>): seq<Position> {
    if rs == [] then []
    else
      var before := CursorPath(rs[..|rs| - 1]);
      match rs[|rs| - 1]
      case CursorMoved(to) => before + [to]
      case CursorLeft => []
      case _ => before
  }

  /** A step a pointer makes; it is reported as the motion between its ends. */
  datatype Leg = Leg(from: Position, to: Position)

  function Legs(path: seq<Position>): seq<Leg> {
    if |path| <= 1 then [] else Legs(path[..|path| - 1]) + [Leg(path[|path| - 2], path[|path| - 1])]
  }

  function SumOfLegs(legs: seq<Leg>): Motion {
    if legs == [] then STILL
    else Plus(SumOfLegs(legs[..|legs| - 1]), Between(legs[|legs| - 1].from, legs[|legs| - 1].to))
  }

  /** What is reported along a path is the sum over its legs. */
  lemma {:induction false} ReportedIsSum(path: seq<Position>)
    ensures Reported(path) == SumOfLegs(Legs(path))
  {
    if |path| <= 1 {
    } else {
      var front := path[..|path| - 1];
      ReportedIsSum(front);
      assert Legs(path)[..|Legs(front)|] == Legs(front);
    }
  }

  /** The leg an event is reported as, if it is reported as one. */
  function LegOf(t: Track, r: Raw): Option<Leg> {
    match r
    case CursorMoved(to) => if t.cursor.Some? then Some(Leg(t.cursor.value, to)) else None
    case TouchMoved(id, at) => if Follows(t, id) then Some(Leg(t.touch.value.last, at)) else None
    case _ => None
  }

  /** Cursor and touch moves are reported as their legs, and only then. */
  lemma {:induction false} LegIsDecoded(t: Track, r: Raw)
    requires r.CursorMoved? || r.TouchMoved?
    ensures Decoded(t, r) == if LegOf(t, r).None? then None
                             else Some(Move(Between(LegOf(t, r).value.from, LegOf(t, r).value.to)))
  {
  }

  /** The legs the cursor was reported on since it came in. */
  function CursorLegs(rs: seq<Raw>): seq<Leg> {
    if rs == [] then []
    else
      var front, last := rs[..|rs| - 1], rs[|rs| - 1];
      var leg := LegOf(TrackAfter(front), last);
      if last.CursorLeft? then []
      else if last.CursorMoved? && leg.Some? then CursorLegs(front) + [leg.value]
      else CursorLegs(front)
  }

  lemma {:induction false} LegsSnoc(path: seq<Position>, to: Position)
    ensures Legs(path + [to]) == if path == [] then [] else Legs(path) + [Leg(path[|path| - 1], to)]
  {
    assert (path + [to])[..|path|] == path;
  }

  /** In every run those are the legs of its path, and the tracked cursor is the path's end. */
  lemma {:induction false} CursorMeaning(rs: seq<Raw>)
    ensures CursorLegs(rs) == Legs(CursorPath(rs))
    ensures var path := CursorPath(rs);
      TrackAfter(rs).cursor == if path == [] then None else Some(path[|path| - 1])
  {
    if rs == [] {
    } else {
      var front, last := rs[..|rs| - 1], rs[|rs| - 1];
      CursorMeaning(front);
      if last.CursorMoved? {
        LegsSnoc(CursorPath(front), last.to);
      }
    }
  }

  /** The legs the tracked touch was reported on since it started. */
  function TouchLegs(rs: seq<Raw>): seq<Leg> {
    if rs == [] then []
    else
      var front, last := rs[..|rs| - 1], rs[|rs| - 1];
      var leg := LegOf(TrackAfter(front), last);
      if last.TouchStarted? || last.TouchEnded? then []
      else if last.TouchMoved? && leg.Some? then TouchLegs(front) + [leg.value]
      else TouchLegs(front)
  }

  /** In every run those are the legs of its path. */
  lemma {:induction false} TouchLegsMeaning(rs: seq<Raw>)
    ensures TouchLegs(rs) == if Started(rs).None? then [] else Legs(Path(rs, Started(rs).value))
  {
    if rs == [] {
    } else {
      var front, last := rs[..|rs| - 1], rs[|rs| - 1];
      TouchLegsMeaning(front);
      TouchMeaning(front);
      if last.TouchMoved? && Started(front).Some? && front[Started(front).value].id == last.id {
        LegsSnoc(Path(front, Started(front).value), last.at);
      }
    }
  }

  /** So what is reported of a cursor strays from where it went by at most half a unit a leg. */
  lemma {:induction false} CursorIsNear(rs: seq<Raw>)
    requires CursorPath(rs) != [] && SmallSteps(CursorPath(rs))
    ensures var path, reported := CursorPath(rs), SumOfLegs(CursorLegs(rs));
      Near(reported.x, path[|path| - 1].x - path[0].x, |path| - 1)
      && Near(reported.y, path[|path| - 1].y - path[0].y, |path| - 1)
  {
    CursorMeaning(rs);
    ReportedIsSum(CursorPath(rs));
    ReportedIsNear(CursorPath(rs));
  }
}
