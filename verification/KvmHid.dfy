/** The KVM's input side: splitting motion into 8-bit reports, and reports that track held state. */
module KvmHid {
  import opened Sequences
  import opened Wrappers
  import opened Utf8

  /** 32-bit signed motion, as the window system hands it over. */
  type Int32 = x: int | -0x8000_0000 <= x < 0x8000_0000

  datatype Motion = Motion(x: int, y: int, wheel: int)

  function Clamp(v: int): (c: int)
    ensures -127 <= c <= 127
  {
    if v < -127 then -127 else if v > 127 then 127 else v
  }

  lemma {:induction false} ClampTwice(v: int)
    ensures Clamp(Clamp(v)) == Clamp(v)
  {
  }

  /** A signed component as the byte that carries it, and back. */
  function AsByte(v: int): Byte
    requires -128 <= v <= 127
  {
    if v < 0 then (v + 256) as Byte else v as Byte
  }

  function FromByte(b: Byte): (v: int)
    ensures -128 <= v <= 127
  {
    if b >= 128 then b as int - 256 else b as int
  }

  lemma {:induction false} ByteRoundTrip(v: int)
    requires -128 <= v <= 127
    ensures FromByte(AsByte(v)) == v
  {
  }

  /** An 8-bit mask, as the set of the bits that are on. */
  type Bit = x: nat | x < 8
  type Bits = set<Bit>

  const NO_BITS: Bits := {}

  datatype Report =
    | Keyboard(modifiers: Bits, slots: seq<Byte>)
    | Pointer(buttons: Bits, dx: Byte, dy: Byte, dw: Byte)

  // ---- splitting motion --------------------------------------------------------------------

  function Abs(v: int): nat { if v < 0 then -v else v }

  function Max(a: nat, b: nat): nat { if a < b then b else a }

  function Size(m: Motion): nat {
    Max(Abs(m.x), Max(Abs(m.y), Abs(m.wheel)))
  }

  const STILL := Motion(0, 0, 0)

  /** How many reports a motion takes: one for each begun stretch of 127, and never none. */
  function CountFor(size: nat): (n: nat)
    ensures n >= 1
  {
    if size == 0 then 1 else (size + 126) / 127
  }

  /** What is left of a component after `i` reports. */
  function Rest(v: int, i: nat): int {
    if v > 127 * i then v - 127 * i
    else if -v > 127 * i then v + 127 * i
    else 0
  }

  /** The part of a motion its `i`-th report carries. */
  function Piece(m: Motion, i: nat): Motion {
    Motion(Clamp(Rest(m.x, i)), Clamp(Rest(m.y, i)), Clamp(Rest(m.wheel, i)))
  }

  /** The motions of a request's reports. */
  function Split(m: Motion): (ms: seq<Motion>)
    ensures |ms| == CountFor(Size(m))
    ensures forall i :: 0 <= i < |ms| ==> ms[i] == Piece(m, i)
  {
    seq(CountFor(Size(m)), i requires 0 <= i < CountFor(Size(m)) => Piece(m, i))
  }

  lemma {:induction false} RestNext(v: int, i: nat)
    ensures Rest(v, i + 1) == Rest(v, i) - Clamp(Rest(v, i))
    ensures Rest(v, i) == 0 <==> Abs(v) <= 127 * i
  {
  }

  lemma {:induction false} CountEnds(size: nat, i: nat)
    ensures i >= 1 ==> (size <= 127 * i <==> i >= CountFor(size))
  {
  }

  function Encoded(m: Motion, buttons: Bits): Report {
    Pointer(buttons, AsByte(Clamp(m.x)), AsByte(Clamp(m.y)), AsByte(Clamp(m.wheel)))
  }

  function PointerReports(m: Motion, buttons: Bits): (rs: seq<Report>)
    ensures |rs| == |Split(m)|
    ensures forall i :: 0 <= i < |rs| ==> rs[i] == Encoded(Split(m)[i], buttons)
  {
    seq(|Split(m)|, i requires 0 <= i < |Split(m)| => Encoded(Split(m)[i], buttons))
  }

  /** The report after `n` others carries a clamped rest, and the last report leaves nothing. */
  lemma {:induction false} ReportStep(m: Motion, buttons: Bits, n: nat)
    requires n < |Split(m)|
    ensures PointerReports(m, buttons)[n]
      == Pointer(buttons, AsByte(Clamp(Rest(m.x, n))), AsByte(Clamp(Rest(m.y, n))), AsByte(Clamp(Rest(m.wheel, n))))
    ensures Rest(m.x, n + 1) == Rest(m.x, n) - Clamp(Rest(m.x, n))
    ensures Rest(m.y, n + 1) == Rest(m.y, n) - Clamp(Rest(m.y, n))
    ensures Rest(m.wheel, n + 1) == Rest(m.wheel, n) - Clamp(Rest(m.wheel, n))
    ensures Rest(m.x, n + 1) == 0 && Rest(m.y, n + 1) == 0 && Rest(m.wheel, n + 1) == 0 <==> n + 1 == |Split(m)|
  {
    ClampTwice(Rest(m.x, n));
    ClampTwice(Rest(m.y, n));
    ClampTwice(Rest(m.wheel, n));
    CarriedNext(m, n);
    CarriedNext(m, n + 1);
    CountEnds(Size(m), n + 1);
  }

  function Plus(a: Motion, b: Motion): Motion {
    Motion(a.x + b.x, a.y + b.y, a.wheel + b.wheel)
  }

  function Sum(ms: seq<Motion>): Motion {
    if ms == [] then STILL else Plus(Sum(ms[..|ms| - 1]), ms[|ms| - 1])
  }

  lemma {:induction false} SumSnoc(ms: seq<Motion>, m: Motion)
    ensures Sum(ms + [m]) == Plus(Sum(ms), m)
  {
    assert (ms + [m])[..|ms + [m]| - 1] == ms;
  }

  /** What the first `n` reports carry together. */
  function Carried(m: Motion, n: nat): Motion {
    Motion(m.x - Rest(m.x, n), m.y - Rest(m.y, n), m.wheel - Rest(m.wheel, n))
  }

  lemma {:induction false} CarriedNext(m: Motion, n: nat)
    ensures Carried(m, n + 1) == Plus(Carried(m, n), Piece(m, n))
    ensures Carried(m, n) == m <==> Size(m) <= 127 * n
  {
    RestNext(m.x, n);
    RestNext(m.y, n);
    RestNext(m.wheel, n);
  }

  lemma {:induction false} SplitNext(m: Motion, n: nat)
    requires 0 < n <= |Split(m)|
    ensures Split(m)[..n] == Split(m)[..n - 1] + [Piece(m, n - 1)]
  {
    var ms := Split(m);
    assert ms[n - 1] == Piece(m, n - 1);
    assert ms[..n] == ms[..n - 1] + [ms[n - 1]];
  }

  lemma {:induction false} SumOfPieces(m: Motion, n: nat)
    requires n <= |Split(m)|
    ensures Sum(Split(m)[..n]) == Carried(m, n)
  {
    if n == 0 {
    } else {
      SumOfPieces(m, n - 1);
      SplitNext(m, n);
      SumSnoc(Split(m)[..n - 1], Piece(m, n - 1));
      CarriedNext(m, n - 1);
    }
  }

  /**
   * Splitting: every component fits its byte, the components add up to the request exactly, and
   * no report is sent after the first that leaves nothing over.
   */
  lemma {:induction false} SplitMeaning(m: Motion)
    ensures Sum(Split(m)) == m
    ensures |Split(m)| == CountFor(Size(m))
    ensures forall p :: p in Split(m) ==> Size(p) <= 127
    ensures forall i :: 0 < i < |Split(m)| ==> Sum(Split(m)[..i]) != m
  {
    var n := |Split(m)|;
    CountEnds(Size(m), n);
    SumOfPieces(m, n);
    assert Split(m)[..n] == Split(m);
    CarriedNext(m, n);
    forall i | 0 < i < n ensures Sum(Split(m)[..i]) != m {
      CountEnds(Size(m), i);
      SumOfPieces(m, i);
      CarriedNext(m, i);
    }
  }

  /** What a receiver adds up from the bytes of pointer reports. */
  function Received(rs: seq<Report>): Motion {
    if rs == [] then STILL
    else
      var before, last := Received(rs[..|rs| - 1]), rs[|rs| - 1];
      if last.Pointer? then Plus(before, Motion(FromByte(last.dx), FromByte(last.dy), FromByte(last.dw))) else before
  }

  lemma {:induction false} ReceivedEncoded(ms: seq<Motion>, rs: seq<Report>, buttons: Bits)
    requires |rs| == |ms| && forall i :: 0 <= i < |ms| ==> rs[i] == Encoded(ms[i], buttons) && Size(ms[i]) <= 127
    ensures Received(rs) == Sum(ms)
  {
    if ms == [] {
    } else {
      var last := ms[|ms| - 1];
      ReceivedEncoded(ms[..|ms| - 1], rs[..|rs| - 1], buttons);
      ByteRoundTrip(last.x);
      ByteRoundTrip(last.y);
      ByteRoundTrip(last.wheel);
    }
  }

  /** What the receiver adds up is the motion that was asked for. */
  lemma {:induction false} MotionArrives(m: Motion, buttons: Bits)
    ensures Received(PointerReports(m, buttons)) == m
  {
    SplitMeaning(m);
    ReceivedEncoded(Split(m), PointerReports(m, buttons), buttons);
  }

  // ---- held keys ---------------------------------------------------------------------------

  /** A set of usage codes in ascending order. */
  predicate Ascending(keys: seq<Byte>) {
    forall i, j :: 0 <= i < j < |keys| ==> keys[i] < keys[j]
  }

  function Inserted(keys: seq<Byte>, key: Byte): seq<Byte> {
    if keys == [] then [key]
    else if key == keys[0] then keys
    else if key < keys[0] then [key] + keys
    else [keys[0]] + Inserted(keys[1..], key)
  }

  function Removed(keys: seq<Byte>, key: Byte): seq<Byte> {
    if keys == [] then []
    else if key == keys[0] then keys[1..]
    else [keys[0]] + Removed(keys[1..], key)
  }

  lemma {:induction false} AscendingCons(first: Byte, rest: seq<Byte>)
    requires Ascending(rest) && forall k :: k in rest ==> first < k
    ensures Ascending([first] + rest)
  {
    var all := [first] + rest;
    forall i, j | 0 <= i < j < |all| ensures all[i] < all[j] {
      assert all[j] == rest[j - 1] && rest[j - 1] in rest;
    }
  }

  lemma {:induction false} InsertedMeaning(keys: seq<Byte>, key: Byte)
    requires Ascending(keys)
    ensures Ascending(Inserted(keys, key))
    ensures forall k :: k in Inserted(keys, key) <==> k == key || k in keys
  {
    if keys == [] {
    } else {
      var rest := keys[1..];
      assert keys == [keys[0]] + rest;
      assert Ascending(rest);
      assert forall k :: k in rest ==> keys[0] < k;
      if key > keys[0] {
        InsertedMeaning(rest, key);
        AscendingCons(keys[0], Inserted(rest, key));
      } else if key < keys[0] {
        AscendingCons(key, keys);
      }
    }
  }

  lemma {:induction false} RemovedMeaning(keys: seq<Byte>, key: Byte)
    requires Ascending(keys)
    ensures Ascending(Removed(keys, key))
    ensures forall k :: k in Removed(keys, key) <==> k != key && k in keys
  {
    if keys == [] {
    } else {
      assert keys == [keys[0]] + keys[1..];
      assert Ascending(keys[1..]);
      assert forall k :: k in keys[1..] ==> keys[0] < k;
      if key != keys[0] {
        RemovedMeaning(keys[1..], key);
        AscendingCons(keys[0], Removed(keys[1..], key));
      }
    }
  }

  const KEY_SLOTS := 6

  /** Held keys in the first slots, lowest codes first, and zeroes after them. */
  function KeyboardReport(modifiers: Bits, keys: seq<Byte>): Report {
    Keyboard(modifiers, seq(KEY_SLOTS, i requires 0 <= i < KEY_SLOTS => if i < |keys| then keys[i] else 0))
  }

  predicate Names(report: Report, keys: seq<Byte>)
    requires report.Keyboard?
  {
    forall key: Byte | key != 0 :: key in report.slots <==> key in keys
  }

  /** The report names exactly the held keys when there is a slot for each, and only then. */
  lemma {:induction false} ReportNamesHeldKeysIff(modifiers: Bits, keys: seq<Byte>)
    requires Ascending(keys) && 0 !in keys
    ensures Names(KeyboardReport(modifiers, keys), keys) <==> |keys| <= KEY_SLOTS
  {
    var slots := KeyboardReport(modifiers, keys).slots;
    if |keys| <= KEY_SLOTS {
      forall key: Byte | key != 0 && key in keys ensures key in slots {
        var i :| 0 <= i < |keys| && keys[i] == key;
        assert slots[i] == key;
      }
    } else {
      assert keys[KEY_SLOTS] in keys && keys[KEY_SLOTS] !in slots;
    }
  }

  // ---- events ------------------------------------------------------------------------------

  datatype Event =
    | Key(modifier: Option<Bit>, usage: Option<Byte>, pressed: bool)
    | Button(bit: Option<Bit>, pressed: bool)
    | Move(motion: Motion)
    | Tap
    | FocusLost

  datatype Held = Held(keys: seq<Byte>, modifiers: Bits, buttons: Bits)

  const RELEASED := Held([], NO_BITS, NO_BITS)

  const LEFT_BUTTON: Bit := 0

  function Pressed(bits: Bits, bit: Bit, pressed: bool): Bits {
    if pressed then bits + {bit} else bits - {bit}
  }

  function AfterEvent(h: Held, e: Event): Held {
    match e
    case Key(modifier, usage, pressed) =>
      if modifier.Some? then h.(modifiers := Pressed(h.modifiers, modifier.value, pressed))
      else if usage.None? then h
      else h.(keys := if pressed then Inserted(h.keys, usage.value) else Removed(h.keys, usage.value))
    case Button(bit, pressed) => if bit.None? then h else h.(buttons := Pressed(h.buttons, bit.value, pressed))
    case Move(_) => h
    case Tap => h.(buttons := Pressed(h.buttons, LEFT_BUTTON, false))
    case FocusLost => RELEASED
  }

  /** The reports an event sends, given the held state before and after it. */
  function SentFor(h: Held, e: Event): seq<Report> {
    var h' := AfterEvent(h, e);
    match e
    case Key(_, _, _) => [KeyboardReport(h'.modifiers, h'.keys)]
    case Button(bit, _) => if bit.None? then [] else PointerReports(STILL, h'.buttons)
    case Move(m) => PointerReports(m, h'.buttons)
    case Tap => PointerReports(STILL, Pressed(h.buttons, LEFT_BUTTON, true)) + PointerReports(STILL, h'.buttons)
    case FocusLost => [KeyboardReport(NO_BITS, [])] + PointerReports(STILL, NO_BITS)
  }

  class App {
    var sent: seq<Report>
    var keys: seq<Byte>
    var modifiers: Bits
    var pointerButtons: Bits

    function State(): Held
      reads this
    {
      Held(keys, modifiers, pointerButtons)
    }

    constructor ()
      ensures sent == [] && State() == RELEASED
    {
      sent, keys, modifiers, pointerButtons := [], [], NO_BITS, NO_BITS;
    }

    method SendKeyboard()
      modifies this`sent
      ensures sent == old(sent) + [KeyboardReport(modifiers, keys)]
    {
      var slots: seq<Byte> := [0, 0, 0, 0, 0, 0];
      for slot := 0 to if |keys| < KEY_SLOTS then |keys| else KEY_SLOTS
        invariant |slots| == KEY_SLOTS
        invariant forall i :: 0 <= i < slot ==> slots[i] == keys[i]
        invariant forall i :: slot <= i < KEY_SLOTS ==> slots[i] == 0
      {
        slots := slots[slot := keys[slot]];
      }
      assert slots == KeyboardReport(modifiers, keys).slots;
      sent := sent + [Keyboard(modifiers, slots)];
    }

    method SendPointer(x: Int32, y: Int32, wheel: Int32)
      modifies this`sent
      ensures sent == old(sent) + PointerReports(Motion(x, y, wheel), pointerButtons)
    {
      ghost var whole := Motion(x, y, wheel);
      ghost var all := PointerReports(whole, pointerButtons);
      ghost var n := 0;
      var x: Int32, y: Int32, wheel: Int32 := x, y, wheel;
      while true
        invariant n < |all| && sent == old(sent) + all[..n]
        invariant x == Rest(whole.x, n) && y == Rest(whole.y, n) && wheel == Rest(whole.wheel, n)
        decreases |all| - n
      {
        var dx, dy, dw := Clamp(x), Clamp(y), Clamp(wheel);
        ReportStep(whole, pointerButtons, n);
        sent := sent + [Pointer(pointerButtons, AsByte(dx), AsByte(dy), AsByte(dw))];
        assert all[..n + 1] == all[..n] + [all[n]];
        x, y, wheel := x - dx, y - dy, wheel - dw;
        n := n + 1;
        if x == 0 && y == 0 && wheel == 0 {
          break;
        }
      }
      assert all[..n] == all;
    }

    method SetMouseButton(bit: Option<Bit>, pressed: bool)
      modifies this`sent, this`pointerButtons
      ensures pointerButtons
        == if bit.None? then old(pointerButtons) else Pressed(old(pointerButtons), bit.value, pressed)
      ensures sent == old(sent) + if bit.None? then [] else PointerReports(STILL, pointerButtons)
    {
      if bit.None? {
        return;
      }
      if pressed {
        pointerButtons := pointerButtons + {bit.value};
      } else {
        pointerButtons := pointerButtons - {bit.value};
      }
      SendPointer(0, 0, 0);
    }

    method WindowEvent(e: Event)
      requires e.Move? ==> InRange(e.motion)
      modifies this
      ensures State() == AfterEvent(old(State()), e)
      ensures sent == old(sent) + SentFor(old(State()), e)
    {
      match e {
        case Key(modifier, usage, pressed) =>
          if modifier.Some? {
            modifiers := if pressed then modifiers + {modifier.value} else modifiers - {modifier.value};
          } else if usage.Some? {
            keys := if pressed then Inserted(keys, usage.value) else Removed(keys, usage.value);
          }
          SendKeyboard();
        case Button(bit, pressed) =>
          SetMouseButton(bit, pressed);
        case Move(m) =>
          SendPointer(m.x, m.y, m.wheel);
        case Tap =>
          pointerButtons := pointerButtons + {LEFT_BUTTON};
          SendPointer(0, 0, 0);
          pointerButtons := pointerButtons - {LEFT_BUTTON};
          SendPointer(0, 0, 0);
          assert pointerButtons == old(pointerButtons) - {LEFT_BUTTON};
        case FocusLost =>
          keys := [];
          modifiers := NO_BITS;
          pointerButtons := NO_BITS;
          SendKeyboard();
          SendPointer(0, 0, 0);
      }
    }
  }

  predicate InRange(m: Motion) {
    -0x8000_0000 <= m.x < 0x8000_0000 && -0x8000_0000 <= m.y < 0x8000_0000
    && -0x8000_0000 <= m.wheel < 0x8000_0000
  }

  // ---- whole runs --------------------------------------------------------------------------

  function HeldAfter(es: seq<Event>): Held {
    if es == [] then RELEASED else AfterEvent(HeldAfter(es[..|es| - 1]), es[|es| - 1])
  }

  function AllSent(es: seq<Event>): seq<Report> {
    if es == [] then []
    else AllSent(es[..|es| - 1]) + SentFor(HeldAfter(es[..|es| - 1]), es[|es| - 1])
  }

  /** The last keyboard report, or the all-released one when none was sent. */
  function LastKeyboard(rs: seq<Report>): Report {
    if rs == [] then KeyboardReport(NO_BITS, [])
    else if rs[|rs| - 1].Keyboard? then rs[|rs| - 1]
    else LastKeyboard(rs[..|rs| - 1])
  }

  function LastButtons(rs: seq<Report>): Bits {
    if rs == [] then NO_BITS
    else if rs[|rs| - 1].Pointer? then rs[|rs| - 1].buttons
    else LastButtons(rs[..|rs| - 1])
  }

  lemma {:induction false} PointerReportsLast(before: seq<Report>, rs: seq<Report>, buttons: Bits)
    requires forall r :: r in rs ==> r.Pointer? && r.buttons == buttons
    ensures LastKeyboard(before + rs) == LastKeyboard(before)
    ensures LastButtons(before + rs) == if rs == [] then LastButtons(before) else buttons
  {
    if rs == [] {
      assert before + rs == before;
    } else {
      var all := before + rs;
      assert all[..|all| - 1] == before + rs[..|rs| - 1];
      assert all[|all| - 1] in rs;
      PointerReportsLast(before, rs[..|rs| - 1], buttons);
    }
  }

  lemma {:induction false} KeyboardReportLast(before: seq<Report>, r: Report)
    requires r.Keyboard?
    ensures LastKeyboard(before + [r]) == r && LastButtons(before + [r]) == LastButtons(before)
  {
    assert (before + [r])[..|before + [r]| - 1] == before;
  }

  /** The last reports are those of this held state. */
  predicate InStep(rs: seq<Report>, h: Held) {
    LastKeyboard(rs) == KeyboardReport(h.modifiers, h.keys) && LastButtons(rs) == h.buttons
  }

  lemma {:induction false} PointerKeepsInStep(before: seq<Report>, h: Held, m: Motion, buttons: Bits)
    requires InStep(before, h)
    ensures InStep(before + PointerReports(m, buttons), h.(buttons := buttons))
  {
    PointerReportsLast(before, PointerReports(m, buttons), buttons);
  }

  lemma {:induction false} KeyboardKeepsInStep(before: seq<Report>, h: Held, modifiers: Bits, keys: seq<Byte>)
    requires InStep(before, h)
    ensures InStep(before + [KeyboardReport(modifiers, keys)], h.(modifiers := modifiers, keys := keys))
  {
    KeyboardReportLast(before, KeyboardReport(modifiers, keys));
  }

  lemma {:induction false} TwiceKeepsInStep(before: seq<Report>, h: Held, m: Motion, first: Bits, second: Bits)
    requires InStep(before, h)
    ensures InStep(before + (PointerReports(m, first) + PointerReports(m, second)), h.(buttons := second))
  {
    var rs, rs' := PointerReports(m, first), PointerReports(m, second);
    PointerKeepsInStep(before, h, m, first);
    PointerKeepsInStep(before + rs, h.(buttons := first), m, second);
    AppendAssoc(before, rs, rs');
  }

  lemma {:induction false} TapKeepsInStep(before: seq<Report>, h: Held)
    requires InStep(before, h)
    ensures InStep(before + SentFor(h, Tap), AfterEvent(h, Tap))
  {
    TwiceKeepsInStep(before, h, STILL, Pressed(h.buttons, LEFT_BUTTON, true), AfterEvent(h, Tap).buttons);
  }

  lemma {:induction false} BothKeepInStep(before: seq<Report>, h: Held, h': Held, m: Motion)
    requires InStep(before, h)
    ensures InStep(before + ([KeyboardReport(h'.modifiers, h'.keys)] + PointerReports(m, h'.buttons)), h')
  {
    var keyboard := [KeyboardReport(h'.modifiers, h'.keys)];
    KeyboardKeepsInStep(before, h, h'.modifiers, h'.keys);
    PointerKeepsInStep(before + keyboard, h'.(buttons := h.buttons), m, h'.buttons);
    AppendAssoc(before, keyboard, PointerReports(m, h'.buttons));
  }

  lemma {:induction false} FocusLossKeepsInStep(before: seq<Report>, h: Held)
    requires InStep(before, h)
    ensures InStep(before + SentFor(h, FocusLost), RELEASED)
  {
    BothKeepInStep(before, h, RELEASED, STILL);
  }

  lemma {:induction false} EventKeepsInStep(before: seq<Report>, h: Held, e: Event)
    requires InStep(before, h)
    ensures InStep(before + SentFor(h, e), AfterEvent(h, e))
  {
    var h' := AfterEvent(h, e);
    match e {
      case Key(_, _, _) => KeyboardKeepsInStep(before, h, h'.modifiers, h'.keys);
      case Button(bit, _) =>
        if bit.None? {
          assert before + [] == before;
        } else {
          PointerKeepsInStep(before, h, STILL, h'.buttons);
        }
      case Move(m) => PointerKeepsInStep(before, h, m, h'.buttons);
      case Tap => TapKeepsInStep(before, h);
      case FocusLost => FocusLossKeepsInStep(before, h);
    }
  }

  /** After any run of events the last reports equal the held state. */
  lemma {:induction false} ReportsInStep(es: seq<Event>)
    ensures InStep(AllSent(es), HeldAfter(es))
  {
    if es == [] {
    } else {
      var front := es[..|es| - 1];
      ReportsInStep(front);
      EventKeepsInStep(AllSent(front), HeldAfter(front), es[|es| - 1]);
    }
  }

  /** The held keys are always kept in order, without repetition. */
  lemma {:induction false} HeldKeysAscend(es: seq<Event>)
    ensures Ascending(HeldAfter(es).keys)
  {
    if es == [] {
    } else {
      var h, e := HeldAfter(es[..|es| - 1]), es[|es| - 1];
      HeldKeysAscend(es[..|es| - 1]);
      if e.Key? && e.usage.Some? {
        InsertedMeaning(h.keys, e.usage.value);
        RemovedMeaning(h.keys, e.usage.value);
      }
    }
  }

  /** A key is held exactly when its last event since the last loss of focus was a press. */
  function LastPress(es: seq<Event>, usage: Byte): bool {
    if es == [] then false
    else
      match es[|es| - 1]
      case Key(modifier, u, pressed) =>
        if modifier.None? && u == Some(usage) then pressed else LastPress(es[..|es| - 1], usage)
      case FocusLost => false
      case _ => LastPress(es[..|es| - 1], usage)
  }

  lemma {:induction false} HeldIffPressed(es: seq<Event>, usage: Byte)
    ensures usage in HeldAfter(es).keys <==> LastPress(es, usage)
  {
    if es == [] {
    } else {
      var front, e := es[..|es| - 1], es[|es| - 1];
      HeldIffPressed(front, usage);
      HeldKeysAscend(front);
      if e.Key? && e.usage.Some? {
        InsertedMeaning(HeldAfter(front).keys, e.usage.value);
        RemovedMeaning(HeldAfter(front).keys, e.usage.value);
      }
    }
  }

  /** A modifier is held exactly when its last event since the last loss of focus was a press. */
  function LastModifier(es: seq<Event>, bit: Bit): bool {
    if es == [] then false
    else
      match es[|es| - 1]
      case Key(modifier, _, pressed) =>
        if modifier == Some(bit) then pressed else LastModifier(es[..|es| - 1], bit)
      case FocusLost => false
      case _ => LastModifier(es[..|es| - 1], bit)
  }

  lemma {:induction false} ModifierHeldIffPressed(es: seq<Event>, bit: Bit)
    ensures bit in HeldAfter(es).modifiers <==> LastModifier(es, bit)
  {
    if es == [] {
    } else {
      ModifierHeldIffPressed(es[..|es| - 1], bit);
    }
  }

  /** A mouse button likewise, where a tap ends with a release of the left one. */
  function LastButton(es: seq<Event>, bit: Bit): bool {
    if es == [] then false
    else
      match es[|es| - 1]
      case Button(b, pressed) => if b == Some(bit) then pressed else LastButton(es[..|es| - 1], bit)
      case Tap => bit != LEFT_BUTTON && LastButton(es[..|es| - 1], bit)
      case FocusLost => false
      case _ => LastButton(es[..|es| - 1], bit)
  }

  lemma {:induction false} ButtonHeldIffPressed(es: seq<Event>, bit: Bit)
    ensures bit in HeldAfter(es).buttons <==> LastButton(es, bit)
  {
    if es == [] {
    } else {
      ButtonHeldIffPressed(es[..|es| - 1], bit);
    }
  }

  /** After focus is lost everything is reported released, whatever came before. */
  lemma {:induction false} FocusLossReleases(es: seq<Event>)
    ensures var rs := AllSent(es + [FocusLost]);
      LastKeyboard(rs) == KeyboardReport(NO_BITS, []) && LastButtons(rs) == NO_BITS
  {
    assert (es + [FocusLost])[..|es + [FocusLost]| - 1] == es;
    ReportsInStep(es + [FocusLost]);
  }
}
