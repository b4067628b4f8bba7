/**
 * Placing the cache breakpoints of one request: one after the tools, one after the system prompt,
 * and two on the tail of the transcript.
 */
module Breakpoints {
  import opened Conversation
  import opened Translation
  import opened TranslationLoss
  import opened TranslationNotes
  import opened TranslationRules
  import opened TranslationPrefix

  const TAIL_BREAKPOINTS := 2

  /** Something with room for a breakpoint after it. */
  datatype Entry<T> = Entry(value: T, cached: bool)

  /** A message of the request: a bare string has no block to carry a breakpoint. */
  datatype BodyTurn = Bare(text: string) | Blocks(role: Role, content: seq<Entry<Block>>)

  function MarkLast<T>(s: seq<Entry<T>>): seq<Entry<T>> {
    if s == [] then s else s[|s| - 1 := s[|s| - 1].(cached := true)]
  }

  predicate HasBlock(turn: BodyTurn) {
    turn.Blocks? && turn.content != []
  }

  function MarkTurn(turn: BodyTurn): BodyTurn
    requires turn.Blocks?
  {
    turn.(content := MarkLast(turn.content))
  }

  /** How many turns from `i` on can carry a breakpoint. */
  function CarriersFrom(turns: seq<BodyTurn>, i: nat): (n: nat)
    requires i <= |turns|
    ensures n <= |turns| - i
    decreases |turns| - i
  {
    if i == |turns| then 0 else (if HasBlock(turns[i]) then 1 else 0) + CarriersFrom(turns, i + 1)
  }

  /** Turn `i` carries a breakpoint when it is among the last two that can. */
  predicate IsTail(turns: seq<BodyTurn>, i: nat)
    requires i < |turns|
  {
    HasBlock(turns[i]) && CarriersFrom(turns, i + 1) < TAIL_BREAKPOINTS
  }

  function TailMarked(turns: seq<BodyTurn>): (r: seq<BodyTurn>)
    ensures |r| == |turns|
  {
    seq(|turns|, i requires 0 <= i < |turns| => if IsTail(turns, i) then MarkTurn(turns[i]) else turns[i])
  }

  class Body {
    var tools: seq<Entry<string>>
    var system: seq<Entry<string>>
    const messages: array<BodyTurn>

    constructor (tools: seq<Entry<string>>, system: seq<Entry<string>>, turns: seq<BodyTurn>)
      ensures this.tools == tools && this.system == system && messages[..] == turns && fresh(messages)
    {
      this.tools, this.system := tools, system;
      var a := new BodyTurn[|turns|](i requires 0 <= i < |turns| => turns[i]);
      messages := a;
    }

    method MarkCacheBreakpoints()
      modifies this, messages
      ensures tools == MarkLast(old(tools)) && system == MarkLast(old(system))
      ensures messages[..] == TailMarked(old(messages[..]))
    {
      tools := MarkLast(tools);
      system := MarkLast(system);
      ghost var turns := messages[..];
      var i, marked := messages.Length, 0;
      while i > 0 && marked < TAIL_BREAKPOINTS
        invariant 0 <= i <= messages.Length && marked <= TAIL_BREAKPOINTS
        invariant marked == CarriersFrom(turns, i)
        invariant tools == MarkLast(old(tools)) && system == MarkLast(old(system))
        invariant forall j :: 0 <= j < i ==> messages[j] == turns[j]
        invariant forall j :: i <= j < messages.Length ==> messages[j] == TailMarked(turns)[j]
      {
        i := i - 1;
        if messages[i].Blocks? && messages[i].content != [] {
          messages[i] := MarkTurn(messages[i]);
          marked := marked + 1;
        }
      }
      forall j | 0 <= j < i ensures !IsTail(turns, j) {
        CarriersGrow(turns, j + 1, i);
      }
    }
  }

  lemma {:induction false} CarriersGrow(turns: seq<BodyTurn>, i: nat, j: nat)
    requires i <= j <= |turns|
    ensures CarriersFrom(turns, i) >= CarriersFrom(turns, j)
    decreases j - i
  {
    if i == j {
    } else {
      CarriersGrow(turns, i + 1, j);
    }
  }

  // ---- how many breakpoints ----------------------------------------------------------------

  function Marks<T>(s: seq<Entry<T>>): nat {
    if s == [] then 0 else Marks(s[..|s| - 1]) + (if s[|s| - 1].cached then 1 else 0)
  }

  function TurnMarks(turns: seq<BodyTurn>, i: nat): nat
    requires i <= |turns|
    decreases |turns| - i
  {
    if i == |turns| then 0
    else (if turns[i].Blocks? then Marks(turns[i].content) else 0) + TurnMarks(turns, i + 1)
  }

  predicate Unmarked<T>(s: seq<Entry<T>>) {
    forall i :: 0 <= i < |s| ==> !s[i].cached
  }

  predicate TurnsUnmarked(turns: seq<BodyTurn>) {
    forall i :: 0 <= i < |turns| && turns[i].Blocks? ==> Unmarked(turns[i].content)
  }

  lemma {:induction false} UnmarkedHasNone<T>(s: seq<Entry<T>>)
    requires Unmarked(s)
    ensures Marks(s) == 0
  {
    if s == [] {
    } else {
      UnmarkedHasNone(s[..|s| - 1]);
    }
  }

  lemma {:induction false} MarkLastAddsOne<T>(s: seq<Entry<T>>)
    requires Unmarked(s)
    ensures Marks(MarkLast(s)) == if s == [] then 0 else 1
  {
    if s != [] {
      var front := s[..|s| - 1];
      UnmarkedHasNone(front);
      assert MarkLast(s)[..|s| - 1] == front;
    }
  }

  lemma {:induction false} TailMarksFrom(turns: seq<BodyTurn>, i: nat)
    requires TurnsUnmarked(turns) && i <= |turns|
    ensures var carriers := CarriersFrom(turns, i);
      TurnMarks(TailMarked(turns), i) == if carriers < TAIL_BREAKPOINTS then carriers else TAIL_BREAKPOINTS
    decreases |turns| - i
  {
    if i == |turns| {
    } else {
      TailMarksFrom(turns, i + 1);
      if turns[i].Blocks? {
        UnmarkedHasNone(turns[i].content);
        MarkLastAddsOne(turns[i].content);
      }
    }
  }

  /** A request gets one breakpoint for each of the four places it has, so never more than four. */
  lemma {:induction false} AtMostFour(
    tools: seq<Entry<string>>, system: seq<Entry<string>>, turns: seq<BodyTurn>)
    requires Unmarked(tools) && Unmarked(system) && TurnsUnmarked(turns)
    ensures var carriers := CarriersFrom(turns, 0);
      Marks(MarkLast(tools)) + Marks(MarkLast(system)) + TurnMarks(TailMarked(turns), 0)
      == (if tools == [] then 0 else 1) + (if system == [] then 0 else 1) + (if carriers < 2 then carriers else 2)
  {
    MarkLastAddsOne(tools);
    MarkLastAddsOne(system);
    TailMarksFrom(turns, 0);
  }

  // ---- on a translated history -------------------------------------------------------------

  function Plain(blocks: seq<Block>): (r: seq<Entry<Block>>)
    ensures |r| == |blocks|
  {
    seq(|blocks|, i requires 0 <= i < |blocks| => Entry(blocks[i], false))
  }

  function ToBody(wire: WireTurn): BodyTurn {
    match wire
    case Note(text) => Bare(text)
    case Exchange(role, content) => Blocks(role, Plain(content))
  }

  function RequestTurns(h: seq<Message>, mid: bool): (r: seq<BodyTurn>)
    ensures |r| == |Translate(h, mid)|
  {
    var ws := AllToWire(Translate(h, mid));
    seq(|ws|, i requires 0 <= i < |ws| => ToBody(ws[i]))
  }

  lemma {:induction false} CarriersAreExchanges(h: seq<Message>, mid: bool, i: nat)
    requires i < |Translate(h, mid)|
    ensures HasBlock(RequestTurns(h, mid)[i]) <==> Translate(h, mid)[i].role != System
  {
    TranslateSendable(h, mid);
  }

  lemma {:induction false} SentHasUser(h: seq<Message>, mid: bool)
    requires Translate(h, mid) != []
    ensures HasUser(PlacedBlocks(h, mid))
  {
    var ps, t := PlacedBlocks(h, mid), Translate(h, mid);
    TranslateSendable(h, mid);
    TurnIsFlattened(t, 0);
    TranslateKeepsSurvivors(h, mid);
    SurvivorsArePlaced(ps, {});
    SystemFollowsUser(h, mid);
    var j :| 0 <= j < |Flatten(t)| && Flatten(t)[j].role == t[0].role;
    var p := Survivors(ps, {})[j];
    assert p in ps && (p.role == User || p.role == System);
    if p.role == User {
      var i :| 0 <= i < |ps| && ps[i] == p;
    }
  }

  /**
   * What the breakpoints are for. The last breakpoint of a request sits on its last turn that is
   * not a system turn; and whatever is added to the history, the next request begins with the same
   * system string and the same messages up to that breakpoint, the last one perhaps with more blocks.
   */
  lemma {:induction false} CachedPrefixIsReread(h: seq<Message>, m: seq<Message>, mid: bool)
    requires Translate(h, mid) != []
    ensures var cached := BeforeFinalNote(Translate(h, mid));
      cached != [] && IsTail(RequestTurns(h, mid), |cached| - 1)
      && (|cached| < |RequestTurns(h, mid)| ==> !IsTail(RequestTurns(h, mid), |cached|))
      && WireContinues(AllToWire(cached), AllToWire(Translate(h + m, mid)))
      && Flatten(cached) <= Flatten(Translate(h + m, mid))
    ensures SystemText(h + m, mid) == SystemText(h, mid)
  {
    var t, turns := Translate(h, mid), RequestTurns(h, mid);
    var cached := BeforeFinalNote(t);
    TranslateSendable(h, mid);
    CarriersAreExchanges(h, mid, |cached| - 1);
    if |cached| < |t| {
      CarriersAreExchanges(h, mid, |cached|);
      assert CarriersFrom(turns, |cached| + 1) == 0;
    }
    SentHasUser(h, mid);
    SystemStringIsFixed(h, m, mid);
    EarlierWireContinues(h, m, mid);
    EarlierRolesArePrefix(h, m, mid);
  }

  /** Two of the last three turns can carry a breakpoint. */
  predicate LastThreeCarryTwo(turns: seq<BodyTurn>) {
    |turns| >= 3 ==> CarriersFrom(turns, |turns| - 3) >= TAIL_BREAKPOINTS
  }

  lemma {:induction false} RequestCarries(h: seq<Message>, mid: bool)
    ensures LastThreeCarryTwo(RequestTurns(h, mid))
  {
    var t, turns := Translate(h, mid), RequestTurns(h, mid);
    if |t| >= 3 {
      TranslateSendable(h, mid);
      CarriersAreExchanges(h, mid, |t| - 1);
      CarriersAreExchanges(h, mid, |t| - 2);
      CarriersAreExchanges(h, mid, |t| - 3);
      assert CarriersFrom(turns, |t| - 1) == if HasBlock(turns[|t| - 1]) then 1 else 0;
    }
  }

  lemma {:induction false} TailStartsLate(turns: seq<BodyTurn>, i: nat)
    requires i < |turns| && IsTail(turns, i)
    requires LastThreeCarryTwo(turns)
    ensures i + 3 >= |turns|
  {
    if i + 3 < |turns| {
      CarriersGrow(turns, i + 1, |turns| - 3);
    }
  }

  /** Both transcript breakpoints lie within the last three turns. */
  lemma {:induction false} TailIsNear(h: seq<Message>, mid: bool, i: nat)
    requires i < |Translate(h, mid)| && IsTail(RequestTurns(h, mid), i)
    ensures i + 3 >= |Translate(h, mid)|
  {
    RequestCarries(h, mid);
    TailStartsLate(RequestTurns(h, mid), i);
  }
}
