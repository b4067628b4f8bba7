/**
 * When a final system turn keeps its place, in terms of the messages that follow it.
 */
module TranslationNotes {
  import opened Sequences
  import opened Wrappers
  import opened Conversation
  import opened Translation
  import opened TranslationCut
  import opened TranslationLoss
  import opened TranslationRules
  import opened TranslationPrefix

  lemma {:induction false} MessageSystemIff(msg: Message, started: bool, mid: bool)
    ensures (exists p :: p in MessageBlocks(msg, started, mid) && p.role == System) ==> started
  {
  }

  /** A system turn is only placed once the conversation has started. */
  lemma {:induction false} SystemFollowsUser(h: seq<Message>, mid: bool)
    ensures (exists p :: p in PlacedBlocks(h, mid) && p.role == System) ==> HasUser(PlacedBlocks(h, mid))
  {
    if h == [] {
    } else {
      var before := PlacedBlocks(h[..|h| - 1], mid);
      SystemFollowsUser(h[..|h| - 1], mid);
      HasUserConcat(before, MessageBlocks(h[|h| - 1], HasUser(before), mid));
      MessageSystemIff(h[|h| - 1], HasUser(before), mid);
    }
  }

  /** The role of the first block that is not a note. */
  function NextVoice(ps: seq<Placed>): Option<Role> {
    if ps == [] then None
    else
      var before, last := NextVoice(ps[..|ps| - 1]), ps[|ps| - 1].role;
      if before.Some? then before else if last == System then None else Some(last)
  }

  /** Whose turn a message asks for, once the conversation has started; a note or nothing asks for none. */
  function VoiceOf(msg: Message): Option<Role> {
    if msg.role == "system" then None
    else if msg.role != "assistant" then Some(User)
    else if msg.thinking.None? && msg.content.IsEmpty() && msg.toolCalls.GetOr([]) == [] then None
    else Some(Assistant)
  }

  /** The first turn these messages ask for. */
  function FirstVoice(m: seq<Message>): Option<Role> {
    if m == [] then None
    else
      var before := FirstVoice(m[..|m| - 1]);
      if before.Some? then before else VoiceOf(m[|m| - 1])
  }

  lemma {:induction false} NextVoiceConcat(a: seq<Placed>, b: seq<Placed>)
    ensures NextVoice(a + b) == if NextVoice(a).Some? then NextVoice(a) else NextVoice(b)
  {
    if b == [] {
      assert a + b == a;
    } else {
      assert (a + b)[..|a + b| - 1] == a + b[..|b| - 1];
      NextVoiceConcat(a, b[..|b| - 1]);
    }
  }

  lemma {:induction false} VoiceOfOne(ps: seq<Placed>, role: Role)
    requires ps != [] && role != System && forall p :: p in ps ==> p.role == role
    ensures NextVoice(ps) == Some(role)
  {
    if |ps| == 1 {
      assert ps[..0] == [];
    } else {
      VoiceOfOne(ps[..|ps| - 1], role);
    }
  }

  lemma {:induction false} VoiceOfBlocks(msg: Message)
    ensures NextVoice(MessageBlocks(msg, true, true)) == VoiceOf(msg)
  {
    var ps := MessageBlocks(msg, true, true);
    if VoiceOf(msg).Some? {
      VoiceOfOne(ps, VoiceOf(msg).value);
    } else if ps != [] {
      assert ps[..0] == [];
    }
  }

  lemma {:induction false} PlacedNext(h: seq<Message>, msg: Message, mid: bool)
    ensures PlacedBlocks(h + [msg], mid)
      == PlacedBlocks(h, mid) + MessageBlocks(msg, HasUser(PlacedBlocks(h, mid)), mid)
  {
    assert (h + [msg])[..|h + [msg]| - 1] == h;
  }

  /** What messages place once the conversation has started. */
  function StartedBlocks(m: seq<Message>): seq<Placed> {
    if m == [] then [] else StartedBlocks(m[..|m| - 1]) + MessageBlocks(m[|m| - 1], true, true)
  }

  lemma {:induction false} StartedVoice(m: seq<Message>)
    ensures NextVoice(StartedBlocks(m)) == FirstVoice(m)
  {
    if m == [] {
    } else {
      var front, last := m[..|m| - 1], m[|m| - 1];
      StartedVoice(front);
      NextVoiceConcat(StartedBlocks(front), MessageBlocks(last, true, true));
      VoiceOfBlocks(last);
    }
  }

  lemma {:induction false} StartedNext(h: seq<Message>, msg: Message)
    requires HasUser(PlacedBlocks(h, true))
    ensures PlacedBlocks(h + [msg], true) == PlacedBlocks(h, true) + MessageBlocks(msg, true, true)
  {
    PlacedNext(h, msg, true);
  }

  lemma {:induction false} StartedSnoc(front: seq<Message>, last: Message)
    ensures StartedBlocks(front + [last]) == StartedBlocks(front) + MessageBlocks(last, true, true)
  {
    assert (front + [last])[..|front|] == front;
  }

  lemma {:induction false} StartedStep(g: seq<Message>, front: seq<Message>, last: Message, p: seq<Placed>)
    requires HasUser(p) && PlacedBlocks(g, true) == p + StartedBlocks(front)
    ensures PlacedBlocks(g + [last], true) == p + StartedBlocks(front + [last])
  {
    HasUserConcat(p, StartedBlocks(front));
    StartedNext(g, last);
    StartedSnoc(front, last);
    AppendAssoc(p, StartedBlocks(front), MessageBlocks(last, true, true));
  }

  lemma {:induction false} StartedSuffix(h: seq<Message>, m: seq<Message>, all: seq<Message>, p: seq<Placed>)
    requires p == PlacedBlocks(h, true) && HasUser(p) && all == h + m
    ensures PlacedBlocks(all, true) == p + StartedBlocks(m)
    decreases |m|
  {
    if m == [] {
      StartedNothing(h, m, all, p);
    } else {
      var front, last := SplitLast(m);
      var g := h + front;
      AppendAssoc(h, front, [last]);
      StartedSuffix(h, front, g, p);
      StartedStep(g, front, last, p);
    }
  }

  lemma {:induction false} StartedNothing(h: seq<Message>, m: seq<Message>, all: seq<Message>, p: seq<Placed>)
    requires m == [] && all == h + m && p == PlacedBlocks(h, true)
    ensures PlacedBlocks(all, true) == p + StartedBlocks(m)
  {
    assert all == h && p + [] == p;
  }

  lemma {:induction false} SplitLast(m: seq<Message>) returns (front: seq<Message>, last: Message)
    requires m != []
    ensures m == front + [last] && |front| < |m|
  {
    front, last := m[..|m| - 1], m[|m| - 1];
  }

  lemma {:induction false} GroupEnds(ps: seq<Placed>)
    requires ps != []
    ensures Group(ps) != [] && Group(ps)[0].role == ps[0].role
    ensures Group(ps)[|Group(ps)| - 1].role == ps[|ps| - 1].role
  {
    if |ps| == 1 {
      assert ps[..0] == [];
    } else {
      GroupEnds(ps[..|ps| - 1]);
    }
  }

  /** After blocks that end in a note, grouping opens its next turn at the first block that is none. */
  lemma {:induction false} GroupNext(p: seq<Placed>, q: seq<Placed>)
    requires p != [] && p[|p| - 1].role == System
    ensures var g, g' := Group(p), Group(p + q);
      if NextVoice(q).None? then |g'| == |g| && g'[|g'| - 1].role == System
      else |g'| > |g| && g'[|g|].role == NextVoice(q).value
  {
    GroupEnds(p);
    if q == [] {
      assert p + q == p;
    } else {
      assert (p + q)[..|p + q| - 1] == p + q[..|q| - 1];
      GroupNext(p, q[..|q| - 1]);
    }
  }

  /** Where nothing is dropped, the turns kept are those grouping made. */
  lemma {:induction false} KeptIsGrouped(h: seq<Message>, mid: bool)
    requires PlacedBlocks(h, mid) != [] && PlacedBlocks(h, mid)[0].role != Assistant
    ensures KeptTurns(h, mid) == Group(PlacedBlocks(h, mid))
  {
    GroupEnds(PlacedBlocks(h, mid));
  }

  lemma {:induction false} NextVoiceIsNoNote(ps: seq<Placed>)
    ensures NextVoice(ps) != Some(System)
  {
    if ps == [] {
    } else {
      NextVoiceIsNoNote(ps[..|ps| - 1]);
    }
  }

  lemma {:induction false} StandsByVoice(sent: seq<Turn>, p: seq<Placed>, q: seq<Placed>)
    requires p != [] && p[|p| - 1].role == System && sent != [] && sent[|sent| - 1].role == System
    ensures LastNoteStands(sent, Group(p), Group(p + q)) <==> NextVoice(q) != Some(User)
  {
    GroupNext(p, q);
    NextVoiceIsNoNote(q);
  }

  lemma {:induction false} SentNoteIsLast(turns: seq<Turn>)
    requires turns != [] && Normalized(turns, |turns|)[|Normalized(turns, |turns|)| - 1].role == System
    ensures turns[|turns| - 1].role == System
  {
  }

  lemma {:induction false} LastPlacedIsNote(h: seq<Message>, p: seq<Placed>)
    requires p == PlacedBlocks(h, true) && p != [] && p[0].role != Assistant && EndsInSystem(Translate(h, true))
    ensures KeptTurns(h, true) == Group(p) && p[|p| - 1].role == System
  {
    KeptIsGrouped(h, true);
    GroupEnds(p);
    SentNoteIsLast(Group(p));
  }

  lemma {:induction false} KeptSuffix(h: seq<Message>, m: seq<Message>) returns (q: seq<Placed>)
    requires HasUser(PlacedBlocks(h, true)) && PlacedBlocks(h, true)[0].role != Assistant
    ensures KeptTurns(h + m, true) == Group(PlacedBlocks(h, true) + q) && NextVoice(q) == FirstVoice(m)
  {
    q := StartedBlocks(m);
    StartedSuffix(h, m, h + m, PlacedBlocks(h, true));
    StartedVoice(m);
    KeptIsGrouped(h + m, true);
  }

  lemma {:induction false} NoteHasUser(h: seq<Message>, p: seq<Placed>)
    requires p == PlacedBlocks(h, true) && p != [] && p[|p| - 1].role == System
    ensures HasUser(p)
  {
    assert p[|p| - 1] in p;
    SystemFollowsUser(h, true);
  }

  lemma {:induction false} StandsGiven(h: seq<Message>, m: seq<Message>, p: seq<Placed>, q: seq<Placed>)
    requires p != [] && p[|p| - 1].role == System
    ensures EndsInSystem(Translate(h, true)) && KeptTurns(h, true) == Group(p) && KeptTurns(h + m, true) == Group(p + q)
      ==> (FinalNoteStands(h, m, true) <==> NextVoice(q) != Some(User))
  {
    if EndsInSystem(Translate(h, true)) {
      StandsByVoice(Translate(h, true), p, q);
    }
  }

  /**
   * For a history that does not begin with the assistant and now ends in a note: the note stays
   * where it was sent exactly when the messages that follow do not speak for the user's side first.
   */
  lemma {:induction false} FinalNoteStandsIff(h: seq<Message>, m: seq<Message>)
    requires PlacedBlocks(h, true) != [] && PlacedBlocks(h, true)[0].role != Assistant
    requires EndsInSystem(Translate(h, true))
    ensures FinalNoteStands(h, m, true) <==> FirstVoice(m) != Some(User)
  {
    var p := PlacedBlocks(h, true);
    LastPlacedIsNote(h, p);
    NoteHasUser(h, p);
    var q := KeptSuffix(h, m);
    StandsGiven(h, m, p, q);
  }

  // ---- histories that begin with the assistant ---------------------------------------------

  /** A note that was sent as one was placed, so the conversation had started. */
  lemma {:induction false} SentNoteHasUser(h: seq<Message>)
    requires EndsInSystem(Translate(h, true))
    ensures EndsInSystem(KeptTurns(h, true)) && HasUser(PlacedBlocks(h, true))
  {
    var kept, p := KeptTurns(h, true), PlacedBlocks(h, true);
    SentNoteIsLast(kept);
    KeptMeaning(h, true);
    TurnIsFlattened(kept, |kept| - 1);
    var j :| 0 <= j < |Flatten(kept)| && Flatten(kept)[j].role == System;
    SurvivorsArePlaced(p, {});
    assert Survivors(p, {})[j] in p;
    SystemFollowsUser(h, true);
  }

  /** The turns kept of a longer history, from the cut of the shorter one on. */
  lemma {:induction false} KeptOfLonger(h: seq<Message>, m: seq<Message>, p: seq<Placed>, q: seq<Placed>)
    requires p == PlacedBlocks(h, true) && PlacedBlocks(h + m, true) == p + q && KeptTurns(h, true) != []
    ensures var cut := CutOf(Group(p), {});
      cut.at < |Group(p)| && KeptTurns(h, true) == Purge(Group(p)[cut.at..], cut.ids)
      && KeptTurns(h + m, true) == Purge(AppendAll(Group(p)[cut.at..], q), cut.ids)
  {
    var turns := Group(p);
    var cut := CutOf(turns, {});
    KeptIsPurged(h, true);
    KeptIsPurged(h + m, true);
    GroupAll(p, q);
    AppendAllContinues(turns, q);
    CutStable(turns, AppendAll(turns, q), {});
    AppendAllFrom(turns, q, cut.at);
  }

  lemma {:induction false} SuffixResults(p: seq<Placed>, q: seq<Placed>)
    requires ResultsAreUsers(p + q)
    ensures ResultsAreUsers(q)
  {
    assert forall i :: 0 <= i < |q| ==> q[i] == (p + q)[|p| + i];
  }

  lemma {:induction false} GroupedEnd(p: seq<Placed>, at: nat)
    requires at < |Group(p)|
    ensures p != [] && Group(p)[at..][|Group(p)[at..]| - 1].role == p[|p| - 1].role
  {
    GroupEnds(p);
  }

  lemma {:induction false} DroppedAtCut(h: seq<Message>, p: seq<Placed>)
    requires p == PlacedBlocks(h, true)
    ensures DroppedIds(p, {}) == CutOf(Group(p), {}).ids
  {
    PlacedResultsAreUsers(h, true);
    GroupMeaning(p);
    DroppedIdsAtCut(Group(p), {});
  }

  /** The first turn kept beyond those kept of the shorter history. */
  predicate OpensTurn(kept: seq<Turn>, all: seq<Turn>, next: Option<Role>) {
    if next.None? then |all| == |kept| else |all| > |kept| && all[|kept|].role == next.value
  }

  lemma {:induction false} CutOpens(turns: seq<Turn>, p: seq<Placed>, q: seq<Placed>, cut: Cut)
    requires turns == Group(p) && cut.at < |turns| && ResultsAreUsers(p + q)
    requires EndsInSystem(Purge(turns[cut.at..], cut.ids))
    ensures p != []
    ensures OpensTurn(Purge(turns[cut.at..], cut.ids), Purge(AppendAll(turns[cut.at..], q), cut.ids),
                      NextTurn(q, cut.ids, p[|p| - 1].role == User))
  {
    GroupedEnd(p, cut.at);
    SuffixResults(p, q);
    NextTurnMeaning(turns[cut.at..], q, cut.ids);
  }

  lemma {:induction false} KeptOpens(h: seq<Message>, m: seq<Message>, p: seq<Placed>, q: seq<Placed>)
    requires p == PlacedBlocks(h, true) && PlacedBlocks(h + m, true) == p + q && EndsInSystem(KeptTurns(h, true))
    ensures p != []
    ensures OpensTurn(KeptTurns(h, true), KeptTurns(h + m, true),
                      NextTurn(q, DroppedIds(p, {}), p[|p| - 1].role == User))
  {
    KeptOfLonger(h, m, p, q);
    PlacedResultsAreUsers(h + m, true);
    DroppedAtCut(h, p);
    CutOpens(Group(p), p, q, CutOf(Group(p), {}));
  }

  lemma {:induction false} StandsByNext(sent: seq<Turn>, kept: seq<Turn>, all: seq<Turn>, next: Option<Role>)
    requires EndsInSystem(sent) && OpensTurn(kept, all, next)
    ensures LastNoteStands(sent, kept, all) <==> next in {None, Some(Assistant)}
  {
  }

  /**
   * For every history that ends in a note: the note stays where it was sent exactly when the next
   * turn the messages after it open is the assistant's or there is none, where a result answering
   * a dropped call opens no turn, but parts the notes around it.
   */
  lemma {:induction false} NoteStandsIff(h: seq<Message>, m: seq<Message>)
    requires EndsInSystem(Translate(h, true))
    ensures var p := PlacedBlocks(h, true);
      p != []
      && (FinalNoteStands(h, m, true)
          <==> NextTurn(StartedBlocks(m), DroppedIds(p, {}), p[|p| - 1].role == User) in {None, Some(Assistant)})
  {
    var p, q := PlacedBlocks(h, true), StartedBlocks(m);
    SentNoteHasUser(h);
    StartedSuffix(h, m, h + m, p);
    KeptOpens(h, m, p, q);
    StandsByNext(Translate(h, true), KeptTurns(h, true), KeptTurns(h + m, true),
                 NextTurn(q, DroppedIds(p, {}), p[|p| - 1].role == User));
  }

  function Said(role: string, text: string): Message {
    Message(role, Text(text), None, None, None)
  }

  lemma {:induction false} FirstIsPlaced(hi: Message)
    requires Speaks(hi) && hi.role != "tool"
    ensures PlacedBlocks([hi], true) == [Placed(User, TextBlock(hi.content.AsText()))]
    ensures HasUser(PlacedBlocks([hi], true))
  {
    PlacedNext([], hi, true);
    assert [] + [hi] == [hi];
    assert PlacedBlocks([hi], true)[0].role == User;
  }

  lemma {:induction false} NoteIsPlaced(hi: Message, note: Message)
    requires Speaks(hi) && hi.role != "tool" && note.role == "system" && !note.content.IsEmpty()
    ensures PlacedBlocks([hi, note], true)
      == [Placed(User, TextBlock(hi.content.AsText())), Placed(System, TextBlock(note.content.AsText()))]
  {
    FirstIsPlaced(hi);
    PlacedNext([hi], note, true);
    assert [hi] + [note] == [hi, note];
  }

  lemma {:induction false} NoteIsGrouped(hi: Placed, note: Placed)
    requires hi.role == User && note.role == System
    ensures Group([hi, note]) == [Turn(User, [hi.block]), Turn(System, [note.block])]
  {
    GroupSnoc([], hi);
    GroupSnoc([hi], note);
    assert [] + [hi] == [hi] && [hi] + [note] == [hi, note];
  }

  lemma {:induction false} NoteIsNormalized(hi: Turn, note: Turn)
    requires hi.role == User && note.role == System
    ensures Normalized([hi, note], 2) == [hi, note]
  {
    assert Normalized([hi, note], 1) == [hi];
  }

  /** A note sent as a system turn, and demoted when the user speaks again. */
  lemma {:induction false} NoteIsDemoted()
    ensures var h, m := [Said("user", "hi"), Said("system", "note")], [Said("user", "go")];
      Translate(h, true) == [Turn(User, [TextBlock("hi")]), Turn(System, [TextBlock("note")])]
      && !Continues(Translate(h, true), Translate(h + m, true))
  {
    var h, m := [Said("user", "hi"), Said("system", "note")], [Said("user", "go")];
    NoteIsPlaced(h[0], h[1]);
    NoteIsGrouped(Placed(User, TextBlock("hi")), Placed(System, TextBlock("note")));
    KeptIsGrouped(h, true);
    NoteIsNormalized(Turn(User, [TextBlock("hi")]), Turn(System, [TextBlock("note")]));
    assert m[..0] == [] && FirstVoice(m) == Some(User);
    FinalNoteStandsIff(h, m);
    TranslateContinuesIff(h, m, true);
  }
}
