/**
 * Prefix stability: extending a history extends what was already sent, so a cached prefix of the
 * request stays valid from round to round.
 */
module TranslationPrefix {
  import opened Conversation
  import opened Translation
  import opened TranslationLoss
  import opened TranslationRules

  /** `b` continues `a`: the same turns, the last one perhaps longer, then more turns. */
  predicate Continues(a: seq<Turn>, b: seq<Turn>) {
    a == []
    || (|a| <= |b|
        && (forall i :: 0 <= i < |a| - 1 ==> a[i] == b[i])
        && a[|a| - 1].role == b[|a| - 1].role
        && a[|a| - 1].blocks <= b[|a| - 1].blocks)
  }

  lemma {:induction false} ContinuesTrans(a: seq<Turn>, b: seq<Turn>, c: seq<Turn>)
    requires Continues(a, b) && Continues(b, c)
    ensures Continues(a, c)
  {
    if a != [] && |a| < |b| {
      assert b[|a| - 1] == c[|a| - 1];
    }
  }

  lemma {:induction false} AppendContinues(turns: seq<Turn>, role: Role, blocks: seq<Block>)
    ensures Continues(turns, Append(turns, role, blocks))
  {
  }

  lemma {:induction false} GroupContinues(p: seq<Placed>, q: seq<Placed>)
    ensures Continues(Group(p), Group(p + q))
  {
    if q == [] {
      assert p + q == p;
    } else {
      var q' := q[..|q| - 1];
      assert (p + q)[..|p + q| - 1] == p + q';
      GroupContinues(p, q');
      AppendContinues(Group(p + q'), q[|q| - 1].role, [q[|q| - 1].block]);
      ContinuesTrans(Group(p), Group(p + q'), Group(p + q));
    }
  }

  lemma {:induction false} PlacedExtend(h: seq<Message>, m: seq<Message>, mid: bool)
    ensures PlacedBlocks(h, mid) <= PlacedBlocks(h + m, mid)
  {
    if m == [] {
      assert h + m == h;
    } else {
      assert (h + m)[..|h + m| - 1] == h + m[..|m| - 1];
      PlacedExtend(h, m[..|m| - 1], mid);
    }
  }

  // ---- dropping ----------------------------------------------------------------------------

  lemma {:induction false} KeepConcat(a: seq<Block>, b: seq<Block>, ids: set<string>)
    ensures Keep(a + b, ids) == Keep(a, ids) + Keep(b, ids)
  {
    if a == [] {
      assert a + b == b;
    } else {
      assert (a + b)[1..] == a[1..] + b;
      KeepConcat(a[1..], b, ids);
    }
  }

  lemma {:induction false} ConsContinues(t: Turn, a: seq<Turn>, b: seq<Turn>)
    requires Continues(a, b)
    ensures Continues([t] + a, [t] + b)
  {
    var x, y := [t] + a, [t] + b;
    forall i | 0 <= i < |x| - 1 ensures x[i] == y[i] {
      if i > 0 {
        assert x[i] == a[i - 1] && y[i] == b[i - 1];
      }
    }
    if a != [] {
      assert x[|x| - 1] == a[|a| - 1] && y[|x| - 1] == b[|a| - 1];
    }
  }

  lemma {:induction false} TailContinues(a: seq<Turn>, b: seq<Turn>)
    requires Continues(a, b) && |a| >= 2
    ensures a[0] == b[0] && Continues(a[1..], b[1..])
  {
    assert a[1..][|a| - 2] == a[|a| - 1] && b[1..][|a| - 2] == b[|a| - 1];
  }

  /** One turn, perhaps longer and with turns after it, with and without what is left empty. */
  lemma {:induction false} StripContinues(a: Turn, b: Turn, ids: set<string>, later: seq<Turn>)
    requires a.role == b.role && a.blocks <= b.blocks
    ensures var x, y := Strip(a, ids), Strip(b, ids);
      Continues(if x.role == User && x.blocks == [] then [] else [x],
                (if y.role == User && y.blocks == [] then [] else [y]) + later)
  {
    var more := b.blocks[|a.blocks|..];
    assert b.blocks == a.blocks + more;
    KeepConcat(a.blocks, more, ids);
  }

  lemma {:induction false} PurgeContinues(a: seq<Turn>, b: seq<Turn>, ids: set<string>)
    requires Continues(a, b)
    ensures Continues(Purge(a, ids), Purge(b, ids))
  {
    if a == [] {
    } else {
      PurgeHead(a, ids);
      PurgeHead(b, ids);
      if |a| == 1 {
        assert Purge(a[1..], ids) == [];
        StripContinues(a[0], b[0], ids, Purge(b[1..], ids));
      } else {
        TailContinues(a, b);
        PurgeContinues(a[1..], b[1..], ids);
        ConsContinues(Strip(a[0], ids), Purge(a[1..], ids), Purge(b[1..], ids));
      }
    }
  }

  lemma {:induction false} DropLeadingContinues(a: seq<Turn>, b: seq<Turn>)
    requires Continues(a, b)
    ensures Continues(DropLeading(a), DropLeading(b))
    decreases |a|
  {
    if a != [] && a[0].role == Assistant {
      if |a| == 1 {
        assert DropFirst(a) == [];
      } else {
        TailContinues(a, b);
        PurgeContinues(a[1..], b[1..], CallIds(a[0].blocks));
        DropLeadingContinues(DropFirst(a), DropFirst(b));
      }
    }
  }

  lemma {:induction false} GroupPrefix(p: seq<Placed>, p': seq<Placed>)
    requires p <= p'
    ensures Continues(Group(p), Group(p'))
  {
    GroupContinues(p, p'[|p|..]);
    assert p' == p + p'[|p|..];
  }

  lemma {:induction false} KeptContinues(h: seq<Message>, m: seq<Message>, mid: bool)
    ensures Continues(KeptTurns(h, mid), KeptTurns(h + m, mid))
  {
    PlacedExtend(h, m, mid);
    GroupPrefix(PlacedBlocks(h, mid), PlacedBlocks(h + m, mid));
    DropLeadingContinues(Group(PlacedBlocks(h, mid)), Group(PlacedBlocks(h + m, mid)));
  }

  // ---- demotion ----------------------------------------------------------------------------

  lemma {:induction false} SentRoleAgree(sent: seq<Turn>, a: seq<Turn>, b: seq<Turn>, i: nat)
    requires i + 1 < |a| && i + 1 < |b| && a[i] == b[i] && a[i + 1].role == b[i + 1].role
    ensures SentRole(sent, a, i) == SentRole(sent, b, i)
  {
  }

  lemma {:induction false} NormalizedAgree(a: seq<Turn>, b: seq<Turn>, n: nat)
    requires n < |a| && n < |b|
    requires forall i :: 0 <= i < n ==> a[i] == b[i]
    requires a[n].role == b[n].role
    ensures Normalized(a, n) == Normalized(b, n)
  {
    if n == 0 {
    } else {
      NormalizedAgree(a, b, n - 1);
      SentRoleAgree(Normalized(a, n - 1), a, b, n - 1);
    }
  }

  lemma {:induction false} NormalizedContinues(turns: seq<Turn>, n: nat, m: nat)
    requires n <= m <= |turns|
    ensures Continues(Normalized(turns, n), Normalized(turns, m))
    decreases m
  {
    if n == m {
    } else {
      NormalizedContinues(turns, n, m - 1);
      var sent := Normalized(turns, m - 1);
      AppendContinues(sent, SentRole(sent, turns, m - 1), turns[m - 1].blocks);
      ContinuesTrans(Normalized(turns, n), sent, Normalized(turns, m));
    }
  }

  /** What was sent, with its final system turn folded into the user turn before it. */
  function Folded(turns: seq<Turn>): seq<Turn> {
    if turns == [] then [] else Append(turns[..|turns| - 1], User, turns[|turns| - 1].blocks)
  }

  /** A final system turn stands unless what now follows it is not an assistant turn. */
  predicate LastNoteStands(sent: seq<Turn>, a: seq<Turn>, b: seq<Turn>) {
    sent != [] && sent[|sent| - 1].role == System && |a| < |b| ==> b[|a|].role == Assistant
  }

  predicate FinalNoteStands(h: seq<Message>, m: seq<Message>, mid: bool) {
    LastNoteStands(Translate(h, mid), KeptTurns(h, mid), KeptTurns(h + m, mid))
  }

  lemma {:induction false} AppendLongerContinues(turns: seq<Turn>, role: Role, blocks: seq<Block>, longer: seq<Block>)
    requires blocks <= longer
    ensures Continues(Append(turns, role, blocks), Append(turns, role, longer))
  {
  }

  /** The step at the last turn of the shorter list, where the two runs may part. */
  lemma {:induction false} LastTurnContinues(sent: seq<Turn>, a: seq<Turn>, b: seq<Turn>)
    requires a != [] && Continues(a, b) && Sendable(sent) && a[|a| - 1].blocks != []
    requires sent == [] ==> a[|a| - 1].role != Assistant
    requires sent != [] && sent[|sent| - 1].role == System ==> a[|a| - 1].role == Assistant
    ensures var n := |a| - 1;
      var t := Append(sent, SentRole(sent, a, n), a[n].blocks);
      var t' := Append(sent, SentRole(sent, b, n), b[n].blocks);
      if LastNoteStands(t, a, b) then Continues(t, t') else Continues(Folded(t), t')
  {
    var n := |a| - 1;
    var t := Append(sent, SentRole(sent, a, n), a[n].blocks);
    AppendLongerContinues(sent, SentRole(sent, b, n), a[n].blocks, b[n].blocks);
    if t[|t| - 1].role == System {
      assert |t| == |sent| + 1 && t[..|t| - 1] == sent;
    }
  }

  lemma {:induction false} NormalizedAllContinue(a: seq<Turn>, b: seq<Turn>)
    requires a != [] && Continues(a, b) && NoEmptyTurn(a) && a[0].role != Assistant
    ensures var t, t' := Normalized(a, |a|), Normalized(b, |b|);
      if LastNoteStands(t, a, b) then Continues(t, t') else Continues(Folded(t), t')
  {
    var n := |a| - 1;
    var sent, t := Normalized(a, n), Normalized(a, |a|);
    NormalizedSendable(a, n);
    NormalizedAgree(a, b, n);
    LastTurnContinues(sent, a, b);
    assert t == Append(sent, SentRole(sent, a, n), a[n].blocks);
    var t' := Normalized(b, n + 1);
    assert t' == Append(sent, SentRole(sent, b, n), b[n].blocks);
    NormalizedContinues(b, n + 1, |b|);
    ContinuesTrans(if LastNoteStands(t, a, b) then t else Folded(t), t', Normalized(b, |b|));
  }

  /**
   * Prefix stability. What is sent for a history is continued by what is sent for any extension,
   * except that the final system turn is folded into the user turn before it when it may no longer
   * stand.
   */
  lemma {:induction false} TranslateContinues(h: seq<Message>, m: seq<Message>, mid: bool)
    ensures FinalNoteStands(h, m, mid) ==> Continues(Translate(h, mid), Translate(h + m, mid))
    ensures !FinalNoteStands(h, m, mid) ==> Continues(Folded(Translate(h, mid)), Translate(h + m, mid))
  {
    KeptContinues(h, m, mid);
    KeptMeaning(h, mid);
    if KeptTurns(h, mid) != [] {
      NormalizedAllContinue(KeptTurns(h, mid), KeptTurns(h + m, mid));
    }
  }

  /** Exactly then: a note that may not stand is no longer where it was sent. */
  lemma {:induction false} TranslateContinuesIff(h: seq<Message>, m: seq<Message>, mid: bool)
    ensures Continues(Translate(h, mid), Translate(h + m, mid)) <==> FinalNoteStands(h, m, mid)
  {
    TranslateContinues(h, m, mid);
    TranslateSendable(h, mid);
    if !FinalNoteStands(h, m, mid) {
      FoldedOrNot(Translate(h, mid), Translate(h + m, mid));
    }
  }

  lemma {:induction false} FoldedOrNot(t: seq<Turn>, t': seq<Turn>)
    requires Sendable(t) && t != [] && t[|t| - 1].role == System && Continues(Folded(t), t')
    ensures !Continues(t, t')
  {
    var f := Folded(t);
    assert |f| == |t| - 1 && f[|f| - 1].blocks == t[|t| - 2].blocks + t[|t| - 1].blocks;
    assert |t'[|t| - 2].blocks| > |t[|t| - 2].blocks|;
  }

  // ---- what that means for the flat list ---------------------------------------------------

  lemma {:induction false} FlattenPrefix(a: seq<Turn>, b: seq<Turn>)
    requires Continues(a, b)
    ensures Flatten(a) <= Flatten(b)
  {
    if a == [] {
    } else {
      FlattenHead(a);
      FlattenHead(b);
      if |a| == 1 {
        assert a[1..] == [];
        assert Tag(a[0]) <= Tag(b[0]);
      } else {
        TailContinues(a, b);
        FlattenPrefix(a[1..], b[1..]);
      }
    }
  }

  lemma {:induction false} FoldedBlocks(t: seq<Turn>)
    ensures BlocksOf(Flatten(Folded(t))) == BlocksOf(Flatten(t))
  {
    if t != [] {
      var front, last := t[..|t| - 1], t[|t| - 1];
      FlattenAppend(front, User, last.blocks);
      assert Flatten(t) == Flatten(front) + Tag(last);
    }
  }

  lemma {:induction false} BlocksPrefix(a: seq<Placed>, b: seq<Placed>)
    requires a <= b
    ensures BlocksOf(a) <= BlocksOf(b)
  {
  }

  /** In either mode the blocks sent for a history are a prefix of those sent for any extension. */
  lemma {:induction false} BlocksArePrefix(h: seq<Message>, m: seq<Message>, mid: bool)
    ensures BlocksOf(Flatten(Translate(h, mid))) <= BlocksOf(Flatten(Translate(h + m, mid)))
  {
    TranslateContinues(h, m, mid);
    var t, t' := Translate(h, mid), Translate(h + m, mid);
    var sent := if FinalNoteStands(h, m, mid) then t else Folded(t);
    FlattenPrefix(sent, t');
    BlocksPrefix(Flatten(sent), Flatten(t'));
    FoldedBlocks(t);
  }

  /** Without mid-conversation system turns, roles are stable as well. */
  lemma {:induction false} RolesArePrefix(h: seq<Message>, m: seq<Message>)
    ensures Flatten(Translate(h, false)) <= Flatten(Translate(h + m, false))
  {
    TranslateContinues(h, m, false);
    var t := Translate(h, false);
    if t != [] {
      NoSystemTurnUnlessSupported(h, |t| - 1);
    }
    FlattenPrefix(t, Translate(h + m, false));
  }

  /** The turns up to the last one that is not a system turn. */
  function BeforeFinalNote(t: seq<Turn>): seq<Turn> {
    if t != [] && t[|t| - 1].role == System then t[..|t| - 1] else t
  }

  /** With them or without, the turns before a final system turn are continued as sent. */
  lemma {:induction false} EarlierTurnsContinue(h: seq<Message>, m: seq<Message>, mid: bool)
    ensures Continues(BeforeFinalNote(Translate(h, mid)), Translate(h + m, mid))
  {
    TranslateContinues(h, m, mid);
    var t, t' := Translate(h, mid), Translate(h + m, mid);
    if t != [] && t[|t| - 1].role == System {
      var front := t[..|t| - 1];
      TranslateSendable(h, mid);
      if FinalNoteStands(h, m, mid) {
        AppendContinues(front, System, t[|t| - 1].blocks);
        assert Append(front, System, t[|t| - 1].blocks) == t;
        ContinuesTrans(front, t, t');
      } else {
        AppendContinues(front, User, t[|t| - 1].blocks);
        ContinuesTrans(front, Folded(t), t');
      }
    }
  }

  /** So every block outside the final system turn keeps its role. */
  lemma {:induction false} EarlierRolesArePrefix(h: seq<Message>, m: seq<Message>, mid: bool)
    ensures Flatten(BeforeFinalNote(Translate(h, mid))) <= Flatten(Translate(h + m, mid))
  {
    EarlierTurnsContinue(h, m, mid);
    FlattenPrefix(BeforeFinalNote(Translate(h, mid)), Translate(h + m, mid));
  }

  /** On the wire: the same messages, the last one perhaps with more blocks, then more messages. */
  predicate WireContinues(a: seq<WireTurn>, b: seq<WireTurn>) {
    a != [] ==>
      var n := |a| - 1;
      |a| <= |b| && a[..n] == b[..n]
      && a[n].Exchange? && b[n].Exchange? && a[n].role == b[n].role && a[n].content <= b[n].content
  }

  lemma {:induction false} EarlierWireContinues(h: seq<Message>, m: seq<Message>, mid: bool)
    ensures WireContinues(AllToWire(BeforeFinalNote(Translate(h, mid))), AllToWire(Translate(h + m, mid)))
  {
    var a, b := BeforeFinalNote(Translate(h, mid)), Translate(h + m, mid);
    EarlierTurnsContinue(h, m, mid);
    TranslateSendable(h, mid);
    if a != [] {
      var n := |a| - 1;
      assert a[n].role != System;
      assert forall i :: 0 <= i < n ==> a[i] == b[i];
      assert AllToWire(a)[..n] == AllToWire(b)[..n];
    }
  }

  // ---- the top-level system string ---------------------------------------------------------

  /** A message that speaks for the user's side: neither a system note nor the assistant's. */
  predicate Speaks(msg: Message) {
    msg.role != "system" && msg.role != "assistant"
  }

  /** How many messages precede the first that speaks for the user's side. */
  function LeadLength(h: seq<Message>): (n: nat)
    ensures n <= |h|
  {
    if h == [] then 0
    else
      var n := LeadLength(h[..|h| - 1]);
      if n < |h| - 1 || Speaks(h[|h| - 1]) then n else |h|
  }

  /** The texts of the non-empty system notes. */
  function Notes(h: seq<Message>): seq<string> {
    if h == [] then []
    else
      var msg := h[|h| - 1];
      Notes(h[..|h| - 1]) + (if msg.role == "system" && !msg.content.IsEmpty() then [msg.content.AsText()] else [])
  }

  lemma {:induction false} MessageHasUserIff(msg: Message, started: bool, mid: bool)
    ensures HasUser(MessageBlocks(msg, started, mid)) ==> Speaks(msg) || started
    ensures Speaks(msg) ==> HasUser(MessageBlocks(msg, started, mid))
  {
    if Speaks(msg) {
      assert MessageBlocks(msg, started, mid)[0].role == User;
    }
  }

  predicate Started(h: seq<Message>, mid: bool) {
    HasUser(PlacedBlocks(h, mid))
  }

  lemma {:induction false} StartedSnoc(h: seq<Message>, msg: Message, mid: bool)
    ensures Started(h + [msg], mid) <==> Started(h, mid) || Speaks(msg)
  {
    var all, before := h + [msg], PlacedBlocks(h, mid);
    assert all[..|all| - 1] == h;
    HasUserConcat(before, MessageBlocks(msg, HasUser(before), mid));
    MessageHasUserIff(msg, HasUser(before), mid);
  }

  /** The conversation has started exactly when some message speaks for the user's side. */
  lemma {:induction false} StartedIff(h: seq<Message>, mid: bool)
    ensures Started(h, mid) <==> LeadLength(h) < |h|
  {
    if h == [] {
    } else {
      var front, msg := h[..|h| - 1], h[|h| - 1];
      StartedIff(front, mid);
      StartedSnoc(front, msg, mid);
      LeadLengthSnoc(front, msg);
      assert front + [msg] == h;
    }
  }

  lemma {:induction false} LeadLengthSnoc(h: seq<Message>, msg: Message)
    ensures LeadLength(h + [msg]) == if LeadLength(h) < |h| || Speaks(msg) then LeadLength(h) else |h| + 1
  {
    var all := h + [msg];
    assert all[..|all| - 1] == h;
  }

  lemma {:induction false} HoistedSnoc(h: seq<Message>, msg: Message, mid: bool)
    ensures Hoisted(h + [msg], mid)
      == if IsHoisted(msg, Started(h, mid)) then Hoisted(h, mid) + [msg.content.AsText()]
         else Hoisted(h, mid)
  {
    var all := h + [msg];
    assert all[..|all| - 1] == h;
  }

  lemma {:induction false} NotesSnoc(h: seq<Message>, msg: Message)
    ensures Notes(h + [msg]) == if IsHoisted(msg, false) then Notes(h) + [msg.content.AsText()] else Notes(h)
  {
    var all := h + [msg];
    assert all[..|all| - 1] == h;
  }

  /** The notes before the first message that speaks for the user's side. */
  function LeadNotes(h: seq<Message>): seq<string> {
    Notes(h[..LeadLength(h)])
  }

  lemma {:induction false} LeadNotesSnoc(h: seq<Message>, msg: Message)
    ensures LeadNotes(h + [msg])
      == if IsHoisted(msg, LeadLength(h) < |h|) then LeadNotes(h) + [msg.content.AsText()] else LeadNotes(h)
  {
    var n := LeadLength(h);
    LeadLengthSnoc(h, msg);
    if n < |h| || Speaks(msg) {
      assert (h + [msg])[..n] == h[..n];
    } else {
      NotesSnoc(h, msg);
      assert h[..n] == h;
      assert (h + [msg])[..n + 1] == h + [msg];
    }
  }

  lemma {:induction false} HoistedStep(h: seq<Message>, msg: Message, mid: bool, all: seq<Message>)
    requires Hoisted(h, mid) == LeadNotes(h) && all == h + [msg]
    ensures Hoisted(all, mid) == LeadNotes(all)
  {
    StartedIff(h, mid);
    HoistedSnoc(h, msg, mid);
    LeadNotesSnoc(h, msg);
  }

  /** In either mode those are the notes hoisted to the system string. */
  lemma {:induction false} HoistedMeaning(h: seq<Message>, mid: bool)
    ensures Hoisted(h, mid) == LeadNotes(h)
  {
    if h == [] {
      assert LeadNotes([]) == [];
    } else {
      var front, msg := h[..|h| - 1], h[|h| - 1];
      HoistedMeaning(front, mid);
      HoistedStep(front, msg, mid, h);
    }
  }

  /** Once a history has a user turn, no extension changes the top-level system string. */
  lemma {:induction false} SystemStringIsFixed(h: seq<Message>, m: seq<Message>, mid: bool)
    requires HasUser(PlacedBlocks(h, mid))
    ensures SystemText(h + m, mid) == SystemText(h, mid)
    ensures Hoisted(h + m, mid) == Hoisted(h, mid)
  {
    if m == [] {
      assert h + m == h;
    } else {
      var m' := m[..|m| - 1];
      assert (h + m)[..|h + m| - 1] == h + m';
      SystemStringIsFixed(h, m', mid);
      PlacedExtend(h, m', mid);
      var i :| 0 <= i < |PlacedBlocks(h, mid)| && PlacedBlocks(h, mid)[i].role == User;
      assert PlacedBlocks(h + m', mid)[i].role == User;
    }
  }

  /** Before that, a non-empty system message lands there and nowhere else. */
  lemma {:induction false} NoteBeforeUserIsHoisted(h: seq<Message>, note: Message, mid: bool)
    requires note.role == "system" && !note.content.IsEmpty() && !HasUser(PlacedBlocks(h, mid))
    ensures Hoisted(h + [note], mid) == Hoisted(h, mid) + [note.content.AsText()]
    ensures PlacedBlocks(h + [note], mid) == PlacedBlocks(h, mid)
  {
    var h' := h + [note];
    HoistedSnoc(h, note, mid);
    assert h'[..|h'| - 1] == h && h'[|h'| - 1] == note;
    assert PlacedBlocks(h', mid) == PlacedBlocks(h, mid) + [];
  }
}
