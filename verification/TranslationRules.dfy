/** The upstream protocol's rules on turns, which every translated history obeys. */
module TranslationRules {
  import opened Conversation
  import opened Translation
  import opened TranslationLoss

  predicate StartsWithUser(turns: seq<Turn>) {
    turns != [] ==> turns[0].role == User
  }

  predicate NoEmptyTurn(turns: seq<Turn>) {
    forall i :: 0 <= i < |turns| ==> turns[i].blocks != []
  }

  predicate RolesAlternate(turns: seq<Turn>) {
    forall i :: 0 < i < |turns| ==> turns[i - 1].role != turns[i].role
  }

  /** Where a system turn may stand: after a user turn, and last or before an assistant turn. */
  predicate SystemTurnsPlaced(turns: seq<Turn>) {
    forall i :: 0 <= i < |turns| && turns[i].role == System ==>
      i > 0 && turns[i - 1].role == User
      && (i + 1 < |turns| ==> turns[i + 1].role == Assistant)
  }

  predicate Sendable(turns: seq<Turn>) {
    StartsWithUser(turns) && NoEmptyTurn(turns) && RolesAlternate(turns) && SystemTurnsPlaced(turns)
  }

  lemma {:induction false} AppendSendable(turns: seq<Turn>, role: Role, blocks: seq<Block>)
    requires Sendable(turns) && blocks != []
    requires turns == [] ==> role == User
    requires role == System ==> turns[|turns| - 1].role == User
    requires turns != [] && turns[|turns| - 1].role == System ==> role == Assistant
    ensures Sendable(Append(turns, role, blocks))
  {
    var r := Append(turns, role, blocks);
    assert forall i :: 0 <= i < |turns| ==> r[i].role == turns[i].role;
  }

  lemma {:induction false} NormalizedSendable(turns: seq<Turn>, n: nat)
    requires n <= |turns|
    requires NoEmptyTurn(turns) && (turns != [] ==> turns[0].role != Assistant)
    ensures Sendable(Normalized(turns, n))
    ensures Normalized(turns, n) == [] <==> n == 0
    ensures var out := Normalized(turns, n);
      n > 0 && n < |turns| && out[|out| - 1].role == System ==> turns[n].role == Assistant
  {
    if n == 0 {
    } else {
      NormalizedSendable(turns, n - 1);
      var sent := Normalized(turns, n - 1);
      AppendSendable(sent, SentRole(sent, turns, n - 1), turns[n - 1].blocks);
    }
  }

  lemma {:induction false} TurnIsFlattened(turns: seq<Turn>, i: nat)
    requires i < |turns| && turns[i].blocks != []
    ensures exists j :: 0 <= j < |Flatten(turns)| && Flatten(turns)[j].role == turns[i].role
  {
    var last := |turns| - 1;
    if i == last {
      var j := |Flatten(turns[..last])|;
      assert Flatten(turns)[j] == Tag(turns[last])[0];
    } else {
      TurnIsFlattened(turns[..last], i);
      var j :| 0 <= j < |Flatten(turns[..last])| && Flatten(turns[..last])[j].role == turns[i].role;
      assert Flatten(turns)[j] == Flatten(turns[..last])[j];
    }
  }

  lemma {:induction false} NoSystemPlaced(h: seq<Message>)
    ensures forall p :: p in PlacedBlocks(h, false) ==> p.role != System
  {
    if h == [] {
    } else {
      NoSystemPlaced(h[..|h| - 1]);
    }
  }

  lemma {:induction false} SurvivorsArePlaced(ps: seq<Placed>, d: set<string>)
    ensures forall p :: p in Survivors(ps, d) ==> p in ps
  {
    if ps == [] {
    } else {
      SurvivorsArePlaced(ps[1..], d);
      SurvivorsArePlaced(ps[1..], d + PlacedCallIds([ps[0]]));
      WithoutMembers(ps, d);
    }
  }

  /** Every translated history, in either mode, obeys all the rules. */
  lemma {:induction false} TranslateSendable(h: seq<Message>, mid: bool)
    ensures Sendable(Translate(h, mid))
  {
    KeptMeaning(h, mid);
    NormalizedSendable(KeptTurns(h, mid), |KeptTurns(h, mid)|);
  }

  /** Where the upstream model takes no system turns, none is sent. */
  lemma {:induction false} NoSystemTurnUnlessSupported(h: seq<Message>, i: nat)
    requires i < |Translate(h, false)|
    ensures Translate(h, false)[i].role != System
  {
    var ps, out := PlacedBlocks(h, false), Flatten(Translate(h, false));
    TranslateSendable(h, false);
    TurnIsFlattened(Translate(h, false), i);
    var j :| 0 <= j < |out| && out[j].role == Translate(h, false)[i].role;
    TranslateKeepsSurvivors(h, false);
    NoSystemPlaced(h);
    SurvivorsArePlaced(ps, {});
    assert Survivors(ps, {})[j] in ps;
  }
}
