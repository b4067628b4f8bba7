/**
 * Dropping leading turns, told on the turns as they were grouped: everything before one cut goes,
 * and what follows is purged of the results that answer the calls dropped.
 */
module TranslationCut {
  import opened Wrappers
  import opened Conversation
  import opened Translation
  import opened TranslationLoss
  import opened TranslationPrefix

  predicate IsEmptied(turn: Turn) {
    turn.role == User && turn.blocks == []
  }

  /** Dropping leading turns of turns already known to lose the results answering `d`. */
  function DropWith(turns: seq<Turn>, d: set<string>): seq<Turn> {
    if turns == [] then []
    else
      var first := Strip(turns[0], d);
      if IsEmptied(first) then DropWith(turns[1..], d)
      else if first.role == Assistant then DropWith(turns[1..], d + CallIds(first.blocks))
      else Purge(turns, d)
  }

  /** Where the first turn kept is, and the ids of the calls dropped before it. */
  datatype Cut = Cut(at: nat, ids: set<string>) {
    function Later(): Cut { Cut(at + 1, ids) }
  }

  function CutOf(turns: seq<Turn>, d: set<string>): (c: Cut)
    ensures c.at <= |turns|
  {
    if turns == [] then Cut(0, d)
    else
      var first := Strip(turns[0], d);
      if IsEmptied(first) then CutOf(turns[1..], d).Later()
      else if first.role == Assistant then CutOf(turns[1..], d + CallIds(first.blocks)).Later()
      else Cut(0, d)
  }

  // ---- purging twice -----------------------------------------------------------------------

  lemma {:induction false} KeepTwice(blocks: seq<Block>, d: set<string>, e: set<string>)
    ensures Keep(Keep(blocks, d), e) == Keep(blocks, d + e)
  {
    if blocks == [] {
    } else {
      KeepTwice(blocks[1..], d, e);
      if !Answers(blocks[0], d) {
        assert ([blocks[0]] + Keep(blocks[1..], d))[1..] == Keep(blocks[1..], d);
      }
    }
  }

  lemma {:induction false} PurgeCons(first: Turn, rest: seq<Turn>, e: set<string>)
    ensures Purge([first] + rest, e)
      == (if IsEmptied(Strip(first, e)) then [] else [Strip(first, e)]) + Purge(rest, e)
  {
    PurgeHead([first] + rest, e);
    assert ([first] + rest)[1..] == rest;
  }

  lemma {:induction false} PurgeTwice(turns: seq<Turn>, d: set<string>, e: set<string>)
    ensures Purge(Purge(turns, d), e) == Purge(turns, d + e)
  {
    if turns == [] {
    } else {
      var first, rest := Strip(turns[0], d), turns[1..];
      PurgeHead(turns, d);
      PurgeHead(turns, d + e);
      PurgeTwice(rest, d, e);
      KeepTwice(turns[0].blocks, d, e);
      assert Strip(first, e) == Strip(turns[0], d + e);
      if IsEmptied(first) {
        assert [] + Purge(rest, d) == Purge(rest, d);
      } else {
        PurgeCons(first, Purge(rest, d), e);
      }
    }
  }

  lemma {:induction false} PurgeNothing(turns: seq<Turn>)
    requires forall i :: 0 <= i < |turns| ==> turns[i].blocks != []
    ensures Purge(turns, {}) == turns
  {
    if turns == [] {
    } else {
      PurgeHead(turns, {});
      PurgeNothing(turns[1..]);
      KeepNothing(turns[0].blocks);
    }
  }

  lemma {:induction false} KeepNothing(blocks: seq<Block>)
    ensures Keep(blocks, {}) == blocks
  {
    if blocks == [] {
    } else {
      KeepNothing(blocks[1..]);
    }
  }

  lemma {:induction false} DropLeadingCons(first: Turn, rest: seq<Turn>)
    ensures DropLeading([first] + rest)
      == if first.role != Assistant then [first] + rest
         else if CallIds(first.blocks) == {} then DropLeading(rest)
         else DropLeading(Purge(rest, CallIds(first.blocks)))
  {
    assert ([first] + rest)[1..] == rest;
  }

  /** One pass over the grouped turns leaves what the loop leaves. */
  lemma {:induction false} DropWithIsLoop(turns: seq<Turn>, d: set<string>)
    ensures DropLeading(Purge(turns, d)) == DropWith(turns, d)
  {
    if turns == [] {
    } else {
      var first, rest := Strip(turns[0], d), turns[1..];
      PurgeHead(turns, d);
      if IsEmptied(first) {
        DropWithIsLoop(rest, d);
        assert [] + Purge(rest, d) == Purge(rest, d);
      } else {
        DropLeadingCons(first, Purge(rest, d));
        if first.role == Assistant {
          var ids := CallIds(first.blocks);
          DropWithIsLoop(rest, d + ids);
          PurgeTwice(rest, d, ids);
          assert ids == {} ==> d + ids == d;
        }
      }
    }
  }

  lemma {:induction false} DropWithIsPurge(turns: seq<Turn>, d: set<string>)
    ensures DropWith(turns, d) == Purge(turns[CutOf(turns, d).at..], CutOf(turns, d).ids)
  {
    if turns == [] {
    } else {
      var first, rest := Strip(turns[0], d), turns[1..];
      if IsEmptied(first) {
        DropWithIsPurge(rest, d);
        assert turns[CutOf(turns, d).at..] == rest[CutOf(rest, d).at..];
      } else if first.role == Assistant {
        var d' := d + CallIds(first.blocks);
        DropWithIsPurge(rest, d');
        assert turns[CutOf(turns, d).at..] == rest[CutOf(rest, d').at..];
      } else {
        assert turns[0..] == turns;
      }
    }
  }

  /** What the first two passes keep: the grouped turns from the cut on, purged. */
  lemma {:induction false} KeptIsPurged(h: seq<Message>, mid: bool)
    ensures var turns := Group(PlacedBlocks(h, mid));
      KeptTurns(h, mid) == Purge(turns[CutOf(turns, {}).at..], CutOf(turns, {}).ids)
  {
    var turns := Group(PlacedBlocks(h, mid));
    PlacedResultsAreUsers(h, mid);
    GroupMeaning(PlacedBlocks(h, mid));
    PurgeNothing(turns);
    DropWithIsLoop(turns, {});
    DropWithIsPurge(turns, {});
  }

  /** Once some turn is kept, more turns do not move the cut. */
  lemma {:induction false} CutStable(a: seq<Turn>, b: seq<Turn>, d: set<string>)
    requires Continues(a, b) && CutOf(a, d).at < |a|
    ensures CutOf(b, d) == CutOf(a, d)
  {
    if |a| == 1 {
      var more := b[0].blocks[|a[0].blocks|..];
      assert b[0].blocks == a[0].blocks + more;
      KeepConcat(a[0].blocks, more, d);
      assert a[1..] == [];
    } else {
      TailContinues(a, b);
      var first := Strip(a[0], d);
      if IsEmptied(first) {
        CutStable(a[1..], b[1..], d);
      } else if first.role == Assistant {
        CutStable(a[1..], b[1..], d + CallIds(first.blocks));
      }
    }
  }

  // ---- the dropped ids, on the flat list ---------------------------------------------------

  /** The ids of the calls dropped before the first block kept. */
  function DroppedIds(ps: seq<Placed>, d: set<string>): set<string> {
    if ps == [] then d
    else if ps[0].role == Assistant then DroppedIds(ps[1..], d + PlacedCallIds([ps[0]]))
    else if Answers(ps[0].block, d) then DroppedIds(ps[1..], d)
    else d
  }

  lemma {:induction false} TagHead(role: Role, blocks: seq<Block>, rest: seq<Placed>)
    requires blocks != []
    ensures var ps := Tag(Turn(role, blocks)) + rest;
      ps[0] == Placed(role, blocks[0]) && ps[1..] == Tag(Turn(role, blocks[1..])) + rest
  {
  }

  lemma {:induction false} DroppedByAssistant(blocks: seq<Block>, rest: seq<Placed>, d: set<string>)
    ensures DroppedIds(Tag(Turn(Assistant, blocks)) + rest, d) == DroppedIds(rest, d + CallIds(blocks))
  {
    if blocks == [] {
      assert Tag(Turn(Assistant, blocks)) + rest == rest && d + CallIds(blocks) == d;
    } else {
      TagHead(Assistant, blocks, rest);
      var ids := PlacedCallIds([Placed(Assistant, blocks[0])]);
      DroppedByAssistant(blocks[1..], rest, d + ids);
      assert blocks == [blocks[0]] + blocks[1..];
      assert ids == CallIds([blocks[0]]);
      assert d + ids + CallIds(blocks[1..]) == d + CallIds(blocks);
    }
  }

  lemma {:induction false} DroppedByUser(blocks: seq<Block>, rest: seq<Placed>, d: set<string>)
    ensures DroppedIds(Tag(Turn(User, blocks)) + rest, d) == if Keep(blocks, d) == [] then DroppedIds(rest, d) else d
  {
    if blocks == [] {
      assert Tag(Turn(User, blocks)) + rest == rest;
    } else {
      TagHead(User, blocks, rest);
      if Answers(blocks[0], d) {
        DroppedByUser(blocks[1..], rest, d);
      }
    }
  }

  /** They are those remembered at the cut. */
  lemma {:induction false} DroppedIdsAtCut(turns: seq<Turn>, d: set<string>)
    requires Grouped(turns)
    ensures DroppedIds(Flatten(turns), d) == CutOf(turns, d).ids
  {
    if turns == [] {
    } else {
      var t, rest := turns[0], turns[1..];
      FlattenHead(turns);
      assert t == Turn(t.role, t.blocks);
      KeepKeeps(t.blocks, d);
      match t.role {
        case Assistant =>
          DroppedByAssistant(t.blocks, Flatten(rest), d);
          DroppedIdsAtCut(rest, d + CallIds(t.blocks));
        case User =>
          DroppedByUser(t.blocks, Flatten(rest), d);
          if Keep(t.blocks, d) == [] {
            DroppedIdsAtCut(rest, d);
          }
        case System =>
          TagHead(System, t.blocks, Flatten(rest));
          assert t.blocks[0] in t.blocks;
      }
    }
  }

  // ---- more blocks after the cut -----------------------------------------------------------

  /** Turns with more blocks grouped onto them. */
  function AppendAll(turns: seq<Turn>, q: seq<Placed>): seq<Turn>
    decreases |q|
  {
    if q == [] then turns else AppendAll(Append(turns, q[0].role, [q[0].block]), q[1..])
  }

  lemma {:induction false} GroupAll(p: seq<Placed>, q: seq<Placed>)
    ensures Group(p + q) == AppendAll(Group(p), q)
    decreases |q|
  {
    if q == [] {
      assert p + q == p;
    } else {
      GroupSnoc(p, q[0]);
      GroupAll(p + [q[0]], q[1..]);
      assert p + [q[0]] + q[1..] == p + q;
    }
  }

  lemma {:induction false} AppendAllFrom(turns: seq<Turn>, q: seq<Placed>, at: nat)
    requires at < |turns|
    ensures |AppendAll(turns, q)| >= |turns| && AppendAll(turns, q)[at..] == AppendAll(turns[at..], q)
    decreases |q|
  {
    if q == [] {
    } else {
      var next := Append(turns, q[0].role, [q[0].block]);
      assert next[at..] == Append(turns[at..], q[0].role, [q[0].block]);
      AppendAllFrom(next, q[1..], at);
    }
  }

  lemma {:induction false} AppendAllContinues(turns: seq<Turn>, q: seq<Placed>)
    ensures Continues(turns, AppendAll(turns, q))
    decreases |q|
  {
    if q == [] {
    } else {
      var next := Append(turns, q[0].role, [q[0].block]);
      AppendContinues(turns, q[0].role, [q[0].block]);
      AppendAllContinues(next, q[1..]);
      ContinuesTrans(turns, next, AppendAll(next, q[1..]));
    }
  }

  lemma {:induction false} WithoutEmptiedConcat(a: seq<Turn>, b: seq<Turn>)
    ensures WithoutEmptied(a + b) == WithoutEmptied(a) + WithoutEmptied(b)
  {
    if a == [] {
      assert a + b == b;
    } else {
      assert (a + b)[1..] == a[1..] + b;
      WithoutEmptiedConcat(a[1..], b);
    }
  }

  lemma {:induction false} PurgeConcat(a: seq<Turn>, b: seq<Turn>, ids: set<string>)
    ensures Purge(a + b, ids) == Purge(a, ids) + Purge(b, ids)
  {
    var left := seq(|a|, i requires 0 <= i < |a| => Strip(a[i], ids));
    var right := seq(|b|, i requires 0 <= i < |b| => Strip(b[i], ids));
    var all := a + b;
    assert seq(|all|, i requires 0 <= i < |all| => Strip(all[i], ids)) == left + right;
    WithoutEmptiedConcat(left, right);
  }

  lemma {:induction false} PurgeOne(turn: Turn, ids: set<string>)
    ensures Purge([turn], ids) == if IsEmptied(Strip(turn, ids)) then [] else [Strip(turn, ids)]
  {
    PurgeHead([turn], ids);
    assert [turn][1..] == [];
  }

  lemma {:induction false} PurgeSnoc(front: seq<Turn>, last: Turn, ids: set<string>)
    ensures Purge(front + [last], ids)
      == if IsEmptied(Strip(last, ids)) then Purge(front, ids) else Purge(front, ids) + [Strip(last, ids)]
  {
    PurgeConcat(front, [last], ids);
    PurgeOne(last, ids);
  }

  lemma {:induction false} KeepSnoc(blocks: seq<Block>, block: Block, ids: set<string>)
    ensures Keep(blocks + [block], ids)
      == if Answers(block, ids) then Keep(blocks, ids) else Keep(blocks, ids) + [block]
  {
    KeepConcat(blocks, [block], ids);
    assert [block][1..] == [];
    assert Keep(blocks, ids) + [] == Keep(blocks, ids);
  }

  /** Appending a block either extends the last turn or follows it with a new one. */
  lemma {:induction false} AppendSnoc(turns: seq<Turn>, x: Placed)
    requires turns != []
    ensures var front, last := turns[..|turns| - 1], turns[|turns| - 1];
      turns == front + [last]
      && Append(turns, x.role, [x.block])
         == if last.role == x.role then front + [Turn(x.role, last.blocks + [x.block])]
            else turns + [Turn(x.role, [x.block])]
  {
  }

  /** The turn a further block opens, if it opens one. */
  lemma {:induction false} PurgeAppend(turns: seq<Turn>, x: Placed, ids: set<string>)
    requires turns != [] && (Answers(x.block, ids) ==> x.role == User)
    ensures var last := turns[|turns| - 1];
      var kept, kept' := Purge(turns, ids), Purge(Append(turns, x.role, [x.block]), ids);
      if Answers(x.block, ids) then kept' == kept
      else if last.role == x.role && !IsEmptied(Strip(last, ids)) then
        |kept'| == |kept| > 0 && kept'[|kept| - 1].role == x.role
      else kept' == kept + [Turn(x.role, [x.block])]
  {
    var front, last := turns[..|turns| - 1], turns[|turns| - 1];
    AppendSnoc(turns, x);
    assert [] + [x.block] == [x.block];
    if last.role == x.role {
      PurgeSnoc(front, last, ids);
      PurgeSnoc(front, Turn(x.role, last.blocks + [x.block]), ids);
      KeepSnoc(last.blocks, x.block, ids);
    } else {
      PurgeSnoc(turns, Turn(x.role, [x.block]), ids);
      KeepSnoc([], x.block, ids);
    }
  }

  // ---- the next turn -----------------------------------------------------------------------

  /**
   * The role of the next turn that further blocks open after a note, where results answering `ids`
   * are dropped. A dropped result opens none, but parts the notes around it.
   */
  function NextTurn(q: seq<Placed>, ids: set<string>, parted: bool): Option<Role> {
    if q == [] then None
    else
      match q[0].role
      case Assistant => Some(Assistant)
      case System => if parted then Some(System) else NextTurn(q[1..], ids, false)
      case User => if Answers(q[0].block, ids) then NextTurn(q[1..], ids, true) else Some(User)
  }

  predicate EndsInSystem(turns: seq<Turn>) {
    turns != [] && turns[|turns| - 1].role == System
  }

  /** A kept note is last, or followed by user turns left empty. */
  lemma {:induction false} LastIsNoteOrEmptied(turns: seq<Turn>, ids: set<string>)
    requires EndsInSystem(Purge(turns, ids))
    ensures turns != []
    ensures var last := turns[|turns| - 1]; last.role == System || IsEmptied(Strip(last, ids))
  {
    var front, last := turns[..|turns| - 1], turns[|turns| - 1];
    assert turns == front + [last];
    PurgeSnoc(front, last, ids);
  }

  /** A block that opens a turn opens the next one, whatever comes after. */
  lemma {:induction false} OpensNext(turns: seq<Turn>, x: Placed, later: seq<Placed>, ids: set<string>)
    requires turns != [] && EndsInSystem(Purge(turns, ids)) && !Answers(x.block, ids)
    requires !(turns[|turns| - 1].role == System && x.role == System)
    ensures var kept, all := Purge(turns, ids), Purge(AppendAll(turns, [x] + later), ids);
      |all| > |kept| && all[|kept|].role == x.role
  {
    var next := Append(turns, x.role, [x.block]);
    LastIsNoteOrEmptied(turns, ids);
    PurgeAppend(turns, x, ids);
    AppendAllContinues(next, later);
    PurgeContinues(next, AppendAll(next, later), ids);
    assert ([x] + later)[1..] == later;
  }

  lemma {:induction false} NextTurnMeaning(turns: seq<Turn>, q: seq<Placed>, ids: set<string>)
    requires EndsInSystem(Purge(turns, ids)) && turns != [] && ResultsAreUsers(q)
    ensures var kept, all := Purge(turns, ids), Purge(AppendAll(turns, q), ids);
      var next := NextTurn(q, ids, turns[|turns| - 1].role == User);
      if next.None? then |all| == |kept| else |all| > |kept| && all[|kept|].role == next.value
    decreases |q|
  {
    if q == [] {
    } else {
      var x, later := q[0], q[1..];
      assert q == [x] + later && x in q;
      var next := Append(turns, x.role, [x.block]);
      LastIsNoteOrEmptied(turns, ids);
      PurgeAppend(turns, x, ids);
      if Answers(x.block, ids) || (x.role == System && turns[|turns| - 1].role == System) {
        assert next[|next| - 1].role == x.role;
        NextTurnMeaning(next, later, ids);
      } else {
        OpensNext(turns, x, later, ids);
      }
    }
  }
}
