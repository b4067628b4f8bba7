/**
 * What translation loses. `Survivors` says, on the flat list of blocks and without turns, which
 * blocks should be left; the turn-level passes are proved to leave exactly those, in order.
 */
module TranslationLoss {
  import opened Conversation
  import opened Translation

  /** The placed blocks that do not answer a call in `ids`. */
  function Without(ps: seq<Placed>, ids: set<string>): seq<Placed> {
    if ps == [] then []
    else if Answers(ps[0].block, ids) then Without(ps[1..], ids)
    else [ps[0]] + Without(ps[1..], ids)
  }

  /**
   * While the conversation has not reached a block worth keeping, assistant blocks are dropped and
   * their call ids remembered, and results answering remembered ids are dropped. From the first
   * block kept onwards only results answering remembered ids go.
   */
  function Survivors(ps: seq<Placed>, dropped: set<string>): seq<Placed> {
    if ps == [] then []
    else if ps[0].role == Assistant then Survivors(ps[1..], dropped + PlacedCallIds([ps[0]]))
    else if Answers(ps[0].block, dropped) then Survivors(ps[1..], dropped)
    else Without(ps, dropped)
  }

  // ---- the shape the first pass establishes ------------------------------------------------

  /** Every turn says something, and results are only given by the user. */
  predicate Grouped(turns: seq<Turn>) {
    forall i :: 0 <= i < |turns| ==>
      turns[i].blocks != []
      && (turns[i].role != User ==> forall b :: b in turns[i].blocks ==> !b.ToolResult?)
  }

  predicate ResultsAreUsers(ps: seq<Placed>) {
    forall i :: 0 <= i < |ps| && ps[i].role != User ==> !ps[i].block.ToolResult?
  }

  lemma {:induction false} PlacedResultsAreUsers(h: seq<Message>, mid: bool)
    ensures ResultsAreUsers(PlacedBlocks(h, mid))
  {
    if h == [] {
    } else {
      PlacedResultsAreUsers(h[..|h| - 1], mid);
    }
  }

  lemma {:induction false} FlattenAppend(turns: seq<Turn>, role: Role, blocks: seq<Block>)
    ensures Flatten(Append(turns, role, blocks)) == Flatten(turns) + Tag(Turn(role, blocks))
  {
    var r := Append(turns, role, blocks);
    if |r| == |turns| {
      assert r[..|r| - 1] == turns[..|turns| - 1];
      assert Tag(r[|r| - 1]) == Tag(turns[|turns| - 1]) + Tag(Turn(role, blocks));
    } else {
      assert r[..|r| - 1] == turns;
    }
  }

  lemma {:induction false} AppendGrouped(turns: seq<Turn>, p: Placed)
    requires Grouped(turns) && (p.role != User ==> !p.block.ToolResult?)
    ensures Grouped(Append(turns, p.role, [p.block]))
  {
    var r := Append(turns, p.role, [p.block]);
    var last := |r| - 1;
    assert forall i :: 0 <= i < last ==> r[i] == turns[i];
    if |r| == |turns| {
      assert r[last].blocks == turns[last].blocks + [p.block];
    }
  }

  /** Grouping only inserts turn boundaries. */
  lemma {:induction false} GroupMeaning(ps: seq<Placed>)
    requires ResultsAreUsers(ps)
    ensures Flatten(Group(ps)) == ps
    ensures Grouped(Group(ps))
  {
    if ps == [] {
    } else {
      var front, p := ps[..|ps| - 1], ps[|ps| - 1];
      GroupMeaning(front);
      FlattenAppend(Group(front), p.role, [p.block]);
      AppendGrouped(Group(front), p);
      assert Tag(Turn(p.role, [p.block])) == [p];
      assert ps == front + [p];
    }
  }

  // ---- dropping, seen on the flat list -----------------------------------------------------

  lemma {:induction false} WithoutConcat(a: seq<Placed>, b: seq<Placed>, ids: set<string>)
    ensures Without(a + b, ids) == Without(a, ids) + Without(b, ids)
  {
    if a == [] {
      assert a + b == b;
    } else {
      assert (a + b)[1..] == a[1..] + b;
      WithoutConcat(a[1..], b, ids);
    }
  }

  lemma {:induction false} WithoutTwice(ps: seq<Placed>, d: set<string>, e: set<string>)
    ensures Without(ps, d + e) == Without(Without(ps, d), e)
  {
    if ps == [] {
    } else {
      WithoutTwice(ps[1..], d, e);
      if !Answers(ps[0].block, d) {
        assert Without(ps, d)[1..] == Without(ps[1..], d);
      }
    }
  }

  lemma {:induction false} WithoutNothing(ps: seq<Placed>)
    ensures Without(ps, {}) == ps
  {
    if ps == [] {
    } else {
      WithoutNothing(ps[1..]);
    }
  }

  /** Remembering ids is the same as having filtered by them beforehand. */
  lemma {:induction false} SurvivorsSplit(ps: seq<Placed>, d: set<string>, e: set<string>)
    requires ResultsAreUsers(ps)
    ensures Survivors(ps, d + e) == Survivors(Without(ps, d), e)
  {
    if ps == [] {
    } else {
      var rest := ps[1..];
      assert ResultsAreUsers(rest);
      if Answers(ps[0].block, d) {
        SurvivorsSplit(rest, d, e);
      } else {
        assert Without(ps, d)[1..] == Without(rest, d) && Without(ps, d)[0] == ps[0];
        if ps[0].role == Assistant {
          var ids := PlacedCallIds([ps[0]]);
          SurvivorsSplit(rest, d, e + ids);
          assert (d + e) + ids == d + (e + ids);
        } else if Answers(ps[0].block, e) {
          SurvivorsSplit(rest, d, e);
        } else {
          WithoutTwice(ps, d, e);
        }
      }
    }
  }

  lemma {:induction false} SurvivorsLeadingTurn(blocks: seq<Block>, rest: seq<Placed>, d: set<string>)
    ensures Survivors(Tag(Turn(Assistant, blocks)) + rest, d) == Survivors(rest, d + CallIds(blocks))
  {
    var ps := Tag(Turn(Assistant, blocks)) + rest;
    if blocks == [] {
      assert ps == rest;
      assert d + CallIds(blocks) == d;
    } else {
      assert ps[0] == Placed(Assistant, blocks[0]);
      assert ps[1..] == Tag(Turn(Assistant, blocks[1..])) + rest;
      var ids := PlacedCallIds([ps[0]]);
      SurvivorsLeadingTurn(blocks[1..], rest, d + ids);
      assert CallIds(blocks) == ids + CallIds(blocks[1..]) by {
        assert blocks == [blocks[0]] + blocks[1..];
      }
      assert (d + ids) + CallIds(blocks[1..]) == d + CallIds(blocks);
    }
  }

  lemma {:induction false} TagKeep(turn: Turn, ids: set<string>)
    ensures Tag(Strip(turn, ids)) == Without(Tag(turn), ids)
    decreases |turn.blocks|
  {
    if turn.blocks == [] {
    } else {
      var rest := Turn(turn.role, turn.blocks[1..]);
      TagKeep(rest, ids);
      assert Tag(turn)[1..] == Tag(rest);
      assert Tag(turn)[0] == Placed(turn.role, turn.blocks[0]);
    }
  }

  lemma {:induction false} KeepKeeps(blocks: seq<Block>, ids: set<string>)
    ensures forall b :: b in Keep(blocks, ids) <==> b in blocks && !Answers(b, ids)
    ensures (forall b :: b in blocks ==> !b.ToolResult?) ==> Keep(blocks, ids) == blocks
  {
    if blocks == [] {
    } else {
      KeepKeeps(blocks[1..], ids);
      assert blocks == [blocks[0]] + blocks[1..];
    }
  }

  lemma {:induction false} PurgeHead(turns: seq<Turn>, ids: set<string>)
    requires turns != []
    ensures var first := Strip(turns[0], ids);
      Purge(turns, ids) == (if first.role == User && first.blocks == [] then [] else [first]) + Purge(turns[1..], ids)
  {
    var stripped := seq(|turns|, i requires 0 <= i < |turns| => Strip(turns[i], ids));
    var rest := turns[1..];
    assert stripped[1..] == seq(|rest|, i requires 0 <= i < |rest| => Strip(rest[i], ids));
  }

  lemma {:induction false} GroupedCons(first: Turn, rest: seq<Turn>)
    requires Grouped([first]) && Grouped(rest)
    ensures Grouped([first] + rest)
  {
  }

  lemma {:induction false} StripGrouped(turn: Turn, ids: set<string>)
    requires Grouped([turn])
    ensures Grouped([Strip(turn, ids)]) || (turn.role == User && Strip(turn, ids).blocks == [])
  {
    assert [turn][0] == turn;
    KeepKeeps(turn.blocks, ids);
  }

  /** Purging turns filters the flat list, and leaves grouped turns grouped. */
  lemma {:induction false} PurgeMeaning(turns: seq<Turn>, ids: set<string>)
    requires Grouped(turns)
    ensures Flatten(Purge(turns, ids)) == Without(Flatten(turns), ids)
    ensures Grouped(Purge(turns, ids))
  {
    if turns == [] {
    } else {
      var rest, first := turns[1..], Strip(turns[0], ids);
      PurgeMeaning(rest, ids);
      PurgeHead(turns, ids);
      FlattenHead(turns);
      WithoutConcat(Tag(turns[0]), Flatten(rest), ids);
      TagKeep(turns[0], ids);
      assert Grouped([turns[0]]);
      StripGrouped(turns[0], ids);
      if first.role == User && first.blocks == [] {
        assert Tag(first) == [];
        assert Purge(turns, ids) == Purge(rest, ids);
      } else {
        FlattenConcat([first], Purge(rest, ids));
        assert Flatten([first]) == Tag(first) by {
          assert [first][..0] == [];
        }
        GroupedCons(first, Purge(rest, ids));
      }
    }
  }

  lemma {:induction false} FlattenResults(turns: seq<Turn>)
    requires Grouped(turns)
    ensures ResultsAreUsers(Flatten(turns))
  {
    if turns == [] {
    } else {
      FlattenResults(turns[..|turns| - 1]);
      var last := turns[|turns| - 1];
      forall i | 0 <= i < |last.blocks| && last.role != User
        ensures !last.blocks[i].ToolResult?
      {
        assert last.blocks[i] in last.blocks;
      }
    }
  }

  lemma {:induction false} DropFirstMeaning(turns: seq<Turn>)
    requires Grouped(turns) && turns != [] && turns[0].role == Assistant
    ensures Grouped(DropFirst(turns))
    ensures Survivors(Flatten(DropFirst(turns)), {}) == Survivors(Flatten(turns), {})
  {
    var ids := CallIds(turns[0].blocks);
    FlattenHead(turns);
    SurvivorsLeadingTurn(turns[0].blocks, Flatten(turns[1..]), {});
    assert {} + ids == ids + {} == ids;
    FlattenResults(turns[1..]);
    SurvivorsSplit(Flatten(turns[1..]), ids, {});
    if ids == {} {
      WithoutNothing(Flatten(turns[1..]));
    } else {
      PurgeMeaning(turns[1..], ids);
    }
  }

  /** The turn-level loop leaves exactly the survivors, and starts with no assistant. */
  lemma {:induction false} DropLeadingMeaning(turns: seq<Turn>)
    requires Grouped(turns)
    ensures Flatten(DropLeading(turns)) == Survivors(Flatten(turns), {})
    ensures Grouped(DropLeading(turns))
    ensures DropLeading(turns) != [] ==> DropLeading(turns)[0].role != Assistant
    decreases |turns|
  {
    if turns != [] && turns[0].role == Assistant {
      DropFirstMeaning(turns);
      DropLeadingMeaning(DropFirst(turns));
    } else if turns != [] {
      FlattenHead(turns);
      assert Flatten(turns)[0] == Placed(turns[0].role, turns[0].blocks[0]);
      WithoutNothing(Flatten(turns));
    }
  }

  /** What the first two passes leave of a history. */
  lemma {:induction false} KeptMeaning(h: seq<Message>, mid: bool)
    ensures Flatten(KeptTurns(h, mid)) == Survivors(PlacedBlocks(h, mid), {})
    ensures Grouped(KeptTurns(h, mid))
    ensures KeptTurns(h, mid) != [] ==> KeptTurns(h, mid)[0].role != Assistant
  {
    PlacedResultsAreUsers(h, mid);
    GroupMeaning(PlacedBlocks(h, mid));
    DropLeadingMeaning(Group(PlacedBlocks(h, mid)));
  }

  // ---- demotion keeps every block ----------------------------------------------------------

  /** The same blocks in the same order; a role differs only where `a`'s System became User. */
  predicate OnlyDemotes(a: seq<Placed>, b: seq<Placed>) {
    |a| == |b|
    && forall i :: 0 <= i < |a| ==>
         a[i].block == b[i].block && (a[i].role == b[i].role || (a[i].role == System && b[i].role == User))
  }

  lemma {:induction false} OnlyDemotesConcat(a: seq<Placed>, b: seq<Placed>, c: seq<Placed>, d: seq<Placed>)
    requires OnlyDemotes(a, b) && OnlyDemotes(c, d)
    ensures OnlyDemotes(a + c, b + d)
  {
  }

  lemma {:induction false} SentRoleDemotes(sent: seq<Turn>, turns: seq<Turn>, i: nat)
    requires i < |turns|
    ensures OnlyDemotes(Tag(turns[i]), Tag(Turn(SentRole(sent, turns, i), turns[i].blocks)))
  {
  }

  lemma {:induction false} FlattenSnoc(turns: seq<Turn>, n: nat)
    requires 0 < n <= |turns|
    ensures Flatten(turns[..n]) == Flatten(turns[..n - 1]) + Tag(turns[n - 1])
  {
    assert turns[..n][..n - 1] == turns[..n - 1];
  }

  lemma {:induction false} NormalizedMeaning(turns: seq<Turn>, n: nat)
    requires n <= |turns|
    ensures OnlyDemotes(Flatten(turns[..n]), Flatten(Normalized(turns, n)))
  {
    if n == 0 {
    } else {
      NormalizedMeaning(turns, n - 1);
      var sent := Normalized(turns, n - 1);
      var role := SentRole(sent, turns, n - 1);
      FlattenAppend(sent, role, turns[n - 1].blocks);
      SentRoleDemotes(sent, turns, n - 1);
      FlattenSnoc(turns, n);
      OnlyDemotesConcat(Flatten(turns[..n - 1]), Flatten(sent),
                        Tag(turns[n - 1]), Tag(Turn(role, turns[n - 1].blocks)));
    }
  }

  /**
   * Exact loss: a translated history holds exactly the surviving blocks of the history, in order,
   * and changes no role except to demote system notes.
   */
  lemma {:induction false} TranslateKeepsSurvivors(h: seq<Message>, mid: bool)
    ensures OnlyDemotes(Survivors(PlacedBlocks(h, mid), {}), Flatten(Translate(h, mid)))
  {
    KeptMeaning(h, mid);
    var kept := KeptTurns(h, mid);
    NormalizedMeaning(kept, |kept|);
    assert kept[..|kept|] == kept;
  }

  // ---- which blocks survive ----------------------------------------------------------------

  /**
   * The cut: a leading stretch is lost entirely, made of assistant blocks and of results answering
   * calls inside it; after it only results answering calls inside it are lost.
   */
  predicate IsCut(ps: seq<Placed>, d: set<string>, k: nat)
    requires k <= |ps|
  {
    (forall i :: 0 <= i < k ==>
       ps[i].role == Assistant || Answers(ps[i].block, d + PlacedCallIds(ps[..i])))
    && (k < |ps| ==> ps[k].role != Assistant && !Answers(ps[k].block, d + PlacedCallIds(ps[..k])))
  }

  predicate CallsAreAssistants(ps: seq<Placed>) {
    forall i :: 0 <= i < |ps| && ps[i].role != Assistant ==> !ps[i].block.ToolUse?
  }

  lemma {:induction false} SurvivorsCut(ps: seq<Placed>, d: set<string>) returns (k: nat)
    requires ResultsAreUsers(ps) && CallsAreAssistants(ps)
    ensures k <= |ps| && IsCut(ps, d, k)
    ensures Survivors(ps, d) == Without(ps[k..], d + PlacedCallIds(ps[..k]))
  {
    if ps == [] || !(ps[0].role == Assistant || Answers(ps[0].block, d)) {
      k := 0;
      assert d + PlacedCallIds(ps[..0]) == d;
    } else {
      var ids := PlacedCallIds([ps[0]]);
      var rest := ps[1..];
      var j := SurvivorsCut(rest, d + ids);
      k := j + 1;
      forall i | 0 <= i <= |rest|
        ensures d + PlacedCallIds(ps[..i + 1]) == d + ids + PlacedCallIds(rest[..i])
      {
        assert ps[..i + 1] == [ps[0]] + rest[..i];
      }
      assert rest[j..] == ps[k..];
      assert d + PlacedCallIds(ps[..0]) == d;
      if ps[0].role != Assistant {
        assert d + ids == d;
      }
      forall i | 0 <= i < k
        ensures ps[i].role == Assistant || Answers(ps[i].block, d + PlacedCallIds(ps[..i]))
      {
        if i > 0 {
          assert ps[i] == rest[i - 1];
        }
      }
    }
  }

  lemma {:induction false} PlacedCallsAreAssistants(h: seq<Message>, mid: bool)
    ensures CallsAreAssistants(PlacedBlocks(h, mid))
  {
    if h == [] {
    } else {
      PlacedCallsAreAssistants(h[..|h| - 1], mid);
    }
  }

  /** The blocks of a translated history, in terms of where the history is cut. */
  lemma {:induction false} TranslateCut(h: seq<Message>, mid: bool) returns (k: nat)
    ensures var ps := PlacedBlocks(h, mid);
      k <= |ps| && IsCut(ps, {}, k)
      && BlocksOf(Flatten(Translate(h, mid))) == BlocksOf(Without(ps[k..], PlacedCallIds(ps[..k])))
  {
    var ps := PlacedBlocks(h, mid);
    PlacedResultsAreUsers(h, mid);
    PlacedCallsAreAssistants(h, mid);
    k := SurvivorsCut(ps, {});
    assert {} + PlacedCallIds(ps[..k]) == PlacedCallIds(ps[..k]);
    TranslateKeepsSurvivors(h, mid);
  }

  lemma {:induction false} WithoutMembers(ps: seq<Placed>, ids: set<string>)
    ensures forall p :: p in Without(ps, ids) <==> p in ps && !Answers(p.block, ids)
    ensures |Without(ps, ids)| <= |ps|
    ensures |Without(ps, ids)| == |ps| <==> forall p :: p in ps ==> !Answers(p.block, ids)
  {
    if ps == [] {
    } else {
      WithoutMembers(ps[1..], ids);
      assert ps == [ps[0]] + ps[1..];
    }
  }

  /** Nothing is lost exactly when the history's first block is not the assistant's. */
  lemma {:induction false} LosesNothingIff(h: seq<Message>, mid: bool)
    ensures var ps := PlacedBlocks(h, mid);
      |Flatten(Translate(h, mid))| == |ps| <==> ps == [] || ps[0].role != Assistant
  {
    var ps := PlacedBlocks(h, mid);
    var k := TranslateCut(h, mid);
    var ids := PlacedCallIds(ps[..k]);
    WithoutMembers(ps[k..], ids);
    if k == 0 {
      assert ps[k..] == ps;
      WithoutNothing(ps);
    } else {
      assert {} + PlacedCallIds(ps[..0]) == {};
    }
  }

  // ---- pairing -----------------------------------------------------------------------------

  /** Every result comes after a call it answers. */
  predicate Paired(bs: seq<Block>) {
    forall j :: 0 <= j < |bs| && bs[j].ToolResult? ==> Called(bs[..j], bs[j].toolUseId)
  }

  predicate Called(bs: seq<Block>, id: string) {
    exists i :: 0 <= i < |bs| && bs[i].ToolUse? && bs[i].id == id
  }

  lemma {:induction false} PairedFront(bs: seq<Block>, b: Block)
    requires Paired(bs + [b])
    ensures Paired(bs)
    ensures b.ToolResult? ==> Called(bs, b.toolUseId)
  {
    var all := bs + [b];
    assert all[..|bs|] == bs;
    forall j | 0 <= j < |bs| && bs[j].ToolResult? ensures Called(bs[..j], bs[j].toolUseId) {
      assert all[j] == bs[j] && all[..j] == bs[..j];
    }
    if b.ToolResult? {
      assert all[|bs|] == b;
    }
  }

  lemma {:induction false} PairedSnoc(bs: seq<Block>, b: Block)
    requires Paired(bs) && (b.ToolResult? ==> Called(bs, b.toolUseId))
    ensures Paired(bs + [b])
  {
    var all := bs + [b];
    forall j | 0 <= j < |all| && all[j].ToolResult? ensures Called(all[..j], all[j].toolUseId) {
      assert all[..j] == bs[..j];
      assert bs[..|bs|] == bs;
    }
  }

  /** A call outside `before` whose id is not filtered out survives the filter. */
  lemma {:induction false} WithoutKeepsCall(before: seq<Block>, ps: seq<Placed>, ids: set<string>, id: string)
    requires Called(before + BlocksOf(ps), id) && id !in ids
    requires forall j :: 0 <= j < |before| && before[j].ToolUse? ==> before[j].id in ids
    ensures Called(BlocksOf(Without(ps, ids)), id)
  {
    var all := before + BlocksOf(ps);
    var i :| 0 <= i < |all| && all[i].ToolUse? && all[i].id == id;
    var q := ps[i - |before|];
    WithoutMembers(ps, ids);
    assert q in Without(ps, ids);
    var m :| 0 <= m < |Without(ps, ids)| && Without(ps, ids)[m] == q;
    assert BlocksOf(Without(ps, ids))[m] == q.block;
  }

  /** In a paired history, what is left after a filter by ids none of whose calls remain is paired. */
  lemma {:induction false} WithoutPaired(before: seq<Block>, ps: seq<Placed>, ids: set<string>)
    requires Paired(before + BlocksOf(ps))
    requires forall j :: 0 <= j < |before| && before[j].ToolUse? ==> before[j].id in ids
    ensures Paired(BlocksOf(Without(ps, ids)))
  {
    if ps == [] {
    } else {
      var front, p := ps[..|ps| - 1], ps[|ps| - 1];
      assert ps == front + [p];
      WithoutConcat(front, [p], ids);
      assert before + BlocksOf(ps) == before + BlocksOf(front) + [p.block];
      PairedFront(before + BlocksOf(front), p.block);
      WithoutPaired(before, front, ids);
      var kept := BlocksOf(Without(front, ids));
      if Answers(p.block, ids) {
        assert Without(ps, ids) == Without(front, ids);
      } else {
        assert BlocksOf(Without(ps, ids)) == kept + [p.block];
        if p.block.ToolResult? {
          WithoutKeepsCall(before, front, ids, p.block.toolUseId);
        }
        PairedSnoc(kept, p.block);
      }
    }
  }

  lemma {:induction false} CutPaired(ps: seq<Placed>, k: nat)
    requires k <= |ps| && Paired(BlocksOf(ps))
    ensures Paired(BlocksOf(Without(ps[k..], PlacedCallIds(ps[..k]))))
  {
    var ids := PlacedCallIds(ps[..k]);
    var before := BlocksOf(ps[..k]);
    assert before + BlocksOf(ps[k..]) == BlocksOf(ps);
    forall j | 0 <= j < k && before[j].ToolUse? ensures before[j].id in ids {
      assert ps[..k][j] in ps[..k];
    }
    WithoutPaired(before, ps[k..], ids);
  }

  /** If every result followed its call in the history, it still does after translation. */
  lemma {:induction false} TranslateKeepsPairing(h: seq<Message>, mid: bool)
    requires Paired(BlocksOf(PlacedBlocks(h, mid)))
    ensures Paired(BlocksOf(Flatten(Translate(h, mid))))
  {
    var k := TranslateCut(h, mid);
    CutPaired(PlacedBlocks(h, mid), k);
  }

  predicate UniqueCalls(ps: seq<Placed>) {
    forall i, j :: 0 <= i < j < |ps| && ps[i].block.ToolUse? && ps[j].block.ToolUse?
      ==> ps[i].block.id != ps[j].block.id
  }

  /** With unique ids, the id of a call kept after the cut is not that of a call before it. */
  lemma {:induction false} KeptCallNotDropped(ps: seq<Placed>, k: nat, id: string)
    requires UniqueCalls(ps) && k <= |ps|
    requires Called(BlocksOf(Without(ps[k..], PlacedCallIds(ps[..k]))), id)
    ensures id !in PlacedCallIds(ps[..k])
  {
    var ids := PlacedCallIds(ps[..k]);
    var kept := Without(ps[k..], ids);
    WithoutMembers(ps[k..], ids);
    var c :| 0 <= c < |BlocksOf(kept)| && BlocksOf(kept)[c].ToolUse? && BlocksOf(kept)[c].id == id;
    assert kept[c] in ps[k..];
    var m :| k <= m < |ps| && ps[m] == kept[c];
    forall n | 0 <= n < k && ps[n].block.ToolUse? ensures ps[n].block.id != id {
      assert ps[m].block.id == id;
    }
  }

  /** Results answering no call before the cut are all kept. */
  lemma {:induction false} UnansweredKept(ps: seq<Placed>, k: nat, result: Block)
    requires k <= |ps| && IsCut(ps, {}, k) && CallsAreAssistants(ps) && ResultsAreUsers(ps)
    requires result in BlocksOf(ps) && result.ToolResult? && result.toolUseId !in PlacedCallIds(ps[..k])
    ensures result in BlocksOf(Without(ps[k..], PlacedCallIds(ps[..k])))
  {
    var ids := PlacedCallIds(ps[..k]);
    var out := Without(ps[k..], ids);
    var r :| 0 <= r < |ps| && BlocksOf(ps)[r] == result;
    forall i | 0 <= i < k && ps[i].block.ToolResult? ensures ps[i].block.toolUseId in ids {
      assert Answers(ps[i].block, {} + PlacedCallIds(ps[..i]));
      assert ps[..i] <= ps[..k];
    }
    WithoutMembers(ps[k..], ids);
    assert ps[k..][r - k] == ps[r];
    var i :| 0 <= i < |out| && out[i] == ps[r];
    assert BlocksOf(out)[i] == result;
  }

  /** With unique call ids, a call that survives keeps every result that answers it. */
  lemma {:induction false} KeptCallKeepsResults(h: seq<Message>, mid: bool, id: string, result: Block)
    requires UniqueCalls(PlacedBlocks(h, mid))
    requires Called(BlocksOf(Flatten(Translate(h, mid))), id)
    requires result in BlocksOf(PlacedBlocks(h, mid)) && Answers(result, {id})
    ensures result in BlocksOf(Flatten(Translate(h, mid)))
  {
    var k := TranslateCut(h, mid);
    PlacedCallsAreAssistants(h, mid);
    PlacedResultsAreUsers(h, mid);
    KeptCallNotDropped(PlacedBlocks(h, mid), k, id);
    UnansweredKept(PlacedBlocks(h, mid), k, result);
  }
}
