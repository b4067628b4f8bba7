/**
 * Compiling the internal chat history into upstream turns: grouping blocks into turns, dropping
 * leading assistant turns together with the results answering them, and demoting system turns
 * that may not stand where they landed.
 */
module Translation {
  import opened Wrappers
  import opened Conversation

  // ---- where each block goes ---------------------------------------------------------------

  predicate HasUser(ps: seq<Placed>) {
    exists i :: 0 <= i < |ps| && ps[i].role == User
  }

  /** The blocks one message contributes, given whether the conversation has started. */
  function MessageBlocks(msg: Message, started: bool, midConvSystem: bool): seq<Placed> {
    if msg.role == "system" then
      if msg.content.IsEmpty() || !started then []
      else [Placed(if midConvSystem then System else User, TextBlock(msg.content.AsText()))]
    else if msg.role == "tool" then
      [Placed(User, ToolResult(msg.toolCallId.GetOr(""), msg.content.AsText()))]
    else if msg.role == "assistant" then
      AssistantBlocks(msg)
    else
      [Placed(User, TextBlock(msg.content.AsText()))]
  }

  /** An assistant message sends its thinking first, then its text, then its calls. */
  function AssistantBlocks(msg: Message): seq<Placed> {
    ThinkingBlocks(msg) + TextBlocks(msg) + CallBlocks(msg.toolCalls.GetOr([]))
  }

  function ThinkingBlocks(msg: Message): seq<Placed> {
    if msg.thinking.Some?
    then [Placed(Assistant, ThinkingBlock(msg.thinking.value.text, msg.thinking.value.signature))]
    else []
  }

  function TextBlocks(msg: Message): seq<Placed> {
    if msg.content.IsEmpty() then [] else [Placed(Assistant, TextBlock(msg.content.AsText()))]
  }

  function CallBlocks(calls: seq<ToolCall>): (ps: seq<Placed>)
    ensures |ps| == |calls|
    ensures forall i :: 0 <= i < |calls| ==>
      ps[i] == Placed(Assistant, ToolUse(calls[i].id, calls[i].name, calls[i].arguments))
  {
    seq(|calls|, i requires 0 <= i < |calls| =>
      Placed(Assistant, ToolUse(calls[i].id, calls[i].name, calls[i].arguments)))
  }

  /** Every block the history asks for, in order, before anything is dropped. */
  function PlacedBlocks(h: seq<Message>, midConvSystem: bool): seq<Placed> {
    if h == [] then []
    else
      var before := PlacedBlocks(h[..|h| - 1], midConvSystem);
      before + MessageBlocks(h[|h| - 1], HasUser(before), midConvSystem)
  }

  predicate IsHoisted(msg: Message, started: bool) {
    msg.role == "system" && !msg.content.IsEmpty() && !started
  }

  /** The system notes that precede the conversation. */
  function Hoisted(h: seq<Message>, midConvSystem: bool): seq<string> {
    if h == [] then []
    else
      var before := Hoisted(h[..|h| - 1], midConvSystem);
      var started := HasUser(PlacedBlocks(h[..|h| - 1], midConvSystem));
      if IsHoisted(h[|h| - 1], started) then before + [h[|h| - 1].content.AsText()] else before
  }

  // ---- grouping ----------------------------------------------------------------------------

  /** Put blocks at the end, inside the last turn when the role is the same. */
  function Append(turns: seq<Turn>, role: Role, blocks: seq<Block>): seq<Turn> {
    if turns != [] && turns[|turns| - 1].role == role
    then turns[|turns| - 1 := Turn(role, turns[|turns| - 1].blocks + blocks)]
    else turns + [Turn(role, blocks)]
  }

  function Group(ps: seq<Placed>): seq<Turn> {
    if ps == [] then []
    else Append(Group(ps[..|ps| - 1]), ps[|ps| - 1].role, [ps[|ps| - 1].block])
  }

  // ---- dropping leading assistant turns ----------------------------------------------------

  function Keep(blocks: seq<Block>, ids: set<string>): seq<Block> {
    if blocks == [] then []
    else if Answers(blocks[0], ids) then Keep(blocks[1..], ids)
    else [blocks[0]] + Keep(blocks[1..], ids)
  }

  function Strip(turn: Turn, ids: set<string>): Turn {
    Turn(turn.role, Keep(turn.blocks, ids))
  }

  /** The user turns left with nothing go. */
  function WithoutEmptied(turns: seq<Turn>): (r: seq<Turn>)
    ensures |r| <= |turns|
  {
    if turns == [] then []
    else if turns[0].role == User && turns[0].blocks == [] then WithoutEmptied(turns[1..])
    else [turns[0]] + WithoutEmptied(turns[1..])
  }

  /** Remove the results answering `ids`, and the user turns that held nothing else. */
  function Purge(turns: seq<Turn>, ids: set<string>): (r: seq<Turn>)
    ensures |r| <= |turns|
  {
    WithoutEmptied(seq(|turns|, i requires 0 <= i < |turns| => Strip(turns[i], ids)))
  }

  /** Drop the first turn with the results that answer it. */
  function DropFirst(turns: seq<Turn>): (r: seq<Turn>)
    requires turns != []
    ensures |r| < |turns|
  {
    var ids := CallIds(turns[0].blocks);
    if ids == {} then turns[1..] else Purge(turns[1..], ids)
  }

  function DropLeading(turns: seq<Turn>): seq<Turn>
    decreases |turns|
  {
    if turns != [] && turns[0].role == Assistant then DropLeading(DropFirst(turns)) else turns
  }

  // ---- demoting system turns ---------------------------------------------------------------

  /** The role turn `i` is sent with, given the turns already sent. */
  function SentRole(sent: seq<Turn>, turns: seq<Turn>, i: nat): Role
    requires i < |turns|
  {
    var legal := turns[i].role != System
      || (sent != [] && sent[|sent| - 1].role == User
          && (i + 1 == |turns| || turns[i + 1].role == Assistant));
    if legal then turns[i].role else User
  }

  /** The first `n` turns, normalized. */
  function Normalized(turns: seq<Turn>, n: nat): seq<Turn>
    requires n <= |turns|
  {
    if n == 0 then []
    else
      var sent := Normalized(turns, n - 1);
      Append(sent, SentRole(sent, turns, n - 1), turns[n - 1].blocks)
  }

  /** The turns left once the leading ones are dropped. */
  function KeptTurns(h: seq<Message>, midConvSystem: bool): seq<Turn> {
    DropLeading(Group(PlacedBlocks(h, midConvSystem)))
  }

  /** The turns a history compiles to. */
  function Translate(h: seq<Message>, midConvSystem: bool): seq<Turn> {
    Normalized(KeptTurns(h, midConvSystem), |KeptTurns(h, midConvSystem)|)
  }

  // ---- the wire form -----------------------------------------------------------------------

  /** A system turn is sent as one string, every other turn as an array of blocks. */
  datatype WireTurn = Note(text: string) | Exchange(role: Role, content: seq<Block>)

  const SEPARATOR := "\n\n"

  function Join(parts: seq<string>): string {
    if parts == [] then ""
    else if |parts| == 1 then parts[0]
    else Join(parts[..|parts| - 1]) + SEPARATOR + parts[|parts| - 1]
  }

  function TextsOf(blocks: seq<Block>): seq<string> {
    if blocks == [] then []
    else
      TextsOf(blocks[..|blocks| - 1])
      + (if blocks[|blocks| - 1].TextBlock? then [blocks[|blocks| - 1].text] else [])
  }

  function ToWire(turn: Turn): WireTurn {
    if turn.role == System then Note(Join(TextsOf(turn.blocks))) else Exchange(turn.role, turn.blocks)
  }

  function AllToWire(turns: seq<Turn>): (ws: seq<WireTurn>)
    ensures |ws| == |turns|
    ensures forall i :: 0 <= i < |turns| ==> ws[i] == ToWire(turns[i])
  {
    seq(|turns|, i requires 0 <= i < |turns| => ToWire(turns[i]))
  }

  function SystemText(h: seq<Message>, midConvSystem: bool): Option<string> {
    var parts := Hoisted(h, midConvSystem);
    if parts == [] then None else Some(Join(parts))
  }

  // ---- the program -------------------------------------------------------------------------

  method PushMerge(turns: seq<Turn>, role: Role, block: Block) returns (r: seq<Turn>)
    ensures r == Append(turns, role, [block])
  {
    r := turns;
    if |r| > 0 {
      var last := r[|r| - 1];
      if last.role == role {
        r := r[|r| - 1 := last.(blocks := last.blocks + [block])];
        return;
      }
    }
    r := r + [Turn(role, [block])];
  }

  lemma {:induction false} GroupSnoc(ps: seq<Placed>, p: Placed)
    ensures Group(ps + [p]) == Append(Group(ps), p.role, [p.block])
  {
    assert (ps + [p])[..|ps + [p]| - 1] == ps;
  }

  lemma {:induction false} HasUserConcat(a: seq<Placed>, b: seq<Placed>)
    ensures HasUser(a + b) <==> HasUser(a) || HasUser(b)
  {
    if HasUser(a) {
      var i :| 0 <= i < |a| && a[i].role == User;
      assert (a + b)[i].role == User;
    }
    if HasUser(b) {
      var i :| 0 <= i < |b| && b[i].role == User;
      assert (a + b)[|a| + i].role == User;
    }
  }

  predicate HasUserTurn(turns: seq<Turn>) {
    exists i :: 0 <= i < |turns| && turns[i].role == User
  }

  lemma {:induction false} AppendRoles(turns: seq<Turn>, role: Role, blocks: seq<Block>)
    ensures HasUserTurn(Append(turns, role, blocks)) <==> HasUserTurn(turns) || role == User
  {
    var r := Append(turns, role, blocks);
    assert forall i :: 0 <= i < |turns| ==> r[i].role == turns[i].role;
    assert r[|r| - 1].role == role;
    if HasUserTurn(turns) {
      var i :| 0 <= i < |turns| && turns[i].role == User;
      assert r[i].role == User;
    }
    if HasUserTurn(r) {
      var i :| 0 <= i < |r| && r[i].role == User;
      assert i < |turns| ==> turns[i].role == User;
    }
  }

  lemma {:induction false} GroupRoles(ps: seq<Placed>)
    ensures HasUser(ps) <==> HasUserTurn(Group(ps))
  {
    if ps == [] {
    } else {
      var front, p := ps[..|ps| - 1], ps[|ps| - 1];
      GroupRoles(front);
      HasUserConcat(front, [p]);
      assert front + [p] == ps && (HasUser([p]) <==> p.role == User) by {
        assert [p][0] == p;
      }
      AppendRoles(Group(front), p.role, [p.block]);
    }
  }

  lemma {:induction false} GroupNextOf(placed: seq<Placed>, more: seq<Placed>, i: nat)
    requires i < |more|
    ensures Group(placed + more[..i + 1]) == Append(Group(placed + more[..i]), more[i].role, [more[i].block])
  {
    GroupSnoc(placed + more[..i], more[i]);
    assert placed + more[..i + 1] == placed + more[..i] + [more[i]];
  }

  /** The loop over one assistant message's calls. */
  method PushCalls(turns: seq<Turn>, calls: seq<ToolCall>, ghost placed: seq<Placed>) returns (r: seq<Turn>)
    requires turns == Group(placed)
    ensures r == Group(placed + CallBlocks(calls))
  {
    r := turns;
    assert placed + CallBlocks(calls)[..0] == placed;
    for i := 0 to |calls|
      invariant r == Group(placed + CallBlocks(calls)[..i])
    {
      r := PushMerge(r, Assistant, ToolUse(calls[i].id, calls[i].name, calls[i].arguments));
      GroupNextOf(placed, CallBlocks(calls), i);
    }
    assert CallBlocks(calls)[..|calls|] == CallBlocks(calls);
  }

  /** One assistant message: thinking first, then text, then calls. */
  method PushAssistant(turns: seq<Turn>, msg: Message, ghost placed: seq<Placed>) returns (r: seq<Turn>)
    requires turns == Group(placed)
    ensures r == Group(placed + AssistantBlocks(msg))
  {
    r := turns;
    if msg.thinking.Some? {
      r := PushMerge(r, Assistant, ThinkingBlock(msg.thinking.value.text, msg.thinking.value.signature));
    }
    GroupAtMostOne(placed, ThinkingBlocks(msg));
    ghost var thought := placed + ThinkingBlocks(msg);
    if !msg.content.IsEmpty() {
      r := PushMerge(r, Assistant, TextBlock(msg.content.AsText()));
    }
    GroupAtMostOne(thought, TextBlocks(msg));
    ghost var said := thought + TextBlocks(msg);
    if msg.toolCalls.Some? {
      r := PushCalls(r, msg.toolCalls.value, said);
    } else {
      assert said + CallBlocks([]) == said;
    }
    ConcatThree(placed, ThinkingBlocks(msg), TextBlocks(msg), CallBlocks(msg.toolCalls.GetOr([])));
  }

  lemma {:induction false} GroupAtMostOne(placed: seq<Placed>, more: seq<Placed>)
    requires |more| <= 1
    ensures Group(placed + more)
      == if more == [] then Group(placed) else Append(Group(placed), more[0].role, [more[0].block])
  {
    if more == [] {
      assert placed + more == placed;
    } else {
      assert more == [more[0]];
      GroupSnoc(placed, more[0]);
    }
  }

  lemma {:induction false} ConcatThree<T>(s: seq<T>, a: seq<T>, b: seq<T>, c: seq<T>)
    ensures s + a + b + c == s + (a + b + c)
  {
  }

  /** The first pass: collect the leading system notes and group everything else into turns. */
  method GroupHistory(openai: seq<Message>, midConvSystem: bool)
    returns (merged: seq<Turn>, systemParts: seq<string>)
    ensures merged == Group(PlacedBlocks(openai, midConvSystem))
    ensures systemParts == Hoisted(openai, midConvSystem)
  {
    merged, systemParts := [], [];
    for n := 0 to |openai|
      invariant merged == Group(PlacedBlocks(openai[..n], midConvSystem))
      invariant systemParts == Hoisted(openai[..n], midConvSystem)
    {
      var msg := openai[n];
      ghost var before := PlacedBlocks(openai[..n], midConvSystem);
      assert openai[..n + 1][..n] == openai[..n];
      assert PlacedBlocks(openai[..n + 1], midConvSystem)
          == before + MessageBlocks(msg, HasUser(before), midConvSystem);
      if msg.role == "system" {
        if msg.content.IsEmpty() {
          assert before + [] == before;
          continue;
        }
        var text := msg.content.AsText();
        GroupRoles(before);
        var conversationStarted := HasUserTurn(merged);
        if !conversationStarted {
          systemParts := systemParts + [text];
          assert before + [] == before;
        } else {
          var role := if midConvSystem then System else User;
          merged := PushMerge(merged, role, TextBlock(text));
          GroupSnoc(before, Placed(role, TextBlock(text)));
        }
      } else if msg.role == "tool" {
        var block := ToolResult(msg.toolCallId.GetOr(""), msg.content.AsText());
        merged := PushMerge(merged, User, block);
        GroupSnoc(before, Placed(User, block));
      } else if msg.role == "assistant" {
        merged := PushAssistant(merged, msg, before);
      } else {
        merged := PushMerge(merged, User, TextBlock(msg.content.AsText()));
        GroupSnoc(before, Placed(User, TextBlock(msg.content.AsText())));
      }
    }
    assert openai[..|openai|] == openai;
  }

  /** Remove the results that answer dropped calls, turn by turn, then the emptied user turns. */
  method PurgeAnswers(turns: seq<Turn>, dropped: set<string>) returns (merged: seq<Turn>)
    ensures merged == Purge(turns, dropped)
  {
    merged := turns;
    for i := 0 to |turns|
      invariant |merged| == |turns|
      invariant forall j :: 0 <= j < i ==> merged[j] == Strip(turns[j], dropped)
      invariant forall j :: i <= j < |turns| ==> merged[j] == turns[j]
    {
      merged := merged[i := merged[i].(blocks := Keep(merged[i].blocks, dropped))];
    }
    assert merged == seq(|turns|, i requires 0 <= i < |turns| => Strip(turns[i], dropped));
    merged := WithoutEmptied(merged);
  }

  method NormalizeSystemTurns(merged: seq<Turn>) returns (out: seq<Turn>)
    ensures out == Normalized(merged, |merged|)
  {
    out := [];
    for i := 0 to |merged|
      invariant out == Normalized(merged, i)
    {
      var turn := merged[i];
      var legal := turn.role != System
        || (|out| > 0 && out[|out| - 1].role == User && (i + 1 >= |merged| || merged[i + 1].role == Assistant));
      var role := if legal then turn.role else User;
      if |out| > 0 && out[|out| - 1].role == role {
        var last := out[|out| - 1];
        out := out[|out| - 1 := last.(blocks := last.blocks + turn.blocks)];
      } else {
        out := out + [Turn(role, turn.blocks)];
      }
    }
  }

  method DropLeadingTurns(turns: seq<Turn>) returns (merged: seq<Turn>)
    ensures merged == DropLeading(turns)
  {
    merged := turns;
    while merged != [] && merged[0].role == Assistant
      invariant DropLeading(merged) == DropLeading(turns)
      decreases |merged|
    {
      var dropped := CallIds(merged[0].blocks);
      ghost var before := merged;
      merged := merged[1..];
      if dropped != {} {
        merged := PurgeAnswers(merged, dropped);
      }
      assert merged == DropFirst(before);
    }
  }

  method TranslateMessages(openai: seq<Message>, midConvSystem: bool)
    returns (messages: seq<WireTurn>, system: Option<string>)
    ensures messages == AllToWire(Translate(openai, midConvSystem))
    ensures system == SystemText(openai, midConvSystem)
  {
    var merged, systemParts := GroupHistory(openai, midConvSystem);
    merged := DropLeadingTurns(merged);
    merged := NormalizeSystemTurns(merged);
    messages := AllToWire(merged);
    system := if systemParts == [] then None else Some(Join(systemParts));
  }
}
