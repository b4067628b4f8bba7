/**
 * The two conversation shapes the subscription provider translates between: the internal
 * chat history, and the turns of the stricter upstream protocol.
 */
module Conversation {
  import opened Wrappers

  datatype ContentPart = TextPart(text: string) | ImagePart(url: string)

  datatype Content = Text(text: string) | Parts(parts: seq<ContentPart>) {
    predicate IsEmpty() {
      match this
      case Text(t) => t == ""
      case Parts(ps) => ps == []
    }

    function AsText(): string {
      match this
      case Text(t) => t
      case Parts(ps) => TextOf(ps)
    }
  }

  function TextOf(parts: seq<ContentPart>): string {
    if parts == [] then ""
    else
      TextOf(parts[..|parts| - 1]) + (if parts[|parts| - 1].TextPart? then parts[|parts| - 1].text else "")
  }

  datatype ToolCall = ToolCall(id: string, name: string, arguments: string)

  datatype Thinking = Thinking(text: string, signature: string)

  /** One entry of the internal history. The role is free text: an unknown one reads as the user's. */
  datatype Message = Message(
    role: string,
    content: Content,
    toolCalls: Option<seq<ToolCall>>,
    toolCallId: Option<string>,
    thinking: Option<Thinking>)

  /** One content block of an upstream turn. */
  datatype Block =
    | TextBlock(text: string)
    | ThinkingBlock(thinking: string, signature: string)
    | ToolUse(id: string, name: string, input: string)
    | ToolResult(toolUseId: string, content: string)

  datatype Role = User | Assistant | System

  datatype Turn = Turn(role: Role, blocks: seq<Block>)

  /** A block together with the role of the turn it is put into. */
  datatype Placed = Placed(role: Role, block: Block)

  /** Does this block answer one of the calls in `ids`? */
  predicate Answers(block: Block, ids: set<string>) {
    block.ToolResult? && block.toolUseId in ids
  }

  /** The ids of the calls among `blocks`. */
  function CallIds(blocks: seq<Block>): set<string> {
    set b | b in blocks && b.ToolUse? :: b.id
  }

  /** The ids of the calls among placed blocks. */
  function PlacedCallIds(ps: seq<Placed>): set<string> {
    set p | p in ps && p.block.ToolUse? :: p.block.id
  }

  /** A turn's blocks, each tagged with the turn's role. */
  function Tag(turn: Turn): (ps: seq<Placed>) {
    seq(|turn.blocks|, i requires 0 <= i < |turn.blocks| => Placed(turn.role, turn.blocks[i]))
  }

  /** All blocks of a list of turns, in order, with their roles. */
  function Flatten(turns: seq<Turn>): seq<Placed> {
    if turns == [] then []
    else Flatten(turns[..|turns| - 1]) + Tag(turns[|turns| - 1])
  }

  function BlocksOf(ps: seq<Placed>): (bs: seq<Block>)
    ensures |bs| == |ps|
    ensures forall i :: 0 <= i < |ps| ==> bs[i] == ps[i].block
  {
    seq(|ps|, i requires 0 <= i < |ps| => ps[i].block)
  }

  lemma {:induction false} FlattenConcat(a: seq<Turn>, b: seq<Turn>)
    ensures Flatten(a + b) == Flatten(a) + Flatten(b)
  {
    if b == [] {
      assert a + b == a;
    } else {
      var all, front, last := a + b, b[..|b| - 1], b[|b| - 1];
      assert all[..|all| - 1] == a + front && all[|all| - 1] == last;
      FlattenConcat(a, front);
      assert Flatten(all) == Flatten(a + front) + Tag(last);
      assert Flatten(b) == Flatten(front) + Tag(last);
    }
  }

  lemma {:induction false} FlattenHead(turns: seq<Turn>)
    requires turns != []
    ensures Flatten(turns) == Tag(turns[0]) + Flatten(turns[1..])
  {
    assert turns == [turns[0]] + turns[1..];
    FlattenConcat([turns[0]], turns[1..]);
    assert [turns[0]][..0] == [];
  }
}
