/** Conversation data: messages, their content blocks, tool calls and LLM replies
    (crates/agent-core/src/types.rs, llm.rs, error.rs). */
module Messages {
  import opened Prelude

  datatype Json =
    | JNull
    | JBool(b: bool)
    | JNumber(literal: string)
    | JString(s: string)
    | JArray(elements: seq<Json>)
    | JObject(fields: map<string, Json>)

  datatype Role = User | Assistant

  datatype ContentBlock =
    | TextBlock(text: string)
    | ToolUse(id: string, name: string, input: Json)
    | ToolResultBlock(toolUseId: string, content: string, isError: bool)
    | CompactBoundary(summary: string)

  datatype Message = Message(role: Role, content: seq<ContentBlock>)

  datatype ToolCall = ToolCall(id: string, name: string, input: Json)

  datatype ToolResult = ToolResult(toolUseId: string, content: string, isError: bool)

  datatype StopReason = EndTurn | ToolUseStop | MaxTokens | StopSequence

  /** What can go wrong between sending a request and having a parsed response. */
  datatype LlmError =
    | RequestFailed(message: string)
    | ResponseParse(body: string)
    | Transport(message: string)
    | Serialization(message: string)

  datatype AgentError =
    | Llm(cause: LlmError)
    | PromptTooLong
    | MaxIterationsExceeded(iterations: nat)
    | MaxContinuationsExceeded(continuations: nat)
    | UnexpectedStopReason(reason: string)
    | SetupFailed(reason: string)

  /** One answer of the model endpoint. */
  datatype Reply = Reply(stop: StopReason, content: seq<ContentBlock>) | Failed(error: LlmError)

  /** The tool calls of a response, in block order. */
  function CallsOf(content: seq<ContentBlock>): seq<ToolCall> {
    if content == [] then []
    else
      match content[0]
      case ToolUse(id, name, input) => [ToolCall(id, name, input)] + CallsOf(content[1..])
      case _ => CallsOf(content[1..])
  }

  lemma {:induction false} CallsConcat(a: seq<ContentBlock>, b: seq<ContentBlock>)
    ensures CallsOf(a + b) == CallsOf(a) + CallsOf(b)
  {
    if a == [] {
      assert a + b == b;
    } else {
      CallsConcat(a[1..], b);
      assert (a + b)[1..] == a[1..] + b;
    }
  }

  lemma CallsOfOne(b: ContentBlock)
    ensures CallsOf([b]) == if b.ToolUse? then [ToolCall(b.id, b.name, b.input)] else []
  {
    assert [b][1..] == [];
  }

  /** The calls of a response are its tool uses, all of them, in block order. */
  lemma CallsSnoc(content: seq<ContentBlock>, b: ContentBlock)
    ensures CallsOf(content + [b]) ==
            if b.ToolUse? then CallsOf(content) + [ToolCall(b.id, b.name, b.input)] else CallsOf(content)
    ensures CallsOf([]) == []
  {
    CallsConcat(content, [b]);
    CallsOfOne(b);
  }

  function FirstText(content: seq<ContentBlock>): Option<string> {
    if content == [] then None
    else if content[0].TextBlock? then Some(content[0].text)
    else FirstText(content[1..])
  }

  /** Block i is the first text. */
  ghost predicate FirstTextAt(content: seq<ContentBlock>, text: string, i: int) {
    0 <= i < |content| && content[i] == TextBlock(text) && forall k :: 0 <= k < i ==> !content[k].TextBlock?
  }

  lemma {:induction false} FirstTextIff(content: seq<ContentBlock>, text: string)
    ensures FirstText(content) == Some(text) <==> exists i :: FirstTextAt(content, text, i)
    ensures FirstText(content) == None <==> forall i :: 0 <= i < |content| ==> !content[i].TextBlock?
  {
    if content != [] {
      FirstTextIff(content[1..], text);
      if i :| FirstTextAt(content[1..], text, i) && !content[0].TextBlock? {
        assert FirstTextAt(content, text, i + 1);
      }
      if i :| FirstTextAt(content, text, i) {
        assert i == 0 || FirstTextAt(content[1..], text, i - 1);
      }
      if content[0] == TextBlock(text) {
        assert FirstTextAt(content, text, 0);
      }
    }
  }

  function CallIds(calls: seq<ToolCall>): (ids: seq<string>)
    ensures |ids| == |calls|
  {
    seq(|calls|, i requires 0 <= i < |calls| => calls[i].id)
  }

  /** Ids of the ToolUse blocks of a message. */
  function UseIds(m: Message): seq<string> {
    CallIds(CallsOf(m.content))
  }

  /** Ids answered by the ToolResult blocks of a message. */
  function ResultIds(m: Message): seq<string> {
    BlockResultIds(m.content)
  }

  function BlockResultIds(content: seq<ContentBlock>): seq<string> {
    if content == [] then []
    else if content[0].ToolResultBlock? then [content[0].toolUseId] + BlockResultIds(content[1..])
    else BlockResultIds(content[1..])
  }

  function UserText(text: string): Message {
    Message(User, [TextBlock(text)])
  }

  function ContinueMessage(): Message {
    UserText("Continue from where you left off.")
  }

  function ToBlocks(results: seq<ToolResult>): seq<ContentBlock> {
    seq(|results|, i requires 0 <= i < |results| =>
      ToolResultBlock(results[i].toolUseId, results[i].content, results[i].isError))
  }

  lemma ToBlocksSnoc(results: seq<ToolResult>, r: ToolResult)
    ensures ToBlocks(results + [r]) == ToBlocks(results) + [ToolResultBlock(r.toolUseId, r.content, r.isError)]
  {}

  function ToolResultMessage(results: seq<ToolResult>): Message {
    Message(User, ToBlocks(results))
  }

  function ResultToolIds(results: seq<ToolResult>): seq<string> {
    seq(|results|, i requires 0 <= i < |results| => results[i].toolUseId)
  }

  function ErrorFor(id: string, error: string): ToolResult {
    ToolResult(id, "Tool execution error: " + error, true)
  }

  // ---------------------------------------------------------------- ids, block by block

  /** Where a message carries a tool use, or a tool result, under an id. */
  ghost function UsesUnder(content: seq<ContentBlock>, id: string): set<int> {
    set k | 0 <= k < |content| && content[k].ToolUse? && content[k].id == id
  }

  ghost function ResultsUnder(content: seq<ContentBlock>, id: string): set<int> {
    set k | 0 <= k < |content| && content[k].ToolResultBlock? && content[k].toolUseId == id
  }

  ghost predicate CarriesUse(content: seq<ContentBlock>) {
    exists b <- content :: b.ToolUse?
  }

  ghost predicate CarriesResult(content: seq<ContentBlock>) {
    exists b <- content :: b.ToolResultBlock?
  }

  lemma OneMoreUse(content: seq<ContentBlock>, b: ContentBlock, id: string)
    ensures |UsesUnder(content + [b], id)| == |UsesUnder(content, id)| + (if b.ToolUse? && b.id == id then 1 else 0)
  {
    var more := if b.ToolUse? && b.id == id then {|content|} else {};
    assert UsesUnder(content + [b], id) == UsesUnder(content, id) + more;
  }

  lemma OneMoreResult(content: seq<ContentBlock>, b: ContentBlock, id: string)
    ensures |ResultsUnder(content + [b], id)| ==
            |ResultsUnder(content, id)| + (if b.ToolResultBlock? && b.toolUseId == id then 1 else 0)
  {
    var more := if b.ToolResultBlock? && b.toolUseId == id then {|content|} else {};
    assert ResultsUnder(content + [b], id) == ResultsUnder(content, id) + more;
  }

  lemma CallIdsSnoc(calls: seq<ToolCall>, call: ToolCall)
    ensures CallIds(calls + [call]) == CallIds(calls) + [call.id]
  {}

  lemma {:induction false} UsesCounted(content: seq<ContentBlock>, id: string)
    ensures |UsesUnder(content, id)| == multiset(CallIds(CallsOf(content)))[id]
    decreases |content|
  {
    if content == [] {
      assert UsesUnder(content, id) == {};
    } else {
      var n := |content| - 1;
      UsesCounted(content[..n], id);
      OneMoreUse(content[..n], content[n], id);
      CallsSnoc(content[..n], content[n]);
      assert content == content[..n] + [content[n]];
      hide UsesUnder, CallsOf, CallIds;
      if content[n].ToolUse? {
        CallIdsSnoc(CallsOf(content[..n]), ToolCall(content[n].id, content[n].name, content[n].input));
      }
    }
  }

  lemma {:induction false} ResultIdsConcat(a: seq<ContentBlock>, b: seq<ContentBlock>)
    ensures BlockResultIds(a + b) == BlockResultIds(a) + BlockResultIds(b)
  {
    if a == [] {
      assert a + b == b;
    } else {
      ResultIdsConcat(a[1..], b);
      assert (a + b)[1..] == a[1..] + b;
    }
  }

  lemma ResultIdsSnoc(content: seq<ContentBlock>, b: ContentBlock)
    ensures BlockResultIds(content + [b]) ==
            if b.ToolResultBlock? then BlockResultIds(content) + [b.toolUseId] else BlockResultIds(content)
  {
    ResultIdsConcat(content, [b]);
    assert [b][1..] == [];
  }

  lemma {:induction false} ResultsCounted(content: seq<ContentBlock>, id: string)
    ensures |ResultsUnder(content, id)| == multiset(BlockResultIds(content))[id]
    decreases |content|
  {
    if content == [] {
      assert ResultsUnder(content, id) == {};
    } else {
      var n := |content| - 1;
      ResultsCounted(content[..n], id);
      OneMoreResult(content[..n], content[n], id);
      ResultIdsSnoc(content[..n], content[n]);
      assert content == content[..n] + [content[n]];
      hide ResultsUnder, BlockResultIds;
    }
  }

  /** Under every id, `u` carries as many tool results as `a` carries tool uses. */
  ghost predicate Answers(u: Message, a: Message) {
    forall id :: |ResultsUnder(u.content, id)| == |UsesUnder(a.content, id)|
  }

  lemma SameIdsAnswer(u: Message, a: Message)
    requires ResultIds(u) == UseIds(a)
    ensures Answers(u, a)
  {
    forall id ensures |ResultsUnder(u.content, id)| == |UsesUnder(a.content, id)| {
      ResultsCounted(u.content, id);
      UsesCounted(a.content, id);
    }
  }

  lemma {:induction false} UsesIff(content: seq<ContentBlock>)
    ensures CarriesUse(content) <==> CallsOf(content) != []
  {
    if content != [] {
      UsesIff(content[1..]);
      assert content == [content[0]] + content[1..];
    }
  }

  lemma {:induction false} ResultsIff(content: seq<ContentBlock>)
    ensures CarriesResult(content) <==> BlockResultIds(content) != []
  {
    if content != [] {
      ResultsIff(content[1..]);
      assert content == [content[0]] + content[1..];
    }
  }

  /** Without results nothing is answered but a message without uses. */
  lemma NoResultsNoAnswer(u: Message, a: Message)
    requires !CarriesResult(u.content)
    ensures Answers(u, a) <==> !CarriesUse(a.content)
  {
    assert forall id :: ResultsUnder(u.content, id) == {};
    if CarriesUse(a.content) {
      var k :| 0 <= k < |a.content| && a.content[k].ToolUse?;
      assert k in UsesUnder(a.content, a.content[k].id);
    } else {
      assert forall id :: UsesUnder(a.content, id) == {};
    }
  }

  /** A use whose id no other use of its message has is answered by exactly one result. */
  lemma AnsweredByExactlyOne(u: Message, a: Message, k: int)
    requires Answers(u, a) && 0 <= k < |a.content| && a.content[k].ToolUse?
    requires forall j :: 0 <= j < |a.content| && a.content[j].ToolUse? && a.content[j].id == a.content[k].id ==> j == k
    ensures exists j :: ResultsUnder(u.content, a.content[k].id) == {j}
  {
    var id := a.content[k].id;
    assert UsesUnder(a.content, id) == {k};
    var results := ResultsUnder(u.content, id);
    assert |results| == 1;
    var j :| j in results;
    assert |results - {j}| == 0;
    assert results == {j};
  }

  lemma {:induction false} ToBlocksIds(results: seq<ToolResult>)
    ensures ResultIds(ToolResultMessage(results)) == ResultToolIds(results)
  {
    if results == [] {
    } else {
      ToBlocksIds(results[1..]);
      assert ToBlocks(results)[1..] == ToBlocks(results[1..]);
      assert ResultToolIds(results) == [results[0].toolUseId] + ResultToolIds(results[1..]);
    }
  }
}
