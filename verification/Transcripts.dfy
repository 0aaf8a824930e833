/** What a conversation must look like for the model endpoint to accept it, and the invariants that
    tie the messages of a turn, and the rows of a history, to the replies they came from. */
module Transcripts {
  import opened Prelude
  import opened Messages

  // ---------------------------------------------------------------- what a request must look like

  /** Starts with User, strictly alternates, ends with User. */
  ghost predicate Ordered(request: seq<Message>) {
    && request != []
    && request[0].role == User
    && request[|request| - 1].role == User
    && forall i :: 0 < i < |request| ==> request[i].role != request[i - 1].role
  }

  /** Every message with tool results after the first message answers, under each id as often, the tool
      uses of the message just before it. */
  ghost predicate Linked(ms: seq<Message>) {
    forall i :: 0 < i < |ms| ==> LinkedAt(ms, i)
  }

  ghost predicate LinkedAt(ms: seq<Message>, i: int)
    requires 0 < i < |ms|
  {
    ms[i].role == User && CarriesResult(ms[i].content) ==> Answers(ms[i], ms[i - 1])
  }

  /** The first message does not answer tool uses that are not there. */
  ghost predicate StartsFresh(ms: seq<Message>) {
    ms != [] ==> !CarriesResult(ms[0].content)
  }

  /** Every tool use of an assistant message is answered by the next message: by exactly one result, if
      no other use of the message has its id (`AnsweredByExactlyOne`). */
  ghost predicate UsesAnswered(ms: seq<Message>) {
    forall i :: 0 <= i < |ms| ==> AnsweredAt(ms, i)
  }

  ghost predicate AnsweredAt(ms: seq<Message>, i: int)
    requires 0 <= i < |ms|
  {
    ms[i].role == Assistant && CarriesUse(ms[i].content) ==> i + 1 < |ms| && Answers(ms[i + 1], ms[i])
  }

  /** The demands modelled here: order, and tool uses and results that match. */
  ghost predicate Acceptable(request: seq<Message>) {
    Ordered(request) && StartsFresh(request) && Linked(request) && UsesAnswered(request)
  }

  // ---------------------------------------------------------------- the messages of a turn

  ghost predicate Alternates(ms: seq<Message>) {
    forall i :: 0 <= i < |ms| ==> ms[i].role == (if i % 2 == 0 then User else Assistant)
  }

  /** `u` is how the agent reacts to reply `r` when the run goes on after assistant message `a`. */
  ghost predicate Reaction(r: Reply, a: Message, u: Message) {
    && r.Reply?
    && a == Message(Assistant, r.content)
    && u.role == User
    && (|| (r.stop.MaxTokens? && u == ContinueMessage())
        || (r.stop.ToolUseStop? && ResultIds(u) == UseIds(a)))
  }

  ghost predicate ReactionAt(ms: seq<Message>, rs: seq<Reply>, k: nat)
    requires k < |rs| && |ms| >= 2 * |rs| + 1
  {
    Reaction(rs[k], ms[2 * k + 1], ms[2 * k + 2])
  }

  /** The messages of a turn that has consumed the replies `rs` and is about to call the model. */
  ghost predicate Open(ms: seq<Message>, rs: seq<Reply>) {
    && |ms| == 2 * |rs| + 1
    && ms[0].role == User && !CarriesResult(ms[0].content)
    && forall k: nat :: k < |rs| ==> ReactionAt(ms, rs, k)
  }

  /** The messages of a turn whose last reply has just arrived. */
  ghost predicate Closed(ms: seq<Message>, rs: seq<Reply>) {
    && rs != []
    && |ms| == 2 * |rs|
    && Open(ms[..|ms| - 1], rs[..|rs| - 1])
    && rs[|rs| - 1].Reply?
    && ms[|ms| - 1] == Message(Assistant, rs[|rs| - 1].content)
  }

  lemma TextAnswersNothing(text: string)
    ensures !CarriesResult(UserText(text).content)
  {}

  /** A reaction answers the uses of its reply, or none if the reply was cut off. */
  lemma ReactionAnswers(r: Reply, a: Message, u: Message)
    requires Reaction(r, a, u)
    ensures r.stop.ToolUseStop? ==> Answers(u, a)
    ensures !r.stop.ToolUseStop? ==> !CarriesResult(u.content) && (Answers(u, a) <==> !CarriesUse(a.content))
  {
    if r.stop.ToolUseStop? {
      SameIdsAnswer(u, a);
    } else {
      TextAnswersNothing("Continue from where you left off.");
      NoResultsNoAnswer(u, a);
    }
  }

  lemma OpenIsLinked(ms: seq<Message>, rs: seq<Reply>)
    requires Open(ms, rs)
    ensures Alternates(ms) && Linked(ms)
  {
    forall i | 0 <= i < |ms|
      ensures ms[i].role == if i % 2 == 0 then User else Assistant
      ensures i > 0 ==> LinkedAt(ms, i)
    {
      if i > 0 {
        var k := (i - 1) / 2;
        assert ReactionAt(ms, rs, k);
        ReactionAnswers(rs[k], ms[2 * k + 1], ms[2 * k + 2]);
      }
    }
  }

  lemma ClosedIsLinked(ms: seq<Message>, rs: seq<Reply>)
    requires Closed(ms, rs)
    ensures |ms| % 2 == 0 && Alternates(ms) && Linked(ms) && StartsFresh(ms)
  {
    var open := ms[..|ms| - 1];
    OpenIsLinked(open, rs[..|rs| - 1]);
    forall i | 0 < i < |ms| ensures LinkedAt(ms, i) {
      if i < |open| {
        assert LinkedAt(open, i);
      }
    }
    assert forall i :: 0 <= i < |open| ==> ms[i] == open[i];
  }

  lemma OpenNext(ms: seq<Message>, rs: seq<Reply>, r: Reply, a: Message, u: Message)
    requires Open(ms, rs) && Reaction(r, a, u)
    ensures Open(ms + [a, u], rs + [r])
  {
    forall k: nat | k < |rs + [r]| ensures ReactionAt(ms + [a, u], rs + [r], k) {
      if k < |rs| {
        assert ReactionAt(ms, rs, k);
      }
    }
  }

  lemma OpenClose(ms: seq<Message>, rs: seq<Reply>, r: Reply)
    requires Open(ms, rs) && r.Reply?
    ensures Closed(ms + [Message(Assistant, r.content)], rs + [r])
  {
    var closed := ms + [Message(Assistant, r.content)];
    assert closed[..|closed| - 1] == ms;
    assert (rs + [r])[..|rs|] == rs;
  }

  /** A tool-use reply is answered by the results of exactly its calls. */
  lemma ClosedReopen(ms: seq<Message>, rs: seq<Reply>, u: Message)
    requires Closed(ms, rs) && rs[|rs| - 1].stop.ToolUseStop?
    requires u.role == User && ResultIds(u) == UseIds(ms[|ms| - 1])
    ensures Open(ms + [u], rs)
  {
    var n := |rs| - 1;
    OpenNext(ms[..|ms| - 1], rs[..n], rs[n], ms[|ms| - 1], u);
    assert ms[..|ms| - 1] + [ms[|ms| - 1], u] == ms + [u];
    assert rs[..n] + [rs[n]] == rs;
  }

  // ---------------------------------------------------------------- answered tool uses

  /** Only replies that stopped for tool use carry tool uses. */
  ghost predicate OnlyToolStopsCall(rs: seq<Reply>) {
    forall k :: 0 <= k < |rs| ==> ToolStopOrNoCall(rs[k])
  }

  ghost predicate ToolStopOrNoCall(r: Reply) {
    r.Reply? && !r.stop.ToolUseStop? ==> !CarriesUse(r.content)
  }

  /** A turn about to call the model has answered all tool uses exactly if only tool-use stops had any. */
  lemma OpenAnsweredIff(ms: seq<Message>, rs: seq<Reply>)
    requires Open(ms, rs)
    ensures UsesAnswered(ms) <==> OnlyToolStopsCall(rs)
  {
    OpenIsLinked(ms, rs);
    hide Answers, CarriesUse;
    forall k | 0 <= k < |rs| ensures AnsweredAt(ms, 2 * k + 1) <==> ToolStopOrNoCall(rs[k]) {
      assert ReactionAt(ms, rs, k);
      ReactionAnswers(rs[k], ms[2 * k + 1], ms[2 * k + 2]);
    }
    if OnlyToolStopsCall(rs) {
      forall i | 0 <= i < |ms| ensures AnsweredAt(ms, i) {
        if i % 2 == 1 {
          assert ToolStopOrNoCall(rs[i / 2]) && i == 2 * (i / 2) + 1;
        }
      }
    }
  }

  // ---------------------------------------------------------------- stored rows

  /** Assistant last, and alternating back from there. */
  ghost predicate AlternatesBack(ms: seq<Message>) {
    forall i :: 0 <= i < |ms| ==> ms[i].role == (if (|ms| - i) % 2 == 0 then User else Assistant)
  }

  type Stops = seq<Option<StopReason>>

  /** Where each of a turn's messages came from: a reply that stopped so, or the server. */
  function StopsOf(rs: seq<Reply>): (stops: Stops)
    ensures |stops| == 2 * |rs|
  {
    seq(2 * |rs|, i requires 0 <= i < 2 * |rs| =>
      if i % 2 == 1 && rs[i / 2].Reply? then Some(rs[i / 2].stop) else None)
  }

  /** Row i came from where `stops` says: a row that stopped for tool use is answered by the next
      row; after any other assistant row no results follow. */
  ghost predicate StopsAt(ms: seq<Message>, stops: Stops, i: int)
    requires |stops| == |ms| && 0 <= i < |ms|
  {
    && (ms[i].role == User <==> stops[i].None?)
    && (stops[i] == Some(ToolUseStop) ==> AnsweredAt(ms, i))
    && (stops[i].Some? && stops[i] != Some(ToolUseStop) && i + 1 < |ms| ==> !CarriesResult(ms[i + 1].content))
  }

  /** What holds of the rows of every history, wherever it may have been cut. */
  ghost predicate Rows(ms: seq<Message>, stops: Stops) {
    && |stops| == |ms|
    && AlternatesBack(ms)
    && Linked(ms)
    && forall i :: 0 <= i < |ms| ==> StopsAt(ms, stops, i)
  }

  lemma RowsSuffix(ms: seq<Message>, stops: Stops, from: nat)
    requires Rows(ms, stops) && from <= |ms|
    ensures Rows(ms[from..], stops[from..])
  {
    forall i | 0 <= i < |ms[from..]|
      ensures StopsAt(ms[from..], stops[from..], i) && (i > 0 ==> LinkedAt(ms[from..], i))
    {
      assert StopsAt(ms, stops, from + i);
      if i > 0 {
        assert LinkedAt(ms, from + i);
      }
    }
  }

  lemma RowsJoin(a: seq<Message>, sa: Stops, b: seq<Message>, sb: Stops)
    requires Rows(a, sa) && Rows(b, sb) && StartsFresh(b) && |b| % 2 == 0
    ensures Rows(a + b, sa + sb)
  {
    var ms, stops := a + b, sa + sb;
    forall i | 0 <= i < |ms| ensures StopsAt(ms, stops, i) && (i > 0 ==> LinkedAt(ms, i)) {
      if i < |a| {
        assert StopsAt(a, sa, i);
        if i > 0 {
          assert LinkedAt(a, i);
        }
      } else {
        assert StopsAt(b, sb, i - |a|);
        if i > |a| {
          assert LinkedAt(b, i - |a|);
        }
      }
    }
  }

  /** A finished turn. */
  lemma ClosedRows(ms: seq<Message>, rs: seq<Reply>)
    requires Closed(ms, rs)
    requires rs[|rs| - 1].stop.ToolUseStop? ==> !CarriesUse(rs[|rs| - 1].content)
    ensures Rows(ms, StopsOf(rs))
  {
    ClosedIsLinked(ms, rs);
    hide Answers, CarriesUse, CarriesResult;
    var stops := StopsOf(rs);
    var open, ds := ms[..|ms| - 1], rs[..|rs| - 1];
    forall i | 0 <= i < |ms| ensures StopsAt(ms, stops, i) {
      if i % 2 == 1 && i + 1 < |ms| {
        assert ReactionAt(open, ds, i / 2);
        assert open[2 * (i / 2) + 1] == ms[i] && open[2 * (i / 2) + 2] == ms[i + 1];
        ReactionAnswers(ds[i / 2], ms[i], ms[i + 1]);
      }
    }
  }

  /** No assistant row but those that stopped for tool use carries tool uses. */
  ghost predicate NoStrayUse(ms: seq<Message>, stops: Stops)
    requires |stops| == |ms|
  {
    forall i :: 0 <= i < |ms| ==> NoStrayUseAt(ms, stops, i)
  }

  ghost predicate NoStrayUseAt(ms: seq<Message>, stops: Stops, i: int)
    requires |stops| == |ms| && 0 <= i < |ms|
  {
    stops[i].Some? && stops[i] != Some(ToolUseStop) ==> !CarriesUse(ms[i].content)
  }

  lemma RowsAnsweredIff(ms: seq<Message>, stops: Stops)
    requires Rows(ms, stops)
    ensures UsesAnswered(ms) <==> NoStrayUse(ms, stops)
  {
    hide Answers, CarriesUse, CarriesResult;
    forall i | 0 <= i < |ms| ensures AnsweredAt(ms, i) <==> NoStrayUseAt(ms, stops, i) {
      assert StopsAt(ms, stops, i);
      if i + 1 < |ms| && !CarriesResult(ms[i + 1].content) {
        NoResultsNoAnswer(ms[i + 1], ms[i]);
      }
    }
  }

  // ---------------------------------------------------------------- requests

  /** A request: `base`, then the messages of a turn that has consumed the replies `rs`. */
  ghost predicate Shape(request: seq<Message>, base: seq<Message>, rs: seq<Reply>) {
    base <= request && Open(request[|base|..], rs)
  }

  /** Each demand on a request, in terms of the rows in front and the replies consumed. */
  lemma ShapeDecides(request: seq<Message>, base: seq<Message>, stops: Stops, rs: seq<Reply>)
    requires Shape(request, base, rs) && Rows(base, stops)
    ensures Ordered(request) <==> |base| % 2 == 0
    ensures Linked(request)
    ensures StartsFresh(request) <==> StartsFresh(base)
    ensures UsesAnswered(request) <==> NoStrayUse(base, stops) && OnlyToolStopsCall(rs)
  {
    var turn := request[|base|..];
    assert request == base + turn;
    OpenIsLinked(turn, rs);
    ShapeOrdered(request, base, turn);
    ShapeLinked(request, base, turn);
    ShapeAnswered(request, base, turn);
    OpenAnsweredIff(turn, rs);
    RowsAnsweredIff(base, stops);
  }

  ghost predicate RolesFrom(ms: seq<Message>, n: nat) {
    forall i :: 0 <= i < |ms| ==> ms[i].role == RoleAt(n + i)
  }

  function RoleAt(n: nat): Role {
    if n % 2 == 0 then User else Assistant
  }

  lemma ShapeRoles(request: seq<Message>, base: seq<Message>, turn: seq<Message>)
    requires request == base + turn && AlternatesBack(base) && Alternates(turn)
    ensures RolesFrom(request, |base|)
  {
    forall i | 0 <= i < |request| ensures request[i].role == RoleAt(|base| + i) {
      if i < |base| {
        assert request[i] == base[i];
      } else {
        assert request[i] == turn[i - |base|];
      }
    }
  }

  lemma ShapeOrdered(request: seq<Message>, base: seq<Message>, turn: seq<Message>)
    requires request == base + turn && AlternatesBack(base) && Alternates(turn) && |turn| % 2 == 1
    ensures Ordered(request) <==> |base| % 2 == 0
  {
    ShapeRoles(request, base, turn);
    hide AlternatesBack, Alternates;
    var n := |base|;
    assert request[0].role == RoleAt(n) && request[|request| - 1].role == RoleAt(n + |request| - 1) == User;
    forall i | 0 < i < |request| ensures request[i].role != request[i - 1].role {
      assert request[i].role == RoleAt(n + i) && request[i - 1].role == RoleAt(n + i - 1);
    }
  }

  lemma ShapeLinked(request: seq<Message>, base: seq<Message>, turn: seq<Message>)
    requires request == base + turn && Linked(base) && Linked(turn) && turn != [] && !CarriesResult(turn[0].content)
    ensures Linked(request)
  {
    forall i | 0 < i < |request| ensures LinkedAt(request, i) {
      if i < |base| {
        assert LinkedAt(base, i);
      } else if i > |base| {
        assert LinkedAt(turn, i - |base|);
      }
    }
  }

  lemma ShapeAnswered(request: seq<Message>, base: seq<Message>, turn: seq<Message>)
    requires request == base + turn && turn != [] && !CarriesResult(turn[0].content)
    ensures UsesAnswered(request) <==> UsesAnswered(base) && UsesAnswered(turn)
  {
    if base != [] {
      NoResultsNoAnswer(turn[0], base[|base| - 1]);
    }
    hide Answers, CarriesUse, CarriesResult;
    forall i | 0 <= i < |base| ensures AnsweredAt(request, i) <==> AnsweredAt(base, i) {}
    forall i | 0 <= i < |turn| ensures AnsweredAt(request, |base| + i) <==> AnsweredAt(turn, i) {}
    if UsesAnswered(base) && UsesAnswered(turn) {
      forall i | 0 <= i < |request| ensures AnsweredAt(request, i) {
        if i >= |base| {
          assert AnsweredAt(turn, i - |base|);
        } else {
          assert AnsweredAt(base, i);
        }
      }
    }
  }
}
