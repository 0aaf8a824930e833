/** What every request of every turn looks like, in every reachable history. */
module TurnSafety {
  import opened Prelude
  import opened Messages
  import opened AgentLoop
  import opened Harness
  import opened Transcripts

  predicate ToolStop(r: Reply) {
    r.Reply? && r.stop.ToolUseStop?
  }

  /** How many of the first k replies stopped for tool use. */
  function ToolStops(replies: seq<Reply>, k: nat): nat
    requires k <= |replies|
  {
    if k == 0 then 0 else ToolStops(replies, k - 1) + (if ToolStop(replies[k - 1]) then 1 else 0)
  }

  // ---------------------------------------------------------------- one segment

  /** `seg` ended well after the replies `rs` of its turn, over the rows `base`. */
  ghost predicate SegmentClosed(base: seq<Message>, rs: seq<Reply>, seg: LoopEnd) {
    && seg.out.Ok?
    && base <= seg.st.ctx
    && Closed(seg.st.ctx[|base|..], rs)
    && seg.out.value.pending == (if ToolStop(rs[|rs| - 1]) then CallsOf(rs[|rs| - 1].content) else [])
  }

  /** Request k of a turn on `all`, in a segment that started after `s` tool stops over `base`. */
  ghost predicate RequestIn(all: seq<Reply>, base: seq<Message>, s: nat, sent: seq<seq<Message>>, k: nat)
    requires k < |sent|
  {
    k <= |all| && ToolStops(all, k) == s && Shape(sent[k], base, all[..k])
  }

  ghost predicate SegmentOk(all: seq<Reply>, base: seq<Message>, s: nat, seg: LoopEnd) {
    var n := |seg.st.sent|;
    seg.out.Ok? ==>
      && 0 < n <= |all|
      && seg.st.replies == all[n..]
      && SegmentClosed(base, all[..n], seg)
      && ToolStops(all, n - 1) == s
  }

  /** A segment about to call the model, having consumed the first c replies of its turn. */
  ghost predicate Calling(all: seq<Reply>, base: seq<Message>, st: LoopState, c: nat) {
    && c <= |all| && st.replies == all[c..] && |st.sent| == c
    && Shape(st.ctx, base, all[..c])
  }

  lemma CallingGoesOn(budget: Budget, all: seq<Reply>, base: seq<Message>, st: LoopState, used: nat, c: nat)
    requires Calling(all, base, st, c) && Round(budget, None, st, used).Again?
    ensures var next := Round(budget, None, st, used).next;
            && Calling(all, base, next, c + 1)
            && next.sent == st.sent + [st.ctx]
            && ToolStops(all, c + 1) == ToolStops(all, c)
  {
    var next := Round(budget, None, st, used).next;
    var r, turn := all[c], st.ctx[|base|..];
    var a := Message(Assistant, r.content);
    OpenNext(turn, all[..c], r, a, ContinueMessage());
    assert all[..c + 1] == all[..c] + [r];
    assert next.ctx[|base|..] == turn + [a, ContinueMessage()];
  }

  lemma CallingStops(budget: Budget, all: seq<Reply>, base: seq<Message>, st: LoopState, used: nat, c: nat)
    requires Calling(all, base, st, c) && Round(budget, None, st, used).Stop?
    ensures var e := Round(budget, None, st, used).e;
            e.st.sent == st.sent + [st.ctx] && SegmentOk(all, base, ToolStops(all, c), e)
  {
    hide Round, Open, Closed;
    RoundStops(budget, st, used);
    var e := Round(budget, None, st, used).e;
    if e.out.Ok? {
      var turn := st.ctx[|base|..];
      OpenClose(turn, all[..c], all[c]);
      assert all[..c + 1] == all[..c] + [all[c]];
      assert e.st.ctx[|base|..] == turn + [Message(Assistant, all[c].content)];
    }
  }

  lemma RoundStops(budget: Budget, st: LoopState, used: nat)
    requires Round(budget, None, st, used).Stop?
    ensures var e := Round(budget, None, st, used).e;
            && e.st.sent == st.sent + [st.ctx]
            && (e.out.Ok? ==>
                  && st.replies != [] && st.replies[0].Reply?
                  && e.st.replies == st.replies[1..]
                  && e.st.ctx == st.ctx + [Message(Assistant, st.replies[0].content)]
                  && e.out.value.pending == if ToolStop(st.replies[0]) then CallsOf(st.replies[0].content) else [])
  {}

  ghost predicate RequestsIn(all: seq<Reply>, base: seq<Message>, s: nat, sent: seq<seq<Message>>, from: nat) {
    forall k: nat :: from <= k < |sent| ==> RequestIn(all, base, s, sent, k)
  }

  lemma {:induction false} SegmentRequests(budget: Budget, all: seq<Reply>, base: seq<Message>, st: LoopState,
                                           iterations: nat, used: nat, c: nat)
    requires Calling(all, base, st, c)
    ensures var e := LoopFrom(budget, None, st, iterations, used);
            && st.sent <= e.st.sent
            && RequestsIn(all, base, ToolStops(all, c), e.st.sent, c)
            && SegmentOk(all, base, ToolStops(all, c), e)
    decreases iterations
  {
    hide Round, SegmentOk, Shape;
    if iterations == 0 {
      SegmentOkIfFailed(all, base, ToolStops(all, c), LoopFrom(budget, None, st, iterations, used));
    } else if Round(budget, None, st, used).Stop? {
      CallingStops(budget, all, base, st, used, c);
    } else {
      var Again(next, used') := Round(budget, None, st, used);
      CallingGoesOn(budget, all, base, st, used, c);
      SegmentRequests(budget, all, base, next, iterations - 1, used', c + 1);
      var e := LoopFrom(budget, None, next, iterations - 1, used');
      assert e.st.sent[c] == next.sent[c] == st.ctx;
    }
  }

  lemma SegmentOkIfFailed(all: seq<Reply>, base: seq<Message>, s: nat, seg: LoopEnd)
    requires seg.out.Err?
    ensures SegmentOk(all, base, s, seg)
  {}

  // ---------------------------------------------------------------- one turn

  /** A clear landed before one of the first s reloads of the turn. */
  ghost predicate ClearedBy(env: Environment, s: nat) {
    exists j: nat :: j < s && env.cleared(j)
  }

  /** The user's stored rows as the turn finds them after s reloads. */
  ghost function HistoryAt<T>(env: Environment, history: seq<T>, s: nat): seq<T> {
    if ClearedBy(env, s) then [] else history
  }

  ghost function BaseAt(env: Environment, history: seq<Message>, s: nat): seq<Message> {
    Window(HistoryAt(env, history, s))
  }

  /** Request k: the window of the rows found at the last reload, then this turn's messages. */
  ghost predicate RequestAt(env: Environment, history: seq<Message>, all: seq<Reply>, sent: seq<seq<Message>>, k: nat)
    requires k < |sent|
  {
    k <= |all| && Shape(sent[k], BaseAt(env, history, ToolStops(all, k)), all[..k])
  }

  ghost predicate RequestsAt(env: Environment, history: seq<Message>, all: seq<Reply>, sent: seq<seq<Message>>) {
    forall k: nat :: k < |sent| ==> RequestAt(env, history, all, sent, k)
  }

  /** A segment of a turn has ended, s reloads into the turn, with `before` reported earlier. */
  ghost predicate MidTurn(env: Environment, history: seq<Message>, all: seq<Reply>, s: nat, ts: TurnState,
                          before: seq<Message>, seg: LoopEnd) {
    && ts.touches == s && ts.history == HistoryAt(env, history, s)
    && RequestsAt(env, history, all, seg.st.sent)
    && SegmentOk(all, Window(ts.history), s, seg)
    && (seg.out.Ok? ==> before + seg.out.value.newMessages == seg.st.ctx[|Window(ts.history)|..])
  }

  /** A segment started on `before + [m]` over the window of the rows found. */
  lemma RunMidTurn(env: Environment, history: seq<Message>, all: seq<Reply>, ts: TurnState, st0: LoopState, c: nat,
                   before: seq<Message>, m: Message)
    requires c <= |all|
    requires var s := ToolStops(all, c); ts.touches == s && ts.history == HistoryAt(env, history, s)
    requires |st0.sent| == c && RequestsAt(env, history, all, st0.sent)
    requires Open(before + [m], all[..c])
    requires st0 == Started(all[c..], st0.log, st0.sent, Window(ts.history) + before, m)
    ensures MidTurn(env, history, all, ToolStops(all, c), ts, before, RunLoop(env.budget, None, st0))
  {
    hide Round, Open, Closed, Newest;
    var base := Window(ts.history);
    var s := ToolStops(all, c);
    assert st0.ctx == base + (before + [m]);
    assert Calling(all, base, st0, c);
    SegmentRequests(env.budget, all, base, st0, env.budget.iterations, 0, c);
    RunReportsItsTranscript(env.budget, None, st0.replies, st0.log, st0.sent, base + before, m);
    var e := RunLoop(env.budget, None, st0);
    forall k: nat | k < |e.st.sent| ensures RequestAt(env, history, all, e.st.sent, k) {
      if k < c {
        assert RequestAt(env, history, all, st0.sent, k);
      } else {
        assert RequestIn(all, base, s, e.st.sent, k);
      }
    }
  }

  lemma ReloadFinds(env: Environment, history: seq<Message>, ts: TurnState, s: nat)
    requires ts.touches == s && ts.history == HistoryAt(env, history, s)
    ensures Touch(env, ts).touches == s + 1 && Touch(env, ts).history == HistoryAt(env, history, s + 1)
  {
    if env.cleared(s) {
      assert ClearedBy(env, s + 1);
    } else if ClearedBy(env, s) {
      var i: nat :| i < s && env.cleared(i);
      assert i < s + 1;
    }
  }

  lemma ResultsAnswer(env: Environment, r: Resolved, calls: seq<ToolCall>)
    requires r.results == []
    ensures ResultIds(ToolResultMessage(ResolveCalls(env, r, calls).results)) == CallIds(calls)
  {
    OneResultPerCall(env, r, calls);
    ToBlocksIds(ResolveCalls(env, r, calls).results);
    assert ResultToolIds(r.results) + CallIds(calls) == CallIds(calls);
  }

  /** Resolving the pending calls answers exactly them, so the next segment continues the turn. */
  lemma NextSegmentMidTurn(env: Environment, history: seq<Message>, all: seq<Reply>, s: nat, ts: TurnState,
                           before: seq<Message>, seg: LoopEnd)
    requires MidTurn(env, history, all, s, ts, before, seg) && seg.out.Ok? && seg.out.value.pending != []
    ensures var total := before + seg.out.value.newMessages;
            var (seg', ts') := NextSegment(env, ts, total, seg);
            MidTurn(env, history, all, s + 1, ts', total, seg')
  {
    hide Open, RequestsAt, LoopFrom, Newest, ResolveCalls, ToBlocks;
    var n, pending, total := |seg.st.sent|, seg.out.value.pending, before + seg.out.value.newMessages;
    var r := ResolveCalls(env, Resolved(seg.st.log, ts.prompts, []), pending);
    var ts' := Touch(env, ts.(prompts := r.prompts));
    var m := ToolResultMessage(r.results);
    ResultsAnswer(env, Resolved(seg.st.log, ts.prompts, []), pending);
    hide BlockResultIds, CallsOf;
    ClosedReopen(total, all[..n], m);
    ReloadFinds(env, history, ts.(prompts := r.prompts), s);
    var st0 := Started(seg.st.replies, r.log, seg.st.sent, Window(ts'.history) + total, m);
    RunMidTurn(env, history, all, ts', st0, n, total, m);
  }

  /** How a turn ends: what it sent, what it reports, and what it leaves in the table. */
  ghost predicate TurnFollows(env: Environment, history: seq<Message>, all: seq<Reply>, end: TurnEnd) {
    var n := |end.sent|;
    && RequestsAt(env, history, all, end.sent)
    && (end.out.Err? ==> end.history == history || (end.history == [] && exists k: nat :: env.cleared(k)))
    && (end.out.Ok? ==>
          && 0 < n <= |all| && end.replies == all[n..]
          && Closed(end.out.value.newMessages, all[..n])
          && (ToolStop(all[n - 1]) ==> CallsOf(all[n - 1].content) == [])
          && var s := ToolStops(all, n - 1);
             end.history == Store(env.cleared, s, HistoryAt(env, history, s), end.out.value.newMessages))
  }

  lemma {:induction false} AfterSegmentFollows(env: Environment, history: seq<Message>, all: seq<Reply>, s: nat,
                                               ts: TurnState, before: seq<Message>, seg: LoopEnd)
    requires MidTurn(env, history, all, s, ts, before, seg)
    ensures TurnFollows(env, history, all, AfterSegment(env, ts, before, seg))
    decreases |seg.st.replies|
  {
    hide NextSegment, Closed, Store, Window;
    if seg.out.Ok? && seg.out.value.pending != [] {
      var total := before + seg.out.value.newMessages;
      NextSegmentMidTurn(env, history, all, s, ts, before, seg);
      var (seg', ts') := NextSegment(env, ts, total, seg);
      if seg'.out.Ok? {
        NextSegmentShorter(env, ts, total, seg);
        AfterSegmentFollows(env, history, all, s + 1, ts', total, seg');
      }
    }
  }

  lemma NextSegmentShorter(env: Environment, ts: TurnState, total: seq<Message>, seg: LoopEnd)
    requires seg.out.Ok?
    ensures NextSegment(env, ts, total, seg).0.out.Ok? ==>
              |NextSegment(env, ts, total, seg).0.st.replies| < |seg.st.replies|
  {}

  /** From any history whatsoever: request k of a turn is the window found at the last reload, then a
      transcript of the first k replies; a successful turn reports the transcript of the replies it
      consumed and stores exactly that, clears landing where they may. */
  lemma TurnFollowsReplies(env: Environment, history: seq<Message>, all: seq<Reply>, log: seq<ToolCall>, text: string)
    ensures TurnFollows(env, history, all, Turn(env, history, all, log, text))
  {
    if env.setup.None? {
      var ts := TurnState(history, 0, 0);
      var m := UserText(text);
      TextAnswersNothing(text);
      assert [] + [m] == [m] && all[0..] == all;
      assert Window(history) + [] == Window(history);
      RunMidTurn(env, history, all, ts, Started(all, log, [], Window(history) + [], m), 0, [], m);
      AfterSegmentFollows(env, history, all, 0, ts, [], FirstSegment(env, history, all, log, text));
    }
  }

  lemma NextSegmentSends(env: Environment, ts: TurnState, total: seq<Message>, seg: LoopEnd)
    requires seg.out.Ok?
    ensures seg.st.sent <= NextSegment(env, ts, total, seg).0.st.sent
  {
    var r := ResolveCalls(env, Resolved(seg.st.log, ts.prompts, []), seg.out.value.pending);
    var ts' := Touch(env, ts.(prompts := r.prompts));
    RunBegins(env.budget, None, seg.st.replies, r.log, seg.st.sent, Window(ts'.history) + total,
              ToolResultMessage(r.results));
    hide LoopFrom, ResolveCalls;
    if env.budget.iterations == 0 {
      NoRounds(env.budget, Started(seg.st.replies, r.log, seg.st.sent, Window(ts'.history) + total,
                                   ToolResultMessage(r.results)));
    }
  }

  lemma NoRounds(budget: Budget, st: LoopState)
    requires budget.iterations == 0
    ensures RunLoop(budget, None, st).st == st
  {}

  lemma {:induction false} AfterSegmentExtends(env: Environment, ts: TurnState, before: seq<Message>, seg: LoopEnd)
    ensures var end := AfterSegment(env, ts, before, seg);
            && seg.st.sent <= end.sent
            && (end.out.Ok? ==> seg.out.Ok? && before + seg.out.value.newMessages <= end.out.value.newMessages)
    decreases |seg.st.replies|
  {
    hide NextSegment, Store;
    if seg.out.Ok? && seg.out.value.pending != [] {
      var total := before + seg.out.value.newMessages;
      NextSegmentSends(env, ts, total, seg);
      var (seg', ts') := NextSegment(env, ts, total, seg);
      if seg'.out.Ok? {
        NextSegmentShorter(env, ts, total, seg);
        AfterSegmentExtends(env, ts', total, seg');
      }
    }
  }

  /** The first request of a turn is the newest 50 rows and the user's text, and that text is the first
      message the turn reports. */
  lemma TurnBeginsWithTheText(env: Environment, history: seq<Message>, all: seq<Reply>, log: seq<ToolCall>,
                              text: string)
    requires env.setup.None? && env.budget.iterations > 0
    ensures var end := Turn(env, history, all, log, text);
            var first := Message(User, [TextBlock(text)]);
            && end.sent != []
            && end.sent[0] == history[if |history| <= 50 then 0 else |history| - 50..] + [first]
            && (end.out.Ok? ==> end.out.value.newMessages != [] && end.out.value.newMessages[0] == first)
  {
    var seg := FirstSegment(env, history, all, log, text);
    RunBegins(env.budget, None, all, log, [], Window(history), UserText(text));
    RunReportsItsTranscript(env.budget, None, all, log, [], Window(history), UserText(text));
    AfterSegmentExtends(env, TurnState(history, 0, 0), [], seg);
    hide AfterSegment, LoopFrom;
    assert history[0..] == history;
  }

  // ---------------------------------------------------------------- every reachable history

  /** What can happen to one user's rows, one thing at a time; clears that land during a turn are part
      of the turn's environment. */
  datatype Event =
    | UserTurn(env: Environment, replies: seq<Reply>, log: seq<ToolCall>, text: string)
    | ClearHistory

  function HistoryAfter(events: seq<Event>): seq<Message> {
    if events == [] then []
    else
      var n := |events| - 1;
      match events[n]
      case UserTurn(env, replies, log, text) => Turn(env, HistoryAfter(events[..n]), replies, log, text).history
      case ClearHistory => []
  }

  /** What a turn does to a table kept beside the rows, with an entry for each message. */
  ghost function Beside<T>(env: Environment, end: TurnEnd, entries: seq<T>, added: seq<T>, s: nat): seq<T> {
    if end.out.Ok? then Store(env.cleared, s, HistoryAt(env, entries, s), added)
    else if end.history == [] then []
    else entries
  }

  /** Where each stored row came from. */
  ghost function StopsAfter(events: seq<Event>): Stops {
    if events == [] then []
    else
      var n := |events| - 1;
      match events[n]
      case UserTurn(env, replies, log, text) =>
        var end := Turn(env, HistoryAfter(events[..n]), replies, log, text);
        TurnFollowsReplies(env, HistoryAfter(events[..n]), replies, log, text);
        var rs := if end.out.Ok? then replies[..|end.sent|] else [];
        Beside(env, end, StopsAfter(events[..n]), StopsOf(rs), if rs == [] then 0 else ToolStops(replies, |rs| - 1))
      case ClearHistory => []
  }

  lemma StoreRows(cleared: nat -> bool, touches: nat, rows: seq<Message>, stops: Stops, added: seq<Message>,
                  more: Stops)
    requires Rows(rows, stops) && Rows(added, more) && StartsFresh(added) && |added| % 2 == 0
    ensures Rows(Store(cleared, touches, rows, added), Store(cleared, touches, stops, more))
  {
    StoreKeeps(cleared, touches, rows, added);
    StoreKeeps(cleared, touches, stops, more);
    match LastClear(cleared, touches, |added|)
    case None => RowsJoin(rows, stops, added, more);
    case Some(i) => RowsSuffix(added, more, i);
  }

  lemma TurnKeepsRows(env: Environment, history: seq<Message>, stops: Stops, all: seq<Reply>, end: TurnEnd)
    requires Rows(history, stops) && TurnFollows(env, history, all, end)
    ensures var rs := if end.out.Ok? then all[..|end.sent|] else [];
            Rows(end.history, Beside(env, end, stops, StopsOf(rs), if rs == [] then 0 else ToolStops(all, |rs| - 1)))
  {
    hide Store;
    if end.out.Ok? {
      var n := |end.sent|;
      var s := ToolStops(all, n - 1);
      UsesIff(all[n - 1].content);
      ClosedRows(end.out.value.newMessages, all[..n]);
      ClosedIsLinked(end.out.value.newMessages, all[..n]);
      StoreRows(env.cleared, s, HistoryAt(env, history, s), HistoryAt(env, stops, s), end.out.value.newMessages,
                StopsOf(all[..n]));
    }
  }

  /** After any sequence of turns and clears, clears landing at any access to the table, the rows end
      with Assistant, alternate back from there, and are linked; rows that stopped for tool use are
      answered. */
  lemma {:induction false} ReachableRows(events: seq<Event>)
    ensures Rows(HistoryAfter(events), StopsAfter(events))
  {
    hide Rows, Turn, Beside;
    if events == [] {
      NoRows();
    } else {
      var n := |events| - 1;
      ReachableRows(events[..n]);
      if events[n].UserTurn? {
        var UserTurn(env, replies, log, text) := events[n];
        var history := HistoryAfter(events[..n]);
        TurnFollowsReplies(env, history, replies, log, text);
        TurnKeepsRows(env, history, StopsAfter(events[..n]), replies, Turn(env, history, replies, log, text));
      } else {
        NoRows();
      }
    }
  }

  lemma NoRows()
    ensures Rows([], [])
  {}

  // ---------------------------------------------------------------- every request

  lemma WindowRows(ms: seq<Message>, stops: Stops)
    requires Rows(ms, stops)
    ensures Rows(Window(ms), Window(stops))
  {
    if |ms| > HISTORY_WINDOW {
      RowsSuffix(ms, stops, |ms| - HISTORY_WINDOW);
    }
  }

  /** What each demand on request k comes down to: the rows in its window and the replies consumed. */
  ghost predicate Decided(env: Environment, history: seq<Message>, stops: Stops, all: seq<Reply>,
                          request: seq<Message>, k: nat)
    requires k <= |all| && |stops| == |history|
  {
    var s := ToolStops(all, k);
    var base, from := Window(HistoryAt(env, history, s)), Window(HistoryAt(env, stops, s));
    && (Ordered(request) <==> |base| % 2 == 0)
    && Linked(request)
    && (StartsFresh(request) <==> StartsFresh(base))
    && (UsesAnswered(request) <==> NoStrayUse(base, from) && OnlyToolStopsCall(all[..k]))
  }

  lemma RequestDecided(env: Environment, history: seq<Message>, stops: Stops, all: seq<Reply>,
                       sent: seq<seq<Message>>, k: nat)
    requires Rows(history, stops) && k < |sent| && RequestAt(env, history, all, sent, k)
    ensures Decided(env, history, stops, all, sent[k], k)
  {
    var s := ToolStops(all, k);
    WindowRows(history, stops);
    NoRows();
    hide Rows, Shape;
    ShapeDecides(sent[k], BaseAt(env, history, s), Window(HistoryAt(env, stops, s)), all[..k]);
  }

  /** In every reachable history and for every request of every turn, each demand of the endpoint has
      an exact condition: order, an even number of rows in the window; a fresh start, a window that does
      not open with tool results; answered uses, none in a row or consumed reply that did not stop for
      tool use. That results answer the uses before them holds always. */
  lemma EveryRequestDecided(events: seq<Event>, env: Environment, all: seq<Reply>, log: seq<ToolCall>, text: string,
                            k: nat)
    ensures var history := HistoryAfter(events);
            var sent := Turn(env, history, all, log, text).sent;
            k < |sent| ==> k <= |all| && |StopsAfter(events)| == |history|
                           && Decided(env, history, StopsAfter(events), all, sent[k], k)
  {
    var history := HistoryAfter(events);
    var sent := Turn(env, history, all, log, text).sent;
    ReachableRows(events);
    TurnFollowsReplies(env, history, all, log, text);
    hide Turn, HistoryAfter, StopsAfter, RequestAt, Decided;
    if k < |sent| {
      assert RequestAt(env, history, all, sent, k);
      RequestAtBound(env, history, all, sent, k);
      RequestDecided(env, history, StopsAfter(events), all, sent, k);
    }
  }

  lemma RequestAtBound(env: Environment, history: seq<Message>, all: seq<Reply>, sent: seq<seq<Message>>, k: nat)
    requires k < |sent| && RequestAt(env, history, all, sent, k)
    ensures k <= |all|
  {}

  // ---------------------------------------------------------------- a whole turn

  ghost predicate AllOrdered(sent: seq<seq<Message>>) {
    forall k :: 0 <= k < |sent| ==> Ordered(sent[k])
  }

  ghost predicate AllLinked(sent: seq<seq<Message>>) {
    forall k :: 0 <= k < |sent| ==> Linked(sent[k])
  }

  ghost predicate AllStartFresh(sent: seq<seq<Message>>) {
    forall k :: 0 <= k < |sent| ==> StartsFresh(sent[k])
  }

  ghost predicate AllAnswered(sent: seq<seq<Message>>) {
    forall k :: 0 <= k < |sent| ==> UsesAnswered(sent[k])
  }

  ghost predicate AllAcceptable(sent: seq<seq<Message>>) {
    forall k :: 0 <= k < |sent| ==> Acceptable(sent[k])
  }

  /** The window opens with tool results whose tool use has been cut off. */
  ghost predicate CutAtToolResults(history: seq<Message>) {
    Window(history) != [] && CarriesResult(Window(history)[0].content)
  }

  /** An odd number of rows, all of them in the window. */
  ghost predicate OddRows(history: seq<Message>) {
    |history| % 2 == 1 && |history| <= HISTORY_WINDOW
  }

  ghost predicate TurnDecided(env: Environment, history: seq<Message>, stops: Stops, all: seq<Reply>,
                              sent: seq<seq<Message>>)
    requires |stops| == |history| && 0 < |sent| <= |all| + 1
  {
    var answerable := NoStrayUse(Window(history), Window(stops)) && OnlyToolStopsCall(all[..|sent| - 1]);
    && (AllOrdered(sent) <==> !OddRows(history))
    && AllLinked(sent)
    && (AllStartFresh(sent) <==> !CutAtToolResults(history))
    && (AllAnswered(sent) <==> answerable)
    && (AllAcceptable(sent) <==> !OddRows(history) && !CutAtToolResults(history) && answerable)
  }

  lemma LaterRequests(env: Environment, history: seq<Message>, stops: Stops, all: seq<Reply>, sent: seq<seq<Message>>,
                      k: nat)
    requires |stops| == |history| && k < |sent| <= |all| + 1 && Decided(env, history, stops, all, sent[k], k)
    ensures Ordered(sent[k]) <== !OddRows(history)
    ensures Linked(sent[k])
    ensures StartsFresh(sent[k]) <== !CutAtToolResults(history)
    ensures UsesAnswered(sent[k]) <== NoStrayUse(Window(history), Window(stops)) && OnlyToolStopsCall(all[..|sent| - 1])
  {
    if OnlyToolStopsCall(all[..|sent| - 1]) {
      forall i | 0 <= i < k ensures ToolStopOrNoCall(all[..k][i]) {
        assert all[..k][i] == all[..|sent| - 1][i];
        assert ToolStopOrNoCall(all[..|sent| - 1][i]);
      }
    }
  }

  lemma FirstRequest(env: Environment, history: seq<Message>, stops: Stops, all: seq<Reply>, request: seq<Message>)
    requires |stops| == |history| && Decided(env, history, stops, all, request, 0)
    ensures Ordered(request) <==> !OddRows(history)
    ensures StartsFresh(request) <==> !CutAtToolResults(history)
    ensures UsesAnswered(request) <==> NoStrayUse(Window(history), Window(stops))
  {
    assert !ClearedBy(env, 0);
  }

  lemma WholeTurnDecided(env: Environment, history: seq<Message>, stops: Stops, all: seq<Reply>,
                         sent: seq<seq<Message>>)
    requires |stops| == |history| && 0 < |sent| <= |all| + 1
    requires forall k: nat :: k < |sent| ==> Decided(env, history, stops, all, sent[k], k)
    ensures TurnDecided(env, history, stops, all, sent)
  {
    hide OddRows, CutAtToolResults, NoStrayUse, OnlyToolStopsCall, Ordered, StartsFresh, UsesAnswered, Linked;
    var n := |sent| - 1;
    FirstRequest(env, history, stops, all, sent[0]);
    assert UsesAnswered(sent[n]) ==> OnlyToolStopsCall(all[..n]) by {
      assert Decided(env, history, stops, all, sent[n], n);
    }
    hide Decided;
    forall k | 0 <= k < |sent|
      ensures Ordered(sent[k]) <== !OddRows(history)
      ensures Linked(sent[k])
      ensures StartsFresh(sent[k]) <== !CutAtToolResults(history)
      ensures UsesAnswered(sent[k]) <== NoStrayUse(Window(history), Window(stops)) && OnlyToolStopsCall(all[..n])
    {
      LaterRequests(env, history, stops, all, sent, k);
    }
  }

  /** For every turn in every reachable history that makes a request at all: all its requests are in
      order if and only if the table does not hold an odd number of rows within the window; all start
      fresh if and only if the window does not open with tool results; and all tool uses are answered
      if and only if neither a row in the window nor a reply consumed before the last request carries
      a tool use without having stopped for it. Reloads and clears during the turn change none of this. */
  lemma EveryTurnDecided(events: seq<Event>, env: Environment, all: seq<Reply>, log: seq<ToolCall>, text: string)
    ensures var history := HistoryAfter(events);
            var sent := Turn(env, history, all, log, text).sent;
            sent != [] ==> |StopsAfter(events)| == |history| && |sent| <= |all| + 1
                           && TurnDecided(env, history, StopsAfter(events), all, sent)
  {
    hide Turn, HistoryAfter, StopsAfter, Decided, TurnDecided;
    var history := HistoryAfter(events);
    var sent := Turn(env, history, all, log, text).sent;
    if sent != [] {
      forall k: nat | k < |sent|
        ensures k <= |all| && |StopsAfter(events)| == |history|
        ensures Decided(env, history, StopsAfter(events), all, sent[k], k)
      {
        EveryRequestDecided(events, env, all, log, text, k);
      }
      EveryRequestDecided(events, env, all, log, text, |sent| - 1);
      WholeTurnDecided(env, history, StopsAfter(events), all, sent);
    }
  }

  // ---------------------------------------------------------------- where odd rows and stray uses come from

  /** Reloads a successful turn has made when it starts to store. */
  ghost function Reloads(all: seq<Reply>, end: TurnEnd): nat {
    if 0 < |end.sent| <= |all| then ToolStops(all, |end.sent| - 1) else 0
  }

  /** Whether an odd number of rows is left by a cut, after a turn over rows of which `before` says so. */
  ghost predicate OddAfter(env: Environment, all: seq<Reply>, end: TurnEnd, before: bool) {
    if end.out.Err? then end.history != [] && before
    else
      match LastClear(env.cleared, Reloads(all, end), |end.out.value.newMessages|)
      case Some(i) => i % 2 == 1
      case None => !ClearedBy(env, Reloads(all, end)) && before
  }

  /** The last clear to land between two inserts, since the rows were last cleared otherwise, left an
      odd number of that turn's rows behind it. */
  ghost predicate OddCut(events: seq<Event>) {
    events != [] &&
    var n := |events| - 1;
    match events[n]
    case ClearHistory => false
    case UserTurn(env, all, log, text) =>
      OddAfter(env, all, Turn(env, HistoryAfter(events[..n]), all, log, text), OddCut(events[..n]))
  }

  lemma StoreParity(cleared: nat -> bool, touches: nat, rows: seq<Message>, added: seq<Message>)
    requires |added| % 2 == 0
    ensures |Store(cleared, touches, rows, added)| % 2 == 1 <==>
            match LastClear(cleared, touches, |added|)
            case Some(i) => i % 2 == 1
            case None => |rows| % 2 == 1
  {
    StoreKeeps(cleared, touches, rows, added);
    hide Store;
  }

  lemma TurnParity(env: Environment, history: seq<Message>, all: seq<Reply>, end: TurnEnd)
    requires TurnFollows(env, history, all, end)
    ensures |end.history| % 2 == 1 <==> OddAfter(env, all, end, |history| % 2 == 1)
  {
    if end.out.Ok? {
      var s := Reloads(all, end);
      StoreParity(env.cleared, s, HistoryAt(env, history, s), end.out.value.newMessages);
      hide Store, LastClear, RequestsAt;
    }
  }

  /** The table holds an odd number of rows if and only if a clear cut a turn's rows at an odd place. */
  lemma {:induction false} OddRowsComeFromCuts(events: seq<Event>)
    ensures |HistoryAfter(events)| % 2 == 1 <==> OddCut(events)
  {
    if events == [] {
    } else {
      var n := |events| - 1;
      OddRowsComeFromCuts(events[..n]);
      if events[n].UserTurn? {
        var UserTurn(env, all, log, text) := events[n];
        TurnFollowsReplies(env, HistoryAfter(events[..n]), all, log, text);
        hide Turn;
        TurnParity(env, HistoryAfter(events[..n]), all, Turn(env, HistoryAfter(events[..n]), all, log, text));
      }
    }
  }

  /** No clear lands between two inserts of a turn. */
  ghost predicate ClearsMissInserts(events: seq<Event>) {
    forall i :: 0 <= i < |events| ==> ClearMisses(events, i)
  }

  ghost predicate ClearMisses(events: seq<Event>, i: int)
    requires 0 <= i < |events|
  {
    events[i].UserTurn? ==>
      var UserTurn(env, all, log, text) := events[i];
      var end := Turn(env, HistoryAfter(events[..i]), all, log, text);
      var first := Reloads(all, end);
      end.out.Ok? ==> forall k: nat :: first < k < first + |end.out.value.newMessages| ==> !env.cleared(k)
  }

  /** Only replies that stopped for tool use carried tool uses, in every turn so far. */
  ghost predicate OnlyToolStopsCalled(events: seq<Event>) {
    forall i :: 0 <= i < |events| ==> OnlyToolStopsCalledIn(events, i)
  }

  ghost predicate OnlyToolStopsCalledIn(events: seq<Event>, i: int)
    requires 0 <= i < |events|
  {
    events[i].UserTurn? ==>
      var UserTurn(env, all, log, text) := events[i];
      OnlyToolStopsCall(Consumed(all, Turn(env, HistoryAfter(events[..i]), all, log, text)))
  }

  /** The replies a turn has taken off the stream. */
  function Consumed(all: seq<Reply>, end: TurnEnd): seq<Reply> {
    if |end.sent| <= |all| then all[..|end.sent|] else all
  }

  lemma {:induction false} NoOddCut(events: seq<Event>)
    requires ClearsMissInserts(events)
    ensures !OddCut(events)
  {
    if events != [] {
      var n := |events| - 1;
      forall i | 0 <= i < n ensures ClearMisses(events[..n], i) {
        assert events[..n][..i] == events[..i] && ClearMisses(events, i);
      }
      NoOddCut(events[..n]);
      assert ClearMisses(events, n);
      LastTurnCutsEvenly(events);
    }
  }

  lemma LastTurnCutsEvenly(events: seq<Event>)
    requires events != [] && ClearMisses(events, |events| - 1) && !OddCut(events[..|events| - 1])
    ensures !OddCut(events)
  {
    hide Turn, HistoryAfter, OddAfter;
    var n := |events| - 1;
    if events[n].UserTurn? {
      var UserTurn(env, all, log, text) := events[n];
      MissedCutsEvenly(env, all, Turn(env, HistoryAfter(events[..n]), all, log, text));
    }
  }

  lemma MissedCutsEvenly(env: Environment, all: seq<Reply>, end: TurnEnd)
    requires end.out.Ok? ==>
               var first := Reloads(all, end);
               forall k: nat :: first < k < first + |end.out.value.newMessages| ==> !env.cleared(k)
    ensures !OddAfter(env, all, end, false)
  {
    hide LastClear, Reloads;
    if end.out.Ok? {
      OnlyFirstInsertCut(env.cleared, Reloads(all, end), |end.out.value.newMessages|);
    }
  }

  lemma OnlyFirstInsertCut(cleared: nat -> bool, touches: nat, n: nat)
    requires forall k: nat :: touches < k < touches + n ==> !cleared(k)
    ensures var last := LastClear(cleared, touches, n); last.Some? ==> last.value == 0
  {}

  lemma ClosedNoStray(ms: seq<Message>, rs: seq<Reply>)
    requires Closed(ms, rs) && OnlyToolStopsCall(rs)
    ensures NoStrayUse(ms, StopsOf(rs))
  {
    var open, ds := ms[..|ms| - 1], rs[..|rs| - 1];
    forall i | 0 <= i < |ms| ensures NoStrayUseAt(ms, StopsOf(rs), i) {
      assert ToolStopOrNoCall(rs[i / 2]);
      if i % 2 == 1 && i + 1 < |ms| {
        assert ReactionAt(open, ds, i / 2) && open[i] == ms[i];
      }
    }
  }

  lemma StoreNoStray(cleared: nat -> bool, touches: nat, rows: seq<Message>, stops: Stops, added: seq<Message>,
                     more: Stops)
    requires |stops| == |rows| && |more| == |added| && NoStrayUse(rows, stops) && NoStrayUse(added, more)
    ensures var (ms, all) := (Store(cleared, touches, rows, added), Store(cleared, touches, stops, more));
            |all| == |ms| && NoStrayUse(ms, all)
  {
    StoreKeeps(cleared, touches, rows, added);
    StoreKeeps(cleared, touches, stops, more);
    hide Store;
    match LastClear(cleared, touches, |added|)
    case None => NoStrayJoin(rows, stops, added, more);
    case Some(i) => NoStraySuffix(added, more, i);
  }

  lemma NoStrayJoin(a: seq<Message>, sa: Stops, b: seq<Message>, sb: Stops)
    requires |sa| == |a| && |sb| == |b| && NoStrayUse(a, sa) && NoStrayUse(b, sb)
    ensures NoStrayUse(a + b, sa + sb)
  {
    forall i | 0 <= i < |a + b| ensures NoStrayUseAt(a + b, sa + sb, i) {
      if i < |a| {
        assert NoStrayUseAt(a, sa, i);
      } else {
        assert NoStrayUseAt(b, sb, i - |a|);
      }
    }
  }

  lemma NoStraySuffix(ms: seq<Message>, stops: Stops, from: nat)
    requires |stops| == |ms| && from <= |ms| && NoStrayUse(ms, stops)
    ensures NoStrayUse(ms[from..], stops[from..])
  {
    forall i | 0 <= i < |ms[from..]| ensures NoStrayUseAt(ms[from..], stops[from..], i) {
      assert NoStrayUseAt(ms, stops, from + i);
    }
  }

  lemma TurnNoStray(env: Environment, history: seq<Message>, stops: Stops, all: seq<Reply>, end: TurnEnd)
    requires |stops| == |history| && NoStrayUse(history, stops)
    requires TurnFollows(env, history, all, end) && OnlyToolStopsCall(Consumed(all, end))
    ensures var rs := if end.out.Ok? then all[..|end.sent|] else [];
            var after := Beside(env, end, stops, StopsOf(rs), if rs == [] then 0 else ToolStops(all, |rs| - 1));
            |after| == |end.history| && NoStrayUse(end.history, after)
  {
    hide Store;
    if end.out.Ok? {
      var n := |end.sent|;
      var s := ToolStops(all, n - 1);
      ClosedNoStray(end.out.value.newMessages, all[..n]);
      StoreNoStray(env.cleared, s, HistoryAt(env, history, s), HistoryAt(env, stops, s), end.out.value.newMessages,
                   StopsOf(all[..n]));
    }
  }

  lemma {:induction false} HistoryNoStray(events: seq<Event>)
    requires OnlyToolStopsCalled(events)
    ensures |StopsAfter(events)| == |HistoryAfter(events)| && NoStrayUse(HistoryAfter(events), StopsAfter(events))
  {
    hide NoStrayUse, Turn, Beside;
    if events == [] {
      NothingStrays();
    } else {
      var n := |events| - 1;
      forall i | 0 <= i < n ensures OnlyToolStopsCalledIn(events[..n], i) {
        assert events[..n][..i] == events[..i] && OnlyToolStopsCalledIn(events, i);
      }
      HistoryNoStray(events[..n]);
      if events[n].UserTurn? {
        var UserTurn(env, all, log, text) := events[n];
        var history := HistoryAfter(events[..n]);
        assert OnlyToolStopsCalledIn(events, n);
        TurnFollowsReplies(env, history, all, log, text);
        TurnNoStray(env, history, StopsAfter(events[..n]), all, Turn(env, history, all, log, text));
      } else {
        NothingStrays();
      }
    }
  }

  lemma NothingStrays()
    ensures NoStrayUse([], [])
  {}

  /** Whatever turns succeeded, failed or were cleared before: if clears miss the inserts, every request
      is in order; and if tool uses only ever came with tool-use stops, every one of them is answered. */
  lemma EveryRequestIsOrderedAndAnswered(events: seq<Event>, env: Environment, all: seq<Reply>, log: seq<ToolCall>,
                                         text: string)
    ensures var sent := Turn(env, HistoryAfter(events), all, log, text).sent;
            && AllLinked(sent)
            && (ClearsMissInserts(events) ==> AllOrdered(sent))
            && (&& OnlyToolStopsCalled(events)
                && OnlyToolStopsCall(Consumed(all, Turn(env, HistoryAfter(events), all, log, text)))
                ==> AllAnswered(sent))
  {
    hide Turn, HistoryAfter, StopsAfter, OnlyToolStopsCall, AllLinked, AllOrdered, AllAnswered, TurnDecided, Consumed;
    hide ClearsMissInserts, OnlyToolStopsCalled, OddCut;
    var history := HistoryAfter(events);
    var turn := Turn(env, history, all, log, text);
    EveryTurnDecided(events, env, all, log, text);
    if turn.sent == [] {
      NothingSent(turn.sent);
    } else {
      OddRowsComeFromCuts(events);
      if ClearsMissInserts(events) {
        NoOddCut(events);
      }
      if OnlyToolStopsCalled(events) {
        HistoryNoStray(events);
      }
      DecidedPromise(env, history, StopsAfter(events), all, turn);
    }
  }

  lemma NothingSent(sent: seq<seq<Message>>)
    requires sent == []
    ensures AllLinked(sent) && AllOrdered(sent) && AllAnswered(sent)
  {}

  lemma DecidedPromise(env: Environment, history: seq<Message>, stops: Stops, all: seq<Reply>, turn: TurnEnd)
    requires |stops| == |history| && 0 < |turn.sent| <= |all| + 1 && TurnDecided(env, history, stops, all, turn.sent)
    ensures AllLinked(turn.sent)
    ensures |history| % 2 == 0 ==> AllOrdered(turn.sent)
    ensures NoStrayUse(history, stops) && OnlyToolStopsCall(Consumed(all, turn)) ==> AllAnswered(turn.sent)
  {
    hide AllLinked, AllOrdered, AllAnswered, AllAcceptable, AllStartFresh;
    hide NoStrayUse, OnlyToolStopsCall, CutAtToolResults;
    var n := |turn.sent| - 1;
    var consumed := Consumed(all, turn);
    if NoStrayUse(history, stops) && OnlyToolStopsCall(consumed) {
      NoStraySuffix(history, stops, |history| - |Window(history)|);
      PrefixCalls(consumed, n);
      assert consumed[..n] == all[..n];
    }
  }

  lemma PrefixCalls(rs: seq<Reply>, n: nat)
    requires n <= |rs| && OnlyToolStopsCall(rs)
    ensures OnlyToolStopsCall(rs[..n])
  {
    forall k | 0 <= k < n ensures ToolStopOrNoCall(rs[..n][k]) {
      assert ToolStopOrNoCall(rs[k]);
    }
  }

  // ---------------------------------------------------------------- clears that cut a turn

  /** The turn after one that a clear cut before its i-th insert: its requests are in order if and only
      if i is even or more than a window of rows came after the cut, and they start fresh if and only
      if the rows left in the window do not open with tool results. */
  lemma CutDecidesNextTurn(events: seq<Event>, first: Event, env: Environment, all: seq<Reply>, log: seq<ToolCall>,
                           text: string)
    requires first.UserTurn?
    ensures var end := Turn(first.env, HistoryAfter(events), first.replies, first.log, first.text);
            var sent := Turn(env, end.history, all, log, text).sent;
            end.out.Ok? && sent != [] ==>
              var ms := end.out.value.newMessages;
              var cut := LastClear(first.env.cleared, Reloads(first.replies, end), |ms|);
              cut.Some? ==>
                && end.history == ms[cut.value..]
                && (AllOrdered(sent) <==> cut.value % 2 == 0 || |ms| - cut.value > HISTORY_WINDOW)
                && (AllStartFresh(sent) <==> !CutAtToolResults(ms[cut.value..]))
  {
    hide Turn, StopsAfter, TurnFollows, TurnDecided, AllOrdered, AllStartFresh, CutAtToolResults;
    var history := HistoryAfter(events);
    var end := Turn(first.env, history, first.replies, first.log, first.text);
    TurnFollowsReplies(first.env, history, first.replies, first.log, first.text);
    EveryTurnDecided(events + [first], env, all, log, text);
    assert (events + [first])[..|events|] == events;
    assert HistoryAfter(events + [first]) == end.history;
    hide HistoryAfter;
    var sent := Turn(env, end.history, all, log, text).sent;
    if end.out.Ok? && sent != [] {
      CutLeaves(first.env, history, first.replies, end);
      DecidedOrder(env, end.history, StopsAfter(events + [first]), all, sent);
    }
  }

  lemma CutLeaves(env: Environment, history: seq<Message>, all: seq<Reply>, end: TurnEnd)
    requires TurnFollows(env, history, all, end) && end.out.Ok?
    ensures var ms := end.out.value.newMessages;
            var cut := LastClear(env.cleared, Reloads(all, end), |ms|);
            cut.Some? ==>
              && end.history == ms[cut.value..]
              && (OddRows(end.history) <==> !(cut.value % 2 == 0 || |ms| - cut.value > HISTORY_WINDOW))
  {
    var s, ms := Reloads(all, end), end.out.value.newMessages;
    assert |ms| % 2 == 0;
    StoreKeeps(env.cleared, s, HistoryAt(env, history, s), ms);
    var cut := LastClear(env.cleared, s, |ms|);
    if cut.Some? {
      OddSuffix(ms, cut.value);
    }
    hide Store, RequestsAt, Closed, OddRows, LastClear;
  }

  lemma OddSuffix(ms: seq<Message>, i: nat)
    requires |ms| % 2 == 0 && i <= |ms|
    ensures OddRows(ms[i..]) <==> !(i % 2 == 0 || |ms| - i > HISTORY_WINDOW)
  {}

  lemma DecidedOrder(env: Environment, history: seq<Message>, stops: Stops, all: seq<Reply>, sent: seq<seq<Message>>)
    requires |stops| == |history| && 0 < |sent| <= |all| + 1 && TurnDecided(env, history, stops, all, sent)
    ensures AllOrdered(sent) <==> !OddRows(history)
    ensures AllStartFresh(sent) <==> !CutAtToolResults(history)
  {
    hide AllOrdered, AllStartFresh, AllAnswered, AllAcceptable, OddRows, CutAtToolResults;
  }

  // ---------------------------------------------------------------- the exceptions do occur

  const ANSWER: Reply := Reply(EndTurn, [TextBlock("done")])
  const ASK: Reply := Reply(ToolUseStop, [ToolUse("t1", "grep", JNull)])
  /** Ends the turn although it carries a tool use. */
  const STRAY: Reply := Reply(EndTurn, [ToolUse("t9", "grep", JNull)])

  function Answering(): Message {
    Message(Assistant, ANSWER.content)
  }

  ghost predicate Ready(env: Environment) {
    env.setup.None? && env.budget.iterations > 0
  }

  lemma OneReplyTurn(env: Environment, history: seq<Message>, r: Reply, log: seq<ToolCall>, text: string)
    requires Ready(env) && r.Reply? && r.stop.EndTurn?
    ensures var end := Turn(env, history, [r], log, text);
            && end.history == Store(env.cleared, 0, history, [UserText(text), Message(Assistant, r.content)])
            && end.sent == [Window(history) + [UserText(text)]]
  {
    var st := Started([r], log, [], Window(history), UserText(text));
    var seg := FirstSegment(env, history, [r], log, text);
    assert Round(env.budget, None, st, 0).Stop?;
    assert [] + seg.out.value.newMessages == [UserText(text), Message(Assistant, r.content)];
  }

  lemma ToolTurn(env: Environment, log: seq<ToolCall>, text: string)
    requires Ready(env)
    ensures var end := Turn(env, [], [ASK, ANSWER], log, text);
            && end.out.Ok? && |end.out.value.newMessages| == 4 && ResultIds(end.out.value.newMessages[2]) == ["t1"]
            && end.history == Store(env.cleared, 1, [], end.out.value.newMessages)
  {
    var m, a := UserText(text), Message(Assistant, ASK.content);
    var ts := TurnState([], 0, 0);
    var call := ToolCall("t1", "grep", JNull);
    AskSegment(env, log, text);
    var seg := FirstSegment(env, [], [ASK, ANSWER], log, text);
    assert [] + [m, a] == [m, a];
    var r := ResolveCalls(env, Resolved(log, 0, []), [call]);
    ResultsAnswer(env, Resolved(log, 0, []), [call]);
    var u := ToolResultMessage(r.results);
    var ts' := Touch(env, ts.(prompts := r.prompts));
    var ctx := Window(ts'.history) + [m, a];
    AnswerSegment(env, Started([ANSWER], r.log, seg.st.sent, ctx, u), u);
    hide RunLoop, FirstSegment, ResolveCalls, Store;
    var (seg', ts'') := NextSegment(env, ts, [m, a], seg);
    assert AfterSegment(env, ts, [], seg) == AfterSegment(env, ts'', [m, a], seg');
    assert AfterSegment(env, ts'', [m, a], seg').out.value.newMessages == [m, a] + [u, Answering()];
  }

  lemma AskSegment(env: Environment, log: seq<ToolCall>, text: string)
    requires Ready(env)
    ensures var seg := FirstSegment(env, [], [ASK, ANSWER], log, text);
            && seg.out == Ok(RunResult([UserText(text), Message(Assistant, ASK.content)], None,
                                       [ToolCall("t1", "grep", JNull)]))
            && seg.st.log == log && seg.st.replies == [ANSWER]
  {
    assert ASK.content[1..] == [];
    assert CallsOf(ASK.content) == [ToolCall("t1", "grep", JNull)];
    var st := Started([ASK, ANSWER], log, [], Window([]), UserText(text));
    assert Round(env.budget, None, st, 0).Stop?;
    assert [UserText(text)] + [Message(Assistant, ASK.content)] == [UserText(text), Message(Assistant, ASK.content)];
  }

  lemma AnswerSegment(env: Environment, st: LoopState, u: Message)
    requires Ready(env) && st.replies == [ANSWER] && st.added == [u]
    ensures var seg := RunLoop(env.budget, None, st);
            seg.out.Ok? && seg.out.value.newMessages == [u, Answering()] && seg.out.value.pending == []
  {
    assert Round(env.budget, None, st, 0).Stop?;
  }

  /** One tool-using turn and then n plain ones. */
  function ToolTurnThenPlain(env: Environment, n: nat): seq<Event> {
    [UserTurn(env, [ASK, ANSWER], [], "search")] + seq(n, i => UserTurn(env, [ANSWER], [], "hello"))
  }

  lemma {:induction false} ToolTurnThenPlainHistory(env: Environment, n: nat)
    requires Ready(env) && forall k :: !env.cleared(k)
    ensures var h := HistoryAfter(ToolTurnThenPlain(env, n));
            |h| == 4 + 2 * n && ResultIds(h[2]) == ["t1"]
  {
    hide Turn, HistoryAfter, Store, BlockResultIds;
    if n == 0 {
      ToolTurn(env, [], "search");
      StoreKeeps(env.cleared, 1, [], Turn(env, [], [ASK, ANSWER], [], "search").out.value.newMessages);
      NoEvents();
      OneMoreTurn([], env, [ASK, ANSWER], "search");
      assert [] + [UserTurn(env, [ASK, ANSWER], [], "search")] == ToolTurnThenPlain(env, 0);
    } else {
      ToolTurnThenPlainHistory(env, n - 1);
      PlainTurnAdded(env, n);
      var before := HistoryAfter(ToolTurnThenPlain(env, n - 1));
      OneReplyTurn(env, before, ANSWER, [], "hello");
      StoreKeeps(env.cleared, 0, before, [UserText("hello"), Answering()]);
      OneMoreTurn(ToolTurnThenPlain(env, n - 1), env, [ANSWER], "hello");
    }
  }

  lemma NoEvents()
    ensures HistoryAfter([]) == []
  {}

  lemma OneMoreTurn(events: seq<Event>, env: Environment, all: seq<Reply>, text: string)
    ensures HistoryAfter(events + [UserTurn(env, all, [], text)]) ==
            Turn(env, HistoryAfter(events), all, [], text).history
  {
    hide Turn;
    assert (events + [UserTurn(env, all, [], text)])[..|events|] == events;
  }

  lemma PlainTurnAdded(env: Environment, n: nat)
    requires n > 0
    ensures ToolTurnThenPlain(env, n) == ToolTurnThenPlain(env, n - 1) + [UserTurn(env, [ANSWER], [], "hello")]
  {}

  /** Without any clear: after one tool turn and 24 plain turns the window opens with tool results
      whose tool use has been cut off. */
  lemma WindowCanCutToolUse(env: Environment)
    requires Ready(env) && forall k :: !env.cleared(k)
    ensures CutAtToolResults(HistoryAfter(ToolTurnThenPlain(env, 24)))
  {
    ToolTurnThenPlainHistory(env, 24);
    ResultsIff(HistoryAfter(ToolTurnThenPlain(env, 24))[2].content);
  }

  /** A clear between the two inserts of a plain turn: the next request starts with an assistant
      message. */
  lemma OddCutBreaksOrder(env: Environment, next: Environment, text: string)
    requires Ready(env) && Ready(next) && forall k :: env.cleared(k) <==> k == 1
    ensures var history := HistoryAfter([UserTurn(env, [ANSWER], [], "hello")]);
            history == [Answering()] && !AllOrdered(Turn(next, history, [ANSWER], [], text).sent)
  {
    hide Turn;
    var events := [UserTurn(env, [ANSWER], [], "hello")];
    assert events[..0] == [] && HistoryAfter([]) == [];
    OneReplyTurn(env, [], ANSWER, [], "hello");
    StoreKeeps(env.cleared, 0, [], [UserText("hello"), Answering()]);
    assert HistoryAfter(events) == [Answering()];
    OneReplyTurn(next, [Answering()], ANSWER, [], text);
    assert !Ordered(Turn(next, [Answering()], [ANSWER], [], text).sent[0]);
  }

  /** A clear between the tool use and the tool results of a turn: two rows are left, and the next
      request opens with the results. */
  lemma EvenCutLeavesResults(env: Environment, next: Environment, text: string)
    requires Ready(env) && Ready(next) && forall k :: env.cleared(k) <==> k == 3
    ensures var history := HistoryAfter([UserTurn(env, [ASK, ANSWER], [], "search")]);
            |history| == 2 && !AllStartFresh(Turn(next, history, [ANSWER], [], text).sent)
  {
    hide Turn;
    var events := [UserTurn(env, [ASK, ANSWER], [], "search")];
    assert events[..0] == [] && HistoryAfter([]) == [];
    ToolTurn(env, [], "search");
    var ms := Turn(env, [], [ASK, ANSWER], [], "search").out.value.newMessages;
    StoreKeeps(env.cleared, 1, [], ms);
    assert HistoryAfter(events) == ms[2..];
    OneReplyTurn(next, ms[2..], ANSWER, [], text);
    ResultsIff(ms[2].content);
    assert !StartsFresh(Turn(next, ms[2..], [ANSWER], [], text).sent[0]);
  }

  /** A tool use in a reply that ended its turn stays unanswered in the next turn's requests. */
  lemma StrayUseStaysUnanswered(env: Environment, next: Environment, text: string)
    requires Ready(env) && Ready(next) && forall k :: !env.cleared(k)
    ensures var history := HistoryAfter([UserTurn(env, [STRAY], [], "hello")]);
            !AllAnswered(Turn(next, history, [ANSWER], [], text).sent)
  {
    hide Turn;
    var events := [UserTurn(env, [STRAY], [], "hello")];
    var a := Message(Assistant, STRAY.content);
    assert events[..0] == [] && HistoryAfter([]) == [];
    OneReplyTurn(env, [], STRAY, [], "hello");
    StoreKeeps(env.cleared, 0, [], [UserText("hello"), a]);
    assert HistoryAfter(events) == [UserText("hello"), a];
    OneReplyTurn(next, [UserText("hello"), a], ANSWER, [], text);
    var request := Turn(next, [UserText("hello"), a], [ANSWER], [], text).sent[0];
    assert request == [UserText("hello"), a, UserText(text)];
    TextAnswersNothing(text);
    assert STRAY.content[0].ToolUse?;
    NoResultsNoAnswer(UserText(text), a);
    assert !AnsweredAt(request, 1);
  }
}
