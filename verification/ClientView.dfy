/** What the client of a session hears of a turn, against what the turn does. */
module ClientView {
  import opened Prelude
  import opened Messages
  import opened ToolExecution
  import opened AgentLoop
  import opened Harness
  import TurnHarness
  import opened TurnOutcome

  /** What `part` picks from each message, in order. */
  function Collect<T>(told: seq<ServerMessage>, part: ServerMessage -> seq<T>): seq<T> {
    if told == [] then [] else part(told[0]) + Collect(told[1..], part)
  }

  lemma CollectCons<T>(m: ServerMessage, told: seq<ServerMessage>, part: ServerMessage -> seq<T>)
    ensures Collect([m] + told, part) == part(m) + Collect(told, part)
  {
    assert ([m] + told)[1..] == told;
  }

  lemma {:induction false} CollectConcat<T>(a: seq<ServerMessage>, b: seq<ServerMessage>, part: ServerMessage -> seq<T>)
    ensures Collect(a + b, part) == Collect(a, part) + Collect(b, part)
  {
    if a == [] {
      assert a + b == b;
    } else {
      CollectConcat(a[1..], b, part);
      CollectCons(a[0], a[1..], part);
      CollectCons(a[0], a[1..] + b, part);
      assert a == [a[0]] + a[1..] && a + b == [a[0]] + (a[1..] + b);
      hide Collect;
      Associate(part(a[0]), Collect(a[1..], part), Collect(b, part));
    }
  }

  lemma Associate<T>(a: seq<T>, b: seq<T>, c: seq<T>)
    ensures a + (b + c) == a + b + c
  {}

  function NoticeOf(m: ServerMessage): seq<(string, bool)> {
    if m.ToolExecuted? then [(m.name, m.success)] else []
  }

  function AskedIn(m: ServerMessage): seq<(ToolCall, string)> {
    if m.ConfirmationPrompt? then [(m.call, m.reason)] else []
  }

  function AnswerIn(m: ServerMessage): seq<Option<string>> {
    if m.AgentResponse? then [m.answer] else []
  }

  /** The execution notices: which tool ran, and whether it succeeded. */
  function Notices(told: seq<ServerMessage>): seq<(string, bool)> {
    Collect(told, NoticeOf)
  }

  /** The confirmation prompts: which calls they show, and why. */
  function Asked(told: seq<ServerMessage>): seq<(ToolCall, string)> {
    Collect(told, AskedIn)
  }

  function Answers(told: seq<ServerMessage>): seq<Option<string>> {
    Collect(told, AnswerIn)
  }

  /** The tool at entry n of the log, and whether it succeeded there. */
  function Ran(tools: Tools, log: seq<ToolCall>, n: nat): (string, bool)
    requires n < |log|
  {
    var outcome := tools.run(log[..n], log[n]);
    (log[n].name, outcome.Ran? && !outcome.isError)
  }

  /** The entries of the log from the n-th on. */
  function RanFrom(tools: Tools, log: seq<ToolCall>, n: nat): seq<(string, bool)>
    requires n <= |log|
  {
    seq(|log| - n, i requires 0 <= i < |log| - n => Ran(tools, log, n + i))
  }

  /** The calls that are not allowed outright, with the reason given for each. */
  function ToBeAsked(env: Environment, calls: seq<ToolCall>): seq<(ToolCall, string)> {
    if calls == [] then []
    else
      (if env.permission(calls[0]).Allow? then [] else [(calls[0], env.permission(calls[0]).reason)])
      + ToBeAsked(env, calls[1..])
  }

  lemma Concat(a: seq<ServerMessage>, b: seq<ServerMessage>)
    ensures Notices(a + b) == Notices(a) + Notices(b)
    ensures Asked(a + b) == Asked(a) + Asked(b)
    ensures Answers(a + b) == Answers(a) + Answers(b)
  {
    hide Collect;
    CollectConcat(a, b, NoticeOf);
    CollectConcat(a, b, AskedIn);
    CollectConcat(a, b, AnswerIn);
  }

  /** `told` reports on the way from `log` to `log'`: the calls executed, in order and with their outcome,
      and a prompt for each one counted. */
  ghost predicate Reports(tools: Tools, told: seq<ServerMessage>, log: seq<ToolCall>, prompts: int,
                          log': seq<ToolCall>, prompts': int) {
    && log <= log'
    && Notices(told) == RanFrom(tools, log', |log|)
    && |Asked(told)| == prompts' - prompts
  }

  lemma RanFromConcat(tools: Tools, a: seq<ToolCall>, b: seq<ToolCall>, c: seq<ToolCall>)
    requires a <= b <= c
    ensures RanFrom(tools, c, |a|) == RanFrom(tools, b, |a|) + RanFrom(tools, c, |b|)
  {
    forall n: nat | |a| <= n < |b| ensures Ran(tools, c, n) == Ran(tools, b, n) {
      assert c[..n] == b[..n];
    }
    hide Ran;
  }

  lemma ReportsCompose(tools: Tools, a: seq<ServerMessage>, b: seq<ServerMessage>, log: seq<ToolCall>, prompts: int,
                       log': seq<ToolCall>, prompts': int, log'': seq<ToolCall>, prompts'': int)
    requires Reports(tools, a, log, prompts, log', prompts') && Reports(tools, b, log', prompts', log'', prompts'')
    ensures Reports(tools, a + b, log, prompts, log'', prompts'')
  {
    Concat(a, b);
    RanFromConcat(tools, log, log', log'');
    hide Notices, Asked, RanFrom;
  }

  /** What the client hears of one call: a prompt that shows it and the reason, if it has to be asked
      about; and then, if it runs, which tool ran and whether it succeeded. */
  lemma ToldOfCall(env: Environment, r: Resolved, call: ToolCall)
    requires env.mode.Session?
    ensures var asks := !env.permission(call).Allow?;
            var outcome := env.tools.run(r.log, call);
            CallTold(env, r, call) ==
            (if asks then [ConfirmationPrompt(call, env.permission(call).reason)] else []) +
            (if asks ==> env.mode.answers(r.prompts)
             then [ToolExecuted(call.name, outcome.Ran? && !outcome.isError)] else [])
  {}

  lemma OneAsked(call: ToolCall, reason: string)
    ensures Notices([ConfirmationPrompt(call, reason)]) == []
    ensures Asked([ConfirmationPrompt(call, reason)]) == [(call, reason)]
    ensures Answers([ConfirmationPrompt(call, reason)]) == []
  {
    CollectedFromOne(ConfirmationPrompt(call, reason));
  }

  lemma CollectedFromOne(m: ServerMessage)
    ensures Notices([m]) == NoticeOf(m) && Asked([m]) == AskedIn(m) && Answers([m]) == AnswerIn(m)
  {
    assert [m] + [] == [m];
    CollectCons(m, [], NoticeOf);
    CollectCons(m, [], AskedIn);
    CollectCons(m, [], AnswerIn);
  }

  lemma OneNotice(name: string, success: bool)
    ensures Notices([ToolExecuted(name, success)]) == [(name, success)]
    ensures Asked([ToolExecuted(name, success)]) == []
    ensures Answers([ToolExecuted(name, success)]) == []
  {
    CollectedFromOne(ToolExecuted(name, success));
  }

  lemma CallCollected(env: Environment, r: Resolved, call: ToolCall)
    requires env.mode.Session?
    ensures var asks := !env.permission(call).Allow?;
            var outcome := env.tools.run(r.log, call);
            && Asked(CallTold(env, r, call)) == (if asks then [(call, env.permission(call).reason)] else [])
            && Notices(CallTold(env, r, call)) ==
               (if asks ==> env.mode.answers(r.prompts) then [(call.name, outcome.Ran? && !outcome.isError)] else [])
            && Answers(CallTold(env, r, call)) == []
  {
    var asks := !env.permission(call).Allow?;
    var outcome := env.tools.run(r.log, call);
    ToldOfCall(env, r, call);
    OneNotice(call.name, outcome.Ran? && !outcome.isError);
    Nothing();
    hide CallTold, Collect, Notices, Asked, Answers;
    if asks {
      OneAsked(call, env.permission(call).reason);
      Concat([ConfirmationPrompt(call, env.permission(call).reason)],
             if env.mode.answers(r.prompts) then [ToolExecuted(call.name, outcome.Ran? && !outcome.isError)] else []);
    } else {
      Concat([], [ToolExecuted(call.name, outcome.Ran? && !outcome.isError)]);
    }
  }

  lemma Nothing()
    ensures Notices([]) == [] && Asked([]) == [] && Answers([]) == []
  {}

  lemma CallReported(env: Environment, r: Resolved, call: ToolCall)
    requires env.mode.Session?
    ensures var r' := ResolveCall(env, r, call);
            Reports(env.tools, CallTold(env, r, call), r.log, r.prompts, r'.log, r'.prompts)
    ensures Answers(CallTold(env, r, call)) == []
    ensures Asked(CallTold(env, r, call)) == ToBeAsked(env, [call])
  {
    CallCollected(env, r, call);
    OneCallResolves(env, r, call);
    OneRan(env.tools, r.log, call);
    OneToBeAsked(env, call);
    assert RanFrom(env.tools, r.log, |r.log|) == [];
    hide CallTold, ResolveCall, Told, Notices, Asked, Answers, RanFrom, ToBeAsked;
  }

  lemma OneToBeAsked(env: Environment, call: ToolCall)
    ensures ToBeAsked(env, [call]) ==
            if env.permission(call).Allow? then [] else [(call, env.permission(call).reason)]
  {
    assert [call][1..] == [];
  }

  lemma OneRan(tools: Tools, log: seq<ToolCall>, call: ToolCall)
    ensures var outcome := tools.run(log, call);
            RanFrom(tools, log + [call], |log|) == [(call.name, outcome.Ran? && !outcome.isError)]
  {
    assert (log + [call])[..|log|] == log;
    assert RanFrom(tools, log + [call], |log|)[0] == Ran(tools, log + [call], |log|);
  }

  lemma {:induction false} ToBeAskedConcat(env: Environment, a: seq<ToolCall>, b: seq<ToolCall>)
    ensures ToBeAsked(env, a + b) == ToBeAsked(env, a) + ToBeAsked(env, b)
  {
    if a == [] {
      assert a + b == b;
    } else {
      ToBeAskedConcat(env, a[1..], b);
      ToBeAskedCons(env, a);
      ToBeAskedCons(env, a + b);
      assert (a + b)[1..] == a[1..] + b;
      hide ToBeAsked;
      OneToBeAsked(env, a[0]);
      Associate(ToBeAsked(env, [a[0]]), ToBeAsked(env, a[1..]), ToBeAsked(env, b));
    }
  }

  lemma ToBeAskedCons(env: Environment, calls: seq<ToolCall>)
    requires calls != []
    ensures ToBeAsked(env, calls) == ToBeAsked(env, [calls[0]]) + ToBeAsked(env, calls[1..])
  {
    OneToBeAsked(env, calls[0]);
  }

  lemma {:induction false} CallsReported(env: Environment, r: Resolved, calls: seq<ToolCall>)
    requires env.mode.Session?
    ensures var r' := ResolveCalls(env, r, calls);
            Reports(env.tools, CallsTold(env, r, calls), r.log, r.prompts, r'.log, r'.prompts)
    ensures Answers(CallsTold(env, r, calls)) == []
    ensures Asked(CallsTold(env, r, calls)) == ToBeAsked(env, calls)
    decreases |calls|
  {
    if calls != [] {
      var r1 := ResolveCall(env, r, calls[0]);
      CallReported(env, r, calls[0]);
      CallsReported(env, r1, calls[1..]);
      var r' := ResolveCalls(env, r1, calls[1..]);
      var a, b := CallTold(env, r, calls[0]), CallsTold(env, r1, calls[1..]);
      ToBeAskedConcat(env, [calls[0]], calls[1..]);
      assert [calls[0]] + calls[1..] == calls;
      hide Reports, CallTold, ResolveCall, ToBeAsked;
      ReportsCompose(env.tools, a, b, r.log, r.prompts, r1.log, r1.prompts, r'.log, r'.prompts);
      Concat(a, b);
    }
  }

  /** The next segment executes nothing beyond the pending calls. */
  lemma NextSegmentReported(env: Environment, ts: TurnState, total: seq<Message>, seg: LoopEnd)
    requires env.mode.Session? && seg.out.Ok?
    ensures var (seg', ts') := NextSegment(env, ts, total, seg);
            var told := CallsTold(env, Resolved(seg.st.log, ts.prompts, []), seg.out.value.pending);
            && Reports(env.tools, told, seg.st.log, ts.prompts, seg'.st.log, ts'.prompts)
            && Answers(told) == [] && Asked(told) == ToBeAsked(env, seg.out.value.pending)
  {
    CallsReported(env, Resolved(seg.st.log, ts.prompts, []), seg.out.value.pending);
    hide Reports, CallsTold, ResolveCalls, LoopFrom, Newest;
    var r := ResolveCalls(env, Resolved(seg.st.log, ts.prompts, []), seg.out.value.pending);
    var ts' := Touch(env, ts.(prompts := r.prompts));
    TurnHarness.SegmentKeepsLog(env.budget, Started(seg.st.replies, r.log, seg.st.sent, Window(ts'.history) + total,
                                                    ToolResultMessage(r.results)));
  }

  lemma {:induction false} AfterSegmentReported(env: Environment, ts: TurnState, before: seq<Message>, seg: LoopEnd)
    requires env.mode.Session?
    ensures var (told, end) := (AfterSegmentTold(env, ts, before, seg), AfterSegment(env, ts, before, seg));
            && Reports(env.tools, told, seg.st.log, ts.prompts, end.log, end.prompts)
            && Answers(told) == (if end.out.Ok? then [end.out.value.answer] else [])
    decreases |seg.st.replies|
  {
    NothingReported(env.tools, seg.st.log, ts.prompts);
    if seg.out.Ok? && seg.out.value.pending == [] {
      AnswerReported(env.tools, seg.out.value.answer, seg.st.log, ts.prompts);
    } else if seg.out.Ok? {
      var total := before + seg.out.value.newMessages;
      var (seg', ts') := NextSegment(env, ts, total, seg);
      var told := CallsTold(env, Resolved(seg.st.log, ts.prompts, []), seg.out.value.pending);
      NextSegmentReported(env, ts, total, seg);
      TurnHarness.SegmentShrinks(env, ts, total, seg);
      if seg'.out.Ok? {
        AfterSegmentReported(env, ts', total, seg');
        var later := AfterSegmentTold(env, ts', total, seg');
        var end := AfterSegment(env, ts', total, seg');
        hide Reports, CallsTold, NextSegment;
        ReportsCompose(env.tools, told, later, seg.st.log, ts.prompts, seg'.st.log, ts'.prompts, end.log, end.prompts);
        Concat(told, later);
      } else {
        assert told + [] == told;
      }
    }
  }

  lemma NothingReported(tools: Tools, log: seq<ToolCall>, prompts: int)
    ensures Reports(tools, [], log, prompts, log, prompts)
  {}

  lemma AnswerReported(tools: Tools, answer: Option<string>, log: seq<ToolCall>, prompts: int)
    ensures Reports(tools, [AgentResponse(answer)], log, prompts, log, prompts)
    ensures Answers([AgentResponse(answer)]) == [answer]
  {
    CollectedFromOne(AgentResponse(answer));
  }

  lemma BoundaryAsks(env: Environment, all: seq<Reply>, log0: seq<ToolCall>, ts: TurnState, total: seq<Message>,
                     seg: LoopEnd, j: nat)
    returns (j': nat)
    requires env.mode.Session? && env.budget.continuations < env.budget.iterations
    requires j <= |all| && EndedAt(env.budget, all, seg.st.log, seg, j) && !TurnHalts(env.budget, all, j)
    requires ResolvedBy(env, log0, all, j, seg.st.log, ts.prompts) && seg.out.Ok?
    ensures var (seg', ts') := NextSegment(env, ts, total, seg);
            && j < j' <= |all|
            && EndedAt(env.budget, all, seg'.st.log, seg', j')
            && ResolvedBy(env, log0, all, j', seg'.st.log, ts'.prompts)
            && ToBeAsked(env, ToolCallsIn(all, j')) ==
               ToBeAsked(env, ToolCallsIn(all, j)) +
               Asked(CallsTold(env, Resolved(seg.st.log, ts.prompts, []), seg.out.value.pending))
  {
    hide NextSegment, EndedAt, ResolvedBy, TurnHalts, CallsTold, ToolCallsIn, ToBeAsked, Asked, Reports;
    j' := NextSegmentEnds(env, all, log0, ts, total, seg, j);
    NextSegmentReported(env, ts, total, seg);
    ToBeAskedConcat(env, ToolCallsIn(all, j), seg.out.value.pending);
  }

  lemma {:induction false} AfterSegmentAsks(env: Environment, all: seq<Reply>, log0: seq<ToolCall>, ts: TurnState,
                                            before: seq<Message>, seg: LoopEnd, j: nat)
    requires env.mode.Session? && env.budget.continuations < env.budget.iterations
    requires j <= |all| && EndedAt(env.budget, all, seg.st.log, seg, j)
    requires ResolvedBy(env, log0, all, j, seg.st.log, ts.prompts)
    ensures var n := |AfterSegment(env, ts, before, seg).sent|;
            && 0 < n <= |all| + 1
            && ToBeAsked(env, ToolCallsIn(all, j)) + Asked(AfterSegmentTold(env, ts, before, seg)) ==
               ToBeAsked(env, ToolCallsIn(all, n - 1))
    decreases |all| - j
  {
    hide NextSegment, ResolvedBy, RunsThrough, Verdict, Store, ToBeAsked, ToolCallsIn, CallsTold;
    BoundaryIsPending(env.budget, all, seg.st.log, seg, j);
    if TurnHalts(env.budget, all, j) {
      if seg.out.Ok? {
        AnswerReported(env.tools, seg.out.value.answer, [], 0);
      }
    } else {
      var total := before + seg.out.value.newMessages;
      var j' := BoundaryAsks(env, all, log0, ts, total, seg, j);
      var (seg', ts') := NextSegment(env, ts, total, seg);
      var told := CallsTold(env, Resolved(seg.st.log, ts.prompts, []), seg.out.value.pending);
      if seg'.out.Ok? {
        AfterSegmentAsks(env, all, log0, ts', total, seg', j');
        Concat(told, AfterSegmentTold(env, ts', total, seg'));
      } else {
        assert told + [] == told;
      }
    }
  }

  /** In a session the client hears of every call the turn executes, in order and of no other, by the name
      of the tool and whether it succeeded; it is prompted for exactly the calls, of the replies before the
      last, that are not allowed, in order and with the reason; and it gets the answer if and only if the
      turn succeeds. */
  lemma ClientHearsTheTurn(env: Environment, history: seq<Message>, replies: seq<Reply>, log: seq<ToolCall>,
                           text: string)
    requires env.mode.Session?
    ensures var (told, end) := (TurnTold(env, history, replies, log, text), Turn(env, history, replies, log, text));
            && log <= end.log
            && Notices(told) == RanFrom(env.tools, end.log, |log|)
            && |Asked(told)| == end.prompts
            && Answers(told) == (if end.out.Ok? then [end.out.value.answer] else [])
            && (env.setup.None? && env.budget.continuations < env.budget.iterations ==>
                  && 0 < |end.sent| <= |replies| + 1
                  && Asked(told) == ToBeAsked(env, ToolCallsIn(replies, |end.sent| - 1)))
  {
    NothingReported(env.tools, log, 0);
    if env.setup.None? {
      TurnHarness.SegmentKeepsLog(env.budget, Started(replies, log, [], Window(history), UserText(text)));
      AfterSegmentReported(env, TurnState(history, 0, 0), [], FirstSegment(env, history, replies, log, text));
      if env.budget.continuations < env.budget.iterations {
        TurnAsks(env, history, replies, log, text);
      }
    }
    hide AfterSegment, AfterSegmentTold, LoopFrom, Notices, Asked, Answers, RanFrom, ToBeAsked;
  }

  lemma TurnAsks(env: Environment, history: seq<Message>, all: seq<Reply>, log: seq<ToolCall>, text: string)
    requires env.mode.Session? && env.setup.None? && env.budget.continuations < env.budget.iterations
    ensures var n := |Turn(env, history, all, log, text).sent|;
            && 0 < n <= |all| + 1
            && Asked(TurnTold(env, history, all, log, text)) == ToBeAsked(env, ToolCallsIn(all, n - 1))
  {
    var j := FirstSegmentEnds(env, history, all, log, text);
    NothingToBeAsked(env);
    hide ResolvedBy, ToolCallsIn, ToBeAsked, EndedAt, FirstSegment, AfterSegment, AfterSegmentTold, Asked;
    TurnIsAfterSegment(env, history, all, log, text);
    hide Turn, TurnTold;
    AfterSegmentAsks(env, all, log, TurnState(history, 0, 0), [], FirstSegment(env, history, all, log, text), j);
  }

  lemma TurnIsAfterSegment(env: Environment, history: seq<Message>, all: seq<Reply>, log: seq<ToolCall>, text: string)
    requires env.setup.None?
    ensures var seg := FirstSegment(env, history, all, log, text);
            && Turn(env, history, all, log, text) == AfterSegment(env, TurnState(history, 0, 0), [], seg)
            && TurnTold(env, history, all, log, text) == AfterSegmentTold(env, TurnState(history, 0, 0), [], seg)
  {
    hide AfterSegment, AfterSegmentTold, FirstSegment;
  }

  lemma NothingToBeAsked(env: Environment)
    ensures ToBeAsked(env, []) == []
  {}
}
