// One run of the agent (src/wright/application/agent: runner.py, turns.py, parse.py)
// over its session (src/wright/domain/model/session).
//
// Everything outside the loop answers through Env: whether a foreign call raises,
// what the model replies, what the verifier and the stop hook say, when cancellation
// arrives. Each consultation has its own moment, so every pattern of answers is a run.
module AgentLoop {
  import opened Base

  type CallId(==, !new)
  type ToolName(==, !new)
  type Text(==, !new)

  // ---- The transcript

  datatype Message =
    | System
    | User
    | Assistant(text: Text, calls: seq<CallId>)
    | ToolReply(call: CallId)

  /** The messages begin with one reply for each call, in order. */
  ghost predicate Answers(t: seq<Message>, calls: seq<CallId>) {
    |calls| <= |t| && forall i :: 0 <= i < |calls| ==> t[i] == ToolReply(calls[i])
  }

  /**
    Every assistant message is followed by one reply per call, same ids, same order, and there are no other
    replies.
   */
  ghost predicate Paired(t: seq<Message>)
    decreases |t|
  {
    t == [] ||
    match t[0]
    case ToolReply(_) => false
    case Assistant(_, calls) => Answers(t[1..], calls) && Paired(t[1 + |calls|..])
    case _ => Paired(t[1..])
  }

  function CallIds(t: seq<Message>): seq<CallId>
    decreases t
  {
    if t == [] then [] else (if t[0].Assistant? then t[0].calls else []) + CallIds(t[1..])
  }

  function RepliesTo(calls: seq<CallId>): (t: seq<Message>)
    ensures |t| == |calls| && forall i :: 0 <= i < |calls| ==> t[i] == ToolReply(calls[i])
  {
    seq(|calls|, i requires 0 <= i < |calls| => ToolReply(calls[i]))
  }

  ghost predicate Distinct<T>(s: seq<T>) {
    forall i, j :: 0 <= i < j < |s| ==> s[i] != s[j]
  }

  lemma {:induction false} PairedAppend(a: seq<Message>, b: seq<Message>)
    requires Paired(a)
    ensures Paired(a + b) <==> Paired(b)
    decreases |a|
  {
    if a == [] {
      assert a + b == b;
    } else {
      var n := if a[0].Assistant? then 1 + |a[0].calls| else 1;
      assert (a + b)[n..] == a[n..] + b;
      assert a[0].Assistant? ==> forall i :: 0 <= i < n - 1 ==> (a + b)[1..][i] == a[1..][i];
      PairedAppend(a[n..], b);
    }
  }

  lemma {:induction false} CallIdsAppend(a: seq<Message>, b: seq<Message>)
    ensures CallIds(a + b) == CallIds(a) + CallIds(b)
    decreases a
  {
    if a == [] {
      assert a + b == b;
    } else {
      assert (a + b)[1..] == a[1..] + b;
      CallIdsAppend(a[1..], b);
    }
  }

  lemma {:induction false} RepliesHaveNoCalls(calls: seq<CallId>)
    ensures CallIds(RepliesTo(calls)) == []
    decreases calls
  {
    if calls != [] {
      assert RepliesTo(calls)[1..] == RepliesTo(calls[1..]);
      RepliesHaveNoCalls(calls[1..]);
    }
  }

  /** An assistant message with all its replies is a block of its own. */
  lemma ToolBlock(text: Text, calls: seq<CallId>)
    ensures Paired([Assistant(text, calls)] + RepliesTo(calls))
    ensures CallIds([Assistant(text, calls)] + RepliesTo(calls)) == calls
    ensures calls != [] ==> !Paired([Assistant(text, calls)])
  {
    var t := [Assistant(text, calls)] + RepliesTo(calls);
    assert t[1..] == RepliesTo(calls) && t[1 + |calls|..] == [];
    RepliesHaveNoCalls(calls);
  }

  /** An assistant message without calls, with or without feedback behind it. */
  lemma PlainBlock(text: Text)
    ensures Paired([Assistant(text, [])]) && CallIds([Assistant(text, [])]) == []
    ensures Paired([Assistant(text, []), User]) && CallIds([Assistant(text, []), User]) == []
  {
    var t := [Assistant(text, []), User];
    assert t[1..] == [User] && [User][1..] == [];
    assert CallIds(t) == [] + CallIds(t[1..]);
    assert CallIds([User]) == [] + CallIds([]);
  }

  // ---- The model's reply

  datatype Finish = NoReason | Stop | ToolCallsReason | FunctionCall | CancelledReason | Incomplete

  /** One entry of the reply's tool calls; an id or name that is missing or empty is None. */
  datatype Item = Item(isFunction: bool, id: Option<CallId>, name: Option<ToolName>, objectArguments: bool)
  datatype Call = Call(id: CallId, name: ToolName)
  datatype Response = Response(finish: Finish, text: Text, blank: bool, items: seq<Item>)
  datatype Parsed = Final | Calls(calls: seq<Call>) | Abort

  predicate Callable(item: Item) {
    item.isFunction && item.id.Some? && item.name.Some? && item.objectArguments
  }

  /** The replies that can be carried out. */
  ghost predicate Parses(r: Response) {
    && r.finish in {NoReason, Stop, ToolCallsReason, FunctionCall}
    && (forall i :: 0 <= i < |r.items| ==> Callable(r.items[i]))
    && (forall i, j :: 0 <= i < j < |r.items| ==> r.items[i].id != r.items[j].id)
    && (r.items == [] ==> r.finish in {NoReason, Stop} && !r.blank)
  }

  /** What makes a reply unusable: how it ended, a malformed call, an id used twice, or nothing to do. */
  lemma UnusableExactly(r: Response)
    ensures !Parses(r) <==>
      || r.finish == CancelledReason || r.finish == Incomplete
      || (exists i :: 0 <= i < |r.items| &&
            (!r.items[i].isFunction || r.items[i].id.None? || r.items[i].name.None? || !r.items[i].objectArguments))
      || (exists i, j :: 0 <= i < j < |r.items| && r.items[i].id == r.items[j].id)
      || (r.items == [] && (r.blank || r.finish == ToolCallsReason || r.finish == FunctionCall))
  {
    assert r.finish in {NoReason, Stop, ToolCallsReason, FunctionCall} || r.finish == CancelledReason
           || r.finish == Incomplete;
    if !forall i :: 0 <= i < |r.items| ==> Callable(r.items[i]) {
      var i :| 0 <= i < |r.items| && !Callable(r.items[i]);
      assert !r.items[i].isFunction || r.items[i].id.None? || r.items[i].name.None? || !r.items[i].objectArguments;
    }
  }

  method ParseTurn(r: Response) returns (p: Parsed)
    ensures p.Abort? <==> !Parses(r)
    ensures p.Final? <==> Parses(r) && r.items == []
    ensures p.Calls? ==>
      && |p.calls| == |r.items| && Distinct(Ids(p.calls))
      && forall i :: 0 <= i < |p.calls| ==>
        Some(p.calls[i].id) == r.items[i].id && Some(p.calls[i].name) == r.items[i].name
  {
    if r.finish !in {NoReason, Stop, ToolCallsReason, FunctionCall} {
      return Abort;
    }
    var calls: seq<Call>, ids: set<CallId> := [], {};
    for k := 0 to |r.items|
      invariant |calls| == k
      invariant forall i :: 0 <= i < k ==>
        Callable(r.items[i]) && calls[i] == Call(r.items[i].id.value, r.items[i].name.value)
      invariant ids == set i | 0 <= i < k :: calls[i].id
      invariant forall i, j :: 0 <= i < j < k ==> calls[i].id != calls[j].id
    {
      var item := r.items[k];
      if !item.isFunction {
        assert !Callable(r.items[k]);
        return Abort;
      }
      if item.id.None? {
        return Abort;
      }
      if item.id.value in ids {
        ghost var i :| 0 <= i < k && calls[i].id == item.id.value;
        assert r.items[i].id == r.items[k].id;
        return Abort;
      }
      if item.name.None? || !item.objectArguments {
        return Abort;
      }
      ids := ids + {item.id.value};
      calls := calls + [Call(item.id.value, item.name.value)];
    }
    if calls != [] {
      return Calls(calls);
    }
    if r.finish in {ToolCallsReason, FunctionCall} || r.blank {
      return Abort;
    }
    return Final;
  }

  function Ids(calls: seq<Call>): (ids: seq<CallId>)
    ensures |ids| == |calls| && forall i :: 0 <= i < |calls| ==> ids[i] == calls[i].id
  {
    seq(|calls|, i requires 0 <= i < |calls| => calls[i].id)
  }

  // ---- The session

  datatype Status = Running | OtherLive | Completed | Failed | Cancelled | Interrupted

  predicate Terminal(s: Status) {
    s in {Completed, Failed, Cancelled, Interrupted}
  }

  datatype Execution = Pending | Settled

  type Executions = map<CallId, Execution>

  function Marked(executions: Executions, calls: seq<CallId>, mark: Execution): Executions {
    map id | id in executions.Keys + (set c | c in calls) :: if id in calls then mark else executions[id]
  }

  /** Every call of the transcript is recorded, and no id is used twice. */
  ghost predicate Recorded(t: seq<Message>, executions: Executions) {
    Distinct(CallIds(t)) && forall id :: id in CallIds(t) ==> id in executions
  }

  class Session {
    var transcript: seq<Message>
    var executions: Executions
    var status: Status
    var committed: bool

    method AppendMessage(m: Message)
      modifies `transcript
      ensures transcript == old(transcript) + [m]
    {
      transcript := transcript + [m];
    }

    /** Raises, leaving the session as it was, when a call id is not new. */
    method RecordAssistantTurn(text: Text, calls: seq<CallId>) returns (ok: bool)
      modifies `transcript, `executions
      ensures ok <==> Distinct(calls) && forall id :: id in calls ==> id !in old(executions)
      ensures transcript == if ok then old(transcript) + [Assistant(text, calls)] else old(transcript)
      ensures executions == if ok then Marked(old(executions), calls, Pending) else old(executions)
    {
      for k := 0 to |calls|
        invariant forall i, j :: 0 <= i < j < k ==> calls[i] != calls[j]
        invariant forall i :: 0 <= i < k ==> calls[i] !in executions
      {
        if calls[k] in executions || calls[k] in calls[..k] {
          return false;
        }
      }
      AppendMessage(Assistant(text, calls));
      for k := 0 to |calls|
        invariant transcript == old(transcript) + [Assistant(text, calls)]
        invariant executions == Marked(old(executions), calls[..k], Pending)
      {
        executions := executions[calls[k] := Pending];
        assert calls[..k + 1] == calls[..k] + [calls[k]];
      }
      assert calls[..|calls|] == calls;
      return true;
    }

    method RecordToolExecution(id: CallId) returns (ok: bool)
      modifies `executions
      ensures ok <==> id in old(executions)
      ensures executions == if ok then old(executions)[id := Settled] else old(executions)
    {
      ok := id in executions;
      if ok {
        executions := executions[id := Settled];
      }
    }

    method Finish(s: Status)
      requires Terminal(s)
      modifies `status
      ensures status == if Terminal(old(status)) then old(status) else s
    {
      if !Terminal(status) {
        status := s;
      }
    }

    method MarkCompleted()
      modifies `status, `committed
      ensures committed && status == if Terminal(old(status)) then old(status) else Completed
    {
      committed := true;
      Finish(Completed);
    }

    /** A completion that the stop hook rejects was not one. */
    method Reopen()
      modifies `status, `committed
      ensures !committed && status == Running
    {
      status := Running;
      committed := false;
    }
  }

  // ---- The environment

  datatype Reply = Reply(response: Response) | OverBudget | Broke
  datatype Tools = Ran(outcomeUnknown: bool) | Crashed

  datatype Env = Env(
    cancelAt: Option<nat>,
    fails: nat -> bool,
    reply: nat -> Reply,
    names: nat -> set<ToolName>,
    approves: (nat, Text) -> bool,
    denies: (nat, Text) -> bool,
    tools: nat -> Tools)
  {
    /** Cancellation, once requested, stays requested. */
    predicate CancelledAt(now: nat) {
      cancelAt.Some? && cancelAt.value <= now
    }
  }

  // ---- What a run went through

  datatype Step = Invalid | Rejected | Denied | Accepted | Worked

  function InvalidStreak(steps: seq<Step>): nat {
    if steps == [] || steps[|steps| - 1] != Invalid then 0 else 1 + InvalidStreak(steps[..|steps| - 1])
  }

  /** Rejections since the last approval. */
  function RejectedStreak(steps: seq<Step>): nat {
    if steps == [] || steps[|steps| - 1] in {Denied, Accepted} then 0
    else (if steps[|steps| - 1] == Rejected then 1 else 0) + RejectedStreak(steps[..|steps| - 1])
  }

  function DeniedCount(steps: seq<Step>): nat {
    if steps == [] then 0
    else (if steps[|steps| - 1] == Denied then 1 else 0) + DeniedCount(steps[..|steps| - 1])
  }

  function AtLeastOne(limit: int): (n: nat)
    ensures n >= limit && n >= 1 && (n == limit || n == 1)
  {
    if limit < 1 then 1 else limit
  }

  /** At no moment were there more invalid turns in a row, rejections in a row or denials than allowed. */
  ghost predicate WithinBudgets(steps: seq<Step>, maxInvalid: int, maxVerification: int) {
    forall k :: 0 <= k <= |steps| ==>
      && InvalidStreak(steps[..k]) <= AtLeastOne(maxInvalid)
      && RejectedStreak(steps[..k]) <= AtLeastOne(maxVerification)
      && DeniedCount(steps[..k]) <= AtLeastOne(maxVerification)
  }

  lemma StepWithinBudgets(steps: seq<Step>, step: Step, maxInvalid: int, maxVerification: int)
    requires WithinBudgets(steps, maxInvalid, maxVerification)
    requires InvalidStreak(steps + [step]) <= AtLeastOne(maxInvalid)
    requires RejectedStreak(steps + [step]) <= AtLeastOne(maxVerification)
    requires DeniedCount(steps + [step]) <= AtLeastOne(maxVerification)
    ensures WithinBudgets(steps + [step], maxInvalid, maxVerification)
  {
    forall k | 0 <= k <= |steps| + 1
      ensures InvalidStreak((steps + [step])[..k]) <= AtLeastOne(maxInvalid)
      ensures RejectedStreak((steps + [step])[..k]) <= AtLeastOne(maxVerification)
      ensures DeniedCount((steps + [step])[..k]) <= AtLeastOne(maxVerification)
    {
      assert (steps + [step])[..k] == if k <= |steps| then steps[..k] else steps + [step];
    }
  }

  lemma OneStepEach(steps: seq<Step>)
    ensures forall a, b :: steps + [a] == steps + [b] <==> a == b
    ensures forall a :: steps + [a] != steps
  {
    forall a, b | steps + [a] == steps + [b] ensures a == b {
      assert (steps + [a])[|steps|] == a && (steps + [b])[|steps|] == b;
    }
    forall a ensures steps + [a] != steps {
      assert |steps + [a]| == |steps| + 1;
    }
  }

  lemma StepCounts(steps: seq<Step>, step: Step)
    ensures InvalidStreak(steps + [step]) == if step == Invalid then InvalidStreak(steps) + 1 else 0
    ensures RejectedStreak(steps + [step]) ==
            if step in {Denied, Accepted} then 0 else RejectedStreak(steps) + (if step == Rejected then 1 else 0)
    ensures DeniedCount(steps + [step]) == DeniedCount(steps) + (if step == Denied then 1 else 0)
  {
    assert (steps + [step])[..|steps|] == steps;
  }

  // ---- What the run leaves behind

  /** The session as the run found it. */
  datatype Start = Start(transcript: seq<Message>, executions: Executions, committed: bool)

  /** What this run has added is well formed, and it has left no call without a result. */
  ghost predicate Clean(b: Start, t: seq<Message>, executions: Executions) {
    && b.transcript <= t && Paired(t[|b.transcript|..])
    && Recorded(t, executions) && b.executions.Keys <= executions.Keys
    && forall id :: id in executions && executions[id] == Pending ==> id in b.executions
  }

  /** The run stopped between a request for tools, the last message, and their results. */
  ghost predicate Gap(b: Start, t: seq<Message>, executions: Executions) {
    && b.transcript <= t && !Paired(t[|b.transcript|..])
    && |b.transcript| < |t| && Paired(t[|b.transcript|..|t| - 1]) && t[|t| - 1].Assistant?
    && Recorded(t, executions) && b.executions.Keys <= executions.Keys
    && exists id :: id in executions && executions[id] == Pending && id !in b.executions
  }

  lemma CleanIsNoGap(b: Start, t: seq<Message>, executions: Executions)
    requires Clean(b, t, executions)
    ensures !Gap(b, t, executions)
  {
  }

  lemma PlainTurn(b: Start, t: seq<Message>, executions: Executions, block: seq<Message>)
    requires Clean(b, t, executions) && Paired(block) && CallIds(block) == []
    ensures Clean(b, t + block, executions)
  {
    var n := |b.transcript|;
    assert (t + block)[n..] == t[n..] + block;
    PairedAppend(t[n..], block);
    CallIdsAppend(t, block);
    assert CallIds(t) + [] == CallIds(t);
  }

  lemma PlainFinal(b: Start, t: seq<Message>, executions: Executions, text: Text)
    requires Clean(b, t, executions)
    ensures Clean(b, t + [Assistant(text, [])], executions)
    ensures Clean(b, t + [Assistant(text, [])] + [User], executions)
  {
    PlainBlock(text);
    PlainTurn(b, t, executions, [Assistant(text, [])]);
    PlainTurn(b, t, executions, [Assistant(text, []), User]);
    assert t + [Assistant(text, [])] + [User] == t + [Assistant(text, []), User];
  }

  lemma NothingToMark(executions: Executions)
    ensures Marked(executions, [], Pending) == executions
    ensures Distinct<CallId>([])
  {
  }

  /** Between a request for tools and the replies there is a gap ... */
  lemma NewCalls(b: Start, t: seq<Message>, executions: Executions, text: Text, calls: seq<CallId>)
    requires Clean(b, t, executions) && calls != [] && Distinct(calls)
    requires forall id :: id in calls ==> id !in executions
    ensures Gap(b, t + [Assistant(text, calls)], Marked(executions, calls, Pending))
  {
    NewSuffix(t, |b.transcript|, text, calls);
    NewIdsRecorded(CallIds(t), calls, executions);
    MarkedFacts(executions, calls, Pending);
    assert (t + [Assistant(text, calls)])[|b.transcript|..|t|] == t[|b.transcript|..];
    hide Paired, CallIds, RepliesTo, Distinct, Marked;
    assert calls[0] in calls && Marked(executions, calls, Pending)[calls[0]] == Pending;
  }

  /** ... which the replies close. */
  lemma CallsAnswered(b: Start, t: seq<Message>, executions: Executions, text: Text, calls: seq<CallId>)
    requires Clean(b, t, executions) && calls != [] && Distinct(calls)
    requires forall id :: id in calls ==> id !in executions
    ensures Clean(b, t + [Assistant(text, calls)] + RepliesTo(calls), Marked(Marked(executions, calls, Pending), calls, Settled))
  {
    var pending := Marked(executions, calls, Pending);
    var settled := Marked(pending, calls, Settled);
    var after := t + ([Assistant(text, calls)] + RepliesTo(calls));
    assert after == t + [Assistant(text, calls)] + RepliesTo(calls);
    assert Paired(after[|b.transcript|..]) && Recorded(after, settled) by {
      hide RepliesTo, Paired;
      NewSuffix(t, |b.transcript|, text, calls);
      NewIdsRecorded(CallIds(t), calls, executions);
    }
    assert forall id :: id in settled && settled[id] == Pending ==> id in b.executions;
    assert b.executions.Keys <= settled.Keys;
    hide Paired, Recorded, RepliesTo, Marked;
  }

  lemma MarkedFacts(executions: Executions, calls: seq<CallId>, mark: Execution)
    ensures forall id :: id in Marked(executions, calls, mark) <==> id in executions || id in calls
    ensures forall id :: id in Marked(executions, calls, mark) ==>
              Marked(executions, calls, mark)[id] == if id in calls then mark else executions[id]
  {
  }

  lemma NewSuffix(t: seq<Message>, n: nat, text: Text, calls: seq<CallId>)
    requires n <= |t| && Paired(t[n..]) && calls != []
    ensures
      var asked := [Assistant(text, calls)];
      var block := asked + RepliesTo(calls);
      && !Paired((t + asked)[n..]) && Paired((t + block)[n..])
      && CallIds(t + asked) == CallIds(t + block) == CallIds(t) + calls
  {
    var asked := [Assistant(text, calls)];
    var block := asked + RepliesTo(calls);
    ToolBlock(text, calls);
    assert CallIds(asked) == calls + CallIds([]) == calls by { assert asked[1..] == []; }
    hide Paired, CallIds, RepliesTo;
    Suffixed(t, n, asked);
    Suffixed(t, n, block);
  }

  lemma Suffixed(t: seq<Message>, n: nat, more: seq<Message>)
    requires n <= |t| && Paired(t[n..])
    ensures Paired((t + more)[n..]) <==> Paired(more)
    ensures CallIds(t + more) == CallIds(t) + CallIds(more)
  {
    hide Paired, CallIds;
    assert (t + more)[n..] == t[n..] + more;
    PairedAppend(t[n..], more);
    CallIdsAppend(t, more);
  }

  lemma NewIdsRecorded(ids: seq<CallId>, calls: seq<CallId>, executions: Executions)
    requires Distinct(ids) && Distinct(calls)
    requires forall id :: id in ids ==> id in executions
    requires forall id :: id in calls ==> id !in executions
    ensures Distinct(ids + calls)
    ensures forall id :: id in ids + calls ==> id in Marked(executions, calls, Pending)
  {
    forall i, j | 0 <= i < j < |ids + calls| ensures (ids + calls)[i] != (ids + calls)[j] {
      if i < |ids| <= j {
        assert ids[i] in ids && calls[j - |ids|] in calls;
      }
    }
  }

  // ---- The agent

  class RetryCounters {
    var invalid: int
    var verifier: int
    var hook: int

    constructor ()
      ensures invalid == 0 && verifier == 0 && hook == 0
    {
      invalid, verifier, hook := 0, 0, 0;
    }
  }

  /** One model request: when it was made, what it carried, and the call ids in use by then. */
  datatype Request = Request(at: nat, transcript: seq<Message>, known: set<CallId>)

  datatype FinalOutcome = Done | Retry | Terminated | WasCancelled

  class Agent {
    const session: Session
    const env: Env
    const hasVerifier: bool
    const maxVerificationRetries: int
    const maxConsecutiveInvalid: int
    var now: nat
    ghost var requests: seq<Request>
    ghost var steps: seq<Step>

    constructor (session: Session, env: Env, hasVerifier: bool, maxVerificationRetries: int, maxConsecutiveInvalid: int)
      ensures this.session == session && this.env == env && this.hasVerifier == hasVerifier
      ensures this.maxVerificationRetries == maxVerificationRetries
              && this.maxConsecutiveInvalid == maxConsecutiveInvalid
      ensures now == 0 && requests == [] && steps == []
    {
      this.session, this.env, this.hasVerifier := session, env, hasVerifier;
      this.maxVerificationRetries, this.maxConsecutiveInvalid := maxVerificationRetries, maxConsecutiveInvalid;
      now, requests, steps := 0, [], [];
    }

    predicate IsCancelled() reads `now {
      env.CancelledAt(now)
    }

    /** What holds between turns of a run. */
    ghost predicate InRun(b: Start) reads this, session {
      && Clean(b, session.transcript, session.executions)
      && CommitOk(b)
      && WithinBudgets(steps, maxConsecutiveInvalid, maxVerificationRetries)
    }

    /** What holds after an exception. */
    ghost predicate Thrown(b: Start) reads this, session {
      && (Clean(b, session.transcript, session.executions) || Gap(b, session.transcript, session.executions))
      && CommitOk(b)
      && WithinBudgets(steps, maxConsecutiveInvalid, maxVerificationRetries)
    }

    /**
      The turn carries the commit marker when it is completed, and gains it in no other way; only cancellation
      makes it cancelled.
     */
    ghost predicate CommitOk(b: Start) reads `now, session {
      && (session.status == Cancelled ==> IsCancelled())
      && (session.status == Completed ==> session.committed)
      && (session.committed && !b.committed ==> session.status == Completed)
    }

    ghost predicate CountersMatch(c: RetryCounters) reads this, c {
      && c.verifier == RejectedStreak(steps) < AtLeastOne(maxVerificationRetries)
      && c.hook == DeniedCount(steps) < AtLeastOne(maxVerificationRetries)
      && (hasVerifier || c.verifier == 0)
    }

    /** The verifier, if there is one, approved the text and then the stop hook did not deny it. */
    ghost predicate Endorsed(text: Text, approvedAt: nat, stoppedAt: nat) {
      approvedAt <= stoppedAt && (hasVerifier ==> env.approves(approvedAt, text)) && !env.denies(stoppedAt, text)
    }

    /** Some call out of the loop raised in this stretch of time. */
    ghost predicate Faulty(from: nat, to: nat) {
      exists m :: from <= m < to && env.fails(m)
    }

    /** A stretch of time is faulty exactly when one of its two parts is. */
    lemma FaultyParts()
      ensures forall a, b, c :: a <= b <= c && Faulty(a, c) ==> Faulty(a, b) || Faulty(b, c)
      ensures forall a, b, c :: a <= b <= c && (Faulty(a, b) || Faulty(b, c)) ==> Faulty(a, c)
      ensures forall a :: !Faulty(a, a)
    {
    }

    /** At most one more step. */
    ghost predicate OneStepOn(before: seq<Step>, after: seq<Step>) {
      before <= after && |after| <= |before| + 1
    }

    /** A final turn that begins at this moment is accepted: nothing raises or cancels, and nobody objects. */
    ghost predicate Accepts(at: nat, text: Text) {
      !env.fails(at) && !env.CancelledAt(at + 1) && Concludes(at + 1, text)
    }

    /** The verifier, if there is one, approves, and then the answer is committed. */
    ghost predicate Concludes(at: nat, text: Text) {
      if hasVerifier then env.approves(at, text) && !env.fails(at) && Commits(at + 1, text) else Commits(at, text)
    }

    ghost predicate Commits(at: nat, text: Text) {
      !env.fails(at) && !env.denies(at + 1, text) && !env.fails(at + 1) && !env.fails(at + 2)
    }

    /** The last step used up the patience for its kind. */
    ghost predicate OutOfPatience() reads `steps {
      && steps != []
      && match steps[|steps| - 1]
         case Invalid => InvalidStreak(steps) >= maxConsecutiveInvalid
         case Rejected => RejectedStreak(steps) >= maxVerificationRetries
         case Denied => DeniedCount(steps) >= maxVerificationRetries
         case _ => false
    }

    /** Any call out of the loop; it may raise. */
    method Foreign() returns (ok: bool)
      modifies `now
      ensures now == old(now) + 1 && ok == !env.fails(old(now))
      ensures ok <==> !Faulty(old(now), now)
    {
      ok := !env.fails(now);
      now := now + 1;
    }

    method StopIfCancelled() returns (stopped: bool, ok: bool)
      modifies `now, session`status
      ensures stopped == old(IsCancelled()) && now >= old(now)
      ensures stopped ==>
        Terminal(session.status) && (session.status == old(session.status) || session.status == Cancelled)
      ensures Terminal(old(session.status)) || !stopped ==> session.status == old(session.status)
      ensures !stopped ==> ok && now == old(now)
      ensures stopped ==> now == old(now) + 1 && ok == !env.fails(old(now))
      ensures ok <==> !Faulty(old(now), now)
    {
      if !IsCancelled() {
        return false, true;
      }
      session.Finish(Cancelled);
      ok := Foreign();
      return true, ok;
    }

    method Terminate() returns (ok: bool)
      modifies `now, session`status
      ensures now >= old(now)
      ensures ok ==> Terminal(session.status)
      ensures session.status == old(session.status) || session.status == Failed
      ensures Terminal(old(session.status)) ==> session.status == old(session.status)
      ensures ok <==> !env.fails(old(now)) && !env.fails(old(now) + 1)
      ensures ok ==> now == old(now) + 2
      ensures ok <==> !Faulty(old(now), now)
    {
      ok := Foreign();
      if ok {
        session.Finish(Failed);
        ok := Foreign();
      }
    }

    method HandleFinalTurn(text: Text, c: RetryCounters, ghost b: Start) returns (end: FinalOutcome, ok: bool)
      requires InRun(b) && !Terminal(session.status)
      requires CountersMatch(c)
      modifies `now, `steps, session, c
      ensures InRun(b) && session.executions == old(session.executions)
      ensures ok && end == WasCancelled ==> steps == old(steps)
      ensures ok && end == Retry ==>
        !Terminal(session.status) && CountersMatch(c) && c.invalid == old(c.invalid) && InvalidStreak(steps) == 0
      ensures ok && end != Retry ==> Terminal(session.status)
      ensures ok && end in {Retry, Terminated} ==>
        && session.transcript == old(session.transcript) + [Assistant(text, [])] + [User]
        && (steps == old(steps) + [Rejected] || steps == old(steps) + [Denied])
      ensures ok && end == Terminated ==> c.verifier >= maxVerificationRetries || c.hook >= maxVerificationRetries
      ensures ok && end == WasCancelled ==>
        IsCancelled() && session.transcript == old(session.transcript) + [Assistant(text, [])]
      ensures ok && end == Done ==>
        && steps == old(steps) + [Accepted]
        && session.status == Completed
        && session.transcript == old(session.transcript) + [Assistant(text, [])]
        && exists v, h :: old(now) <= v <= h < now && Endorsed(text, v, h)
      ensures now >= old(now) && (ok <==> !Faulty(old(now), now))
      ensures ok ==> now == old(now) + if end == WasCancelled then 2 else 1 + ConcludeTime(end, old(steps), steps)
      ensures steps == old(steps) || steps == old(steps) + [Rejected] || steps == old(steps) + [Denied]
              || steps == old(steps) + [Accepted]
      ensures ok && end == Done <==> Accepts(old(now), text)
      ensures steps == old(steps) + [Accepted] <==> Accepts(old(now), text)
      ensures ok && end == Terminated ==> OutOfPatience()
      ensures ok && session.status == Completed ==> end == Done
    {
      OneStepEach(steps);
      FaultyParts();
      hide Faulty, Concludes, OutOfPatience, ConcludeTime;
      hide Clean, WithinBudgets, InvalidStreak, RejectedStreak, DeniedCount, Marked, Distinct;
      PlainFinal(b, session.transcript, session.executions, text);
      NothingToMark(session.executions);
      ok := session.RecordAssistantTurn(text, []);
      ok := Foreign();
      if !ok {
        return Terminated, false;
      }
      var stopped;
      stopped, ok := StopIfCancelled();
      if stopped || !ok {
        return WasCancelled, ok;
      }
      end, ok := Conclude(text, c, b);
    }

    /** An answer that nobody cancelled is put to the verifier and then completed. */
    method Conclude(text: Text, c: RetryCounters, ghost b: Start) returns (end: FinalOutcome, ok: bool)
      requires InRun(b) && Clean(b, session.transcript + [User], session.executions) && !Terminal(session.status)
      requires CountersMatch(c)
      modifies `now, `steps, session`transcript, session`status, session`committed, c
      ensures InRun(b) && now >= old(now) && (ok ==> end != WasCancelled)
      ensures ok && end == Retry ==>
        !Terminal(session.status) && CountersMatch(c) && c.invalid == old(c.invalid) && InvalidStreak(steps) == 0
      ensures ok && end != Retry ==> Terminal(session.status)
      ensures ok && end != Done ==>
        && session.transcript == old(session.transcript) + [User]
        && (steps == old(steps) + [Rejected] || steps == old(steps) + [Denied])
      ensures ok && end == Terminated ==>
        OutOfPatience() && (c.verifier >= maxVerificationRetries || c.hook >= maxVerificationRetries)
      ensures ok && end == Done ==>
        && session.status == Completed && session.transcript == old(session.transcript)
        && exists v, h :: old(now) <= v <= h < now && Endorsed(text, v, h)
      ensures ok <==> !Faulty(old(now), now)
      ensures ok ==> now == old(now) + ConcludeTime(end, old(steps), steps)
      ensures steps == old(steps) || steps == old(steps) + [Rejected] || steps == old(steps) + [Denied]
              || steps == old(steps) + [Accepted]
      ensures ok && end == Done <==> Concludes(old(now), text)
      ensures steps == old(steps) + [Accepted] <==> Concludes(old(now), text)
      ensures ok && session.status == Completed ==> end == Done
    {
      OneStepEach(steps);
      FaultyParts();
      hide Clean, WithinBudgets, InvalidStreak, RejectedStreak, DeniedCount, Faulty, Commits, OutOfPatience;
      ghost var approvedAt := now;
      end, ok := Verify(text, c, b);
      if end != Done || !ok {
        return;
      }
      ghost var stoppedAt;
      end, ok, stoppedAt := Complete(text, c, b);
      assert ok && end == Done ==> Endorsed(text, approvedAt, stoppedAt);
    }

    /** The calls out of the loop that a verdict takes when none of them raises. */
    function ConcludeTime(end: FinalOutcome, before: seq<Step>, after: seq<Step>): nat {
      var asked := if hasVerifier then 1 else 0;
      var feedback := if end == Retry then 3 else 5;
      if end == Done then asked + 3 else if after == before + [Rejected] then feedback else asked + feedback
    }

    /** Done means the verifier has nothing against the answer. */
    method Verify(text: Text, c: RetryCounters, ghost b: Start) returns (end: FinalOutcome, ok: bool)
      requires InRun(b) && Clean(b, session.transcript + [User], session.executions) && !Terminal(session.status)
      requires CountersMatch(c)
      modifies `now, `steps, session`transcript, session`status, c
      ensures InRun(b) && c.invalid == old(c.invalid) && now >= old(now)
      ensures ok && end == Retry ==> !Terminal(session.status) && CountersMatch(c) && InvalidStreak(steps) == 0
      ensures ok && end !in {Done, Retry} ==> Terminal(session.status) && c.verifier >= maxVerificationRetries
      ensures ok && end != Done ==>
        && end in {Retry, Terminated} && hasVerifier && !env.approves(old(now), text)
        && session.transcript == old(session.transcript) + [User] && steps == old(steps) + [Rejected]
      ensures ok && end == Done ==>
        && c.verifier == 0 && c.hook == old(c.hook) && steps == old(steps)
                && session.transcript == old(session.transcript) && session.status == old(session.status)
        && (hasVerifier ==> env.approves(old(now), text))
      ensures ok && end == Done <==> (hasVerifier ==> env.approves(old(now), text) && !env.fails(old(now)))
      ensures ok && end == Done ==> now == old(now) + if hasVerifier then 1 else 0
      ensures steps == old(steps) || steps == old(steps) + [Rejected]
      ensures ok <==> !Faulty(old(now), now)
      ensures ok && end != Done ==> now == old(now) + if end == Retry then 3 else 5
      ensures ok && end == Terminated ==> OutOfPatience()
      ensures session.status != Completed
    {
      OneStepEach(steps);
      FaultyParts();
      hide Faulty;
      hide Clean, WithinBudgets, InvalidStreak, RejectedStreak, DeniedCount;
      if !hasVerifier {
        return Done, true;
      }
      var approved := env.approves(now, text);
      ok := Foreign();
      if !ok {
        return Terminated, false;
      }
      if approved {
        c.verifier := 0;
        return Done, true;
      }
      NoteStep(Rejected);
      c.verifier := c.verifier + 1;
      ok := Foreign();
      if !ok {
        return Terminated, false;
      }
      session.AppendMessage(User);
      ok := Foreign();
      if !ok {
        return Terminated, false;
      }
      if c.verifier >= maxVerificationRetries {
        ok := Terminate();
        return Terminated, ok;
      }
      return Retry, true;
    }
    ghost method NoteStep(step: Step)
      requires WithinBudgets(steps, maxConsecutiveInvalid, maxVerificationRetries)
      requires step == Invalid ==> InvalidStreak(steps) < AtLeastOne(maxConsecutiveInvalid)
      requires step == Rejected ==> RejectedStreak(steps) < AtLeastOne(maxVerificationRetries)
      requires step == Denied ==> DeniedCount(steps) < AtLeastOne(maxVerificationRetries)
      modifies `steps
      ensures steps == old(steps) + [step]
      ensures InvalidStreak(steps) == if step == Invalid then InvalidStreak(old(steps)) + 1 else 0
      ensures RejectedStreak(steps) ==
              if step in {Denied, Accepted} then 0 else RejectedStreak(old(steps)) + (if step == Rejected then 1 else 0)
      ensures DeniedCount(steps) == DeniedCount(old(steps)) + (if step == Denied then 1 else 0)
      ensures WithinBudgets(steps, maxConsecutiveInvalid, maxVerificationRetries)
    {
      StepCounts(steps, step);
      assert steps[..|steps|] == steps;
      StepWithinBudgets(steps, step, maxConsecutiveInvalid, maxVerificationRetries);
      steps := steps + [step];
    }

    /** The answer is committed before the stop hook is asked, and taken back if it is denied. */
    method Complete(text: Text, c: RetryCounters, ghost b: Start)
      returns (end: FinalOutcome, ok: bool, ghost stoppedAt: nat)
      requires InRun(b) && Clean(b, session.transcript + [User], session.executions) && !Terminal(session.status)
      requires c.verifier == 0 && c.hook == DeniedCount(steps) < AtLeastOne(maxVerificationRetries)
      modifies `now, `steps, session`transcript, session`status, session`committed, c
      ensures InRun(b) && c.invalid == old(c.invalid) && now >= old(now)
      ensures ok && end == Retry ==> !Terminal(session.status) && CountersMatch(c) && InvalidStreak(steps) == 0
      ensures ok && end != Retry ==> Terminal(session.status)
      ensures ok && end != Done ==>
        && end in {Retry, Terminated} && env.denies(stoppedAt, text)
        && session.transcript == old(session.transcript) + [User] && steps == old(steps) + [Denied]
      ensures ok && end == Terminated ==> c.hook >= maxVerificationRetries
      ensures ok && end == Done ==>
        && session.status == Completed && session.transcript == old(session.transcript)
                && steps == old(steps) + [Accepted]
        && old(now) <= stoppedAt < now && !env.denies(stoppedAt, text)
      ensures ok && end == Done <==> Commits(old(now), text)
      ensures steps == old(steps) + [Accepted] <==> Commits(old(now), text)
      ensures steps == old(steps) || steps == old(steps) + [Denied] || steps == old(steps) + [Accepted]
      ensures ok <==> !Faulty(old(now), now)
      ensures ok ==> now == old(now) + if end == Terminated then 5 else 3
      ensures ok && end == Terminated ==> OutOfPatience()
      ensures ok && session.status == Completed ==> end == Done
      ensures ok && end == Done ==> c.hook == 0
    {
      OneStepEach(steps);
      FaultyParts();
      hide Faulty;
      hide Clean, WithinBudgets, InvalidStreak, RejectedStreak, DeniedCount;
      session.MarkCompleted();
      stoppedAt := now;
      ok := Foreign();
      if !ok {
        return Terminated, false, stoppedAt;
      }
      stoppedAt := now;
      var denied := env.denies(now, text);
      ok := Foreign();
      if !ok {
        return Terminated, false, stoppedAt;
      }
      if !denied {
        c.hook := 0;
        ok := Foreign();
        if ok {
          NoteStep(Accepted);
        }
        return Done, ok, stoppedAt;
      }
      end, ok := Deny(c, b);
    }

    /** A denied completion is taken back, and the run goes on while there is patience. */
    method Deny(c: RetryCounters, ghost b: Start) returns (end: FinalOutcome, ok: bool)
      requires InRun(b) && Clean(b, session.transcript + [User], session.executions)
      requires c.verifier == 0 && c.hook == DeniedCount(steps) < AtLeastOne(maxVerificationRetries)
      modifies `now, `steps, session`transcript, session`status, session`committed, c
      ensures InRun(b) && c.invalid == old(c.invalid) && now >= old(now)
      ensures ok && end == Retry ==> !Terminal(session.status) && CountersMatch(c) && InvalidStreak(steps) == 0
      ensures ok && end != Retry ==> Terminal(session.status)
      ensures end in {Retry, Terminated} && steps == old(steps) + [Denied]
      ensures ok ==> session.transcript == old(session.transcript) + [User]
      ensures ok && end == Terminated ==> c.hook >= maxVerificationRetries && OutOfPatience()
      ensures ok <==> !Faulty(old(now), now)
      ensures ok ==> now == old(now) + if end == Terminated then 3 else 1
      ensures session.status != Completed
    {
      FaultyParts();
      hide Faulty;
      hide Clean, WithinBudgets, InvalidStreak, RejectedStreak, DeniedCount;
      NoteStep(Denied);
      c.hook := c.hook + 1;
      session.Reopen();
      session.AppendMessage(User);
      ok := Foreign();
      if !ok {
        return Terminated, false;
      }
      if c.hook >= maxVerificationRetries {
        ok := Terminate();
        return Terminated, ok;
      }
      return Retry, true;
    }

    /** The outcome of each call is recorded, and then its reply is appended. */
    method RecordResults(calls: seq<CallId>)
      requires forall id :: id in calls ==> id in session.executions
      modifies session`transcript, session`executions
      ensures session.executions == Marked(old(session.executions), calls, Settled)
      ensures session.transcript == old(session.transcript) + RepliesTo(calls)
    {
      for k := 0 to |calls|
        invariant session.transcript == old(session.transcript)
        invariant session.executions == Marked(old(session.executions), calls[..k], Settled)
      {
        assert calls[k] in calls;
        var ok := session.RecordToolExecution(calls[k]);
        assert calls[..k + 1] == calls[..k] + [calls[k]];
      }
      assert calls[..|calls|] == calls;
      for k := 0 to |calls|
        invariant session.executions == Marked(old(session.executions), calls, Settled)
        invariant session.transcript == old(session.transcript) + RepliesTo(calls)[..k]
      {
        session.AppendMessage(ToolReply(calls[k]));
        assert RepliesTo(calls)[..k + 1] == RepliesTo(calls)[..k] + [ToolReply(calls[k])];
      }
    }

    /** The calls have been recorded and wait for their results, which would complete the turn. */
    ghost predicate Waiting(calls: seq<CallId>, b: Start) reads this, session {
      && (forall id :: id in calls ==> id in session.executions)
      && Gap(b, session.transcript, session.executions)
      && Clean(b, session.transcript + RepliesTo(calls), Marked(session.executions, calls, Settled))
      && CommitOk(b)
      && WithinBudgets(steps, maxConsecutiveInvalid, maxVerificationRetries)
    }

    ghost predicate InGap(b: Start) reads this, session {
      Gap(b, session.transcript, session.executions)
    }

    /** Carrying out a request for tools from this moment on fails before the replies are recorded. */
    ghost predicate Interrupts(at: nat) {
      || env.fails(at)
      || if env.CancelledAt(at + 1) then env.fails(at + 1) else env.fails(at + 1) || env.tools(at + 2) == Crashed
    }

    /** Nothing raises while a request for tools is carried out from this moment on. */
    ghost predicate GoesWell(at: nat) {
      && !env.fails(at) && !env.fails(at + 1)
      && if env.CancelledAt(at + 1) then !env.fails(at + 2)
         else env.tools(at + 2).Ran? && !env.fails(at + 3)
              && (env.tools(at + 2).outcomeUnknown ==> !env.fails(at + 4) && !env.fails(at + 5))
    }

    /** False when the run is over: cancelled, or stopped because the outcome of a tool is unknown. */
    method HandleToolCallsTurn(text: Text, calls: seq<CallId>, c: RetryCounters, ghost b: Start)
      returns (go: bool, ok: bool)
      requires InRun(b) && !Terminal(session.status) && CountersMatch(c)
      requires calls != [] && Distinct(calls) && forall id :: id in calls ==> id !in session.executions
      modifies `now, `steps, session`transcript, session`executions, session`status
      ensures Thrown(b) && now >= old(now)
      ensures InGap(b) <==> Interrupts(old(now))
      ensures ok ==>
        InRun(b) && session.transcript == old(session.transcript) + [Assistant(text, calls)] + RepliesTo(calls)
      ensures ok ==> session.executions == Marked(Marked(old(session.executions), calls, Pending), calls, Settled)
      ensures ok ==> steps == old(steps) + [Worked] || (!go && steps == old(steps))
      ensures ok && go ==> !Terminal(session.status) && CountersMatch(c) && InvalidStreak(steps) == 0
      ensures ok && !go ==> Terminal(session.status)
      ensures steps == old(steps) || steps == old(steps) + [Worked]
      ensures ok <==> GoesWell(old(now))
      ensures ok ==> now == old(now) + if env.CancelledAt(old(now) + 1) then 3 else if go then 4 else 6
      ensures !ok ==> Faulty(old(now), now) || InGap(b)
      ensures ok && !go ==> IsCancelled() || env.tools(old(now) + 2) == Ran(true)
      ensures session.status != Completed
    {
      hide Clean, Gap, WithinBudgets, InvalidStreak, RejectedStreak, DeniedCount, Distinct, RepliesTo, Marked;
      NewCalls(b, session.transcript, session.executions, text, calls);
      CallsAnswered(b, session.transcript, session.executions, text, calls);
      MarkedFacts(session.executions, calls, Pending);
      ok := session.RecordAssistantTurn(text, calls);
      go, ok := CarryOut(calls, c, b);
    }

    /** A cancelled turn answers every call without running it. */
    method CarryOut(calls: seq<CallId>, c: RetryCounters, ghost b: Start) returns (go: bool, ok: bool)
      requires Waiting(calls, b) && !Terminal(session.status) && CountersMatch(c)
      modifies `now, `steps, session`transcript, session`executions, session`status
      ensures Thrown(b) && now >= old(now)
      ensures InGap(b) <==> Interrupts(old(now))
      ensures ok ==> InRun(b) && session.transcript == old(session.transcript) + RepliesTo(calls)
      ensures ok ==> session.executions == Marked(old(session.executions), calls, Settled)
      ensures ok ==> steps == old(steps) + [Worked] || (!go && steps == old(steps))
      ensures ok && go ==> !Terminal(session.status) && CountersMatch(c) && InvalidStreak(steps) == 0
      ensures ok && !go ==> Terminal(session.status)
      ensures steps == old(steps) || steps == old(steps) + [Worked]
      ensures ok <==> GoesWell(old(now))
      ensures ok ==> now == old(now) + if env.CancelledAt(old(now) + 1) then 3 else if go then 4 else 6
      ensures !ok ==> Faulty(old(now), now) || InGap(b)
      ensures ok && !go ==> IsCancelled() || env.tools(old(now) + 2) == Ran(true)
      ensures session.status != Completed
    {
      hide Clean, Gap, WithinBudgets, InvalidStreak, RejectedStreak, DeniedCount, RepliesTo, Marked;
      ok := Foreign();
      if !ok {
        return false, false;
      }
      var stopped;
      stopped, ok := StopIfCancelled();
      if !ok {
        return false, false;
      }
      if stopped {
        RecordResults(calls);
        CleanIsNoGap(b, session.transcript, session.executions);
        ok := Foreign();
        return false, ok;
      }
      go, ok := Dispatch(calls, c, b);
    }

    method Dispatch(calls: seq<CallId>, c: RetryCounters, ghost b: Start) returns (go: bool, ok: bool)
      requires Waiting(calls, b) && !Terminal(session.status) && CountersMatch(c)
      modifies `now, `steps, session`transcript, session`executions, session`status
      ensures Thrown(b) && now >= old(now)
      ensures ok ==> InRun(b) && session.transcript == old(session.transcript) + RepliesTo(calls)
      ensures ok ==> session.executions == Marked(old(session.executions), calls, Settled)
      ensures ok ==> steps == old(steps) + [Worked] && env.tools(old(now) + 1).Ran? && (go <==> !env.tools(old(now) + 1).outcomeUnknown)
      ensures ok && go ==> !Terminal(session.status) && CountersMatch(c) && InvalidStreak(steps) == 0
      ensures ok && !go ==> Terminal(session.status)
      ensures InGap(b) <==> env.fails(old(now)) || env.tools(old(now) + 1) == Crashed
      ensures steps == old(steps) || steps == old(steps) + [Worked]
      ensures ok <==>
        && !env.fails(old(now)) && env.tools(old(now) + 1).Ran? && !env.fails(old(now) + 2)
        && (env.tools(old(now) + 1).outcomeUnknown ==> !env.fails(old(now) + 3) && !env.fails(old(now) + 4))
      ensures ok ==> now == old(now) + if go then 3 else 5
      ensures !ok ==> Faulty(old(now), now) || InGap(b)
      ensures session.status != Completed
    {
      hide Clean, Gap, WithinBudgets, InvalidStreak, RejectedStreak, DeniedCount, RepliesTo, Marked;
      ok := Foreign();
      if !ok {
        return false, false;
      }
      var outcome := env.tools(now);
      now := now + 1;
      if outcome == Crashed {
        return false, false;
      }
      RecordResults(calls);
      CleanIsNoGap(b, session.transcript, session.executions);
      NoteStep(Worked);
      ok := Foreign();
      if !ok {
        return false, false;
      }
      if outcome.outcomeUnknown {
        ok := Terminate();
        return false, ok;
      }
      return true, true;
    }

    /** Returns retry, terminated or cancelled. */
    method HandleInvalidTurn(text: Text, c: RetryCounters, ghost b: Start) returns (end: FinalOutcome, ok: bool)
      requires InRun(b) && !Terminal(session.status)
      requires CountersMatch(c) && c.invalid == InvalidStreak(steps) < AtLeastOne(maxConsecutiveInvalid)
      modifies `now, `steps, session`transcript, session`executions, session`status, c
      ensures InRun(b) && now >= old(now) && end != Done
      ensures ok && end == Retry ==>
        !Terminal(session.status) && CountersMatch(c) && c.invalid == InvalidStreak(steps) < AtLeastOne(maxConsecutiveInvalid)
      ensures ok && end != Retry ==> Terminal(session.status)
      ensures ok ==> steps == old(steps) + [Invalid]
      ensures ok ==> session.transcript == old(session.transcript) + [Assistant(text, [])] + if end ==
        Retry then [User] else []
      ensures ok && end == Terminated ==> c.invalid >= maxConsecutiveInvalid && OutOfPatience()
      ensures ok && end == WasCancelled ==> IsCancelled()
      ensures steps == old(steps) + [Invalid] && (ok <==> !Faulty(old(now), now))
      ensures ok ==> now == old(now) + if end == Terminated then 3 else 2
      ensures session.status != Completed
    {
      FaultyParts();
      hide Faulty;
      hide Clean, WithinBudgets, InvalidStreak, RejectedStreak, DeniedCount, Marked, Distinct;
      PlainFinal(b, session.transcript, session.executions, text);
      NothingToMark(session.executions);
      c.invalid := c.invalid + 1;
      NoteStep(Invalid);
      ok := session.RecordAssistantTurn(text, []);
      ok := Foreign();
      if !ok {
        return Terminated, false;
      }
      var stopped;
      stopped, ok := StopIfCancelled();
      if stopped || !ok {
        return WasCancelled, ok;
      }
      if c.invalid >= maxConsecutiveInvalid {
        ok := Terminate();
        return Terminated, ok;
      }
      session.AppendMessage(User);
      ok := Foreign();
      return Retry, ok;
    }

    method RunTurn() returns (reply: Reply)
      modifies `now, `requests
      ensures now == old(now) + 1 && reply == env.reply(old(now))
      ensures requests == old(requests) + [Request(old(now), session.transcript, session.executions.Keys)]
    {
      requests := requests + [Request(now, session.transcript, session.executions.Keys)];
      reply := env.reply(now);
      now := now + 1;
    }

    /** Parsed calls may be carried out if their ids are new and their tools were offered. */
    method Admit(calls: seq<Call>, names: set<ToolName>) returns (ok: bool)
      ensures ok <==> (forall i :: 0 <= i < |calls| ==> calls[i].id !in session.executions && calls[i].name in names)
    {
      for k := 0 to |calls|
        invariant forall i :: 0 <= i < k ==> calls[i].id !in session.executions
      {
        if calls[k].id in session.executions {
          return false;
        }
      }
      for k := 0 to |calls|
        invariant forall i :: 0 <= i < k ==> calls[i].name in names
      {
        if calls[k].name !in names {
          return false;
        }
      }
      return true;
    }

    /** Every request was made before cancellation and carried a well-formed continuation of what the run began with. */
    ghost predicate RequestsOk(b: Start) reads `requests {
      forall i :: 0 <= i < |requests| ==>
        && !env.CancelledAt(requests[i].at)
        && b.transcript <= requests[i].transcript && Paired(requests[i].transcript[|b.transcript|..])
        && Distinct(CallIds(requests[i].transcript))
        && (i == 0 ==> requests[i].transcript == b.transcript && requests[i].known == b.executions.Keys)
    }

    /** The reply to the request asks for tools, and may be carried out. */
    ghost predicate AsksForTools(r: Request) {
      && env.reply(r.at).Reply?
      && var response := env.reply(r.at).response;
      && Parses(response) && response.items != []
      && forall i :: 0 <= i < |response.items| ==>
        response.items[i].id.value !in r.known && response.items[i].name.value in env.names(r.at)
    }

    /** The reply to the request is an answer, and it is accepted. */
    ghost predicate Answers(r: Request) {
      && env.reply(r.at).Reply?
      && var response := env.reply(r.at).response;
      && Parses(response) && response.items == [] && Accepts(r.at + 1, response.text)
    }

    /** The last reply had this text. */
    ghost predicate RepliedLast(text: Text) reads `requests {
      requests != [] && env.reply(requests[|requests| - 1].at).Reply?
      && env.reply(requests[|requests| - 1].at).response.text == text
    }

    ghost predicate HasAnswer() reads `requests {
      requests != [] && Answers(requests[|requests| - 1])
    }

    /** Why a run goes no further than this request, when nothing raises. */
    ghost predicate Ends(r: Request) reads `steps, `now {
      || Answers(r) || IsCancelled() || OutOfPatience()
      || env.reply(r.at) == OverBudget
      || (env.reply(r.at).Reply? && env.reply(r.at).response.finish == CancelledReason)
      || (AsksForTools(r) && env.tools(r.at + 3) == Ran(true))
    }

    /** Why a run ends before its last step. */
    ghost predicate EndsEarly(since: nat) reads `requests, `steps, `now {
      || IsCancelled() || Faulty(since, now) || Interrupted()
      || (requests != [] &&
          var r := requests[|requests| - 1];
          Ends(r) || env.reply(r.at) == Broke)
    }

    /** The last request asked for tools, and carrying that out was interrupted. */
    ghost predicate Interrupted() reads `requests {
      requests != [] && AsksForTools(requests[|requests| - 1]) && Interrupts(requests[|requests| - 1].at + 1)
    }

    /** The last reply claims to have been cancelled although nobody cancelled. */
    ghost predicate Stray() reads `requests {
      requests != [] && StrayAt(requests[|requests| - 1].at)
    }

    ghost predicate StrayAt(at: nat) {
      env.reply(at).Reply? && env.reply(at).response.finish == CancelledReason && !env.CancelledAt(at + 1)
    }

    /** The part of the session's history that a run relies on. */
    ghost predicate Ready(c: RetryCounters, b: Start) reads this, session, c {
      && InRun(b) && RequestsOk(b) && !Stray() && !Interrupted() && !HasAnswer()
      && (requests == [] ==> session.transcript == b.transcript && session.executions.Keys == b.executions.Keys)
      && !Terminal(session.status)
      && CountersMatch(c) && c.invalid == InvalidStreak(steps) < AtLeastOne(maxConsecutiveInvalid)
    }

    /** What an answer stands for: completed, approved, not denied, and the last thing the model said. */
    ghost predicate Answered(text: Text, since: nat) reads this, session {
      && session.status == Completed && session.committed
      && session.transcript != [] && session.transcript[|session.transcript| - 1] == Assistant(text, [])
      && exists v, h :: since <= v <= h < now && Endorsed(text, v, h)
    }

    /** One pass of the loop: go on, or return what the run returns. */
    method Step(c: RetryCounters, ghost b: Start) returns (go: bool, answer: Option<Text>, ok: bool)
      requires Ready(c, b)
      modifies `now, `steps, `requests, session, c
      ensures now >= old(now) && |requests| == |old(requests)| + if old(IsCancelled()) then 0 else 1
      ensures go ==> !old(IsCancelled())
      ensures Thrown(b) && RequestsOk(b)
      ensures InGap(b) <==> Interrupted()
      ensures ok ==> InRun(b)
      ensures ok && go ==> Ready(c, b) && answer.None?
      ensures ok && !go ==> (Terminal(session.status) <==> !Stray())
      ensures !ok ==> !Stray()
      ensures ok && answer.Some? ==> Answered(answer.value, old(now))
      ensures answer.Some? <==> HasAnswer()
      ensures answer.Some? ==> ok && RepliedLast(answer.value)
      ensures !go || !ok ==> EndsEarly(old(now))
      ensures session.status == Completed ==> answer.Some? || Faulty(old(now), now)
      ensures ok && session.status == Completed ==> answer.Some?
    {
      hide Clean, Gap, WithinBudgets, InvalidStreak, RejectedStreak, DeniedCount, Paired, CallIds, Distinct;
      answer := None;
      var stopped;
      CleanIsNoGap(b, session.transcript, session.executions);
      stopped, ok := StopIfCancelled();
      if stopped || !ok {
        return false, None, ok;
      }
      go, answer, ok := Ask(c, b);
    }

    /** One request, and what its reply leads to. */
    method Ask(c: RetryCounters, ghost b: Start) returns (go: bool, answer: Option<Text>, ok: bool)
      requires Ready(c, b) && !IsCancelled()
      modifies `now, `steps, `requests, session, c
      ensures now >= old(now) && |requests| == |old(requests)| + 1
      ensures Thrown(b) && RequestsOk(b)
      ensures InGap(b) <==> Interrupted()
      ensures ok ==> InRun(b)
      ensures ok && go ==> Ready(c, b) && answer.None?
      ensures ok && !go ==> (Terminal(session.status) <==> !Stray())
      ensures !ok ==> !Stray()
      ensures ok && answer.Some? ==> Answered(answer.value, old(now))
      ensures answer.Some? <==> HasAnswer()
      ensures answer.Some? ==> ok && RepliedLast(answer.value)
      ensures !go || !ok ==> EndsEarly(old(now))
      ensures session.status == Completed ==> answer.Some? || Faulty(old(now), now)
      ensures ok && session.status == Completed ==> answer.Some?
    {
      hide Clean, Gap, WithinBudgets, InvalidStreak, RejectedStreak, DeniedCount, Paired, CallIds, Distinct;
      answer := None;
      CleanRequest(b, session.transcript, session.executions);
      var reply := RunTurn();
      assert RequestsOk(b);
      assert Stray() <==> StrayAt(now - 1);
      assert Interrupted() <==> AsksForTools(requests[|requests| - 1]) && Interrupts(now);
      assert HasAnswer() <==> Answers(requests[|requests| - 1]);
      hide RequestsOk, Stray, Interrupted, HasAnswer;
      go, answer, ok := React(reply, requests[|requests| - 1], c, b);
    }

    /** What the reply to the last request leads to. */
    method React(reply: Reply, ghost r: Request, c: RetryCounters, ghost b: Start)
      returns (go: bool, answer: Option<Text>, ok: bool)
      requires InRun(b) && !Terminal(session.status) && now == r.at + 1 && reply == env.reply(r.at)
      requires r.known == session.executions.Keys
      requires CountersMatch(c) && c.invalid == InvalidStreak(steps) < AtLeastOne(maxConsecutiveInvalid)
      modifies `now, `steps, session, c
      ensures now >= old(now) && Thrown(b)
      ensures InGap(b) <==> AsksForTools(r) && Interrupts(old(now))
      ensures ok ==> InRun(b)
      ensures ok && go ==>
        && !Terminal(session.status) && answer.None? && !InGap(b) && !StrayAt(r.at)
        && CountersMatch(c) && c.invalid == InvalidStreak(steps) < AtLeastOne(maxConsecutiveInvalid)
      ensures ok && !go ==> (Terminal(session.status) <==> !StrayAt(r.at))
      ensures !ok ==> !StrayAt(r.at)
      ensures ok && answer.Some? ==> Answered(answer.value, old(now))
      ensures OneStepOn(old(steps), steps) && (steps == old(steps) + [Accepted] <==> answer.Some?)
      ensures answer.Some? <==> Answers(r)
      ensures answer.Some? ==> ok && answer.value == env.reply(r.at).response.text
      ensures !ok ==> Faulty(old(now), now) || InGap(b) || env.reply(r.at) == Broke
      ensures ok && !go ==> Ends(r)
      ensures ok <==> reply != Broke && if AsksForTools(r) then GoesWell(old(now)) else !Faulty(old(now), now)
      ensures session.status == Completed ==> answer.Some? || Faulty(old(now), now)
      ensures ok && session.status == Completed ==> answer.Some?
    {
      hide Clean, Gap, WithinBudgets, InvalidStreak, RejectedStreak, DeniedCount, Paired, CallIds, Distinct;
      hide GoesWell, Interrupts;
      answer := None;
      CleanIsNoGap(b, session.transcript, session.executions);
      if reply == OverBudget {
        ok := Terminate();
        return false, None, ok;
      }
      if reply == Broke {
        return false, None, false;
      }
      if reply.response.finish == CancelledReason {
        ok := KeepShown(reply.response, b);
        CleanIsNoGap(b, session.transcript, session.executions);
        return false, None, ok;
      }
      go, answer, ok := Route(reply.response, env.names(now - 1), c, b);
      if ok {
        CleanIsNoGap(b, session.transcript, session.executions);
      }
    }

    /** What was already shown of a cancelled reply is kept; then the run stops. */
    method KeepShown(r: Response, ghost b: Start) returns (ok: bool)
      requires InRun(b) && !Terminal(session.status)
      modifies `now, session`transcript, session`executions, session`status
      ensures InRun(b) && now >= old(now)
      ensures Terminal(session.status) <==> old(IsCancelled())
      ensures !ok <==> old(IsCancelled()) && env.fails(old(now))
      ensures now == old(now) + if old(IsCancelled()) then 1 else 0
      ensures session.transcript == old(session.transcript) + if r.blank then [] else [Assistant(r.text, [])]
      ensures session.status != Completed
    {
      hide Clean, WithinBudgets, Marked, Distinct;
      if !r.blank {
        PlainFinal(b, session.transcript, session.executions, r.text);
        NothingToMark(session.executions);
        ok := session.RecordAssistantTurn(r.text, []);
      }
      var stopped;
      stopped, ok := StopIfCancelled();
    }

    /** The calls of a reply use new ids and tools that were offered. */
    ghost predicate Offered(r: Response, names: set<ToolName>) reads this, session {
      forall i :: 0 <= i < |r.items| && r.items[i].id.Some? && r.items[i].name.Some? ==>
        r.items[i].id.value !in session.executions && r.items[i].name.value in names
    }

    /** The answer is returned if it is accepted. */
    method RouteFinal(text: Text, c: RetryCounters, ghost b: Start) returns (go: bool, answer: Option<Text>, ok: bool)
      requires InRun(b) && !Terminal(session.status) && CountersMatch(c) && c.invalid == 0
      modifies `now, `steps, session, c
      ensures now >= old(now) && InRun(b) && !InGap(b)
      ensures ok && go ==>
        && !Terminal(session.status) && answer.None?
        && CountersMatch(c) && c.invalid == InvalidStreak(steps) < AtLeastOne(maxConsecutiveInvalid)
      ensures ok && !go ==> Terminal(session.status) && (answer.Some? || IsCancelled() || OutOfPatience())
      ensures answer.Some? ==> ok && answer.value == text && Answered(text, old(now))
      ensures answer.Some? <==> Accepts(old(now), text)
      ensures steps == old(steps) + [Accepted] <==> answer.Some?
      ensures OneStepOn(old(steps), steps) && steps != old(steps) + [Invalid]
      ensures ok <==> !Faulty(old(now), now)
      ensures session.status == Completed ==> answer.Some? || Faulty(old(now), now)
      ensures ok && session.status == Completed ==> answer.Some?
    {
      OneStepEach(steps);
      hide Clean, Gap, WithinBudgets, InvalidStreak, RejectedStreak, DeniedCount, Faulty, Accepts, OutOfPatience;
      var end;
      end, ok := HandleFinalTurn(text, c, b);
      CleanIsNoGap(b, session.transcript, session.executions);
      return end == Retry, if ok && end == Done then Some(text) else None, ok;
    }

    /** A reply is final, asks for tools, or is invalid. */
    method Route(r: Response, names: set<ToolName>, c: RetryCounters, ghost b: Start)
      returns (go: bool, answer: Option<Text>, ok: bool)
      requires InRun(b) && !Terminal(session.status)
      requires CountersMatch(c) && c.invalid == InvalidStreak(steps) < AtLeastOne(maxConsecutiveInvalid)
      modifies `now, `steps, session, c
      ensures now >= old(now) && Thrown(b)
      ensures InGap(b) <==> Parses(r) && r.items != [] && old(Offered(r, names)) && Interrupts(old(now))
      ensures ok ==> InRun(b)
      ensures ok && go ==>
        && !Terminal(session.status) && answer.None?
        && CountersMatch(c) && c.invalid == InvalidStreak(steps) < AtLeastOne(maxConsecutiveInvalid)
      ensures ok && !go ==> Terminal(session.status)
      ensures ok && answer.Some? ==> answer.value == r.text && Answered(r.text, old(now))
      ensures steps == old(steps) + [Invalid] <==> !(Parses(r) && old(Offered(r, names)))
      ensures OneStepOn(old(steps), steps)
      ensures answer.Some? <==> Parses(r) && r.items == [] && Accepts(old(now), r.text)
      ensures steps == old(steps) + [Accepted] <==> answer.Some?
      ensures !ok ==> answer.None? && (Faulty(old(now), now) || InGap(b))
      ensures ok <==> if Parses(r) && r.items != [] && old(Offered(r, names)) then GoesWell(old(now)) else !Faulty(old(now), now)
      ensures ok && !go ==>
        || answer.Some? || IsCancelled() || OutOfPatience()
        || (Parses(r) && r.items != [] && old(Offered(r, names)) && env.tools(old(now) + 2) == Ran(true))
      ensures session.status == Completed ==> answer.Some? || Faulty(old(now), now)
      ensures ok && session.status == Completed ==> answer.Some?
    {
      OneStepEach(steps);
      hide Clean, Gap, WithinBudgets, InvalidStreak, RejectedStreak, DeniedCount;
      hide Faulty, GoesWell, Interrupts, Accepts, Commits, Answered, OutOfPatience;
      answer := None;
      var p, usable := Read(r, names);
      hide Parses, Offered;
      var end;
      if !usable {
        end, ok := HandleInvalidTurn(r.text, c, b);
        CleanIsNoGap(b, session.transcript, session.executions);
        return end == Retry, None, ok;
      }
      c.invalid := 0;
      if p.Final? {
        go, answer, ok := RouteFinal(r.text, c, b);
        return;
      }
      go, ok := HandleToolCallsTurn(r.text, Ids(p.calls), c, b);
    }

    /** Parse a reply, and see whether its calls may be carried out. */
    method Read(r: Response, names: set<ToolName>) returns (p: Parsed, usable: bool)
      ensures usable <==> Parses(r) && Offered(r, names)
      ensures Parses(r) && r.items == [] ==> usable
      ensures usable ==> !p.Abort? && (p.Final? <==> r.items == [])
      ensures usable && p.Calls? ==> p.calls != [] && Distinct(Ids(p.calls))
      ensures usable && p.Calls? ==> forall id :: id in Ids(p.calls) ==> id !in session.executions
    {
      p := ParseTurn(r);
      usable := Admit(if p.Calls? then p.calls else [], names);
      usable := usable && !p.Abort?;
    }

    /** What ends a run early counts from any earlier moment. */
    lemma EarlierStart(since: nat, later: nat)
      requires since <= later
      ensures EndsEarly(later) ==> EndsEarly(since)
    {
      hide Ends, Interrupts, AsksForTools;
    }

    method RunLoopImpl(maxSteps: int, ghost b: Start) returns (answer: Option<Text>, ok: bool)
      requires InRun(b) && !Terminal(session.status)
      requires requests == [] && steps == []
      requires session.transcript == b.transcript && session.executions == b.executions
      modifies `now, `steps, `requests, session
      ensures now >= old(now) && |requests| <= if maxSteps < 0 then 0 else maxSteps
      ensures maxSteps > 0 && !old(IsCancelled()) ==> requests != []
      ensures Thrown(b) && RequestsOk(b) && (InGap(b) <==> Interrupted())
      ensures ok ==> InRun(b) && (Terminal(session.status) <==> !Stray())
      ensures !ok ==> !Stray()
      ensures ok && answer.Some? ==> Answered(answer.value, old(now))
      ensures answer.Some? <==> HasAnswer()
      ensures answer.Some? ==> ok && RepliedLast(answer.value)
      ensures |requests| < maxSteps ==> EndsEarly(old(now))
      ensures !ok ==> EndsEarly(old(now)) || Faulty(old(now), now)
      ensures session.status == Completed ==> answer.Some? || Faulty(old(now), now)
      ensures ok && session.status == Completed ==> answer.Some?
    {
      var c := new RetryCounters();
      assert Ready(c, b);
      hide RepliedLast, HasAnswer;
      hide Clean, Gap, WithinBudgets, InvalidStreak, RejectedStreak, DeniedCount, Paired, CallIds, Distinct, Answers;
      hide EndsEarly, RequestsOk, Answered, Interrupts, AsksForTools, StrayAt;
      FaultyParts();
      hide Faulty, CommitOk, CountersMatch;
      var i := 0;
      while i < maxSteps
        invariant 0 <= i && (i <= maxSteps || i == 0)
        invariant now >= old(now) && Ready(c, b)
        invariant |requests| == i
        invariant (i == 0 && now == old(now)) || old(IsCancelled()) || requests != []
      {
        var go;
        ghost var begun := now;
        go, answer, ok := Step(c, b);
        if !go || !ok {
          EarlierStart(old(now), begun);
          return answer, ok;
        }
        i := i + 1;
      }
      CleanIsNoGap(b, session.transcript, session.executions);
      ok := Terminate();
      return None, ok;
    }

    /** An exception ends the run, not the session. */
    method FailRun() returns (ok: bool)
      modifies `now, session`status
      ensures Terminal(session.status) && now >= old(now)
      ensures session.status == if Terminal(old(session.status)) then old(session.status) else Failed
      ensures Terminal(old(session.status)) ==> now == old(now)
      ensures ok <==> Terminal(old(session.status)) || (!env.fails(old(now)) && !env.fails(old(now) + 1))
      ensures !ok ==> Faulty(old(now), now)
    {
      if Terminal(session.status) {
        return true;
      }
      session.Finish(Failed);
      ok := Foreign();
      if ok {
        ok := Foreign();
      }
    }

    method AfterException() returns (ok: bool)
      modifies `now, session`status
      ensures Terminal(session.status) && now >= old(now)
      ensures session.status == old(session.status) || session.status in {Cancelled, Failed}
      ensures Terminal(old(session.status)) ==> session.status == old(session.status)
      ensures !Terminal(old(session.status)) ==> session.status == if old(IsCancelled()) then Cancelled else Failed
      ensures ok <==>
        if old(IsCancelled()) then !env.fails(old(now))
        else Terminal(old(session.status)) || (!env.fails(old(now)) && !env.fails(old(now) + 1))
      ensures !ok ==> Faulty(old(now), now)
    {
      if IsCancelled() {
        var stopped;
        stopped, ok := StopIfCancelled();
      } else {
        ok := FailRun();
      }
    }

    lemma RequestsAreWhole(b: Start)
      requires RequestsOk(b) && Paired(b.transcript)
      ensures forall i :: 0 <= i < |requests| ==> Paired(requests[i].transcript)
    {
      hide Paired, Distinct, CallIds;
      forall i | 0 <= i < |requests| ensures Paired(requests[i].transcript) {
        Whole(b, requests[i].transcript);
      }
    }

    /** What the transcript and the requests of a run are worth, with the part from before it. */
    lemma AfterRun(b: Start)
      requires Thrown(b) && RequestsOk(b) && (InGap(b) <==> Interrupted())
      ensures Recorded(session.transcript, session.executions) && b.transcript <= session.transcript
      ensures Paired(session.transcript[|b.transcript|..]) <==> !Interrupted()
      ensures Interrupted() <==>
              exists id :: id in session.executions && session.executions[id] == Pending && id !in b.executions
      ensures Paired(b.transcript) ==> forall i :: 0 <= i < |requests| ==> Paired(requests[i].transcript)
      ensures Paired(b.transcript) ==> (Paired(session.transcript) <==> !Interrupted())
    {
      hide Clean, Gap, WithinBudgets, Paired, Recorded, Interrupted, RequestsOk;
      OnExit(b, session.transcript, session.executions);
      Whole(b, session.transcript);
      if Paired(b.transcript) {
        RequestsAreWhole(b);
      }
    }

    /** One run. ok is false when an exception leaves it, which only the clean-up code can cause. */
    method RunLoop(maxSteps: int) returns (answer: Option<Text>, ok: bool, ghost b: Start)
      requires !Terminal(session.status)
      requires Recorded(session.transcript, session.executions)
      modifies this, session
      ensures b == old(Start(session.transcript, session.executions, session.committed))
      ensures |requests| <= if maxSteps < 0 then 0 else maxSteps
      ensures maxSteps > 0 && !old(IsCancelled()) ==> requests != []
      ensures RequestsOk(b)
      ensures Recorded(session.transcript, session.executions) && b.transcript <= session.transcript
      ensures Clean(b, session.transcript, session.executions) || Gap(b, session.transcript, session.executions)
      ensures Paired(session.transcript[|b.transcript|..]) <==> !Interrupted()
      ensures Interrupted() <==>
              exists id :: id in session.executions && session.executions[id] == Pending && id !in b.executions
      ensures Paired(b.transcript) ==> forall i :: 0 <= i < |requests| ==> Paired(requests[i].transcript)
      ensures Paired(b.transcript) ==> (Paired(session.transcript) <==> !Interrupted())
      ensures Terminal(session.status) <==> !Stray()
      ensures CommitOk(b)
      ensures WithinBudgets(steps, maxConsecutiveInvalid, maxVerificationRetries)
      ensures answer.Some? ==> ok && Answered(answer.value, old(now))
      ensures answer.Some? <==> ok && HasAnswer()
      ensures answer.Some? ==> RepliedLast(answer.value)
      ensures |requests| < maxSteps ==> EndsEarly(old(now))
      ensures !ok ==> Faulty(old(now), now)
      ensures session.status == Completed ==> answer.Some? || Faulty(old(now), now)
      ensures now > old(now) && (ok ==> !env.fails(now - 1))
    {
      b := Start(session.transcript, session.executions, session.committed);
      requests, steps := [], [];
      hide RepliedLast, HasAnswer;
      hide Clean, Gap, WithinBudgets, Paired, Recorded, Stray, Interrupted, RequestsOk, Answered, EndsEarly;
      hide CommitOk, Faulty;
      StartsClean(b);
      answer, ok := Guarded(maxSteps, b);
      AfterRun(b);
    }

    /** An exception ends the run; the usage summary and the last checkpoint come in any case. */
    method Guarded(maxSteps: int, ghost b: Start) returns (answer: Option<Text>, ok: bool)
      requires InRun(b) && !Terminal(session.status)
      requires requests == [] && steps == []
      requires session.transcript == b.transcript && session.executions == b.executions
      modifies `now, `steps, `requests, session
      ensures now >= old(now) && |requests| <= if maxSteps < 0 then 0 else maxSteps
      ensures maxSteps > 0 && !old(IsCancelled()) ==> requests != []
      ensures Thrown(b) && RequestsOk(b) && (InGap(b) <==> Interrupted())
      ensures Terminal(session.status) <==> !Stray()
      ensures answer.Some? ==> ok && Answered(answer.value, old(now))
      ensures answer.Some? <==> ok && HasAnswer()
      ensures answer.Some? ==> RepliedLast(answer.value)
      ensures |requests| < maxSteps ==> EndsEarly(old(now))
      ensures !ok ==> Faulty(old(now), now)
      ensures session.status == Completed ==> answer.Some? || Faulty(old(now), now)
      ensures now > old(now) && (ok ==> !env.fails(now - 1))
    {
      hide RepliedLast, HasAnswer;
      hide Clean, Gap, WithinBudgets, Paired, Recorded, Interrupts, AsksForTools, Answers;
      answer, ok := RunLoopImpl(maxSteps, b);
      if !ok {
        answer := None;
        ok := AfterException();
      }
      var finished := Foreign();
      if !finished {
        return None, false;
      }
    }
  }

  lemma StartsClean(b: Start)
    requires Recorded(b.transcript, b.executions)
    ensures Clean(b, b.transcript, b.executions)
  {
    assert b.transcript[|b.transcript|..] == [];
  }

  lemma OnExit(b: Start, t: seq<Message>, executions: Executions)
    requires Clean(b, t, executions) || Gap(b, t, executions)
    ensures Recorded(t, executions) && b.transcript <= t
    ensures Paired(t[|b.transcript|..]) <==> !Gap(b, t, executions)
    ensures Gap(b, t, executions) <==>
            exists id :: id in executions && executions[id] == Pending && id !in b.executions
  {
  }

  /** Behind a well-formed start the whole is well formed if the new part is. */
  lemma Whole(b: Start, t: seq<Message>)
    requires b.transcript <= t
    ensures Paired(b.transcript) ==> (Paired(t) <==> Paired(t[|b.transcript|..]))
  {
    hide Paired;
    assert t == b.transcript + t[|b.transcript|..];
    if Paired(b.transcript) {
      PairedAppend(b.transcript, t[|b.transcript|..]);
    }
  }

  lemma CleanRequest(b: Start, t: seq<Message>, executions: Executions)
    requires Clean(b, t, executions)
    ensures b.transcript <= t && Paired(t[|b.transcript|..]) && Distinct(CallIds(t))
  {
  }

  /** A provider that reports a cancellation nobody asked for leaves the run live for good. */
  method StrayReplyLeavesTheRunLive(session: Session, text: Text)
    requires session.status == Running && Recorded(session.transcript, session.executions)
    modifies session
    ensures !Terminal(session.status)
  {
    var cancelled := Response(CancelledReason, text, false, []);
    var env := Env(None, _ => false, _ => Reply(cancelled), _ => {}, (_, _) => true, (_, _) => false, _ => Crashed);
    var agent := new Agent(session, env, true, 3, 3);
    var answer, ok, b := agent.RunLoop(10);
  }

  /** A dispatcher that raises leaves a request for a tool without its reply. */
  method CrashLeavesAGap(session: Session, text: Text, id: CallId, name: ToolName)
    requires session.status == Running && Recorded(session.transcript, session.executions)
    requires Paired(session.transcript) && id !in session.executions
    modifies session
    ensures Terminal(session.status)
    ensures old(session.transcript) <= session.transcript && !Paired(session.transcript)
  {
    var asked := Response(ToolCallsReason, text, false, [Item(true, Some(id), Some(name), true)]);
    var env := Env(None, _ => false, _ => Reply(asked), _ => {name}, (_, _) => true, (_, _) => false, _ => Crashed);
    var agent := new Agent(session, env, false, 3, 3);
    assert Parses(asked) && !agent.IsCancelled();
    hide Paired, Recorded, Clean, Gap, WithinBudgets, Distinct, CallIds, Parses;
    var answer, ok, b := agent.RunLoop(1);
    assert agent.AsksForTools(agent.requests[0]);
  }
}
