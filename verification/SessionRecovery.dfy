// Closing interrupted tool calls when a session is loaded
// (src/wright/infrastructure/persistence/session/recovery.py).
module SessionRecovery {
  import opened Base
  import opened AgentLoop

  // ---- What recovery makes of a transcript

  /** The number of tool replies at the beginning. */
  function ReplyRun(t: seq<Message>): (n: nat)
    ensures n <= |t| && (n < |t| ==> !t[n].ToolReply?)
    ensures forall i :: 0 <= i < n ==> t[i].ToolReply?
    decreases t
  {
    if t == [] || !t[0].ToolReply? then 0 else 1 + ReplyRun(t[1..])
  }

  /** The tool replies directly behind the first message. */
  function Run(t: seq<Message>): (run: seq<Message>)
    requires t != []
    ensures forall i :: 0 <= i < |run| ==> run[i].ToolReply?
  {
    t[1..][..ReplyRun(t[1..])]
  }

  /** What follows them. */
  function Rest(t: seq<Message>): (rest: seq<Message>)
    requires t != []
    ensures |rest| < |t| && (rest != [] ==> !rest[0].ToolReply?)
  {
    t[1..][ReplyRun(t[1..])..]
  }

  lemma TurnSplits(t: seq<Message>)
    requires t != []
    ensures t == [t[0]] + Run(t) + Rest(t) && t[1..] == Run(t) + Rest(t)
  {
  }

  function ReplyIds(t: seq<Message>): seq<CallId>
    decreases t
  {
    if t == [] then [] else (if t[0].ToolReply? then [t[0].call] else []) + ReplyIds(t[1..])
  }

  function Missing(calls: seq<CallId>, answered: set<CallId>): seq<CallId>
    decreases calls
  {
    if calls == [] then [] else (if calls[0] in answered then [] else [calls[0]]) + Missing(calls[1..], answered)
  }

  /** Behind the replies that an assistant message has, the missing ones are filled in. */
  function Filled(t: seq<Message>, answered: set<CallId>): seq<Message>
    decreases |t|
  {
    if t == [] then []
    else if t[0].Assistant? then [t[0]] + (Run(t) + RepliesTo(Missing(t[0].calls, answered))) + Filled(Rest(t), answered)
    else [t[0]] + Filled(t[1..], answered)
  }

  /** The transcript was well formed until, in some turns, the last replies were lost. */
  ghost predicate Interrupted(t: seq<Message>)
    decreases |t|
  {
    t == [] ||
    if t[0].Assistant? then Run(t) <= RepliesTo(t[0].calls) && Interrupted(Rest(t))
    else !t[0].ToolReply? && Interrupted(t[1..])
  }

  // ---- Runs of replies

  lemma {:induction false} RunOf(run: seq<Message>, rest: seq<Message>)
    requires forall i :: 0 <= i < |run| ==> run[i].ToolReply?
    requires rest != [] ==> !rest[0].ToolReply?
    ensures ReplyRun(run + rest) == |run|
    decreases run
  {
    if run == [] {
      assert run + rest == rest;
    } else {
      assert (run + rest)[1..] == run[1..] + rest;
      RunOf(run[1..], rest);
    }
  }

  /** A message, its run of replies and the rest are told apart again. */
  lemma TurnOf(first: Message, run: seq<Message>, rest: seq<Message>)
    requires forall i :: 0 <= i < |run| ==> run[i].ToolReply?
    requires rest != [] ==> !rest[0].ToolReply?
    ensures Run([first] + run + rest) == run && Rest([first] + run + rest) == rest
  {
    RunOf(run, rest);
    assert ([first] + run + rest)[1..] == run + rest;
  }

  lemma {:induction false} IdsBehindReplies(calls: seq<CallId>, rest: seq<Message>)
    ensures ReplyIds(RepliesTo(calls) + rest) == calls + ReplyIds(rest)
    ensures CallIds(RepliesTo(calls) + rest) == CallIds(rest)
    decreases calls
  {
    if calls == [] {
      assert RepliesTo(calls) + rest == rest;
    } else {
      assert (RepliesTo(calls) + rest)[1..] == RepliesTo(calls[1..]) + rest;
      IdsBehindReplies(calls[1..], rest);
      assert calls == [calls[0]] + calls[1..];
    }
  }

  lemma PrefixOfReplies(run: seq<Message>, calls: seq<CallId>)
    requires run <= RepliesTo(calls)
    ensures |run| <= |calls| && run == RepliesTo(calls[..|run|])
    ensures run + RepliesTo(calls[|run|..]) == RepliesTo(calls)
  {
  }

  lemma PairedRun(run: seq<Message>, rest: seq<Message>, calls: seq<CallId>)
    requires forall i :: 0 <= i < |run| ==> run[i].ToolReply?
    requires rest != [] ==> !rest[0].ToolReply?
    ensures (Answers(run + rest, calls) && Paired((run + rest)[|calls|..])) <==>
      (run == RepliesTo(calls) && Paired(rest))
  {
    var u, n := run + rest, |calls|;
    assert |run| < |u| ==> u[|run|] == rest[0];
    assert n < |run| ==> u[n..][0] == run[n];
    if Answers(u, calls) && Paired(u[n..]) {
      assert n == |run|;
      assert forall i :: 0 <= i < n ==> u[i] == run[i];
      assert u[n..] == rest;
    }
    if run == RepliesTo(calls) && Paired(rest) {
      assert forall i :: 0 <= i < n ==> u[i] == run[i];
      assert u[n..] == rest;
    }
  }

  /** In a well-formed transcript the first turn has all its replies, and no others. */
  lemma PairedTurn(first: Message, run: seq<Message>, rest: seq<Message>)
    requires first.Assistant? && forall i :: 0 <= i < |run| ==> run[i].ToolReply?
    requires rest != [] ==> !rest[0].ToolReply?
    ensures Paired([first] + run + rest) <==> run == RepliesTo(first.calls) && Paired(rest)
  {
    var t := [first] + run + rest;
    assert t[0] == first && t[1..] == run + rest;
    assert |first.calls| <= |run + rest| ==> t[1 + |first.calls|..] == (run + rest)[|first.calls|..];
    TurnUnfolds(t);
    hide Paired, RepliesTo;
    PairedRun(run, rest, first.calls);
  }

  lemma TurnUnfolds(t: seq<Message>)
    requires t != [] && t[0].Assistant?
    ensures Paired(t) <==> Answers(t[1..], t[0].calls) && Paired(t[1 + |t[0].calls|..])
  {
  }

  // ---- Recovery restores the protocol, exactly then

  lemma {:induction false} MissingSplit(done: seq<CallId>, open: seq<CallId>, answered: set<CallId>)
    requires forall id :: id in done ==> id in answered
    requires forall id :: id in open ==> id !in answered
    ensures Missing(done + open, answered) == open
    decreases |done| + |open|
  {
    if done != [] {
      assert (done + open)[1..] == done[1..] + open;
      MissingSplit(done[1..], open, answered);
    } else {
      assert done + open == open;
      if open != [] {
        MissingSplit([], open[1..], answered);
        assert [] + open[1..] == open[1..];
      }
    }
  }

  /** The ids of the first turn and of what follows it. */
  lemma FirstTurnIds(t: seq<Message>)
    requires t != [] && t[0].Assistant? && Run(t) <= RepliesTo(t[0].calls)
    ensures CallIds(t) == t[0].calls + CallIds(Rest(t))
    ensures ReplyIds(t) == t[0].calls[..|Run(t)|] + ReplyIds(Rest(t))
  {
    var run, rest, calls := Run(t), Rest(t), t[0].calls;
    PrefixOfReplies(run, calls);
    TurnSplits(t);
    hide Run, Rest, RepliesTo;
    IdsBehindReplies(calls[..|run|], rest);
  }

  lemma {:induction false} RepliesAreCalls(t: seq<Message>)
    requires Interrupted(t)
    ensures forall id :: id in ReplyIds(t) ==> id in CallIds(t)
    decreases |t|
  {
    if t != [] {
      if t[0].Assistant? {
        FirstTurnIds(t);
        RepliesAreCalls(Rest(t));
      } else {
        RepliesAreCalls(t[1..]);
      }
    }
  }

  /** The answered ids among these calls are exactly the ones that have a reply here. */
  ghost predicate AnsweredHere(t: seq<Message>, answered: set<CallId>) {
    forall id :: id in CallIds(t) ==> (id in answered <==> id in ReplyIds(t))
  }

  lemma FirstTurn(t: seq<Message>, answered: set<CallId>)
    requires t != [] && t[0].Assistant? && Interrupted(t) && Distinct(CallIds(t)) && AnsweredHere(t, answered)
    ensures Missing(t[0].calls, answered) == t[0].calls[|Run(t)|..]
    ensures Distinct(CallIds(Rest(t))) && AnsweredHere(Rest(t), answered)
  {
    FirstTurnIds(t);
    RepliesAreCalls(Rest(t));
    var n, calls, rest := |Run(t)|, t[0].calls, Rest(t);
    hide CallIds, ReplyIds, Interrupted, Missing, Run, Rest, Distinct;
    assert calls == calls[..n] + calls[n..];
    AnsweredParts(calls, n, CallIds(rest), ReplyIds(rest), answered);
    MissingSplit(calls[..n], calls[n..], answered);
  }

  /** Replies to the first n calls, and some to the rest: which ids are answered. */
  lemma AnsweredParts(calls: seq<CallId>, n: nat, restIds: seq<CallId>, restReplies: seq<CallId>, answered: set<CallId>)
    requires n <= |calls| && Distinct(calls + restIds)
    requires forall id :: id in calls + restIds ==> (id in answered <==> id in calls[..n] + restReplies)
    requires forall id :: id in restReplies ==> id in restIds
    ensures forall id :: id in calls[..n] ==> id in answered
    ensures forall id :: id in calls[n..] ==> id !in answered
    ensures forall id :: id in restIds ==> (id in answered <==> id in restReplies)
    ensures Distinct(restIds)
  {
    DistinctParts(calls, restIds, n);
    hide Distinct;
    assert forall id :: id in calls[..n] || id in calls[n..] ==> id in calls;
  }

  lemma DistinctParts(a: seq<CallId>, b: seq<CallId>, n: nat)
    requires n <= |a| && Distinct(a + b)
    ensures Distinct(a) && Distinct(b)
    ensures forall id :: id in b ==> id !in a
    ensures forall id :: id in a[n..] ==> id !in a[..n]
  {
    forall i, j | 0 <= i < |a| && 0 <= j < |b| ensures a[i] != b[j] {
      assert (a + b)[i] == a[i] && (a + b)[|a| + j] == b[j];
    }
    forall i, j | 0 <= i < j < |a| ensures a[i] != a[j] {
      assert (a + b)[i] == a[i] && (a + b)[j] == a[j];
    }
    forall i, j | 0 <= i < j < |b| ensures b[i] != b[j] {
      assert (a + b)[|a| + i] == b[i] && (a + b)[|a| + j] == b[j];
    }
  }

  /** Recovery restores an interrupted transcript, whichever turns lost replies. */
  lemma {:induction false} RecoveryRestores(t: seq<Message>, answered: set<CallId>)
    requires Interrupted(t) && Distinct(CallIds(t)) && AnsweredHere(t, answered)
    ensures Paired(Filled(t, answered)) && CallIds(Filled(t, answered)) == CallIds(t)
    decreases |t|
  {
    if t != [] {
      if t[0].Assistant? {
        FirstTurn(t, answered);
        RecoveryRestores(Rest(t), answered);
        RestoredTurn(t, answered);
      } else {
        assert CallIds(t) == CallIds(t[1..]) && ReplyIds(t) == ReplyIds(t[1..]);
        RecoveryRestores(t[1..], answered);
        assert ([t[0]] + Filled(t[1..], answered))[1..] == Filled(t[1..], answered);
      }
    }
  }

  lemma RestoredTurn(t: seq<Message>, answered: set<CallId>)
    requires t != [] && t[0].Assistant? && Run(t) <= RepliesTo(t[0].calls)
    requires Missing(t[0].calls, answered) == t[0].calls[|Run(t)|..]
    requires Paired(Filled(Rest(t), answered)) && CallIds(Filled(Rest(t), answered)) == CallIds(Rest(t))
    ensures Paired(Filled(t, answered)) && CallIds(Filled(t, answered)) == CallIds(t)
  {
    FirstTurnIds(t);
    PrefixOfReplies(Run(t), t[0].calls);
    FilledStart(Rest(t), answered);
    var replies, rest := RepliesTo(t[0].calls), Filled(Rest(t), answered);
    assert Filled(t, answered) == [t[0]] + replies + rest;
    hide Filled, Paired, Run, Rest, RepliesTo;
    PairedTurn(t[0], replies, rest);
    CallsOfTurn(t[0], t[0].calls, rest);
  }

  lemma CallsOfTurn(first: Message, calls: seq<CallId>, rest: seq<Message>)
    requires first.Assistant?
    ensures CallIds([first] + RepliesTo(calls) + rest) == first.calls + CallIds(rest)
  {
    var t := [first] + RepliesTo(calls) + rest;
    assert t[0] == first && t[1..] == RepliesTo(calls) + rest;
    hide RepliesTo;
    IdsBehindReplies(calls, rest);
  }

  lemma FilledStart(t: seq<Message>, answered: set<CallId>)
    ensures Filled(t, answered) == [] <==> t == []
    ensures t != [] ==> Filled(t, answered)[0] == t[0]
  {
  }

  /** Only an interrupted transcript can be restored: replies lost from the middle stay out of order. */
  lemma {:induction false} OnlyInterruptedIsRestored(t: seq<Message>, answered: set<CallId>)
    requires Paired(Filled(t, answered))
    ensures Interrupted(t)
    decreases |t|
  {
    if t != [] {
      if t[0].Assistant? {
        FilledStart(Rest(t), answered);
        PairedTurn(t[0], Run(t) + RepliesTo(Missing(t[0].calls, answered)), Filled(Rest(t), answered));
        OnlyInterruptedIsRestored(Rest(t), answered);
      } else {
        assert ([t[0]] + Filled(t[1..], answered))[1..] == Filled(t[1..], answered);
        if !t[0].ToolReply? {
          OnlyInterruptedIsRestored(t[1..], answered);
        }
      }
    }
  }

  /** A well-formed transcript is left as it is; so recovering twice is recovering once. */
  lemma {:induction false} RecoveryKeeps(t: seq<Message>, answered: set<CallId>)
    requires Paired(t) && forall id :: id in ReplyIds(t) ==> id in answered
    ensures Filled(t, answered) == t
    decreases |t|
  {
    if t != [] {
      if t[0].Assistant? {
        TurnSplits(t);
        PairedTurn(t[0], Run(t), Rest(t));
        FirstTurnIds(t);
        var calls := t[0].calls;
        assert calls[..|calls|] == calls && calls + [] == calls;
        MissingSplit(calls, [], answered);
        RecoveryKeeps(Rest(t), answered);
        assert Run(t) + RepliesTo([]) == Run(t);
      } else {
        RecoveryKeeps(t[1..], answered);
      }
    }
  }

  /** Everything that is not a tool reply. */
  function Spoken(t: seq<Message>): seq<Message>
    decreases t
  {
    if t == [] then [] else (if t[0].ToolReply? then [] else [t[0]]) + Spoken(t[1..])
  }

  lemma {:induction false} SpokenSkips(a: seq<Message>, b: seq<Message>)
    requires forall i :: 0 <= i < |a| ==> a[i].ToolReply?
    ensures Spoken(a + b) == Spoken(b)
    decreases a
  {
    if a == [] {
      assert a + b == b;
    } else {
      assert (a + b)[1..] == a[1..] + b;
      SpokenSkips(a[1..], b);
    }
  }

  lemma SpokenTurn(first: Message, run: seq<Message>, rest: seq<Message>)
    requires first.Assistant? && forall i :: 0 <= i < |run| ==> run[i].ToolReply?
    ensures Spoken([first] + run + rest) == [first] + Spoken(rest)
  {
    var t := [first] + run + rest;
    assert t[0] == first && t[1..] == run + rest;
    SpokenSkips(run, rest);
  }

  /** Recovery only ever adds tool replies. */
  lemma {:induction false} RecoveryAddsReplies(t: seq<Message>, answered: set<CallId>)
    ensures Spoken(Filled(t, answered)) == Spoken(t)
    decreases |t|
  {
    if t != [] {
      if t[0].Assistant? {
        RecoveryAddsReplies(Rest(t), answered);
        SpokenTurn(t[0], Run(t) + RepliesTo(Missing(t[0].calls, answered)), Filled(Rest(t), answered));
        SpokenTurn(t[0], Run(t), Rest(t));
        TurnSplits(t);
      } else {
        RecoveryAddsReplies(t[1..], answered);
      }
    }
  }

  /** The calls that have been answered anywhere. */
  function Replied(t: seq<Message>): set<CallId> {
    set id | id in ReplyIds(t)
  }

  function Recovered(t: seq<Message>): seq<Message> {
    Filled(t, Replied(t))
  }

  /** Recovery brings a transcript back to the protocol exactly when only last replies of turns are missing. */
  lemma RecoveryRestoresExactly(t: seq<Message>)
    requires Distinct(CallIds(t))
    ensures Paired(Recovered(t)) <==> Interrupted(t)
    ensures Spoken(Recovered(t)) == Spoken(t)
    ensures Interrupted(t) ==> CallIds(Recovered(t)) == CallIds(t) && Recovered(Recovered(t)) == Recovered(t)
  {
    RecoveryAddsReplies(t, Replied(t));
    if Paired(Recovered(t)) {
      OnlyInterruptedIsRestored(t, Replied(t));
      RecoveryKeeps(Recovered(t), Replied(Recovered(t)));
    }
    if Interrupted(t) {
      RecoveryRestores(t, Replied(t));
    }
  }

  // ---- Which replies are added, to any transcript

  lemma Associate(a: seq<CallId>, b: seq<CallId>, c: seq<CallId>)
    ensures a + (b + c) == (a + b) + c
  {
  }

  lemma {:induction false} ReplyIdsAppend(a: seq<Message>, b: seq<Message>)
    ensures ReplyIds(a + b) == ReplyIds(a) + ReplyIds(b)
    decreases a
  {
    if a == [] {
      assert a + b == b;
    } else {
      assert (a + b)[1..] == a[1..] + b;
      ReplyIdsAppend(a[1..], b);
      Associate(if a[0].ToolReply? then [a[0].call] else [], ReplyIds(a[1..]), ReplyIds(b));
    }
  }

  lemma {:induction false} CountMissing(calls: seq<CallId>, answered: set<CallId>, id: CallId)
    ensures multiset(Missing(calls, answered))[id] == if id in answered then 0 else multiset(calls)[id]
    decreases calls
  {
    if calls != [] {
      CountMissing(calls[1..], answered, id);
      assert calls == [calls[0]] + calls[1..];
    }
  }

  lemma RepliedIds(calls: seq<CallId>)
    ensures ReplyIds(RepliesTo(calls)) == calls
  {
    IdsBehindReplies(calls, []);
    assert RepliesTo(calls) + [] == RepliesTo(calls) && calls + ReplyIds([]) == calls;
  }

  lemma {:induction false} NoCallsIn(run: seq<Message>)
    requires forall i :: 0 <= i < |run| ==> run[i].ToolReply?
    ensures CallIds(run) == []
    decreases run
  {
    if run != [] {
      NoCallsIn(run[1..]);
    }
  }

  lemma IdsOfTurn(first: Message, more: seq<Message>, rest: seq<Message>)
    requires first.Assistant? && forall i :: 0 <= i < |more| ==> more[i].ToolReply?
    ensures ReplyIds([first] + more + rest) == ReplyIds(more) + ReplyIds(rest)
    ensures CallIds([first] + more + rest) == first.calls + CallIds(rest)
  {
    var t := [first] + more + rest;
    assert t[0] == first && t[1..] == more + rest;
    ReplyIdsAppend(more, rest);
    CallIdsAppend(more, rest);
    NoCallsIn(more);
    assert [] + CallIds(rest) == CallIds(rest);
  }

  lemma CountTurn(first: Message, run: seq<Message>, added: seq<CallId>, rest: seq<Message>, id: CallId)
    requires first.Assistant? && forall i :: 0 <= i < |run| ==> run[i].ToolReply?
    ensures
      var t := [first] + (run + RepliesTo(added)) + rest;
      && multiset(ReplyIds(t))[id] == multiset(ReplyIds(run))[id] + multiset(added)[id] + multiset(ReplyIds(rest))[id]
      && multiset(CallIds(t))[id] == multiset(first.calls)[id] + multiset(CallIds(rest))[id]
  {
    IdsOfTurn(first, run + RepliesTo(added), rest);
    ReplyIdsAppend(run, RepliesTo(added));
    RepliedIds(added);
    hide ReplyIds, CallIds;
  }

  lemma {:induction false} CountFilled(t: seq<Message>, answered: set<CallId>, id: CallId)
    ensures multiset(ReplyIds(Filled(t, answered)))[id] ==
            multiset(ReplyIds(t))[id] + if id in answered then 0 else multiset(CallIds(t))[id]
    decreases |t|
  {
    if t != [] {
      if t[0].Assistant? {
        var missing := Missing(t[0].calls, answered);
        CountFilled(Rest(t), answered, id);
        CountMissing(t[0].calls, answered, id);
        CountTurn(t[0], Run(t), missing, Filled(Rest(t), answered), id);
        CountTurn(t[0], Run(t), [], Rest(t), id);
        TurnSplits(t);
        assert RepliesTo([]) == [] && Run(t) + [] == Run(t);
        hide CallIds, ReplyIds, Missing;
      } else {
        CountFilled(t[1..], answered, id);
        var rest := Filled(t[1..], answered);
        assert ([t[0]] + rest)[1..] == rest;
      }
    }
  }

  /**
    In any transcript every call that has no reply anywhere gets one for each time it is made, and no other
    reply is added or taken away.
   */
  lemma EveryCallAnswered(t: seq<Message>, id: CallId)
    ensures
      var before, after := multiset(ReplyIds(t)), multiset(ReplyIds(Recovered(t)));
      after[id] == if id in ReplyIds(t) then before[id] else multiset(CallIds(t))[id]
  {
    CountFilled(t, Replied(t), id);
  }

  /** The replies of a turn come directly behind those it has, in the order of its calls. */
  lemma WhereRepliesGo(first: Message, run: seq<Message>, rest: seq<Message>, answered: set<CallId>)
    requires forall i :: 0 <= i < |run| ==> run[i].ToolReply?
    requires rest != [] ==> !rest[0].ToolReply?
    ensures first.Assistant? ==>
      Filled([first] + run + rest, answered)
      == [first] + run + RepliesTo(Missing(first.calls, answered)) + Filled(rest, answered)
    ensures !first.Assistant? ==> Filled([first] + rest, answered) == [first] + Filled(rest, answered)
  {
    TurnOf(first, run, rest);
    if first.Assistant? {
      var missing := RepliesTo(Missing(first.calls, answered));
      assert ([first] + run + rest)[0] == first;
      assert [first] + (run + missing) == [first] + run + missing;
    } else {
      assert ([first] + rest)[1..] == rest;
    }
  }

  // ---- Whatever runs leave behind can be recovered

  lemma {:induction false} PairedIsInterrupted(t: seq<Message>)
    requires Paired(t)
    ensures Interrupted(t)
    decreases |t|
  {
    if t != [] {
      if t[0].Assistant? {
        TurnSplits(t);
        PairedTurn(t[0], Run(t), Rest(t));
        PairedIsInterrupted(Rest(t));
      } else {
        PairedIsInterrupted(t[1..]);
      }
    }
  }

  lemma {:induction false} InterruptedAppend(a: seq<Message>, b: seq<Message>)
    requires Interrupted(a) && Interrupted(b)
    ensures Interrupted(a + b)
    decreases |a|
  {
    if a == [] {
      assert a + b == b;
    } else {
      if a[0].Assistant? {
        InterruptedAppend(Rest(a), b);
        TurnSplits(a);
        assert a + b == [a[0]] + Run(a) + (Rest(a) + b);
        TurnOf(a[0], Run(a), Rest(a) + b);
      } else {
        assert (a + b)[1..] == a[1..] + b;
        InterruptedAppend(a[1..], b);
      }
    }
  }

  lemma LoneTurn(m: Message)
    requires m.Assistant?
    ensures Interrupted([m])
  {
    assert [m][1..] == [];
    assert Run([m]) == [] && Rest([m]) == [];
  }

  lemma OpenTurnIsInterrupted(t: seq<Message>)
    requires t != [] && Paired(t[..|t| - 1]) && t[|t| - 1].Assistant?
    ensures Interrupted(t)
  {
    var last := [t[|t| - 1]];
    LoneTurn(t[|t| - 1]);
    hide Interrupted, Paired;
    PairedIsInterrupted(t[..|t| - 1]);
    InterruptedAppend(t[..|t| - 1], last);
    assert t == t[..|t| - 1] + last;
  }

  /** A run on a recoverable session leaves a recoverable session, however it ends. */
  lemma RunsStayRecoverable(b: Start, t: seq<Message>, executions: Executions)
    requires Interrupted(b.transcript)
    requires Clean(b, t, executions) || Gap(b, t, executions)
    ensures Interrupted(t)
  {
    hide Interrupted, Paired, Recorded;
    var n := |b.transcript|;
    var added := t[n..];
    assert t == b.transcript + added;
    if Paired(added) {
      PairedIsInterrupted(added);
    } else {
      assert added[..|added| - 1] == t[n..|t| - 1];
      OpenTurnIsInterrupted(added);
    }
    InterruptedAppend(b.transcript, added);
  }

  // ---- The loop over the turns

  datatype Record = Record(id: nat, message: Message)

  /** A turn names the record of its assistant message, and the calls of that message. */
  datatype Turn = Turn(messageId: nat, calls: seq<CallId>)

  function Messages(records: seq<Record>): (t: seq<Message>)
    ensures |t| == |records| && forall i :: 0 <= i < |t| ==> t[i] == records[i].message
  {
    seq(|records|, i requires 0 <= i < |records| => records[i].message)
  }

  /** The turns that belong to the records. */
  function TurnsOf(records: seq<Record>): seq<Turn>
    decreases records
  {
    if records == [] then []
    else (if records[0].message.Assistant? then [Turn(records[0].id, records[0].message.calls)] else []) + TurnsOf(records[1..])
  }

  ghost predicate OwnIds(records: seq<Record>, next: nat) {
    && (forall i :: 0 <= i < |records| ==> records[i].id < next)
    && (forall i, j :: 0 <= i < j < |records| ==> records[i].id != records[j].id)
  }

  /** The q-th record begins the next turn, and n replies of it are there. */
  ghost predicate TurnAt(rest: seq<Record>, q: nat, n: nat) {
    && q + 1 + n <= |rest| && rest[q].message.Assistant?
    && (forall i :: q < i <= q + n ==> rest[i].message.ToolReply?)
    && (q + 1 + n < |rest| ==> !rest[q + 1 + n].message.ToolReply?)
  }

  /** What recovery makes of the records up to the end of the next turn. */
  function TurnFilled(rest: seq<Record>, q: nat, n: nat, answered: set<CallId>): seq<Message>
    requires q + 1 + n <= |rest| && rest[q].message.Assistant?
  {
    Messages(rest[..q + 1 + n]) + RepliesTo(Missing(rest[q].message.calls, answered))
  }

  ghost predicate IsNextTurn(rest: seq<Record>, q: nat, n: nat, answered: set<CallId>) {
    && TurnAt(rest, q, n)
    && TurnsOf(rest) == [Turn(rest[q].id, rest[q].message.calls)] + TurnsOf(rest[q + 1 + n..])
    && Filled(Messages(rest), answered) ==
      TurnFilled(rest, q, n, answered) + Filled(Messages(rest[q + 1 + n..]), answered)
  }

  lemma {:induction false} NextTurn(rest: seq<Record>, answered: set<CallId>) returns (q: nat, n: nat)
    requires TurnsOf(rest) != []
    ensures IsNextTurn(rest, q, n, answered)
    decreases rest
  {
    if rest[0].message.Assistant? {
      q, n := 0, ReplyRun(Messages(rest[1..]));
      TurnFirst(rest, n, answered);
    } else {
      q, n := NextTurn(rest[1..], answered);
      TurnLater(rest, q, n, answered);
      q := q + 1;
    }
  }

  lemma TurnFirst(rest: seq<Record>, n: nat, answered: set<CallId>)
    requires rest != [] && rest[0].message.Assistant? && n == ReplyRun(Messages(rest[1..]))
    ensures IsNextTurn(rest, 0, n, answered)
  {
    var t := Messages(rest);
    assert t[1..] == Messages(rest[1..]);
    forall i | 0 < i <= n ensures rest[i].message.ToolReply? {
      assert t[1..][i - 1] == rest[i].message;
    }
    assert 1 + n < |rest| ==> t[1..][n] == rest[1 + n].message;
    assert Rest(t) == Messages(rest[1 + n..]);
    assert [t[0]] + Run(t) == Messages(rest[..1 + n]);
    Regroup([t[0]], Run(t), RepliesTo(Missing(t[0].calls, answered)));
    RunHasNoTurns(rest[1..], n);
    assert rest[1..][n..] == rest[1 + n..];
  }

  lemma TurnLater(rest: seq<Record>, q: nat, n: nat, answered: set<CallId>)
    requires rest != [] && !rest[0].message.Assistant? && IsNextTurn(rest[1..], q, n, answered)
    ensures IsNextTurn(rest, q + 1, n, answered)
  {
    var tail := rest[1..];
    TailAt(rest, q, n);
    SkipOne(rest, answered);
    assert TurnsOf(rest) == TurnsOf(tail);
    TurnFilledLater(rest, q, n, answered);
    assert tail[q + 1 + n..] == rest[q + 2 + n..];
    hide Filled, TurnsOf, Missing, Messages, TurnFilled, TurnAt;
    Regroup([rest[0].message], TurnFilled(tail, q, n, answered), Filled(Messages(tail[q + 1 + n..]), answered));
  }

  lemma Regroup(a: seq<Message>, b: seq<Message>, c: seq<Message>)
    ensures a + (b + c) == (a + b) + c
  {
  }

  lemma TurnFilledLater(rest: seq<Record>, q: nat, n: nat, answered: set<CallId>)
    requires rest != [] && TurnAt(rest[1..], q, n) && TurnAt(rest, q + 1, n)
    ensures TurnFilled(rest, q + 1, n, answered) == [rest[0].message] + TurnFilled(rest[1..], q, n, answered)
  {
    var tail := rest[1..];
    assert tail[q] == rest[q + 1];
    assert [rest[0]] + tail[..q + 1 + n] == rest[..q + 2 + n];
    MessagesPrepend(rest[0], tail[..q + 1 + n]);
    hide Missing, Messages;
    Regroup([rest[0].message], Messages(tail[..q + 1 + n]), RepliesTo(Missing(tail[q].message.calls, answered)));
  }

  lemma TailAt(rest: seq<Record>, q: nat, n: nat)
    requires rest != [] && TurnAt(rest[1..], q, n)
    ensures TurnAt(rest, q + 1, n)
  {
    var tail := rest[1..];
    forall i | q + 1 < i <= q + 1 + n ensures rest[i].message.ToolReply? {
      assert tail[i - 1] == rest[i];
    }
    assert q + 1 + n < |tail| ==> tail[q + 1 + n] == rest[q + 2 + n];
  }

  lemma SkipOne(rest: seq<Record>, answered: set<CallId>)
    requires rest != [] && !rest[0].message.Assistant?
    ensures Filled(Messages(rest), answered) == [rest[0].message] + Filled(Messages(rest[1..]), answered)
  {
    assert Messages(rest)[1..] == Messages(rest[1..]);
  }

  lemma MessagesPrepend(first: Record, rest: seq<Record>)
    ensures Messages([first] + rest) == [first.message] + Messages(rest)
  {
  }

  lemma MessagesAppend(a: seq<Record>, b: seq<Record>)
    ensures Messages(a + b) == Messages(a) + Messages(b)
  {
  }

  lemma {:induction false} RunHasNoTurns(records: seq<Record>, n: nat)
    requires n <= |records| && forall i :: 0 <= i < n ==> records[i].message.ToolReply?
    ensures TurnsOf(records) == TurnsOf(records[n..])
    decreases n
  {
    if n == 0 {
      assert records[0..] == records;
    } else {
      RunHasNoTurns(records[1..], n - 1);
      assert records[1..][n - 1..] == records[n..];
    }
  }

  lemma {:induction false} NoTurnsNothingToFill(rest: seq<Record>, answered: set<CallId>)
    requires TurnsOf(rest) == []
    ensures Filled(Messages(rest), answered) == Messages(rest)
    decreases rest
  {
    if rest != [] {
      assert Messages(rest)[1..] == Messages(rest[1..]);
      NoTurnsNothingToFill(rest[1..], answered);
    }
  }

  /** The calls of a turn that have no reply; what they were doing is recorded as failed. */
  method Unanswered(calls: seq<CallId>, answered: set<CallId>, executions: Executions)
    returns (missing: seq<CallId>, settled: Executions)
    ensures missing == Missing(calls, answered)
    ensures settled == Marked(executions, missing, Settled)
  {
    missing, settled := [], executions;
    for k := 0 to |calls|
      invariant missing + Missing(calls[k..], answered) == Missing(calls, answered)
      invariant settled == Marked(executions, missing, Settled)
    {
      MissingNext(calls, k, answered, missing);
      hide Missing, Marked;
      if calls[k] !in answered {
        MarkMore(executions, missing, calls[k]);
        settled := settled[calls[k] := Settled];
        missing := missing + [calls[k]];
      }
    }
    assert calls[|calls|..] == [];
  }

  lemma MissingNext(calls: seq<CallId>, k: nat, answered: set<CallId>, before: seq<CallId>)
    requires k < |calls|
    ensures before + Missing(calls[k..], answered)
            == (if calls[k] in answered then before else before + [calls[k]]) + Missing(calls[k + 1..], answered)
  {
    assert calls[k..][1..] == calls[k + 1..];
  }

  lemma MarkMore(executions: Executions, ids: seq<CallId>, id: CallId)
    ensures Marked(executions, ids + [id], Settled) == Marked(executions, ids, Settled)[id := Settled]
  {
  }

  /** Where the missing replies of a message belong: behind it and the replies it has. */
  method Position(records: seq<Record>, id: nat) returns (position: nat)
    requires exists i :: 0 <= i < |records| && records[i].id == id
    ensures position <= |records| && (position < |records| ==> !records[position].message.ToolReply?)
    ensures exists i :: 0 <= i < position && records[i].id == id && (forall j :: i < j < position ==> records[j].message.ToolReply?)
  {
    position := 0;
    while records[position].id != id
      invariant position < |records| && forall i :: 0 <= i < position ==> records[i].id != id
      decreases |records| - position
    {
      position := position + 1;
    }
    ghost var at := position;
    position := position + 1;
    while position < |records| && records[position].message.ToolReply?
      invariant at < position <= |records| && forall j :: at < j < position ==> records[j].message.ToolReply?
    {
      position := position + 1;
    }
  }

  /** New records for the missing replies. */
  method RepliesFor(missing: seq<CallId>, next: nat) returns (added: seq<Record>)
    ensures Messages(added) == RepliesTo(missing)
    ensures |added| == |missing| && forall i :: 0 <= i < |added| ==> added[i].id == next + i
  {
    added := seq(|missing|, i requires 0 <= i < |missing| => Record(next + i, ToolReply(missing[i])));
  }

  lemma PositionIsUnique(done: seq<Record>, rest: seq<Record>, q: nat, n: nat, next: nat, position: nat)
    requires OwnIds(done + rest, next) && TurnAt(rest, q, n)
    requires position <= |done + rest| && (position < |done + rest| ==> !(done + rest)[position].message.ToolReply?)
    requires exists i :: 0 <= i < position && (done + rest)[i].id == rest[q].id && (forall j :: i < j < position ==> (done + rest)[j].message.ToolReply?)
    ensures position == |done| + q + 1 + n
  {
    var all := done + rest;
    var i :| 0 <= i < position && all[i].id == rest[q].id && (forall j :: i < j < position ==> all[j].message.ToolReply?);
    assert all[|done| + q] == rest[q];
    assert i == |done| + q;
    forall j | i < j <= i + n ensures all[j].message.ToolReply? {
      assert all[j] == rest[j - |done|];
    }
    assert q + 1 + n < |rest| ==> all[i + 1 + n] == rest[q + 1 + n];
  }

  lemma StillOwnIds(all: seq<Record>, position: nat, added: seq<Record>, next: nat)
    requires OwnIds(all, next) && position <= |all| && forall i :: 0 <= i < |added| ==> added[i].id == next + i
    ensures OwnIds(all[..position] + added + all[position..], next + |added|)
  {
  }

  /** The state of the loop: what is done is final, and the rest has the remaining turns. */
  ghost predicate Recovering(original: seq<Record>, answered: set<CallId>, done: seq<Record>, rest: seq<Record>,
                             turns: seq<Turn>) {
    && TurnsOf(rest) == turns
    && Filled(Messages(original), answered) == Messages(done) + Filled(Messages(rest), answered)
  }

  lemma RecoverOne(original: seq<Record>, answered: set<CallId>, done: seq<Record>, rest: seq<Record>, turns: seq<Turn>,
                   q: nat, n: nat, added: seq<Record>)
    requires turns != [] && Recovering(original, answered, done, rest, turns) && IsNextTurn(rest, q, n, answered)
    requires Messages(added) == RepliesTo(Missing(rest[q].message.calls, answered))
    ensures turns[0] == Turn(rest[q].id, rest[q].message.calls)
    ensures Recovering(original, answered, done + rest[..q + 1 + n] + added, rest[q + 1 + n..], turns[1..])
  {
    hide Filled, TurnsOf, Messages;
    MessagesAppend(done, rest[..q + 1 + n]);
    MessagesAppend(done + rest[..q + 1 + n], added);
    assert Messages(done + rest[..q + 1 + n] + added) == Messages(done) + TurnFilled(rest, q, n, answered);
  }

  /** A call of no turn, or one that has a reply. */
  ghost predicate LeftAlone(turns: seq<Turn>, answered: set<CallId>, id: CallId) {
    id in answered || forall k :: 0 <= k < |turns| ==> id !in turns[k].calls
  }

  /** Close the calls that a crashed process left open, and record them as failed. */
  method RecoverInterrupted(original: seq<Record>, turns: seq<Turn>, executions: Executions, next: nat)
    returns (records: seq<Record>, settled: Executions)
    requires turns == TurnsOf(original) && OwnIds(original, next)
    ensures Messages(records) == Recovered(Messages(original))
    ensures forall k, id :: 0 <= k < |turns| && id in turns[k].calls && id !in Replied(Messages(original)) ==>
      id in settled && settled[id] == Settled
    ensures forall id :: id in executions ==> id in settled
    ensures forall id :: id in executions && LeftAlone(turns, Replied(Messages(original)), id) ==>
      settled[id] == executions[id]
  {
    var answered := Replied(Messages(original));
    records, settled := original, executions;
    ghost var done: seq<Record>, rest: seq<Record> := [], original;
    var newId: nat := next;
    StartRecovery(original, answered);
    hide Filled, TurnsOf, Missing, Marked, OwnIds, Recovering, IsNextTurn, TurnAt, TurnFilled;
    for k := 0 to |turns|
      invariant records == done + rest && OwnIds(records, newId)
      invariant Recovering(original, answered, done, rest, turns[k..])
      invariant forall l, id :: 0 <= l < k && id in turns[l].calls && id !in answered ==>
        id in settled && settled[id] == Settled
      invariant forall id :: id in executions ==> id in settled
      invariant forall id :: id in executions && LeftAlone(turns, answered, id) ==> settled[id] == executions[id]
    {
      assert turns[k..][0] == turns[k] && turns[k..][1..] == turns[k + 1..];
      var missing, now := Unanswered(turns[k].calls, answered, settled);
      SettledMore(settled, turns, k, answered);
      settled := now;
      records, newId, done, rest := Insert(original, answered, records, turns[k], missing, newId, done, rest, turns[k..]);
    }
    FinishRecovery(original, answered, done, rest);
  }

  lemma StartRecovery(original: seq<Record>, answered: set<CallId>)
    ensures Recovering(original, answered, [], original, TurnsOf(original))
    ensures TurnsOf(original)[0..] == TurnsOf(original) && [] + original == original
  {
    assert Messages([]) + Filled(Messages(original), answered) == Filled(Messages(original), answered);
  }

  lemma FinishRecovery(original: seq<Record>, answered: set<CallId>, done: seq<Record>, rest: seq<Record>)
    requires Recovering(original, answered, done, rest, [])
    ensures Messages(done + rest) == Filled(Messages(original), answered)
  {
    NoTurnsNothingToFill(rest, answered);
    hide Filled, Messages;
    MessagesAppend(done, rest);
  }

  /** Put the missing replies of one turn in their place. */
  method Insert(ghost original: seq<Record>, ghost answered: set<CallId>, before: seq<Record>, turn: Turn,
                missing: seq<CallId>, next: nat,
                ghost done: seq<Record>, ghost rest: seq<Record>, ghost turns: seq<Turn>)
    returns (records: seq<Record>, newId: nat, ghost done': seq<Record>, ghost rest': seq<Record>)
    requires before == done + rest && OwnIds(before, next)
    requires turns != [] && turns[0] == turn && Recovering(original, answered, done, rest, turns)
    requires missing == Missing(turn.calls, answered)
    ensures records == done' + rest' && OwnIds(records, newId)
            && Recovering(original, answered, done', rest', turns[1..])
  {
    ghost var q, n := NextOf(original, answered, done, rest, turns);
    var added := RepliesFor(missing, next);
    RecoverOne(original, answered, done, rest, turns, q, n, added);
    hide Filled, TurnsOf, Missing, Recovering, Messages;
    done', rest' := done + rest[..q + 1 + n] + added, rest[q + 1 + n..];
    CutAt(done, rest, q + 1 + n);
    if missing == [] {
      assert added == [] && done' == done + rest[..q + 1 + n];
      return before, next, done', rest';
    }
    assert before[|done| + q] == rest[q];
    hide OwnIds, IsNextTurn;
    var position := Position(before, turn.messageId);
    PositionIsUnique(done, rest, q, n, next, position);
    StillOwnIds(before, position, added, next);
    records, newId := before[..position] + added + before[position..], next + |added|;
  }

  lemma CutAt(done: seq<Record>, rest: seq<Record>, cut: nat)
    requires cut <= |rest|
    ensures (done + rest)[..|done| + cut] == done + rest[..cut] && (done + rest)[|done| + cut..] == rest[cut..]
    ensures done + rest == done + rest[..cut] + rest[cut..]
  {
  }

  lemma NextOf(original: seq<Record>, answered: set<CallId>, done: seq<Record>, rest: seq<Record>, turns: seq<Turn>)
    returns (q: nat, n: nat)
    requires turns != [] && Recovering(original, answered, done, rest, turns)
    ensures IsNextTurn(rest, q, n, answered) && TurnAt(rest, q, n)
            && turns[0] == Turn(rest[q].id, rest[q].message.calls)
  {
    q, n := NextTurn(rest, answered);
  }

  lemma SettledMore(executions: Executions, turns: seq<Turn>, k: nat, answered: set<CallId>)
    requires k < |turns|
    ensures
      var missing := Missing(turns[k].calls, answered);
      var now := Marked(executions, missing, Settled);
      && (forall id :: id in turns[k].calls && id !in answered ==> id in now && now[id] == Settled)
      && (forall id :: id in executions ==> id in now)
      && (forall id :: id in executions && (id in answered || id !in turns[k].calls) ==> now[id] == executions[id])
  {
    forall id ensures id in Missing(turns[k].calls, answered) <==> id in turns[k].calls && id !in answered {
      MissingHas(turns[k].calls, answered, id);
    }
  }

  lemma {:induction false} MissingHas(calls: seq<CallId>, answered: set<CallId>, id: CallId)
    ensures id in Missing(calls, answered) <==> id in calls && id !in answered
    decreases calls
  {
    if calls != [] {
      MissingHas(calls[1..], answered, id);
      assert calls == [calls[0]] + calls[1..];
    }
  }
}
