// What the web view makes of a stream, however it is delivered.
module ReducerProofs {
  import opened Base
  import opened Reducer

  // ---- Delivery

  lemma {:induction false} FoldAppend(s: View, a: seq<Event>, b: seq<Event>)
    ensures Fold(s, a + b) == Fold(Fold(s, a), b)
    decreases a
  {
    if a == [] {
      assert a + b == b;
    } else {
      assert (a + b)[1..] == a[1..] + b;
      FoldAppend(ApplyEvent(s, a[0]), a[1..], b);
    }
  }

  lemma {:induction false} ResyncAbsorbs(s: View, events: seq<Event>)
    requires s.place.resync
    ensures Fold(s, events) == s
    decreases events
  {
    if events != [] {
      ResyncAbsorbs(s, events[1..]);
    }
  }

  /** No accepted event touches what decides about later ones, beyond being noted. */
  lemma AcceptedKeepsPlace(s: View, e: Event)
    ensures ApplyAccepted(s, e).place == s.place
  {
  }

  /**
    A view asks for a new snapshot exactly for another protocol version, another
    stream, a gap, or a malformed status; what it shows stays as it was.
   */
  lemma ResyncExactly(s: View, e: Event)
    requires !s.place.resync
    ensures ApplyEvent(s, e).place.resync <==>
      || e.version != 2 || e.stream != s.place.stream
      || (e.session == s.place.session && e.seq_ > s.place.lastSeq + 1)
      || (e.session == s.place.session && e.seq_ == s.place.lastSeq + 1 && e.id !in s.place.seen
          && e.body.StatusChanged? && !e.body.valid)
    ensures ApplyEvent(s, e).place.resync ==> ApplyEvent(s, e) == s.(place := s.place.(resync := true))
  {
    AcceptedKeepsPlace(s.(place := Note(s.place, e)), e);
  }

  /** The events of one stream after s0: numbered without a gap, with ids of their own. */
  ghost predicate Stream(p: Place, stream: seq<Event>) {
    && !p.resync
    && (forall i :: 0 <= i < |stream| ==>
          && stream[i].version == 2 && stream[i].stream == p.stream && stream[i].session == p.session
          && stream[i].seq_ == p.lastSeq + 1 + i && stream[i].id !in p.seen)
    && (forall i, j :: 0 <= i < j < |stream| ==> stream[i].id != stream[j].id)
  }

  /** An event that has nothing to tell: another session's, or from before the snapshot. */
  predicate Harmless(p: Place, e: Event) {
    e.version == 2 && e.stream == p.stream && (e.session != p.session || e.seq_ <= p.lastSeq)
  }

  /** The number of events of the stream that have been delivered once d has followed the first k. */
  function Reach(p: Place, stream: seq<Event>, d: seq<Event>, k: nat): nat
    decreases d
  {
    if d == [] then k
    else if k < |stream| && d[0] == stream[k] then Reach(p, stream, d[1..], k + 1)
    else Reach(p, stream, d[1..], k)
  }

  /**
    A delivery of the stream without a gap: after the first k events, d brings the
    next ones in order, mixed with any repetitions of earlier ones and any harmless events.
   */
  ghost predicate Delivery(p: Place, stream: seq<Event>, d: seq<Event>, k: nat)
    decreases d
  {
    d == [] ||
    if k < |stream| && d[0] == stream[k] then Delivery(p, stream, d[1..], k + 1)
    else (Harmless(p, d[0]) || exists j :: 0 <= j < k && j < |stream| && d[0] == stream[j]) && Delivery(p, stream, d[1..], k)
  }

  /** After k events the view is k further on, and has seen no others, unless it has lost its place. */
  lemma {:induction false} PlaceAfter(s: View, stream: seq<Event>, k: nat)
    requires Stream(s.place, stream) && k <= |stream|
    ensures
      var p := Fold(s, stream[..k]).place;
      && p.stream == s.place.stream && p.session == s.place.session
      && (p.resync || (p.lastSeq == s.place.lastSeq + k
                       && forall id :: id in p.seen ==>
                         id in s.place.seen || exists i :: 0 <= i < k && stream[i].id == id))
  {
    if k == 0 {
      assert stream[..0] == [];
    } else {
      PlaceAfter(s, stream, k - 1);
      FoldNext(s, stream, k - 1);
      var t := Fold(s, stream[..k - 1]);
      AcceptedKeepsPlace(t.(place := Note(t.place, stream[k - 1])), stream[k - 1]);
    }
  }

  lemma FoldNext(s: View, stream: seq<Event>, k: nat)
    requires k < |stream|
    ensures Fold(s, stream[..k + 1]) == ApplyEvent(Fold(s, stream[..k]), stream[k])
  {
    assert stream[..k + 1] == stream[..k] + [stream[k]];
    FoldAppend(s, stream[..k], [stream[k]]);
  }

  /**
    Delivery refines applying the stream once: whatever is repeated, late or meant
    for another session, the view is that of the delivered prefix.
   */
  lemma {:induction false} DeliveryRefines(s: View, stream: seq<Event>, d: seq<Event>, k: nat)
    requires Stream(s.place, stream) && k <= |stream| && Delivery(s.place, stream, d, k)
    ensures Reach(s.place, stream, d, k) <= |stream|
    ensures Fold(Fold(s, stream[..k]), d) == Fold(s, stream[..Reach(s.place, stream, d, k)])
    decreases d
  {
    if d != [] {
      PlaceAfter(s, stream, k);
      if k < |stream| && d[0] == stream[k] {
        FoldNext(s, stream, k);
        DeliveryRefines(s, stream, d[1..], k + 1);
      } else {
        DeliveryRefines(s, stream, d[1..], k);
      }
    }
  }

  // ---- What every view keeps

  ghost predicate DistinctCommands(queued: seq<Queued>) {
    forall i, j :: 0 <= i < j < |queued| ==> queued[i].commandId != queued[j].commandId
  }

  ghost predicate DistinctTools(tools: seq<Tool>) {
    forall i, j :: 0 <= i < j < |tools| ==> tools[i].call != tools[j].call
  }

  ghost predicate DistinctAgents(agents: seq<Agent>) {
    && (forall i, j :: 0 <= i < j < |agents| ==> agents[i].task != agents[j].task)
    && (forall i :: 0 <= i < |agents| ==> DistinctTools(agents[i].tools))
  }

  ghost predicate QueueOk(s: View) {
    s.queueDepth == |s.queued| && DistinctCommands(s.queued)
  }

  ghost predicate Tidy(s: View) {
    && |s.place.seen| <= SEEN_LIMIT && |s.notices| <= NOTICE_LIMIT
    && QueueOk(s)
    && (s.active.Some? ==> DistinctTools(s.active.value.tools))
    && DistinctAgents(s.agents)
  }

  lemma {:induction false} UnqueueFacts(queued: seq<Queued>, id: Name)
    requires DistinctCommands(queued)
    ensures DistinctCommands(Unqueue(queued, id))
    ensures forall q :: q in Unqueue(queued, id) <==> q in queued && q.commandId != id
    decreases queued
  {
    if queued != [] {
      UnqueueFacts(queued[1..], id);
      assert queued == [queued[0]] + queued[1..];
      var rest := Unqueue(queued[1..], id);
      forall q | q in rest ensures q.commandId != queued[0].commandId {
        var k :| 0 <= k < |queued[1..]| && queued[1..][k] == q;
        assert queued[k + 1] == q && queued[0].commandId != queued[k + 1].commandId;
      }
    }
  }

  lemma UpsertToolDistinct(tools: seq<Tool>, b: Body)
    requires b.ToolEvent? && DistinctTools(tools)
    ensures DistinctTools(UpsertTool(tools, b))
  {
  }

  lemma AgentsStayDistinct(s: View, e: Event, child: Child)
    requires DistinctAgents(s.agents)
    ensures DistinctAgents(ApplyAgent(s, e, child).agents)
  {
    hide FirstWhere, FindTool, UpsertTool;
    if e.body.ToolEvent? {
      var i := FindAgent(s.agents, child.taskId);
      UpsertToolDistinct(if i < |s.agents| then s.agents[i].tools else [], e.body);
    }
  }

  lemma QueueStaysOk(s: View, e: Event)
    requires QueueOk(s)
    ensures QueueOk(ApplyBody(s, e))
  {
    match e.body
    case TurnStarted(_, id, _) => UnqueueFacts(s.queued, id);
    case CommandAccepted(command) =>
      if command.CancelQueued? {
        UnqueueFacts(s.queued, command.target);
      }
    case CommandRejected(command) =>
      if command.Submit? {
        UnqueueFacts(s.queued, command.commandId);
      }
    case _ =>
  }

  /**
    A command is queued exactly when it was and was not taken out, or has just been accepted under an id of
    its own.
   */
  lemma QueueHolds(s: View, e: Event, q: Queued)
    requires QueueOk(s)
    ensures q in ApplyBody(s, e).queued <==>
      match e.body
      case TurnStarted(_, id, _) => q in s.queued && q.commandId != id
      case CommandAccepted(Submit(queued, duplicate, id, prompt)) =>
        q in s.queued || (queued && !duplicate && q == Queued(id, prompt) && forall x :: x in s.queued ==> x.commandId != id)
      case CommandAccepted(CancelQueued(target)) => q in s.queued && q.commandId != target
      case CommandAccepted(CancelAll) => false
      case CommandRejected(Submit(_, _, id, _)) => q in s.queued && q.commandId != id
      case _ => q in s.queued
  {
    match e.body
    case TurnStarted(_, id, _) => UnqueueFacts(s.queued, id);
    case CommandAccepted(command) =>
      if command.CancelQueued? {
        UnqueueFacts(s.queued, command.target);
      } else if command.Submit? {
        assert (exists x :: x in s.queued && x.commandId == command.commandId)
          <==> (exists i :: 0 <= i < |s.queued| && s.queued[i].commandId == command.commandId);
      }
    case CommandRejected(command) =>
      if command.Submit? {
        UnqueueFacts(s.queued, command.commandId);
      }
    case _ =>
  }

  /** The output collected for a call. */
  function OutputOf(tools: seq<Tool>, call: Option<Name>): Option<string> {
    var i := FindTool(tools, call);
    if i < |tools| then tools[i].output else None
  }

  /** An event's output goes behind what its own call has put out, and nowhere else. */
  lemma ToolOutputStep(tools: seq<Tool>, b: Body, call: Option<Name>)
    requires b.ToolEvent?
    ensures OutputOf(UpsertTool(tools, b), call)
            == if call == b.callId then AddOutput(OutputOf(tools, call), b.output) else OutputOf(tools, call)
  {
    var i, k := FindTool(tools, b.callId), FindTool(tools, call);
    if call == b.callId {
      FindToolIs(UpsertTool(tools, b), call, i);
    } else {
      FindToolIs(UpsertTool(tools, b), call, if k < |tools| then k else |UpsertTool(tools, b)|);
    }
  }

  lemma FindToolIs(tools: seq<Tool>, call: Option<Name>, i: nat)
    requires i <= |tools| && (forall j :: 0 <= j < i ==> tools[j].call != call)
            && (i < |tools| ==> tools[i].call == call)
    ensures FindTool(tools, call) == i
  {
  }

  /** What a subagent has said. */
  function AgentText(s: View, task: Name): string {
    var i := FindAgent(s.agents, task);
    if i < |s.agents| then s.agents[i].content else ""
  }

  /** A subagent's text is that of its own deltas and finals; the events of one leave the others alone. */
  lemma AgentTextStep(s: View, e: Event, child: Child, task: Name)
    ensures AgentText(ApplyAgent(s, e, child), task) ==
            if task != child.taskId then AgentText(s, task)
            else match e.body
                 case ContentDelta(piece) => AgentText(s, task) + piece
                 case ContentFinal(content) => content
                 case _ => AgentText(s, task)
  {
    var i, k := FindAgent(s.agents, child.taskId), FindAgent(s.agents, task);
    var agents := ApplyAgent(s, e, child).agents;
    hide UpsertTool;
    if task == child.taskId {
      FindAgentIs(agents, task, i);
    } else {
      FindAgentIs(agents, task, if k < |s.agents| then k else |agents|);
    }
  }

  lemma FindAgentIs(agents: seq<Agent>, task: Name, i: nat)
    requires i <= |agents| && (forall j :: 0 <= j < i ==> agents[j].task != task)
            && (i < |agents| ==> agents[i].task == task)
    ensures FindAgent(agents, task) == i
  {
  }

  lemma ToolsStayDistinct(s: View, e: Event)
    requires s.active.Some? ==> DistinctTools(s.active.value.tools)
    ensures ApplyBody(s, e).active.Some? ==> DistinctTools(ApplyBody(s, e).active.value.tools)
  {
    if e.body.ToolEvent? && s.active.Some? {
      UpsertToolDistinct(s.active.value.tools, e.body);
    }
  }

  lemma NoticesStayFew(s: View, e: Event)
    requires |s.notices| <= NOTICE_LIMIT
    ensures |ApplyBody(s, e).notices| <= NOTICE_LIMIT
  {
  }

  /**
    Whatever arrives, the queue depth is the length of the queue, command ids, tool
    calls and subagents are not repeated, and the two memories stay within their limits.
   */
  lemma {:induction false} StaysTidy(s: View, events: seq<Event>)
    requires Tidy(s)
    ensures Tidy(Fold(s, events))
    decreases events
  {
    if events != [] {
      var e := events[0];
      if Judge(s.place, e) == Accept {
        var t := s.(place := Note(s.place, e));
        AcceptedKeepsPlace(t, e);
        if ForAgent(e) {
          AgentsStayDistinct(t, e, e.child.value);
        } else {
          QueueStaysOk(t, e);
          ToolsStayDistinct(t, e);
          NoticesStayFew(t, e);
          assert ApplyBody(t, e).agents == t.agents;
        }
      }
      assert Tidy(ApplyEvent(s, e));
      StaysTidy(ApplyEvent(s, e), events[1..]);
    }
  }

  // ---- Segments

  /** The change an accepted event makes to a segment's text, if it is aimed at that segment. */
  function EditFor(s: View, e: Event, id: ItemId): Option<Edit> {
    if ForAgent(e) || s.active.None? then None
    else
      match e.body
      case ContentDelta(piece) => if id == Cursor(s, e, Text) then Some(Append(piece)) else None
      case ContentFinal(content) => if id == Cursor(s, e, Text) then Some(Replace(content)) else None
      case ReasoningDelta(piece) => if id == Cursor(s, e, Reasoning) then Some(Append(piece)) else None
      case _ => None
  }

  function Edited(text: string, edit: Option<Edit>): string {
    if edit.Some? then edit.value.Apply(text) else text
  }

  lemma FindIs(items: seq<Item>, id: ItemId, i: nat)
    requires i <= |items| && (forall j :: 0 <= j < i ==> items[j].id != id) && (i < |items| ==> items[i].id == id)
    ensures Find(items, id) == i
  {
  }

  lemma UpsertText(items: seq<Item>, item: Item, id: ItemId)
    ensures TextIn(Upsert(items, item), id) == if id == item.id then item.text else TextIn(items, id)
  {
    var i := Find(items, item.id);
    var k := Find(items, id);
    if id == item.id {
      FindIs(Upsert(items, item), id, i);
    } else if k < |items| {
      FindIs(Upsert(items, item), id, k);
    } else {
      FindIs(Upsert(items, item), id, |Upsert(items, item)|);
    }
  }

  lemma AddedText(items: seq<Item>, item: Item, id: ItemId)
    requires item.id != id
    ensures TextIn(items + [item], id) == TextIn(items, id)
  {
    var k := Find(items, id);
    FindIs(items + [item], id, if k < |items| then k else |items| + 1);
  }

  lemma TextCons(item: Item, rest: seq<Item>, id: ItemId)
    ensures TextIn([item] + rest, id) == if item.id == id then item.text else TextIn(rest, id)
  {
    var k := Find(rest, id);
    FindIs([item] + rest, id, if item.id == id then 0 else k + 1);
  }

  lemma {:induction false} DroppedText(items: seq<Item>, gone: ItemId, id: ItemId)
    requires gone != id
    ensures TextIn(DropItem(items, gone), id) == TextIn(items, id)
    decreases items
  {
    if items != [] {
      DroppedText(items[1..], gone, id);
      assert items == [items[0]] + items[1..];
      TextCons(items[0], items[1..], id);
      TextCons(items[0], DropItem(items[1..], gone), id);
    }
  }

  lemma UpsertAllText(items: seq<Item>, item: Item, id: ItemId)
    requires item.id != id
    ensures TextIn(UpsertAll(items, item), id) == TextIn(items, id)
  {
    if Find(items, item.id) == |items| {
      AddedText(items, item, id);
    } else {
      FindIs(UpsertAll(items, item), id, Find(items, id));
    }
  }

  lemma UpsertSegmentText(s: View, e: Event, edit: Edit, kind: Kind, id: ItemId)
    requires s.timeline.Some?
    ensures UpsertSegment(s, e, edit, kind).timeline.Some?
    ensures TextOf(UpsertSegment(s, e, edit, kind), id)
            == if id == Cursor(s, e, kind) then edit.Apply(TextOf(s, id)) else TextOf(s, id)
  {
    var items := s.timeline.value;
    var cursor := Cursor(s, e, kind);
    UpsertText(items, Item(cursor, Some(TurnKey(s, e)), kind == Text, edit.Apply(TextIn(items, cursor)), None), id);
  }

  lemma ToolItemText(s: View, e: Event, id: ItemId)
    requires e.body.ToolEvent? && s.timeline.Some? && id.SegmentId?
    ensures ToolItem(s, e).timeline.Some? && TextOf(ToolItem(s, e), id) == TextOf(s, id)
  {
    if e.body.callId.Some? {
      var items := s.timeline.value;
      var tool := ToolId(e.body.callId.value);
      var i := Find(items, tool);
      var previous := if i < |items| then items[i] else Item(tool, None, false, "", None);
      var t := if previous.tool.Some? then previous.tool.value else Tool(e.body.callId, None, None, None);
      UpsertText(items, previous.(tool := Some(Updated(t, e.body))), id);
    }
  }

  lemma EndTurnText(s: View, e: Event, id: ItemId)
    requires e.body.TurnEnded? && s.timeline.Some? && id.SegmentId?
    ensures EndTurn(s, e).timeline.Some? && TextOf(EndTurn(s, e), id) == TextOf(s, id)
  {
    var items := s.timeline.value;
    var turn := Or(if s.active.Some? then s.active.value.id else None, e.turn);
    var finished := if s.active.Some? then s.active.value.content else "";
    var answer := Item(AnswerId(GetOr(turn, e.id)), turn, true, finished, None);
    AddedText(items, answer, id);
    var shown := if finished != "" && !AnswerShown(items, turn) then items + [answer] else items;
    var run := Or(e.body.endRun, if s.active.Some? then s.active.value.run else None);
    var status := StatusId(GetOr(Or(run, turn), e.id));
    DroppedText(shown, status, id);
    AddedText(DropItem(shown, status), Item(status, turn, false, if e.body.outcome == TurnFailed then e.body.error else "", None), id);
  }

  /** An accepted event changes the text of the segment it is aimed at, and no other's. */
  lemma TextStep(s: View, e: Event, id: ItemId)
    requires s.timeline.Some? && id.SegmentId?
    ensures ApplyAccepted(s, e).timeline.Some?
    ensures TextOf(ApplyAccepted(s, e), id) == Edited(TextOf(s, id), EditFor(s, e, id))
  {
    hide Find, FirstWhere, FindAgent, FindTool, UpsertTool, Unqueue, AnswerShown, HasText, TextIn, DropItem, Upsert, Last;
    if !ForAgent(e) {
      match e.body
      case TurnStarted(_, _, prompt) =>
        AddedText(s.timeline.value, Item(UserId(GetOr(e.turn, e.id)), e.turn, false, prompt, None), id);
      case ReasoningDelta(piece) =>
        if s.active.Some? {
          UpsertSegmentText(s.(active := Some(s.active.value.(reasoning := s.active.value.reasoning + piece))), e, Append(piece), Reasoning, id);
        }
      case ContentDelta(piece) =>
        if s.active.Some? {
          UpsertSegmentText(s.(active := Some(s.active.value.(content := s.active.value.content + piece))), e, Append(piece), Text, id);
        }
      case ContentFinal(content) =>
        if s.active.Some? {
          UpsertSegmentText(s.(active := Some(s.active.value.(content := content))), e, Replace(content), Text, id);
        } else {
          UpsertAllText(s.timeline.value, Item(AnswerId(GetOr(e.turn, e.id)), e.turn, true, content, None), id);
        }
      case ToolEvent(_, _, _, _) => ToolItemText(ToolStep(s, e), e, id);
      case TurnEnded(_, _, _) => EndTurnText(s, e, id);
      case InteractionResolved(request) => DroppedText(s.timeline.value, ApprovalId(request), id);
      case _ =>
    }
  }

  /**
    A segment's text after some events, counting only the deltas and finals that arrived while it was the
    current one.
   */
  function Replay(s: View, events: seq<Event>, id: ItemId, text: string): string
    decreases events
  {
    if events == [] then text
    else
      var e := events[0];
      Replay(ApplyEvent(s, e), events[1..], id,
             if Judge(s.place, e) == Accept then Edited(text, EditFor(s, e, id)) else text)
  }

  /** No streamed text is lost or duplicated: each segment holds the fold of exactly what was aimed at it. */
  lemma {:induction false} TextConserved(s: View, events: seq<Event>, id: ItemId)
    requires s.timeline.Some? && id.SegmentId?
    ensures Fold(s, events).timeline.Some?
    ensures TextOf(Fold(s, events), id) == Replay(s, events, id, TextOf(s, id))
    decreases events
  {
    if events != [] {
      var e := events[0];
      TextStep(s.(place := Note(s.place, e)), e, id);
      TextConserved(ApplyEvent(s, e), events[1..], id);
    }
  }

  /** The active turn shows its current segments, and the segments after them are still empty. */
  ghost predicate CursorOk(s: View) {
    s.active.Some? && s.timeline.Some? && s.active.value.id.Some? ==>
      var t := s.active.value;
      && t.content == TextOf(s, SegmentId(t.id.value, Text, t.segment))
      && t.reasoning == TextOf(s, SegmentId(t.id.value, Reasoning, t.segment))
      && forall kind, n :: n > t.segment ==> TextOf(s, SegmentId(t.id.value, kind, n)) == ""
  }

  /** A turn may start when it has an id and none of its segments has any text yet. */
  ghost predicate FreshTurn(s: View, e: Event) {
    Judge(s.place, e) == Accept && !ForAgent(e) && e.body.TurnStarted? ==>
      e.turn.Some? && forall kind, n :: TextOf(s, SegmentId(e.turn.value, kind, n)) == ""
  }

  ghost predicate FreshTurns(s: View, events: seq<Event>)
    decreases events
  {
    events == [] || (FreshTurn(s, events[0]) && FreshTurns(ApplyEvent(s, events[0]), events[1..]))
  }

  /** For a turn with an id, freshness is exactly what its start needs. */
  lemma StartNeedsFreshTurn(s: View, e: Event)
    requires !ForAgent(e) && e.body.TurnStarted? && e.turn.Some? && s.timeline.Some?
    ensures CursorOk(ApplyAccepted(s, e)) <==> forall kind, n :: TextOf(s, SegmentId(e.turn.value, kind, n)) == ""
  {
    var s' := ApplyAccepted(s, e);
    var turn := e.turn.value;
    forall kind, n ensures TextOf(s', SegmentId(turn, kind, n)) == TextOf(s, SegmentId(turn, kind, n)) {
      TextStep(s, e, SegmentId(turn, kind, n));
    }
    if CursorOk(s') {
      forall kind: Kind, n: nat ensures TextOf(s, SegmentId(turn, kind, n)) == "" {
        assert kind == Text || kind == Reasoning;
        assert TextOf(s', SegmentId(turn, kind, n)) == TextOf(s, SegmentId(turn, kind, n));
      }
    }
  }

  /** How an event moves the turn in progress: it goes on to a new segment, or edits the current ones. */
  lemma ActiveStep(s: View, e: Event)
    requires ApplyAccepted(s, e).active.Some? && !(!ForAgent(e) && e.body.TurnStarted?)
    ensures s.active.Some? && ApplyAccepted(s, e).active.value.id == s.active.value.id
    ensures
      var t, t' := s.active.value, ApplyAccepted(s, e).active.value;
      if t'.segment == t.segment then
        && t'.content == Edited(t.content, EditFor(s, e, Cursor(s, e, Text)))
        && t'.reasoning == Edited(t.reasoning, EditFor(s, e, Cursor(s, e, Reasoning)))
      else t'.segment == t.segment + 1 && t'.content == "" && t'.reasoning == ""
  {
    hide Find, Upsert, UpsertAll, TextIn, HasText, FindAgent, FindTool, UpsertTool, Unqueue, DropItem, AnswerShown, EndTurn, Last;
    if !ForAgent(e) {
      match e.body
      case ToolEvent(_, _, _, _) =>
      case ReasoningDelta(_) =>
      case ContentDelta(_) =>
      case ContentFinal(_) =>
      case TurnEnded(_, _, _) => EndedTurn(s, e);
      case _ =>
    }
  }

  /** The events that begin a new model step: a tool being called, or the model starting a turn. */
  predicate BeginsStep(e: Event) {
    || (e.body.ToolEvent? && e.body.phase in {Planned, AwaitingApproval, Running})
    || (e.body.StatusChanged? && e.body.modelTurnStarted)
  }

  /** The cursor moves on exactly at the beginning of a model step, and only from a segment that has some text. */
  lemma CursorMovesExactly(s: View, e: Event)
    requires s.active.Some? && s.timeline.Some? && !ForAgent(e) && !e.body.TurnStarted? && !e.body.TurnEnded?
    ensures ApplyAccepted(s, e).active.Some?
    ensures ApplyAccepted(s, e).active.value.segment == s.active.value.segment
            + if BeginsStep(e) && (HasText(s.timeline.value, Cursor(s, e, Text)) || HasText(s.timeline.value, Cursor(s, e, Reasoning))) then 1 else 0
  {
    hide Find, Upsert, UpsertAll, TextIn, HasText, FindAgent, FindTool, UpsertTool, Unqueue, DropItem, AnswerShown, EndTurn, Last;
    match e.body
    case ToolEvent(_, _, _, _) =>
    case StatusChanged(_, _) =>
    case _ =>
  }

  lemma EndedTurn(s: View, e: Event)
    requires e.body.TurnEnded?
    ensures EndTurn(s, e).active.None?
  {
  }

  /** Only the two current segments are ever edited, and neither when the cursor moves on. */
  lemma EditsAtCursor(s: View, e: Event, id: ItemId)
    requires EditFor(s, e, id).Some?
    ensures s.active.Some? && (id == Cursor(s, e, Text) || id == Cursor(s, e, Reasoning))
    ensures ApplyAccepted(s, e).active.Some? && ApplyAccepted(s, e).active.value.segment == s.active.value.segment
  {
  }

  lemma CursorStep(s: View, e: Event)
    requires CursorOk(s)
    requires !ForAgent(e) && e.body.TurnStarted? ==>
      e.turn.Some? && forall kind, n :: TextOf(s, SegmentId(e.turn.value, kind, n)) == ""
    ensures CursorOk(ApplyAccepted(s, e))
  {
    hide ApplyAccepted, TextOf, EditFor, Edited;
    var s' := ApplyAccepted(s, e);
    if s'.timeline.Some? && s'.active.Some? && s'.active.value.id.Some? {
      StillTimeline(s, e);
      if !ForAgent(e) && e.body.TurnStarted? {
        StartNeedsFreshTurn(s, e);
      } else {
        ActiveStep(s, e);
        var turn := s'.active.value.id.value;
        var n := s.active.value.segment;
        CursorText(s, e, Text);
        CursorText(s, e, Reasoning);
        forall kind, m | m > s'.active.value.segment ensures TextOf(s', SegmentId(turn, kind, m)) == "" {
          LaterStaysEmpty(s, e, kind, m);
        }
        if s'.active.value.segment == n + 1 {
          LaterStaysEmpty(s, e, Text, n + 1);
          LaterStaysEmpty(s, e, Reasoning, n + 1);
        }
      }
    }
  }

  lemma StillTimeline(s: View, e: Event)
    ensures ApplyAccepted(s, e).timeline.Some? <==> s.timeline.Some?
  {
    if s.timeline.Some? {
      TextStep(s, e, SegmentId(e.id, Text, 0));
    }
  }

  lemma CursorText(s: View, e: Event, kind: Kind)
    requires s.timeline.Some?
    ensures TextOf(ApplyAccepted(s, e), Cursor(s, e, kind)) ==
      Edited(TextOf(s, Cursor(s, e, kind)), EditFor(s, e, Cursor(s, e, kind)))
  {
    TextStep(s, e, Cursor(s, e, kind));
  }

  lemma LaterStaysEmpty(s: View, e: Event, kind: Kind, n: nat)
    requires s.timeline.Some? && s.active.Some? && s.active.value.id.Some? && n > s.active.value.segment && CursorOk(s)
    ensures TextOf(ApplyAccepted(s, e), SegmentId(s.active.value.id.value, kind, n)) == ""
  {
    hide ApplyAccepted, TextOf, EditFor;
    var id := SegmentId(s.active.value.id.value, kind, n);
    TextStep(s, e, id);
    if EditFor(s, e, id).Some? {
      EditsAtCursor(s, e, id);
    }
  }

  /** With fresh turn ids the text shown for the turn in progress is always that of its current segment. */
  lemma {:induction false} CursorHolds(s: View, events: seq<Event>)
    requires CursorOk(s) && FreshTurns(s, events)
    ensures CursorOk(Fold(s, events))
    decreases events
  {
    if events != [] {
      var e := events[0];
      if Judge(s.place, e) == Accept {
        CursorStep(s.(place := Note(s.place, e)), e);
      }
      CursorHolds(ApplyEvent(s, e), events[1..]);
    }
  }

  /**
    The answer a finished turn leaves in the history is its last segment, and a completed turn has it on the
    timeline.
   */
  lemma AnswerKept(s: View, e: Event)
    requires CursorOk(s) && !ForAgent(e) && e.body.TurnEnded?
    requires s.active.Some? && s.active.value.id.Some? && s.timeline.Some? && s.active.value.content != ""
    ensures
      var t, s' := s.active.value, ApplyAccepted(s, e);
      && s'.active.None? && |s'.history| == |s.history| + 1 && s.history <= s'.history
      && s'.history[|s.history|].assistant == TextOf(s, SegmentId(t.id.value, Text, t.segment))
      && (e.body.outcome == TurnCompleted ==> AnswerShown(s'.timeline.value, t.id))
  {
    var items := s.timeline.value;
    if e.body.outcome == TurnCompleted && !AnswerShown(items, s.active.value.id) {
      var shown := ApplyAccepted(s, e).timeline.value;
      assert shown[|items|].assistantText;
    }
  }

  /** The cursor has moved past the n-th segment of a turn, or the turn is not in progress. */
  predicate MovedPast(s: View, turn: Name, n: nat) {
    s.active.Some? ==> s.active.value.id.Some? && (s.active.value.id.value == turn ==> n < s.active.value.segment)
  }

  lemma PastStep(s: View, e: Event, turn: Name, n: nat, kind: Kind)
    requires s.timeline.Some? && MovedPast(s, turn, n)
    requires !ForAgent(e) && e.body.TurnStarted? ==> e.turn.Some? && e.turn.value != turn
    ensures MovedPast(ApplyAccepted(s, e), turn, n)
    ensures TextOf(ApplyAccepted(s, e), SegmentId(turn, kind, n)) == TextOf(s, SegmentId(turn, kind, n))
  {
    hide ApplyAccepted, TextOf, EditFor;
    var id := SegmentId(turn, kind, n);
    TextStep(s, e, id);
    if EditFor(s, e, id).Some? {
      EditsAtCursor(s, e, id);
    }
    if ApplyAccepted(s, e).active.Some? {
      if !ForAgent(e) && e.body.TurnStarted? {
        StartedTurn(s, e);
      } else {
        ActiveStep(s, e);
      }
    }
  }

  lemma StartedTurn(s: View, e: Event)
    requires !ForAgent(e) && e.body.TurnStarted?
    ensures ApplyAccepted(s, e).active == Some(Turn(e.turn, e.body.runId, e.body.prompt, "", "", [], 0))
  {
  }

  /** Once the cursor has moved past a segment that holds something, no later event changes that segment. */
  lemma {:induction false} EarlierSegmentsStay(s: View, events: seq<Event>, turn: Name, n: nat, kind: Kind, other: Kind)
    requires s.timeline.Some? && MovedPast(s, turn, n) && FreshTurns(s, events)
    requires TextOf(s, SegmentId(turn, other, n)) != ""
    ensures TextOf(Fold(s, events), SegmentId(turn, kind, n)) == TextOf(s, SegmentId(turn, kind, n))
    decreases events
  {
    hide ApplyAccepted, TextOf, MovedPast;
    if events != [] {
      var e := events[0];
      PlaceIsNoText(s, e, turn, n);
      if Judge(s.place, e) == Accept {
        var t := s.(place := Note(s.place, e));
        StillTimeline(t, e);
        PastStep(t, e, turn, n, kind);
        PastStep(t, e, turn, n, other);
      }
      EarlierSegmentsStay(ApplyEvent(s, e), events[1..], turn, n, kind, other);
    }
  }

  lemma PlaceIsNoText(s: View, e: Event, turn: Name, n: nat)
    ensures forall id :: TextOf(s.(place := Note(s.place, e)), id) == TextOf(s, id)
    ensures forall id :: TextOf(s.(place := s.place.(resync := true)), id) == TextOf(s, id)
    ensures MovedPast(s.(place := Note(s.place, e)), turn, n) <==> MovedPast(s, turn, n)
    ensures MovedPast(s.(place := s.place.(resync := true)), turn, n) <==> MovedPast(s, turn, n)
  {
  }
}
