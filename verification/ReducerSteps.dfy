// What each event does to each part of the web view, read off the event alone.
module ReducerSteps {
  import opened Base
  import opened Reducer
  import ReducerProofs

  // ---- Which events count, and where they go

  /**
    An event counts exactly when it is the next one of this session and stream, with an id not seen before and
    no malformed status. Only then does the view move on, and it remembers the event's id as its newest.
   */
  lemma CountsExactly(s: View, e: Event)
    ensures ApplyEvent(s, e).place.lastSeq != s.place.lastSeq <==>
      && !s.place.resync && e.version == 2 && e.stream == s.place.stream && e.session == s.place.session
      && e.seq_ == s.place.lastSeq + 1 && e.id !in s.place.seen && (e.body.StatusChanged? ==> e.body.valid)
    ensures
      var p, p' := s.place, ApplyEvent(s, e).place;
      if p'.lastSeq != p.lastSeq then
        && p'.lastSeq == e.seq_ && !p'.resync && p'.stream == p.stream && p'.session == p.session
        && ApplyEvent(s, e) == ApplyAccepted(s.(place := p'), e)
      else ApplyEvent(s, e) == s.(place := p.(resync := p'.resync))
  {
  }

  /** An event of a subagent changes the subagents alone, unless it is about an interaction. */
  lemma SubagentsApart(s: View, e: Event)
    ensures e.child.Some? && !e.body.InteractionRequested? && !e.body.InteractionResolved? ==>
      ApplyAccepted(s, e) == s.(agents := ApplyAccepted(s, e).agents)
    ensures e.child.None? || e.body.InteractionRequested? || e.body.InteractionResolved? ==>
      ApplyAccepted(s, e) == ApplyBody(s, e) && ApplyBody(s, e).agents == s.agents
  {
    hide FindAgent, UpsertTool, Find, Upsert, UpsertAll, DropItem, Unqueue, Last;
  }

  /**
    A subagent keeps its place and its depth, a new one comes last, and it is finished once it has said its
    last. Its tool calls are those of its own events.
   */
  lemma SubagentStep(s: View, e: Event, child: Child) returns (i: nat)
    ensures
      var agents := ApplyAgent(s, e, child).agents;
      && i <= |s.agents| && |agents| == (if i < |s.agents| then |s.agents| else |s.agents| + 1)
      && (forall j :: 0 <= j < i ==> s.agents[j].task != child.taskId)
      && (forall j :: 0 <= j < |s.agents| && j != i ==> agents[j] == s.agents[j])
      && agents[i].task == child.taskId
      && (if i < |s.agents| then s.agents[i].task == child.taskId && agents[i].depth == s.agents[i].depth
          else agents[i].depth == child.depth)
      && (agents[i].finished <==> e.body.ContentFinal? || (i < |s.agents| && s.agents[i].finished))
      && agents[i].tools ==
         var before := if i < |s.agents| then s.agents[i].tools else [];
         if e.body.ToolEvent? then UpsertTool(before, e.body) else before
  {
    hide UpsertTool;
    i := FindAgent(s.agents, child.taskId);
  }

  // ---- The turn in progress

  /** Who an item belongs to: the turn in progress, else the turn the event names, else the event itself. */
  lemma KeyIs(s: View, e: Event)
    ensures s.active.Some? && s.active.value.id.Some? ==> Some(TurnKey(s, e)) == s.active.value.id
    ensures (s.active.None? || s.active.value.id.None?) && e.turn.Some? ==> Some(TurnKey(s, e)) == e.turn
    ensures (s.active.None? || s.active.value.id.None?) && e.turn.None? ==> TurnKey(s, e) == e.id
  {
  }

  /** Only a start makes a turn active and only an end takes it away; either needs no timeline. */
  lemma TurnComesAndGoes(s: View, e: Event)
    ensures ApplyBody(s, e).active.Some? <==> e.body.TurnStarted? || (s.active.Some? && !e.body.TurnEnded?)
    ensures e.body.TurnStarted? ==>
      var t := ApplyBody(s, e).active.value;
      && t.id == e.turn && t.run == e.body.runId && t.prompt == e.body.prompt
      && t.reasoning == "" && t.content == "" && t.tools == [] && t.segment == 0
    ensures s.active.Some? && ApplyBody(s, e).active.Some? && !e.body.TurnStarted? ==>
      var t, t' := s.active.value, ApplyBody(s, e).active.value;
      && t'.id == t.id && t'.run == t.run && t'.prompt == t.prompt
      && t'.tools == (if e.body.ToolEvent? then UpsertTool(t.tools, e.body) else t.tools)
      && (match e.body
          case ContentDelta(piece) => t' == t.(content := t.content + piece)
          case ContentFinal(content) => t' == t.(content := content)
          case ReasoningDelta(piece) => t' == t.(reasoning := t.reasoning + piece)
          case ToolEvent(phase, _, _, _) =>
            phase !in {Planned, AwaitingApproval, Running} ==> t' == t.(tools := t'.tools)
          case StatusChanged(_, started) => !started ==> t' == t
          case _ => t' == t)
  {
    hide Find, Upsert, UpsertAll, TextIn, FindTool, UpsertTool, Unqueue, DropItem, AnswerShown, Last, HasText;
  }

  /**
    At a new model step the turn goes on to its next segment, with empty texts, exactly when one of the two
    current segments has a text on the timeline.
   */
  lemma NextSegment(s: View, e: Event)
    requires s.active.Some?
    requires match e.body
             case ToolEvent(phase, _, _, _) => phase in {Planned, AwaitingApproval, Running}
             case StatusChanged(_, started) => started
             case _ => false
    ensures
      var t, t', key := s.active.value, ApplyBody(s, e).active.value, TurnKey(s, e);
      && ApplyBody(s, e).active.Some?
      && if s.timeline.Some?
            && exists i :: 0 <= i < |s.timeline.value| && s.timeline.value[i].text != ""
                 && (s.timeline.value[i].id == SegmentId(key, Text, t.segment)
                     || s.timeline.value[i].id == SegmentId(key, Reasoning, t.segment))
         then t'.segment == t.segment + 1 && t'.content == "" && t'.reasoning == ""
         else t'.segment == t.segment && t'.content == t.content && t'.reasoning == t.reasoning
  {
    hide Find, Upsert, TextIn, FindTool, UpsertTool;
    if s.timeline.Some? {
      OpenSegment(s, e);
    }
  }

  lemma OpenSegment(s: View, e: Event)
    requires s.active.Some? && s.timeline.Some?
    ensures
      var items, key, n := s.timeline.value, TurnKey(s, e), s.active.value.segment;
      HasText(items, Cursor(s, e, Text)) || HasText(items, Cursor(s, e, Reasoning)) <==>
      exists i :: 0 <= i < |items| && items[i].text != ""
        && (items[i].id == SegmentId(key, Text, n) || items[i].id == SegmentId(key, Reasoning, n))
  {
  }

  /**
    What a tool event makes of a call: output is appended and leaves the phase alone, every other event sets
    the phase, and a name once known stays.
   */
  ghost predicate Makes(before: Tool, b: Body, after: Tool)
    requires b.ToolEvent?
  {
    && after.call == b.callId
    && after.phase == (if b.phase == Output then before.phase else Some(b.phase))
    && after.name == (if b.name.Some? then b.name else before.name)
    && (b.output.None? ==> after.output == before.output)
    && (b.output.Some? && before.output.None? ==> after.output == b.output)
    && (b.output.Some? && before.output.Some? ==> after.output == Some(before.output.value + b.output.value))
  }

  lemma UpdatedMakes(before: Tool, b: Body)
    requires b.ToolEvent?
    ensures Makes(before, b, Updated(before, b))
  {
    if b.output.Some? {
      assert "" + b.output.value == b.output.value;
    }
  }

  /** A tool event updates the first call with its id, or adds one at the end. */
  lemma ToolStepExactly(tools: seq<Tool>, b: Body) returns (i: nat)
    requires b.ToolEvent?
    ensures
      var r := UpsertTool(tools, b);
      && i <= |tools| && |r| == (if i < |tools| then |tools| else |tools| + 1)
      && (forall j :: 0 <= j < i ==> tools[j].call != b.callId) && (i < |tools| ==> tools[i].call == b.callId)
      && (forall j :: 0 <= j < |tools| && j != i ==> r[j] == tools[j])
      && Makes(if i < |tools| then tools[i] else Tool(b.callId, None, None, None), b, r[i])
  {
    i := FindTool(tools, b.callId);
    hide Makes, Updated;
    UpdatedMakes(if i < |tools| then tools[i] else Tool(b.callId, None, None, None), b);
  }

  // ---- Queue and notices

  /** Taking a command out works member by member, so the others keep their order. */
  lemma {:induction false} UnqueueInOrder(a: seq<Queued>, b: seq<Queued>, id: Name)
    ensures Unqueue(a + b, id) == Unqueue(a, id) + Unqueue(b, id)
    decreases a
  {
    if a == [] {
      assert a + b == b;
    } else {
      assert (a + b)[1..] == a[1..] + b;
      UnqueueInOrder(a[1..], b, id);
      Associate([a[0]], Unqueue(a[1..], id), Unqueue(b, id));
    }
  }

  lemma UnqueueOne(x: Queued, id: Name)
    ensures Unqueue([x], id) == if x.commandId == id then [] else [x]
  {
    assert [x][1..] == [];
  }

  lemma Associate<T>(a: seq<T>, b: seq<T>, c: seq<T>)
    ensures a + (b + c) == (a + b) + c
  {
  }

  /** The same for an item that leaves the timeline. */
  lemma {:induction false} DropInOrder(a: seq<Item>, b: seq<Item>, id: ItemId)
    ensures DropItem(a + b, id) == DropItem(a, id) + DropItem(b, id)
    decreases a
  {
    if a == [] {
      assert a + b == b;
    } else {
      assert (a + b)[1..] == a[1..] + b;
      DropInOrder(a[1..], b, id);
      Associate([a[0]], DropItem(a[1..], id), DropItem(b, id));
    }
  }

  lemma DropOne(x: Item, id: ItemId)
    ensures DropItem([x], id) == if x.id == id then [] else [x]
  {
    assert [x][1..] == [];
  }

  /**
    The queue is first come, first served: an accepted command goes last, and a command leaves when its turn
    starts, when it is cancelled or when it is rejected.
   */
  lemma QueueOrder(s: View, e: Event)
    ensures ApplyBody(s, e).queued ==
      match e.body
      case CommandAccepted(Submit(waits, duplicate, id, prompt)) =>
        if waits && !duplicate && forall i :: 0 <= i < |s.queued| ==> s.queued[i].commandId != id
        then s.queued + [Queued(id, prompt)] else s.queued
      case CommandAccepted(CancelAll) => []
      case CommandAccepted(CancelQueued(id)) => Unqueue(s.queued, id)
      case TurnStarted(_, id, _) => Unqueue(s.queued, id)
      case CommandRejected(Submit(_, _, id, _)) => Unqueue(s.queued, id)
      case _ => s.queued
  {
    hide Find, Upsert, UpsertAll, TextIn, UpsertTool, DropItem, AnswerShown, Last, HasText;
  }

  /** The notices that an event raises. */
  function Raised(s: View, e: Event): seq<Name> {
    match e.body
    case CommandRejected(_) => [e.id]
    case Notice => [e.id]
    case TurnEnded(TurnFailed, _, _) => if s.timeline.None? then [e.id] else []
    case TurnEnded(TurnCancelled, _, _) => if s.timeline.None? then [e.id] else []
    case _ => []
  }

  /** The notices before and those of this event, if it counts; a new turn starts without any. */
  function WithNotices(s: View, e: Event, sofar: seq<Name>): seq<Name> {
    if Judge(s.place, e) != Accept || (e.child.Some? && !e.body.InteractionRequested? && !e.body.InteractionResolved?)
    then sofar
    else (if e.body.TurnStarted? then [] else sofar) + Raised(s, e)
  }

  /** All notices since the last turn started, as if there were no limit. */
  function AllNotices(s: View, events: seq<Event>, sofar: seq<Name>): seq<Name>
    decreases events
  {
    if events == [] then sofar
    else
      var e := events[0];
      AllNotices(ApplyEvent(s, e), events[1..], WithNotices(s, e, sofar))
  }

  /** r is the newest part of s, up to a limit. */
  ghost predicate Newest<T>(r: seq<T>, s: seq<T>, limit: nat) {
    |r| == (if |s| < limit then |s| else limit) && r == s[|s| - |r|..]
  }

  lemma NewestStays<T>(r: seq<T>, s: seq<T>, x: T, limit: nat)
    requires Newest(r, s, limit) && limit > 0
    ensures Newest(Last(r + [x], limit), s + [x], limit)
    ensures Newest(Last(r, limit - 1) + [x], s + [x], limit)
  {
  }

  lemma NothingIsNewest()
    ensures Newest<Name>([], [], 50)
  {
  }

  lemma NoticesAre(s: View, e: Event)
    ensures ApplyBody(s, e).notices ==
      if e.body.TurnStarted? then [] else if Raised(s, e) == [] then s.notices else Last(s.notices + [e.id], 50)
    ensures e.body.TurnStarted? ==> Raised(s, e) == []
    ensures Raised(s, e) == [] || Raised(s, e) == [e.id]
  {
    hide Find, Upsert, UpsertAll, TextIn, UpsertTool, DropItem, AnswerShown, Last, HasText;
  }

  lemma NoticesStep(s: View, e: Event, sofar: seq<Name>)
    requires Newest(s.notices, sofar, 50)
    ensures Newest(ApplyBody(s, e).notices, (if e.body.TurnStarted? then [] else sofar) + Raised(s, e), 50)
  {
    NoticesAre(s, e);
    NewestStays(s.notices, sofar, e.id, 50);
    NothingIsNewest();
    hide Newest, ApplyBody, Last;
    assert sofar + [] == sofar;
    assert forall x: seq<Name> {:trigger [] + x} :: [] + x == x;
  }

  /** However many arrive, the notices shown are the newest 50 since the last turn started. */
  lemma {:induction false} NoticesAreNewest(s: View, events: seq<Event>, sofar: seq<Name>)
    requires Newest(s.notices, sofar, 50)
    ensures Newest(Fold(s, events).notices, AllNotices(s, events, sofar), 50)
    decreases events
  {
    hide Newest, ApplyEvent, WithNotices;
    if events != [] {
      EventNotices(s, events[0], sofar);
      NoticesAreNewest(ApplyEvent(s, events[0]), events[1..], WithNotices(s, events[0], sofar));
    }
  }

  lemma EventNotices(s: View, e: Event, sofar: seq<Name>)
    requires Newest(s.notices, sofar, 50)
    ensures Newest(ApplyEvent(s, e).notices, WithNotices(s, e, sofar), 50)
  {
    hide Newest, ApplyBody, ApplyAccepted, Note;
    var t := s.(place := Note(s.place, e));
    SubagentsApart(t, e);
    NoticesStep(t, e, sofar);
  }

  /** The ids of the events that count. */
  function Counted(s: View, events: seq<Event>): seq<Name>
    decreases events
  {
    if events == [] then []
    else
      var rest := Counted(ApplyEvent(s, events[0]), events[1..]);
      if ApplyEvent(s, events[0]).place.lastSeq == s.place.lastSeq then rest else [events[0].id] + rest
  }

  /** The view remembers the newest 2000 ids of those that counted. */
  lemma {:induction false} SeenAreNewest(s: View, events: seq<Event>, sofar: seq<Name>)
    requires Newest(s.place.seen, sofar, 2000)
    ensures Newest(Fold(s, events).place.seen, sofar + Counted(s, events), 2000)
    decreases events
  {
    hide Newest, ApplyEvent;
    if events == [] {
      assert sofar + [] == sofar;
    } else {
      var t, id := ApplyEvent(s, events[0]), [events[0].id];
      SeenStep(s, events[0], sofar);
      if t.place.lastSeq == s.place.lastSeq {
        SeenAreNewest(t, events[1..], sofar);
      } else {
        SeenAreNewest(t, events[1..], sofar + id);
        assert sofar + id + Counted(t, events[1..]) == sofar + (id + Counted(t, events[1..]));
      }
    }
  }

  lemma SeenStep(s: View, e: Event, sofar: seq<Name>)
    requires Newest(s.place.seen, sofar, 2000)
    ensures
      var p := ApplyEvent(s, e).place;
      Newest(p.seen, if p.lastSeq != s.place.lastSeq then sofar + [e.id] else sofar, 2000)
  {
    hide Newest, Last, ApplyAccepted;
    NewestStays(s.place.seen, sofar, e.id, 2000);
    ReducerProofs.AcceptedKeepsPlace(s.(place := Note(s.place, e)), e);
  }

  // ---- History and timeline

  /**
    An ended turn leaves one entry at the end of the history: its prompt, and its text or what became of it.
    Without a turn in progress, and at any other event, the history stays as it was.
   */
  lemma HistoryStep(s: View, e: Event)
    ensures ApplyBody(s, e).history ==
      if !e.body.TurnEnded? || s.active.None? then s.history
      else
        var t := s.active.value;
        s.history + [Past(e.turn, e.body.outcome, t.prompt,
                          if t.content != "" then t.content
                          else match e.body.outcome
                               case TurnCompleted => ""
                               case TurnCancelled => "Turn cancelled."
                               case TurnFailed => "Turn failed: " + e.body.error)]
  {
    hide Find, Upsert, UpsertAll, TextIn, UpsertTool, Unqueue, DropItem, AnswerShown, Last, HasText;
  }

  /** r is t with the first item of this id replaced, or with the item behind when there is none. */
  ghost predicate Puts(r: seq<Item>, t: seq<Item>, item: Item, i: nat) {
    && i <= |t| && (forall j :: 0 <= j < i ==> t[j].id != item.id)
    && if i < |t| then t[i].id == item.id && r == t[i := item] else r == t + [item]
  }

  /** A piece of text or reasoning is put into its segment's item; only an empty piece makes no item. */
  lemma SegmentItem(s: View, e: Event) returns (i: nat)
    requires s.active.Some? && s.timeline.Some?
    requires e.body.ReasoningDelta? || e.body.ContentDelta? || e.body.ContentFinal?
    ensures
      var t, key := s.timeline.value, TurnKey(s, e);
      var id := SegmentId(key, if e.body.ReasoningDelta? then Reasoning else Text, s.active.value.segment);
      var before := if i < |t| then t[i].text else "";
      var text := match e.body
                  case ReasoningDelta(piece) => before + piece
                  case ContentDelta(piece) => before + piece
                  case ContentFinal(content) => content;
      var r := ApplyBody(s, e).timeline;
      && r.Some?
      && i <= |t| && (forall j :: 0 <= j < i ==> t[j].id != id)
      && if i == |t| && text == "" then r.value == t
         else Puts(r.value, t, Item(id, Some(key), !e.body.ReasoningDelta?, text, None), i)
  {
    hide HasText;
    i := Find(s.timeline.value, Cursor(s, e, if e.body.ReasoningDelta? then Reasoning else Text));
  }

  /** The timeline r with the item of the event's call updated. */
  ghost predicate ToolAt(t: seq<Item>, b: Body, r: seq<Item>, i: nat)
    requires b.ToolEvent? && b.callId.Some?
  {
    && i < |r| && r[i].tool.Some? && r[i].id == ToolId(b.callId.value) && Puts(r, t, r[i], i)
    && (i < |t| ==> r[i] == t[i].(tool := r[i].tool))
    && Makes(if i < |t| && t[i].tool.Some? then t[i].tool.value else Tool(b.callId, None, None, None), b,
             r[i].tool.value)
  }

  lemma ToolItemIs(s: View, e: Event) returns (i: nat)
    requires e.body.ToolEvent? && s.timeline.Some? && e.body.callId.Some?
    ensures ToolItem(s, e).timeline.Some? && ToolAt(s.timeline.value, e.body, ToolItem(s, e).timeline.value, i)
  {
    hide Makes, Updated;
    var t := s.timeline.value;
    i := Find(t, ToolId(e.body.callId.value));
    UpdatedMakes(if i < |t| && t[i].tool.Some? then t[i].tool.value else Tool(e.body.callId, None, None, None), e.body);
  }

  /** A tool event updates its call's own item, whether or not a turn is in progress. */
  lemma ToolOnTimeline(s: View, e: Event) returns (i: nat)
    requires e.body.ToolEvent? && s.timeline.Some? && e.body.callId.Some?
    ensures
      var r := ApplyBody(s, e).timeline;
      r.Some? && ToolAt(s.timeline.value, e.body, r.value, i)
  {
    hide HasText, UpsertTool, ToolAt, ToolItem;
    i := ToolItemIs(ToolStep(s, e), e);
  }

  /**
    Everything else on the timeline: the prompt of a new turn, the answer and the fate of an ended one, and an
    answer that comes without a turn go to the end, and a resolved approval leaves.
   */
  lemma TimelineStep(s: View, e: Event)
    requires s.timeline.Some? && !(e.body.ToolEvent? && e.body.callId.Some?)
    requires s.active.None? || !(e.body.ReasoningDelta? || e.body.ContentDelta? || e.body.ContentFinal?)
    ensures
      var t, r := s.timeline.value, ApplyBody(s, e).timeline;
      && r.Some?
      && match e.body
         case TurnStarted(_, _, prompt) =>
           r.value == t + [Item(UserId(if e.turn.Some? then e.turn.value else e.id), e.turn, false, prompt, None)]
         case InteractionResolved(request) => r.value == DropItem(t, ApprovalId(request))
         case ContentFinal(content) =>
           var item := Item(AnswerId(if e.turn.Some? then e.turn.value else e.id), e.turn, true, content, None);
           if forall i :: 0 <= i < |t| ==> t[i].id != item.id then r.value == t + [item]
           else |r.value| == |t| && forall i :: 0 <= i < |t| ==> r.value[i] == if t[i].id == item.id then item else t[i]
         case TurnEnded(_, _, _) => EndsOnTimeline(s, e, r.value)
         case _ => r.value == t
  {
    hide TextIn, Unqueue, Last, HasText, Upsert;
    if e.body.TurnEnded? {
      EndTurnIs(s, e);
    }
  }

  /** A view without a timeline never gets one. */
  lemma NoTimeline(s: View, e: Event)
    ensures ApplyAccepted(s, e).timeline.None? <==> s.timeline.None?
  {
    hide Find, UpsertTool, Unqueue, DropItem, HasText, TextIn, Upsert, UpsertAll, AnswerShown, Last, FindAgent;
  }

  /** The timeline of a turn that has ended: its answer if no text of it is shown, then what became of it. */
  ghost predicate EndsOnTimeline(s: View, e: Event, r: seq<Item>)
    requires s.timeline.Some? && e.body.TurnEnded?
  {
    var t := s.timeline.value;
    var turn := if s.active.Some? && s.active.value.id.Some? then s.active.value.id else e.turn;
    var key := if turn.Some? then turn.value else e.id;
    var answered := s.active.None? || s.active.value.content == ""
                    || exists i :: 0 <= i < |t| && t[i].assistantText && t[i].turn == turn;
    var shown := if answered then t else t + [Item(AnswerId(key), turn, true, s.active.value.content, None)];
    var run := if e.body.endRun.Some? then e.body.endRun.value
               else if s.active.Some? && s.active.value.run.Some? then s.active.value.run.value else key;
    match e.body.outcome
    case TurnCompleted => r == shown
    case TurnFailed => r == DropItem(shown, StatusId(run)) + [Item(StatusId(run), turn, false, e.body.error, None)]
    case TurnCancelled => r == DropItem(shown, StatusId(run)) + [Item(StatusId(run), turn, false, "", None)]
  }

  lemma EndTurnIs(s: View, e: Event)
    requires s.timeline.Some? && e.body.TurnEnded?
    ensures EndTurn(s, e).timeline.Some? && EndsOnTimeline(s, e, EndTurn(s, e).timeline.value)
  {
    hide DropItem;
  }
}
