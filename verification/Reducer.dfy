// The web view as a fold over an event stream (web/src/reducer.ts).
//
// Identifiers are compared only for equality. A turn id or run id that is missing or
// empty is None. Timeline ids are kept as structured values, so ids of different
// kinds never coincide. Parts of the view that no property mentions (plan, usage, session
// status, policy revision, open interactions, attachments) are left out.
module Reducer {
  import opened Base

  type Name(==, !new)

  const SEEN_LIMIT := 2000
  const NOTICE_LIMIT := 50

  // ---- Events

  datatype Kind = Text | Reasoning
  datatype Phase = Planned | AwaitingApproval | Running | Output | Succeeded | Failed | OtherPhase(Name)
  datatype Outcome = TurnCompleted | TurnFailed | TurnCancelled

  datatype Command =
    | Submit(queued: bool, duplicate: bool, commandId: Name, prompt: string)
    | CancelQueued(target: Name)
    | CancelAll
    | OtherCommand

  datatype Body =
    | TurnStarted(runId: Option<Name>, commandId: Name, prompt: string)
    | ReasoningDelta(piece: string)
    | ContentDelta(piece: string)
    | ContentFinal(content: string)
    | ToolEvent(phase: Phase, callId: Option<Name>, name: Option<Name>, output: Option<string>)
    | TurnEnded(outcome: Outcome, endRun: Option<Name>, error: string)
    | InteractionRequested(requestId: Name)
    | InteractionResolved(requestId: Name)
    | CommandAccepted(command: Command)
    | CommandRejected(command: Command)
    | Notice
    | StatusChanged(valid: bool, modelTurnStarted: bool)
    | Unrelated

  /** The agent task that an event of a subagent belongs to. */
  datatype Child = Child(taskId: Name, depth: int)

  datatype Event = Event(version: int, stream: Name, session: Name, seq_: int, id: Name, turn: Option<Name>,
                         child: Option<Child>, body: Body)

  // ---- The view

  datatype ItemId =
    | SegmentId(turn: Name, kind: Kind, index: nat)
    | UserId(turn: Name)
    | AnswerId(turn: Name)
    | StatusId(run: Name)
    | ToolId(call: Name)
    | ApprovalId(request: Name)

  datatype Tool = Tool(call: Option<Name>, name: Option<Name>, phase: Option<Phase>, output: Option<string>)
  datatype Item = Item(id: ItemId, turn: Option<Name>, assistantText: bool, text: string, tool: Option<Tool>)
  datatype Turn = Turn(id: Option<Name>, run: Option<Name>, prompt: string, reasoning: string, content: string,
                       tools: seq<Tool>, segment: nat)
  datatype Past = Past(turn: Option<Name>, outcome: Outcome, user: string, assistant: string)
  datatype Agent = Agent(task: Name, depth: int, content: string, finished: bool, tools: seq<Tool>)
  datatype Queued = Queued(commandId: Name, prompt: string)

  /** Where the view stands in its stream, and whether it has lost its place. */
  datatype Place = Place(stream: Name, session: Name, resync: bool, lastSeq: int, seen: seq<Name>)

  datatype View = View(
    place: Place,
    active: Option<Turn>, timeline: Option<seq<Item>>, history: seq<Past>,
    queued: seq<Queued>, queueDepth: int, notices: seq<Name>,
    agents: seq<Agent>)

  // ---- Small pieces

  function Last<T>(s: seq<T>, n: nat): seq<T> {
    if |s| <= n then s else s[|s| - n..]
  }

  function Or(a: Option<Name>, b: Option<Name>): Option<Name> {
    if a.Some? then a else b
  }

  function GetOr(a: Option<Name>, b: Name): Name {
    if a.Some? then a.value else b
  }

  /** The first place where p holds, or the length when there is none. */
  function FirstWhere<T>(s: seq<T>, p: T -> bool): (i: nat)
    ensures i <= |s| && (i < |s| ==> p(s[i]))
    ensures forall j :: 0 <= j < i ==> !p(s[j])
    decreases s
  {
    if s == [] || p(s[0]) then 0 else 1 + FirstWhere(s[1..], p)
  }

  function Find(items: seq<Item>, id: ItemId): (i: nat)
    ensures i <= |items|
    ensures i < |items| ==> items[i].id == id
    ensures forall j :: 0 <= j < i ==> items[j].id != id
  {
    FirstWhere(items, (x: Item) => x.id == id)
  }

  /** Replace the first item with this id, or add one at the end. */
  function Upsert(items: seq<Item>, item: Item): seq<Item> {
    var i := Find(items, item.id);
    if i < |items| then items[i := item] else items + [item]
  }

  function DropItem(items: seq<Item>, id: ItemId): seq<Item>
    decreases items
  {
    if items == [] then []
    else if items[0].id == id then DropItem(items[1..], id)
    else [items[0]] + DropItem(items[1..], id)
  }

  function TextIn(items: seq<Item>, id: ItemId): string {
    var i := Find(items, id);
    if i < |items| then items[i].text else ""
  }

  /** The text of a segment, empty when it has no item. */
  function TextOf(s: View, id: ItemId): string {
    if s.timeline.Some? then TextIn(s.timeline.value, id) else ""
  }

  function FindTool(tools: seq<Tool>, call: Option<Name>): (i: nat)
    ensures i <= |tools|
    ensures i < |tools| ==> tools[i].call == call
    ensures forall j :: 0 <= j < i ==> tools[j].call != call
  {
    FirstWhere(tools, (x: Tool) => x.call == call)
  }

  /** Output pieces are appended; an event without output keeps what there was. */
  function AddOutput(previous: Option<string>, piece: Option<string>): Option<string> {
    match piece
    case None => previous
    case Some(text) => Some((if previous.Some? then previous.value else "") + text)
  }

  /** The tool an event updates; an output event leaves the phase alone. */
  function Updated(previous: Tool, b: Body): Tool
    requires b.ToolEvent?
  {
    Tool(b.callId, Or(b.name, previous.name), if b.phase == Output then previous.phase else Some(b.phase),
         AddOutput(previous.output, b.output))
  }

  function UpsertTool(tools: seq<Tool>, b: Body): seq<Tool>
    requires b.ToolEvent?
  {
    var i := FindTool(tools, b.callId);
    if i < |tools| then tools[i := Updated(tools[i], b)]
    else tools + [Updated(Tool(b.callId, None, None, None), b)]
  }

  function AddNotice(s: View, e: Event): View {
    s.(notices := Last(s.notices + [e.id], NOTICE_LIMIT))
  }

  function Unqueue(queued: seq<Queued>, id: Name): seq<Queued>
    decreases queued
  {
    if queued == [] then []
    else if queued[0].commandId == id then Unqueue(queued[1..], id)
    else [queued[0]] + Unqueue(queued[1..], id)
  }

  function SetQueue(s: View, queued: seq<Queued>): View {
    s.(queued := queued, queueDepth := |queued|)
  }

  // ---- Segments

  datatype Edit = Append(piece: string) | Replace(content: string) {
    function Apply(previous: string): string {
      match this
      case Append(piece) => previous + piece
      case Replace(content) => content
    }
  }

  function TurnKey(s: View, e: Event): Name {
    GetOr(Or(if s.active.Some? then s.active.value.id else None, e.turn), e.id)
  }

  /** Where the next piece of text or reasoning goes. */
  function Cursor(s: View, e: Event, kind: Kind): ItemId {
    SegmentId(TurnKey(s, e), kind, if s.active.Some? then s.active.value.segment else 0)
  }

  function UpsertSegment(s: View, e: Event, edit: Edit, kind: Kind): View {
    if s.timeline.None? then s
    else
      var items := s.timeline.value;
      var id := Cursor(s, e, kind);
      var text := edit.Apply(TextIn(items, id));
      if Find(items, id) == |items| && text == "" then s
      else s.(timeline := Some(Upsert(items, Item(id, Some(TurnKey(s, e)), kind == Text, text, None))))
  }

  predicate HasText(items: seq<Item>, id: ItemId) {
    exists i :: 0 <= i < |items| && items[i].id == id && items[i].text != ""
  }

  /** Move on to the next segment if the current one has any text. */
  function CloseSegment(s: View, e: Event): View {
    if s.active.None? || s.timeline.None? then s
    else if HasText(s.timeline.value, Cursor(s, e, Text)) || HasText(s.timeline.value, Cursor(s, e, Reasoning)) then
      var t := s.active.value;
      s.(active := Some(t.(segment := t.segment + 1, content := "", reasoning := "")))
    else s
  }

  // ---- One event

  function FindAgent(agents: seq<Agent>, task: Name): (i: nat)
    ensures i <= |agents|
    ensures i < |agents| ==> agents[i].task == task
    ensures forall j :: 0 <= j < i ==> agents[j].task != task
  {
    FirstWhere(agents, (x: Agent) => x.task == task)
  }

  function ApplyAgent(s: View, e: Event, child: Child): View {
    var i := FindAgent(s.agents, child.taskId);
    var current := if i < |s.agents| then s.agents[i] else Agent(child.taskId, child.depth, "", false, []);
    var next := match e.body
      case ContentDelta(piece) => current.(content := current.content + piece)
      case ContentFinal(content) => current.(content := content, finished := true)
      case ToolEvent(_, _, _, _) => current.(tools := UpsertTool(current.tools, e.body))
      case _ => current;
    s.(agents := if i < |s.agents| then s.agents[i := next] else s.agents + [next])
  }

  function StartTurn(s: View, e: Event): View
    requires e.body.TurnStarted?
  {
    var turn := Turn(e.turn, e.body.runId, e.body.prompt, "", "", [], 0);
    var s1 := s.(active := Some(turn), notices := []);
    var s2 := if s.timeline.None? then s1
              else s1.(timeline := Some(s.timeline.value + [Item(UserId(GetOr(e.turn, e.id)), e.turn, false, e.body.prompt, None)]));
    SetQueue(s2, Unqueue(s2.queued, e.body.commandId))
  }

  predicate AnswerShown(items: seq<Item>, turn: Option<Name>) {
    exists i :: 0 <= i < |items| && items[i].assistantText && items[i].turn == turn
  }

  function EndTurn(s: View, e: Event): View
    requires e.body.TurnEnded?
  {
    var turn := Or(if s.active.Some? then s.active.value.id else None, e.turn);
    var finished := if s.active.Some? then s.active.value.content else "";
    var fallback := match e.body.outcome
      case TurnCompleted => ""
      case TurnFailed => "Turn failed: " + e.body.error
      case TurnCancelled => "Turn cancelled.";
    var history := if s.active.None? then s.history
      else s.history + [Past(e.turn, e.body.outcome, s.active.value.prompt, if finished != "" then finished else fallback)];
    var run := Or(e.body.endRun, if s.active.Some? then s.active.value.run else None);
    var timeline := match s.timeline
      case None => None
      case Some(items) =>
        var shown := if finished != "" && !AnswerShown(items, turn)
          then items + [Item(AnswerId(GetOr(turn, e.id)), turn, true, finished, None)] else items;
        if e.body.outcome == TurnCompleted then Some(shown)
        else
          var id := StatusId(GetOr(Or(run, turn), e.id));
          Some(DropItem(shown, id) + [Item(id, turn, false, if e.body.outcome == TurnFailed then e.body.error else "", None)]);
    var ended := s.(history := history, timeline := timeline, active := None);
    if e.body.outcome != TurnCompleted && s.timeline.None? then AddNotice(ended, e) else ended
  }

  function AcceptCommand(s: View, command: Command): View {
    match command
    case Submit(queued, duplicate, id, prompt) =>
      if !queued || duplicate then s
      else if exists i :: 0 <= i < |s.queued| && s.queued[i].commandId == id then SetQueue(s, s.queued)
      else SetQueue(s, s.queued + [Queued(id, prompt)])
    case CancelQueued(target) => SetQueue(s, Unqueue(s.queued, target))
    case CancelAll => SetQueue(s, [])
    case OtherCommand => s
  }

  function ToolStep(s: View, e: Event): View
    requires e.body.ToolEvent?
  {
    if s.active.None? then s
    else
      var closed := if e.body.phase in {Planned, AwaitingApproval, Running} then CloseSegment(s, e) else s;
      var t := closed.active.value;
      closed.(active := Some(t.(tools := UpsertTool(t.tools, e.body))))
  }

  /** The tool's own timeline item, kept whether or not a turn is active. */
  function ToolItem(s: View, e: Event): View
    requires e.body.ToolEvent?
  {
    if s.timeline.None? || e.body.callId.None? then s
    else
      var items := s.timeline.value;
      var id := ToolId(e.body.callId.value);
      var i := Find(items, id);
      var previous := if i < |items| then items[i] else Item(id, None, false, "", None);
      var tool := if previous.tool.Some? then previous.tool.value else Tool(e.body.callId, None, None, None);
      s.(timeline := Some(Upsert(items, previous.(tool := Some(Updated(tool, e.body))))))
  }

  /** A final text without an active turn gets an item of its own. */
  function LateAnswer(s: View, e: Event): View
    requires e.body.ContentFinal?
  {
    if s.timeline.None? then s
    else s.(timeline := Some(UpsertAll(s.timeline.value,
              Item(AnswerId(GetOr(e.turn, e.id)), e.turn, true, e.body.content, None))))
  }

  /** Replace every item with this id, or add one at the end. */
  function UpsertAll(items: seq<Item>, item: Item): seq<Item> {
    if Find(items, item.id) == |items| then items + [item]
    else seq(|items|, i requires 0 <= i < |items| => if items[i].id == item.id then item else items[i])
  }

  function ApplyBody(s: View, e: Event): View {
    match e.body
    case TurnStarted(_, _, _) => StartTurn(s, e)
    case ReasoningDelta(piece) =>
      if s.active.None? then s
      else UpsertSegment(s.(active := Some(s.active.value.(reasoning := s.active.value.reasoning + piece))), e, Append(piece), Reasoning)
    case ContentDelta(piece) =>
      if s.active.None? then s
      else UpsertSegment(s.(active := Some(s.active.value.(content := s.active.value.content + piece))), e, Append(piece), Text)
    case ContentFinal(content) =>
      if s.active.None? then LateAnswer(s, e)
      else UpsertSegment(s.(active := Some(s.active.value.(content := content))), e, Replace(content), Text)
    case ToolEvent(_, _, _, _) => ToolItem(ToolStep(s, e), e)
    case TurnEnded(_, _, _) => EndTurn(s, e)
    case InteractionRequested(_) => s
    case InteractionResolved(id) =>
      if s.timeline.None? then s else s.(timeline := Some(DropItem(s.timeline.value, ApprovalId(id))))
    case CommandAccepted(command) => AcceptCommand(s, command)
    case CommandRejected(command) =>
      AddNotice(if command.Submit? then SetQueue(s, Unqueue(s.queued, command.commandId)) else s, e)
    case Notice => AddNotice(s, e)
    case StatusChanged(_, started) => if started then CloseSegment(s, e) else s
    case Unrelated => s
  }

  /** What becomes of an event before its body is looked at. */
  datatype Verdict = Ignore | Resync | Accept

  function Judge(p: Place, e: Event): Verdict {
    if p.resync then Ignore
    else if e.version != 2 then Resync
    else if e.stream != p.stream then Resync
    else if e.session != p.session then Ignore
    else if e.seq_ <= p.lastSeq then Ignore
    else if e.seq_ != p.lastSeq + 1 then Resync
    else if e.id in p.seen then Ignore
    else if e.body.StatusChanged? && !e.body.valid then Resync
    else Accept
  }

  predicate ForAgent(e: Event) {
    e.child.Some? && !e.body.InteractionRequested? && !e.body.InteractionResolved?
  }

  function Note(p: Place, e: Event): Place {
    p.(seen := Last(p.seen, SEEN_LIMIT - 1) + [e.id], lastSeq := e.seq_)
  }

  /** What an accepted event does, once it has been noted. */
  function ApplyAccepted(s: View, e: Event): View {
    if ForAgent(e) then ApplyAgent(s, e, e.child.value) else ApplyBody(s, e)
  }

  function ApplyEvent(s: View, e: Event): View {
    match Judge(s.place, e)
    case Ignore => s
    case Resync => s.(place := s.place.(resync := true))
    case Accept => ApplyAccepted(s.(place := Note(s.place, e)), e)
  }

  function Fold(s: View, events: seq<Event>): View
    decreases events
  {
    if events == [] then s else Fold(ApplyEvent(s, events[0]), events[1..])
  }
}
