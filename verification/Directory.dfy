// The queue of work that shares one execution directory
// (src/wright/application/execution/directory.py), as a machine whose steps are the
// critical sections of the coordinator and the moments between them.
//
// `acquire` is split where the source gives up its lock: entering, being woken, and
// leaving after a poll finds the caller cancelled or because the callback that tells the
// caller's user of the wait, or the wait itself, raises. `release` is split between the
// section that grants the next waiter and the wake-up that follows outside the lock.
module Directory {
  import opened Base

  type Root(==, !new)
  type Session(==, !new)
  type Holder(==, !new)
  type Label(==, !new)
  type LeaseId = nat
  /** A waiter object; tickets are numbered in the order in which acquire met them. */
  type Ticket = nat

  datatype Work = Work(kind: Label, holder: Holder, session: Session, text: Label)
  datatype Lease = Lease(id: LeaseId, root: Root, work: Work, parent: Option<LeaseId>)
  datatype Waiter = Waiter(root: Root, work: Work, lease: Option<LeaseId>, cancelled: bool, ready: bool)

  /**
    byId, queues and waiters are the coordinator's own. The rest is what the
    environment and the history know: which acquire calls are still inside, which
    wake-ups are under way, which leases callers were given, the top-level grant each
    lease descends from, and at each root the order of arrivals and of grants.
   */
  datatype State = State(
    byId: Leases,
    queues: Queues,
    waiters: Waiters,
    inside: set<Ticket>,
    signals: set<Ticket>,
    delivered: set<LeaseId>,
    family: map<LeaseId, LeaseId>,
    arrivals: Queues,
    grants: Queues,
    nextLease: LeaseId,
    nextTicket: Ticket)

  const Empty := State(map[], map[], map[], {}, {}, {}, map[], map[], map[], 0, 0)

  // ---- Queues

  function At(m: Queues, r: Root): seq<Ticket> {
    if r in m then m[r] else []
  }

  function SetQueue(queues: Queues, r: Root, q: seq<Ticket>): map<Root, seq<Ticket>> {
    if q == [] then queues - {r} else queues[r := q]
  }

  /** The tickets of q that are not gone, in order. */
  function Without(q: seq<Ticket>, gone: set<Ticket>): seq<Ticket>
    decreases q
  {
    if q == [] then []
    else if q[0] in gone then Without(q[1..], gone)
    else [q[0]] + Without(q[1..], gone)
  }

  /** The queue from its first waiter that has not been cancelled. */
  function SkipCancelled(q: seq<Ticket>, waiters: Waiters): seq<Ticket>
    decreases q
  {
    if q == [] || !(q[0] in waiters && waiters[q[0]].cancelled) then q else SkipCancelled(q[1..], waiters)
  }

  // ---- The steps

  datatype Event =
    | Acquire(root: Root, work: Work, parent: Option<LeaseId>, cancelSet: bool)
    | Drop(ticket: Ticket)
    | Abandon(ticket: Ticket)
    | Wake(ticket: Ticket)
    | Retain(parentId: LeaseId, work: Work)
    | Release(id: LeaseId)
    | Signal(ticket: Ticket)
    | CancelWaiters(session: Option<Session>, holder: Option<Holder>)

  type Leases = map<LeaseId, Lease>
  type Queues = map<Root, seq<Ticket>>
  type Waiters = map<Ticket, Waiter>

  predicate Occupied(byId: Leases, r: Root) {
    exists id :: id in byId && byId[id].root == r
  }

  predicate Inherits(s: State, r: Root, parent: Option<LeaseId>) {
    parent.Some? && parent.value in s.byId && s.byId[parent.value].root == r
  }

  predicate CanGrant(s: State, r: Root) {
    !Occupied(s.byId, r) && At(s.queues, r) == []
  }

  /** A new lease with a fresh id. */
  function Grant(s: State, r: Root, work: Work, parent: Option<LeaseId>): State {
    var id := s.nextLease;
    s.(byId := s.byId[id := Lease(id, r, work, parent)],
       family := s.family[id := if parent.Some? && parent.value in s.family then s.family[parent.value] else id],
       nextLease := id + 1)
  }

  function Deliver(s: State, id: LeaseId): State {
    s.(delivered := s.delivered + {id})
  }

  /** A top-level grant to a caller that found the directory free. */
  function GrantAtOnce(s: State, r: Root, work: Work): State {
    Deliver(Grant(s, r, work, None), s.nextLease)
    .(arrivals := s.arrivals[r := At(s.arrivals, r) + [s.nextTicket]],
      grants := s.grants[r := At(s.grants, r) + [s.nextTicket]],
      nextTicket := s.nextTicket + 1)
  }

  function Enqueue(s: State, r: Root, work: Work): State {
    var t := s.nextTicket;
    s.(queues := s.queues[r := At(s.queues, r) + [t]],
       waiters := s.waiters[t := Waiter(r, work, None, false, false)],
       inside := s.inside + {t},
       arrivals := s.arrivals[r := At(s.arrivals, r) + [t]],
       nextTicket := t + 1)
  }

  function AcquireStep(s: State, r: Root, work: Work, parent: Option<LeaseId>, cancelSet: bool): State {
    if Inherits(s, r, parent) then RetainStep(s, parent.value, work)
    else if CanGrant(s, r) then GrantAtOnce(s, r, work)
    else if cancelSet then s
    else Enqueue(s, r, work)
  }

  /** A caller whose poll found it cancelled takes itself out of the queue and raises. */
  function DropStep(s: State, t: Ticket): State
    requires t in s.waiters
  {
    var w := s.waiters[t];
    s.(queues := if w.root in s.queues then SetQueue(s.queues, w.root, Without(s.queues[w.root], {t})) else s.queues,
       waiters := s.waiters[t := w.(cancelled := true)],
       inside := s.inside - {t})
  }

  /** An exception takes a caller out of acquire and leaves its waiter where it is. */
  function AbandonStep(s: State, t: Ticket): State {
    s.(inside := s.inside - {t})
  }

  /** A woken caller returns its lease, or gives it back and raises. */
  function WakeStep(s: State, t: Ticket): State
    requires t in s.waiters
  {
    var w := s.waiters[t];
    if w.cancelled || w.lease == None then
      s.(waiters := s.waiters[t := w.(lease := None)], inside := s.inside - {t})
    else
      Deliver(s, w.lease.value).(inside := s.inside - {t})
  }

  function RetainStep(s: State, parentId: LeaseId, work: Work): State {
    if parentId in s.byId then
      Deliver(Grant(s, s.byId[parentId].root, work, Some(parentId)), s.nextLease)
    else s
  }

  /** The last holder to leave hands the directory to the first waiter. */
  function ReleaseStep(s: State, id: LeaseId): State {
    if id !in s.byId then s
    else
      var r := s.byId[id].root;
      var freed := s.(byId := s.byId - {id});
      if Occupied(freed.byId, r) then freed
      else
        var q := SkipCancelled(At(s.queues, r), s.waiters);
        if q == [] then freed.(queues := s.queues - {r})
        else Handover(freed.(queues := SetQueue(s.queues, r, q[1..])), r, q[0])
  }

  function Handover(s: State, r: Root, t: Ticket): State {
    if t !in s.waiters then s
    else
      var w := s.waiters[t];
      Grant(s, r, w.work, None)
      .(waiters := s.waiters[t := w.(lease := Some(s.nextLease))],
        signals := s.signals + {t},
        grants := s.grants[r := At(s.grants, r) + [t]])
  }

  function SignalStep(s: State, t: Ticket): State
    requires t in s.waiters
  {
    s.(waiters := s.waiters[t := s.waiters[t].(ready := true)], signals := s.signals - {t})
  }

  predicate Matches(w: Waiter, session: Option<Session>, holder: Option<Holder>) {
    && (session == None || session == Some(w.work.session))
    && (holder == None || holder == Some(w.work.holder))
  }

  /** The queued waiters a cancellation is about. */
  function Matched(s: State, session: Option<Session>, holder: Option<Holder>): set<Ticket> {
    set t | t in s.waiters && t in At(s.queues, s.waiters[t].root) && Matches(s.waiters[t], session, holder)
  }

  function MarkCancelled(waiters: Waiters, gone: set<Ticket>): Waiters {
    map t | t in waiters :: if t in gone then waiters[t].(cancelled := true, ready := true) else waiters[t]
  }

  function TakeOut(queues: Queues, gone: set<Ticket>): Queues {
    map r | r in queues && Without(queues[r], gone) != [] :: Without(queues[r], gone)
  }

  function CancelStep(s: State, session: Option<Session>, holder: Option<Holder>): State {
    var gone := Matched(s, session, holder);
    s.(queues := TakeOut(s.queues, gone), waiters := MarkCancelled(s.waiters, gone))
  }

  /**
    When a step can happen. A caller polls, raises or wakes only while it is inside acquire,
    it wakes only once its event is set, and only leases that were given to a caller
    are released (lease ids are random).
   */
  ghost predicate Enabled(s: State, e: Event) {
    match e
    case Drop(t) => t in s.inside && t in s.waiters
    case Abandon(t) => t in s.inside && t in s.waiters
    case Wake(t) => t in s.inside && t in s.waiters && s.waiters[t].ready
    case Signal(t) => t in s.signals && t in s.waiters
    case Release(id) => id in s.delivered
    case _ => true
  }

  function Step(s: State, e: Event): State
    requires Enabled(s, e)
  {
    match e
    case Acquire(r, work, parent, cancelSet) => AcquireStep(s, r, work, parent, cancelSet)
    case Drop(t) => DropStep(s, t)
    case Abandon(t) => AbandonStep(s, t)
    case Wake(t) => WakeStep(s, t)
    case Retain(p, work) => RetainStep(s, p, work)
    case Release(id) => ReleaseStep(s, id)
    case Signal(t) => SignalStep(s, t)
    case CancelWaiters(session, holder) => CancelStep(s, session, holder)
  }

  /** The states a coordinator can reach from the start. */
  ghost predicate IsRun(run: seq<State>, events: seq<Event>) {
    && |run| == |events| + 1 && run[0] == Empty
    && forall i :: 0 <= i < |events| ==> Enabled(run[i], events[i]) && run[i + 1] == Step(run[i], events[i])
  }

  // ---- The invariant

  /** Ids are fresh, and every lease descends from the top-level grant its parent descends from. */
  ghost predicate LeasesOk(byId: Leases, family: map<LeaseId, LeaseId>, delivered: set<LeaseId>, next: LeaseId) {
    && (forall id :: id in byId ==> byId[id].id == id && id in family)
    && (forall id :: id in family ==> id < next)
    && (forall id :: id in delivered ==> id < next)
    && (forall id :: id in byId ==>
          match byId[id].parent
          case None => family[id] == id
          case Some(p) => p in family && family[id] == family[p])
  }

  /** All live leases at one root descend from one top-level grant. */
  ghost predicate Exclusive(byId: Leases, family: map<LeaseId, LeaseId>) {
    forall i, j :: i in byId && j in byId && byId[i].root == byId[j].root && i in family && j in family
      ==> family[i] == family[j]
  }

  ghost predicate DistinctTickets(q: seq<Ticket>) {
    forall i, j :: 0 <= i < j < |q| ==> q[i] != q[j]
  }

  /** Waiting at its root: in the queue, not cancelled, not woken and without a lease. */
  ghost predicate Waits(w: Waiter, r: Root) {
    w == Waiter(r, w.work, None, false, false)
  }

  ghost predicate QueuesOk(queues: Queues, waiters: Waiters, inside: set<Ticket>, next: Ticket) {
    && (forall r :: r in queues ==> queues[r] != [] && DistinctTickets(queues[r]))
    && (forall r, t :: t in At(queues, r) ==> t in waiters && Waits(waiters[t], r))
    && (forall t :: t in waiters ==> t < next)
    && (forall t :: t in inside ==> t in waiters)
  }

  /** Nobody waits for an empty directory. */
  ghost predicate NobodyStranded(queues: Queues, byId: Leases) {
    forall r :: r in queues ==> Occupied(byId, r)
  }

  /** A caller inside acquire is in the queue, or cancelled, or has a lease, and only one of them. */
  ghost predicate InsideOk(queues: Queues, waiters: Waiters, inside: set<Ticket>) {
    forall t :: t in inside && t in waiters ==>
      || t in At(queues, waiters[t].root)
      || (waiters[t].cancelled && waiters[t].ready && waiters[t].lease == None)
      || (!waiters[t].cancelled && waiters[t].lease.Some?)
  }

  /** A lease granted to a waiter is live and nobody else's until the waiter is woken and takes it. */
  ghost predicate HandoversOk(byId: Leases, waiters: Waiters, inside: set<Ticket>, signals: set<Ticket>,
                              delivered: set<LeaseId>) {
    && (forall t :: t in inside && t in waiters && waiters[t].lease.Some? ==>
          var id := waiters[t].lease.value;
          id in byId && id !in delivered && byId[id].root == waiters[t].root && (waiters[t].ready <==> t !in signals))
    && (forall t :: t in signals ==> t in waiters && waiters[t].lease.Some?)
  }

  ghost predicate WaiterLeasesOk(waiters: Waiters, next: LeaseId) {
    && (forall t :: t in waiters && waiters[t].lease.Some? ==> waiters[t].lease.value < next)
    && (forall t, u :: t in waiters && u in waiters && t != u && waiters[t].lease.Some? ==> waiters[t].lease != waiters[u].lease)
  }

  /** The tickets that left the queue without being granted anything. */
  function Withdrawn(waiters: Waiters): set<Ticket> {
    set t | t in waiters && waiters[t].cancelled && waiters[t].lease == None
  }

  /** At each root, the arrivals that did not withdraw are the grants followed by the queue. */
  ghost predicate Fifo(arrivals: Queues, gone: set<Ticket>, grants: Queues, queues: Queues) {
    forall r :: Without(At(arrivals, r), gone) == At(grants, r) + At(queues, r)
  }

  ghost predicate HistoryOk(arrivals: Queues, grants: Queues, waiters: Waiters, next: Ticket) {
    && (forall r, t :: t in At(arrivals, r) ==> t < next)
    && (forall r, t :: t in At(grants, r) ==> t < next)
    && (forall r, t :: t in At(grants, r) && t in waiters ==> waiters[t].lease.Some?)
  }

  ghost predicate Inv(s: State) {
    && LeasesOk(s.byId, s.family, s.delivered, s.nextLease)
    && Exclusive(s.byId, s.family)
    && QueuesOk(s.queues, s.waiters, s.inside, s.nextTicket)
    && NobodyStranded(s.queues, s.byId)
    && InsideOk(s.queues, s.waiters, s.inside)
    && HandoversOk(s.byId, s.waiters, s.inside, s.signals, s.delivered)
    && WaiterLeasesOk(s.waiters, s.nextLease)
    && Fifo(s.arrivals, Withdrawn(s.waiters), s.grants, s.queues)
    && HistoryOk(s.arrivals, s.grants, s.waiters, s.nextTicket)
  }
}
