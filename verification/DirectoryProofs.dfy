// What every run of the directory coordinator keeps.
module DirectoryProofs {
  import opened Base
  import opened Directory

  // ---- Sequences of tickets

  lemma {:induction false} WithoutHas(q: seq<Ticket>, gone: set<Ticket>, t: Ticket)
    ensures t in Without(q, gone) <==> t in q && t !in gone
    decreases q
  {
    if q != [] {
      WithoutHas(q[1..], gone, t);
      assert q == [q[0]] + q[1..];
    }
  }

  lemma {:induction false} WithoutAppend(p: seq<Ticket>, q: seq<Ticket>, gone: set<Ticket>)
    ensures Without(p + q, gone) == Without(p, gone) + Without(q, gone)
    decreases p
  {
    if p == [] {
      assert p + q == q;
    } else {
      assert (p + q)[1..] == p[1..] + q;
      WithoutAppend(p[1..], q, gone);
    }
  }

  lemma {:induction false} WithoutNone(q: seq<Ticket>, gone: set<Ticket>)
    requires forall t :: t in q ==> t !in gone
    ensures Without(q, gone) == q
    decreases q
  {
    if q != [] {
      assert forall t :: t in q[1..] ==> t in q;
      WithoutNone(q[1..], gone);
    }
  }

  lemma {:induction false} WithoutTwice(q: seq<Ticket>, g: set<Ticket>, h: set<Ticket>)
    ensures Without(Without(q, g), h) == Without(q, g + h)
    decreases q
  {
    if q != [] {
      WithoutTwice(q[1..], g, h);
      if q[0] !in g {
        assert ([q[0]] + Without(q[1..], g))[1..] == Without(q[1..], g);
      }
    }
  }

  lemma {:induction false} WithoutDistinct(q: seq<Ticket>, gone: set<Ticket>)
    requires DistinctTickets(q)
    ensures DistinctTickets(Without(q, gone))
    decreases q
  {
    if q != [] {
      WithoutDistinct(q[1..], gone);
      WithoutHas(q[1..], gone, q[0]);
      assert forall i :: 0 < i < |q| ==> q[i] != q[0];
    }
  }

  /** Taking tickets that were never granted out of the queues keeps the order of the others. */
  lemma FifoWithdraw(arrivals: Queues, gone: set<Ticket>, grants: Queues, queues: Queues, more: set<Ticket>,
                     left: Queues)
    requires Fifo(arrivals, gone, grants, queues)
    requires forall r, t :: t in At(grants, r) ==> t !in more
    requires forall r :: At(left, r) == Without(At(queues, r), more)
    ensures Fifo(arrivals, gone + more, grants, left)
  {
    forall r ensures Without(At(arrivals, r), gone + more) == At(grants, r) + At(left, r) {
      WithoutTwice(At(arrivals, r), gone, more);
      WithoutAppend(At(grants, r), At(queues, r), more);
      WithoutNone(At(grants, r), more);
    }
  }

  // ---- Grants

  lemma GrantChild(s: State, work: Work, parentId: LeaseId)
    requires LeasesOk(s.byId, s.family, s.delivered, s.nextLease) && Exclusive(s.byId, s.family) && parentId in s.byId
    ensures
      var s' := RetainStep(s, parentId, work);
      LeasesOk(s'.byId, s'.family, s'.delivered, s'.nextLease) && Exclusive(s'.byId, s'.family)
  {
  }

  lemma GrantTop(s: State, r: Root, work: Work)
    requires LeasesOk(s.byId, s.family, s.delivered, s.nextLease) && Exclusive(s.byId, s.family) && !Occupied(s.byId, r)
    ensures
      var s' := Grant(s, r, work, None);
      && LeasesOk(s'.byId, s'.family, s'.delivered, s'.nextLease)
      && LeasesOk(s'.byId, s'.family, s'.delivered + {s.nextLease}, s'.nextLease)
      && Exclusive(s'.byId, s'.family)
  {
  }

  lemma StillOccupied(byId: Leases, id: LeaseId, lease: Lease, queues: Queues)
    requires NobodyStranded(queues, byId) && id !in byId
    ensures NobodyStranded(queues, byId[id := lease])
  {
    forall r | Occupied(byId, r) ensures Occupied(byId[id := lease], r) {
      var i :| i in byId && byId[i].root == r;
      assert byId[id := lease][i].root == r;
    }
  }

  // ---- Every step keeps the invariant

  lemma JoinFamily(s: State, work: Work, parentId: LeaseId)
    requires Inv(s) && parentId in s.byId
    ensures Inv(RetainStep(s, parentId, work))
  {
    GrantChild(s, work, parentId);
    StillOccupied(s.byId, s.nextLease, Lease(s.nextLease, s.byId[parentId].root, work, Some(parentId)), s.queues);
  }

  function Append(queues: Queues, r: Root, t: Ticket): Queues {
    queues[r := At(queues, r) + [t]]
  }

  lemma Appended(queues: Queues, r: Root, t: Ticket, x: Root, u: Ticket)
    ensures u in At(Append(queues, r, t), x) <==> u in At(queues, x) || (x == r && u == t)
  {
    if x == r {
      assert At(Append(queues, r, t), x) == At(queues, r) + [t];
    }
  }

  lemma ArriveLast(a: seq<Ticket>, g: seq<Ticket>, q: seq<Ticket>, gone: set<Ticket>, t: Ticket)
    requires Without(a, gone) == g + q && t !in gone
    ensures Without(a + [t], gone) == g + (q + [t])
    ensures q == [] ==> Without(a + [t], gone) == (g + [t]) + q
  {
    WithoutNone([t], gone);
    WithoutAppend(a, [t], gone);
    assert (g + q) + [t] == g + (q + [t]);
  }

  /** An arrival joins the order at the end: as the last in the queue, or as a grant when nobody is queued. */
  lemma FifoArrive(arrivals: Queues, gone: set<Ticket>, grants: Queues, queues: Queues, r: Root, t: Ticket)
    requires Fifo(arrivals, gone, grants, queues) && t !in gone
    ensures Fifo(Append(arrivals, r, t), gone, grants, Append(queues, r, t))
    ensures At(queues, r) == [] ==> Fifo(Append(arrivals, r, t), gone, Append(grants, r, t), queues)
  {
    hide Without;
    ArriveLast(At(arrivals, r), At(grants, r), At(queues, r), gone, t);
  }

  lemma HistoryGrows(arrivals: Queues, grants: Queues, waiters: Waiters, t: Ticket, r: Root)
    requires HistoryOk(arrivals, grants, waiters, t) && t !in waiters
    ensures HistoryOk(Append(arrivals, r, t), grants, waiters, t + 1)
    ensures HistoryOk(Append(arrivals, r, t), Append(grants, r, t), waiters, t + 1)
  {
    forall x, u ensures u in At(Append(arrivals, r, t), x) <==> u in At(arrivals, x) || (x == r && u == t) {
      Appended(arrivals, r, t, x, u);
    }
    forall x, u ensures u in At(Append(grants, r, t), x) <==> u in At(grants, x) || (x == r && u == t) {
      Appended(grants, r, t, x, u);
    }
  }

  lemma FreshNumbers(s: State)
    requires Inv(s)
    ensures s.nextLease !in s.byId && s.nextTicket !in s.waiters && s.nextTicket !in Withdrawn(s.waiters)
    ensures forall r :: s.nextTicket !in At(s.grants, r)
    ensures s.nextLease !in s.delivered && forall t :: t in s.waiters ==> s.waiters[t].lease != Some(s.nextLease)
  {
  }

  lemma NextTicket(queues: Queues, waiters: Waiters, inside: set<Ticket>, next: Ticket)
    requires QueuesOk(queues, waiters, inside, next)
    ensures QueuesOk(queues, waiters, inside, next + 1)
  {
  }

  /** A lease delivered at once is no waiter's. */
  lemma HandoversApart(byId: Leases, waiters: Waiters, inside: set<Ticket>, signals: set<Ticket>,
                       delivered: set<LeaseId>,
                       next: LeaseId, lease: Lease)
    requires HandoversOk(byId, waiters, inside, signals, delivered) && WaiterLeasesOk(waiters, next)
    ensures HandoversOk(byId[next := lease], waiters, inside, signals, delivered + {next})
    ensures WaiterLeasesOk(waiters, next + 1)
  {
  }

  lemma FastPath(s: State, r: Root, work: Work)
    requires Inv(s) && CanGrant(s, r)
    ensures Inv(GrantAtOnce(s, r, work))
  {
    hide LeasesOk, Exclusive, QueuesOk, NobodyStranded, InsideOk, HandoversOk, WaiterLeasesOk, Fifo, HistoryOk;
    FreshNumbers(s);
    var s' := GrantAtOnce(s, r, work);
    GrantTop(s, r, work);
    HandoversApart(s.byId, s.waiters, s.inside, s.signals, s.delivered, s.nextLease, Lease(s.nextLease, r, work, None));
    NextTicket(s.queues, s.waiters, s.inside, s.nextTicket);
    StillOccupied(s.byId, s.nextLease, Lease(s.nextLease, r, work, None), s.queues);
    HistoryGrows(s.arrivals, s.grants, s.waiters, s.nextTicket, r);
    FifoArrive(s.arrivals, Withdrawn(s.waiters), s.grants, s.queues, r, s.nextTicket);
  }

  lemma QueuesGrow(queues: Queues, waiters: Waiters, inside: set<Ticket>, t: Ticket, r: Root, work: Work)
    requires QueuesOk(queues, waiters, inside, t)
    ensures QueuesOk(Append(queues, r, t), waiters[t := Waiter(r, work, None, false, false)], inside + {t}, t + 1)
  {
    forall x, u ensures u in At(Append(queues, r, t), x) <==> u in At(queues, x) || (x == r && u == t) {
      Appended(queues, r, t, x, u);
    }
    assert t !in waiters;
    assert t !in At(queues, r);
  }

  lemma InsideGrows(queues: Queues, waiters: Waiters, inside: set<Ticket>, t: Ticket, r: Root, work: Work)
    requires InsideOk(queues, waiters, inside) && t !in waiters
    ensures InsideOk(Append(queues, r, t), waiters[t := Waiter(r, work, None, false, false)], inside + {t})
  {
    forall x, u ensures u in At(Append(queues, r, t), x) <==> u in At(queues, x) || (x == r && u == t) {
      Appended(queues, r, t, x, u);
    }
  }

  function NewWaiter(waiters: Waiters, t: Ticket, r: Root, work: Work): Waiters {
    waiters[t := Waiter(r, work, None, false, false)]
  }

  lemma HandoversGrow(byId: Leases, waiters: Waiters, inside: set<Ticket>, signals: set<Ticket>,
                      delivered: set<LeaseId>,
                      next: LeaseId, t: Ticket, r: Root, work: Work)
    requires t !in waiters && HandoversOk(byId, waiters, inside, signals, delivered) && WaiterLeasesOk(waiters, next)
    ensures HandoversOk(byId, NewWaiter(waiters, t, r, work), inside + {t}, signals, delivered)
    ensures WaiterLeasesOk(NewWaiter(waiters, t, r, work), next)
    ensures Withdrawn(NewWaiter(waiters, t, r, work)) == Withdrawn(waiters)
  {
  }

  lemma HistoryNewWaiter(arrivals: Queues, grants: Queues, waiters: Waiters, next: Ticket, t: Ticket, r: Root,
                         work: Work)
    requires HistoryOk(arrivals, grants, waiters, next)
    requires forall x :: t !in At(grants, x)
    ensures HistoryOk(arrivals, grants, NewWaiter(waiters, t, r, work), next)
  {
  }

  /** Whoever cannot be granted the directory at once finds it occupied. */
  lemma JoinOccupied(s: State, r: Root)
    requires NobodyStranded(s.queues, s.byId) && !CanGrant(s, r)
    ensures NobodyStranded(Append(s.queues, r, s.nextTicket), s.byId)
  {
  }

  lemma JoinQueue(s: State, r: Root, work: Work)
    requires Inv(s) && !CanGrant(s, r)
    ensures Inv(Enqueue(s, r, work))
  {
    hide LeasesOk, Exclusive, QueuesOk, NobodyStranded, InsideOk, HandoversOk, WaiterLeasesOk, Fifo, HistoryOk;
    FreshNumbers(s);
    var s' := Enqueue(s, r, work);
    var t := s.nextTicket;
    HandoversGrow(s.byId, s.waiters, s.inside, s.signals, s.delivered, s.nextLease, t, r, work);
    JoinOccupied(s, r);
    QueuesGrow(s.queues, s.waiters, s.inside, t, r, work);
    InsideGrows(s.queues, s.waiters, s.inside, t, r, work);
    HistoryGrows(s.arrivals, s.grants, s.waiters, t, r);
    HistoryNewWaiter(s'.arrivals, s.grants, s.waiters, t + 1, t, r, work);
    FifoArrive(s.arrivals, Withdrawn(s.waiters), s.grants, s.queues, r, t);
  }

  // ---- Leaving the queue

  /** left is queues with the gone tickets taken out. */
  ghost predicate TakenOut(queues: Queues, left: Queues, gone: set<Ticket>) {
    && (forall r :: r in left ==> left[r] != [])
    && (forall r :: At(left, r) == Without(At(queues, r), gone))
  }

  lemma StaysQueued(queues: Queues, left: Queues, gone: set<Ticket>, r: Root, u: Ticket)
    requires TakenOut(queues, left, gone)
    ensures u in At(left, r) <==> u in At(queues, r) && u !in gone
  {
    assert At(left, r) == Without(At(queues, r), gone);
    WithoutHas(At(queues, r), gone, u);
  }

  lemma StillNobodyStranded(queues: Queues, byId: Leases, left: Queues, gone: set<Ticket>)
    requires TakenOut(queues, left, gone) && NobodyStranded(queues, byId)
    ensures NobodyStranded(left, byId)
  {
    forall r | r in left ensures r in queues {
      StaysQueued(queues, left, gone, r, left[r][0]);
    }
  }

  /** Only the gone tickets change, and they end as cancelled. */
  ghost predicate Marked(waiters: Waiters, marked: Waiters, gone: set<Ticket>) {
    && marked.Keys == waiters.Keys
    && (forall t :: t in waiters ==>
          if t in gone then marked[t].cancelled && marked[t].lease == waiters[t].lease && marked[t].root == waiters[t].root
          else marked[t] == waiters[t])
  }

  lemma QueuesShrink(queues: Queues, waiters: Waiters, inside: set<Ticket>, next: Ticket,
                     left: Queues, marked: Waiters, staying: set<Ticket>, gone: set<Ticket>)
    requires QueuesOk(queues, waiters, inside, next)
    requires TakenOut(queues, left, gone) && Marked(waiters, marked, gone)
    requires staying <= inside <= staying + gone
    ensures QueuesOk(left, marked, staying, next)
  {
    hide Without, DistinctTickets;
    forall r, u | u in At(left, r) ensures u in marked && Waits(marked[u], r) {
      StaysQueued(queues, left, gone, r, u);
    }
    forall r | r in left ensures left[r] != [] && DistinctTickets(left[r]) {
      StillDistinct(queues, left, gone, r);
    }
  }

  lemma StillDistinct(queues: Queues, left: Queues, gone: set<Ticket>, r: Root)
    requires TakenOut(queues, left, gone) && r in left
    requires forall x :: x in queues ==> DistinctTickets(queues[x])
    ensures left[r] != [] && DistinctTickets(left[r])
  {
    assert left[r] == At(left, r);
    WithoutDistinct(At(queues, r), gone);
  }

  lemma InsideShrinks(queues: Queues, waiters: Waiters, inside: set<Ticket>,
                      left: Queues, marked: Waiters, staying: set<Ticket>, gone: set<Ticket>)
    requires InsideOk(queues, waiters, inside) && staying <= inside
    requires TakenOut(queues, left, gone) && Marked(waiters, marked, gone)
    requires forall t :: t in gone && t in staying && t in waiters ==> marked[t].ready && waiters[t].lease == None
    ensures InsideOk(left, marked, staying)
  {
    forall r, u ensures u in At(left, r) <==> u in At(queues, r) && u !in gone {
      StaysQueued(queues, left, gone, r, u);
    }
  }

  lemma HandoversShrink(byId: Leases, waiters: Waiters, inside: set<Ticket>, signals: set<Ticket>,
                        delivered: set<LeaseId>,
                        next: LeaseId, marked: Waiters, staying: set<Ticket>, gone: set<Ticket>)
    requires HandoversOk(byId, waiters, inside, signals, delivered) && WaiterLeasesOk(waiters, next)
    requires Marked(waiters, marked, gone) && staying <= inside
    requires forall t :: t in gone && t in staying && t in waiters ==> waiters[t].lease == None
    ensures HandoversOk(byId, marked, staying, signals, delivered) && WaiterLeasesOk(marked, next)
  {
  }

  lemma HistoryMarked(arrivals: Queues, grants: Queues, waiters: Waiters, next: Ticket, marked: Waiters,
                      gone: set<Ticket>)
    requires HistoryOk(arrivals, grants, waiters, next) && Marked(waiters, marked, gone)
    ensures HistoryOk(arrivals, grants, marked, next)
  {
  }

  lemma NeverGranted(s: State, gone: set<Ticket>)
    requires Inv(s) && forall t :: t in gone ==> t in s.waiters && s.waiters[t].lease == None
    ensures forall r, t :: t in At(s.grants, r) ==> t !in gone
  {
  }

  /** Taking waiters that have no lease out of their queues, whoever does it. */
  lemma Withdraw(s: State, s': State, gone: set<Ticket>)
    requires Inv(s)
    requires s' == s.(queues := s'.queues, waiters := s'.waiters, inside := s'.inside)
    requires forall t :: t in gone ==> t in s.waiters && s.waiters[t].lease == None
    requires TakenOut(s.queues, s'.queues, gone) && Marked(s.waiters, s'.waiters, gone)
    requires s'.inside <= s.inside <= s'.inside + gone
    requires forall t :: t in gone && t in s'.inside ==> s'.waiters[t].ready
    ensures Inv(s')
  {
    hide LeasesOk, Exclusive, QueuesOk, NobodyStranded, InsideOk, HandoversOk, WaiterLeasesOk, Fifo, HistoryOk;
    NeverGranted(s, gone);
    assert Withdrawn(s'.waiters) == Withdrawn(s.waiters) + gone;
    StillNobodyStranded(s.queues, s.byId, s'.queues, gone);
    QueuesShrink(s.queues, s.waiters, s.inside, s.nextTicket, s'.queues, s'.waiters, s'.inside, gone);
    InsideShrinks(s.queues, s.waiters, s.inside, s'.queues, s'.waiters, s'.inside, gone);
    HandoversShrink(s.byId, s.waiters, s.inside, s.signals, s.delivered, s.nextLease, s'.waiters, s'.inside, gone);
    HistoryMarked(s.arrivals, s.grants, s.waiters, s.nextTicket, s'.waiters, gone);
    FifoWithdraw(s.arrivals, Withdrawn(s.waiters), s.grants, s.queues, gone, s'.queues);
  }

  lemma DropKeeps(s: State, t: Ticket)
    requires Inv(s) && Enabled(s, Drop(t))
    ensures Inv(DropStep(s, t))
  {
    var s' := DropStep(s, t);
    DropTakesOut(s, t);
    if s.waiters[t].lease == None {
      hide LeasesOk, Exclusive, QueuesOk, NobodyStranded, InsideOk, HandoversOk, WaiterLeasesOk, Fifo, HistoryOk;
      Withdraw(s, s', {t});
    } else {
      LeaseNotQueued(s, t);
      assert Withdrawn(s'.waiters) == Withdrawn(s.waiters);
      hide LeasesOk, Exclusive, QueuesOk, NobodyStranded, InsideOk, HandoversOk, WaiterLeasesOk, Fifo, HistoryOk;
      QueuesShrink(s.queues, s.waiters, s.inside, s.nextTicket, s'.queues, s'.waiters, s'.inside, {t});
      InsideShrinks(s.queues, s.waiters, s.inside, s'.queues, s'.waiters, s'.inside, {t});
      HandoversShrink(s.byId, s.waiters, s.inside, s.signals, s.delivered, s.nextLease, s'.waiters, s'.inside, {t});
      HistoryMarked(s.arrivals, s.grants, s.waiters, s.nextTicket, s'.waiters, {t});
    }
  }

  lemma DropTakesOut(s: State, t: Ticket)
    requires QueuesOk(s.queues, s.waiters, s.inside, s.nextTicket) && Enabled(s, Drop(t))
    ensures TakenOut(s.queues, DropStep(s, t).queues, {t}) && Marked(s.waiters, DropStep(s, t).waiters, {t})
  {
    var left := DropStep(s, t).queues;
    forall r ensures At(left, r) == Without(At(s.queues, r), {t}) {
      if r != s.waiters[t].root {
        WithoutNone(At(s.queues, r), {t});
      }
    }
  }

  lemma LeaseNotQueued(s: State, t: Ticket)
    requires QueuesOk(s.queues, s.waiters, s.inside, s.nextTicket) && Enabled(s, Drop(t)) && s.waiters[t].lease.Some?
    ensures DropStep(s, t).queues == s.queues
  {
    var r := s.waiters[t].root;
    WithoutNone(At(s.queues, r), {t});
  }

  lemma AbandonKeeps(s: State, t: Ticket)
    requires Inv(s) && Enabled(s, Abandon(t))
    ensures Inv(AbandonStep(s, t))
  {
  }

  lemma CancelKeeps(s: State, session: Option<Session>, holder: Option<Holder>)
    requires Inv(s)
    ensures Inv(CancelStep(s, session, holder))
  {
    var s' := CancelStep(s, session, holder);
    var gone := Matched(s, session, holder);
    MatchedWait(s, session, holder);
    hide LeasesOk, Exclusive, QueuesOk, NobodyStranded, InsideOk, HandoversOk, WaiterLeasesOk, Fifo, HistoryOk;
    assert TakenOut(s.queues, s'.queues, gone);
    assert Marked(s.waiters, s'.waiters, gone);
    Withdraw(s, s', gone);
  }

  lemma MatchedWait(s: State, session: Option<Session>, holder: Option<Holder>)
    requires QueuesOk(s.queues, s.waiters, s.inside, s.nextTicket)
    ensures forall t :: t in Matched(s, session, holder) ==> t in s.waiters && s.waiters[t].lease == None
  {
  }

  // ---- Being woken

  lemma Unqueued(queues: Queues, waiters: Waiters, inside: set<Ticket>, next: Ticket, t: Ticket)
    requires QueuesOk(queues, waiters, inside, next) && InsideOk(queues, waiters, inside)
    requires t in waiters && (waiters[t].ready || waiters[t].lease.Some?)
    ensures forall r :: t !in At(queues, r)
    ensures QueuesOk(queues, waiters, inside - {t}, next) && InsideOk(queues, waiters, inside - {t})
  {
  }

  /** The lease a waiter takes away was no other waiter's. */
  lemma HandoverTaken(byId: Leases, family: map<LeaseId, LeaseId>, waiters: Waiters, inside: set<Ticket>,
                      signals: set<Ticket>,
                      delivered: set<LeaseId>, next: LeaseId, t: Ticket)
    requires LeasesOk(byId, family, delivered, next) && t in inside && t in waiters
    requires HandoversOk(byId, waiters, inside, signals, delivered) && WaiterLeasesOk(waiters, next)
    ensures HandoversOk(byId, waiters, inside - {t}, signals, delivered)
    ensures waiters[t].lease.Some? ==>
              && HandoversOk(byId, waiters, inside - {t}, signals, delivered + {waiters[t].lease.value})
              && LeasesOk(byId, family, delivered + {waiters[t].lease.value}, next)
  {
  }

  /** A woken waiter is out of the queue, and is cancelled or has a lease, but not both: it never gives one back. */
  lemma WokenOnce(s: State, t: Ticket)
    requires Inv(s) && Enabled(s, Wake(t))
    ensures s.waiters[t].cancelled != s.waiters[t].lease.Some?
    ensures forall r :: t !in At(s.queues, r)
    ensures WakeStep(s, t).waiters == s.waiters
    ensures WakeStep(s, t).delivered == s.delivered + if s.waiters[t].cancelled then {} else {s.waiters[t].lease.value}
  {
    assert s.waiters[t].lease == None ==> s.waiters[t].(lease := None) == s.waiters[t];
  }

  lemma WakeKeeps(s: State, t: Ticket)
    requires Inv(s) && Enabled(s, Wake(t))
    ensures Inv(WakeStep(s, t))
  {
    hide LeasesOk, Exclusive, QueuesOk, NobodyStranded, InsideOk, HandoversOk, WaiterLeasesOk, Fifo, HistoryOk;
    WokenOnce(s, t);
    Unqueued(s.queues, s.waiters, s.inside, s.nextTicket, t);
    HandoverTaken(s.byId, s.family, s.waiters, s.inside, s.signals, s.delivered, s.nextLease, t);
    assert s.delivered + {} == s.delivered;
  }

  lemma SignalKeeps(s: State, t: Ticket)
    requires Inv(s) && Enabled(s, Signal(t))
    ensures Inv(SignalStep(s, t))
  {
    var s' := SignalStep(s, t);
    SignalParts(s, t);
    assert Withdrawn(s'.waiters) == Withdrawn(s.waiters);
    hide LeasesOk, Exclusive, QueuesOk, NobodyStranded, InsideOk, HandoversOk, WaiterLeasesOk, Fifo, HistoryOk;
  }

  lemma SignalParts(s: State, t: Ticket)
    requires QueuesOk(s.queues, s.waiters, s.inside, s.nextTicket) && InsideOk(s.queues, s.waiters, s.inside)
    requires HandoversOk(s.byId, s.waiters, s.inside, s.signals, s.delivered) && WaiterLeasesOk(s.waiters, s.nextLease)
    requires HistoryOk(s.arrivals, s.grants, s.waiters, s.nextTicket) && Enabled(s, Signal(t))
    ensures
      var s' := SignalStep(s, t);
      && QueuesOk(s.queues, s'.waiters, s.inside, s.nextTicket) && InsideOk(s.queues, s'.waiters, s.inside)
      && HandoversOk(s.byId, s'.waiters, s.inside, s'.signals, s.delivered) && WaiterLeasesOk(s'.waiters, s.nextLease)
      && HistoryOk(s.arrivals, s.grants, s'.waiters, s.nextTicket)
  {
    Unqueued(s.queues, s.waiters, s.inside, s.nextTicket, t);
  }

  // ---- Releasing

  lemma LeaseGone(s: State, id: LeaseId)
    requires Inv(s) && id in s.byId && id in s.delivered
    ensures
      var byId := s.byId - {id};
      && LeasesOk(byId, s.family, s.delivered, s.nextLease) && Exclusive(byId, s.family)
      && HandoversOk(byId, s.waiters, s.inside, s.signals, s.delivered)
      && (forall r :: r in s.queues && r != s.byId[id].root ==> Occupied(byId, r))
  {
    var byId := s.byId - {id};
    forall r | r in s.queues && r != s.byId[id].root ensures Occupied(byId, r) {
      var i :| i in s.byId && s.byId[i].root == r;
      assert i in byId && byId[i].root == r;
    }
  }

  function Pop(queues: Queues, r: Root): Queues
    requires r in queues && queues[r] != []
  {
    SetQueue(queues, r, queues[r][1..])
  }

  function Leased(waiters: Waiters, t: Ticket, id: LeaseId): Waiters
    requires t in waiters
  {
    waiters[t := waiters[t].(lease := Some(id))]
  }

  lemma Popped(queues: Queues, waiters: Waiters, inside: set<Ticket>, next: Ticket, r: Root, x: Root, u: Ticket)
    requires QueuesOk(queues, waiters, inside, next) && r in queues
    ensures u in At(Pop(queues, r), x) <==> u in At(queues, x) && u != queues[r][0]
  {
    var q := queues[r];
    assert q == [q[0]] + q[1..];
    assert q[0] in At(queues, r);
    assert q[0] !in q[1..] by {
      forall i | 0 <= i < |q[1..]| ensures q[1..][i] != q[0] {
        assert q[0] != q[i + 1];
      }
    }
    assert At(queues, r) == q && At(Pop(queues, r), r) == q[1..];
    assert q[0] in waiters && waiters[q[0]].root == r;
    if x != r {
      assert At(Pop(queues, r), x) == At(queues, x);
    } else {
      assert u in q <==> u == q[0] || u in q[1..];
    }
  }

  lemma PopQueues(queues: Queues, waiters: Waiters, inside: set<Ticket>, next: Ticket, r: Root, id: LeaseId)
    requires QueuesOk(queues, waiters, inside, next) && r in queues
    ensures queues[r][0] in waiters && waiters[queues[r][0]].root == r
    ensures QueuesOk(Pop(queues, r), Leased(waiters, queues[r][0], id), inside, next)
  {
    var t := queues[r][0];
    assert t in At(queues, r);
    forall x, u ensures u in At(Pop(queues, r), x) <==> u in At(queues, x) && u != t {
      Popped(queues, waiters, inside, next, r, x, u);
    }
    assert DistinctTickets(queues[r][1..]);
  }

  lemma PopInside(queues: Queues, waiters: Waiters, inside: set<Ticket>, next: Ticket, r: Root, id: LeaseId)
    requires QueuesOk(queues, waiters, inside, next) && InsideOk(queues, waiters, inside) && r in queues
    ensures queues[r][0] in waiters && InsideOk(Pop(queues, r), Leased(waiters, queues[r][0], id), inside)
  {
    var t := queues[r][0];
    assert t in At(queues, r);
    forall x, u ensures u in At(Pop(queues, r), x) <==> u in At(queues, x) && u != t {
      Popped(queues, waiters, inside, next, r, x, u);
    }
  }

  lemma PopHandovers(byId: Leases, waiters: Waiters, inside: set<Ticket>, signals: set<Ticket>, delivered: set<LeaseId>,
                     t: Ticket, lease: Lease)
    requires HandoversOk(byId, waiters, inside, signals, delivered) && WaiterLeasesOk(waiters, lease.id)
    requires t in waiters && Waits(waiters[t], lease.root) && lease.id !in delivered
    ensures HandoversOk(byId[lease.id := lease], Leased(waiters, t, lease.id), inside, signals + {t}, delivered)
    ensures WaiterLeasesOk(Leased(waiters, t, lease.id), lease.id + 1)
    ensures Withdrawn(Leased(waiters, t, lease.id)) == Withdrawn(waiters)
  {
  }

  lemma PopHistory(arrivals: Queues, grants: Queues, waiters: Waiters, next: Ticket, r: Root, t: Ticket, id: LeaseId)
    requires HistoryOk(arrivals, grants, waiters, next) && t in waiters && t < next
    ensures HistoryOk(arrivals, Append(grants, r, t), Leased(waiters, t, id), next)
  {
    forall x, u ensures u in At(Append(grants, r, t), x) <==> u in At(grants, x) || (x == r && u == t) {
      Appended(grants, r, t, x, u);
    }
  }

  lemma PopFifo(arrivals: Queues, gone: set<Ticket>, grants: Queues, queues: Queues, r: Root)
    requires Fifo(arrivals, gone, grants, queues) && r in queues && queues[r] != []
    ensures Fifo(arrivals, gone, Append(grants, r, queues[r][0]), Pop(queues, r))
  {
    var q := queues[r];
    assert (At(grants, r) + [q[0]]) + q[1..] == At(grants, r) + q;
  }

  lemma PopOccupied(queues: Queues, byId: Leases, r: Root, lease: Lease)
    requires r in queues && queues[r] != [] && lease.root == r && lease.id !in byId
    requires forall x :: x in queues && x != r ==> Occupied(byId, x)
    ensures NobodyStranded(Pop(queues, r), byId[lease.id := lease])
  {
    var byId' := byId[lease.id := lease];
    assert byId'[lease.id].root == r;
    forall x | x in queues && x != r ensures Occupied(byId', x) {
      var i :| i in byId && byId[i].root == x;
      assert byId'[i].root == x;
    }
  }

  lemma ReleaseKeeps(s: State, id: LeaseId)
    requires Inv(s) && Enabled(s, Release(id))
    ensures Inv(ReleaseStep(s, id))
  {
    if id in s.byId {
      LeaseGone(s, id);
      var r := s.byId[id].root;
      var byId := s.byId - {id};
      if Occupied(byId, r) {
        assert NobodyStranded(s.queues, byId);
        hide LeasesOk, Exclusive, QueuesOk, NobodyStranded, InsideOk, HandoversOk, WaiterLeasesOk, Fifo, HistoryOk;
      } else if r !in s.queues {
        assert s.queues - {r} == s.queues;
        assert NobodyStranded(s.queues, byId);
        hide LeasesOk, Exclusive, QueuesOk, NobodyStranded, InsideOk, HandoversOk, WaiterLeasesOk, Fifo, HistoryOk;
      } else {
        HandoverKeeps(s, id);
      }
    }
  }

  /** The state once the last lease at r is gone and the first in its queue has the next one. */
  function HandedOver(s: State, id: LeaseId, r: Root, work: Work): State
    requires r in s.queues && s.queues[r] != [] && s.queues[r][0] in s.waiters
  {
    var t := s.queues[r][0];
    s.(byId := (s.byId - {id})[s.nextLease := Lease(s.nextLease, r, work, None)],
       family := s.family[s.nextLease := s.nextLease],
       nextLease := s.nextLease + 1,
       queues := Pop(s.queues, r),
       waiters := Leased(s.waiters, t, s.nextLease),
       signals := s.signals + {t},
       grants := Append(s.grants, r, t))
  }

  lemma ReleaseHandsOver(s: State, id: LeaseId)
    requires Inv(s) && id in s.byId
    requires s.byId[id].root in s.queues && !Occupied(s.byId - {id}, s.byId[id].root)
    ensures
      var r := s.byId[id].root;
      && s.queues[r] != [] && s.queues[r][0] in s.waiters
      && ReleaseStep(s, id) == HandedOver(s, id, r, s.waiters[s.queues[r][0]].work)
  {
    NextInLine(s, s.byId[id].root);
  }

  lemma HandoverKeeps(s: State, id: LeaseId)
    requires Inv(s) && id in s.byId && id in s.delivered
    requires s.byId[id].root in s.queues && !Occupied(s.byId - {id}, s.byId[id].root)
    ensures Inv(ReleaseStep(s, id))
  {
    var r := s.byId[id].root;
    hide LeasesOk, Exclusive, QueuesOk, NobodyStranded, InsideOk, HandoversOk, WaiterLeasesOk, Fifo, HistoryOk;
    ReleaseHandsOver(s, id);
    hide ReleaseStep, Pop, Leased, Append, Occupied, Withdrawn;
    NextInLine(s, r);
    LeaseGone(s, id);
    var t := s.queues[r][0];
    var lease := Lease(s.nextLease, r, s.waiters[t].work, None);
    HandoverWaiters(s, s.byId - {id}, lease, t);
    PopFifo(s.arrivals, Withdrawn(s.waiters), s.grants, s.queues, r);
    HandoverLeases(s, s.byId - {id}, lease);
  }

  lemma HandoverLeases(s: State, byId: Leases, lease: Lease)
    requires LeasesOk(byId, s.family, s.delivered, lease.id) && Exclusive(byId, s.family) && !Occupied(byId, lease.root)
    requires lease.id == s.nextLease && lease.parent == None && lease.id !in byId
    requires lease.root in s.queues && s.queues[lease.root] != []
    requires forall x :: x in s.queues && x != lease.root ==> Occupied(byId, x)
    ensures LeasesOk(byId[lease.id := lease], s.family[lease.id := lease.id], s.delivered, lease.id + 1)
    ensures Exclusive(byId[lease.id := lease], s.family[lease.id := lease.id])
    ensures NobodyStranded(Pop(s.queues, lease.root), byId[lease.id := lease])
  {
    hide LeasesOk, Exclusive, QueuesOk, NobodyStranded, InsideOk, HandoversOk, WaiterLeasesOk, Fifo, HistoryOk;
    PopOccupied(s.queues, byId, lease.root, lease);
    GrantTop(s.(byId := byId), lease.root, lease.work);
  }

  lemma HandoverWaiters(s: State, byId: Leases, lease: Lease, t: Ticket)
    requires QueuesOk(s.queues, s.waiters, s.inside, s.nextTicket) && InsideOk(s.queues, s.waiters, s.inside)
    requires HandoversOk(byId, s.waiters, s.inside, s.signals, s.delivered) && WaiterLeasesOk(s.waiters, lease.id)
    requires HistoryOk(s.arrivals, s.grants, s.waiters, s.nextTicket)
    requires lease.root in s.queues && s.queues[lease.root] != [] && s.queues[lease.root][0] == t
    requires t in s.waiters && Waits(s.waiters[t], lease.root) && t < s.nextTicket && lease.id !in s.delivered
    ensures
      var waiters := Leased(s.waiters, t, lease.id);
      && QueuesOk(Pop(s.queues, lease.root), waiters, s.inside, s.nextTicket)
      && InsideOk(Pop(s.queues, lease.root), waiters, s.inside)
      && HandoversOk(byId[lease.id := lease], waiters, s.inside, s.signals + {t}, s.delivered)
      && WaiterLeasesOk(waiters, lease.id + 1)
      && HistoryOk(s.arrivals, Append(s.grants, lease.root, t), waiters, s.nextTicket)
      && Withdrawn(waiters) == Withdrawn(s.waiters)
  {
    hide LeasesOk, Exclusive, QueuesOk, NobodyStranded, InsideOk, HandoversOk, WaiterLeasesOk, Fifo, HistoryOk;
    PopQueues(s.queues, s.waiters, s.inside, s.nextTicket, lease.root, lease.id);
    PopInside(s.queues, s.waiters, s.inside, s.nextTicket, lease.root, lease.id);
    PopHandovers(byId, s.waiters, s.inside, s.signals, s.delivered, t, lease);
    PopHistory(s.arrivals, s.grants, s.waiters, s.nextTicket, lease.root, t, lease.id);
  }

  /** The first of a queue is not cancelled, so nobody is skipped, and its ids are fresh. */
  lemma NextInLine(s: State, r: Root)
    requires Inv(s) && r in s.queues
    ensures s.queues[r] != [] && SkipCancelled(s.queues[r], s.waiters) == s.queues[r]
    ensures s.queues[r][0] in s.waiters && Waits(s.waiters[s.queues[r][0]], r) && s.queues[r][0] < s.nextTicket
    ensures s.nextLease !in s.byId && s.nextLease !in s.delivered
  {
    assert s.queues[r][0] in At(s.queues, r);
  }

  lemma StepKeepsInv(s: State, e: Event)
    requires Inv(s) && Enabled(s, e)
    ensures Inv(Step(s, e))
  {
    match e
    case Acquire(r, work, parent, cancelSet) =>
      if Inherits(s, r, parent) {
        JoinFamily(s, work, parent.value);
      } else if CanGrant(s, r) {
        FastPath(s, r, work);
      } else if !cancelSet {
        JoinQueue(s, r, work);
      }
    case Drop(t) => DropKeeps(s, t);
    case Abandon(t) => AbandonKeeps(s, t);
    case Wake(t) => WakeKeeps(s, t);
    case Retain(p, work) =>
      if p in s.byId {
        JoinFamily(s, work, p);
      }
    case Release(id) => ReleaseKeeps(s, id);
    case Signal(t) => SignalKeeps(s, t);
    case CancelWaiters(session, holder) => CancelKeeps(s, session, holder);
  }

  lemma StartIsOk()
    ensures Inv(Empty)
  {
  }

  /** Exclusion, first come first served and the rest of the invariant hold in every state of every run. */
  lemma {:induction false} RunsKeepInv(run: seq<State>, events: seq<Event>, i: nat)
    requires IsRun(run, events) && i < |run|
    ensures Inv(run[i])
  {
    if i == 0 {
      StartIsOk();
    } else {
      RunsKeepInv(run, events, i - 1);
      StepKeepsInv(run[i - 1], events[i - 1]);
    }
  }

  /**
    What the invariant says to the callers, in any state of any run: two leases that
    are live at one directory descend from the same top-level grant; whoever queues
    finds somebody to wait for; and the top-level grants so far are the arrivals so
    far, less those that withdrew, up to the ones still queued.
   */
  lemma ServedInOrder(run: seq<State>, events: seq<Event>, i: nat, r: Root)
    requires IsRun(run, events) && i < |run|
    ensures forall a, b :: a in run[i].byId && b in run[i].byId && run[i].byId[a].root == run[i].byId[b].root
              ==> a in run[i].family && b in run[i].family && run[i].family[a] == run[i].family[b]
    ensures At(run[i].queues, r) != [] ==> Occupied(run[i].byId, r)
    ensures At(run[i].grants, r) <= Without(At(run[i].arrivals, r), Withdrawn(run[i].waiters))
    ensures At(run[i].queues, r) == Without(At(run[i].arrivals, r), Withdrawn(run[i].waiters))[|At(run[i].grants, r)|..]
  {
    RunsKeepInv(run, events, i);
    assert Fifo(run[i].arrivals, Withdrawn(run[i].waiters), run[i].grants, run[i].queues);
    assert Without(At(run[i].arrivals, r), Withdrawn(run[i].waiters)) == At(run[i].grants, r) + At(run[i].queues, r);
  }

  // ---- What a caller gets

  /**
    Whoever works for a lease that is live at the directory is let in at once, as a child of that
    lease, whoever queues there and even if already cancelled. Anybody else is let in, at the top,
    exactly when nobody is there and nobody queues; and if not, is turned away when cancelled and
    queued last when not.
   */
  lemma WhoGetsIn(s: State, r: Root, work: Work, parent: Option<LeaseId>, cancelSet: bool)
    ensures
      var s' := AcquireStep(s, r, work, parent, cancelSet);
      var child := parent.Some? && parent.value in s.byId && s.byId[parent.value].root == r;
      var free := (forall id :: id in s.byId ==> s.byId[id].root != r) && (r !in s.queues || s.queues[r] == []);
      if child || free then
        && s'.byId == s.byId[s.nextLease := Lease(s.nextLease, r, work, if child then parent else None)]
        && s'.queues == s.queues && s'.waiters == s.waiters && s.nextLease in s'.delivered
      else if cancelSet then s' == s
      else
        && s'.byId == s.byId && s'.delivered == s.delivered
        && s'.queues == s.queues[r := (if r in s.queues then s.queues[r] else []) + [s.nextTicket]]
        && s'.waiters == s.waiters[s.nextTicket := Waiter(r, work, None, false, false)]
  {
    assert Occupied(s.byId, r) <==> !(forall id :: id in s.byId ==> s.byId[id].root != r);
    hide Occupied;
    if Inherits(s, r, parent) {
    } else if CanGrant(s, r) {
    } else if !cancelSet {
    }
  }

  /**
    When the last lease at a directory is given back, the first in the queue gets the next one,
    for its own work and at the top; as long as others are there, or without a queue, nobody does.
   */
  lemma WhoIsNext(s: State, id: LeaseId)
    requires Inv(s) && id in s.byId
    ensures
      var r := s.byId[id].root;
      var s' := ReleaseStep(s, id);
      var others := exists i :: i in s.byId && i != id && s.byId[i].root == r;
      if others || r !in s.queues then
        s'.byId == s.byId - {id} && s'.queues == s.queues && s'.waiters == s.waiters && s'.signals == s.signals
      else
        var t := s.queues[r][0];
        && t in s.waiters && s'.signals == s.signals + {t}
        && s'.byId == (s.byId - {id})[s.nextLease := Lease(s.nextLease, r, s.waiters[t].work, None)]
        && s'.waiters == s.waiters[t := s.waiters[t].(lease := Some(s.nextLease))]
        && At(s'.queues, r) == s.queues[r][1..]
        && forall x :: x != r ==> At(s'.queues, x) == At(s.queues, x)
  {
    var r := s.byId[id].root;
    if r in s.queues {
      NextInLine(s, r);
    }
    hide Inv;
    assert Occupied(s.byId - {id}, r) <==> exists i :: i in s.byId && i != id && s.byId[i].root == r by {
      forall i | i in s.byId && i != id && s.byId[i].root == r ensures Occupied(s.byId - {id}, r) {
        assert (s.byId - {id})[i].root == r;
      }
      if Occupied(s.byId - {id}, r) {
        var i :| i in s.byId - {id} && (s.byId - {id})[i].root == r;
        assert i in s.byId && i != id && s.byId[i].root == r;
      }
    }
    assert r !in s.queues ==> s.queues - {r} == s.queues;
  }

  /**
    A cancellation takes out of the queues exactly the waiters of the session and of the holder it
    names, and all if it names neither, and cancels exactly these.
   */
  lemma WhoIsCancelled(s: State, session: Option<Session>, holder: Option<Holder>, t: Ticket)
    requires t in s.waiters && t in At(s.queues, s.waiters[t].root)
    ensures
      var s' := CancelStep(s, session, holder);
      var w := s.waiters[t];
      var named := (session == None || session == Some(w.work.session)) && (holder == None || holder == Some(w.work.holder));
      && t in s'.waiters
      && (t in At(s'.queues, w.root) <==> !named)
      && s'.waiters[t] == if named then w.(cancelled := true, ready := true) else w
  {
    WithoutHas(At(s.queues, s.waiters[t].root), Matched(s, session, holder), t);
  }

  // ---- Where a lease can get lost

  ghost predicate HeldForWaiter(s: State, id: LeaseId) {
    exists t :: t in s.inside && t in s.waiters && s.waiters[t].lease == Some(id)
  }

  /** Live leases that no caller was given and no caller inside acquire will find. */
  ghost function Orphans(s: State): set<LeaseId> {
    set id | id in s.byId && id !in s.delivered && !HeldForWaiter(s, id)
  }

  /** The release hands the directory to a waiter whose caller has left acquire. */
  predicate HandsToNobody(s: State, id: LeaseId) {
    && id in s.byId && !Occupied(s.byId - {id}, s.byId[id].root)
    && At(s.queues, s.byId[id].root) != [] && At(s.queues, s.byId[id].root)[0] !in s.inside
  }

  /**
    A lease is lost when its waiter leaves without looking at it, after a poll or an exception, and
    when it is granted to a waiter that an exception has left in the queue.
   */
  function Lost(s: State, e: Event): set<LeaseId> {
    match e
    case Drop(t) => if t in s.waiters && s.waiters[t].lease.Some? then {s.waiters[t].lease.value} else {}
    case Abandon(t) => if t in s.waiters && s.waiters[t].lease.Some? then {s.waiters[t].lease.value} else {}
    case Release(id) => if HandsToNobody(s, id) then {s.nextLease} else {}
    case _ => {}
  }

  /** A caller leaves acquire without looking at the lease of its waiter. */
  lemma ConserveLeaving(s: State, s': State, t: Ticket)
    requires Inv(s) && t in s.inside && t in s.waiters
    requires s'.byId == s.byId && s'.delivered == s.delivered && s'.inside == s.inside - {t}
    requires s'.waiters.Keys == s.waiters.Keys
    requires forall u :: u in s.waiters ==> s'.waiters[u].lease == s.waiters[u].lease
    ensures Orphans(s') == Orphans(s) + if s.waiters[t].lease.Some? then {s.waiters[t].lease.value} else {}
  {
    forall id | id in s.byId
      ensures HeldForWaiter(s', id) <==> HeldForWaiter(s, id) && s.waiters[t].lease != Some(id)
    {
      if HeldForWaiter(s, id) && s.waiters[t].lease != Some(id) {
        var u :| u in s.inside && u in s.waiters && s.waiters[u].lease == Some(id);
        assert s'.waiters[u].lease == Some(id);
      }
      if HeldForWaiter(s', id) {
        var u :| u in s'.inside && u in s'.waiters && s'.waiters[u].lease == Some(id);
        assert s.waiters[u].lease == Some(id);
      }
    }
    if s.waiters[t].lease.Some? {
      assert HeldForWaiter(s, s.waiters[t].lease.value);
    }
  }

  lemma ConserveWake(s: State, t: Ticket)
    requires Inv(s) && Enabled(s, Wake(t))
    ensures Orphans(WakeStep(s, t)) == Orphans(s)
  {
    WokenOnce(s, t);
    var s' := WakeStep(s, t);
    forall id | id in s.byId
      ensures HeldForWaiter(s', id) <==> HeldForWaiter(s, id) && s.waiters[t].lease != Some(id)
    {
      if HeldForWaiter(s, id) && s.waiters[t].lease != Some(id) {
        var u :| u in s.inside && u in s.waiters && s.waiters[u].lease == Some(id);
        assert s'.waiters[u].lease == Some(id);
      }
    }
    if s.waiters[t].lease.Some? {
      assert HeldForWaiter(s, s.waiters[t].lease.value);
    }
  }

  /** Steps that leave the waiters' leases alone and deliver what they grant. */
  lemma ConserveOthers(s: State, s': State)
    requires forall id :: HeldForWaiter(s', id) <==> HeldForWaiter(s, id)
    requires s'.delivered >= s.delivered
    requires s'.byId.Keys - s'.delivered == s.byId.Keys - s.delivered
    ensures Orphans(s') == Orphans(s)
  {
    forall id ensures id in s'.byId && id !in s'.delivered <==> id in s.byId && id !in s.delivered {
      assert id in s'.byId.Keys - s'.delivered <==> id in s.byId.Keys - s.delivered;
    }
  }

  lemma SameHolding(s: State, s': State)
    requires forall t :: t in s.inside && t in s.waiters && s.waiters[t].lease.Some?
               ==> t in s'.inside && t in s'.waiters && s'.waiters[t].lease == s.waiters[t].lease
    requires forall t :: t in s'.inside && t in s'.waiters && s'.waiters[t].lease.Some?
               ==> t in s.inside && t in s.waiters && s'.waiters[t].lease == s.waiters[t].lease
    ensures forall id: LeaseId :: HeldForWaiter(s', id) <==> HeldForWaiter(s, id)
  {
    forall id: LeaseId ensures HeldForWaiter(s', id) <==> HeldForWaiter(s, id) {
      if HeldForWaiter(s, id) {
        var t :| t in s.inside && t in s.waiters && s.waiters[t].lease == Some(id);
        assert t in s'.inside && t in s'.waiters && s'.waiters[t].lease == Some(id);
      }
      if HeldForWaiter(s', id) {
        var t :| t in s'.inside && t in s'.waiters && s'.waiters[t].lease == Some(id);
        assert t in s.inside && t in s.waiters && s.waiters[t].lease == Some(id);
      }
    }
  }

  lemma ConserveRelease(s: State, id: LeaseId)
    requires Inv(s) && Enabled(s, Release(id))
    ensures Orphans(ReleaseStep(s, id)) == Orphans(s) + Lost(s, Release(id))
  {
    hide Inv, Orphans, HeldForWaiter;
    if id in s.byId {
      var r := s.byId[id].root;
      if Occupied(s.byId - {id}, r) || r !in s.queues {
        ConserveLastOut(s, id);
      } else {
        NextInLine(s, r);
        ReleaseHandsOver(s, id);
        FreshNumbers(s);
        hide ReleaseStep, Occupied, Pop;
        ConserveHandover(s, HandedOver(s, id, r, s.waiters[s.queues[r][0]].work), id, s.queues[r][0]);
      }
    }
  }

  /** A release that leaves others in the directory, or nobody waiting for it. */
  lemma ConserveLastOut(s: State, id: LeaseId)
    requires id in s.byId && id in s.delivered
    requires Occupied(s.byId - {id}, s.byId[id].root) || s.byId[id].root !in s.queues
    ensures Orphans(ReleaseStep(s, id)) == Orphans(s)
  {
    var s' := ReleaseStep(s, id);
    assert s'.byId == s.byId - {id} && s'.waiters == s.waiters && s'.inside == s.inside && s'.delivered == s.delivered;
    hide ReleaseStep;
    SameHolding(s, s');
    ConserveOthers(s, s');
  }

  lemma ConserveHandover(s: State, s': State, id: LeaseId, t: Ticket)
    requires id in s.byId && id in s.delivered && s.nextLease !in s.byId && s.nextLease !in s.delivered
    requires t in s.waiters && s.waiters[t].lease == None
    requires forall u :: u in s.waiters ==> s.waiters[u].lease != Some(s.nextLease)
    requires s'.byId.Keys == s.byId.Keys - {id} + {s.nextLease} && s'.delivered == s.delivered
    requires s'.waiters == Leased(s.waiters, t, s.nextLease) && s'.inside == s.inside
    ensures Orphans(s') == Orphans(s) + if t in s.inside then {} else {s.nextLease}
  {
    assert s'.waiters[t].lease == Some(s.nextLease);
    forall i | i in s.byId ensures HeldForWaiter(s', i) <==> HeldForWaiter(s, i) {
      if HeldForWaiter(s, i) {
        var u :| u in s.inside && u in s.waiters && s.waiters[u].lease == Some(i);
        assert s'.waiters[u].lease == Some(i);
      }
    }
    assert HeldForWaiter(s', s.nextLease) <==> t in s.inside;
  }

  /** A grant that is delivered at once. */
  lemma ConserveDelivered(s: State, s': State, id: LeaseId)
    requires id !in s.byId && s'.byId.Keys == s.byId.Keys + {id} && s'.delivered == s.delivered + {id}
    requires s'.waiters == s.waiters && s'.inside == s.inside
    ensures Orphans(s') == Orphans(s)
  {
    SameHolding(s, s');
  }

  lemma ConserveAcquire(s: State, r: Root, work: Work, parent: Option<LeaseId>, cancelSet: bool)
    requires s.nextLease !in s.byId && s.nextTicket !in s.waiters
    ensures Orphans(AcquireStep(s, r, work, parent, cancelSet)) == Orphans(s)
  {
    var s' := AcquireStep(s, r, work, parent, cancelSet);
    if Inherits(s, r, parent) || CanGrant(s, r) {
      ConserveDelivered(s, s', s.nextLease);
    } else if !cancelSet {
      SameHolding(s, s');
      ConserveOthers(s, s');
    }
  }

  lemma ConserveCancel(s: State, session: Option<Session>, holder: Option<Holder>)
    ensures Orphans(CancelStep(s, session, holder)) == Orphans(s)
  {
    var s' := CancelStep(s, session, holder);
    SameHolding(s, s');
    ConserveOthers(s, s');
  }

  lemma ConserveRetain(s: State, p: LeaseId, work: Work)
    requires s.nextLease !in s.byId
    ensures Orphans(RetainStep(s, p, work)) == Orphans(s)
  {
    if p in s.byId {
      ConserveDelivered(s, RetainStep(s, p, work), s.nextLease);
    }
  }

  lemma ConserveSignal(s: State, t: Ticket)
    requires t in s.waiters
    ensures Orphans(SignalStep(s, t)) == Orphans(s)
  {
    SameHolding(s, SignalStep(s, t));
    ConserveOthers(s, SignalStep(s, t));
  }

  lemma ConserveDrop(s: State, t: Ticket)
    requires Inv(s) && Enabled(s, Drop(t))
    ensures Orphans(DropStep(s, t)) == Orphans(s) + Lost(s, Drop(t))
    ensures Orphans(AbandonStep(s, t)) == Orphans(s) + Lost(s, Abandon(t))
  {
    ConserveLeaving(s, DropStep(s, t), t);
    ConserveLeaving(s, AbandonStep(s, t), t);
  }

  /** Every step conserves leases, except those that lose one. */
  lemma LeaseConservation(s: State, e: Event)
    requires Inv(s) && Enabled(s, e)
    ensures Orphans(Step(s, e)) == Orphans(s) + Lost(s, e)
  {
    FreshNumbers(s);
    hide Inv, Orphans, AcquireStep, DropStep, AbandonStep, WakeStep, RetainStep, ReleaseStep, SignalStep, CancelStep;
    match e
    case Drop(t) => ConserveDrop(s, t);
    case Abandon(t) => ConserveDrop(s, t);
    case Wake(t) => ConserveWake(s, t);
    case Release(id) => ConserveRelease(s, id);
    case Acquire(r, work, parent, cancelSet) => ConserveAcquire(s, r, work, parent, cancelSet);
    case CancelWaiters(session, holder) => ConserveCancel(s, session, holder);
    case Retain(p, work) => ConserveRetain(s, p, work);
    case Signal(t) => ConserveSignal(s, t);
  }

  /** The leases lost by the first n steps. */
  ghost function LostBy(run: seq<State>, events: seq<Event>, n: nat): set<LeaseId>
    requires |run| == |events| + 1 && n <= |events|
  {
    if n == 0 then {} else LostBy(run, events, n - 1) + Lost(run[n - 1], events[n - 1])
  }

  /** In every run the leases nobody can ever release are those its steps have lost. */
  lemma {:induction false} OrphansAreLost(run: seq<State>, events: seq<Event>, n: nat)
    requires IsRun(run, events) && n <= |events|
    ensures Orphans(run[n]) == LostBy(run, events, n)
  {
    if n == 0 {
      assert Orphans(Empty) == {};
    } else {
      OrphansAreLost(run, events, n - 1);
      RunsKeepInv(run, events, n - 1);
      LeaseConservation(run[n - 1], events[n - 1]);
    }
  }

  /** A lost lease keeps its directory occupied in every later state, so whoever queues there waits for ever. */
  lemma {:induction false} LostForGood(run: seq<State>, events: seq<Event>, i: nat, n: nat, id: LeaseId)
    requires IsRun(run, events) && i <= n < |run| && id in Orphans(run[i])
    ensures id in Orphans(run[n]) && run[n].byId[id] == run[i].byId[id] && Occupied(run[n].byId, run[i].byId[id].root)
  {
    hide Inv, Step, Enabled, Lost;
    if i < n {
      LostForGood(run, events, i, n - 1, id);
      RunsKeepInv(run, events, n - 1);
      LeaseConservation(run[n - 1], events[n - 1]);
      FreshNumbers(run[n - 1]);
      LeaseKept(run[n - 1], events[n - 1], id);
    }
  }

  /** A lease that stays live stays the same lease. */
  lemma LeaseKept(s: State, e: Event, id: LeaseId)
    requires Enabled(s, e) && id in s.byId && id in Step(s, e).byId && s.nextLease !in s.byId
    ensures Step(s, e).byId[id] == s.byId[id]
  {
    hide AcquireStep, RetainStep, ReleaseStep, Without, SetQueue, TakeOut, MarkCancelled;
    match e
    case Acquire(r, work, parent, cancelSet) => AcquiredLeases(s, r, work, parent, cancelSet, id);
    case Release(other) => ReleasedLeases(s, other, id);
    case Retain(p, work) => RetainedLeases(s, p, work, id);
    case _ => assert Step(s, e).byId == s.byId;
  }

  lemma RetainedLeases(s: State, p: LeaseId, work: Work, id: LeaseId)
    requires id in s.byId && s.nextLease !in s.byId
    ensures var byId := RetainStep(s, p, work).byId; id in byId && byId[id] == s.byId[id]
  {
  }

  lemma AcquiredLeases(s: State, r: Root, work: Work, parent: Option<LeaseId>, cancelSet: bool, id: LeaseId)
    requires id in s.byId && s.nextLease !in s.byId
    ensures var byId := AcquireStep(s, r, work, parent, cancelSet).byId; id in byId && byId[id] == s.byId[id]
  {
    hide CanGrant;
    if Inherits(s, r, parent) {
      RetainedLeases(s, parent.value, work, id);
    }
  }

  lemma ReleasedLeases(s: State, other: LeaseId, id: LeaseId)
    requires id in s.byId && s.nextLease !in s.byId
    ensures var byId := ReleaseStep(s, other).byId; id in byId ==> byId[id] == s.byId[id]
  {
    hide Occupied, SkipCancelled;
  }

  /** B queues behind A. */
  function Behind(r: Root, a: Work, b: Work): State {
    State(map[0 := Lease(0, r, a, None)], map[r := [1]], map[1 := Waiter(r, b, None, false, false)],
          {1}, {}, {0}, map[0 := 0], map[r := [0, 1]], map[r := [0]], 1, 2)
  }

  /** A has left and B has been granted the directory, but not been woken. */
  function HandedToB(r: Root, a: Work, b: Work): State {
    State(map[1 := Lease(1, r, b, None)], map[], map[1 := Waiter(r, b, Some(1), false, false)],
          {1}, {1}, {0}, map[0 := 0, 1 := 1], map[r := [0, 1]], map[r := [0, 1]], 2, 2)
  }

  lemma QueueBehind(r: Root, a: Work, b: Work)
    ensures AcquireStep(AcquireStep(Empty, r, a, None, false), r, b, None, false) == Behind(r, a, b)
  {
    var s1 := AcquireStep(Empty, r, a, None, false);
    assert s1.byId[0].root == r && Occupied(s1.byId, r);
    assert s1 == GrantAtOnce(Empty, r, a);
    assert At(Empty.arrivals, r) + [0] == [0] && At(s1.arrivals, r) + [1] == [0, 1] && At(s1.queues, r) + [1] == [1];
    assert s1.grants == map[r := [0]];
    var s2 := Enqueue(s1, r, b);
    assert s2.arrivals == map[r := [0, 1]] && s2.queues == map[r := [1]] && s2.grants == map[r := [0]];
    assert s2.inside == {1} && s2.delivered == {0} && s2.byId == map[0 := Lease(0, r, a, None)];
  }

  lemma HandToB(r: Root, a: Work, b: Work)
    ensures ReleaseStep(Behind(r, a, b), 0) == HandedToB(r, a, b)
  {
    var s := Behind(r, a, b);
    assert s.byId - {0} == map[] && s.queues - {r} == map[];
    assert SkipCancelled(At(s.queues, r), s.waiters) == [1];
    var s' := ReleaseStep(s, 0);
    assert At(s.grants, r) + [1] == [0, 1];
    assert s'.byId == map[1 := Lease(1, r, b, None)] && s'.queues == map[];
    assert s'.grants == map[r := [0, 1]] && s'.family == map[0 := 0, 1 := 1];
    assert s'.waiters == map[1 := Waiter(r, b, Some(1), false, false)] && s'.signals == {1};
  }

  /**
    A run that loses a lease: B queues behind A, A releases, B's poll has already
    timed out and finds B cancelled, and B leaves without looking at its lease.
   */
  lemma LeakyRun(r: Root, a: Work, b: Work) returns (run: seq<State>, events: seq<Event>)
    ensures IsRun(run, events) && |events| == 4 && events[3] == Drop(1)
    ensures Orphans(run[4]) == {1} && run[4].byId[1].root == r
  {
    QueueBehind(r, a, b);
    HandToB(r, a, b);
    hide AcquireStep, ReleaseStep;
    var s4 := DropStep(HandedToB(r, a, b), 1);
    run := [Empty, AcquireStep(Empty, r, a, None, false), Behind(r, a, b), HandedToB(r, a, b), s4];
    events := [Acquire(r, a, None, false), Acquire(r, b, None, false), Release(0), Drop(1)];
  }

  /** B has been granted the directory after an exception took its caller out of acquire. */
  lemma HandToNobody(r: Root, a: Work, b: Work)
    ensures ReleaseStep(AbandonStep(Behind(r, a, b), 1), 0) == HandedToB(r, a, b).(inside := {})
  {
    HandToB(r, a, b);
    assert AbandonStep(Behind(r, a, b), 1) == Behind(r, a, b).(inside := {});
  }

  /** A run without any cancellation: the callback that tells of B's wait raises, and A's release grants to nobody. */
  lemma AbandonedRun(r: Root, a: Work, b: Work) returns (run: seq<State>, events: seq<Event>)
    ensures IsRun(run, events)
    ensures events == [Acquire(r, a, None, false), Acquire(r, b, None, false), Abandon(1), Release(0)]
    ensures Orphans(run[4]) == {1} && run[4].byId[1].root == r
  {
    QueueBehind(r, a, b);
    HandToNobody(r, a, b);
    hide AcquireStep, ReleaseStep;
    var s := Behind(r, a, b);
    run := [Empty, AcquireStep(Empty, r, a, None, false), s, AbandonStep(s, 1), HandedToB(r, a, b).(inside := {})];
    events := [Acquire(r, a, None, false), Acquire(r, b, None, false), Abandon(1), Release(0)];
  }
}
