// The coordinator itself: the fields it updates in place under its lock, one method
// for each critical section, each shown to take the step of the machine in Directory.
module DirectoryCoordinator {
  import opened Base
  import opened Directory
  import opened DirectoryProofs

  type Holders = map<Root, map<LeaseId, Lease>>

  /** The per-root holder maps are never empty and together hold exactly the leases of byId, each at its root. */
  ghost predicate IndexOk(holders: Holders, byId: Leases) {
    && (forall r :: r in holders ==> holders[r] != map[])
    && (forall r, id :: r in holders && id in holders[r] ==> id in byId && byId[id] == holders[r][id] && byId[id].root == r)
    && (forall id :: id in byId ==> byId[id].root in holders && id in holders[byId[id].root])
  }

  lemma OccupiedIsHeld(holders: Holders, byId: Leases, r: Root)
    requires IndexOk(holders, byId)
    ensures Occupied(byId, r) <==> r in holders
  {
    if r in holders {
      var id :| id in holders[r];
      assert byId[id].root == r;
    }
  }

  function WithHolder(holders: Holders, lease: Lease): Holders {
    holders[lease.root := (if lease.root in holders then holders[lease.root] else map[])[lease.id := lease]]
  }

  function WithoutHolder(holders: Holders, r: Root, id: LeaseId): Holders
    requires r in holders
  {
    var rest := holders[r] - {id};
    if rest == map[] then holders - {r} else holders[r := rest]
  }

  lemma IndexGrows(holders: Holders, byId: Leases, lease: Lease)
    requires IndexOk(holders, byId) && lease.id !in byId
    ensures IndexOk(WithHolder(holders, lease), byId[lease.id := lease])
  {
    var holders' := WithHolder(holders, lease);
    assert lease.id in holders'[lease.root];
  }

  lemma IndexShrinks(holders: Holders, byId: Leases, id: LeaseId)
    requires IndexOk(holders, byId) && id in byId
    ensures byId[id].root in holders && IndexOk(WithoutHolder(holders, byId[id].root, id), byId - {id})
  {
    var r := byId[id].root;
    var holders' := WithoutHolder(holders, r, id);
    forall i | i in byId - {id} ensures byId[i].root in holders' && i in holders'[byId[i].root] {
      assert byId[i].root == r ==> i in holders[r] - {id};
    }
  }

  /** Lease ids are fresh and every queued ticket has its waiter. */
  ghost predicate Numbered(byId: Leases, nextLease: LeaseId, queues: Queues, waiters: Waiters) {
    && (forall id :: id in byId ==> id < nextLease)
    && (forall r, t :: t in At(queues, r) ==> t in waiters)
  }

  lemma NumberedGrant(byId: Leases, next: LeaseId, queues: Queues, waiters: Waiters, lease: Lease)
    requires Numbered(byId, next, queues, waiters) && lease.id == next
    ensures next !in byId && Numbered(byId[next := lease], next + 1, queues, waiters)
  {
  }

  lemma NumberedQueue(byId: Leases, next: LeaseId, queues: Queues, waiters: Waiters, r: Root, t: Ticket, w: Waiter)
    requires Numbered(byId, next, queues, waiters)
    ensures Numbered(byId, next, Append(queues, r, t), waiters[t := w])
  {
    forall x, u ensures u in At(Append(queues, r, t), x) <==> u in At(queues, x) || (x == r && u == t) {
      Appended(queues, r, t, x, u);
    }
  }

  lemma LeaseOut(holders: Holders, byId: Leases, next: LeaseId, queues: Queues, waiters: Waiters, id: LeaseId)
    requires IndexOk(holders, byId) && Numbered(byId, next, queues, waiters) && id in byId
    ensures byId[id].root in holders
    ensures IndexOk(WithoutHolder(holders, byId[id].root, id), byId - {id})
            && Numbered(byId - {id}, next, queues, waiters)
  {
    IndexShrinks(holders, byId, id);
  }

  lemma NumberedSame(byId: Leases, next: LeaseId, queues: Queues, was: Waiters, now: Waiters)
    requires Numbered(byId, next, queues, was) && was.Keys <= now.Keys
    ensures Numbered(byId, next, queues, now)
  {
    assert forall t :: t in was ==> t in was.Keys;
  }

  lemma NumberedLess(byId: Leases, next: LeaseId, queues: Queues, waiters: Waiters, r: Root, q: seq<Ticket>)
    requires Numbered(byId, next, queues, waiters) && forall t :: t in q ==> t in waiters
    ensures Numbered(byId, next, SetQueue(queues, r, q), waiters)
  {
    forall x ensures At(SetQueue(queues, r, q), x) == if x == r then q else At(queues, x) {
    }
  }

  lemma MarkOneMore(waiters: Waiters, done: set<Ticket>, t: Ticket)
    requires t in waiters && t !in done
    ensures MarkCancelled(waiters, done)[t := waiters[t].(cancelled := true, ready := true)]
            == MarkCancelled(waiters, done + {t})
    ensures t in MarkCancelled(waiters, done) && MarkCancelled(waiters, done)[t] == waiters[t]
  {
  }

  /** The gone tickets among the first i of a queue. */
  ghost function GoneBefore(q: seq<Ticket>, i: nat, gone: set<Ticket>): set<Ticket>
    requires i <= |q|
  {
    set k | 0 <= k < i && q[k] in gone :: q[k]
  }

  /** What one more ticket of a queue adds to the kept and to the cancelled. */
  lemma NextGone(q: seq<Ticket>, i: nat, gone: set<Ticket>, waiters: Waiters)
    requires DistinctTickets(q) && i < |q| && q[i] in waiters
    ensures
      var marked := MarkCancelled(waiters, GoneBefore(q, i, gone));
      && q[i] in marked && marked[q[i]] == waiters[q[i]]
      && (q[i] in gone ==>
            && Without(q[..i + 1], gone) == Without(q[..i], gone)
            && MarkCancelled(waiters, GoneBefore(q, i + 1, gone)) ==
              marked[q[i] := waiters[q[i]].(cancelled := true, ready := true)]
            && |GoneBefore(q, i + 1, gone)| == |GoneBefore(q, i, gone)| + 1)
      && (q[i] !in gone ==>
            && Without(q[..i + 1], gone) == Without(q[..i], gone) + [q[i]]
            && GoneBefore(q, i + 1, gone) == GoneBefore(q, i, gone))
  {
    assert q[..i + 1] == q[..i] + [q[i]];
    WithoutAppend(q[..i], [q[i]], gone);
    assert GoneBefore(q, i + 1, gone) == GoneBefore(q, i, gone) + if q[i] in gone then {q[i]} else {};
    MarkOneMore(waiters, GoneBefore(q, i, gone), q[i]);
  }

  lemma MarkTwice(waiters: Waiters, a: set<Ticket>, b: set<Ticket>)
    ensures MarkCancelled(MarkCancelled(waiters, a), b) == MarkCancelled(waiters, a + b)
  {
  }

  /** The matched waiters of the roots that have been dealt with. */
  ghost function GoneAt(waiters: Waiters, gone: set<Ticket>, roots: set<Root>): set<Ticket> {
    set t | t in gone && t in waiters && waiters[t].root in roots
  }

  /** The queues once those of some roots have been dealt with. */
  ghost function Thinned(queues: Queues, gone: set<Ticket>, roots: set<Root>): Queues {
    map r | r in queues && (r in roots ==> Without(queues[r], gone) != [])
      :: if r in roots then Without(queues[r], gone) else queues[r]
  }

  lemma ThinOne(queues: Queues, gone: set<Ticket>, roots: set<Root>, r: Root)
    requires r in queues && r !in roots
    ensures SetQueue(Thinned(queues, gone, roots), r, Without(queues[r], gone)) == Thinned(queues, gone, roots + {r})
  {
  }

  lemma GoneAtOne(s: State, session: Option<Session>, holder: Option<Holder>, roots: set<Root>, r: Root)
    requires QueuesOk(s.queues, s.waiters, s.inside, s.nextTicket) && r in s.queues && r !in roots
    ensures
      var q := s.queues[r];
      var gone := Matched(s, session, holder);
      && DistinctTickets(q)
      && (forall t :: t in q ==> t in s.waiters && s.waiters[t].root == r && (Matches(s.waiters[t], session, holder) <==> t in gone))
      && GoneAt(s.waiters, gone, roots + {r}) == GoneAt(s.waiters, gone, roots) + GoneBefore(q, |q|, gone)
      && |GoneAt(s.waiters, gone, roots + {r})| == |GoneAt(s.waiters, gone, roots)| + |GoneBefore(q, |q|, gone)|
  {
    var q := s.queues[r];
    var gone := Matched(s, session, holder);
    forall t | t in q ensures t in s.waiters && Waits(s.waiters[t], r) {
      assert t in At(s.queues, r);
    }
    forall t | t in gone && s.waiters[t].root == r ensures t in GoneBefore(q, |q|, gone) {
      var k :| 0 <= k < |q| && q[k] == t;
    }
    forall t | t in GoneBefore(q, |q|, gone) ensures t in gone && s.waiters[t].root == r {
      var k :| 0 <= k < |q| && q[k] == t;
      assert q[k] in q;
    }
    assert GoneAt(s.waiters, gone, roots + {r}) == GoneAt(s.waiters, gone, roots) + GoneBefore(q, |q|, gone);
    assert GoneAt(s.waiters, gone, roots) !! GoneBefore(q, |q|, gone);
  }

  lemma AllThinned(s: State, session: Option<Session>, holder: Option<Holder>)
    ensures Thinned(s.queues, Matched(s, session, holder), s.queues.Keys) ==
      TakeOut(s.queues, Matched(s, session, holder))
    ensures GoneAt(s.waiters, Matched(s, session, holder), s.queues.Keys) == Matched(s, session, holder)
    ensures Thinned(s.queues, Matched(s, session, holder), {}) == s.queues
    ensures MarkCancelled(s.waiters, GoneAt(s.waiters, Matched(s, session, holder), {})) == s.waiters
    ensures |GoneAt(s.waiters, Matched(s, session, holder), {})| == 0
  {
    assert GoneAt(s.waiters, Matched(s, session, holder), {}) == {};
  }

  class Coordinator {
    var holders: Holders
    var queues: Queues
    var byId: Leases
    var waiters: Waiters
    var nextLease: LeaseId
    var nextTicket: Ticket
    /** The machine's state: these fields, who is inside acquire, and the history. */
    ghost var state: State

    constructor ()
      ensures Valid() && state == Empty
    {
      holders, queues, byId, waiters, nextLease, nextTicket := map[], map[], map[], map[], 0, 0;
      state := Empty;
    }

    /** The indexes agree and the fields are those of the machine. */
    ghost predicate Valid()
      reads this
    {
      && IndexOk(holders, byId) && Numbered(byId, nextLease, queues, waiters)
      && state.byId == byId && state.queues == queues && state.waiters == waiters
      && state.nextLease == nextLease && state.nextTicket == nextTicket
    }

    /** Register a lease with a fresh id in both indexes. */
    method GrantLocked(r: Root, work: Work, parent: Option<LeaseId>) returns (lease: Lease)
      requires Valid()
      modifies this`holders, this`byId, this`nextLease, this`state
      ensures Valid() && state == Grant(old(state), r, work, parent)
      ensures lease == Lease(old(nextLease), r, work, parent)
    {
      lease := Lease(nextLease, r, work, parent);
      NumberedGrant(byId, nextLease, queues, waiters, lease);
      hide IndexOk, Numbered;
      IndexGrows(holders, byId, lease);
      state := Grant(state, r, work, parent);
      nextLease := nextLease + 1;
      byId := byId[lease.id := lease];
      var here: map<LeaseId, Lease> := if r in holders then holders[r] else map[];
      holders := holders[r := here[lease.id := lease]];
    }

    /** The critical section in which acquire is granted a lease, raises, or joins the queue. */
    method Acquire(r: Root, work: Work, parent: Option<LeaseId>, cancelSet: bool)
      returns (lease: Option<Lease>, ticket: Option<Ticket>)
      requires Valid()
      modifies this
      ensures Valid() && state == AcquireStep(old(state), r, work, parent, cancelSet)
      ensures
        var child := parent.Some? && parent.value in old(byId) && old(byId)[parent.value].root == r;
        var free := (forall id :: id in old(byId) ==> old(byId)[id].root != r)
                    && (r !in old(queues) || old(queues)[r] == []);
        lease == if child || free then Some(Lease(old(nextLease), r, work, if child then parent else None)) else None
      ensures ticket == if lease.Some? || cancelSet then None else Some(old(nextTicket))
    {
      hide IndexOk, Numbered;
      OccupiedIsHeld(holders, byId, r);
      assert r !in holders <==> forall id :: id in byId ==> byId[id].root != r;
      lease, ticket := None, None;
      ghost var s := state;
      var inherited := parent.Some? && parent.value in byId && byId[parent.value].root == r;
      if inherited || (r !in holders && At(queues, r) == []) {
        var granted := GrantLocked(r, work, if inherited then parent else None);
        if !inherited {
          nextTicket := nextTicket + 1;
        }
        state := AcquireStep(s, r, work, parent, cancelSet);
        return Some(granted), None;
      }
      if cancelSet {
        return;
      }
      var waiter := Waiter(r, work, None, false, false);
      NumberedQueue(byId, nextLease, queues, waiters, r, nextTicket, waiter);
      waiters := waiters[nextTicket := waiter];
      queues := queues[r := At(queues, r) + [nextTicket]];
      ticket := Some(nextTicket);
      nextTicket := nextTicket + 1;
      state := AcquireStep(s, r, work, parent, cancelSet);
    }

    /** Outside the lock the caller's user is told of the wait; if that raises, the waiter stays where it is. */
    method TellQueued(t: Ticket, raises: bool) returns (waits: bool)
      requires Valid() && Enabled(state, Event.Abandon(t))
      modifies this`state
      ensures Valid() && waits == !raises
      ensures state == if raises then AbandonStep(old(state), t) else old(state)
    {
      if raises {
        state := AbandonStep(state, t);
        return false;
      }
      return true;
    }

    method Retain(parentId: LeaseId, work: Work) returns (lease: Option<Lease>)
      requires Valid()
      modifies this`holders, this`byId, this`nextLease, this`state
      ensures Valid() && state == RetainStep(old(state), parentId, work)
      ensures lease == if old(parentId in byId)
                       then Some(Lease(old(nextLease), old(byId[parentId].root), work, Some(parentId)))
                       else None
    {
      hide IndexOk, Numbered;
      ghost var s := state;
      lease := None;
      if parentId in byId {
        var granted := GrantLocked(byId[parentId].root, work, Some(parentId));
        lease := Some(granted);
      }
      state := RetainStep(s, parentId, work);
    }

    /** Give a lease back; the waiter to wake up afterwards, if the directory was handed on. */
    method Release(id: LeaseId) returns (woken: Option<Ticket>)
      requires Valid()
      modifies this
      ensures Valid() && state == ReleaseStep(old(state), id)
      ensures woken.Some? ==> state.signals == old(state.signals) + {woken.value}
      ensures woken.None? ==> state.signals == old(state.signals)
    {
      hide IndexOk, Numbered;
      ghost var s := state;
      woken := None;
      if id !in byId {
        return;
      }
      var lease := byId[id];
      var r := lease.root;
      LeaseOut(holders, byId, nextLease, queues, waiters, id);
      var here: map<LeaseId, Lease> := holders[r];
      here := here - {id};
      holders := if here == map[] then holders - {r} else holders[r := here];
      byId := byId - {id};
      OccupiedIsHeld(holders, byId, r);
      state := state.(byId := byId);
      if r in holders {
        return;
      }
      woken := TakeFirst(r);
      if woken.Some? {
        var granted := GrantLocked(r, waiters[woken.value].work, None);
        waiters := waiters[woken.value := waiters[woken.value].(lease := Some(granted.id))];
        NumberedSame(byId, nextLease, queues, old(waiters), waiters);
      }
      state := ReleaseStep(s, id);
    }

    /** Take the first waiter that has not been cancelled out of a queue, with those before it. */
    method TakeFirst(r: Root) returns (first: Option<Ticket>)
      requires Valid()
      modifies this`queues, this`state
      ensures Valid() && state == old(state).(queues := queues)
      ensures
        var q := SkipCancelled(At(old(queues), r), waiters);
        && queues == (if q == [] then old(queues) - {r} else SetQueue(old(queues), r, q[1..]))
        && first == (if q == [] then None else Some(q[0]))
        && (first.Some? ==> first.value in waiters)
    {
      var q := At(queues, r);
      first := None;
      while q != [] && first == None
        invariant forall t :: t in q ==> t in waiters
        invariant SkipCancelled(At(queues, r), waiters)
                  == match first case Some(t) => [t] + q case None => SkipCancelled(q, waiters)
        invariant first.Some? ==> first.value in waiters
        decreases |q|
      {
        var t := q[0];
        assert t in q && q == [t] + q[1..];
        if !waiters[t].cancelled {
          first := Some(t);
        }
        q := q[1..];
      }
      NumberedLess(byId, nextLease, queues, waiters, r, q);
      queues := if q == [] then queues - {r} else queues[r := q];
      state := state.(queues := queues);
    }

    /** The wake-up that follows a release outside the lock. */
    method Signal(t: Ticket)
      requires Valid() && Enabled(state, Event.Signal(t))
      modifies this`waiters, this`state
      ensures Valid() && state == SignalStep(old(state), t)
    {
      hide IndexOk, Numbered;
      waiters := waiters[t := waiters[t].(ready := true)];
      NumberedSame(byId, nextLease, queues, old(waiters), waiters);
      state := SignalStep(state, t);
    }

    /**
      A woken acquire: it returns its lease or raises. The source also gives back a
      lease that it finds on a cancelled waiter; WokenOnce shows there never is one.
     */
    method Wake(t: Ticket) returns (lease: Option<LeaseId>)
      requires Valid() && Enabled(state, Event.Wake(t))
      modifies this`waiters, this`state
      ensures Valid() && state == WakeStep(old(state), t)
      ensures lease == if old(waiters[t].cancelled) then None else old(waiters[t].lease)
    {
      hide IndexOk, Numbered;
      var w := waiters[t];
      if w.cancelled || w.lease == None {
        waiters := waiters[t := w.(lease := None)];
        NumberedSame(byId, nextLease, queues, old(waiters), waiters);
        lease := None;
      } else {
        lease := w.lease;
      }
      state := WakeStep(state, t);
    }

    /** The tickets of a queue other than t. */
    method Others(q: seq<Ticket>, t: Ticket) returns (kept: seq<Ticket>)
      ensures kept == Without(q, {t})
    {
      kept := [];
      var i := 0;
      assert q[..0] == [];
      while i < |q|
        invariant 0 <= i <= |q| && kept == Without(q[..i], {t})
      {
        assert q[..i + 1] == q[..i] + [q[i]];
        WithoutAppend(q[..i], [q[i]], {t});
        if q[i] != t {
          kept := kept + [q[i]];
        }
        i := i + 1;
      }
      assert q[..i] == q;
    }

    /** A caller that found itself cancelled takes itself out of the queue. */
    method DropWaiter(t: Ticket)
      requires Valid() && Enabled(state, Event.Drop(t))
      modifies this`queues, this`waiters, this`state
      ensures Valid() && state == DropStep(old(state), t)
    {
      var r := waiters[t].root;
      if r in queues {
        var kept := Others(queues[r], t);
        forall u | u in kept ensures u in waiters {
          WithoutHas(queues[r], {t}, u);
          assert u in At(queues, r);
        }
        NumberedLess(byId, nextLease, queues, waiters, r, kept);
        queues := if kept != [] then queues[r := kept] else queues - {r};
      }
      hide IndexOk, Numbered;
      waiters := waiters[t := waiters[t].(cancelled := true)];
      NumberedSame(byId, nextLease, queues, old(waiters), waiters);
      state := DropStep(state, t);
    }

    /** Mark the matching waiters of one queue as cancelled and wake them; the others stay. */
    method CancelIn(q: seq<Ticket>, session: Option<Session>, holder: Option<Holder>, ghost gone: set<Ticket>)
      returns (kept: seq<Ticket>, count: nat)
      requires DistinctTickets(q)
      requires forall t :: t in q ==> t in waiters && (Matches(waiters[t], session, holder) <==> t in gone)
      modifies this`waiters
      ensures kept == Without(q, gone)
      ensures waiters == MarkCancelled(old(waiters), GoneBefore(q, |q|, gone))
      ensures count == |GoneBefore(q, |q|, gone)|
    {
      kept, count := [], 0;
      var i := 0;
      assert Without(q[..0], gone) == [] && waiters == MarkCancelled(waiters, {}) && GoneBefore(q, 0, gone) == {};
      hide MarkCancelled, GoneBefore, Matches, Without;
      while i < |q|
        invariant 0 <= i <= |q| && kept == Without(q[..i], gone)
        invariant waiters == MarkCancelled(old(waiters), GoneBefore(q, i, gone))
        invariant count == |GoneBefore(q, i, gone)|
      {
        var t := q[i];
        NextGone(q, i, gone, old(waiters));
        if Matches(waiters[t], session, holder) {
          waiters := waiters[t := waiters[t].(cancelled := true, ready := true)];
          count := count + 1;
        } else {
          kept := kept + [t];
        }
        i := i + 1;
      }
      assert q[..i] == q;
    }

    /** The fields while a cancellation of s has dealt with some of the roots. */
    ghost predicate Cancelling(s: State, gone: set<Ticket>, roots: set<Root>)
      reads this
    {
      && state == s
      && queues == Thinned(s.queues, gone, roots)
      && waiters == MarkCancelled(s.waiters, GoneAt(s.waiters, gone, roots))
    }

    /** Cancel the matching waiters of one root. */
    method CancelAt(r: Root, session: Option<Session>, holder: Option<Holder>, ghost s: State, ghost roots: set<Root>)
      returns (count: nat)
      requires QueuesOk(s.queues, s.waiters, s.inside, s.nextTicket) && r in s.queues && r !in roots
      requires Cancelling(s, Matched(s, session, holder), roots)
      modifies this`queues, this`waiters
      ensures Cancelling(s, Matched(s, session, holder), roots + {r})
      ensures |GoneAt(s.waiters, Matched(s, session, holder), roots + {r})|
              == |GoneAt(s.waiters, Matched(s, session, holder), roots)| + count
    {
      ghost var gone := Matched(s, session, holder);
      hide QueuesOk, Matched, Thinned, GoneAt, MarkCancelled;
      GoneAtOne(s, session, holder, roots, r);
      Untouched(s, gone, roots, r);
      ThinOne(s.queues, gone, roots, r);
      var kept: seq<Ticket>;
      kept, count := CancelIn(queues[r], session, holder, gone);
      MarkTwice(s.waiters, GoneAt(s.waiters, gone, roots), GoneBefore(s.queues[r], |s.queues[r]|, gone));
      queues := if kept != [] then queues[r := kept] else queues - {r};
    }

    /** Cancel the queued waiters of a session or a holder, or all of them; holders keep running. */
    method CancelWaiters(session: Option<Session>, holder: Option<Holder>) returns (cancelled: nat)
      requires Valid() && QueuesOk(queues, waiters, state.inside, nextTicket)
      modifies this`queues, this`waiters, this`state
      ensures Valid() && state == CancelStep(old(state), session, holder)
      ensures cancelled == |Matched(old(state), session, holder)|
    {
      ghost var s := state;
      ghost var gone := Matched(s, session, holder);
      hide IndexOk, Numbered, QueuesOk, Matched, Thinned, GoneAt, MarkCancelled, TakeOut;
      AllThinned(s, session, holder);
      var remaining := queues.Keys;
      ghost var roots: set<Root> := {};
      cancelled := 0;
      while remaining != {}
        invariant Cancelling(s, gone, roots)
        invariant roots !! remaining && roots + remaining == s.queues.Keys
        invariant cancelled == |GoneAt(s.waiters, gone, roots)|
        decreases |remaining|
      {
        var r :| r in remaining;
        var count := CancelAt(r, session, holder, s, roots);
        cancelled := cancelled + count;
        remaining, roots := remaining - {r}, roots + {r};
      }
      assert roots == s.queues.Keys;
      NumberedCancel(byId, nextLease, s, session, holder);
      state := CancelStep(state, session, holder);
    }
  }

  lemma Untouched(s: State, gone: set<Ticket>, roots: set<Root>, r: Root)
    requires r in s.queues && r !in roots
    ensures r in Thinned(s.queues, gone, roots) && Thinned(s.queues, gone, roots)[r] == s.queues[r]
    ensures MarkCancelled(s.waiters, GoneAt(s.waiters, gone, roots)).Keys == s.waiters.Keys
    ensures forall t :: t in s.waiters && s.waiters[t].root == r
              ==> MarkCancelled(s.waiters, GoneAt(s.waiters, gone, roots))[t] == s.waiters[t]
  {
  }

  lemma NumberedCancel(byId: Leases, next: LeaseId, s: State, session: Option<Session>, holder: Option<Holder>)
    requires Numbered(byId, next, s.queues, s.waiters)
    ensures Numbered(byId, next, CancelStep(s, session, holder).queues, CancelStep(s, session, holder).waiters)
  {
    var gone := Matched(s, session, holder);
    forall r, t | t in At(TakeOut(s.queues, gone), r) ensures t in s.waiters {
      WithoutHas(s.queues[r], gone, t);
      assert t in At(s.queues, r);
    }
  }
}
