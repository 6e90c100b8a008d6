// The end of a background command (src/wright/application/command/execution.py): the
// thread that publishes it and the thread that reads its output to the end agree, with
// hardly any locking, on who announces the end and who hands the directory lease back.
//
// Each step is what one thread does without the other getting in between; a schedule is
// any order of steps. close() takes part as a third thread that forgets the command.
module Handshake {

  /**
    published is false when the command is dropped instead; bound says that the publishing
    call has a directory binding with a coordinator to retain from; attached that the
    execution has a coordinator of its own; retainRaises that the binding's lease is gone.
   */
  datatype Config = Config(published: bool, bound: bool, attached: bool, retainRaises: bool)

  datatype PublisherAt = Flag | Retain | Store | Check | Pop | HandBack | Announce | Finished | Raised
  datatype ReaderAt = SetDone | ReaderPop | ReaderHandBack | ReaderFlag | ReaderAnnounce | ReaderFinished

  /** What the two threads share under the lock. */
  datatype Live = Live(done: bool, background: bool, notified: bool)

  /** Who has taken on the announcement, and how often it was made. */
  datatype Notes = Notes(byPublisher: bool, byReader: bool, announced: nat)

  /** The table entry, who took it out, and what the coordinator saw of the lease. */
  datatype Lease = Lease(entry: bool, publisherTook: bool, readerTook: bool, retained: nat, released: nat)

  /** Whether the command is still in the table of live commands, and was when the publisher looked. */
  datatype Known = Known(now: bool, atCheck: bool)

  datatype State = State(publisher: PublisherAt, reader: ReaderAt, live: Live, notes: Notes, lease: Lease, known: Known)

  datatype Actor = Publisher | Reader | Closer

  function Initial(c: Config): State {
    State(if c.published then Flag else Finished, SetDone, Live(false, false, false), Notes(false, false, 0),
          Lease(false, false, false, 0, 0), Known(true, true))
  }

  // ---- The publisher

  function PublisherGoes(c: Config, s: State): PublisherAt {
    match s.publisher
    case Flag => Retain
    case Retain => if !c.bound then Announce else if c.retainRaises then Raised else Store
    case Store => Check
    case Check => if s.known.now && s.live.done then Pop else Announce
    case Pop => HandBack
    case HandBack => Announce
    case Announce => Finished
    case Finished => Finished
    case Raised => Raised
  }

  predicate PublisherClaims(s: State) {
    s.publisher.Flag? && s.live.done && !s.live.notified
  }

  function PublisherLive(s: State): Live {
    if s.publisher.Flag? then Live(s.live.done, true, s.live.notified || PublisherClaims(s)) else s.live
  }

  function PublisherNotes(s: State): Notes {
    Notes(s.notes.byPublisher || PublisherClaims(s), s.notes.byReader,
          if s.publisher.Announce? && s.notes.byPublisher then s.notes.announced + 1 else s.notes.announced)
  }

  function PublisherLease(c: Config, s: State): Lease {
    var l := s.lease;
    if s.publisher.Retain? && c.bound && !c.retainRaises then l.(retained := l.retained + 1)
    else if s.publisher.Store? then l.(entry := true)
    else if s.publisher.Pop? then l.(entry := false, publisherTook := l.entry)
    else if s.publisher.HandBack? && l.publisherTook && c.attached then l.(released := l.released + 1)
    else l
  }

  function PublisherStep(c: Config, s: State): State {
    State(PublisherGoes(c, s), s.reader, PublisherLive(s), PublisherNotes(s), PublisherLease(c, s),
          if s.publisher.Check? then Known(s.known.now, s.known.now) else s.known)
  }

  // ---- The reader

  function ReaderGoes(at: ReaderAt): ReaderAt {
    match at
    case SetDone => ReaderPop
    case ReaderPop => ReaderHandBack
    case ReaderHandBack => ReaderFlag
    case ReaderFlag => ReaderAnnounce
    case ReaderAnnounce => ReaderFinished
    case ReaderFinished => ReaderFinished
  }

  predicate ReaderClaims(s: State) {
    s.reader.ReaderFlag? && s.live.background && !s.live.notified
  }

  function ReaderLive(s: State): Live {
    Live(s.live.done || s.reader.SetDone?, s.live.background, s.live.notified || ReaderClaims(s))
  }

  function ReaderNotes(s: State): Notes {
    Notes(s.notes.byPublisher, s.notes.byReader || ReaderClaims(s),
          if s.reader.ReaderAnnounce? && s.notes.byReader then s.notes.announced + 1 else s.notes.announced)
  }

  function ReaderLease(c: Config, s: State): Lease {
    var l := s.lease;
    if s.reader.ReaderPop? then l.(entry := false, readerTook := l.entry)
    else if s.reader.ReaderHandBack? && l.readerTook && c.attached then l.(released := l.released + 1)
    else l
  }

  function ReaderStep(c: Config, s: State): State {
    State(s.publisher, ReaderGoes(s.reader), ReaderLive(s), ReaderNotes(s), ReaderLease(c, s), s.known)
  }

  function Step(c: Config, s: State, actor: Actor): State {
    match actor
    case Publisher => PublisherStep(c, s)
    case Reader => ReaderStep(c, s)
    case Closer => s.(known := Known(false, s.known.atCheck))
  }

  function Run(c: Config, s: State, schedule: seq<Actor>): State
    decreases schedule
  {
    if schedule == [] then s else Run(c, Step(c, s, schedule[0]), schedule[1..])
  }

  predicate Over(s: State) {
    (s.publisher.Finished? || s.publisher.Raised?) && s.reader.ReaderFinished?
  }

  // ---- The invariant

  function Count(b: bool): nat {
    if b then 1 else 0
  }

  /** The publisher has put the lease into the table, or would have if there were one. */
  predicate PastStore(at: PublisherAt) {
    at.Check? || at.Pop? || at.HandBack? || at.Announce? || at.Finished?
  }

  predicate PastPop(at: ReaderAt) {
    !at.SetDone? && !at.ReaderPop?
  }

  predicate PastFlag(at: ReaderAt) {
    at.ReaderAnnounce? || at.ReaderFinished?
  }

  /** One of the two threads takes the announcement on itself, and only once it is due. */
  ghost predicate NotifyInv(c: Config, publisher: PublisherAt, reader: ReaderAt, live: Live, notes: Notes) {
    && (!c.published ==> publisher.Finished?)
    && (live.done <==> !reader.SetDone?)
    && (live.background <==> c.published && !publisher.Flag?)
    && (live.notified ==> live.background && live.done)
    && (live.notified <==> notes.byPublisher || notes.byReader)
    && !(notes.byPublisher && notes.byReader)
    && (notes.byReader ==> PastFlag(reader))
    && (PastFlag(reader) && live.background ==> live.notified)
    && notes.announced ==
      Count(notes.byPublisher && publisher.Finished?) + Count(notes.byReader && reader.ReaderFinished?)
  }

  /** How far the publisher is says whether the lease was retained. */
  ghost predicate RetainInv(c: Config, publisher: PublisherAt, l: Lease) {
    && (!c.published ==> publisher.Finished?)
    && l.retained == Count(c.published && c.bound && !c.retainRaises && !publisher.Flag? && !publisher.Retain?)
    && (publisher.Raised? ==> c.bound && c.retainRaises)
    && (publisher.Store? || publisher.Check? || publisher.Pop? || publisher.HandBack? ==> l.retained == 1)
    && ((publisher.Announce? || publisher.Finished?) && c.published && c.bound ==> !c.retainRaises)
  }

  /** A lease that was retained is in the table, or in the hands of the one thread that took it out. */
  ghost predicate LeaseInv(c: Config, publisher: PublisherAt, reader: ReaderAt, l: Lease) {
    var stored := PastStore(publisher) && l.retained == 1;
    && (l.readerTook ==> PastPop(reader) && stored)
    && (l.publisherTook ==> (publisher.HandBack? || publisher.Announce? || publisher.Finished?) && stored)
    && !(l.readerTook && l.publisherTook)
    && (l.entry <==> stored && !l.readerTook && !l.publisherTook)
    && (publisher.HandBack? ==> !l.entry)
    && l.released ==
      if c.attached then Count(l.publisherTook && !publisher.HandBack?) + Count(l.readerTook && !reader.ReaderHandBack?) else 0
  }

  /** An entry that both threads have left behind was passed over because the command was no longer known. */
  ghost predicate KnownInv(publisher: PublisherAt, reader: ReaderAt, l: Lease, known: Known) {
    && (l.entry && PastPop(reader) ==> publisher.Check? || publisher.Pop? || !known.atCheck)
    && (publisher.Pop? || publisher.HandBack? || l.publisherTook ==> known.atCheck && !reader.SetDone?)
  }

  ghost predicate Inv(c: Config, s: State) {
    && NotifyInv(c, s.publisher, s.reader, s.live, s.notes)
    && RetainInv(c, s.publisher, s.lease)
    && LeaseInv(c, s.publisher, s.reader, s.lease)
    && KnownInv(s.publisher, s.reader, s.lease, s.known)
  }

  lemma NotifyStep(c: Config, s: State, actor: Actor)
    requires NotifyInv(c, s.publisher, s.reader, s.live, s.notes)
    ensures var t := Step(c, s, actor); NotifyInv(c, t.publisher, t.reader, t.live, t.notes)
  {
    hide PublisherLease, ReaderLease;
  }

  lemma RetainStep(c: Config, s: State, actor: Actor)
    requires RetainInv(c, s.publisher, s.lease)
    ensures var t := Step(c, s, actor); RetainInv(c, t.publisher, t.lease)
  {
    hide PublisherLive, PublisherNotes, ReaderLive, ReaderNotes;
  }

  lemma LeaseStep(c: Config, s: State, actor: Actor)
    requires RetainInv(c, s.publisher, s.lease) && LeaseInv(c, s.publisher, s.reader, s.lease)
    ensures var t := Step(c, s, actor); LeaseInv(c, t.publisher, t.reader, t.lease)
  {
    hide PublisherLive, PublisherNotes, ReaderLive, ReaderNotes;
  }

  lemma KnownStep(c: Config, s: State, actor: Actor)
    requires Inv(c, s)
    ensures var t := Step(c, s, actor); KnownInv(t.publisher, t.reader, t.lease, t.known)
  {
    hide PublisherLive, PublisherNotes, ReaderLive, ReaderNotes;
  }

  lemma StepKeepsInv(c: Config, s: State, actor: Actor)
    requires Inv(c, s)
    ensures Inv(c, Step(c, s, actor))
  {
    NotifyStep(c, s, actor);
    RetainStep(c, s, actor);
    LeaseStep(c, s, actor);
    KnownStep(c, s, actor);
    hide Step, NotifyInv, RetainInv, LeaseInv, KnownInv;
  }

  lemma {:induction false} RunsKeepInv(c: Config, s: State, schedule: seq<Actor>)
    requires Inv(c, s)
    ensures Inv(c, Run(c, s, schedule))
    decreases schedule
  {
    hide Inv, Step;
    if schedule != [] {
      StepKeepsInv(c, s, schedule[0]);
      RunsKeepInv(c, Step(c, s, schedule[0]), schedule[1..]);
    }
  }

  lemma Reachable(c: Config, schedule: seq<Actor>)
    ensures Inv(c, Run(c, Initial(c), schedule))
  {
    assert Inv(c, Initial(c));
    RunsKeepInv(c, Initial(c), schedule);
  }

  // ---- Main results

  /**
    In every interleaving a published command is announced once, unless retaining its lease raises, and an
    unpublished one never.
   */
  lemma AnnouncedOnce(c: Config, schedule: seq<Actor>)
    ensures
      var s := Run(c, Initial(c), schedule);
      && s.notes.announced <= 1
      && (!c.published ==> s.notes.announced == 0)
      && (Over(s) && c.published ==> (s.notes.announced == 1 <==> !(s.publisher.Raised? && s.notes.byPublisher)))
  {
    Reachable(c, schedule);
    hide Run, Initial;
  }

  /**
    A retained lease is released at most once, and when both threads are through it has been
    released exactly when the execution has a coordinator of its own and one of them took the
    entry out of the table, which fails exactly if the reader found none and the command was
    forgotten before the publisher looked.
   */
  lemma HandedBackOnce(c: Config, schedule: seq<Actor>)
    ensures
      var s := Run(c, Initial(c), schedule);
      && s.lease.released <= s.lease.retained <= 1 && (s.lease.entry ==> s.lease.retained == 1)
      && (Over(s) ==> (s.lease.retained == 1 <==> c.published && c.bound && !c.retainRaises))
      && (Over(s) && s.lease.retained == 1 ==>
            && (s.lease.entry <==> !s.known.atCheck && !s.lease.readerTook)
            && (s.lease.released == 1 <==> c.attached && (s.known.atCheck || s.lease.readerTook)))
  {
    Reachable(c, schedule);
    hide Run, Initial;
  }

  /**
    At no moment of any schedule has the lease been handed back, or the end been announced, before
    the command was done; and only the end of a published command is announced.
   */
  lemma NotBeforeTheEnd(c: Config, schedule: seq<Actor>)
    ensures
      var s := Run(c, Initial(c), schedule);
      && (s.lease.released > 0 ==> s.live.done && s.lease.retained == 1)
      && (s.notes.announced > 0 ==> s.live.done && s.live.background)
      && (s.live.done <==> Reader in schedule)
  {
    Reachable(c, schedule);
    RunIsSeen(c, schedule);
    StepsMade(schedule, Reader);
    hide Run, Initial;
  }

  lemma {:induction false} StepsMade(schedule: seq<Actor>, actor: Actor)
    ensures Steps(schedule, actor) > 0 <==> actor in schedule
    decreases |schedule|
  {
    if schedule != [] {
      var n := |schedule| - 1;
      assert schedule == schedule[..n] + [schedule[n]];
      StepsMade(schedule[..n], actor);
    }
  }

  // ---- The same, read off the schedule

  function Steps(schedule: seq<Actor>, actor: Actor): nat {
    if schedule == [] then 0
    else Steps(schedule[..|schedule| - 1], actor) + Count(schedule[|schedule| - 1] == actor)
  }

  /** The reader's first step, setting the done flag, comes before the publisher's first, which looks at it. */
  predicate DoneFirst(schedule: seq<Actor>) {
    schedule != [] &&
    var before, last := schedule[..|schedule| - 1], schedule[|schedule| - 1];
    DoneFirst(before) || (last == Publisher && Steps(before, Publisher) == 0 && Steps(before, Reader) >= 1)
  }

  /** The publisher's third step, the store, comes before the reader's second, its look at the table. */
  predicate StoredFirst(schedule: seq<Actor>) {
    schedule != [] &&
    var before, last := schedule[..|schedule| - 1], schedule[|schedule| - 1];
    StoredFirst(before) || (last == Reader && Steps(before, Reader) == 1 && Steps(before, Publisher) >= 3)
  }

  /** close() comes before the publisher's fourth step, its look whether the reader has been. */
  predicate ClosedFirst(schedule: seq<Actor>) {
    schedule != [] &&
    var before, last := schedule[..|schedule| - 1], schedule[|schedule| - 1];
    ClosedFirst(before) || (last == Publisher && Steps(before, Publisher) == 3 && Closer in before)
  }

  /** How many steps a thread has made says where it is. */
  ghost predicate Placed(c: Config, s: State, publisher: nat, reader: nat) {
    PublisherPlaced(c, s.publisher, publisher) && ReaderPlaced(s.reader, reader)
  }

  ghost predicate ReaderPlaced(at: ReaderAt, steps: nat) {
    (steps == 0 <==> at.SetDone?) && (steps == 1 <==> at.ReaderPop?)
  }

  ghost predicate PublisherPlaced(c: Config, at: PublisherAt, steps: nat) {
    && (c.published ==> (steps == 0 <==> at.Flag?) && (steps == 1 <==> at.Retain?))
    && (c.published && c.bound && !c.retainRaises ==>
          && (steps == 2 <==> at.Store?) && (steps == 3 <==> at.Check?) && (steps >= 3 <==> PastStore(at)))
  }

  /** The order of the steps so far says what the threads have seen. */
  ghost predicate Seen(c: Config, s: State, schedule: seq<Actor>) {
    && (s.known.now <==> Closer !in schedule) && (s.known.now ==> s.known.atCheck)
    && (c.published ==> (s.notes.byPublisher <==> DoneFirst(schedule)))
    && (c.published && c.bound && !c.retainRaises ==>
          && (s.known.atCheck <==> !ClosedFirst(schedule))
          && (StoredFirst(schedule) ==> !s.lease.entry && PastPop(s.reader) && PastStore(s.publisher))
          && (s.lease.readerTook ==> StoredFirst(schedule)))
  }

  lemma StepsMore(schedule: seq<Actor>, actor: Actor)
    ensures var longer := schedule + [actor];
      && longer[..|longer| - 1] == schedule && longer[|longer| - 1] == actor
      && forall a :: Steps(longer, a) == Steps(schedule, a) + Count(a == actor)
  {
    assert (schedule + [actor])[..|schedule|] == schedule;
  }

  lemma PublisherAdvances(c: Config, s: State, steps: nat)
    requires PublisherPlaced(c, s.publisher, steps) && (s.publisher.Raised? ==> c.retainRaises)
    ensures PublisherPlaced(c, PublisherGoes(c, s), steps + 1)
  {
  }

  lemma ReaderAdvances(at: ReaderAt, steps: nat)
    requires ReaderPlaced(at, steps)
    ensures ReaderPlaced(ReaderGoes(at), steps + 1)
  {
  }

  lemma PlacedStep(c: Config, s: State, actor: Actor, publisher: nat, reader: nat)
    requires Inv(c, s) && Placed(c, s, publisher, reader)
    ensures Placed(c, Step(c, s, actor), publisher + Count(actor == Publisher), reader + Count(actor == Reader))
  {
    assert s.publisher.Raised? ==> c.retainRaises;
    PublisherAdvances(c, s, publisher);
    ReaderAdvances(s.reader, reader);
    hide PublisherPlaced, ReaderPlaced, Inv, PublisherGoes, ReaderGoes;
    hide PublisherLive, PublisherNotes, PublisherLease, ReaderLive, ReaderNotes, ReaderLease;
  }

  lemma NotesSeen(c: Config, s: State, schedule: seq<Actor>, actor: Actor)
    requires Inv(c, s) && Placed(c, s, Steps(schedule, Publisher), Steps(schedule, Reader)) && Seen(c, s, schedule)
    requires c.published
    ensures Step(c, s, actor).notes.byPublisher <==> DoneFirst(schedule + [actor])
  {
    StepsMore(schedule, actor);
    hide Steps, PublisherLease, ReaderLease, StoredFirst, ClosedFirst;
  }

  lemma CheckSeen(c: Config, s: State, schedule: seq<Actor>, actor: Actor)
    requires Inv(c, s) && Placed(c, s, Steps(schedule, Publisher), Steps(schedule, Reader)) && Seen(c, s, schedule)
    requires c.published && c.bound && !c.retainRaises
    ensures Step(c, s, actor).known.atCheck <==> !ClosedFirst(schedule + [actor])
  {
    StepsMore(schedule, actor);
    hide Steps, PublisherLease, ReaderLease, PublisherNotes, ReaderNotes, StoredFirst, DoneFirst;
  }

  lemma StoreSeen(c: Config, s: State, schedule: seq<Actor>, actor: Actor)
    requires Inv(c, s) && Placed(c, s, Steps(schedule, Publisher), Steps(schedule, Reader)) && Seen(c, s, schedule)
    requires c.published && c.bound && !c.retainRaises
    ensures var t, longer := Step(c, s, actor), schedule + [actor];
      && (StoredFirst(longer) ==> !t.lease.entry && PastPop(t.reader) && PastStore(t.publisher))
      && (t.lease.readerTook ==> StoredFirst(longer))
  {
    StepsMore(schedule, actor);
    hide Steps, PublisherNotes, ReaderNotes, ClosedFirst, DoneFirst;
  }

  lemma SeenStep(c: Config, s: State, schedule: seq<Actor>, actor: Actor)
    requires Inv(c, s) && Placed(c, s, Steps(schedule, Publisher), Steps(schedule, Reader)) && Seen(c, s, schedule)
    ensures Seen(c, Step(c, s, actor), schedule + [actor])
  {
    if c.published {
      NotesSeen(c, s, schedule, actor);
      if c.bound && !c.retainRaises {
        CheckSeen(c, s, schedule, actor);
        StoreSeen(c, s, schedule, actor);
      }
    }
    hide Steps, StoredFirst, ClosedFirst, DoneFirst, Inv;
  }

  ghost predicate Follows(c: Config, s: State, schedule: seq<Actor>) {
    Inv(c, s) && Placed(c, s, Steps(schedule, Publisher), Steps(schedule, Reader)) && Seen(c, s, schedule)
  }

  lemma FollowsStep(c: Config, s: State, schedule: seq<Actor>, actor: Actor)
    requires Follows(c, s, schedule)
    ensures Follows(c, Step(c, s, actor), schedule + [actor])
  {
    hide Step, Inv, Placed, Seen, Steps;
    StepsMore(schedule, actor);
    StepKeepsInv(c, s, actor);
    PlacedStep(c, s, actor, Steps(schedule, Publisher), Steps(schedule, Reader));
    SeenStep(c, s, schedule, actor);
  }

  lemma StartFollows(c: Config)
    ensures Run(c, Initial(c), []) == Initial(c) && Follows(c, Initial(c), [])
  {
    Reachable(c, []);
    hide Inv;
  }

  lemma {:induction false} RunIsSeen(c: Config, schedule: seq<Actor>)
    ensures Follows(c, Run(c, Initial(c), schedule), schedule)
    decreases |schedule|
  {
    if schedule == [] {
      StartFollows(c);
    } else {
      var before, last := schedule[..|schedule| - 1], schedule[|schedule| - 1];
      hide *;
      RunIsSeen(c, before);
      FollowsStep(c, Run(c, Initial(c), before), before, last);
      RunSnoc(c, Initial(c), before, last);
      assert before + [last] == schedule;
    }
  }

  /**
    For every schedule that lets both threads finish: a retained lease is released exactly when a
    coordinator is attached and either it was stored before the reader looked, or close() did not
    come before the publisher looked.
   */
  lemma HandedBackExactly(c: Config, schedule: seq<Actor>)
    requires Over(Run(c, Initial(c), schedule)) && c.published && c.bound && !c.retainRaises
    ensures Run(c, Initial(c), schedule).lease.released
         == Count(c.attached && (StoredFirst(schedule) || !ClosedFirst(schedule)))
  {
    HandedBackOnce(c, schedule);
    RunIsSeen(c, schedule);
    hide Run, Initial, StoredFirst, ClosedFirst, DoneFirst;
  }

  /** And its end is announced unless the reader was done before the publisher, and retaining the lease raises. */
  lemma AnnouncedExactly(c: Config, schedule: seq<Actor>)
    requires Over(Run(c, Initial(c), schedule)) && c.published
    ensures Run(c, Initial(c), schedule).notes.announced == Count(!(c.bound && c.retainRaises && DoneFirst(schedule)))
  {
    AnnouncedOnce(c, schedule);
    RunIsSeen(c, schedule);
    hide Run, Initial, StoredFirst, ClosedFirst, DoneFirst;
  }

  lemma {:induction false} StaysKnown(c: Config, s: State, schedule: seq<Actor>)
    requires s.known == Known(true, true) && Closer !in schedule
    ensures Run(c, s, schedule).known == Known(true, true)
    decreases schedule
  {
    if schedule != [] {
      StaysKnown(c, Step(c, s, schedule[0]), schedule[1..]);
    }
  }

  /** With a coordinator attached and no close() in between, nothing is left behind. */
  lemma CleanHandBack(c: Config, schedule: seq<Actor>)
    requires c.attached && Closer !in schedule
    ensures
      var s := Run(c, Initial(c), schedule);
      Over(s) ==> s.lease.released == s.lease.retained && !s.lease.entry
  {
    HandedBackOnce(c, schedule);
    StaysKnown(c, Initial(c), schedule);
    hide Run, Initial;
  }

  // ---- What can go wrong

  lemma {:induction false} RunSnoc(c: Config, s: State, schedule: seq<Actor>, actor: Actor)
    ensures Run(c, s, schedule + [actor]) == Step(c, Run(c, s, schedule), actor)
    decreases schedule
  {
    if schedule == [] {
      assert [] + [actor] == [actor];
      assert Run(c, Step(c, s, actor), [actor][1..]) == Step(c, s, actor);
    } else {
      assert (schedule + [actor])[1..] == schedule[1..] + [actor];
      RunSnoc(c, Step(c, s, schedule[0]), schedule[1..], actor);
    }
  }

  /** Let one thread make the next step of a run that has come to s. */
  lemma Go(c: Config, schedule: seq<Actor>, s: State, actor: Actor) returns (longer: seq<Actor>, t: State)
    requires s == Run(c, Initial(c), schedule)
    ensures t == Run(c, Initial(c), longer) == Step(c, s, actor)
    ensures longer == schedule + [actor]
  {
    RunSnoc(c, Initial(c), schedule, actor);
    longer, t := schedule + [actor], Step(c, s, actor);
  }

  /** close() between the reader's look at the table and the publisher's leaves the lease with nobody. */
  lemma ForgottenLease() returns (c: Config, schedule: seq<Actor>)
    ensures c.attached
    ensures var s := Run(c, Initial(c), schedule); Over(s) && s.lease.retained == 1 && s.lease.released == 0
  {
    c, schedule := Config(true, true, true, false), [];
    var s := Initial(c);
    hide Run;
    assert s == Run(c, Initial(c), []) by { RunNothing(c, s); }
    schedule, s := Go(c, schedule, s, Publisher);
    schedule, s := Go(c, schedule, s, Publisher);
    assert s == State(Store, SetDone, Live(false, true, false), Notes(false, false, 0), Lease(false, false, false, 1, 0), Known(true, true));
    schedule, s := Go(c, schedule, s, Reader);
    schedule, s := Go(c, schedule, s, Reader);
    schedule, s := Go(c, schedule, s, Closer);
    assert s == State(Store, ReaderHandBack, Live(true, true, false), Notes(false, false, 0), Lease(false, false, false, 1, 0), Known(false, true));
    schedule, s := Go(c, schedule, s, Publisher);
    schedule, s := Go(c, schedule, s, Publisher);
    schedule, s := Go(c, schedule, s, Publisher);
    assert s == State(Finished, ReaderHandBack, Live(true, true, false), Notes(false, false, 0), Lease(true, false, false, 1, 0), Known(false, false));
    schedule, s := Go(c, schedule, s, Reader);
    schedule, s := Go(c, schedule, s, Reader);
    schedule, s := Go(c, schedule, s, Reader);
  }

  lemma RunNothing(c: Config, s: State)
    ensures Run(c, s, []) == s
  {
  }

  /** Without a coordinator of its own the execution retains through the binding and never releases. */
  lemma UnattachedLease() returns (c: Config, schedule: seq<Actor>)
    ensures !c.attached && Closer !in schedule
    ensures var s := Run(c, Initial(c), schedule); Over(s) && s.lease.retained == 1 && s.lease.released == 0
  {
    c, schedule := Config(true, true, false, false), [];
    var s := Initial(c);
    hide Run;
    assert s == Run(c, Initial(c), []) by { RunNothing(c, s); }
    schedule, s := Go(c, schedule, s, Publisher);
    schedule, s := Go(c, schedule, s, Publisher);
    schedule, s := Go(c, schedule, s, Publisher);
    assert s == State(Check, SetDone, Live(false, true, false), Notes(false, false, 0), Lease(true, false, false, 1, 0), Known(true, true));
    schedule, s := Go(c, schedule, s, Publisher);
    schedule, s := Go(c, schedule, s, Publisher);
    assert s == State(Finished, SetDone, Live(false, true, false), Notes(false, false, 0), Lease(true, false, false, 1, 0), Known(true, true));
    schedule, s := Go(c, schedule, s, Reader);
    schedule, s := Go(c, schedule, s, Reader);
    schedule, s := Go(c, schedule, s, Reader);
    assert s == State(Finished, ReaderFlag, Live(true, true, false), Notes(false, false, 0), Lease(false, false, true, 1, 0), Known(true, true));
    schedule, s := Go(c, schedule, s, Reader);
    schedule, s := Go(c, schedule, s, Reader);
  }

  /** A publisher that has taken on the announcement and then fails to retain the lease never makes it. */
  lemma LostAnnouncement() returns (c: Config, schedule: seq<Actor>)
    ensures var s := Run(c, Initial(c), schedule); c.published && Over(s) && s.notes.announced == 0
  {
    c, schedule := Config(true, true, true, true), [];
    var s := Initial(c);
    hide Run;
    assert s == Run(c, Initial(c), []) by { RunNothing(c, s); }
    schedule, s := Go(c, schedule, s, Reader);
    schedule, s := Go(c, schedule, s, Publisher);
    schedule, s := Go(c, schedule, s, Publisher);
    assert s == State(Raised, ReaderPop, Live(true, true, true), Notes(true, false, 0), Lease(false, false, false, 0, 0), Known(true, true));
    schedule, s := Go(c, schedule, s, Reader);
    schedule, s := Go(c, schedule, s, Reader);
    schedule, s := Go(c, schedule, s, Reader);
    schedule, s := Go(c, schedule, s, Reader);
  }

  // ---- The threads themselves

  /** The fields both threads work on, and how far each thread has come. */
  class Command {
    const c: Config
    var publisher: PublisherAt
    var reader: ReaderAt
    var done: bool
    var background: bool
    var notified: bool
    var publisherNotifies: bool
    var readerNotifies: bool
    var announced: nat
    var entry: bool
    var publisherLease: bool
    var readerLease: bool
    var retained: nat
    var released: nat
    var known: bool
    var knownAtCheck: bool

    function Snapshot(): State reads this {
      State(publisher, reader, Live(done, background, notified), Notes(publisherNotifies, readerNotifies, announced),
            Lease(entry, publisherLease, readerLease, retained, released), Known(known, knownAtCheck))
    }

    constructor (c: Config)
      ensures this.c == c && Snapshot() == Initial(c)
    {
      this.c := c;
      publisher, reader := if c.published then Flag else Finished, SetDone;
      done, background, notified := false, false, false;
      publisherNotifies, readerNotifies, announced := false, false, 0;
      entry, publisherLease, readerLease, retained, released := false, false, false, 0, 0;
      known, knownAtCheck := true, true;
    }

    /** The publisher's locked section: the command is in the background, and may have ended already. */
    method MarkBackground()
      requires publisher.Flag?
      modifies this
      ensures Snapshot() == PublisherStep(c, old(Snapshot()))
    {
      background := true;
      if done && !notified {
        notified, publisherNotifies := true, true;
      }
      publisher := Retain;
    }

    /** Keep the directory occupied, then see whether the reader has already been and gone. */
    method RetainBackground()
      requires publisher.Retain? || publisher.Store? || publisher.Check?
      modifies this
      ensures Snapshot() == PublisherStep(c, old(Snapshot()))
    {
      if publisher.Store? {
        entry := true;
        publisher := Check;
      } else if publisher.Check? {
        knownAtCheck := known;
        publisher := if known && done then Pop else Announce;
      } else if !c.bound {
        publisher := Announce;
      } else if c.retainRaises {
        publisher := Raised;
      } else {
        retained := retained + 1;
        publisher := Store;
      }
    }

    /** The publisher takes the entry out and releases what it got. */
    method PublisherReleases()
      requires publisher.Pop? || publisher.HandBack?
      modifies this
      ensures Snapshot() == PublisherStep(c, old(Snapshot()))
    {
      if publisher.Pop? {
        publisherLease, entry := entry, false;
        publisher := HandBack;
      } else {
        if publisherLease && c.attached {
          released := released + 1;
        }
        publisher := Announce;
      }
    }

    /** The publisher's next step. */
    method Publish()
      modifies this
      ensures Snapshot() == PublisherStep(c, old(Snapshot()))
    {
      if publisher.Flag? {
        MarkBackground();
      } else if publisher.Retain? || publisher.Store? || publisher.Check? {
        RetainBackground();
      } else if publisher.Pop? || publisher.HandBack? {
        PublisherReleases();
      } else if publisher.Announce? {
        if publisherNotifies {
          announced := announced + 1;
        }
        publisher := Finished;
      }
    }

    /** The reader takes the entry out and releases what it got. */
    method ReaderReleases()
      requires reader.ReaderPop? || reader.ReaderHandBack?
      modifies this
      ensures Snapshot() == ReaderStep(c, old(Snapshot()))
    {
      if reader.ReaderPop? {
        readerLease, entry := entry, false;
        reader := ReaderHandBack;
      } else {
        if readerLease && c.attached {
          released := released + 1;
        }
        reader := ReaderFlag;
      }
    }

    /** The reader's next step, once the process group is gone. */
    method Read()
      modifies this
      ensures Snapshot() == ReaderStep(c, old(Snapshot()))
    {
      if reader.SetDone? {
        done := true;
        reader := ReaderPop;
      } else if reader.ReaderPop? || reader.ReaderHandBack? {
        ReaderReleases();
      } else if reader.ReaderFlag? {
        if background && !notified {
          notified, readerNotifies := true, true;
        }
        reader := ReaderAnnounce;
      } else if reader.ReaderAnnounce? {
        if readerNotifies {
          announced := announced + 1;
        }
        reader := ReaderFinished;
      }
    }

    method Play(schedule: seq<Actor>)
      modifies this
      ensures Snapshot() == Run(c, old(Snapshot()), schedule)
    {
      for k := 0 to |schedule|
        invariant Snapshot() == Run(c, old(Snapshot()), schedule[..k])
      {
        RunSnoc(c, old(Snapshot()), schedule[..k], schedule[k]);
        assert schedule[..k + 1] == schedule[..k] + [schedule[k]];
        match schedule[k]
        case Publisher => Publish();
        case Reader => Read();
        case Closer => known := false;
      }
      assert schedule[..|schedule|] == schedule;
    }
  }
}
