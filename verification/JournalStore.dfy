// The process side of the journal: the methods that read and change the disk, in
// memory and on disk, one atomic step at a time.
module JournalStore {
  import opened Base
  import opened Journal

  /** What the environment makes of one disk step. */
  datatype Fate = Works | RaisesBefore | RaisesAfter | DiesBefore | DiesAfter {
    predicate TakesEffect() {
      Works? || RaisesAfter? || DiesAfter?
    }

    function Outcome(): Outcome {
      match this
      case Works => Ok
      case RaisesBefore => Raised
      case RaisesAfter => Raised
      case DiesBefore => Killed
      case DiesAfter => Killed
    }
  }

  datatype Outcome = Ok | Raised | Killed

  // ---- What a body writes

  /** The paths a body writes. */
  function Written(ops: seq<Op>): set<Path> {
    set op | op in ops && op.Write? :: op.path
  }

  lemma WrittenNext(ops: seq<Op>, i: nat)
    requires i < |ops|
    ensures Written(ops[..i + 1]) == Written(ops[..i]) + if ops[i].Write? then {ops[i].path} else {}
  {
    assert ops[..i + 1] == ops[..i] + [ops[i]];
  }

  /** The body raises nowhere and writes permitted paths only. */
  predicate Finishes(ops: seq<Op>, permitted: set<Path>) {
    forall op :: op in ops ==> !op.Fail? && (op.Write? ==> op.path in permitted)
  }

  lemma {:induction false} FinishesExactly(files: Files, ops: seq<Op>, permitted: set<Path>)
    ensures Direct(files, ops, permitted).finished <==> Finishes(ops, permitted)
    decreases ops
  {
    if ops != [] {
      assert ops == [ops[0]] + ops[1..];
      match ops[0]
      case Read(_) => FinishesExactly(files, ops[1..], permitted);
      case Write(p, c) =>
        if p in permitted {
          FinishesExactly(files[p := c], ops[1..], permitted);
        }
      case Fail =>
    }
  }

  /** A log that a unit with this body has left. */
  ghost predicate LogOf(log: Log, ops: seq<Op>, committed: bool) {
    && log.Log? && log.phase == (if committed then Committed else Prepared)
    && DistinctPaths(log.entries) && Paths(log.entries) == Written(ops)
  }

  // ---- What the fates of the steps make of a unit of work

  /** The fate of the i-th step from here; beyond those that are given, everything works. */
  function FateAt(fates: seq<Fate>, i: nat): Fate {
    if i < |fates| then fates[i] else Works
  }

  function Later(fates: seq<Fate>, n: nat): seq<Fate> {
    if n <= |fates| then fates[n..] else []
  }

  /** n replacements in a row, up to the first failure or through all of them; and the fates that are left. */
  function Replacing(fates: seq<Fate>, n: nat, stopAtFailure: bool): (Outcome, seq<Fate>)
    decreases n
  {
    if n == 0 then (Ok, fates)
    else
      match FateAt(fates, 0).Outcome()
      case Killed => (Killed, Later(fates, 1))
      case Raised =>
        if stopAtFailure then (Raised, Later(fates, 1))
        else AfterFailure(Raised, Replacing(Later(fates, 1), n - 1, false))
      case Ok => Replacing(Later(fates, 1), n - 1, stopAtFailure)
  }

  /** A failure on the way is reported in the end, unless the process dies. */
  function AfterFailure(o: Outcome, end: (Outcome, seq<Fate>)): (Outcome, seq<Fate>) {
    (if o == Raised && end.0 == Ok then Raised else end.0, end.1)
  }

  /** The recovery of a readable log of n entries. */
  function Recovering(fates: seq<Fate>, n: nat): Outcome {
    var r := Replacing(fates, n, false);
    if r.0 == Ok then FateAt(r.1, 0).Outcome() else r.0
  }

  lemma {:induction false} NothingFails(n: nat, stopAtFailure: bool)
    ensures Replacing([], n, stopAtFailure) == (Ok, []) && Recovering([], n) == Ok
  {
    if n > 0 {
      NothingFails(n - 1, stopAtFailure);
      NothingFails(n - 1, false);
    }
  }

  /** The fates that are left behind the recovery of a log of n entries. */
  function AfterLog(fates: seq<Fate>, n: nat): seq<Fate> {
    var r := Replacing(fates, n, false);
    if r.0 == Ok then Later(r.1, 1) else r.1
  }

  /** The recovery of all logs, in name order, up to the first failure. */
  ghost function RecoveryEnd(fates: seq<Fate>, logs: Logs, permitted: set<Path>): (Outcome, seq<Fate>)
    decreases |logs|
  {
    if logs == map[] then (Ok, fates)
    else
      var n := Least(logs.Keys);
      Fewer(logs, n);
      if !Readable(logs[n], permitted) then (Raised, fates)
      else
        var k := |logs[n].entries|;
        if Recovering(fates, k) != Ok then (Recovering(fates, k), AfterLog(fates, k))
        else RecoveryEnd(AfterLog(fates, k), logs - {n}, permitted)
  }

  lemma {:induction false} RecoveryWorks(logs: Logs, permitted: set<Path>)
    requires AllReadable(logs, permitted)
    ensures RecoveryEnd([], logs, permitted) == (Ok, [])
    decreases |logs|
  {
    if logs != map[] {
      var n := Least(logs.Keys);
      Fewer(logs, n);
      NothingFails(|logs[n].entries|, false);
      ReadableWithout(logs, n, permitted);
      assert Later([], 1) == [];
      RecoveryWorks(logs - {n}, permitted);
    }
  }

  lemma NoLogsToRecover(fates: seq<Fate>, permitted: set<Path>)
    ensures RecoveryEnd(fates, map[], permitted) == (Ok, fates)
  {
  }

  lemma UnitWorks(n: nat)
    ensures UnitEnd([], n).outcome == Ok
  {
    NothingFails(n, true);
  }

  /** How a unit ended, and whether its COMMITTED record reached the disk. */
  datatype End = End(outcome: Outcome, committed: bool)

  function Failed(fates: seq<Fate>, n: nat, committed: bool): End {
    End(if Recovering(fates, n) == Killed then Killed else Raised, committed)
  }

  /** The end of a unit that has changed n files. */
  function UnitEnd(fates: seq<Fate>, n: nat): End {
    if n == 0 then End(Ok, false)
    else if FateAt(fates, 0) != Works then End(FateAt(fates, 0).Outcome(), false)
    else ApplyEnd(Later(fates, 1), n)
  }

  /** The end of a unit whose PREPARED record has been written. */
  function ApplyEnd(fates: seq<Fate>, n: nat): End {
    var r := Replacing(fates, n, true);
    match r.0
    case Killed => End(Killed, false)
    case Raised => Failed(r.1, n, false)
    case Ok =>
      var record := FateAt(r.1, 0);
      match record.Outcome()
      case Killed => End(Killed, record.TakesEffect())
      case Raised => Failed(Later(r.1, 1), n, record.TakesEffect())
      case Ok => End(FateAt(Later(r.1, 1), 0).Outcome(), true)
  }

  ghost predicate AllWork(fates: seq<Fate>, n: nat) {
    forall i :: 0 <= i < n ==> FateAt(fates, i) == Works
  }

  lemma {:induction false} ReplacingWorks(fates: seq<Fate>, n: nat)
    ensures Replacing(fates, n, true).0 == Ok <==> AllWork(fates, n)
    ensures AllWork(fates, n) ==> Replacing(fates, n, true) == (Ok, Later(fates, n))
    decreases n
  {
    if n > 0 {
      var rest := Later(fates, 1);
      assert forall i: nat :: FateAt(rest, i) == FateAt(fates, i + 1);
      assert Later(rest, n - 1) == Later(fates, n);
      ReplacingWorks(rest, n - 1);
      if AllWork(rest, n - 1) && FateAt(fates, 0) == Works {
        forall i | 0 <= i < n ensures FateAt(fates, i) == Works {
          assert i > 0 ==> FateAt(rest, i - 1) == Works;
        }
      }
    }
  }

  /** Replacements that go on after a failure make all their steps unless one of them kills the process. */
  lemma {:induction false} GoingOnExactly(fates: seq<Fate>, n: nat)
    ensures Replacing(fates, n, false).0 == Killed <==> !NoneKills(fates, n)
    ensures NoneKills(fates, n) ==> Replacing(fates, n, false).1 == Later(fates, n)
    ensures Replacing(fates, n, false).0 == Ok <==> AllWork(fates, n)
    decreases n
  {
    if n > 0 {
      var rest := Later(fates, 1);
      Onwards(fates, n);
      GoingOnExactly(rest, n - 1);
      hide AllWork, NoneKills;
    }
  }

  lemma Onwards(fates: seq<Fate>, n: nat)
    requires n > 0
    ensures Later(Later(fates, 1), n - 1) == Later(fates, n)
    ensures NoneKills(fates, n) <==> FateAt(fates, 0).Outcome() != Killed && NoneKills(Later(fates, 1), n - 1)
    ensures AllWork(fates, n) <==> FateAt(fates, 0) == Works && AllWork(Later(fates, 1), n - 1)
  {
    var rest := Later(fates, 1);
    assert forall i: nat :: FateAt(rest, i) == FateAt(fates, i + 1);
    if NoneKills(rest, n - 1) {
      forall i | 0 < i < n ensures FateAt(fates, i).Outcome() != Killed {
        assert FateAt(rest, i - 1).Outcome() != Killed;
      }
    }
    if AllWork(rest, n - 1) {
      forall i | 0 < i < n ensures FateAt(fates, i) == Works {
        assert FateAt(rest, i - 1) == Works;
      }
    }
  }

  ghost predicate NoneKills(fates: seq<Fate>, n: nat) {
    forall i :: 0 <= i < n ==> FateAt(fates, i).Outcome() != Killed
  }

  /** Replacements that stop at a failure end as the first step that does not work. */
  lemma {:induction false} StoppingExactly(fates: seq<Fate>, n: nat, i: nat)
    requires i < n && AllWork(fates, i) && FateAt(fates, i) != Works
    ensures Replacing(fates, n, true) == (FateAt(fates, i).Outcome(), Later(fates, i + 1))
    decreases n
  {
    if i > 0 {
      var rest := Later(fates, 1);
      Onwards(fates, i);
      Onwards(fates, i + 1);
      assert FateAt(rest, i - 1) == FateAt(fates, i);
      StoppingExactly(rest, n - 1, i - 1);
    }
  }

  /**
    The recovery of a log of n entries works exactly when its replacements and the unlink do; the process dies
    exactly in one of the replacements, or in the unlink behind n that worked.
   */
  lemma RecoveringExactly(fates: seq<Fate>, n: nat)
    ensures Recovering(fates, n) == Ok <==> AllWork(fates, n + 1)
    ensures Recovering(fates, n) == Killed <==>
      !NoneKills(fates, n) || (AllWork(fates, n) && FateAt(fates, n).Outcome() == Killed)
    ensures NoneKills(fates, n) ==> AfterLog(fates, n) == Later(fates, if AllWork(fates, n) then n + 1 else n)
  {
    GoingOnExactly(fates, n);
    if NoneKills(fates, n) {
      assert FateAt(Later(fates, n), 0) == FateAt(fates, n) && Later(Later(fates, n), 1) == Later(fates, n + 1);
    }
    assert AllWork(fates, n + 1) <==> AllWork(fates, n) && FateAt(fates, n) == Works;
    assert AllWork(fates, n) ==> NoneKills(fates, n);
    hide Replacing;
  }

  /**
    A unit that changes n files commits exactly when its log and its n replacements work and the COMMITTED
    record takes effect, and returns exactly when that record and the unlink work as well. So it raises and is
    committed all the same exactly when the record raises after it has taken effect or the unlink raises,
    and nothing kills the process.
   */
  lemma UnitEndExactly(fates: seq<Fate>, n: nat)
    requires n > 0
    ensures UnitEnd(fates, n).committed <==> AllWork(fates, n + 1) && FateAt(fates, n + 1).TakesEffect()
    ensures UnitEnd(fates, n).outcome == Ok <==> AllWork(fates, n + 3)
    ensures UnitEnd(fates, n) == End(Raised, true) <==>
      && AllWork(fates, n + 1)
      && (|| (FateAt(fates, n + 1) == RaisesAfter && Recovering(Later(fates, n + 2), n) != Killed)
          || (FateAt(fates, n + 1) == Works && FateAt(fates, n + 2).Outcome() == Raised))
  {
    var rest := Later(fates, 1);
    assert forall i: nat :: FateAt(rest, i) == FateAt(fates, i + 1);
    ReplacingWorks(rest, n);
    assert AllWork(fates, n + 1) <==> FateAt(fates, 0) == Works && AllWork(rest, n) by {
      forall i | 0 < i < n + 1 && AllWork(rest, n) ensures FateAt(fates, i) == Works {
        assert FateAt(rest, i - 1) == Works;
      }
    }
    var last := Later(rest, n);
    assert FateAt(last, 0) == FateAt(fates, n + 1) && FateAt(last, 1) == FateAt(fates, n + 2);
    assert Later(last, 1) == Later(fates, n + 2);
    hide Replacing, Recovering;
  }

  /** A unit of work, or a single write outside every unit. */
  datatype Act = Unit(ops: seq<Op>) | Single(path: Path, content: Bytes)

  function Performed(files: Files, act: Act, permitted: set<Path>): Files {
    match act
    case Unit(ops) => Direct(files, ops, permitted).files
    case Single(p, c) => files[p := c]
  }

  /** All acts, one after the other. */
  function Replayed(files: Files, acts: seq<Act>, permitted: set<Path>): Files {
    if acts == [] then files
    else Performed(Replayed(files, acts[..|acts| - 1], permitted), acts[|acts| - 1], permitted)
  }

  ghost predicate AllFinish(acts: seq<Act>, permitted: set<Path>) {
    forall act :: act in acts && act.Unit? ==> Finishes(act.ops, permitted)
  }

  lemma ReplayedNext(files: Files, acts: seq<Act>, i: nat, permitted: set<Path>)
    requires i < |acts|
    ensures Replayed(files, acts[..i + 1], permitted)
         == Performed(Replayed(files, acts[..i], permitted), acts[i], permitted)
  {
    assert acts[..i + 1][..i] == acts[..i];
  }

  lemma {:induction false} ReplayedAppend(files: Files, a: seq<Act>, b: seq<Act>, permitted: set<Path>)
    ensures Replayed(files, a + b, permitted) == Replayed(Replayed(files, a, permitted), b, permitted)
    decreases |b|
  {
    if b == [] {
      assert a + b == a;
    } else {
      var n := |b| - 1;
      assert (a + b)[..|a + b| - 1] == a + b[..n];
      ReplayedAppend(files, a, b[..n], permitted);
    }
  }

  /** The k-th act goes by the name names(k). */
  type Names = nat -> LogName

  /** Acts applied in order, those that were committed and no others. */
  function Serial(files: Files, acts: seq<Act>, k: nat, names: Names, committed: set<LogName>,
                  permitted: set<Path>): Files
    decreases acts
  {
    if acts == [] then files
    else
      var next := if names(k) in committed then Performed(files, acts[0], permitted) else files;
      Serial(next, acts[1..], k + 1, names, committed, permitted)
  }

  /** Acts that come one by one, or together in one transaction. */
  datatype Batch = Alone(act: Act) | Together(acts: seq<Act>)

  function ActsOf(batch: Batch): seq<Act> {
    match batch
    case Alone(act) => [act]
    case Together(acts) => acts
  }

  function AllActs(batches: seq<Batch>): seq<Act>
    decreases batches
  {
    if batches == [] then [] else AllActs(batches[..|batches| - 1]) + ActsOf(batches[|batches| - 1])
  }

  /** From the k-th on, the names are new, and no two are the same. */
  ghost predicate Unused(names: Names, k: nat, committed: set<LogName>, logs: Logs) {
    && (forall i :: k <= i ==> names(i) !in committed && names(i) !in logs)
    && (forall i, j :: 0 <= i < j ==> names(i) != names(j))
  }

  /** The log of a unit that has recorded its entries and has done nothing else. */
  ghost predicate LeftBehind(files: Files, after: Files, log: Log, permitted: set<Path>) {
    && log.Log? && log.phase == Prepared
    && Faithful(files, log.entries) && Paths(log.entries) <= permitted
    && Impose(files, Committed, log.entries) == after
  }

  ghost predicate AllReadable(logs: Logs, permitted: set<Path>) {
    forall n :: n in logs ==> Readable(logs[n], permitted)
  }

  lemma ReadableWithout(logs: Logs, name: LogName, permitted: set<Path>)
    requires name in logs
    ensures AllReadable(logs, permitted) ==> Readable(logs[name], permitted) && AllReadable(logs - {name}, permitted)
  {
    hide Readable;
  }

  lemma NoLogs(files: Files)
    ensures View(Disk(files, map[])) == files
  {
  }

  lemma NothingImposed(files: Files)
    ensures Impose(files, Committed, []) == files
  {
  }

  lemma StandsAlone(files: Files, logs: Logs, name: LogName)
    requires name !in logs
    ensures Standing(files, logs, name) == files && logs - {name} == logs
    ensures logs == map[] ==> View(Disk(files, logs)) == files
  {
  }

  lemma NoOtherLogs(files: Files, logs: Logs, name: LogName)
    requires logs - {name} == map[]
    ensures logs.Keys <= {name} && View(Disk(files, logs)) == Standing(files, logs, name)
    ensures logs == map[] ==> Standing(files, logs, name) == files
  {
    forall n | n in logs ensures n == name {
      assert n != name ==> n in logs - {name};
    }
    StandingIsView(files, logs, name);
  }

  lemma ImposeAgain(files: Files, phase: Phase, entries: seq<Entry>)
    ensures forall now: Files :: AgreeOutside(files, now, Paths(entries)) ==>
              Impose(now, phase, entries) == Impose(files, phase, entries)
    ensures Impose(Impose(files, phase, entries), phase, entries) == Impose(files, phase, entries)
  {
    forall now: Files | AgreeOutside(files, now, Paths(entries))
      ensures Impose(now, phase, entries) == Impose(files, phase, entries)
    {
      ImposeForgets(files, now, phase, entries);
    }
    ImposeOutside(files, phase, entries);
  }

  class Store {
    const permitted: set<Path>
    var files: Files
    var logs: Logs
    var pending: Option<seq<Entry>>
    var active: bool
    var fates: seq<Fate>
    /** The units whose COMMITTED record, and the single writes whose file, has reached the disk. */
    ghost var committed: set<LogName>

    constructor (files: Files, logs: Logs, permitted: set<Path>, fates: seq<Fate>)
      ensures Now() == Disk(files, logs) && this.permitted == permitted && this.fates == fates
      ensures pending == None && !active && committed == {}
    {
      this.files, this.logs, this.permitted, this.fates := files, logs, permitted, fates;
      pending, active, committed := None, false, {};
    }

    ghost function Now(): Disk
      reads this
    {
      Disk(files, logs)
    }

    method NextFate() returns (fate: Fate)
      modifies this`fates
      ensures fate == FateAt(old(fates), 0) && fates == Later(old(fates), 1)
    {
      fate := Works;
      if fates != [] {
        fate := fates[0];
        fates := fates[1..];
      }
    }

    /** Replace or remove one file atomically. */
    method Replace(p: Path, c: Image) returns (o: Outcome)
      modifies this`files, this`fates
      ensures o == FateAt(old(fates), 0).Outcome() && fates == Later(old(fates), 1)
      ensures files == if FateAt(old(fates), 0).TakesEffect() then Put(old(files), p, c) else old(files)
    {
      var fate := NextFate();
      if fate.TakesEffect() {
        files := Put(files, p, c);
      }
      o := fate.Outcome();
    }

    method WriteLog(name: LogName, log: Log) returns (o: Outcome)
      requires log.Log?
      modifies this`logs, this`fates, this`committed
      ensures o == FateAt(old(fates), 0).Outcome() && fates == Later(old(fates), 1)
      ensures if FateAt(old(fates), 0).TakesEffect() then
                && logs == old(logs)[name := log]
                && committed == old(committed) + if log.phase == Committed then {name} else {}
              else logs == old(logs) && committed == old(committed)
    {
      var fate := NextFate();
      if fate.TakesEffect() {
        logs := logs[name := log];
        committed := committed + if log.phase == Committed then {name} else {};
      }
      o := fate.Outcome();
    }

    method UnlinkLog(name: LogName) returns (o: Outcome)
      modifies this`logs, this`fates
      ensures o == FateAt(old(fates), 0).Outcome() && fates == Later(old(fates), 1)
      ensures logs == if FateAt(old(fates), 0).TakesEffect() then old(logs) - {name} else old(logs)
    {
      var fate := NextFate();
      if fate.TakesEffect() {
        logs := logs - {name};
      }
      o := fate.Outcome();
    }

    /** Each replacement that took effect is in place, whatever became of the others. */
    ghost predicate InPlace(files: Files, phase: Phase, entries: seq<Entry>, fates: seq<Fate>, n: nat)
      requires n <= |entries|
    {
      forall i :: 0 <= i < n && FateAt(fates, i).TakesEffect() ==>
        Lookup(files, entries[i].path) == Target(phase, entries[i])
    }

    /** Put every image of the log in place, going on after a failure, and report whether one failed. */
    method ReplaceAll(phase: Phase, entries: seq<Entry>, stopAtFailure: bool) returns (o: Outcome)
      modifies this`files, this`fates
      ensures AgreeOutside(old(files), files, Paths(entries))
      ensures o == Ok ==> files == Impose(old(files), phase, entries)
      ensures (o, fates) == Replacing(old(fates), |entries|, stopAtFailure)
      ensures !stopAtFailure && o != Killed && DistinctPaths(entries) ==>
        InPlace(files, phase, entries, old(fates), |entries|)
    {
      o := Ok;
      var i := 0;
      assert entries[..0] == [];
      while i < |entries|
        invariant 0 <= i <= |entries| && o != Killed
        invariant AgreeOutside(old(files), files, Paths(entries))
        invariant o == Ok ==> files == Impose(old(files), phase, entries[..i])
        invariant Replacing(old(fates), |entries|, stopAtFailure)
                  == AfterFailure(o, Replacing(fates, |entries| - i, stopAtFailure))
        invariant stopAtFailure ==> o == Ok
        invariant fates == Later(old(fates), i)
        invariant DistinctPaths(entries) ==> InPlace(files, phase, entries, old(fates), i)
      {
        var e := entries[i];
        assert e in entries;
        assert entries[..i + 1] == entries[..i] + [e];
        ImposeSnoc(old(files), phase, entries[..i], e);
        PutLookup(files, e.path, Target(phase, e));
        var step := Replace(e.path, Target(phase, e));
        if step == Killed {
          return Killed;
        }
        if step == Raised {
          o := Raised;
          if stopAtFailure {
            return;
          }
        }
        i := i + 1;
      }
      assert entries[..i] == entries;
    }

    method RecoverLog(name: LogName) returns (o: Outcome)
      requires name in logs
      modifies this`files, this`logs, this`fates
      ensures !Readable(old(logs[name]), permitted) ==>
        o == Raised && Now() == old(Now()) && fates == old(fates)
      ensures old(logs[name]).Log? ==> AgreeOutside(old(files), files, Paths(old(logs[name]).entries))
      ensures logs == old(logs) || (logs == old(logs) - {name} && files == Settle(old(files), old(logs[name])))
      ensures o == Ok ==> logs == old(logs) - {name}
      ensures Readable(old(logs[name]), permitted) ==>
        && o == Recovering(old(fates), |old(logs[name]).entries|)
        && fates == AfterLog(old(fates), |old(logs[name]).entries|)
      ensures old(fates) == [] && Readable(old(logs[name]), permitted) ==> o == Ok && fates == []
      ensures Readable(old(logs[name]), permitted) && DistinctPaths(old(logs[name]).entries) && o != Killed ==>
        InPlace(files, old(logs[name]).phase, old(logs[name]).entries, old(fates), |old(logs[name]).entries|)
      ensures IsLeast(name, old(logs.Keys)) ==> View(Now()) == old(View(Now()))
    {
      var log := logs[name];
      if log.Log? {
        NothingFails(|log.entries|, false);
      }
      if log.Damaged? || !(Paths(log.entries) <= permitted) {
        return Raised;
      }
      o := ReplaceAll(log.phase, log.entries, false);
      assert IsLeast(name, logs.Keys) ==> View(Now()) == old(View(Now())) by {
        if IsLeast(name, logs.Keys) {
          ViewIgnoresPartial(old(Now()), name, files);
        }
      }
      if o != Ok {
        return;
      }
      ghost var d := Now();
      o := UnlinkLog(name);
      if IsLeast(name, old(logs.Keys)) && logs != d.logs {
        LeastUnique(name, d.logs.Keys);
        ImposeForgets(old(files), files, log.phase, log.entries);
      }
    }

    method FirstLog() returns (name: LogName)
      requires logs != map[]
      ensures IsLeast(name, logs.Keys)
    {
      LeastExists(logs.Keys);
      name :| name in logs && forall m :: m in logs ==> name <= m;
    }

    /** A first log that cannot be recovered stops the recovery, and those behind it stay. */
    ghost predicate StopsAt(name: LogName, before: Disk, fates: seq<Fate>, after: Disk, o: Outcome)
      requires name in before.logs
    {
      && (!Readable(before.logs[name], permitted) ==> o == Raised && after == before)
      && (Readable(before.logs[name], permitted) && Recovering(fates, |before.logs[name].entries|) != Ok ==>
            o == Recovering(fates, |before.logs[name].entries|) && after.logs - {name} == before.logs - {name})
    }

    ghost predicate RecoversFirst(name: LogName, logs: Logs, fates: seq<Fate>)
      requires name in logs
    {
      Readable(logs[name], permitted) && Recovering(fates, |logs[name].entries|) == Ok
    }

    /** Recover every log, in name order, up to the first failure. */
    method Recover() returns (o: Outcome)
      modifies this`files, this`logs, this`fates
      ensures View(Now()) == old(View(Now())) && logs.Keys <= old(logs.Keys)
      ensures o == Ok ==> logs == map[] && files == old(View(Now()))
      ensures (o, fates) == RecoveryEnd(old(fates), old(logs), permitted)
      ensures old(logs) == map[] ==> o == Ok && files == old(files) && fates == old(fates)
      ensures old(logs) != map[] ==> StopsAt(Least(old(logs).Keys), old(Now()), old(fates), Now(), o)
    {
      hide View, Readable, Recovering, AfterLog;
      o := Ok;
      while logs != map[]
        invariant View(Now()) == old(View(Now())) && logs.Keys <= old(logs.Keys) && o == Ok
        invariant RecoveryEnd(fates, logs, permitted) == RecoveryEnd(old(fates), old(logs), permitted)
        invariant old(logs) == map[] ==> files == old(files) && fates == old(fates)
        invariant (Now() == old(Now()) && fates == old(fates))
                  || (old(logs) != map[] && RecoversFirst(Least(old(logs).Keys), old(logs), old(fates)))
        decreases |logs|
      {
        var name := FirstLog();
        LeastUnique(name, logs.Keys);
        Fewer(logs, name);
        o := RecoverLog(name);
        if o != Ok {
          return;
        }
      }
      NoLogs(files);
    }

    /**
      The end of a unit of work: log, replace, commit, unlink. Until the committed
      record reaches the disk its own log stands for the old files, from then on for
      the new ones; a failure in this process is settled by that log. Logs left over
      from units before it in the same transaction stay as they are.
     */
    method Commit(name: LogName, entries: seq<Entry>) returns (o: Outcome)
      requires name !in logs && name !in committed
      requires Faithful(files, entries) && Paths(entries) <= permitted
      modifies this`files, this`logs, this`fates, this`committed
      ensures committed == old(committed) || committed == old(committed) + {name}
      ensures logs - {name} == old(logs)
      ensures Standing(files, logs, name)
              == if name in committed then Impose(old(files), Committed, entries) else old(files)
      ensures o == Ok ==> name in committed && logs == old(logs)
      ensures name in logs ==> logs[name] == Log(if name in committed then Committed else Prepared, entries)
      ensures entries != [] ==> End(o, name in committed) == UnitEnd(old(fates), |entries|)
      ensures old(fates) == [] ==> o == Ok && fates == []
      ensures old(fates) != [] && old(fates[0]) == RaisesAfter ==>
        && o == Raised && fates == old(fates[1..]) && files == old(files)
        && logs == old(logs)[name := Log(Prepared, entries)]
    {
      RollbackRestores(files, files, entries);
      NothingFails(|entries|, true);
      hide Faithful, Impose, Paths, ApplyEnd;
      o := WriteLog(name, Log(Prepared, entries));
      if o != Ok {
        return;
      }
      o := ApplyEntries(name, entries);
    }

    /** Once the PREPARED record is there: replace, commit, unlink, and after a failure recover by the log on disk. */
    method ApplyEntries(name: LogName, entries: seq<Entry>) returns (o: Outcome)
      requires name in logs && logs[name] == Log(Prepared, entries) && name !in committed
      requires Faithful(files, entries) && Paths(entries) <= permitted
      modifies this`files, this`logs, this`fates, this`committed
      ensures committed == old(committed) || committed == old(committed) + {name}
      ensures logs - {name} == old(logs) - {name}
      ensures Standing(files, logs, name)
              == if name in committed then Impose(old(files), Committed, entries) else old(files)
      ensures o == Ok ==> name in committed && name !in logs
      ensures name in logs ==> logs[name] == Log(if name in committed then Committed else Prepared, entries)
      ensures End(o, name in committed) == ApplyEnd(old(fates), |entries|)
      ensures old(fates) == [] ==> o == Ok && fates == []
    {
      ghost var before := files;
      ghost var after := Impose(files, Committed, entries);
      var log := Log(Prepared, entries);
      ImposeOutside(before, Committed, entries);
      NothingFails(|entries|, true);
      hide Faithful, Impose, Paths, Replacing, Recovering, Failed;
      o := ReplaceAll(Committed, entries, true);
      RollbackRestores(before, files, entries);
      if o == Killed {
        return;
      }
      if o == Ok {
        o := WriteLog(name, log.(phase := Committed));
        ImposeForgets(after, before, Committed, entries);
        if o == Killed {
          return;
        }
      }
      if o == Raised {
        o := AfterRaise(name);
        return;
      }
      o := UnlinkLog(name);
    }

    /** The exception is raised on, whether its own log could be recovered or not. */
    method AfterRaise(name: LogName) returns (o: Outcome)
      requires name in logs && Readable(logs[name], permitted)
      modifies this`files, this`logs, this`fates
      ensures o == if Recovering(old(fates), |old(logs[name]).entries|) == Killed then Killed else Raised
      ensures logs == old(logs) || logs == old(logs) - {name}
      ensures Standing(files, logs, name) == Settle(old(files), old(logs[name]))
    {
      ImposeAgain(files, logs[name].phase, logs[name].entries);
      hide Impose, Paths, Recovering;
      var settled := RecoverLog(name);
      o := if settled == Killed then Killed else Raised;
    }

    /** A read: the overlay of the unit, if there is one, in front of the disk. */
    method ReadBytes(p: Path) returns (c: Image)
      ensures c == match pending case Some(entries) => Seen(files, entries, p) case None => Lookup(files, p)
    {
      if pending.Some? && Buffered(pending.value, p) {
        c := pending.value[IndexIn(pending.value, p)].after;
      } else {
        c := Lookup(files, p);
      }
    }

    /** A write inside a unit of work goes to the overlay; an unregistered target raises. */
    method BufferWrite(p: Path, c: Bytes) returns (ok: bool)
      requires pending.Some?
      modifies this`pending
      ensures ok == (p in permitted)
      ensures pending == if ok then Some(Buffer(files, old(pending.value), p, c)) else old(pending)
    {
      ok := p in permitted;
      if ok {
        var entries := pending.value;
        if Buffered(entries, p) {
          var i := IndexIn(entries, p);
          pending := Some(entries[i := Entry(p, entries[i].before, Some(c))]);
        } else {
          var before := ReadBytes(p);
          pending := Some(entries + [Entry(p, before, Some(c))]);
        }
      }
    }

    /** How entering a transaction ends: only the outermost recovers. */
    ghost function EntryEnd(): (Outcome, seq<Fate>)
      reads this
    {
      if active then (Ok, fates) else RecoveryEnd(fates, logs, permitted)
    }

    /** Enter a transaction: the outermost one recovers before anything else happens. */
    method Enter() returns (o: Outcome)
      modifies this`files, this`logs, this`fates, this`active
      ensures View(Now()) == old(View(Now())) && logs.Keys <= old(logs.Keys)
      ensures old(active) ==> o == Ok && active && Now() == old(Now())
      ensures o == Ok ==> active
      ensures o == Ok && !old(active) ==> logs == map[] && files == old(View(Now()))
      ensures o == Raised ==> !active
      ensures (o, fates) == old(EntryEnd())
      ensures old(active) || old(logs) == map[] ==> o == Ok && fates == old(fates) && Now() == old(Now())
    {
      if active {
        return Ok;
      }
      active := true;
      o := Recover();
      if o == Raised {
        active := false;
      }
    }

    /** A write outside every unit of work is its own transaction, or part of the one that is open. */
    method WriteThrough(p: Path, c: Bytes, ghost name: LogName) returns (o: Outcome)
      requires pending == None && name !in committed
      modifies this`files, this`logs, this`fates, this`active, this`committed
      ensures committed == old(committed) || committed == old(committed) + {name}
      ensures old(active) ==>
        logs == old(logs) && files == if name in committed then old(files)[p := c] else old(files)
      ensures !old(active) || old(logs) == map[] ==>
        && logs.Keys <= old(logs.Keys)
        && View(Now()) == if name in committed then old(View(Now()))[p := c] else old(View(Now()))
      ensures o == Ok ==> name in committed && (!old(active) ==> logs == map[])
      ensures o != Killed ==> active == old(active)
      ensures
        var entry := old(EntryEnd());
        if entry.0 != Ok then o == entry.0 && name !in committed && fates == entry.1
        else
          && o == FateAt(entry.1, 0).Outcome() && fates == Later(entry.1, 1)
          && (name in committed <==> FateAt(entry.1, 0).TakesEffect())
    {
      var outer := !active;
      o := Enter();
      if o != Ok {
        return;
      }
      committed := committed + if FateAt(fates, 0).TakesEffect() then {name} else {};
      o := Replace(p, Some(c));
      if o != Killed && outer {
        active := false;
      }
    }

    /**
      The body of a unit of work. It leaves the disk alone, and what it reads and
      what it leaves in the overlay are what immediate writes would give.
     */
    method Body(ops: seq<Op>) returns (finished: bool, seen: seq<Image>)
      requires pending == Some([])
      modifies this`pending
      ensures pending.Some? && Faithful(files, pending.value) && Paths(pending.value) <= permitted
      ensures finished ==> Paths(pending.value) == Written(ops) && |pending.value| == |Written(ops)|
      ensures Effect(Impose(files, Committed, pending.value), seen, finished) == Direct(files, ops, permitted)
    {
      seen := [];
      var i := 0;
      assert ops[0..] == ops;
      while i < |ops|
        invariant 0 <= i <= |ops|
        invariant pending.Some? && Faithful(files, pending.value) && Paths(pending.value) <= permitted
        invariant Paths(pending.value) == Written(ops[..i])
        invariant Direct(files, ops, permitted) == After(files, pending.value, seen, ops[i..], permitted)
        decreases |ops| - i
      {
        assert ops[i..][0] == ops[i] && ops[i..][1..] == ops[i + 1..];
        WrittenNext(ops, i);
        ghost var was := pending.value;
        match ops[i] {
          case Read(p) =>
            SeenIsDirect(files, pending.value, p);
            var c := ReadBytes(p);
            ReadFirst(files, was, seen, ops[i..], permitted);
            seen := seen + [c];
          case Write(p, c) =>
            BufferIsFaithful(files, was, p, c);
            BufferedPaths(files, was, p, c);
            var ok := BufferWrite(p, c);
            if !ok {
              return false, seen;
            }
          case Fail =>
            return false, seen;
        }
        i := i + 1;
      }
      assert ops[..i] == ops;
      CountPaths(pending.value);
      finished := true;
    }

    /** The body inside the open transaction, and what becomes of it. */
    method Work(ops: seq<Op>, name: LogName) returns (o: Outcome, seen: seq<Image>)
      requires active && pending == None && name !in committed && name !in logs
      modifies this`files, this`logs, this`fates, this`committed, this`pending
      ensures committed == old(committed) || committed == old(committed) + {name}
      ensures logs - {name} == old(logs) && pending == None
      ensures Standing(files, logs, name)
              == if name in committed then Direct(old(files), ops, permitted).files else old(files)
      ensures name in committed ==> Direct(old(files), ops, permitted).finished
      ensures o == Ok ==> logs == old(logs) && Effect(files, seen, true) == Direct(old(files), ops, permitted)
      ensures End(o, name in committed) ==
              if Finishes(ops, permitted) then UnitEnd(old(fates), |Written(ops)|) else End(Raised, false)
      ensures name in logs ==> LogOf(logs[name], ops, name in committed)
      ensures old(fates) == [] ==> fates == []
      ensures FirstLogRaises(ops, old(files), old(fates)) ==>
        && o == Raised && fates == old(fates[1..]) && files == old(files)
        && exists log :: LeftBehind(files, Direct(files, ops, permitted).files, log, permitted)
                         && logs == old(logs)[name := log]
    {
      hide Impose, Paths, Settle, ApplyEnd, Written;
      FinishesExactly(files, ops, permitted);
      pending := Some([]);
      var finished: bool;
      finished, seen := Body(ops);
      var entries := pending.value;
      pending := None;
      assert Impose(files, Committed, []) == files by { NothingImposed(files); }
      assert logs - {name} == logs;
      if !finished {
        return Raised, seen;
      }
      o := Ok;
      if entries != [] {
        assert LeftBehind(files, Impose(files, Committed, entries), Log(Prepared, entries), permitted);
        o := Commit(name, entries);
      }
    }

    /** The body runs to its end and changes something, but writing its log raises although the log is there. */
    ghost predicate FirstLogRaises(ops: seq<Op>, files: Files, fates: seq<Fate>) {
      && Direct(files, ops, permitted).finished && Direct(files, ops, permitted).files != files
      && fates != [] && fates[0] == RaisesAfter
    }

    /** The files a unit of work starts from. */
    ghost function StartOf(): Files
      reads this
    {
      if active then files else View(Now())
    }

    /**
      A whole unit of work. The store goes from the files it stood for to those that
      running the body with immediate writes gives, or does not change; it changes
      exactly when the committed record has reached the disk. A body that raises
      changes nothing, and a unit that returns has left no log behind.

      Inside an outer transaction that is still open nothing is recovered first: the
      unit starts from the files on disk, and what earlier units have left in the
      journal stays there (see StaleLogs).
     */
    method UnitOfWork(ops: seq<Op>, name: LogName) returns (o: Outcome, seen: seq<Image>)
      requires name !in committed && name !in logs
      modifies this`files, this`logs, this`fates, this`committed, this`active, this`pending
      ensures committed == old(committed) || committed == old(committed) + {name}
      ensures o != Killed ==> active == old(active) && pending == old(pending)
      ensures old(active) ==>
        && logs - {name} == old(logs)
        && Standing(files, logs, name)
              == if name in committed then Direct(old(files), ops, permitted).files else old(files)
      ensures !old(active) || old(logs) == map[] ==>
        && logs.Keys <= old(logs.Keys) + {name}
        && View(Now()) == if name in committed then Direct(old(View(Now())), ops, permitted).files else old(View(Now()))
      ensures name in committed ==> Direct(old(StartOf()), ops, permitted).finished
      ensures o == Ok ==>
        && old(pending) == None && logs == (if old(active) then old(logs) else map[])
        && Effect(files, seen, true) == Direct(old(StartOf()), ops, permitted)
      ensures
        var entry := old(EntryEnd());
        End(o, name in committed) ==
        if entry.0 != Ok then End(entry.0, false)
        else if old(pending).Some? || !Finishes(ops, permitted) then End(Raised, false)
        else UnitEnd(entry.1, |Written(ops)|)
      ensures name in logs && name !in old(logs) ==> LogOf(logs[name], ops, name in committed)
      ensures old(EntryEnd()) == (Ok, []) ==> fates == []
      ensures old(active) && old(pending) == None && FirstLogRaises(ops, old(files), old(fates)) ==>
        && o == Raised && fates == old(fates[1..]) && files == old(files)
        && exists log :: LeftBehind(files, Direct(files, ops, permitted).files, log, permitted)
                         && logs == old(logs)[name := log]
    {
      hide Standing, LeftBehind, Direct, FirstLogRaises, View, LogOf, UnitEnd, Written;
      seen := [];
      var outer := !active;
      StandsAlone(files, logs, name);
      o := Enter();
      if o != Ok {
        return;
      }
      assert files == old(StartOf()) && logs == if outer then map[] else old(logs);
      if pending.Some? {
        StandsAlone(files, logs, name);
        active := !outer;
        return Raised, seen;
      }
      o, seen := Work(ops, name);
      if outer || old(logs) == map[] {
        NoOtherLogs(files, logs, name);
      }
      if o != Killed {
        active := !outer;
      }
    }

    /** A new process: memory is gone, the disk is as it was. */
    method Restart()
      modifies this`active, this`pending
      ensures !active && pending == None
    {
      active, pending := false, None;
    }

    /** One act, outside every unit; an open transaction must have no log left over. */
    method Perform(act: Act, name: LogName) returns (o: Outcome)
      requires pending == None && (active ==> logs == map[]) && name !in committed && name !in logs
      modifies this`files, this`logs, this`fates, this`committed, this`active, this`pending
      ensures committed == old(committed) || committed == old(committed) + {name}
      ensures logs.Keys <= old(logs.Keys) + {name}
      ensures View(Now()) == if name in committed then Performed(old(View(Now())), act, permitted) else old(View(Now()))
      ensures o != Killed ==> active == old(active) && pending == None
      ensures o == Ok ==> logs == map[] && View(Now()) == Performed(old(View(Now())), act, permitted)
      ensures old(AllGoesWell([act])) ==> o == Ok && fates == []
    {
      RecoveryGoesWell();
      match act
      case Unit(ops) =>
        UnitWorks(|Written(ops)|);
        ViewWithoutLogs();
        hide Direct, Standing, View, RecoveryEnd, UnitEnd, Written, Finishes;
        var seen;
        o, seen := UnitOfWork(ops, name);
        NoLogs(files);
      case Single(p, c) =>
        hide View, RecoveryEnd;
        o := WriteThrough(p, c, name);
    }

    /** No step on the disk fails, no log is unreadable, and every body runs to its end. */
    ghost predicate AllGoesWell(acts: seq<Act>)
      reads this
    {
      fates == [] && AllReadable(logs, permitted) && AllFinish(acts, permitted)
    }

    lemma RecoveryGoesWell()
      ensures fates == [] && AllReadable(logs, permitted) ==> EntryEnd() == (Ok, [])
    {
      if fates == [] && AllReadable(logs, permitted) {
        RecoveryWorks(logs, permitted);
      }
    }

    lemma ViewWithoutLogs()
      ensures logs == map[] ==> View(Now()) == files
    {
    }

    /** Acts in one transaction, which the first exception leaves. */
    method Transaction(acts: seq<Act>, k: nat, names: Names) returns (o: Outcome)
      requires !active && pending == None && Unused(names, k, committed, logs)
      modifies this`files, this`logs, this`fates, this`committed, this`active, this`pending
      ensures Unused(names, k + |acts|, committed, logs) && SameBefore(names, k, old(committed), committed)
      ensures View(Now()) == Serial(old(View(Now())), acts, k, names, committed, permitted)
      ensures o != Killed ==> !active && pending == None
      ensures o == Ok ==> logs == map[] && View(Now()) == Replayed(old(View(Now())), acts, permitted)
      ensures old(AllGoesWell(acts)) ==> o == Ok && fates == []
    {
      RecoveryGoesWell();
      ghost var fine := AllGoesWell(acts);
      hide View, Performed, Serial, Unused, SameBefore, RecoveryEnd, Finishes;
      ghost var was, start := committed, View(Now());
      StartSerial(start, acts, k, names, committed, logs, permitted);
      o := Enter();
      ForgetLogs(names, k, committed, old(logs), logs);
      var i := 0;
      while i < |acts| && o == Ok
        invariant i <= |acts| && (o != Killed ==> active == (i > 0 || o == Ok) && pending == None)
        invariant o == Ok ==> logs == map[]
        invariant Unused(names, k + i, committed, logs) && SameBefore(names, k, was, committed)
        invariant View(Now()) == Serial(start, acts[..i], k, names, committed, permitted)
        invariant o == Ok ==> View(Now()) == Replayed(start, acts[..i], permitted)
        invariant fine ==> o == Ok && fates == [] && AllFinish(acts, permitted)
      {
        ghost var before, left := committed, logs;
        NextIsUnused(names, k + i, committed, logs);
        ReplayedNext(start, acts, i, permitted);
        o := Perform(acts[i], names(k + i));
        SerialNext(start, acts, i, k, names, was, before, committed, left, logs, permitted);
        i := i + 1;
      }
      SerialStops(start, acts, i, k, names, committed, logs, permitted);
      assert o == Ok ==> acts[..i] == acts;
      if o != Killed {
        active := false;
      }
    }

    /** One act inside an open transaction, whatever logs earlier acts have left there. */
    method PerformOpen(act: Act, name: LogName) returns (o: Outcome)
      requires active && pending == None && name !in committed && name !in logs
      modifies this`files, this`logs, this`fates, this`committed, this`active, this`pending
      ensures committed == old(committed) || committed == old(committed) + {name}
      ensures logs - {name} == old(logs)
      ensures Standing(files, logs, name)
              == if name in committed then Performed(old(files), act, permitted) else old(files)
      ensures name in logs ==> act.Unit? && LogOf(logs[name], act.ops, name in committed)
      ensures o != Killed ==> active && pending == None
      ensures End(o, name in committed) ==
              match act
              case Unit(ops) =>
                if Finishes(ops, permitted) then UnitEnd(old(fates), |Written(ops)|) else End(Raised, false)
              case Single(_, _) => End(FateAt(old(fates), 0).Outcome(), FateAt(old(fates), 0).TakesEffect())
      ensures old(fates) == [] ==> fates == []
      ensures o == Ok ==> logs == old(logs) && files == Performed(old(files), act, permitted)
    {
      hide View, Direct, LogOf, UnitEnd, Finishes;
      match act
      case Unit(ops) =>
        var seen;
        o, seen := UnitOfWork(ops, name);
      case Single(p, c) =>
        o := WriteThrough(p, c, name);
        StandsAlone(files, logs, name);
    }

    /** Acts in one transaction whose caller carries on after every exception. */
    method CarryOn(acts: seq<Act>, k: nat, names: Names) returns (o: Outcome)
      requires active && pending == None && logs == map[] && Unused(names, k, committed, logs)
      modifies this`files, this`logs, this`fates, this`committed, this`active, this`pending
      ensures LeftOver(old(files), acts, k, names, committed, permitted, Now())
      ensures o != Killed ==> active && pending == None
      ensures old(AllGoesWell(acts)) ==> logs == map[] && files == Replayed(old(files), acts, permitted)
    {
      ghost var fine := AllGoesWell(acts);
      hide Performed, Serial, Unused, SameBefore, LeftOver, Standing, LogOf, UnitEnd, Finishes;
      ghost var start := files;
      StartSerial(start, acts, k, names, committed, logs, permitted);
      NothingLeft(start, k, names, committed, permitted);
      o := Ok;
      var i := 0;
      while i < |acts| && o != Killed
        invariant i <= |acts| && (o != Killed ==> active && pending == None)
        invariant Unused(names, k + i, committed, logs)
        invariant LeftOver(start, acts[..i], k, names, committed, permitted, Now())
        invariant fine ==> o == Ok && fates == [] && logs == map[] && AllFinish(acts, permitted)
        invariant fine ==> files == Replayed(start, acts[..i], permitted)
      {
        ghost var d, before := Now(), committed;
        NextIsUnused(names, k + i, committed, logs);
        ReplayedNext(start, acts, i, permitted);
        if acts[i].Unit? {
          UnitWorks(|Written(acts[i].ops)|);
        }
        o := PerformOpen(acts[i], names(k + i));
        LeaveMore(start, acts, i, k, names, before, committed, permitted, d, Now());
        i := i + 1;
      }
      LeftAtEnd(start, acts, i, k, names, committed, permitted, Now());
      assert i == |acts| ==> acts[..i] == acts;
    }

    method RunBatch(batch: Batch, k: nat, names: Names) returns (o: Outcome)
      requires !active && pending == None && Unused(names, k, committed, logs)
      modifies this`files, this`logs, this`fates, this`committed, this`active, this`pending
      ensures Unused(names, k + |ActsOf(batch)|, committed, logs) && SameBefore(names, k, old(committed), committed)
      ensures View(Now()) == Serial(old(View(Now())), ActsOf(batch), k, names, committed, permitted)
      ensures o != Killed ==> !active && pending == None
      ensures o == Ok ==> logs == map[] && View(Now()) == Replayed(old(View(Now())), ActsOf(batch), permitted)
      ensures old(AllGoesWell(ActsOf(batch))) ==> o == Ok && fates == []
    {
      match batch
      case Alone(act) =>
        OneReplayed(View(Now()), act, permitted);
        hide View, Performed, Serial, Unused, SameBefore;
        StartSerial(View(Now()), [act], k, names, committed, logs, permitted);
        NextIsUnused(names, k, committed, logs);
        o := Perform(act, names(k));
        SerialNext(old(View(Now())), [act], 0, k, names, old(committed), old(committed), committed, old(logs), logs,
                   permitted);
        assert [act][..1] == [act];
      case Together(acts) =>
        hide View, Performed, Serial, Unused, SameBefore;
        o := Transaction(acts, k, names);
    }

    /**
      Any number of units and single writes, one by one or several in a transaction, failing,
      crashing and being restarted as the environment likes: the store always stands for the
      committed ones applied in order. If nothing fails these are all of them.
     */
    method History(batches: seq<Batch>, names: Names)
      requires !active && pending == None && Unused(names, 0, committed, logs)
      modifies this`files, this`logs, this`fates, this`committed, this`active, this`pending
      ensures View(Now()) == Serial(old(View(Now())), AllActs(batches), 0, names, committed, permitted)
      ensures old(AllGoesWell(AllActs(batches))) ==>
        View(Now()) == Replayed(old(View(Now())), AllActs(batches), permitted)
    {
      ghost var fine := AllGoesWell(AllActs(batches));
      hide View, Performed, Serial, Unused, SameBefore, ActsOf, Replayed, Finishes;
      assert Replayed(View(Now()), [], permitted) == View(Now()) by { NoneReplayed(View(Now()), permitted); }
      ghost var start := View(Now());
      StartSerial(start, [], 0, names, committed, logs, permitted);
      var b, k := 0, 0;
      while b < |batches|
        invariant 0 <= b <= |batches| && !active && pending == None
        invariant k == |AllActs(batches[..b])| && Unused(names, k, committed, logs)
        invariant View(Now()) == Serial(start, AllActs(batches[..b]), 0, names, committed, permitted)
        invariant fine ==> View(Now()) == Replayed(start, AllActs(batches[..b]), permitted)
        invariant fine ==> fates == [] && AllReadable(logs, permitted) && AllFinish(AllActs(batches), permitted)
      {
        ghost var was := committed;
        ActsAmong(batches, b, permitted);
        ReplayedAppend(start, AllActs(batches[..b]), ActsOf(batches[b]), permitted);
        var o := RunBatch(batches[b], k, names);
        if o == Killed {
          Restart();
        }
        assert batches[..b + 1][..b] == batches[..b];
        SerialAppend(start, AllActs(batches[..b]), ActsOf(batches[b]), 0, names, committed, permitted);
        SerialOnly(start, AllActs(batches[..b]), 0, names, was, committed, permitted);
        b, k := b + 1, k + |ActsOf(batches[b])|;
      }
      assert batches[..b] == batches;
    }
  }

  lemma NoneReplayed(files: Files, permitted: set<Path>)
    ensures Replayed(files, [], permitted) == files
  {
  }

  lemma OneReplayed(files: Files, act: Act, permitted: set<Path>)
    ensures Replayed(files, [act], permitted) == Performed(files, act, permitted)
  {
    assert [act][..0] == [];
  }

  lemma {:induction false} ActsAmong(batches: seq<Batch>, b: nat, permitted: set<Path>)
    requires b < |batches|
    ensures AllFinish(AllActs(batches), permitted) ==> AllFinish(ActsOf(batches[b]), permitted)
    decreases |batches|
  {
    hide ActsOf, Finishes;
    var n := |batches| - 1;
    if b < n {
      assert batches[..n][b] == batches[b];
      ActsAmong(batches[..n], b, permitted);
    }
  }

  // ---- Names and what is done under them

  /** Nothing done since changes what was committed under the names before the k-th. */
  ghost predicate SameBefore(names: Names, k: nat, was: set<LogName>, now: set<LogName>) {
    forall j :: 0 <= j < k ==> (names(j) in was <==> names(j) in now)
  }

  lemma NextIsUnused(names: Names, k: nat, committed: set<LogName>, logs: Logs)
    requires Unused(names, k, committed, logs)
    ensures names(k) !in committed && names(k) !in logs
  {
  }

  lemma ForgetLogs(names: Names, k: nat, committed: set<LogName>, was: Logs, logs: Logs)
    requires Unused(names, k, committed, was) && logs.Keys <= was.Keys
    ensures Unused(names, k, committed, logs)
  {
    assert forall n :: n in logs ==> n in logs.Keys && n in was.Keys;
  }

  lemma StartSerial(files: Files, acts: seq<Act>, k: nat, names: Names, committed: set<LogName>, logs: Logs,
                    permitted: set<Path>)
    requires Unused(names, k, committed, logs)
    ensures acts[..0] == [] && Serial(files, [], k, names, committed, permitted) == files
    ensures SameBefore(names, k, committed, committed)
  {
  }

  lemma {:induction false} SerialAppend(files: Files, a: seq<Act>, b: seq<Act>, k: nat, names: Names,
                                        committed: set<LogName>, permitted: set<Path>)
    ensures Serial(files, a + b, k, names, committed, permitted)
         == Serial(Serial(files, a, k, names, committed, permitted), b, k + |a|, names, committed, permitted)
    decreases a
  {
    if a == [] {
      assert a + b == b;
    } else {
      assert (a + b)[1..] == a[1..] + b;
      var next := if names(k) in committed then Performed(files, a[0], permitted) else files;
      SerialAppend(next, a[1..], b, k + 1, names, committed, permitted);
    }
  }

  /** Only what was committed under their names matters for the acts. */
  lemma {:induction false} SerialOnly(files: Files, acts: seq<Act>, k: nat, names: Names, was: set<LogName>,
                                      now: set<LogName>, permitted: set<Path>)
    requires SameBefore(names, k + |acts|, was, now)
    ensures Serial(files, acts, k, names, was, permitted) == Serial(files, acts, k, names, now, permitted)
    decreases acts
  {
    if acts != [] {
      assert names(k) in was <==> names(k) in now;
      var next := if names(k) in was then Performed(files, acts[0], permitted) else files;
      SerialOnly(next, acts[1..], k + 1, names, was, now, permitted);
    }
  }

  lemma SerialNext(start: Files, acts: seq<Act>, i: nat, k: nat, names: Names, was: set<LogName>,
                   before: set<LogName>, now: set<LogName>, left: Logs, logs: Logs, permitted: set<Path>)
    requires i < |acts| && Unused(names, k + i, before, left) && SameBefore(names, k, was, before)
    requires (now == before || now == before + {names(k + i)}) && logs.Keys <= left.Keys + {names(k + i)}
    ensures Unused(names, k + i + 1, now, logs) && SameBefore(names, k, was, now)
    ensures var so := Serial(start, acts[..i], k, names, before, permitted);
      Serial(start, acts[..i + 1], k, names, now, permitted)
      == if names(k + i) in now then Performed(so, acts[i], permitted) else so
  {
    NextNames(names, k + i, before, now, left, logs);
    assert SameBefore(names, k, was, now) by {
      forall j | 0 <= j < k ensures names(j) in was <==> names(j) in now {
        assert names(j) in before <==> names(j) in now;
      }
    }
    hide Performed, Unused;
    SerialOnly(start, acts[..i], k, names, before, now, permitted);
    assert acts[..i + 1] == acts[..i] + [acts[i]];
    SerialAppend(start, acts[..i], [acts[i]], k, names, now, permitted);
    OneAct(Serial(start, acts[..i], k, names, now, permitted), acts[i], k + i, names, now, permitted);
  }

  lemma OneAct(files: Files, act: Act, k: nat, names: Names, committed: set<LogName>, permitted: set<Path>)
    ensures Serial(files, [act], k, names, committed, permitted)
         == if names(k) in committed then Performed(files, act, permitted) else files
  {
    hide Performed;
    var next := if names(k) in committed then Performed(files, act, permitted) else files;
    assert [act][1..] == [];
    assert Serial(next, [], k + 1, names, committed, permitted) == next;
  }

  lemma NextNames(names: Names, k: nat, before: set<LogName>, now: set<LogName>, left: Logs, logs: Logs)
    requires Unused(names, k, before, left)
    requires (now == before || now == before + {names(k)}) && logs.Keys <= left.Keys + {names(k)}
    ensures Unused(names, k + 1, now, logs) && SameBefore(names, k, before, now)
  {
    forall i | k + 1 <= i ensures names(i) !in now && names(i) !in logs {
      assert names(k) != names(i);
      assert names(i) in logs ==> names(i) in logs.Keys;
    }
    forall j | 0 <= j < k ensures names(j) in before <==> names(j) in now {
      assert names(j) != names(k);
    }
  }

  /** The acts that were not reached have done nothing. */
  lemma SerialStops(start: Files, acts: seq<Act>, i: nat, k: nat, names: Names, committed: set<LogName>, logs: Logs,
                    permitted: set<Path>)
    requires i <= |acts| && Unused(names, k + i, committed, logs)
    ensures Serial(start, acts[..i], k, names, committed, permitted)
         == Serial(start, acts, k, names, committed, permitted)
    ensures Unused(names, k + |acts|, committed, logs)
  {
    hide Performed;
    assert acts == acts[..i] + acts[i..];
    SerialAppend(start, acts[..i], acts[i..], k, names, committed, permitted);
    NothingDone(Serial(start, acts[..i], k, names, committed, permitted), acts[i..], k + i, names, committed, logs,
                permitted);
  }

  lemma {:induction false} NothingDone(files: Files, acts: seq<Act>, k: nat, names: Names, committed: set<LogName>,
                                       logs: Logs, permitted: set<Path>)
    requires Unused(names, k, committed, logs)
    ensures Serial(files, acts, k, names, committed, permitted) == files
    decreases acts
  {
    hide Performed;
    if acts != [] {
      NothingDone(files, acts[1..], k + 1, names, committed, logs, permitted);
    }
  }

  // ---- Logs left behind

  ghost predicate Unmentioned(logs: Logs, p: Path) {
    forall n :: n in logs ==> !Mentions(logs[n], p)
  }

  /**
    What acts in one open transaction leave: every log is that of one of their units, and away from
    the paths of these logs the files are as the committed acts say.
   */
  ghost predicate LeftOver(start: Files, acts: seq<Act>, k: nat, names: Names, committed: set<LogName>,
                           permitted: set<Path>, d: Disk)
  {
    && (forall n :: n in d.logs ==> LeftBy(acts, k, names, committed, n, d.logs[n]))
    && forall p :: Unmentioned(d.logs, p) ==>
      Lookup(d.files, p) == Lookup(Serial(start, acts, k, names, committed, permitted), p)
  }

  ghost predicate LeftBy(acts: seq<Act>, k: nat, names: Names, committed: set<LogName>, n: LogName, log: Log) {
    exists i :: 0 <= i < |acts| && n == names(k + i) && acts[i].Unit? && LogOf(log, acts[i].ops, n in committed)
  }

  lemma NothingLeft(start: Files, k: nat, names: Names, committed: set<LogName>, permitted: set<Path>)
    ensures LeftOver(start, [], k, names, committed, permitted, Disk(start, map[]))
  {
  }

  lemma {:induction false} DirectAt(f: Files, g: Files, ops: seq<Op>, permitted: set<Path>, p: Path)
    requires Lookup(f, p) == Lookup(g, p)
    ensures Lookup(Direct(f, ops, permitted).files, p) == Lookup(Direct(g, ops, permitted).files, p)
    decreases ops
  {
    if ops != [] {
      match ops[0]
      case Read(_) => DirectAt(f, g, ops[1..], permitted, p);
      case Write(q, c) =>
        if q in permitted {
          DirectAt(f[q := c], g[q := c], ops[1..], permitted, p);
        }
      case Fail =>
    }
  }

  /** What an act makes of a path depends on that path alone. */
  lemma PerformedAt(f: Files, g: Files, act: Act, permitted: set<Path>, p: Path)
    requires Lookup(f, p) == Lookup(g, p)
    ensures Lookup(Performed(f, act, permitted), p) == Lookup(Performed(g, act, permitted), p)
  {
    if act.Unit? {
      DirectAt(f, g, act.ops, permitted, p);
    }
  }

  lemma LeaveMore(start: Files, acts: seq<Act>, i: nat, k: nat, names: Names, before: set<LogName>,
                  now: set<LogName>, permitted: set<Path>, d: Disk, d': Disk)
    requires i < |acts| && Unused(names, k + i, before, d.logs)
    requires LeftOver(start, acts[..i], k, names, before, permitted, d)
    requires (now == before || now == before + {names(k + i)}) && d'.logs - {names(k + i)} == d.logs
    requires Standing(d'.files, d'.logs, names(k + i))
          == if names(k + i) in now then Performed(d.files, acts[i], permitted) else d.files
    requires names(k + i) in d'.logs ==>
               acts[i].Unit? && LogOf(d'.logs[names(k + i)], acts[i].ops, names(k + i) in now)
    ensures Unused(names, k + i + 1, now, d'.logs)
    ensures LeftOver(start, acts[..i + 1], k, names, now, permitted, d')
  {
    var name := names(k + i);
    forall n | n in d'.logs ensures n == name || n in d.logs {
      assert n != name ==> n in d'.logs - {name};
    }
    assert SameBefore(names, k, before, before);
    SerialNext(start, acts, i, k, names, before, before, now, d.logs, d'.logs, permitted);
    hide Serial, Performed, LogOf, Unused, SameBefore;
    forall n | n in d'.logs ensures LeftBy(acts[..i + 1], k, names, now, n, d'.logs[n]) {
      if n == name {
        assert acts[..i + 1][i] == acts[i];
      } else {
        assert n in d'.logs - {name} && d.logs[n] == d'.logs[n];
        StillLeft(acts, i, k, names, before, now, n, d.logs[n]);
      }
    }
    forall p | Unmentioned(d'.logs, p)
      ensures Lookup(d'.files, p) == Lookup(Serial(start, acts[..i + 1], k, names, now, permitted), p)
    {
      UnmentionedBefore(d', name, p);
      PerformedAt(d.files, Serial(start, acts[..i], k, names, before, permitted), acts[i], permitted, p);
    }
  }

  lemma UnmentionedBefore(d: Disk, name: LogName, p: Path)
    requires Unmentioned(d.logs, p)
    ensures Unmentioned(d.logs - {name}, p) && Lookup(Standing(d.files, d.logs, name), p) == Lookup(d.files, p)
  {
    if name in d.logs {
      SettleOutside(d.files, d.logs[name], p);
    }
  }

  lemma StillLeft(acts: seq<Act>, i: nat, k: nat, names: Names, before: set<LogName>, now: set<LogName>, n: LogName,
                  log: Log)
    requires i < |acts| && (now == before || now == before + {names(k + i)}) && n != names(k + i)
    requires LeftBy(acts[..i], k, names, before, n, log)
    ensures LeftBy(acts[..i + 1], k, names, now, n, log)
  {
    hide LogOf;
    var j :| 0 <= j < i && n == names(k + j) && acts[..i][j].Unit? && LogOf(log, acts[..i][j].ops, n in before);
    assert acts[..i + 1][j] == acts[..i][j];
  }

  lemma LeftAtEnd(start: Files, acts: seq<Act>, i: nat, k: nat, names: Names, committed: set<LogName>,
                  permitted: set<Path>, d: Disk)
    requires i <= |acts| && Unused(names, k + i, committed, d.logs)
    requires LeftOver(start, acts[..i], k, names, committed, permitted, d)
    ensures LeftOver(start, acts, k, names, committed, permitted, d)
  {
    SerialStops(start, acts, i, k, names, committed, d.logs, permitted);
    hide Serial, LogOf, Unused;
    forall n | n in d.logs ensures LeftBy(acts, k, names, committed, n, d.logs[n]) {
      var j :| 0 <= j < i && n == names(k + j) && acts[..i][j].Unit?
               && LogOf(d.logs[n], acts[..i][j].ops, n in committed);
      assert acts[j] == acts[..i][j];
    }
  }

  /**
    After any run of acts in one open transaction whose caller carries on after exceptions, the next
    recovery keeps what the committed acts have made of a path exactly when no log left over
    mentions it, or the last one that does wants the same.
   */
  lemma RecoveryKeeps(start: Files, acts: seq<Act>, k: nat, names: Names, committed: set<LogName>,
                      permitted: set<Path>, d: Disk, p: Path)
    requires LeftOver(start, acts, k, names, committed, permitted, d)
    ensures
      var so := Serial(start, acts, k, names, committed, permitted);
      Lookup(View(d), p) == Lookup(so, p) <==> LastWordIs(d.logs, p, Lookup(so, p))
  {
    LeftDistinct(start, acts, k, names, committed, permitted, d);
    hide Serial, View, Unmentioned, LastWordIs;
    if Unmentioned(d.logs, p) {
      NoLastWord(d, p);
    } else {
      LastWordCounts(d, p, Lookup(Serial(start, acts, k, names, committed, permitted), p));
    }
  }

  lemma LeftDistinct(start: Files, acts: seq<Act>, k: nat, names: Names, committed: set<LogName>,
                     permitted: set<Path>, d: Disk)
    requires LeftOver(start, acts, k, names, committed, permitted, d)
    ensures DistinctInEach(d.logs)
  {
    forall n | n in d.logs ensures d.logs[n].Log? && DistinctPaths(d.logs[n].entries) {
      assert LeftBy(acts, k, names, committed, n, d.logs[n]);
    }
  }

  lemma NoLastWord(d: Disk, p: Path)
    requires Unmentioned(d.logs, p)
    ensures Lookup(View(d), p) == Lookup(d.files, p) && forall image :: LastWordIs(d.logs, p, image)
  {
    ViewOutside(d, p);
  }

  lemma LastWordCounts(d: Disk, p: Path, image: Image)
    requires DistinctInEach(d.logs) && !Unmentioned(d.logs, p)
    ensures Lookup(View(d), p) == image <==> LastWordIs(d.logs, p, image)
  {
    hide View;
    var m :| m in d.logs && Mentions(d.logs[m], p);
    var n := LastExists(d.logs, p, m);
    var e :| e in d.logs[n].entries && e.path == p;
    ViewAt(d, p, n, e);
    forall n', e' | LastAt(d.logs, p, n') && e' in d.logs[n'].entries && e'.path == p
      ensures Lookup(View(d), p) == Target(d.logs[n'].phase, e')
    {
      ViewAt(d, p, n', e');
    }
  }

  ghost predicate LastWordIs(logs: Logs, p: Path, image: Image) {
    forall n, e :: LastAt(logs, p, n) && e in logs[n].entries && e.path == p ==> Target(logs[n].phase, e) == image
  }

  /**
    A body that is tried again inside the same open transaction, after the record of its entries
    was written but raised: the second try returns, and the next recovery undoes all of it.
   */
  method RetryIsUndone(files: Files, ops: seq<Op>, permitted: set<Path>, first: LogName, second: LogName)
    returns (s: Store, one: Outcome, two: Outcome)
    requires Direct(files, ops, permitted).finished && Direct(files, ops, permitted).files != files && first != second
    ensures one == Raised && two == Ok && second in s.committed
    ensures s.logs == map[] && s.files == files
  {
    hide Direct, View, Faithful, Impose, Paths;
    s := new Store(files, map[], permitted, [RaisesAfter]);
    var o := s.Enter();
    var seen;
    one, seen := s.UnitOfWork(ops, first);
    ghost var log :| LeftBehind(files, Direct(files, ops, permitted).files, log, permitted)
                     && s.logs == map[first := log];
    UnitWorks(|Written(ops)|);
    FinishesExactly(files, ops, permitted);
    two, seen := s.UnitOfWork(ops, second);
    UndoneByRecovery(files, first, log, permitted);
    RecoveryWorks(map[first := log], permitted);
    s.Restart();
    o := s.Enter();
  }

  lemma UndoneByRecovery(files: Files, name: LogName, log: Log, permitted: set<Path>)
    requires log.Log? && LeftBehind(files, Impose(files, Committed, log.entries), log, permitted)
    ensures View(Disk(Impose(files, Committed, log.entries), map[name := log])) == files
    ensures AllReadable(map[name := log], permitted)
  {
    ImposeOutside(files, Committed, log.entries);
    PreparedView(files, Impose(files, Committed, log.entries), name, log.entries);
  }
}
