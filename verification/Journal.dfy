// The write-ahead journal that makes a group of permission files change together
// (src/wright/infrastructure/permission_transaction.py).
//
// The disk is a map of files and a map of journal logs. Replacing or unlinking one
// file is the atomic step. What each step does is decided by the environment: it
// works, it raises before or after taking effect, or the process dies before or
// after it. A method that was killed returns Killed and its caller returns at once.
module Journal {
  import opened Base

  type Path(==, !new)
  type Bytes(==, !new)
  type Files = map<Path, Bytes>
  /** The content of a file, or None for a file that does not exist. */
  type Image = Option<Bytes>
  /** The hexadecimal uuid of a log, read as a number: names sort the same way. */
  type LogName = nat

  datatype Entry = Entry(path: Path, before: Image, after: Image)
  datatype Phase = Prepared | Committed
  /** Damaged stands for every file that does not parse as a log. */
  datatype Log = Log(phase: Phase, entries: seq<Entry>) | Damaged
  type Logs = map<LogName, Log>
  datatype Disk = Disk(files: Files, logs: Logs)

  // ---- Files and images

  function Lookup(files: Files, p: Path): Image {
    if p in files then Some(files[p]) else None
  }

  function Put(files: Files, p: Path, c: Image): Files {
    match c
    case Some(bytes) => files[p := bytes]
    case None => files - {p}
  }

  function Target(phase: Phase, e: Entry): Image {
    if phase == Committed then e.after else e.before
  }

  function Paths(entries: seq<Entry>): set<Path> {
    set e | e in entries :: e.path
  }

  /** Replace the files of the entries one after the other. */
  function Impose(files: Files, phase: Phase, entries: seq<Entry>): Files
    decreases entries
  {
    if entries == [] then files
    else Impose(Put(files, entries[0].path, Target(phase, entries[0])), phase, entries[1..])
  }

  ghost predicate AgreeOutside(f: Files, g: Files, paths: set<Path>) {
    forall p :: p !in paths ==> Lookup(f, p) == Lookup(g, p)
  }

  ghost predicate DistinctPaths(entries: seq<Entry>) {
    forall i, j :: 0 <= i < j < |entries| ==> entries[i].path != entries[j].path
  }

  lemma SameFiles(f: Files, g: Files)
    requires forall p :: Lookup(f, p) == Lookup(g, p)
    ensures f == g
  {
    forall p ensures p in f <==> p in g {
      assert Lookup(f, p) == Lookup(g, p);
    }
    forall p | p in f ensures f[p] == g[p] {
      assert Lookup(f, p) == Lookup(g, p);
    }
  }

  lemma PutLookup(files: Files, p: Path, c: Image)
    ensures Lookup(Put(files, p, c), p) == c
    ensures AgreeOutside(files, Put(files, p, c), {p})
  {
  }

  lemma {:induction false} ImposeOutside(files: Files, phase: Phase, entries: seq<Entry>)
    ensures AgreeOutside(files, Impose(files, phase, entries), Paths(entries))
    decreases entries
  {
    if entries != [] {
      var e := entries[0];
      PutLookup(files, e.path, Target(phase, e));
      ImposeOutside(Put(files, e.path, Target(phase, e)), phase, entries[1..]);
      assert Paths(entries) == {e.path} + Paths(entries[1..]);
    }
  }

  /** Imposing wipes out every difference at the imposed paths. */
  lemma {:induction false} ImposeForgets(f: Files, g: Files, phase: Phase, entries: seq<Entry>)
    requires AgreeOutside(f, g, Paths(entries))
    ensures Impose(f, phase, entries) == Impose(g, phase, entries)
    decreases entries
  {
    if entries == [] {
      SameFiles(f, g);
    } else {
      var e := entries[0];
      var c := Target(phase, e);
      PutLookup(f, e.path, c);
      PutLookup(g, e.path, c);
      assert Paths(entries) == {e.path} + Paths(entries[1..]);
      ImposeForgets(Put(f, e.path, c), Put(g, e.path, c), phase, entries[1..]);
    }
  }

  /** Imposing changes nothing when every image is already in place. */
  lemma {:induction false} ImposeInPlace(files: Files, phase: Phase, entries: seq<Entry>)
    requires forall e :: e in entries ==> Lookup(files, e.path) == Target(phase, e)
    ensures Impose(files, phase, entries) == files
    decreases entries
  {
    if entries != [] {
      var e := entries[0];
      PutLookup(files, e.path, Target(phase, e));
      SameFiles(files, Put(files, e.path, Target(phase, e)));
      ImposeInPlace(files, phase, entries[1..]);
    }
  }

  lemma {:induction false} ImposeSnoc(files: Files, phase: Phase, entries: seq<Entry>, e: Entry)
    ensures Impose(files, phase, entries + [e]) == Put(Impose(files, phase, entries), e.path, Target(phase, e))
    decreases entries
  {
    if entries == [] {
      assert entries + [e] == [e];
    } else {
      assert (entries + [e])[1..] == entries[1..] + [e];
      ImposeSnoc(Put(files, entries[0].path, Target(phase, entries[0])), phase, entries[1..], e);
    }
  }

  /** With distinct paths, each file ends as its own entry says. */
  lemma {:induction false} ImposeAt(files: Files, phase: Phase, entries: seq<Entry>, e: Entry)
    requires DistinctPaths(entries) && e in entries
    ensures Lookup(Impose(files, phase, entries), e.path) == Target(phase, e)
    decreases entries
  {
    var head := entries[0];
    var rest := entries[1..];
    var files' := Put(files, head.path, Target(phase, head));
    PutLookup(files, head.path, Target(phase, head));
    if e in rest {
      ImposeAt(files', phase, rest, e);
    } else {
      assert e == head;
      assert e.path !in Paths(rest);
      ImposeOutside(files', phase, rest);
    }
  }

  // ---- What recovery makes of a disk

  ghost predicate Readable(log: Log, permitted: set<Path>) {
    log.Log? && Paths(log.entries) <= permitted
  }

  /** The files after one log has been recovered. */
  function Settle(files: Files, log: Log): Files {
    match log
    case Log(phase, entries) => Impose(files, phase, entries)
    case Damaged => files
  }

  ghost predicate IsLeast(n: LogName, names: set<LogName>) {
    n in names && forall m :: m in names ==> n <= m
  }

  lemma {:induction false} LeastExists(names: set<LogName>)
    requires names != {}
    ensures exists n :: IsLeast(n, names)
  {
    var n :| n in names;
    if names == {n} {
      assert IsLeast(n, names);
    } else {
      LeastExists(names - {n});
      var m :| IsLeast(m, names - {n});
      assert names == (names - {n}) + {n};
      assert IsLeast(if m < n then m else n, names);
    }
  }

  ghost function Least(names: set<LogName>): (n: LogName)
    requires names != {}
    ensures IsLeast(n, names)
  {
    LeastExists(names);
    var n :| IsLeast(n, names);
    n
  }

  lemma Fewer(logs: Logs, name: LogName)
    requires name in logs
    ensures |logs - {name}| < |logs| && (logs - {name}).Keys == logs.Keys - {name}
  {
    assert (logs - {name}).Keys == logs.Keys - {name};
    assert |(logs - {name}).Keys| == |logs.Keys| - 1;
  }

  /**
    The files the disk stands for: those that recovering all its logs in name order
    leaves. A transaction never looks at any others, because it recovers first.
   */
  ghost function View(d: Disk): Files
    decreases |d.logs|
  {
    if d.logs == map[] then d.files
    else
      var n := Least(d.logs.Keys);
      Fewer(d.logs, n);
      View(Disk(Settle(d.files, d.logs[n]), d.logs - {n}))
  }

  lemma LeastUnique(m: LogName, names: set<LogName>)
    requires IsLeast(m, names)
    ensures Least(names) == m
  {
  }

  /** Whatever a partial recovery of the first log did to its files, the view is the same. */
  lemma ViewIgnoresPartial(d: Disk, n: LogName, files: Files)
    requires IsLeast(n, d.logs.Keys) && d.logs[n].Log?
    requires AgreeOutside(d.files, files, Paths(d.logs[n].entries))
    ensures View(d.(files := files)) == View(d)
  {
    LeastUnique(n, d.logs.Keys);
    var log := d.logs[n];
    ImposeForgets(d.files, files, log.phase, log.entries);
  }

  /** Once the images of the first log are all in place, dropping it keeps the view. */
  lemma ViewIgnoresFinished(d: Disk, n: LogName)
    requires IsLeast(n, d.logs.Keys) && d.logs[n].Log?
    requires forall e :: e in d.logs[n].entries ==> Lookup(d.files, e.path) == Target(d.logs[n].phase, e)
    ensures View(d.(logs := d.logs - {n})) == View(d)
  {
    LeastUnique(n, d.logs.Keys);
    ImposeInPlace(d.files, d.logs[n].phase, d.logs[n].entries);
  }

  lemma ViewOfOne(files: Files, n: LogName, log: Log)
    ensures View(Disk(files, map[n := log])) == Settle(files, log)
  {
    var logs := map[n := log];
    LeastUnique(n, logs.Keys);
    assert logs - {n} == map[];
  }

  // ---- Recovery, interrupted any number of times

  /** The first log has one of its images put in place. */
  ghost predicate PutsImage(d: Disk, d': Disk, n: LogName) {
    && IsLeast(n, d.logs.Keys) && d.logs[n].Log? && d'.logs == d.logs
    && (exists e :: e in d.logs[n].entries && d'.files == Put(d.files, e.path, Target(d.logs[n].phase, e)))
  }

  /** The first log is dropped, all its images being in place. */
  ghost predicate DropsLog(d: Disk, d': Disk, n: LogName) {
    && IsLeast(n, d.logs.Keys) && d.logs[n].Log? && d' == d.(logs := d.logs - {n})
    && forall e :: e in d.logs[n].entries ==> Lookup(d.files, e.path) == Target(d.logs[n].phase, e)
  }

  /** One atomic step of a recovering process, or none before it dies. */
  ghost predicate RecoveryStep(d: Disk, d': Disk) {
    d' == d || exists n :: PutsImage(d, d', n) || DropsLog(d, d', n)
  }

  lemma RecoveryStepKeepsView(d: Disk, d': Disk)
    requires RecoveryStep(d, d')
    ensures View(d') == View(d)
  {
    if d' != d {
      var n :| PutsImage(d, d', n) || DropsLog(d, d', n);
      if PutsImage(d, d', n) {
        var e :| e in d.logs[n].entries && d'.files == Put(d.files, e.path, Target(d.logs[n].phase, e));
        PutLookup(d.files, e.path, Target(d.logs[n].phase, e));
        ViewIgnoresPartial(d, n, d'.files);
        assert d' == d.(files := d'.files);
      } else {
        ViewIgnoresFinished(d, n);
      }
    }
  }

  /**
    Crash atomicity of recovery. However often processes die while recovering, in
    whatever mixture of steps, the disk stands for the same files, and a recovery
    that gets to the end leaves exactly those.
   */
  lemma {:induction false} RecoveryRunsKeepView(run: seq<Disk>)
    requires |run| >= 1
    requires forall i :: 0 <= i < |run| - 1 ==> RecoveryStep(run[i], run[i + 1])
    ensures View(run[|run| - 1]) == View(run[0])
    ensures run[|run| - 1].logs == map[] ==> run[|run| - 1].files == View(run[0])
  {
    if |run| >= 2 {
      var front := run[..|run| - 1];
      forall i | 0 <= i < |front| - 1 ensures RecoveryStep(front[i], front[i + 1]) {
        assert RecoveryStep(run[i], run[i + 1]);
      }
      RecoveryRunsKeepView(front);
      RecoveryStepKeepsView(run[|run| - 2], run[|run| - 2 + 1]);
    }
  }

  // ---- The overlay of a unit of work

  /** What the body of a unit of work does, in order. */
  datatype Op = Read(path: Path) | Write(path: Path, content: Bytes) | Fail

  /** A body ran to its end, or an operation raised. */
  datatype Effect = Effect(files: Files, seen: seq<Image>, finished: bool)

  /** The body with every write taking effect at once. */
  function Direct(files: Files, ops: seq<Op>, permitted: set<Path>): Effect
    decreases ops
  {
    if ops == [] then Effect(files, [], true)
    else
      match ops[0]
      case Read(p) =>
        var rest := Direct(files, ops[1..], permitted);
        rest.(seen := [Lookup(files, p)] + rest.seen)
      case Write(p, c) =>
        if p in permitted then Direct(files[p := c], ops[1..], permitted) else Effect(files, [], false)
      case Fail => Effect(files, [], false)
  }

  /** What a body does is what its parts do in order, as long as nothing raises. */
  lemma {:induction false} DirectInOrder(files: Files, a: seq<Op>, b: seq<Op>, permitted: set<Path>)
    ensures
      var first := Direct(files, a, permitted);
      var then_ := Direct(first.files, b, permitted);
      Direct(files, a + b, permitted)
      == if first.finished then Effect(then_.files, first.seen + then_.seen, then_.finished) else first
    decreases a
  {
    if a == [] {
      assert a + b == b;
      assert [] + Direct(files, b, permitted).seen == Direct(files, b, permitted).seen;
    } else {
      assert (a + b)[0] == a[0] && (a + b)[1..] == a[1..] + b;
      match a[0]
      case Read(p) =>
        DirectInOrder(files, a[1..], b, permitted);
        var rest := Direct(files, a[1..], permitted);
        assert [Lookup(files, p)] + rest.seen + Direct(rest.files, b, permitted).seen
            == [Lookup(files, p)] + (rest.seen + Direct(rest.files, b, permitted).seen);
      case Write(p, c) =>
        if p in permitted {
          DirectInOrder(files[p := c], a[1..], b, permitted);
        }
      case Fail =>
    }
  }

  /** A read sees the file, a write of a permitted path changes it alone, and anything else raises. */
  lemma OneOperation(files: Files, op: Op, permitted: set<Path>)
    ensures
      var r := Direct(files, [op], permitted);
      && (r.finished <==> op.Read? || (op.Write? && op.path in permitted))
      && r.seen == (if op.Read? then [if op.path in files then Some(files[op.path]) else None] else [])
      && if op.Write? && op.path in permitted then
           && op.path in r.files && r.files[op.path] == op.content && r.files.Keys == files.Keys + {op.path}
           && forall q :: q in files && q != op.path ==> r.files[q] == files[q]
         else r.files == files
  {
    assert [op][1..] == [];
  }

  /** The entry of a path in the overlay, which keeps at most one for each path. */
  predicate Buffered(pending: seq<Entry>, p: Path) {
    exists e :: e in pending && e.path == p
  }

  function IndexIn(pending: seq<Entry>, p: Path): (i: nat)
    requires Buffered(pending, p)
    ensures i < |pending| && pending[i].path == p
    decreases pending
  {
    if pending[0].path == p then 0 else 1 + IndexIn(pending[1..], p)
  }

  /** What a read inside the unit sees. */
  function Seen(files: Files, pending: seq<Entry>, p: Path): Image {
    if Buffered(pending, p) then pending[IndexIn(pending, p)].after else Lookup(files, p)
  }

  /** A write inside the unit: a second write of a path keeps its first before-image and its place. */
  function Buffer(files: Files, pending: seq<Entry>, p: Path, c: Bytes): seq<Entry> {
    if Buffered(pending, p)
    then
      var i := IndexIn(pending, p);
      pending[i := pending[i].(after := Some(c))]
    else pending + [Entry(p, Lookup(files, p), Some(c))]
  }

  /** Each path is buffered once, with the content it had on disk when the unit began. */
  ghost predicate Faithful(files: Files, pending: seq<Entry>) {
    && DistinctPaths(pending)
    && forall e :: e in pending ==> e.before == Lookup(files, e.path)
  }

  lemma SamePaths(pending: seq<Entry>, i: nat, next: Entry)
    requires i < |pending| && next.path == pending[i].path
    ensures Paths(pending[i := next]) == Paths(pending)
  {
    forall e | e in pending ensures e.path in Paths(pending[i := next]) {
      var k :| 0 <= k < |pending| && pending[k] == e;
      assert pending[i := next][k] in pending[i := next];
    }
  }

  /** Writing a path again replaces its after-image and nothing else. */
  lemma Rewritten(files: Files, pending: seq<Entry>, i: nat, c: Bytes)
    requires DistinctPaths(pending) && i < |pending|
    ensures Impose(files, Committed, pending[i := pending[i].(after := Some(c))])
         == Impose(files, Committed, pending)[pending[i].path := c]
  {
    var p, next := pending[i].path, pending[i := pending[i].(after := Some(c))];
    var was, now := Impose(files, Committed, pending), Impose(files, Committed, next);
    SamePaths(pending, i, next[i]);
    ImposeOutside(files, Committed, pending);
    ImposeOutside(files, Committed, next);
    hide Impose;
    forall q ensures Lookup(now, q) == Lookup(was[p := c], q) {
      if q in Paths(pending) {
        var k :| 0 <= k < |pending| && pending[k].path == q;
        ImposeAt(files, Committed, pending, pending[k]);
        ImposeAt(files, Committed, next, next[k]);
      }
    }
    SameFiles(now, was[p := c]);
  }

  lemma BufferIsFaithful(files: Files, pending: seq<Entry>, p: Path, c: Bytes)
    requires Faithful(files, pending)
    ensures Faithful(files, Buffer(files, pending, p, c))
    ensures Impose(files, Committed, Buffer(files, pending, p, c)) == Impose(files, Committed, pending)[p := c]
  {
    hide Impose;
    if Buffered(pending, p) {
      Rewritten(files, pending, IndexIn(pending, p), c);
    } else {
      ImposeSnoc(files, Committed, pending, Entry(p, Lookup(files, p), Some(c)));
    }
  }

  lemma SeenIsDirect(files: Files, pending: seq<Entry>, p: Path)
    requires Faithful(files, pending)
    ensures Seen(files, pending, p) == Lookup(Impose(files, Committed, pending), p)
  {
    if Buffered(pending, p) {
      ImposeAt(files, Committed, pending, pending[IndexIn(pending, p)]);
    } else {
      ImposeOutside(files, Committed, pending);
    }
  }

  /** A unit's before-images put the disk back, however far its replacements had got. */
  lemma RollbackRestores(files: Files, now: Files, entries: seq<Entry>)
    requires Faithful(files, entries) && AgreeOutside(files, now, Paths(entries))
    ensures Impose(now, Prepared, entries) == files
  {
    ImposeForgets(now, files, Prepared, entries);
    ImposeInPlace(files, Prepared, entries);
  }

  lemma PreparedView(before: Files, now: Files, name: LogName, entries: seq<Entry>)
    requires Faithful(before, entries) && AgreeOutside(before, now, Paths(entries))
    ensures View(Disk(now, map[name := Log(Prepared, entries)])) == before
  {
    ViewOfOne(now, name, Log(Prepared, entries));
    RollbackRestores(before, now, entries);
  }

  lemma CommittedView(before: Files, name: LogName, entries: seq<Entry>)
    ensures View(Disk(Impose(before, Committed, entries), map[name := Log(Committed, entries)]))
            == Impose(before, Committed, entries)
  {
    var after := Impose(before, Committed, entries);
    ViewOfOne(after, name, Log(Committed, entries));
    ImposeOutside(before, Committed, entries);
    ImposeForgets(after, before, Committed, entries);
  }

  lemma BufferedPaths(files: Files, pending: seq<Entry>, p: Path, c: Bytes)
    ensures Paths(Buffer(files, pending, p, c)) == Paths(pending) + {p}
  {
    if Buffered(pending, p) {
      var i := IndexIn(pending, p);
      SamePaths(pending, i, pending[i].(after := Some(c)));
      assert pending[i] in pending;
    } else {
      var e := Entry(p, Lookup(files, p), Some(c));
      assert forall x :: x in pending + [e] <==> x in pending || x == e;
    }
  }

  lemma {:induction false} CountPaths(entries: seq<Entry>)
    requires DistinctPaths(entries)
    ensures |Paths(entries)| == |entries|
    decreases entries
  {
    if entries != [] {
      assert Paths(entries) == {entries[0].path} + Paths(entries[1..]);
      CountPaths(entries[1..]);
    }
  }

  /** What a whole body amounts to once its first operations have left this overlay and these readings. */
  function After(files: Files, pending: seq<Entry>, seen: seq<Image>, rest: seq<Op>, permitted: set<Path>): Effect {
    var effect := Direct(Impose(files, Committed, pending), rest, permitted);
    effect.(seen := seen + effect.seen)
  }

  lemma ReadFirst(files: Files, pending: seq<Entry>, seen: seq<Image>, rest: seq<Op>, permitted: set<Path>)
    requires rest != [] && rest[0].Read? && Faithful(files, pending)
    ensures After(files, pending, seen, rest, permitted)
            == After(files, pending, seen + [Seen(files, pending, rest[0].path)], rest[1..], permitted)
  {
    SeenIsDirect(files, pending, rest[0].path);
    var effect := Direct(Impose(files, Committed, pending), rest[1..], permitted);
    var c := Seen(files, pending, rest[0].path);
    assert seen + ([c] + effect.seen) == (seen + [c]) + effect.seen;
  }

  // ---- Logs left behind inside an open transaction

  /** What one log makes of the files, if it is there: the others are looked at apart. */
  function Standing(files: Files, logs: Logs, name: LogName): Files {
    if name in logs then Settle(files, logs[name]) else files
  }

  lemma StandingIsView(files: Files, logs: Logs, name: LogName)
    requires logs.Keys <= {name}
    ensures View(Disk(files, logs)) == Standing(files, logs, name)
  {
    if name in logs {
      assert logs == map[name := logs[name]];
      ViewOfOne(files, name, logs[name]);
    } else {
      assert logs == map[];
    }
  }

  ghost predicate Mentions(log: Log, p: Path) {
    log.Log? && p in Paths(log.entries)
  }

  /** The log that has the last word on a path, since logs are recovered in name order. */
  ghost predicate LastAt(logs: Logs, p: Path, n: LogName) {
    n in logs && Mentions(logs[n], p) && forall m :: m in logs && m > n ==> !Mentions(logs[m], p)
  }

  ghost predicate DistinctInEach(logs: Logs) {
    forall n :: n in logs && logs[n].Log? ==> DistinctPaths(logs[n].entries)
  }

  lemma SettleOutside(files: Files, log: Log, p: Path)
    requires !Mentions(log, p)
    ensures Lookup(Settle(files, log), p) == Lookup(files, p)
  {
    if log.Log? {
      ImposeOutside(files, log.phase, log.entries);
    }
  }

  lemma {:induction false} ViewOutside(d: Disk, p: Path)
    requires forall n :: n in d.logs ==> !Mentions(d.logs[n], p)
    ensures Lookup(View(d), p) == Lookup(d.files, p)
    decreases |d.logs|
  {
    if d.logs != map[] {
      var n := Least(d.logs.Keys);
      Fewer(d.logs, n);
      SettleOutside(d.files, d.logs[n], p);
      ViewOutside(Disk(Settle(d.files, d.logs[n]), d.logs - {n}), p);
    }
  }

  /** A file ends as the last log that mentions it says. */
  lemma {:induction false} ViewAt(d: Disk, p: Path, n: LogName, e: Entry)
    requires DistinctInEach(d.logs) && LastAt(d.logs, p, n) && e in d.logs[n].entries && e.path == p
    ensures Lookup(View(d), p) == Target(d.logs[n].phase, e)
    decreases |d.logs|
  {
    var first := Least(d.logs.Keys);
    Fewer(d.logs, first);
    var rest := Disk(Settle(d.files, d.logs[first]), d.logs - {first});
    if n == first {
      ViewOutside(rest, p);
      ImposeAt(d.files, d.logs[n].phase, d.logs[n].entries, e);
    } else {
      ViewAt(rest, p, n, e);
    }
  }

  lemma {:induction false} LastExists(logs: Logs, p: Path, n: LogName) returns (last: LogName)
    requires n in logs && Mentions(logs[n], p)
    ensures LastAt(logs, p, last)
    decreases |logs|
  {
    if LastAt(logs, p, n) {
      return n;
    }
    var m :| m in logs && m > n && Mentions(logs[m], p);
    Fewer(logs, n);
    last := LastExists(logs - {n}, p, m);
    assert forall k :: k in logs && k > last ==> k in logs - {n};
  }

  /** At each path of the entries, the last log that mentions it wants what they want. */
  ghost predicate Undisturbed(stale: Logs, entries: seq<Entry>) {
    forall e, n, s :: e in entries && LastAt(stale, e.path, n) && s in stale[n].entries && s.path == e.path ==>
      Target(stale[n].phase, s) == e.after
  }

  /**
    Only the outermost transaction recovers. If a unit fails and leaves its log behind, and the
    caller carries on inside the same open transaction, the next unit runs with that log still on
    disk. What it has written survives the next recovery exactly when, at each of its paths, the
    last of the logs left over that mentions the path wants the same.
   */
  lemma StaleLogs(files: Files, stale: Logs, entries: seq<Entry>)
    requires DistinctInEach(stale) && DistinctPaths(entries)
    ensures
      var view := View(Disk(Impose(files, Committed, entries), stale));
      (forall e :: e in entries ==> Lookup(view, e.path) == e.after)
      <==> Undisturbed(stale, entries)
  {
    var after := Impose(files, Committed, entries);
    var d := Disk(after, stale);
    forall e, n, s | e in entries && LastAt(stale, e.path, n) && s in stale[n].entries && s.path == e.path
      ensures Lookup(View(d), e.path) == Target(stale[n].phase, s)
    {
      ViewAt(d, e.path, n, s);
    }
    forall e | e in entries && (forall n :: n in stale ==> !Mentions(stale[n], e.path))
      ensures Lookup(View(d), e.path) == e.after
    {
      ViewOutside(d, e.path);
      ImposeAt(files, Committed, entries, e);
    }
    forall e, m | e in entries && m in stale && Mentions(stale[m], e.path)
      ensures exists n, s :: LastAt(stale, e.path, n) && s in stale[n].entries && s.path == e.path
    {
      var n := LastExists(stale, e.path, m);
      var s :| s in stale[n].entries && s.path == e.path;
    }
  }
}
