// Permission grants over time (src/wright/application/permission/service.py, with the
// rules of src/wright/domain/model/session/authorization.py).
//
// A rule is its id, its lifetime and what it grants. Ids are made up afresh for every
// grant. Everything the guard compares as a whole (deny and ask rules, modes, protected
// paths, execution boundaries) is one opaque value, Hard.
module Guard {
  import opened Base
  import JournalStore

  type Hard(==, !new)
  type Text(==, !new)
  type Root(==, !new)

  datatype Lifetime = Session | Project | User

  /** What a rule grants, and the traits of it that the guard looks at. */
  datatype Content = Content(text: Text, directory: bool, writes: bool, command: bool, root: Root)

  datatype Rule = Rule(id: nat, lifetime: Lifetime, content: Content)

  /**
    The authoritative state: the rules of the session's owner, of the other sessions it
    inherits from, of the project and of the user; and the next fresh id and revision.
   */
  datatype State = State(hard: Hard, inherited: seq<Rule>, owner: seq<Rule>, project: seq<Rule>, user: seq<Rule>,
                         nextId: nat, revision: nat)

  // ---- Operations that succeed

  datatype Change = Change(session: seq<Content>, project: seq<Content>, user: seq<Content>)

  datatype Op = Commit(change: Change) | Revoke(id: nat, lifetime: Lifetime) | SetHard(hard: Hard)

  function Stamp(contents: seq<Content>, lifetime: Lifetime, first: nat): (r: seq<Rule>)
    ensures |r| == |contents|
    ensures forall i :: 0 <= i < |r| ==> r[i] == Rule(first + i, lifetime, contents[i])
  {
    seq(|contents|, i requires 0 <= i < |contents| => Rule(first + i, lifetime, contents[i]))
  }

  function Without(rules: seq<Rule>, id: nat): seq<Rule>
    decreases rules
  {
    if rules == [] then [] else if rules[0].id == id then Without(rules[1..], id) else [rules[0]] + Without(rules[1..], id)
  }

  function Total(c: Change): nat {
    |c.session| + |c.project| + |c.user|
  }

  function Committed(s: State, c: Change): State {
    var n := s.nextId;
    State(s.hard, s.inherited,
          s.owner + Stamp(c.session, Session, n),
          s.project + Stamp(c.project, Project, n + |c.session|),
          s.user + Stamp(c.user, User, n + |c.session| + |c.project|),
          n + Total(c), if Total(c) > 0 then s.revision + 1 else s.revision)
  }

  function Revoked(s: State, id: nat, lifetime: Lifetime): State {
    match lifetime
    case Session => s.(owner := Without(s.owner, id), revision := s.revision + 1)
    case Project => s.(project := Without(s.project, id), revision := s.revision + 1)
    case User => s.(user := Without(s.user, id), revision := s.revision + 1)
  }

  function Apply(s: State, op: Op): State {
    match op
    case Commit(change) => Committed(s, change)
    case Revoke(id, lifetime) => Revoked(s, id, lifetime)
    case SetHard(hard) => s.(hard := hard)
  }

  function Run(s: State, ops: seq<Op>): State
    decreases ops
  {
    if ops == [] then s else Run(Apply(s, ops[0]), ops[1..])
  }

  // ---- The guard

  predicate Granted(s: State, r: Rule) {
    r in s.user || r in s.project || r in s.inherited || r in s.owner
  }

  predicate ReadsOnly(c: Content) {
    c.directory && !c.writes
  }

  function Roots(rules: seq<Rule>): seq<Root>
    decreases rules
  {
    if rules == [] then [] else RootOf(rules[0]) + Roots(rules[1..])
  }

  function RootOf(r: Rule): seq<Root> {
    if ReadsOnly(r.content) then [r.content.root] else []
  }

  /** The read-only roots: allow rules first, then those of the sessions. */
  function ReadOnly(s: State): seq<Root> {
    Roots(s.user) + Roots(s.project) + Roots(s.inherited) + Roots(s.owner)
  }

  /** A guard for a process depends on directories and command grants only; any other on every rule. */
  predicate Relevant(process: bool, r: Rule) {
    !process || r.content.directory || r.content.command
  }

  predicate DependsOn(baseline: State, process: bool, r: Rule) {
    Granted(baseline, r) && Relevant(process, r)
  }

  ghost predicate Passes(baseline: State, process: bool, s: State) {
    && s.hard == baseline.hard
    && ReadOnly(s) == ReadOnly(baseline)
    && forall r :: DependsOn(baseline, process, r) ==> Granted(s, r)
  }

  // ---- Well-formedness

  ghost predicate Below(rules: seq<Rule>, n: nat, lifetime: Lifetime) {
    forall r :: r in rules ==> r.id < n && r.lifetime == lifetime
  }

  /** Every id was made up earlier, and every rule is where its lifetime says. */
  ghost predicate Valid(s: State) {
    Below(s.owner, s.nextId, Session) && Below(s.inherited, s.nextId, Session)
    && Below(s.project, s.nextId, Project) && Below(s.user, s.nextId, User)
  }

  lemma {:induction false} WithoutIs(rules: seq<Rule>, id: nat)
    ensures forall r :: r in Without(rules, id) <==> r in rules && r.id != id
    decreases rules
  {
    if rules != [] {
      WithoutIs(rules[1..], id);
      assert rules == [rules[0]] + rules[1..];
    }
  }

  lemma ValidStep(s: State, op: Op)
    requires Valid(s)
    ensures Valid(Apply(s, op)) && Apply(s, op).nextId >= s.nextId && Apply(s, op).revision >= s.revision
  {
    match op
    case Revoke(id, lifetime) => {
      WithoutIs(s.owner, id);
      WithoutIs(s.project, id);
      WithoutIs(s.user, id);
    }
    case _ =>
  }

  // ---- Additive commits

  lemma {:induction false} RootsAppend(a: seq<Rule>, b: seq<Rule>)
    ensures Roots(a + b) == Roots(a) + Roots(b)
    decreases a
  {
    if a == [] {
      assert a + b == b;
    } else {
      assert (a + b)[1..] == a[1..] + b;
      RootsAppend(a[1..], b);
      hide RootOf;
      assert Roots(a + b) == RootOf(a[0]) + (Roots(a[1..]) + Roots(b));
    }
  }

  /** The number of read-only directories among some grants. */
  function ReadOnlyCount(contents: seq<Content>): nat {
    if contents == [] then 0 else (if ReadsOnly(contents[0]) then 1 else 0) + ReadOnlyCount(contents[1..])
  }

  lemma {:induction false} StampedRoots(contents: seq<Content>, lifetime: Lifetime, first: nat)
    ensures |Roots(Stamp(contents, lifetime, first))| == ReadOnlyCount(contents)
    decreases contents
  {
    if contents != [] {
      assert Stamp(contents, lifetime, first)[1..] == Stamp(contents[1..], lifetime, first + 1);
      StampedRoots(contents[1..], lifetime, first + 1);
    }
  }

  function AddsReadOnly(c: Change): nat {
    ReadOnlyCount(c.session) + ReadOnlyCount(c.project) + ReadOnlyCount(c.user)
  }

  lemma GrantsRoots(rules: seq<Rule>, contents: seq<Content>, lifetime: Lifetime, first: nat)
    ensures |Roots(rules + Stamp(contents, lifetime, first))| == |Roots(rules)| + ReadOnlyCount(contents)
    ensures ReadOnlyCount(contents) == 0 ==> Roots(rules + Stamp(contents, lifetime, first)) == Roots(rules)
  {
    RootsAppend(rules, Stamp(contents, lifetime, first));
    StampedRoots(contents, lifetime, first);
  }

  lemma CommitReadOnly(s: State, c: Change)
    ensures |ReadOnly(Committed(s, c))| == |ReadOnly(s)| + AddsReadOnly(c)
    ensures AddsReadOnly(c) == 0 ==> ReadOnly(Committed(s, c)) == ReadOnly(s)
  {
    var n := s.nextId;
    GrantsRoots(s.owner, c.session, Session, n);
    GrantsRoots(s.project, c.project, Project, n + |c.session|);
    GrantsRoots(s.user, c.user, User, n + |c.session| + |c.project|);
    hide Roots, Stamp, ReadOnlyCount;
  }

  /** The read-only directories that a run of commits adds. */
  function RunAddsReadOnly(changes: seq<Change>): nat {
    if changes == [] then 0 else AddsReadOnly(changes[0]) + RunAddsReadOnly(changes[1..])
  }

  function Commits(changes: seq<Change>): (ops: seq<Op>)
    ensures |ops| == |changes| && forall i :: 0 <= i < |ops| ==> ops[i] == Commit(changes[i])
  {
    seq(|changes|, i requires 0 <= i < |changes| => Commit(changes[i]))
  }

  lemma {:induction false} CommitsKeep(s: State, changes: seq<Change>)
    ensures var t := Run(s, Commits(changes));
      && t.hard == s.hard && (forall r :: Granted(s, r) ==> Granted(t, r))
      && |ReadOnly(t)| == |ReadOnly(s)| + RunAddsReadOnly(changes)
      && (RunAddsReadOnly(changes) == 0 ==> ReadOnly(t) == ReadOnly(s))
    decreases changes
  {
    if changes != [] {
      assert Commits(changes)[1..] == Commits(changes[1..]);
      CommitReadOnly(s, changes[0]);
      CommitsKeep(Committed(s, changes[0]), changes[1..]);
    }
  }

  /** Commits trip an issued guard exactly when one of them grants a directory for reading only. */
  lemma CommitsTripGuardOnlyByReadOnly(baseline: State, process: bool, changes: seq<Change>)
    ensures Passes(baseline, process, Run(baseline, Commits(changes))) <==>
            forall i, x :: 0 <= i < |changes| && x in changes[i].session + changes[i].project + changes[i].user
              ==> !x.directory || x.writes
  {
    CommitsKeep(baseline, changes);
    NoneForReadingOnly(changes);
  }

  lemma {:induction false} NoneForReadingOnly(changes: seq<Change>)
    ensures RunAddsReadOnly(changes) == 0 <==>
            forall i, x :: 0 <= i < |changes| && x in changes[i].session + changes[i].project + changes[i].user
              ==> !x.directory || x.writes
    decreases changes
  {
    if changes != [] {
      var c := changes[0];
      CountsNone(c.session);
      CountsNone(c.project);
      CountsNone(c.user);
      NoneForReadingOnly(changes[1..]);
      assert changes == [c] + changes[1..];
    }
  }

  lemma {:induction false} CountsNone(contents: seq<Content>)
    ensures ReadOnlyCount(contents) == 0 <==> forall x :: x in contents ==> !x.directory || x.writes
    decreases contents
  {
    if contents != [] {
      CountsNone(contents[1..]);
      assert contents == [contents[0]] + contents[1..];
    }
  }

  /** The read-only roots are those of the directories that are granted for reading only. */
  lemma RootsHold(s: State, root: Root)
    ensures root in ReadOnly(s) <==>
      exists r :: r in s.user + s.project + s.inherited + s.owner
        && r.content.directory && !r.content.writes && r.content.root == root
  {
    RootsOf(s.user, root);
    RootsOf(s.project, root);
    RootsOf(s.inherited, root);
    RootsOf(s.owner, root);
    hide Roots;
  }

  lemma {:induction false} RootsOf(rules: seq<Rule>, root: Root)
    ensures root in Roots(rules) <==>
      exists r :: r in rules && r.content.directory && !r.content.writes && r.content.root == root
    decreases rules
  {
    if rules != [] {
      RootsOf(rules[1..], root);
      assert rules == [rules[0]] + rules[1..];
    }
  }

  /**
    What a commit puts in force: the rules there were, and one rule under a fresh id of its own for each thing
    granted, with the lifetime it was granted for. Restrictions stay as they are.
   */
  lemma CommitGrants(s: State, c: Change, r: Rule)
    ensures Granted(Committed(s, c), r) <==>
      || Granted(s, r)
      || var k := r.id - s.nextId;
         var a, b := |c.session|, |c.session| + |c.project|;
         || (0 <= k < a && r.lifetime == Session && r.content == c.session[k])
         || (a <= k < b && r.lifetime == Project && r.content == c.project[k - a])
         || (b <= k < b + |c.user| && r.lifetime == User && r.content == c.user[k - b])
  {
    var n, a, b := s.nextId, |c.session|, |c.session| + |c.project|;
    StampHolds(c.session, Session, n, r);
    StampHolds(c.project, Project, n + a, r);
    StampHolds(c.user, User, n + b, r);
    hide Stamp;
  }

  /** Restrictions and inherited rules stay as they are; the revision grows when anything is granted. */
  lemma CommitKeeps(s: State, c: Change)
    ensures Committed(s, c).hard == s.hard && Committed(s, c).inherited == s.inherited
    ensures Committed(s, c).revision == if c == Change([], [], []) then s.revision else s.revision + 1
    ensures Valid(s) ==> Valid(Committed(s, c))
  {
    if Valid(s) {
      ValidStep(s, Commit(c));
    }
    hide Stamp, Valid;
  }

  lemma StampHolds(contents: seq<Content>, lifetime: Lifetime, first: nat, r: Rule)
    ensures r in Stamp(contents, lifetime, first) <==>
      0 <= r.id - first < |contents| && r.lifetime == lifetime && r.content == contents[r.id - first]
  {
    var stamped := Stamp(contents, lifetime, first);
    if 0 <= r.id - first < |contents| && r.lifetime == lifetime && r.content == contents[r.id - first] {
      assert stamped[r.id - first] == r;
    }
  }

  // ---- Revocation

  /** The rule is gone and its id has been used: no grant will bring it back. */
  ghost predicate Gone(s: State, r: Rule) {
    Valid(s) && r.id < s.nextId && !Granted(s, r)
  }

  lemma GoneStep(s: State, op: Op, r: Rule)
    requires Gone(s, r)
    ensures Gone(Apply(s, op), r)
  {
    ValidStep(s, op);
    match op
    case Revoke(id, lifetime) => {
      WithoutIs(s.owner, id);
      WithoutIs(s.project, id);
      WithoutIs(s.user, id);
    }
    case _ =>
  }

  lemma {:induction false} GoneForGood(s: State, ops: seq<Op>, r: Rule)
    requires Gone(s, r)
    ensures Gone(Run(s, ops), r)
    decreases ops
  {
    if ops != [] {
      GoneStep(s, ops[0], r);
      GoneForGood(Apply(s, ops[0]), ops[1..], r);
    }
  }

  lemma RevokedIsGone(s: State, r: Rule)
    requires Valid(s) && Granted(s, r) && r !in s.inherited
    ensures Gone(Revoked(s, r.id, r.lifetime), r)
  {
    ValidStep(s, Revoke(r.id, r.lifetime));
    WithoutIs(s.owner, r.id);
    WithoutIs(s.project, r.id);
    WithoutIs(s.user, r.id);
  }

  /** Revoking a rule that a guard depends on trips the guard, whatever is granted afterwards. */
  lemma RevokingTripsForGood(baseline: State, process: bool, before: seq<Op>, r: Rule, after: seq<Op>)
    requires Valid(baseline) && DependsOn(baseline, process, r) && r !in baseline.inherited
    ensures !Passes(baseline, process, Run(Apply(Run(baseline, before), Revoke(r.id, r.lifetime)), after))
  {
    var s := Run(baseline, before);
    RunStaysValid(baseline, before);
    if Granted(s, r) {
      RevokedIsGone(s, r);
    } else {
      GoneStep(s, Revoke(r.id, r.lifetime), r);
    }
    var t := Apply(s, Revoke(r.id, r.lifetime));
    GoneForGood(t, after, r);
    assert !Granted(Run(t, after), r);
  }

  lemma {:induction false} RunStaysValid(s: State, ops: seq<Op>)
    requires Valid(s)
    ensures Valid(Run(s, ops)) && Run(s, ops).nextId >= s.nextId && Run(s, ops).revision >= s.revision
    ensures Run(s, ops).inherited == s.inherited
    decreases ops
  {
    if ops != [] {
      ValidStep(s, ops[0]);
      RunStaysValid(Apply(s, ops[0]), ops[1..]);
    }
  }

  /**
    From a state where a guard passes, a revocation trips it exactly when it takes away something it depends
    on or changes the read-only roots.
   */
  lemma RevokeTripsExactly(baseline: State, process: bool, s: State, id: nat, lifetime: Lifetime)
    requires Valid(baseline) && Valid(s) && Passes(baseline, process, s)
    ensures Passes(baseline, process, Revoked(s, id, lifetime)) <==>
            && (forall r :: DependsOn(baseline, process, r) && r.id == id && r.lifetime == lifetime ==> r in s.inherited)
            && ReadOnly(Revoked(s, id, lifetime)) == ReadOnly(s)
  {
    WithoutIs(s.owner, id);
    WithoutIs(s.project, id);
    WithoutIs(s.user, id);
    forall r | Granted(s, r)
      ensures Granted(Revoked(s, id, lifetime), r) <==> !(r.id == id && r.lifetime == lifetime) || r in s.inherited
    {
    }
  }

  /** What a revocation takes away: the rule of that id and lifetime, unless it is inherited; the others keep their order. */
  lemma RevokeTakes(s: State, id: nat, lifetime: Lifetime, r: Rule)
    requires Valid(s)
    ensures
      var t := Revoked(s, id, lifetime);
      && t.hard == s.hard && t.inherited == s.inherited && t.revision == s.revision + 1 && t.nextId == s.nextId
      && (Granted(t, r) <==>
            r in s.inherited
            || ((r in s.user || r in s.project || r in s.owner) && !(r.id == id && r.lifetime == lifetime)))
  {
    WithoutIs(s.owner, id);
    WithoutIs(s.project, id);
    WithoutIs(s.user, id);
  }

  lemma {:induction false} WithoutInOrder(a: seq<Rule>, b: seq<Rule>, id: nat)
    ensures Without(a + b, id) == Without(a, id) + Without(b, id)
    decreases a
  {
    if a == [] {
      assert a + b == b;
    } else {
      assert (a + b)[1..] == a[1..] + b;
      WithoutInOrder(a[1..], b, id);
    }
  }

  // ---- Any mixture of operations

  /** No operation revokes a rule the guard depends on. */
  ghost predicate Spares(baseline: State, process: bool, ops: seq<Op>) {
    forall i, r :: 0 <= i < |ops| && Takes(ops[i], r) && DependsOn(baseline, process, r) ==> r in baseline.inherited
  }

  predicate Takes(op: Op, r: Rule) {
    op == Revoke(r.id, r.lifetime)
  }

  lemma StaysGrantedStep(s: State, op: Op, r: Rule)
    requires Valid(s) && Granted(s, r) && (Takes(op, r) ==> r in s.inherited)
    ensures Granted(Apply(s, op), r)
  {
    if op.Revoke? {
      WithoutIs(s.owner, op.id);
      WithoutIs(s.project, op.id);
      WithoutIs(s.user, op.id);
    }
  }

  lemma {:induction false} StaysGranted(s: State, ops: seq<Op>, r: Rule)
    requires Valid(s) && Granted(s, r)
    requires forall i :: 0 <= i < |ops| && Takes(ops[i], r) ==> r in s.inherited
    ensures Granted(Run(s, ops), r)
    decreases ops
  {
    if ops != [] {
      StaysGrantedStep(s, ops[0], r);
      ValidStep(s, ops[0]);
      assert Apply(s, ops[0]).inherited == s.inherited;
      assert forall i :: 0 <= i < |ops[1..]| ==> ops[1..][i] == ops[i + 1];
      hide Granted, Apply, Takes, Valid;
      StaysGranted(Apply(s, ops[0]), ops[1..], r);
    }
  }

  lemma {:induction false} RunAppend(s: State, a: seq<Op>, b: seq<Op>)
    ensures Run(s, a + b) == Run(Run(s, a), b)
    decreases a
  {
    if a == [] {
      assert a + b == b;
    } else {
      assert (a + b)[1..] == a[1..] + b;
      RunAppend(Apply(s, a[0]), a[1..], b);
    }
  }

  /**
    After any mixture of grants, revocations and changes of mode or restrictions, an issued guard
    passes exactly when the restrictions and the read-only roots are as they were and nothing
    that it depends on has been revoked.
   */
  lemma GuardExactly(baseline: State, process: bool, ops: seq<Op>)
    requires Valid(baseline)
    ensures
      var s := Run(baseline, ops);
      Passes(baseline, process, s) <==>
        && s.hard == baseline.hard && ReadOnly(s) == ReadOnly(baseline)
        && forall i, r :: 0 <= i < |ops| && r in baseline.user + baseline.project + baseline.owner
             && ops[i] == Revoke(r.id, r.lifetime) && (!process || r.content.directory || r.content.command)
             ==> r in baseline.inherited
  {
    SparesIs(baseline, process, ops);
    hide Run, ReadOnly, Takes, DependsOn, Granted, Valid;
    if Spares(baseline, process, ops) {
      SparedStays(baseline, process, ops);
    } else {
      var i, r :| 0 <= i < |ops| && Takes(ops[i], r) && DependsOn(baseline, process, r) && r !in baseline.inherited;
      TakenTrips(baseline, process, ops, i, r);
    }
  }

  lemma SparesIs(baseline: State, process: bool, ops: seq<Op>)
    ensures Spares(baseline, process, ops) <==>
      forall i, r :: 0 <= i < |ops| && r in baseline.user + baseline.project + baseline.owner
        && ops[i] == Revoke(r.id, r.lifetime) && (!process || r.content.directory || r.content.command)
        ==> r in baseline.inherited
  {
    var rules := baseline.user + baseline.project + baseline.owner;
    if Spares(baseline, process, ops) {
      forall i, r | 0 <= i < |ops| && r in rules && ops[i] == Revoke(r.id, r.lifetime)
                    && (!process || r.content.directory || r.content.command)
        ensures r in baseline.inherited
      {
        assert Takes(ops[i], r);
      }
    } else {
      var i, r :| 0 <= i < |ops| && Takes(ops[i], r) && DependsOn(baseline, process, r) && r !in baseline.inherited;
      assert r in rules;
    }
  }

  lemma SparedStays(baseline: State, process: bool, ops: seq<Op>)
    requires Valid(baseline) && Spares(baseline, process, ops)
    ensures forall r :: DependsOn(baseline, process, r) ==> Granted(Run(baseline, ops), r)
  {
    hide Run, Takes, Valid;
    forall r | DependsOn(baseline, process, r) ensures Granted(Run(baseline, ops), r) {
      StaysGranted(baseline, ops, r);
    }
  }

  lemma TakenTrips(baseline: State, process: bool, ops: seq<Op>, i: nat, r: Rule)
    requires Valid(baseline) && i < |ops| && Takes(ops[i], r) && DependsOn(baseline, process, r)
    requires r !in baseline.inherited
    ensures !Passes(baseline, process, Run(baseline, ops))
  {
    hide Passes, DependsOn, Valid, Apply;
    RevokingTripsForGood(baseline, process, ops[..i], r, ops[i + 1..]);
    var rest := [ops[i]] + ops[i + 1..];
    assert ops == ops[..i] + rest && rest[1..] == ops[i + 1..];
    RunAppend(baseline, ops[..i], rest);
  }

  // ---- Versions

  /** A version is a digest of everything a decision was based on. */
  datatype Version = Version(revision: nat, hard: Hard, rules: seq<Rule>)

  function VersionOf(s: State): Version {
    Version(s.revision, s.hard, s.user + s.project + s.inherited + s.owner)
  }

  /** States of one version have the same restrictions, the same rules in force and the same read-only roots. */
  lemma VersionTells(s: State, t: State)
    requires VersionOf(s) == VersionOf(t)
    ensures s.hard == t.hard && s.revision == t.revision && ReadOnly(s) == ReadOnly(t)
    ensures forall r :: Granted(s, r) <==> Granted(t, r)
  {
    forall r ensures Granted(s, r) <==> Granted(t, r) {
      assert Granted(s, r) <==> r in VersionOf(s).rules;
      assert Granted(t, r) <==> r in VersionOf(t).rules;
    }
    VersionRoots(s);
    VersionRoots(t);
  }

  lemma VersionRoots(s: State)
    ensures ReadOnly(s) == Roots(VersionOf(s).rules)
  {
    RootsAppend(s.user, s.project);
    RootsAppend(s.user + s.project, s.inherited);
    RootsAppend(s.user + s.project + s.inherited, s.owner);
  }

  predicate Writes(op: Op) {
    op.Revoke? || (op.Commit? && Total(op.change) > 0)
  }

  lemma {:induction false} RevisionGrows(s: State, ops: seq<Op>)
    requires Valid(s) && exists i :: 0 <= i < |ops| && Writes(ops[i])
    ensures Run(s, ops).revision > s.revision
    decreases ops
  {
    ValidStep(s, ops[0]);
    RunStaysValid(Apply(s, ops[0]), ops[1..]);
    if !Writes(ops[0]) {
      var i :| 0 <= i < |ops| && Writes(ops[i]);
      assert Writes(ops[1..][i - 1]);
      RevisionGrows(Apply(s, ops[0]), ops[1..]);
    }
  }

  /** A version that some revocation, or a grant of anything, has left behind never comes back. */
  lemma VersionsNeverReturn(s: State, ops: seq<Op>)
    requires Valid(s)
    requires exists i :: 0 <= i < |ops| && (ops[i].Revoke? || (ops[i].Commit? && ops[i].change != Change([], [], [])))
    ensures VersionOf(Run(s, ops)) != VersionOf(s)
  {
    var i :| 0 <= i < |ops| && (ops[i].Revoke? || (ops[i].Commit? && ops[i].change != Change([], [], [])));
    assert Writes(ops[i]);
    RevisionGrows(s, ops);
  }

  // ---- The service

  /**
    Where an operation can raise, apart from the steps of its unit of work on the disk: entering
    the transaction, checking and storing the rules, and telling of the change afterwards.
   */
  datatype Point = Recovery | SessionGrants | ProjectGrants | UserGrants | SessionStore | Checkpoint | Notification

  /** RolledBack: an exception before the change was over; NotTold: one after it; Died: the process was killed. */
  datatype Result = Done | Unreadable | Conflict | NotFound | RolledBack | NotTold | Died

  type End = JournalStore.End

  /** What raises in the body of the unit: nothing is checked or written for a lifetime without rules. */
  predicate Fails(c: Change, faults: set<Point>) {
    || (c.session != [] && (SessionGrants in faults || SessionStore in faults))
    || (c.project != [] && ProjectGrants in faults)
    || (c.user != [] && UserGrants in faults)
    || Checkpoint in faults
  }

  /** How many permission files a change writes. */
  function Touched(c: Change): nat {
    (if c.session == [] then 0 else 1) + (if c.project == [] then 0 else 1) + (if c.user == [] then 0 else 1)
  }

  /**
    The end of the unit of work of a change: nothing is recorded if the body raises; else the
    journal decides, with the fates of its steps on the disk and the number of files, those of
    the checkpoint among them.
   */
  function CommitEnd(c: Change, faults: set<Point>, fates: seq<JournalStore.Fate>, checkpoint: nat): End {
    if Fails(c, faults) then JournalStore.End(JournalStore.Raised, false)
    else JournalStore.UnitEnd(fates, Touched(c) + checkpoint)
  }

  function RevokeEnd(lifetime: Lifetime, faults: set<Point>, fates: seq<JournalStore.Fate>, checkpoint: nat): End {
    if RevokeFails(lifetime, faults) then JournalStore.End(JournalStore.Raised, false)
    else JournalStore.UnitEnd(fates, 1 + checkpoint)
  }

  /** A unit that has nothing to write is over without a record. */
  predicate InForce(end: End) {
    end.committed || end.outcome == JournalStore.Ok
  }

  /** What the caller of an operation sees of the end of its unit. */
  function ResultOf(end: End, faults: set<Point>): Result {
    match end.outcome
    case Killed => Died
    case Raised => RolledBack
    case Ok => if Notification in faults then NotTold else Done
  }

  /**
    How a grant ends: an exception while anything it has is checked or stored undoes it; else the journal
    decides on as many files as it has kinds of grants, and those of the checkpoint.
   */
  lemma HowCommitEnds(c: Change, faults: set<Point>, fates: seq<JournalStore.Fate>, checkpoint: nat)
    ensures
      var end := CommitEnd(c, faults, fates, checkpoint);
      var files := (if c.session != [] then 1 else 0) + (if c.project != [] then 1 else 0) + (if c.user != [] then 1 else 0);
      var unit := JournalStore.UnitEnd(fates, files + checkpoint);
      if Checkpoint in faults
         || (c.session != [] && (SessionGrants in faults || SessionStore in faults))
         || (c.project != [] && ProjectGrants in faults) || (c.user != [] && UserGrants in faults)
      then ResultOf(end, faults) == RolledBack && !InForce(end)
      else
        && (ResultOf(end, faults) == Died <==> unit.outcome == JournalStore.Killed)
        && (ResultOf(end, faults) == RolledBack <==> unit.outcome == JournalStore.Raised)
        && (ResultOf(end, faults) == NotTold <==> unit.outcome == JournalStore.Ok && Notification in faults)
        && (ResultOf(end, faults) == Done <==> unit.outcome == JournalStore.Ok && Notification !in faults)
        && (InForce(end) <==> unit.outcome == JournalStore.Ok || unit.committed)
  {
    hide JournalStore.UnitEnd;
  }

  /** The same for a revocation, of one file and those of the checkpoint. */
  lemma HowRevokeEnds(lifetime: Lifetime, faults: set<Point>, fates: seq<JournalStore.Fate>, checkpoint: nat)
    ensures
      var end := RevokeEnd(lifetime, faults, fates, checkpoint);
      var unit := JournalStore.UnitEnd(fates, 1 + checkpoint);
      if Checkpoint in faults || (lifetime == Session && SessionStore in faults)
      then ResultOf(end, faults) == RolledBack && !end.committed
      else
        && (ResultOf(end, faults) == Died <==> unit.outcome == JournalStore.Killed)
        && (ResultOf(end, faults) == RolledBack <==> unit.outcome == JournalStore.Raised)
        && (ResultOf(end, faults) == NotTold <==> unit.outcome == JournalStore.Ok && Notification in faults)
        && (ResultOf(end, faults) == Done <==> unit.outcome == JournalStore.Ok && Notification !in faults)
        && (end.committed <==> unit.committed)
  {
    hide JournalStore.UnitEnd;
  }

  /** When nothing fails, a grant is done and in force, and so is a revocation. */
  lemma NothingInTheWay(c: Change, lifetime: Lifetime, fates: seq<JournalStore.Fate>, checkpoint: nat)
    requires JournalStore.AllWork(fates, |c.session| + |c.project| + |c.user| + checkpoint + 4)
    ensures ResultOf(CommitEnd(c, {}, fates, checkpoint), {}) == Done && InForce(CommitEnd(c, {}, fates, checkpoint))
    ensures ResultOf(RevokeEnd(lifetime, {}, fates, checkpoint), {}) == Done
    ensures RevokeEnd(lifetime, {}, fates, checkpoint).committed
  {
    var n := Touched(c) + checkpoint;
    if n > 0 {
      JournalStore.UnitEndExactly(fates, n);
    }
    JournalStore.UnitEndExactly(fates, 1 + checkpoint);
  }

  /** The disk steps in which a unit of n files raises although its record has reached the disk. */
  ghost predicate RaisesTooLate(fates: seq<JournalStore.Fate>, n: nat) {
    && JournalStore.AllWork(fates, n + 1)
    && (|| (JournalStore.FateAt(fates, n + 1) == JournalStore.RaisesAfter
            && JournalStore.Recovering(JournalStore.Later(fates, n + 2), n) != JournalStore.Killed)
        || (JournalStore.FateAt(fates, n + 1) == JournalStore.Works
            && JournalStore.FateAt(fates, n + 2).Outcome() == JournalStore.Raised))
  }

  /**
    A grant that raises and is rolled back in memory is in force all the same exactly when its
    body did not raise and either writing the COMMITTED record raised after the record was there,
    or removing the log raised.
   */
  lemma GrantedAllTheSame(c: Change, faults: set<Point>, fates: seq<JournalStore.Fate>, checkpoint: nat)
    requires Touched(c) > 0
    ensures
      var end := CommitEnd(c, faults, fates, checkpoint);
      ResultOf(end, faults) == RolledBack && InForce(end)
      <==> !Fails(c, faults) && RaisesTooLate(fates, Touched(c) + checkpoint)
  {
    JournalStore.UnitEndExactly(fates, Touched(c) + checkpoint);
  }

  lemma RevokedAllTheSame(lifetime: Lifetime, faults: set<Point>, fates: seq<JournalStore.Fate>, checkpoint: nat)
    ensures
      var end := RevokeEnd(lifetime, faults, fates, checkpoint);
      ResultOf(end, faults) == RolledBack && InForce(end)
      <==> !RevokeFails(lifetime, faults) && RaisesTooLate(fates, 1 + checkpoint)
  {
    JournalStore.UnitEndExactly(fates, 1 + checkpoint);
  }

  class PermissionService {
    var hard: Hard
    var inherited: seq<Rule>
    /** The owner's rules in memory, and as they are stored. */
    var owner: seq<Rule>
    var stored: seq<Rule>
    var project: seq<Rule>
    var user: seq<Rule>
    var nextId: nat
    var revision: nat

    function Current(): State reads this {
      State(hard, inherited, stored, project, user, nextId, revision)
    }

    /** The same grants and restrictions; ids may have been used up. */
    twostate predicate Unchanged() reads this {
      Current() == old(Current()).(nextId := nextId) && nextId >= old(nextId)
    }

    constructor (s: State)
      ensures Current() == s && owner == stored
    {
      hard, inherited, owner, stored, project, user := s.hard, s.inherited, s.owner, s.owner, s.project, s.user;
      nextId, revision := s.nextId, s.revision;
    }

    /** Reading the permissions brings the owner's rules up to date. */
    method Snapshot() returns (s: State)
      modifies `owner
      ensures s == Current() && owner == stored
    {
      owner := stored;
      s := Current();
    }

    /** Add the session rules one by one to the owner's rules in memory. */
    method AddRules(rules: seq<Rule>)
      modifies `owner
      ensures owner == old(owner) + rules
    {
      for k := 0 to |rules|
        invariant owner == old(owner) + rules[..k]
      {
        owner := owner + [rules[k]];
      }
    }

    method FreshRules(contents: seq<Content>, lifetime: Lifetime) returns (rules: seq<Rule>)
      modifies `nextId
      ensures rules == Stamp(contents, lifetime, old(nextId)) && nextId == old(nextId) + |contents|
    {
      rules := Stamp(contents, lifetime, nextId);
      nextId := nextId + |contents|;
    }

    /**
      Memory is rolled back by hand when the unit raises, and the files stand for what the
      journal has recorded. So after a raise they differ exactly when the record had reached the
      disk, until the permissions are next read.
     */
    method Commit(c: Change, expected: Option<Version>, faults: set<Point>, fates: seq<JournalStore.Fate>,
                  checkpoint: nat) returns (r: Result)
      modifies this
      ensures r == if Recovery in faults then Unreadable
                   else if expected.Some? && expected.value != old(VersionOf(Current())) then Conflict
                   else ResultOf(CommitEnd(c, faults, fates, checkpoint), faults)
      ensures if r !in {Unreadable, Conflict} && InForce(CommitEnd(c, faults, fates, checkpoint))
              then Current() == Committed(old(Current()), c) else Unchanged()
      ensures r in {Done, NotTold} ==> InForce(CommitEnd(c, faults, fates, checkpoint))
      ensures r in {Done, NotTold, Conflict} ==> owner == stored
      ensures r == RolledBack ==> owner == old(stored)
      ensures r == RolledBack ==>
        (owner != stored <==> CommitEnd(c, faults, fates, checkpoint).committed && c.session != [])
      ensures r == Unreadable ==> owner == old(owner)
    {
      if Recovery in faults {
        return Unreadable;
      }
      var snapshot := Snapshot();
      if expected.Some? && VersionOf(snapshot) != expected.value {
        return Conflict;
      }
      var before := owner;
      var end := Attempt(c, faults, fates, checkpoint);
      hide JournalStore.UnitEnd;
      if end.outcome == JournalStore.Raised {
        owner := before;
      }
      return ResultOf(end, faults);
    }

    /** The unit of work: its body changes memory and buffers the files, and its end decides on these. */
    method Attempt(c: Change, faults: set<Point>, fates: seq<JournalStore.Fate>, checkpoint: nat) returns (end: End)
      requires owner == stored
      modifies this
      ensures end == CommitEnd(c, faults, fates, checkpoint)
      ensures if InForce(end) then owner == stored && Current() == Committed(old(Current()), c) else Unchanged()
    {
      hide JournalStore.UnitEnd;
      var raised := JournalStore.End(JournalStore.Raised, false);
      var rules := FreshRules(c.session, Session);
      if c.session != [] && SessionGrants in faults {
        return raised;
      }
      AddRules(rules);
      rules := FreshRules(c.project, Project);
      if c.project != [] && ProjectGrants in faults {
        return raised;
      }
      var newProject := project + rules;
      rules := FreshRules(c.user, User);
      if c.user != [] && UserGrants in faults {
        return raised;
      }
      var newUser := user + rules;
      if c.session != [] && SessionStore in faults {
        return raised;
      }
      if Checkpoint in faults {
        return raised;
      }
      end := JournalStore.UnitEnd(fates, Touched(c) + checkpoint);
      if InForce(end) {
        stored, project, user := owner, newProject, newUser;
        if c.session != [] || c.project != [] || c.user != [] {
          revision := revision + 1;
        }
      }
    }

    /** Only what the version was about may be revoked, and only if it is there. */
    method Revoke(id: nat, lifetime: Lifetime, version: Version, faults: set<Point>, fates: seq<JournalStore.Fate>,
                  checkpoint: nat) returns (r: Result)
      modifies this
      ensures r == if Recovery in faults then Unreadable
                   else if version != old(VersionOf(Current())) then Conflict
                   else if !old(Revocable(id, lifetime)) then NotFound
                   else ResultOf(RevokeEnd(lifetime, faults, fates, checkpoint), faults)
      ensures Current() ==
        if r !in {Unreadable, Conflict, NotFound} && RevokeEnd(lifetime, faults, fates, checkpoint).committed
        then Revoked(old(Current()), id, lifetime) else old(Current())
      ensures r in {Done, NotTold} ==> RevokeEnd(lifetime, faults, fates, checkpoint).committed
      ensures r in {Done, NotTold, Conflict, NotFound} ==> owner == stored
      ensures r == RolledBack ==> owner == old(stored)
      ensures r == RolledBack ==>
        (owner != stored <==> RevokeEnd(lifetime, faults, fates, checkpoint).committed && lifetime == Session)
      ensures r == Unreadable ==> owner == old(owner)
    {
      if Recovery in faults {
        return Unreadable;
      }
      var snapshot := Snapshot();
      if VersionOf(snapshot) != version {
        return Conflict;
      }
      var before := owner;
      WithoutSame(owner, id);
      owner := if lifetime == Session then Without(owner, id) else owner;
      if if lifetime == Session then owner == before else !HasId(if lifetime == Project then project else user, id) {
        return NotFound;
      }
      var end := RevokeEnd(lifetime, faults, fates, checkpoint);
      JournalStore.UnitEndExactly(fates, 1 + checkpoint);
      hide JournalStore.UnitEnd, JournalStore.AllWork;
      if end.committed {
        StoreWithout(id, lifetime);
      }
      if end.outcome == JournalStore.Raised {
        owner := before;
      }
      return ResultOf(end, faults);
    }

    /** The files once a revocation has been recorded. */
    method StoreWithout(id: nat, lifetime: Lifetime)
      requires lifetime == Session ==> owner == Without(stored, id)
      modifies `stored, `project, `user, `revision
      ensures Current() == Revoked(old(Current()), id, lifetime)
    {
      match lifetime {
        case Session => stored := owner;
        case Project => project := Without(project, id);
        case User => user := Without(user, id);
      }
      revision := revision + 1;
    }

    predicate Revocable(id: nat, lifetime: Lifetime) reads this {
      HasId(match lifetime case Session => stored case Project => project case User => user, id)
    }

    /** The check an issued guard makes before each use. */
    method Validate(baseline: State, process: bool) returns (ok: bool)
      modifies `owner
      ensures ok <==> Passes(baseline, process, Current())
      ensures owner == stored
    {
      var s := Snapshot();
      if s.hard != baseline.hard || ReadOnly(s) != ReadOnly(baseline) {
        return false;
      }
      var previous := baseline.inherited + baseline.owner + baseline.user + baseline.project;
      for k := 0 to |previous|
        invariant forall i :: 0 <= i < k && Relevant(process, previous[i]) ==> Granted(s, previous[i])
      {
        if Relevant(process, previous[k]) && !Granted(s, previous[k]) {
          assert DependsOn(baseline, process, previous[k]);
          return false;
        }
      }
      forall r | DependsOn(baseline, process, r) ensures Granted(s, r) {
        assert r in previous;
      }
      return true;
    }

    /** What other threads and processes do while the user is asked. */
    method Elsewhere(ops: seq<Op>)
      modifies this
      ensures Current() == Run(old(Current()), ops)
    {
      for k := 0 to |ops|
        invariant Current() == Run(old(Current()), ops[..k])
      {
        RunSnoc(old(Current()), ops[..k], ops[k]);
        assert ops[..k + 1] == ops[..k] + [ops[k]];
        var s := Apply(Current(), ops[k]);
        hard, stored, project, user, nextId, revision := s.hard, s.owner, s.project, s.user, s.nextId, s.revision;
      }
      assert ops[..|ops|] == ops;
    }

    /**
      Ask for approval, commit what it grants and issue a permit whose guard starts from the
      permissions as they are at that moment. others is what happens during the approval. A
      commit that raises issues no permit, though its grants may be in force.
     */
    method Authorize(others: seq<Op>, c: Change, faults: set<Point>, fates: seq<JournalStore.Fate>, checkpoint: nat)
      returns (permit: Option<State>)
      requires Valid(Current())
      modifies this
      ensures permit.Some? <==>
              && Recovery !in faults
              && VersionOf(Run(old(Current()), others)) == old(VersionOf(Current()))
              && (c == Change([], [], []) || ResultOf(CommitEnd(c, faults, fates, checkpoint), faults) == Done)
      ensures permit.Some? ==> permit.value == Current() == Committed(Run(old(Current()), others), c)
      ensures
        (exists i :: 0 <= i < |others|
           && (others[i].Revoke? || (others[i].Commit? && others[i].change != Change([], [], [])))) ==> permit.None?
      ensures permit.Some? ==> forall process :: Passes(permit.value, process, Current())
      ensures permit.None? && Recovery !in faults ==>
        var s := Run(old(Current()), others);
        || Current() == s.(nextId := nextId)
        || (Current() == Committed(s, c) && InForce(CommitEnd(c, faults, fates, checkpoint)))
    {
      if Recovery in faults {
        return None;
      }
      var approved := Snapshot();
      if exists i :: 0 <= i < |others|
           && (others[i].Revoke? || (others[i].Commit? && others[i].change != Change([], [], []))) {
        VersionsNeverReturn(approved, others);
      }
      Elsewhere(others);
      var now := Snapshot();
      if VersionOf(now) != VersionOf(approved) {
        return None;
      }
      if c != Change([], [], []) {
        var r := Commit(c, Some(VersionOf(approved)), faults, fates, checkpoint);
        if r != Done {
          return None;
        }
      }
      var baseline := Snapshot();
      return Some(baseline);
    }
  }

  /**
    A grant whose COMMITTED record was written but raises, and which the recovery behind it settles: the
    caller sees an exception and the session's memory is as before, but the files hold the grant.
   */
  method GrantOutlivesRollback(s: State, content: Content) returns (service: PermissionService, r: Result)
    ensures r == RolledBack && service.owner == s.owner
    ensures service.Current() == Committed(s, Change([content], [], []))
  {
    service := new PermissionService(s);
    var c := Change([content], [], []);
    var fates := [JournalStore.Works, JournalStore.Works, JournalStore.RaisesAfter];
    assert CommitEnd(c, {}, fates, 0) == JournalStore.End(JournalStore.Raised, true) by {
      LateRaise(fates);
    }
    r := service.Commit(c, None, {}, fates, 0);
  }

  lemma LateRaise(fates: seq<JournalStore.Fate>)
    requires fates == [JournalStore.Works, JournalStore.Works, JournalStore.RaisesAfter]
    ensures JournalStore.UnitEnd(fates, 1) == JournalStore.End(JournalStore.Raised, true)
  {
    JournalStore.NothingFails(1, false);
    JournalStore.UnitEndExactly(fates, 1);
    assert JournalStore.Later(fates, 3) == [];
  }

  predicate HasId(rules: seq<Rule>, id: nat) {
    exists i :: 0 <= i < |rules| && rules[i].id == id
  }

  predicate RevokeFails(lifetime: Lifetime, faults: set<Point>) {
    Checkpoint in faults || (lifetime == Session && SessionStore in faults)
  }

  lemma {:induction false} WithoutSame(rules: seq<Rule>, id: nat)
    ensures Without(rules, id) == rules <==> !HasId(rules, id)
    decreases rules
  {
    WithoutIs(rules, id);
    if rules != [] {
      WithoutSame(rules[1..], id);
      if HasId(rules[1..], id) {
        var i :| 0 <= i < |rules[1..]| && rules[1..][i].id == id;
        assert rules[i + 1].id == id && rules[i + 1] in rules;
      } else if HasId(rules, id) {
        assert rules[0].id == id && rules[0] in rules;
      }
    }
  }

  lemma {:induction false} RunSnoc(s: State, ops: seq<Op>, op: Op)
    ensures Run(s, ops + [op]) == Apply(Run(s, ops), op)
    decreases ops
  {
    if ops == [] {
      assert [] + [op] == [op];
      assert Run(Apply(s, op), [op][1..]) == Apply(s, op);
    } else {
      assert (ops + [op])[1..] == ops[1..] + [op];
      RunSnoc(Apply(s, ops[0]), ops[1..], op);
    }
  }
}
