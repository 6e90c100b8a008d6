// The request context (src/wright/application/agent/context.py) and its token
// estimate (src/wright/utils/token_counter.py).
//
// A text is its length in characters and, when it is a JSON object, the parts of the
// object that the projection looks at. How long the encoder makes an object, and which
// dictionary key it gives to an instruction without one, are parameters (Encoder).
module Context {
  import opened Base

  type Id(==, !new)
  type CallId(==, !new)
  type Source(==, !new)
  type Value(==, !new)
  type Key(==, !new)

  const CHARS_PER_TOKEN := 4
  const IMAGE_TOKENS := 1024

  // ---- Messages

  datatype Data = Full(value: Value) | FoldedNote | SupersededNote

  /** instruction is None for an ordinary result, Some(None) for an instruction without a usable key. */
  datatype Body = Body(ok: Value, err: Value, data: Data, folded: bool, instruction: Option<Option<Key>>, images: nat)

  datatype Content = Absent | Plain(chars: nat) | Object(body: Body, chars: nat)

  datatype Role = System | User | Assistant | ToolResult

  /** fixed counts the tokens of tool calls and reasoning; parts the images, if there is a parts list. */
  datatype Message = Message(role: Role, callId: Option<CallId>, content: Content, fixed: nat, parts: Option<nat>)

  datatype Entry = Entry(id: Option<Id>, message: Message, source: Source)

  datatype Encoder = Encoder(size: Body -> nat, own: nat -> Key)

  function TextTokens(c: Content): nat {
    if c.Absent? then 0 else c.chars / CHARS_PER_TOKEN
  }

  function MessageTokens(m: Message): nat {
    TextTokens(m.content) + m.fixed
    + (if m.parts.Some? then IMAGE_TOKENS * m.parts.value else 0)
    + (if m.role == ToolResult && m.content.Object? then IMAGE_TOKENS * m.content.body.images else 0)
  }

  function Tokens(entries: seq<Entry>): nat {
    if entries == [] then 0 else MessageTokens(entries[0].message) + Tokens(entries[1..])
  }

  /**
    What is estimated: a token for every four characters of the text, 1024 for an image in the parts or
    among the artifacts of a tool result, and the calls and the reasoning; message by message.
   */
  lemma {:induction false} TokensAre(a: seq<Entry>, b: seq<Entry>)
    ensures Tokens(a + b) == Tokens(a) + Tokens(b)
    ensures |a| == 1 ==>
      var m := a[0].message;
      var images := (if m.parts.Some? then m.parts.value else 0)
                    + (if m.role == ToolResult && m.content.Object? then m.content.body.images else 0);
      Tokens(a) == m.fixed + 1024 * images + (if m.content.Absent? then 0 else m.content.chars / 4)
    decreases a
  {
    if a == [] {
      assert a + b == b;
    } else {
      assert (a + b)[1..] == a[1..] + b;
      TokensAre(a[1..], b);
    }
  }

  // ---- Folding

  predicate IsResult(e: Entry) {
    e.message.role == ToolResult && e.message.callId.Some? && !e.message.content.Absent?
  }

  function ResultCount(entries: seq<Entry>): nat {
    if entries == [] then 0 else (if IsResult(entries[0]) then 1 else 0) + ResultCount(entries[1..])
  }

  function InstructionKey(e: Entry): Option<Option<Key>> {
    if e.message.role == ToolResult && e.message.content.Object? then e.message.content.body.instruction else None
  }

  /** The dictionary key under which the latest copy of an instruction is remembered. */
  function Slot(enc: Encoder, entries: seq<Entry>, i: nat): Option<Key>
    requires i < |entries|
  {
    match InstructionKey(entries[i])
    case None => None
    case Some(None) => Some(enc.own(i))
    case Some(Some(key)) => Some(key)
  }

  /** An instruction is protected unless a later entry has its slot. */
  ghost predicate Protected(enc: Encoder, entries: seq<Entry>, i: nat)
    requires i < |entries|
  {
    Slot(enc, entries, i).Some? && forall j :: i < j < |entries| ==> Slot(enc, entries, j) != Slot(enc, entries, i)
  }

  function ReplacementBody(body: Body): Body {
    Body(body.ok, body.err, if body.instruction.Some? then SupersededNote else FoldedNote, true, body.instruction, 0)
  }

  function KeepRecent(keep: int): nat {
    if keep < 0 then 0 else keep
  }

  /** A tool result that enough newer ones follow. */
  ghost predicate Old(entries: seq<Entry>, keep: int, i: nat)
    requires i < |entries|
  {
    IsResult(entries[i]) && ResultCount(entries[i + 1..]) >= KeepRecent(keep)
  }

  /** An old tool result is folded when nothing protects it and folding makes it shorter. */
  ghost predicate Foldable(enc: Encoder, entries: seq<Entry>, keep: int, i: nat)
    requires i < |entries|
  {
    var m := entries[i].message;
    && Old(entries, keep, i) && !Protected(enc, entries, i)
    && m.content.Object? && !m.content.body.folded
    && enc.size(ReplacementBody(m.content.body)) < m.content.chars
  }

  function Replaced(enc: Encoder, e: Entry): Entry
    requires e.message.content.Object?
  {
    var body := ReplacementBody(e.message.content.body);
    e.(message := e.message.(content := Object(body, enc.size(body))))
  }

  ghost function Folded(enc: Encoder, entries: seq<Entry>, keep: int): (r: seq<Entry>)
    ensures |r| == |entries|
    ensures forall i :: 0 <= i < |entries| ==>
      r[i] == if Foldable(enc, entries, keep, i) then Replaced(enc, entries[i]) else entries[i]
  {
    seq(|entries|, i requires 0 <= i < |entries| => if Foldable(enc, entries, keep, i) then Replaced(enc, entries[i]) else entries[i])
  }

  /** The ids of the first n entries that get folded. */
  ghost function FoldedIds(enc: Encoder, entries: seq<Entry>, keep: int, n: nat): seq<Id>
    requires n <= |entries|
  {
    if n == 0 then []
    else FoldedIds(enc, entries, keep, n - 1)
         + if Foldable(enc, entries, keep, n - 1) && entries[n - 1].id.Some? then [entries[n - 1].id.value] else []
  }

  // ---- What folding keeps

  /** Folding rewrites tool results where they stand: same length, ids, sources, roles and calls. */
  lemma FoldingKeepsStructure(enc: Encoder, entries: seq<Entry>, keep: int, i: nat)
    requires i < |entries|
    ensures |Folded(enc, entries, keep)| == |entries|
    ensures var f := Folded(enc, entries, keep)[i];
      && f.id == entries[i].id && f.source == entries[i].source
      && f.message.role == entries[i].message.role && f.message.callId == entries[i].message.callId
      && InstructionKey(f) == InstructionKey(entries[i]) && IsResult(f) == IsResult(entries[i])
      && f.message.fixed == entries[i].message.fixed && f.message.parts == entries[i].message.parts
      && MessageTokens(f.message) <= MessageTokens(entries[i].message)
    ensures Folded(enc, entries, keep)[i] != entries[i] <==> Foldable(enc, entries, keep, i)
  {
  }

  /** A later instruction that takes the place of an earlier one: they have the same key, given or made up. */
  ghost predicate Supersedes(enc: Encoder, later: Message, j: nat, earlier: Message, i: nat) {
    && later.role == ToolResult && later.content.Object? && later.content.body.instruction.Some?
    && earlier.role == ToolResult && earlier.content.Object? && earlier.content.body.instruction.Some?
    && match (later.content.body.instruction.value, earlier.content.body.instruction.value)
       case (Some(x), Some(y)) => x == y
       case (Some(x), None) => x == enc.own(i)
       case (None, Some(y)) => enc.own(j) == y
       case (None, None) => enc.own(j) == enc.own(i)
  }

  /**
    What is folded, spelt out: a JSON tool result that is not folded yet, with as many results behind
    it as are kept, that is no instruction or a superseded one, and whose folded form is shorter. What is
    left of it is its status and error, with a note in place of the data, and its instruction key.
   */
  lemma FoldedExactly(enc: Encoder, entries: seq<Entry>, keep: int, i: nat)
    requires i < |entries|
    ensures
      var f, m := Folded(enc, entries, keep)[i], entries[i].message;
      if m.role == ToolResult && m.callId.Some? && m.content.Object? then
        var b := m.content.body;
        var shorter := Body(b.ok, b.err, if b.instruction.Some? then SupersededNote else FoldedNote, true, b.instruction, 0);
        var unprotected := b.instruction.None?
          || exists j :: i < j < |entries| && Supersedes(enc, entries[j].message, j, m, i);
        if !b.folded && ResultCount(entries[i + 1..]) >= keep && unprotected && enc.size(shorter) < m.content.chars
        then f == entries[i].(message := m.(content := Object(shorter, enc.size(shorter))))
        else f == entries[i]
      else f == entries[i]
  {
    LatestExactly(enc, entries, i);
    hide Protected, Slot, ResultCount, Supersedes;
  }

  /** An instruction is protected exactly while nothing behind it supersedes it. */
  lemma LatestExactly(enc: Encoder, entries: seq<Entry>, i: nat)
    requires i < |entries|
    ensures
      var m := entries[i].message;
      Protected(enc, entries, i) <==>
        && m.role == ToolResult && m.content.Object? && m.content.body.instruction.Some?
        && !exists j :: i < j < |entries| && Supersedes(enc, entries[j].message, j, m, i)
  {
    forall j | i < j < |entries| && Slot(enc, entries, i).Some?
      ensures Slot(enc, entries, j) == Slot(enc, entries, i) <==> Supersedes(enc, entries[j].message, j, entries[i].message, i)
    {
    }
  }

  /** The tool results among some entries: those that answer a call and have a text. */
  lemma {:induction false} ResultsCounted(a: seq<Entry>, b: seq<Entry>)
    ensures ResultCount(a + b) == ResultCount(a) + ResultCount(b)
    ensures |a| == 1 ==>
      var m := a[0].message;
      ResultCount(a) == if m.role == ToolResult && m.callId.Some? && !m.content.Absent? then 1 else 0
    decreases a
  {
    if a == [] {
      assert a + b == b;
    } else {
      assert (a + b)[1..] == a[1..] + b;
      ResultsCounted(a[1..], b);
    }
  }

  lemma {:induction false} SameCount(a: seq<Entry>, b: seq<Entry>)
    requires |a| == |b| && forall i :: 0 <= i < |a| ==> IsResult(a[i]) == IsResult(b[i])
    ensures ResultCount(a) == ResultCount(b)
    decreases a
  {
    if a != [] {
      SameCount(a[1..], b[1..]);
    }
  }

  /** Non-tool messages, the most recent tool results and protected instructions are never touched. */
  lemma FoldingSpares(enc: Encoder, entries: seq<Entry>, keep: int, i: nat)
    requires i < |entries|
    requires !IsResult(entries[i]) || ResultCount(entries[i..]) <= KeepRecent(keep) || Protected(enc, entries, i)
    ensures Folded(enc, entries, keep)[i] == entries[i]
  {
    assert entries[i..][1..] == entries[i + 1..];
  }

  /**
    The latest copy of a keyed instruction is protected, except from a later instruction
    without a key whose made-up dictionary key happens to be the same.
   */
  lemma LatestIsProtected(enc: Encoder, entries: seq<Entry>, i: nat, key: Key)
    requires i < |entries| && InstructionKey(entries[i]) == Some(Some(key))
    requires forall j :: i < j < |entries| ==> InstructionKey(entries[j]) != Some(Some(key))
    ensures Protected(enc, entries, i) <==>
            forall j :: i < j < |entries| && InstructionKey(entries[j]) == Some(None) ==> enc.own(j) != key
  {
    forall j | i < j < |entries|
      ensures Slot(enc, entries, j) == Slot(enc, entries, i) <==>
        InstructionKey(entries[j]) == Some(None) && enc.own(j) == key
    {
    }
    if Protected(enc, entries, i) {
      forall j | i < j < |entries| && InstructionKey(entries[j]) == Some(None) ensures enc.own(j) != key {
        assert Slot(enc, entries, j) != Slot(enc, entries, i);
      }
    }
  }

  /** Folding twice is folding once. */
  lemma FoldingIsIdempotent(enc: Encoder, entries: seq<Entry>, keep: int)
    ensures Folded(enc, Folded(enc, entries, keep), keep) == Folded(enc, entries, keep)
    ensures forall i :: 0 <= i < |entries| ==> !Foldable(enc, Folded(enc, entries, keep), keep, i)
  {
    var once := Folded(enc, entries, keep);
    forall i | 0 <= i < |entries| ensures !Foldable(enc, once, keep, i) {
      NothingLeftToFold(enc, entries, keep, i);
    }
    assert Folded(enc, once, keep) == once;
  }

  lemma NothingLeftToFold(enc: Encoder, entries: seq<Entry>, keep: int, i: nat)
    requires i < |entries|
    ensures !Foldable(enc, Folded(enc, entries, keep), keep, i)
  {
    var once := Folded(enc, entries, keep);
    forall j | 0 <= j < |entries|
      ensures IsResult(once[j]) == IsResult(entries[j]) && Slot(enc, once, j) == Slot(enc, entries, j)
    {
      FoldingKeepsStructure(enc, entries, keep, j);
    }
    SameCount(once[i + 1..], entries[i + 1..]);
    assert Protected(enc, once, i) <==> Protected(enc, entries, i);
  }

  lemma {:induction false} TokensFall(a: seq<Entry>, b: seq<Entry>)
    requires |a| == |b| && forall i :: 0 <= i < |a| ==> MessageTokens(a[i].message) <= MessageTokens(b[i].message)
    ensures Tokens(a) <= Tokens(b)
    decreases a
  {
    if a != [] {
      TokensFall(a[1..], b[1..]);
    }
  }

  /** Folding never costs tokens. */
  lemma FoldingSaves(enc: Encoder, entries: seq<Entry>, keep: int)
    ensures Tokens(Folded(enc, entries, keep)) <= Tokens(entries)
  {
    forall i | 0 <= i < |entries|
      ensures MessageTokens(Folded(enc, entries, keep)[i].message) <= MessageTokens(entries[i].message)
    {
      FoldingKeepsStructure(enc, entries, keep, i);
    }
    TokensFall(Folded(enc, entries, keep), entries);
  }

  ghost predicate Changed(enc: Encoder, entries: seq<Entry>, keep: int, i: nat, id: Id)
    requires i < |entries|
  {
    entries[i].id == Some(id) && Folded(enc, entries, keep)[i] != entries[i]
  }

  /** An id is reported as folded exactly when a record with that id was changed. */
  lemma {:induction false} FoldedIdsAreChanged(enc: Encoder, entries: seq<Entry>, keep: int, n: nat, id: Id)
    requires n <= |entries|
    ensures id in FoldedIds(enc, entries, keep, n) <==> exists i :: 0 <= i < n && Changed(enc, entries, keep, i, id)
    decreases n
  {
    hide Foldable;
    if n > 0 {
      FoldedIdsAreChanged(enc, entries, keep, n - 1, id);
      FoldingKeepsStructure(enc, entries, keep, n - 1);
      var last := Foldable(enc, entries, keep, n - 1) && entries[n - 1].id.Some?;
      assert id in FoldedIds(enc, entries, keep, n) <==>
             id in FoldedIds(enc, entries, keep, n - 1) || (last && entries[n - 1].id.value == id);
      assert Changed(enc, entries, keep, n - 1, id) <==> last && entries[n - 1].id.value == id;
      hide Changed, FoldedIds;
    }
  }

  // ---- The projection

  /** The indexes of the tool results among the first n entries. */
  function Results(entries: seq<Entry>, n: nat): (r: seq<nat>)
    requires n <= |entries|
    ensures forall k :: 0 <= k < |r| ==> r[k] < n && IsResult(entries[r[k]])
    ensures forall k, l :: 0 <= k < l < |r| ==> r[k] < r[l]
  {
    if n == 0 then [] else Results(entries, n - 1) + if IsResult(entries[n - 1]) then [n - 1] else []
  }

  lemma {:induction false} ResultsSplit(entries: seq<Entry>, n: nat)
    requires n <= |entries|
    ensures |Results(entries, n)| + ResultCount(entries[n..]) == |Results(entries, |entries|)|
    ensures Results(entries, n) <= Results(entries, |entries|)
    decreases |entries| - n
  {
    if n < |entries| {
      ResultsSplit(entries, n + 1);
      assert entries[n..][1..] == entries[n + 1..];
    }
  }

  lemma {:induction false} ResultAt(entries: seq<Entry>, n: nat, i: nat)
    requires i < n <= |entries| && IsResult(entries[i])
    ensures i in Results(entries, n)
    decreases n
  {
    if i < n - 1 {
      ResultAt(entries, n - 1, i);
    }
  }

  /** The candidates that are not among the last `keep` are those that enough newer results follow. */
  lemma OldResults(entries: seq<Entry>, k: nat)
    requires k < |Results(entries, |entries|)|
    ensures var r := Results(entries, |entries|);
      ResultCount(entries[r[k] + 1..]) == |r| - 1 - k
  {
    var r := Results(entries, |entries|);
    var i := r[k];
    ResultsSplit(entries, i + 1);
    var upTo := Results(entries, i + 1);
    assert upTo[|upTo| - 1] == i == r[|upTo| - 1];
    assert |upTo| - 1 == k;
  }

  lemma {:induction false} SkipUnfolded(enc: Encoder, entries: seq<Entry>, keep: int, m: nat, n: nat)
    requires m <= n <= |entries|
    requires forall i :: m <= i < n ==> !Foldable(enc, entries, keep, i)
    ensures FoldedIds(enc, entries, keep, n) == FoldedIds(enc, entries, keep, m)
    decreases n
  {
    if m < n {
      SkipUnfolded(enc, entries, keep, m, n - 1);
    }
  }

  /** The index of the latest entry with each slot. */
  method LatestInstructions(enc: Encoder, entries: seq<Entry>) returns (latest: map<Key, nat>)
    ensures forall i :: 0 <= i < |entries| ==> (i in latest.Values <==> Protected(enc, entries, i))
  {
    latest := map[];
    for n := 0 to |entries|
      invariant forall key :: key in latest ==>
        && latest[key] < n && Slot(enc, entries, latest[key]) == Some(key)
        && forall j :: latest[key] < j < n ==> Slot(enc, entries, j) != Some(key)
      invariant forall i :: 0 <= i < n && Slot(enc, entries, i).Some? ==> Slot(enc, entries, i).value in latest
    {
      var slot := Slot(enc, entries, n);
      if slot.Some? {
        latest := latest[slot.value := n];
      }
    }
    forall i | 0 <= i < |entries| ensures i in latest.Values <==> Protected(enc, entries, i) {
      if Protected(enc, entries, i) {
        var key := Slot(enc, entries, i).value;
        assert key in latest && latest[key] == i;
      }
      if i in latest.Values {
        var key :| key in latest && latest[key] == i;
      }
    }
  }

  /** The first n entries have been folded. */
  ghost predicate FoldedUpTo(enc: Encoder, entries: seq<Entry>, keep: int, copied: seq<Entry>, folded: seq<Id>,
                             n: nat) {
    && |copied| == |entries| && n <= |entries|
    && (forall i :: 0 <= i < |entries| ==>
          copied[i] == if i < n && Foldable(enc, entries, keep, i) then Replaced(enc, entries[i]) else entries[i])
    && folded == FoldedIds(enc, entries, keep, n)
  }

  /** Fold one old tool result in place, if nothing speaks against it. */
  method FoldOne(enc: Encoder, ghost entries: seq<Entry>, ghost keep: int, latest: map<Key, nat>, index: nat,
                 copied: seq<Entry>, folded: seq<Id>)
    returns (copied': seq<Entry>, folded': seq<Id>)
    requires index < |entries| && FoldedUpTo(enc, entries, keep, copied, folded, index)
    requires Old(entries, keep, index)
    requires index in latest.Values <==> Protected(enc, entries, index)
    ensures FoldedUpTo(enc, entries, keep, copied', folded', index + 1)
  {
    hide Protected, ResultCount;
    copied', folded' := copied, folded;
    var content := copied[index].message.content;
    if index in latest.Values || !content.Object? || content.body.folded {
      return;
    }
    if enc.size(ReplacementBody(content.body)) >= content.chars {
      return;
    }
    copied' := copied[index := Replaced(enc, copied[index])];
    if copied[index].id.Some? {
      folded' := folded + [copied[index].id.value];
    }
  }

  method FoldOld(enc: Encoder, entries: seq<Entry>, keep: int) returns (copied: seq<Entry>, folded: seq<Id>)
    ensures copied == Folded(enc, entries, keep)
    ensures folded == FoldedIds(enc, entries, keep, |entries|)
  {
    var candidates: seq<nat> := [];
    for n := 0 to |entries|
      invariant candidates == Results(entries, n)
    {
      if IsResult(entries[n]) {
        candidates := candidates + [n];
      }
    }
    var latest := LatestInstructions(enc, entries);
    var count := |candidates| - KeepRecent(keep);
    var old_ := if count < 0 then [] else candidates[..count];
    OnlyOldFoldable(entries, keep, old_);
    copied, folded := FoldAt(enc, entries, keep, latest, old_);
    assert copied == Folded(enc, entries, keep);
  }

  method FoldAt(enc: Encoder, entries: seq<Entry>, ghost keep: int, latest: map<Key, nat>, old_: seq<nat>)
    returns (copied: seq<Entry>, folded: seq<Id>)
    requires OldIndexes(entries, keep, old_)
    requires forall i :: 0 <= i < |entries| ==> (i in latest.Values <==> Protected(enc, entries, i))
    ensures FoldedUpTo(enc, entries, keep, copied, folded, |entries|)
  {
    hide Foldable, Protected, Old;
    copied, folded := entries, [];
    ghost var done := 0;
    for k := 0 to |old_|
      invariant done == if k == 0 then 0 else old_[k - 1] + 1
      invariant FoldedUpTo(enc, entries, keep, copied, folded, done)
    {
      BetweenOld(enc, entries, keep, old_, k, done);
      SkipUnfolded(enc, entries, keep, done, old_[k]);
      copied, folded := FoldOne(enc, entries, keep, latest, old_[k], copied, folded);
      done := old_[k] + 1;
    }
    BetweenOld(enc, entries, keep, old_, |old_|, done);
    SkipUnfolded(enc, entries, keep, done, |entries|);
  }

  /** The indexes of all tool results but the most recent ones, in order. */
  ghost predicate OldIndexes(entries: seq<Entry>, keep: int, old_: seq<nat>) {
    && (forall k, l :: 0 <= k < l < |old_| ==> old_[k] < old_[l])
    && (forall k :: 0 <= k < |old_| ==> old_[k] < |entries| && Old(entries, keep, old_[k]))
    && (forall i :: 0 <= i < |entries| && Old(entries, keep, i) ==> i in old_)
  }

  lemma OldByPosition(entries: seq<Entry>, keep: int, k: nat)
    requires k < |Results(entries, |entries|)|
    ensures
      var r := Results(entries, |entries|);
      Old(entries, keep, r[k]) <==> k < |r| - KeepRecent(keep)
  {
    OldResults(entries, k);
  }

  lemma OnlyOldFoldable(entries: seq<Entry>, keep: int, old_: seq<nat>)
    requires
      var r := Results(entries, |entries|);
      var count := |r| - KeepRecent(keep);
      old_ == if count < 0 then [] else r[..count]
    ensures OldIndexes(entries, keep, old_)
  {
    var r := Results(entries, |entries|);
    forall k | 0 <= k < |old_| ensures Old(entries, keep, old_[k]) {
      OldByPosition(entries, keep, k);
    }
    forall i | 0 <= i < |entries| && Old(entries, keep, i) ensures i in old_ {
      ResultAt(entries, |entries|, i);
      var k :| 0 <= k < |r| && r[k] == i;
      OldByPosition(entries, keep, k);
      assert old_[k] == i;
    }
  }

  lemma BetweenOld(enc: Encoder, entries: seq<Entry>, keep: int, old_: seq<nat>, k: nat, done: nat)
    requires OldIndexes(entries, keep, old_) && k <= |old_|
    requires done == if k == 0 then 0 else old_[k - 1] + 1
    ensures done <= |entries| && (k < |old_| ==> done <= old_[k])
    ensures forall i :: done <= i < (if k < |old_| then old_[k] else |entries|) ==> !Foldable(enc, entries, keep, i)
  {
    assert forall l :: 0 <= l < k ==> old_[l] <= old_[k - 1];
    assert forall l :: k <= l < |old_| ==> old_[k] <= old_[l];
    forall i | done <= i < (if k < |old_| then old_[k] else |entries|) ensures !Foldable(enc, entries, keep, i) {
      assert i !in old_;
    }
  }

  // ---- Announcing a crossing of the watermark

  /** What the two critical sections of a projection share between threads. */
  datatype Notice = Notice(announced: bool, conversation: Option<Source>)

  /**
    A projection enters with its conversation and whether it is above the watermark; above it, it leaves with
    a count.
   */
  datatype Section = Enter(conversation: Option<Source>, above: bool) | Leave(conversation: Option<Source>, folded: nat)

  function Next(n: Notice, s: Section): Notice {
    match s
    case Enter(c, above) =>
      Notice(above && c == n.conversation && n.announced, c)
    case Leave(c, folded) =>
      n.(announced := n.announced || Announces(n, s))
  }

  predicate Announces(n: Notice, s: Section) {
    s.Leave? && s.folded > 0 && s.conversation == n.conversation && !n.announced
  }

  function After(n: Notice, sections: seq<Section>): Notice {
    if sections == [] then n else Next(After(n, sections[..|sections| - 1]), sections[|sections| - 1])
  }

  /** The crossing is over: some request was back under the watermark, or belonged to another conversation. */
  predicate Resets(n: Notice, s: Section) {
    s.Enter? && (!s.above || s.conversation != n.conversation)
  }

  /** The conversation is that of the request that was let in last. */
  lemma {:induction false} ConversationIs(n: Notice, sections: seq<Section>, i: nat)
    requires i < |sections| && sections[i].Enter?
    requires forall k :: i < k < |sections| ==> sections[k].Leave?
    ensures After(n, sections).conversation == sections[i].conversation
    decreases |sections|
  {
    var m := |sections| - 1;
    if i < m {
      ConversationIs(n, sections[..m], i);
    }
  }

  /** The i-th section announced, and no crossing was over since, up to the j-th. */
  ghost predicate AnnouncedSince(sections: seq<Section>, i: nat, j: nat)
    requires i < j <= |sections|
  {
    var n := Notice(false, None);
    && Announces(After(n, sections[..i]), sections[i])
    && forall k :: i < k < j ==>
         !(sections[k].Enter?
           && (!sections[k].above || sections[k].conversation != After(n, sections[..k]).conversation))
  }

  /** The flag is up exactly when something was announced since the last crossing was over. */
  lemma {:induction false} FlagExactly(sections: seq<Section>, j: nat)
    requires j <= |sections|
    ensures After(Notice(false, None), sections[..j]).announced <==>
      exists i :: 0 <= i < j && AnnouncedSince(sections, i, j)
    decreases j
  {
    if j > 0 {
      var m := j - 1;
      FlagExactly(sections, m);
      SinceNext(sections, m);
      hide AnnouncedSince;
      AfterNext(Notice(false, None), sections, m);
      hide After;
      var flag := After(Notice(false, None), sections[..m]);
      if Announces(flag, sections[m]) {
        assert AnnouncedSince(sections, m, j);
      } else if flag.announced && !Resets(flag, sections[m]) {
        var i :| 0 <= i < m && AnnouncedSince(sections, i, m);
        assert AnnouncedSince(sections, i, j);
      } else {
        assert forall i :: 0 <= i < m && AnnouncedSince(sections, i, j) ==> AnnouncedSince(sections, i, m);
      }
    }
  }

  lemma SinceNext(sections: seq<Section>, m: nat)
    requires m < |sections|
    ensures
      var n := After(Notice(false, None), sections[..m]);
      && (AnnouncedSince(sections, m, m + 1) <==> Announces(n, sections[m]))
      && forall i :: 0 <= i < m ==>
           (AnnouncedSince(sections, i, m + 1) <==> AnnouncedSince(sections, i, m) && !Resets(n, sections[m]))
  {
    hide After, Announces;
  }

  /**
    A projection that has folded something announces it exactly when the conversation is still its own and
    nothing has been announced since the last crossing was over.
   */
  lemma AnnouncesExactly(sections: seq<Section>, j: nat)
    requires j < |sections|
    ensures
      var n := After(Notice(false, None), sections[..j]);
      Announces(n, sections[j]) <==>
        && sections[j].Leave? && sections[j].folded > 0 && sections[j].conversation == n.conversation
        && !exists i :: 0 <= i < j && AnnouncedSince(sections, i, j)
  {
    FlagExactly(sections, j);
    hide After, AnnouncedSince;
  }

  /** However requests interleave, two announcements have the end of a crossing between them. */
  lemma {:induction false} OncePerCrossing(n: Notice, sections: seq<Section>, i: nat, j: nat)
    requires i < j < |sections|
    requires Announces(After(n, sections[..i]), sections[i]) && Announces(After(n, sections[..j]), sections[j])
    ensures exists k :: i < k < j && Resets(After(n, sections[..k]), sections[k])
  {
    if !exists k :: i < k < j && Resets(After(n, sections[..k]), sections[k]) {
      StaysAnnounced(n, sections, i, j);
    }
  }

  lemma {:induction false} StaysAnnounced(n: Notice, sections: seq<Section>, i: nat, j: nat)
    requires i < j <= |sections|
    requires Announces(After(n, sections[..i]), sections[i])
    requires !exists k :: i < k < j && Resets(After(n, sections[..k]), sections[k])
    ensures After(n, sections[..j]).announced
    decreases j
  {
    AfterNext(n, sections, j - 1);
    hide After;
    if i < j - 1 {
      StaysAnnounced(n, sections, i, j - 1);
      assert !Resets(After(n, sections[..j - 1]), sections[j - 1]);
    }
  }

  lemma AfterNext(n: Notice, sections: seq<Section>, k: nat)
    requires k < |sections|
    ensures After(n, sections[..k + 1]) == Next(After(n, sections[..k]), sections[k])
  {
    assert sections[..k + 1][..k] == sections[..k];
  }

  // ---- The compactor

  /** Folding is off without a limit and up to the watermark. */
  predicate Above(watermark: real, estimated: nat, limit: Option<int>) {
    limit.Some? && estimated as real > limit.value as real * watermark
  }

  ghost function Projection(enc: Encoder, watermark: real, keep: int, entries: seq<Entry>, estimated: nat,
                            limit: Option<int>): seq<Entry> {
    if Above(watermark, estimated, limit) then Folded(enc, entries, keep) else entries
  }

  class Compactor {
    const enc: Encoder
    const watermark: real
    const keepRecent: int
    const hasCallback: bool
    var notice: Notice
    /** The counts passed to the callback so far. */
    var announcements: seq<nat>

    constructor (enc: Encoder, watermark: real, keepRecent: int, hasCallback: bool)
      ensures this.enc == enc && this.watermark == watermark && this.keepRecent == keepRecent
              && this.hasCallback == hasCallback
      ensures notice == Notice(false, None) && announcements == []
    {
      this.enc, this.watermark, this.keepRecent, this.hasCallback := enc, watermark, keepRecent, hasCallback;
      notice, announcements := Notice(false, None), [];
    }

    /** The first critical section. */
    method EnterSection(conversation: Option<Source>, above: bool)
      modifies `notice
      ensures notice == Next(old(notice), Enter(conversation, above))
    {
      if conversation != notice.conversation {
        notice := Notice(false, conversation);
      }
      if !above {
        notice := notice.(announced := false);
      }
    }

    /** The second critical section: the flag and the callback together. */
    method LeaveSection(conversation: Option<Source>, folded: nat)
      modifies `notice, `announcements
      ensures notice == if hasCallback then Next(old(notice), Leave(conversation, folded)) else old(notice)
      ensures announcements ==
              old(announcements) + if hasCallback && Announces(old(notice), Leave(conversation, folded)) then [folded] else []
    {
      if hasCallback && folded > 0 && conversation == notice.conversation && !notice.announced {
        notice := notice.(announced := true);
        announcements := announcements + [folded];
      }
    }

    method Project(entries: seq<Entry>, estimated: nat, limit: Option<int>, conversation: Option<Source>)
      returns (copied: seq<Entry>, folded: seq<Id>)
      modifies this
      ensures copied == Projection(enc, watermark, keepRecent, entries, estimated, limit)
      ensures
        if limit.Some? && estimated as real > limit.value as real * watermark
        then copied == Folded(enc, entries, keepRecent) && folded == FoldedIds(enc, entries, keepRecent, |entries|)
        else copied == entries && folded == []
      ensures !Above(watermark, estimated, limit) ==>
        announcements == old(announcements) && notice == Notice(false, conversation)
      ensures Above(watermark, estimated, limit) ==>
        var before := old(notice.announced && notice.conversation == conversation);
        var announces := hasCallback && folded != [] && !before;
        && announcements == old(announcements) + (if announces then [|folded|] else [])
        && notice == Notice(before || announces, conversation)
    {
      var above := Above(watermark, estimated, limit);
      EnterSection(conversation, above);
      if !above {
        return entries, [];
      }
      copied, folded := FoldOld(enc, entries, keepRecent);
      LeaveSection(conversation, |folded|);
    }
  }

  // ---- The request

  /** A durable record; replayed is false for recall and skill catalogs that older requests left in the transcript. */
  datatype Record = Record(id: Id, message: Message, source: Source, replayed: bool)

  datatype Request = Request(
    records: seq<Record>, toolTokens: nat,
    reminders: seq<Message>, optional: seq<Message>,
    systemPrompt: Option<nat>, limit: Option<int>, reserve: Option<nat>, transient: Source)

  function ReplayOf(x: Record): seq<Entry> {
    if x.replayed then [Entry(Some(x.id), x.message, x.source)] else []
  }

  function Kept(records: seq<Record>): seq<Entry>
    decreases records
  {
    if records == [] then [] else ReplayOf(records[0]) + Kept(records[1..])
  }

  function FirstSystem(entries: seq<Entry>): (i: nat)
    ensures i <= |entries|
    ensures i < |entries| ==> entries[i].message.role == System
  {
    if entries == [] || entries[0].message.role == System then 0 else 1 + FirstSystem(entries[1..])
  }

  /** The system prompt of this request replaces the recorded one, or comes first. */
  function WithSystemPrompt(entries: seq<Entry>, prompt: Option<nat>, transient: Source): seq<Entry> {
    if prompt.None? then entries
    else
      var i := FirstSystem(entries);
      if i < |entries| then
        var m := entries[i].message;
        entries[i := entries[i].(message := m.(content := Plain(prompt.value), parts := if m.parts.Some? then Some(0) else None))]
      else [Entry(None, Message(System, None, Plain(prompt.value), 0, None), transient)] + entries
  }

  /**
    The first system message of a request is the prompt it was given, as text only and otherwise as it was; without
    one the prompt goes first. No other entry is touched.
   */
  lemma SystemPromptComesFirst(entries: seq<Entry>, prompt: nat, transient: Source)
    ensures
      var r, i := WithSystemPrompt(entries, Some(prompt), transient), FirstSystem(entries);
      var k := if i < |entries| then i else 0;
      && k < |r| && r[k].message.role == System && r[k].message.content == Plain(prompt)
      && (forall j :: 0 <= j < k ==> r[j].message.role != System)
      && if i < |entries| then
           var m := entries[i].message;
           && |r| == |entries| && (forall j :: 0 <= j < |r| && j != i ==> r[j] == entries[j])
           && r[i].id == entries[i].id && r[i].source == entries[i].source
           && r[i].message.callId == m.callId && r[i].message.fixed == m.fixed
           && (m.parts.None? ==> r[i].message.parts == None) && (m.parts.Some? ==> r[i].message.parts == Some(0))
         else
           && r[1..] == entries && r[0].id == None && r[0].source == transient
           && r[0].message.callId == None && r[0].message.fixed == 0 && r[0].message.parts == None
  {
    FirstSystemIsFirst(entries);
  }

  lemma {:induction false} FirstSystemIsFirst(entries: seq<Entry>)
    ensures forall j :: 0 <= j < FirstSystem(entries) ==> entries[j].message.role != System
    decreases entries
  {
    if entries != [] {
      FirstSystemIsFirst(entries[1..]);
    }
  }

  function Transients(messages: seq<Message>, transient: Source): (r: seq<Entry>)
    ensures |r| == |messages| && forall i :: 0 <= i < |r| ==> r[i] == Entry(None, messages[i], transient)
  {
    seq(|messages|, i requires 0 <= i < |messages| => Entry(None, messages[i], transient))
  }

  function EntriesOf(q: Request): seq<Entry> {
    WithSystemPrompt(Kept(q.records), q.systemPrompt, q.transient) + Transients(q.reminders, q.transient) + Transients(q.optional, q.transient)
  }

  /** The history of a request is that of its records, one after the other. */
  lemma {:induction false} KeptInOrder(a: seq<Record>, b: seq<Record>)
    ensures Kept(a + b) == Kept(a) + Kept(b)
    decreases a
  {
    if a == [] {
      assert a + b == b;
    } else {
      assert (a + b)[1..] == a[1..] + b;
      KeptInOrder(a[1..], b);
      hide ReplayOf;
      assert Kept(a + b) == ReplayOf(a[0]) + (Kept(a[1..]) + Kept(b));
    }
  }

  /** A record is replayed as it is, or left out. */
  lemma KeptIsReplayed(x: Record)
    ensures Kept([x]) == if x.replayed then [Entry(Some(x.id), x.message, x.source)] else []
  {
    assert Kept([x]) == ReplayOf(x) + Kept([]);
  }

  /**
    A request is the replayed records with the system prompt, then the reminders, then the optional
    ones, each in the order given.
   */
  lemma RequestShape(q: Request)
    ensures
      var e, first := EntriesOf(q), WithSystemPrompt(Kept(q.records), q.systemPrompt, q.transient);
      var n, m := |first|, |first| + |q.reminders|;
      && |e| == m + |q.optional| && e[..n] == first
      && (forall i :: 0 <= i < |q.reminders| ==> e[n + i] == Entry(None, q.reminders[i], q.transient))
      && (forall i :: 0 <= i < |q.optional| ==> e[m + i] == Entry(None, q.optional[i], q.transient))
    ensures q.systemPrompt == None ==> WithSystemPrompt(Kept(q.records), q.systemPrompt, q.transient) == Kept(q.records)
  {
  }

  /** The room for the answer is what was asked for, else the larger of 256 and an eighth of the limit. */
  lemma ReserveIs(q: Request)
    ensures q.reserve.Some? ==> Reserve(q) == q.reserve.value
    ensures q.reserve.None? && q.limit.None? ==> Reserve(q) == 0
    ensures q.reserve.None? && q.limit.Some? ==>
      && Reserve(q) >= 256 && 8 * Reserve(q) > q.limit.value - 8
      && (Reserve(q) == 256 || 8 * Reserve(q) <= q.limit.value)
  {
  }

  function Reserve(q: Request): nat {
    if q.reserve.Some? then q.reserve.value
    else if q.limit.None? || q.limit.value / 8 < 256 then (if q.limit.None? then 0 else 256)
    else q.limit.value / 8
  }

  function Estimated(q: Request): nat {
    Tokens(EntriesOf(q)) + q.toolTokens + Reserve(q)
  }

  ghost function Total(enc: Encoder, watermark: real, keep: int, q: Request): nat {
    Tokens(Projection(enc, watermark, keep, EntriesOf(q), Estimated(q), q.limit)) + q.toolTokens + Reserve(q)
  }

  ghost predicate OverBudget(enc: Encoder, watermark: real, keep: int, q: Request) {
    q.limit.Some? && Total(enc, watermark, keep, q) > q.limit.value
  }

  function WithoutOptional(q: Request): Request {
    q.(optional := [])
  }

  /** The request that is finally sent: optional reminders go when there is no room. */
  ghost function Final(enc: Encoder, watermark: real, keep: int, q: Request): Request {
    if OverBudget(enc, watermark, keep, q) && q.optional != [] then WithoutOptional(q) else q
  }

  datatype View = View(entries: seq<Entry>, estimated: nat, folded: seq<Id>, over: bool, omitted: bool)

  class Builder {
    const compactor: Compactor

    constructor (compactor: Compactor)
      ensures this.compactor == compactor
    {
      this.compactor := compactor;
    }

    /** The ids of the records that are folded in the request. */
    ghost function FoldedHere(compactor: Compactor, q: Request): seq<Id> {
      if Above(compactor.watermark, Estimated(q), q.limit)
      then FoldedIds(compactor.enc, EntriesOf(q), compactor.keepRecent, |EntriesOf(q)|) else []
    }

    method Assemble(q: Request, omitted: bool, conversation: Option<Source>) returns (view: View)
      modifies compactor
      ensures view.entries ==
        Projection(compactor.enc, compactor.watermark, compactor.keepRecent, EntriesOf(q), Estimated(q), q.limit)
      ensures view.estimated == Total(compactor.enc, compactor.watermark, compactor.keepRecent, q)
      ensures view.over <==> OverBudget(compactor.enc, compactor.watermark, compactor.keepRecent, q)
      ensures view.omitted == omitted
      ensures view.folded == FoldedHere(compactor, q)
    {
      hide Folded, FoldedIds, Tokens, EntriesOf, Reserve;
      var projected, folded := compactor.Project(EntriesOf(q), Estimated(q), q.limit, conversation);
      var total := Tokens(projected) + q.toolTokens + Reserve(q);
      return View(projected, total, folded, q.limit.Some? && total > q.limit.value, omitted);
    }

    method Build(q: Request, conversation: Option<Source>) returns (view: View)
      modifies compactor
      ensures
        var final := if view.omitted then q.(optional := []) else q;
        var entries, enc, keep := EntriesOf(final), compactor.enc, compactor.keepRecent;
        var before := Tokens(entries) + final.toolTokens + Reserve(final);
        && final == Final(enc, compactor.watermark, keep, q)
        && (if final.limit.Some? && before as real > final.limit.value as real * compactor.watermark
            then view.entries == Folded(enc, entries, keep) && view.folded == FoldedIds(enc, entries, keep, |entries|)
            else view.entries == entries && view.folded == [])
        && view.estimated == Tokens(view.entries) + final.toolTokens + Reserve(final)
        && (view.over <==> final.limit.Some? && view.estimated > final.limit.value)
      ensures view.omitted <==>
        && q.optional != [] && q.limit.Some?
        && Total(compactor.enc, compactor.watermark, compactor.keepRecent, q) > q.limit.value
    {
      hide Folded, FoldedIds, Tokens, EntriesOf, Reserve;
      view := Assemble(q, false, conversation);
      if view.over && q.optional != [] {
        view := Assemble(WithoutOptional(q), true, conversation);
      }
    }
  }

  // ---- Dropping the optional reminders

  predicate NoTools(messages: seq<Message>) {
    forall i :: 0 <= i < |messages| ==> messages[i].role != ToolResult
  }

  lemma {:induction false} CountAppend(a: seq<Entry>, b: seq<Entry>)
    requires forall i :: 0 <= i < |b| ==> !IsResult(b[i])
    ensures ResultCount(a + b) == ResultCount(a)
    decreases |a| + |b|
  {
    if a != [] {
      assert (a + b)[1..] == a[1..] + b;
      CountAppend(a[1..], b);
    } else {
      assert a + b == b;
      if b != [] {
        CountAppend([], b[1..]);
        assert [] + b[1..] == b[1..];
      }
    }
  }

  /**
    Entries without tool results at the end do not change what is folded before them, and are not folded
    themselves.
   */
  lemma FoldedAppend(enc: Encoder, a: seq<Entry>, b: seq<Entry>, keep: int)
    requires forall i :: 0 <= i < |b| ==> b[i].message.role != ToolResult
    ensures Folded(enc, a + b, keep) == Folded(enc, a, keep) + b
  {
    forall i | 0 <= i < |a| ensures Foldable(enc, a + b, keep, i) <==> Foldable(enc, a, keep, i) {
      assert (a + b)[i + 1..] == a[i + 1..] + b;
      CountAppend(a[i + 1..], b);
      ProtectedAppend(enc, a, b, i);
    }
    assert Folded(enc, a + b, keep) == Folded(enc, a, keep) + b;
  }

  lemma ProtectedAppend(enc: Encoder, a: seq<Entry>, b: seq<Entry>, i: nat)
    requires i < |a| && forall j :: 0 <= j < |b| ==> b[j].message.role != ToolResult
    ensures Protected(enc, a + b, i) <==> Protected(enc, a, i)
  {
    assert forall j :: 0 <= j < |a| ==> Slot(enc, a + b, j) == Slot(enc, a, j);
    assert forall j :: |a| <= j < |a + b| ==> Slot(enc, a + b, j).None?;
    if Protected(enc, a + b, i) {
      forall j | i < j < |a| ensures Slot(enc, a, j) != Slot(enc, a, i) {
        assert Slot(enc, a + b, j) != Slot(enc, a + b, i);
      }
    }
  }

  /** The entries with the optional reminders are those without them, and the reminders behind. */
  lemma OptionalComesLast(q: Request)
    ensures EntriesOf(q) == EntriesOf(WithoutOptional(q)) + Transients(q.optional, q.transient)
    ensures Estimated(q) == Estimated(WithoutOptional(q)) + Tokens(Transients(q.optional, q.transient))
  {
    TokensAre(EntriesOf(WithoutOptional(q)), Transients(q.optional, q.transient));
  }

  /** Optional reminders only ever make a request longer. */
  lemma OptionalCosts(enc: Encoder, watermark: real, keep: int, q: Request)
    requires NoTools(q.optional) && watermark <= 1.0
    ensures OverBudget(enc, watermark, keep, WithoutOptional(q)) ==> OverBudget(enc, watermark, keep, q)
  {
    var p := WithoutOptional(q);
    var a, b := EntriesOf(p), Transients(q.optional, q.transient);
    OptionalComesLast(q);
    FoldedAppend(enc, a, b, keep);
    TokensAre(a, b);
    TokensAre(Folded(enc, a, keep), b);
    FoldingSaves(enc, a, keep);
    if OverBudget(enc, watermark, keep, p) {
      FoldingOff(watermark, q.limit.value, Tokens(a), Tokens(Folded(enc, a, keep)), Tokens(b), q.toolTokens + Reserve(q));
      hide Folded, EntriesOf, Tokens, Transients, Reserve;
    }
  }

  /** Folded entries take `folded` tokens instead of `full`; `more` is added to both. */
  lemma FoldingOff(watermark: real, limit: int, full: nat, folded: nat, more: nat, rest: nat)
    requires watermark <= 1.0 && folded <= full
    requires (if Above(watermark, full + rest, Some(limit)) then folded else full) + rest > limit
    ensures (if Above(watermark, full + more + rest, Some(limit)) then folded else full) + more + rest > limit
  {
    if limit >= 0 {
      Scaled(limit as real, watermark);
    }
  }

  lemma Scaled(x: real, w: real)
    requires x >= 0.0 && w <= 1.0
    ensures x * w <= x
  {
  }

  /**
    With a watermark of at most 1 the request sent is over budget exactly when it would be
    without its optional reminders: dropping them never does harm, even where it switches
    folding off, and they are dropped only when they have to be.
   */
  lemma DroppingIsHarmless(enc: Encoder, watermark: real, keep: int, q: Request)
    requires NoTools(q.optional) && watermark <= 1.0
    ensures OverBudget(enc, watermark, keep, Final(enc, watermark, keep, q)) <==>
      OverBudget(enc, watermark, keep, WithoutOptional(q))
  {
    OptionalCosts(enc, watermark, keep, q);
    if q.optional == [] {
      assert q == WithoutOptional(q);
    }
  }

  /**
    With any watermark above 1 there is a request that fits as it is but would not fit without its optional
    reminder.
   */
  lemma WatermarkAboveOneBreaksIt(enc: Encoder, watermark: real, value: Value, id: Id, call: CallId, source: Source)
    returns (q: Request)
    requires watermark > 1.0
    ensures NoTools(q.optional)
    ensures !OverBudget(enc, watermark, 0, Final(enc, watermark, 0, q))
            && OverBudget(enc, watermark, 0, WithoutOptional(q))
  {
    var body := Body(value, value, Full(value), false, None, 0);
    var small := enc.size(ReplacementBody(body)) / CHARS_PER_TOKEN;
    var limit: nat := LargeLimit(watermark, small + 1);
    var full := (limit as real * watermark).Floor;
    var message := Message(ToolResult, Some(call), Object(body, CHARS_PER_TOKEN * full), 0, None);
    var reminder := Message(User, None, Plain(CHARS_PER_TOKEN), 0, None);
    var a, b := Entry(Some(id), message, source), Entry(None, reminder, source);
    q := Request([Record(id, message, source, true)], 0, [], [reminder], None, Some(limit), Some(0), source);
    TwoEntries(q, a, b);
    FoldsFirst(enc, a, b);
    TokensOfTwo(a, b);
    TokensOfTwo(Replaced(enc, a), b);
    assert MessageTokens(Replaced(enc, a).message) == small && MessageTokens(message) == full;
    assert MessageTokens(reminder) == 1;
    hide Tokens, EntriesOf, Folded, MessageTokens, Replaced;
    assert !Above(watermark, full, Some(limit)) && Above(watermark, full + 1, Some(limit));
    assert Total(enc, watermark, 0, q) == small + 1;
    assert Total(enc, watermark, 0, WithoutOptional(q)) == full;
  }

  /** A request of one tool result and one optional reminder. */
  lemma TwoEntries(q: Request, a: Entry, b: Entry)
    requires a.id.Some? && b.id.None? && q.records == [Record(a.id.value, a.message, a.source, true)]
    requires q.reminders == [] && q.optional == [b.message] && q.systemPrompt == None && q.transient == b.source
    ensures EntriesOf(WithoutOptional(q)) == [a] && EntriesOf(q) == [a, b]
  {
    assert Kept(q.records) == ReplayOf(q.records[0]) + Kept([]) && Kept([]) == [];
  }

  lemma FoldsFirst(enc: Encoder, a: Entry, b: Entry)
    requires Foldable(enc, [a, b], 0, 0) && !IsResult(b)
    ensures Folded(enc, [a, b], 0) == [Replaced(enc, a), b]
  {
  }

  lemma TokensOfTwo(a: Entry, b: Entry)
    ensures Tokens([a]) == MessageTokens(a.message)
    ensures Tokens([a, b]) == MessageTokens(a.message) + MessageTokens(b.message)
  {
    assert [a, b][1..] == [b] && [b][1..] == [] && [a][1..] == [] && Tokens([]) == 0;
  }

  lemma LargeLimit(watermark: real, least: nat) returns (limit: nat)
    requires watermark > 1.0
    ensures limit >= least && (limit as real * watermark).Floor >= limit + 1
  {
    assert 1.0 / (watermark - 1.0) > 0.0;
    var steps: nat := (1.0 / (watermark - 1.0)).Floor + 1;
    limit := least + steps;
    assert steps as real * (watermark - 1.0) >= 1.0 by {
      assert 1.0 / (watermark - 1.0) * (watermark - 1.0) == 1.0;
      Larger(1.0 / (watermark - 1.0), steps as real, watermark - 1.0);
    }
    Larger(steps as real, limit as real, watermark - 1.0);
    Distributes(limit as real, watermark);
    assert limit as real * watermark >= (limit + 1) as real;
  }

  lemma Distributes(x: real, w: real)
    ensures x * w == x + x * (w - 1.0)
  {
  }

  lemma Larger(x: real, y: real, w: real)
    requires x <= y && w >= 0.0
    ensures x * w <= y * w
  {
  }
}
