// Recall text inside a token budget (src/wright/application/memory: projection.py,
// episode_ops.py, semantic_ops.py).
//
// A token is four characters, rounded down. Facts that are rendered elsewhere come in as
// strings; what an episode policy accepts is any function.
module Recall {
  import opened Base

  const CHARS_PER_TOKEN := 4
  const TRUNCATED := "…(truncated)"
  const HEAD_TAIL := " …(truncated, head and tail kept) "

  function Tokens(text: string): nat {
    |text| / CHARS_PER_TOKEN
  }

  predicate Fits(text: string, limit: int) {
    Tokens(text) <= limit
  }

  // ---- The longest prefix that fits

  /** The text cut after m characters, marked as cut. */
  function Cut(head: string, text: string, m: nat): string
    requires m <= |text|
  {
    head + text[..m] + TRUNCATED
  }

  /** What fitting means: the whole text if it fits, else the longest marked prefix that does, else nothing. */
  ghost predicate LongestFit(head: string, text: string, limit: int, r: Option<string>) {
    if Fits(head + text, limit) then r == Some(head + text)
    else if !Fits(Cut(head, text, 0), limit) then r == None
    else exists m :: 0 <= m <= |text| && r == Some(Cut(head, text, m)) && Fits(Cut(head, text, m), limit)
                     && forall k :: m < k <= |text| ==> !Fits(Cut(head, text, k), limit)
  }

  /** The longest of the first m cuts that fits. */
  ghost function BestCut(head: string, text: string, limit: int, m: nat): (r: Option<string>)
    requires m <= |text|
    ensures r.Some? ==> Fits(r.value, limit) && head <= r.value
  {
    if Fits(Cut(head, text, m), limit) then Some(Cut(head, text, m))
    else if m == 0 then None
    else BestCut(head, text, limit, m - 1)
  }

  ghost function Best(head: string, text: string, limit: int): (r: Option<string>)
    ensures r.Some? ==> Fits(r.value, limit) && head <= r.value
  {
    if Fits(head + text, limit) then Some(head + text) else BestCut(head, text, limit, |text|)
  }

  /** Each longer cut costs at least as much, so the best one is the longest that fits. */
  lemma BestIsLongest(head: string, text: string, limit: int)
    ensures LongestFit(head, text, limit, Best(head, text, limit))
  {
    if !Fits(head + text, limit) {
      var m := |text|;
      while m > 0 && !Fits(Cut(head, text, m), limit)
        invariant 0 <= m <= |text| && BestCut(head, text, limit, m) == BestCut(head, text, limit, |text|)
        invariant forall k :: m < k <= |text| ==> !Fits(Cut(head, text, k), limit)
      {
        m := m - 1;
      }
      LongerCostsMore(head, text, 0, m);
    }
  }

  lemma {:induction false} BestCutIs(head: string, text: string, limit: int, found: int, m: nat)
    requires m <= |text| && -1 <= found <= m
    requires found >= 0 ==> Fits(Cut(head, text, found), limit)
    requires forall k :: found < k <= m ==> !Fits(Cut(head, text, k), limit)
    ensures BestCut(head, text, limit, m) == if found >= 0 then Some(Cut(head, text, found)) else None
    decreases m
  {
    if found < m && m > 0 {
      BestCutIs(head, text, limit, found, m - 1);
    }
  }

  /** Binary search for the best cut. */
  method FitPrefix(head: string, text: string, limit: int) returns (best: Option<string>)
    ensures best == Best(head, text, limit) && LongestFit(head, text, limit, best)
  {
    BestIsLongest(head, text, limit);
    hide LongestFit;
    if Fits(head + text, limit) {
      return Some(head + text);
    }
    best := None;
    ghost var found := -1;
    var low, high := 0, |text|;
    while low <= high
      invariant 0 <= low && high <= |text| && low <= high + 1 && found == low - 1
      invariant found >= 0 ==> best == Some(Cut(head, text, found)) && Fits(Cut(head, text, found), limit)
      invariant found < 0 ==> best == None
      invariant forall k :: high < k <= |text| ==> !Fits(Cut(head, text, k), limit)
      decreases high - low
    {
      var mid := (low + high) / 2;
      var candidate := Cut(head, text, mid);
      if Fits(candidate, limit) {
        best, found := Some(candidate), mid;
        low := mid + 1;
      } else {
        forall k | mid <= k <= |text| ensures !Fits(Cut(head, text, k), limit) {
          LongerCostsMore(head, text, mid, k);
        }
        high := mid - 1;
      }
    }
    BestCutIs(head, text, limit, found, |text|);
  }

  lemma LongerCostsMore(head: string, text: string, m: nat, k: nat)
    requires m <= k <= |text|
    ensures Tokens(Cut(head, text, m)) <= Tokens(Cut(head, text, k))
  {
  }

  // ---- One episode

  /** The facts of an episode, each on one line. */
  datatype Episode = Episode(id: string, project: string, time: string, status: string, termination: string,
                             goal: string, objects: string, errors: string, outcome: string, verification: string, tools: string)

  /** A text that is already on one line, cut to a number of characters. */
  function OneLine(flat: string, limit: nat): (r: string)
    ensures |r| <= limit + |TRUNCATED|
  {
    if |flat| <= limit then flat else flat[..limit] + TRUNCATED
  }

  /** What is always kept: id, project, time and status. */
  function Header(e: Episode): string {
    var lines := ["### " + e.id, "project: " + (if e.project == "" then "unknown" else e.project), "time: " + e.time, "status: " + e.status];
    Join(if e.termination == "" then lines else lines + ["termination: " + e.termination], "\n") + "\ngoal: "
  }

  function Labeled(name: string, text: string): seq<string> {
    if text == "" then [] else [name + ": " + text]
  }

  function Below(base: string, lines: seq<string>): string {
    if lines == [] then base else base + "\n" + Join(lines, "\n")
  }

  function Goal(e: Episode): string {
    OneLine(e.goal, 2_000)
  }

  function Outcome(e: Episode): string {
    OneLine(e.outcome, 4_000)
  }

  /** Everything there is to say about an episode. */
  function FullText(e: Episode): string {
    Below(Header(e) + Goal(e), Labeled("outcome", Outcome(e)) + Labeled("verification", e.verification) + Labeled("tools", e.tools))
  }

  /**
    The whole text, line by line: what identifies the episode, its goal, and of outcome, verification and trace
    those that say something; goal and outcome are cut at 2,000 and 4,000 characters, and marked where they are.
   */
  lemma FullTextIs(e: Episode)
    ensures
      var goal := if |e.goal| <= 2_000 then e.goal else e.goal[..2_000] + "…(truncated)";
      var outcome := if |e.outcome| <= 4_000 then e.outcome else e.outcome[..4_000] + "…(truncated)";
      var lines := ("### " + e.id) + "\n" + ("project: " + if e.project == "" then "unknown" else e.project)
                   + "\n" + ("time: " + e.time) + "\n" + ("status: " + e.status);
      && Header(e) == (if e.termination == "" then lines else lines + "\n" + ("termination: " + e.termination)) + "\ngoal: "
      && FullText(e) ==
         Header(e) + goal + TextLine("outcome", outcome) + TextLine("verification", e.verification)
         + TextLine("tools", e.tools)
  {
    HeaderIs(e);
    LinesBelow(Header(e) + Goal(e), Outcome(e), e.verification, e.tools);
    hide Header, Below, Labeled;
  }

  /** A line of its own for a text that says something. */
  function TextLine(name: string, text: string): string {
    if text == "" then "" else "\n" + (name + ": " + text)
  }

  /** The text without the trace: a mark in its place, if there is one. */
  lemma ShortTextIs(e: Episode, base: string)
    ensures
      Below(base, Labeled("outcome", Outcome(e)) + Labeled("verification", e.verification) + ToolsMark(e)) ==
      base + TextLine("outcome", Outcome(e)) + TextLine("verification", e.verification)
      + if e.tools == "" then "" else "\n" + ("tools" + ": " + "…(truncated)")
  {
    var mark := if e.tools == "" then "" else "…(truncated)";
    LinesBelow(base, Outcome(e), e.verification, mark);
    assert "tools: " == "tools" + ": ";
    assert ToolsMark(e) == Labeled("tools", mark);
    hide Below, Labeled;
  }

  lemma HeaderIs(e: Episode)
    ensures
      var lines := ("### " + e.id) + "\n" + ("project: " + if e.project == "" then "unknown" else e.project)
                   + "\n" + ("time: " + e.time) + "\n" + ("status: " + e.status);
      Header(e) == (if e.termination == "" then lines else lines + "\n" + ("termination: " + e.termination)) + "\ngoal: "
  {
    hide Join;
    var lines := ["### " + e.id, "project: " + (if e.project == "" then "unknown" else e.project), "time: " + e.time,
                  "status: " + e.status];
    JoinFour(lines, "termination: " + e.termination);
  }

  lemma JoinFour(lines: seq<string>, last: string)
    requires |lines| == 4
    ensures Join(lines, "\n") == lines[0] + "\n" + lines[1] + "\n" + lines[2] + "\n" + lines[3]
    ensures Join(lines + [last], "\n") == lines[0] + "\n" + lines[1] + "\n" + lines[2] + "\n" + lines[3] + "\n" + last
  {
    JoinSnoc(lines, last);
    assert lines == [lines[0]] + [lines[1]] + [lines[2]] + [lines[3]];
    JoinSnoc([lines[0]], lines[1]);
    JoinSnoc([lines[0]] + [lines[1]], lines[2]);
    JoinSnoc([lines[0]] + [lines[1]] + [lines[2]], lines[3]);
  }

  lemma {:induction false} JoinSnoc(lines: seq<string>, last: string)
    ensures Join(lines + [last], "\n") == if lines == [] then last else Join(lines, "\n") + "\n" + last
    decreases lines
  {
    if |lines| > 1 {
      assert (lines + [last])[1..] == lines[1..] + [last];
      JoinSnoc(lines[1..], last);
    }
  }

  lemma LinesBelow(base: string, outcome: string, verification: string, tools: string)
    ensures
      Below(base, Labeled("outcome", outcome) + Labeled("verification", verification) + Labeled("tools", tools)) ==
      base + TextLine("outcome", outcome) + TextLine("verification", verification) + TextLine("tools", tools)
  {
    hide TextLine, Below, Labeled;
    OneBelow(base, [], "outcome", outcome);
    OneBelow(base, Labeled("outcome", outcome), "verification", verification);
    OneBelow(base, Labeled("outcome", outcome) + Labeled("verification", verification), "tools", tools);
    assert [] + Labeled("outcome", outcome) == Labeled("outcome", outcome);
  }

  lemma OneBelow(base: string, lines: seq<string>, name: string, text: string)
    ensures Below(base, []) == base
    ensures Below(base, lines + Labeled(name, text)) ==
      Below(base, lines) + TextLine(name, text)
  {
    if text == "" {
      assert lines + [] == lines;
    } else {
      JoinSnoc(lines, name + ": " + text);
      hide Join;
    }
  }

  function ToolsMark(e: Episode): seq<string> {
    if e.tools == "" then [] else ["tools: " + TRUNCATED]
  }

  /** The lines of an episode below its goal: all, or without the trace, or only what can be cut to fit. */
  ghost function Shrunk(e: Episode, base: string, limit: int): string {
    var outcome, verification := Labeled("outcome", Outcome(e)), Labeled("verification", e.verification);
    var full := Below(base, outcome + verification + Labeled("tools", e.tools));
    var short := Below(base, outcome + verification + ToolsMark(e));
    var cut := BestLabeled(base, verification, "outcome", Outcome(e), limit);
    var less := BestLabeled(base, [], "verification", e.verification, limit);
    if Fits(full, limit) then full
    else if Fits(short, limit) then short
    else if outcome != [] && cut.Some? then cut.value
    else if verification != [] && less.Some? then less.value
    else base
  }

  ghost function BestLabeled(base: string, others: seq<string>, name: string, text: string,
                             limit: int): (r: Option<string>)
    ensures r.Some? ==> Fits(r.value, limit) && base <= r.value
  {
    var r := Best(Below(base, others) + "\n" + name + ": ", text, limit);
    BelowIsLonger(base, others);
    r
  }

  /** What an episode is rendered as: header and goal first, as much of the goal as fits. */
  ghost function Rendering(e: Episode, limit: int): Option<string> {
    if limit <= 0 then None
    else
      match Best(Header(e), Goal(e), limit)
      case None => None
      case Some(base) => Some(Shrunk(e, base, limit))
  }

  /**
    A rendering fits and begins with header and longest goal; there is none exactly when not even a cut goal
    fits; and nothing is cut when everything fits.
   */
  lemma RenderingFits(e: Episode, limit: int)
    ensures
      var r := Rendering(e, limit);
      && (r.Some? ==> Fits(r.value, limit) && Header(e) <= r.value)
      && (r.Some? ==> exists base :: LongestFit(Header(e), Goal(e), limit, Some(base)) && base <= r.value)
      && (r.None? <==> limit <= 0 || !(Fits(Header(e) + Goal(e), limit) || Fits(Cut(Header(e), Goal(e), 0), limit)))
      && (limit > 0 && Fits(FullText(e), limit) ==> r == Some(FullText(e)))
  {
    if limit > 0 {
      BestIsLongest(Header(e), Goal(e), limit);
      var base := Best(Header(e), Goal(e), limit);
      var lines := Labeled("outcome", Outcome(e)) + Labeled("verification", e.verification) + Labeled("tools", e.tools);
      BelowIsLonger(Header(e) + Goal(e), lines);
      if base.Some? {
        ShrunkFits(e, base.value, limit);
      }
      hide Header, Shrunk, Below, Labeled, Join;
    }
  }

  lemma ShrunkFits(e: Episode, base: string, limit: int)
    requires Fits(base, limit)
    ensures Fits(Shrunk(e, base, limit), limit) && base <= Shrunk(e, base, limit)
    ensures base == Header(e) + Goal(e) && Fits(FullText(e), limit) ==> Shrunk(e, base, limit) == FullText(e)
  {
    var lines := Labeled("outcome", Outcome(e)) + Labeled("verification", e.verification);
    BelowIsLonger(base, lines + Labeled("tools", e.tools));
    BelowIsLonger(base, lines + ToolsMark(e));
    hide Header, Goal, Below, Labeled, Join, ToolsMark;
  }

  /** What a labelled text is fitted behind. */
  function Head(base: string, others: seq<string>, name: string): string {
    Below(base, others) + "\n" + name + ": "
  }

  /** Some part of the text fits behind the head, be it none of it with the mark of a cut. */
  ghost predicate SomeFits(head: string, text: string, limit: int) {
    Fits(head + text, limit) || Fits(Cut(head, text, 0), limit)
  }

  /**
    What gives way, below a goal that fits: the trace exactly when the text with it does not fit,
    being marked in its place; the outcome is cut exactly when even that text does not fit, to the
    longest cut that does, together with the verification; if no cut of it fits, the longest cut of
    the verification alone is kept; and if none of that fits either, nothing below the goal.
   */
  lemma WhatGivesWay(e: Episode, limit: int, base: string)
    requires limit > 0 && Best(Header(e), Goal(e), limit) == Some(base)
    ensures
      var outcome, verification := Labeled("outcome", Outcome(e)), Labeled("verification", e.verification);
      var full := Below(base, outcome + verification + Labeled("tools", e.tools));
      var short := Below(base, outcome + verification + ToolsMark(e));
      var text := Rendering(e, limit).value;
      var cuttable := e.outcome != "" && SomeFits(Head(base, verification, "outcome"), Outcome(e), limit);
      var verified := e.verification != "" && SomeFits(Head(base, [], "verification"), e.verification, limit);
      && Rendering(e, limit).Some?
      && (text == full <==> Fits(full, limit))
      && (!Fits(full, limit) ==> (text == short <==> Fits(short, limit)))
      && (!Fits(full, limit) && !Fits(short, limit) ==>
            && (cuttable ==> LongestFit(Head(base, verification, "outcome"), Outcome(e), limit, Some(text)))
            && (!cuttable && verified ==> LongestFit(Head(base, [], "verification"), e.verification, limit, Some(text)))
            && (!cuttable && !verified ==> text == base))
  {
    ShrunkFits(e, base, limit);
    LabeledFits(base, Labeled("verification", e.verification), "outcome", Outcome(e), limit);
    LabeledFits(base, [], "verification", e.verification, limit);
    OutcomeSaysSomething(e);
    hide Header, Goal, Outcome, Below, ToolsMark, Best, BestLabeled, Fits, SomeFits, LongestFit, Head;
  }

  lemma OutcomeSaysSomething(e: Episode)
    ensures Outcome(e) == "" <==> e.outcome == ""
  {
  }

  lemma LabeledFits(base: string, others: seq<string>, name: string, text: string, limit: int)
    ensures BestLabeled(base, others, name, text, limit).Some? <==> SomeFits(Head(base, others, name), text, limit)
    ensures LongestFit(Head(base, others, name), text, limit, BestLabeled(base, others, name, text, limit))
  {
    BestIsLongest(Head(base, others, name), text, limit);
    hide Below, Best;
  }

  /** Keep the header and the goal; shrink the trace first, then the outcome. */
  method RenderForBudget(e: Episode, limit: int) returns (r: Option<string>)
    ensures r == Rendering(e, limit)
  {
    hide Best, BestCut, LongestFit, Join, Tokens, Header;
    if limit <= 0 {
      return None;
    }
    var base := FitPrefix(Header(e), Goal(e), limit);
    if base.None? {
      return None;
    }
    var outcome, verification := Labeled("outcome", Outcome(e)), Labeled("verification", e.verification);
    var full := Below(base.value, outcome + verification + Labeled("tools", e.tools));
    if Fits(full, limit) {
      return Some(full);
    }
    var short := Below(base.value, outcome + verification + ToolsMark(e));
    if Fits(short, limit) {
      return Some(short);
    }
    if outcome != [] {
      r := FitPrefix(Below(base.value, verification) + "\n" + "outcome" + ": ", Outcome(e), limit);
      if r.Some? {
        return;
      }
    }
    if verification != [] {
      r := FitPrefix(Below(base.value, []) + "\n" + "verification" + ": ", e.verification, limit);
      if r.Some? {
        return;
      }
    }
    return base;
  }

  lemma BelowIsLonger(base: string, lines: seq<string>)
    ensures base <= Below(base, lines) && Tokens(base) <= Tokens(Below(base, lines))
  {
  }

  // ---- Several episodes

  /** What an episode policy decides: the limit for one item, and whether its cost is accepted. */
  datatype Policy = Policy(budget: int, itemLimit: int -> int, accepts: (int, int) -> bool)

  /** The text around recalled episodes. */
  datatype Frame = Frame(prefix: string, suffix: string)

  function Body(frame: Frame, texts: seq<string>): string {
    frame.prefix + Join(texts, "\n\n") + frame.suffix
  }

  function Ids(episodes: seq<Episode>): (ids: seq<string>)
    ensures |ids| == |episodes| && forall i :: 0 <= i < |ids| ==> ids[i] == episodes[i].id
  {
    seq(|episodes|, i requires 0 <= i < |episodes| => episodes[i].id)
  }

  /** The first pass: what renders and is accepted is taken, one after the other, and its cost put aside. */
  datatype Pass = Pass(chunks: seq<string>, rendered: seq<string>, skipped: seq<string>, remaining: int)

  ghost function PassTo(episodes: seq<Episode>, policy: Policy, available: int, k: nat): Pass
    requires k <= |episodes|
  {
    if k == 0 then Pass([], [], [], available) else Next(PassTo(episodes, policy, available, k - 1), episodes[k - 1], policy)
  }

  ghost function Next(p: Pass, e: Episode, policy: Policy): Pass {
    var text := Rendering(e, policy.itemLimit(p.remaining));
    if text.Some? && policy.accepts(Tokens(text.value), p.remaining)
    then Pass(p.chunks + [text.value], p.rendered + [e.id], p.skipped, p.remaining - Tokens(text.value))
    else Pass(p.chunks, p.rendered, p.skipped + [e.id], p.remaining)
  }

  /** What some texts cost together. */
  function Cost(texts: seq<string>): nat {
    if texts == [] then 0 else Cost(texts[..|texts| - 1]) + |texts[|texts| - 1]| / 4
  }

  /**
    Each step of the pass, with what is left of the tokens after the texts so far: an episode is taken exactly
    when it renders within the limit for that and the policy accepts the cost, and is passed over otherwise.
   */
  lemma {:induction false} PassStep(episodes: seq<Episode>, policy: Policy, available: int, k: nat)
    requires k < |episodes|
    ensures
      var p, q := PassTo(episodes, policy, available, k), PassTo(episodes, policy, available, k + 1);
      var left := available - Cost(p.chunks);
      var text := Rendering(episodes[k], policy.itemLimit(left));
      if text.Some? && policy.accepts(|text.value| / 4, left)
      then q.chunks == p.chunks + [text.value] && q.rendered == p.rendered + [episodes[k].id] && q.skipped == p.skipped
      else q.chunks == p.chunks && q.rendered == p.rendered && q.skipped == p.skipped + [episodes[k].id]
  {
    hide Rendering;
    LeftIs(episodes, policy, available, k);
  }

  lemma {:induction false} LeftIs(episodes: seq<Episode>, policy: Policy, available: int, k: nat)
    requires k <= |episodes|
    ensures PassTo(episodes, policy, available, k).remaining == available - Cost(PassTo(episodes, policy, available, k).chunks)
  {
    hide Rendering;
    if k > 0 {
      LeftIs(episodes, policy, available, k - 1);
    }
  }

  /** The texts are those of the episodes at the picked places, in order. */
  ghost predicate InOrder(episodes: seq<Episode>, picked: seq<nat>, texts: seq<string>, ids: seq<string>) {
    && |picked| == |texts| == |ids|
    && (forall i :: 0 <= i < |picked| ==> picked[i] < |episodes| && ids[i] == episodes[picked[i]].id && Header(episodes[picked[i]]) <= texts[i])
    && (forall i, j :: 0 <= i < j < |picked| ==> picked[i] < picked[j])
  }

  /** So far every episode has been taken, at its place, or passed over. */
  ghost predicate AllKept(episodes: seq<Episode>, picked: seq<nat>, p: Pass, k: nat)
    requires k <= |episodes|
  {
    && InOrder(episodes, picked, p.chunks, p.rendered) && (forall i :: 0 <= i < |picked| ==> picked[i] < k)
    && multiset(p.skipped) + multiset(p.rendered) == multiset(Ids(episodes)[..k])
  }

  /** The first pass loses no episode and keeps their order. */
  lemma {:induction false} PassKeepsAll(episodes: seq<Episode>, policy: Policy, available: int, k: nat)
    returns (picked: seq<nat>)
    requires k <= |episodes|
    ensures AllKept(episodes, picked, PassTo(episodes, policy, available, k), k)
  {
    hide AllKept, Next;
    if k == 0 {
      picked := [];
      NothingTaken(episodes, available);
    } else {
      picked := PassKeepsAll(episodes, policy, available, k - 1);
      picked := NextKeepsAll(episodes, picked, PassTo(episodes, policy, available, k - 1), k - 1, policy);
    }
  }

  lemma NothingTaken(episodes: seq<Episode>, available: int)
    ensures AllKept(episodes, [], Pass([], [], [], available), 0)
  {
  }

  lemma NextKeepsAll(episodes: seq<Episode>, before: seq<nat>, p: Pass, k: nat, policy: Policy)
    returns (picked: seq<nat>)
    requires k < |episodes| && AllKept(episodes, before, p, k)
    ensures AllKept(episodes, picked, Next(p, episodes[k], policy), k + 1)
  {
    var text := Rendering(episodes[k], policy.itemLimit(p.remaining));
    RenderingFits(episodes[k], policy.itemLimit(p.remaining));
    hide Rendering, Header, Fits, LongestFit, InOrder;
    AccountOne(p.skipped, p.rendered, Ids(episodes), k);
    picked := before;
    if text.Some? && policy.accepts(Tokens(text.value), p.remaining) {
      AddLast(episodes, before, p.chunks, p.rendered, k, text.value);
      picked := before + [k];
    }
  }

  lemma AccountOne(skipped: seq<string>, rendered: seq<string>, ids: seq<string>, k: nat)
    requires k < |ids| && multiset(skipped) + multiset(rendered) == multiset(ids[..k])
    ensures multiset(skipped + [ids[k]]) + multiset(rendered) == multiset(ids[..k + 1])
    ensures multiset(skipped) + multiset(rendered + [ids[k]]) == multiset(ids[..k + 1])
  {
    assert ids[..k + 1] == ids[..k] + [ids[k]];
  }

  lemma AddLast(episodes: seq<Episode>, picked: seq<nat>, texts: seq<string>, ids: seq<string>, k: nat, text: string)
    requires InOrder(episodes, picked, texts, ids) && k < |episodes| && Header(episodes[k]) <= text
    requires forall i :: 0 <= i < |picked| ==> picked[i] < k
    ensures InOrder(episodes, picked + [k], texts + [text], ids + [episodes[k].id])
  {
    hide Header;
  }

  lemma DropLast(episodes: seq<Episode>, picked: seq<nat>, texts: seq<string>, ids: seq<string>)
    requires InOrder(episodes, picked, texts, ids) && texts != []
    ensures InOrder(episodes, picked[..|picked| - 1], texts[..|texts| - 1], ids[..|ids| - 1])
  {
    hide Header;
  }

  lemma MoveLast(a: seq<string>, b: seq<string>)
    requires b != []
    ensures multiset(a + [b[|b| - 1]]) + multiset(b[..|b| - 1]) == multiset(a) + multiset(b)
  {
    assert b == b[..|b| - 1] + [b[|b| - 1]];
  }

  method Collect(episodes: seq<Episode>, policy: Policy, available: int)
    returns (chunks: seq<string>, rendered: seq<string>, skipped: seq<string>)
    ensures
      var p := PassTo(episodes, policy, available, |episodes|);
      chunks == p.chunks && rendered == p.rendered && skipped == p.skipped
  {
    hide Rendering;
    chunks, rendered, skipped := [], [], [];
    var remaining := available;
    for k := 0 to |episodes|
      invariant Pass(chunks, rendered, skipped, remaining) == PassTo(episodes, policy, available, k)
    {
      var text := RenderForBudget(episodes[k], policy.itemLimit(remaining));
      if text.None? || !policy.accepts(Tokens(text.value), remaining) {
        skipped := skipped + [episodes[k].id];
      } else {
        chunks, rendered := chunks + [text.value], rendered + [episodes[k].id];
        remaining := remaining - Tokens(text.value);
      }
    }
  }

  /** Of what the first pass took, the longest start whose text keeps to the budget is left. */
  ghost predicate Kept(frame: Frame, budget: int, chunks: seq<string>, n: nat) {
    && n <= |chunks| && (n > 0 ==> Tokens(Body(frame, chunks[..n])) <= budget)
    && forall m :: n < m <= |chunks| ==> Tokens(Body(frame, chunks[..m])) > budget
  }

  /**
    Rendered and skipped episodes are those that were asked for, each once; the text of the
    rendered ones costs what is reported, and never more than the budget, whatever the policy.
   */
  method RenderEpisodes(episodes: seq<Episode>, policy: Policy, frame: Frame)
    returns (body: string, total: nat, skipped: seq<string>, rendered: seq<string>, ghost picked: seq<nat>, ghost texts: seq<string>)
    ensures multiset(skipped) + multiset(rendered) == multiset(Ids(episodes))
    ensures InOrder(episodes, picked, texts, rendered)
    ensures body == if rendered == [] then "" else Body(frame, texts)
    ensures total == Tokens(body) && (policy.budget >= 0 ==> total <= policy.budget)
    ensures
      var overhead := Tokens(frame.prefix + frame.suffix);
      var pass := PassTo(episodes, policy, policy.budget - overhead, |episodes|);
      if policy.budget <= 0 || overhead > policy.budget then rendered == []
      else Kept(frame, policy.budget, pass.chunks, |rendered|) && texts == pass.chunks[..|rendered|] && rendered <= pass.rendered
  {
    hide PassTo, Join, Header, Kept, Body, InOrder, Ids;
    if policy.budget <= 0 || Tokens(frame.prefix + frame.suffix) > policy.budget {
      NothingRecalled(episodes);
      return "", 0, Ids(episodes), [], [], [];
    }
    body, total, skipped, rendered, picked, texts := RenderWithin(episodes, policy, frame, policy.budget - Tokens(frame.prefix + frame.suffix));
  }

  lemma NothingRecalled(episodes: seq<Episode>)
    ensures InOrder(episodes, [], [], []) && multiset(Ids(episodes)) + multiset([]) == multiset(Ids(episodes))
  {
  }

  method RenderWithin(episodes: seq<Episode>, policy: Policy, frame: Frame, available: int)
    returns (body: string, total: nat, skipped: seq<string>, rendered: seq<string>, ghost picked: seq<nat>, ghost texts: seq<string>)
    requires policy.budget > 0
    ensures multiset(skipped) + multiset(rendered) == multiset(Ids(episodes))
    ensures InOrder(episodes, picked, texts, rendered)
    ensures body == if rendered == [] then "" else Body(frame, texts)
    ensures total == Tokens(body) <= policy.budget
    ensures var pass := PassTo(episodes, policy, available, |episodes|);
      Kept(frame, policy.budget, pass.chunks, |rendered|) && texts == pass.chunks[..|rendered|] && rendered <= pass.rendered
  {
    hide PassTo, Join, Header, InOrder, Kept, Body, Ids, Tokens;
    var chunks, ids, passedOver := Collect(episodes, policy, available);
    ghost var places := PassIsComplete(episodes, policy, available);
    body, total, skipped, rendered, picked, texts := Trim(episodes, policy.budget, frame, chunks, ids, passedOver, places);
  }

  lemma PassIsComplete(episodes: seq<Episode>, policy: Policy, available: int) returns (picked: seq<nat>)
    ensures
      var p := PassTo(episodes, policy, available, |episodes|);
      && InOrder(episodes, picked, p.chunks, p.rendered) && |picked| == |p.chunks| == |p.rendered|
      && multiset(p.skipped) + multiset(p.rendered) == multiset(Ids(episodes))
  {
    hide PassTo, Header, Ids;
    picked := PassKeepsAll(episodes, policy, available, |episodes|);
    assert Ids(episodes)[..|episodes|] == Ids(episodes);
  }

  /** Drop the last ones until the text keeps to the budget. */
  method Trim(ghost episodes: seq<Episode>, budget: int, frame: Frame, all: seq<string>, ids: seq<string>,
              passedOver: seq<string>, ghost places: seq<nat>)
    returns (body: string, total: nat, skipped: seq<string>, rendered: seq<string>, ghost picked: seq<nat>, ghost texts: seq<string>)
    requires budget > 0 && |places| == |all| == |ids| && InOrder(episodes, places, all, ids)
    ensures multiset(skipped) + multiset(rendered) == multiset(passedOver) + multiset(ids)
    ensures InOrder(episodes, picked, texts, rendered)
    ensures body == if rendered == [] then "" else Body(frame, texts)
    ensures total == Tokens(body) <= budget
    ensures Kept(frame, budget, all, |rendered|) && texts == all[..|rendered|] && rendered <= ids
  {
    var chunks := all;
    skipped, rendered, picked, texts := passedOver, ids, places, all;
    body, total := Body(frame, chunks), Tokens(Body(frame, chunks));
    hide InOrder, Body;
    while chunks != [] && total > budget
      invariant texts == chunks == all[..|chunks|] && |rendered| == |chunks| <= |all| && rendered == ids[..|chunks|]
      invariant |picked| == |chunks| && InOrder(episodes, picked, chunks, rendered)
      invariant multiset(skipped) + multiset(rendered) == multiset(passedOver) + multiset(ids)
      invariant body == Body(frame, chunks) && total == Tokens(body)
      invariant forall m :: |chunks| < m <= |all| ==> Tokens(Body(frame, all[..m])) > budget
      decreases |chunks|
    {
      DropLast(episodes, picked, chunks, rendered);
      MoveLast(skipped, rendered);
      skipped := skipped + [rendered[|rendered| - 1]];
      chunks, rendered, picked := chunks[..|chunks| - 1], rendered[..|rendered| - 1], picked[..|picked| - 1];
      texts := chunks;
      body, total := Body(frame, chunks), Tokens(Body(frame, chunks));
    }
    if chunks == [] {
      body, total := "", 0;
    }
  }

  // ---- The selector manifest

  /** The start and the end of a text that is too long, with a mark between them. */
  function HeadTail(flat: string, budget: nat): (r: string)
    ensures |r| <= budget
    ensures |flat| <= budget ==> r == flat
  {
    if |flat| <= budget then flat
    else if budget <= |HEAD_TAIL| + 8 then flat[..budget]
    else
      var remain := budget - |HEAD_TAIL|;
      flat[..remain / 2] + HEAD_TAIL + flat[|flat| - (remain - remain / 2)..]
  }

  /** Of a text that is too long equal parts of both ends are kept, or its start if there is no room for both. */
  lemma HeadTailKeeps(flat: string, budget: nat) returns (head: nat, tail: nat)
    ensures |flat| > budget > 42 ==>
      && head + 34 + tail == budget && head <= tail <= head + 1 && tail <= |flat|
      && HeadTail(flat, budget) == flat[..head] + " …(truncated, head and tail kept) " + flat[|flat| - tail..]
    ensures |flat| > budget && budget <= 42 ==> HeadTail(flat, budget) == flat[..budget]
  {
    head := if budget > 42 then (budget - 34) / 2 else 0;
    tail := if budget > 42 then budget - 34 - head else 0;
  }

  function Field(name: string, text: string, room: nat): string {
    if name == "outcome" then HeadTail(OneLine(text, 4_000), room) else OneLine(text, room)
  }

  function TotalLength(parts: seq<string>): nat {
    if parts == [] then 0 else TotalLength(parts[..|parts| - 1]) + |parts[|parts| - 1]|
  }

  function Concat(parts: seq<string>): (r: string)
    ensures |r| == TotalLength(parts)
  {
    if parts == [] then "" else Concat(parts[..|parts| - 1]) + parts[|parts| - 1]
  }

  /** The fields of an episode that say something. */
  function Present(fields: seq<(string, string)>): seq<(string, string)> {
    if fields == [] then []
    else Present(fields[..|fields| - 1]) + if fields[|fields| - 1].1 == "" then [] else [fields[|fields| - 1]]
  }

  function Fields(e: Episode): seq<(string, string)> {
    [("goal", e.goal), ("objects", e.objects), ("errors", e.errors), ("verification", e.verification), ("outcome", e.outcome)]
  }

  /** One more field, cut to its share or to the room that is left; true when there is no room for any more. */
  function AddField(parts: seq<string>, field: (string, string), share: nat, budget: nat): (seq<string>, bool) {
    var mark := " | " + field.0 + "=";
    var rendered := Field(field.0, field.1, share);
    if rendered == "" then (parts, false)
    else if TotalLength(parts) + |mark + rendered| <= budget then (parts + [mark + rendered], false)
    else
      var room := budget - TotalLength(parts) - |mark|;
      if room < 8 then (parts, true) else (parts + [mark + Field(field.0, field.1, room)], false)
  }

  /** The parts of a line after the first k fields. */
  ghost function PartsTo(header: string, present: seq<(string, string)>, share: nat, budget: nat,
                         k: nat): (seq<string>, bool)
    requires k <= |present|
  {
    if k == 0 then ([header], false)
    else
      var (parts, full) := PartsTo(header, present, share, budget, k - 1);
      if full then (parts, true) else AddField(parts, present[k - 1], share, budget)
  }

  lemma {:induction false} FullStaysFull(header: string, present: seq<(string, string)>, share: nat, budget: nat,
                                         k: nat, n: nat)
    requires k <= n <= |present| && PartsTo(header, present, share, budget, k).1
    ensures PartsTo(header, present, share, budget, n) == PartsTo(header, present, share, budget, k)
    decreases n
  {
    hide AddField;
    if k < n {
      FullStaysFull(header, present, share, budget, k, n - 1);
    }
  }

  lemma PartsGrow(parts: seq<string>, field: (string, string), share: nat, budget: nat)
    ensures Concat(parts) <= Concat(AddField(parts, field, share, budget).0)
  {
    hide Field;
    var next := AddField(parts, field, share, budget).0;
    assert next == parts || (next != [] && next[..|next| - 1] == parts);
  }

  lemma {:induction false} HeaderStaysFirst(header: string, present: seq<(string, string)>, share: nat, budget: nat,
                                            k: nat)
    requires k <= |present|
    ensures header <= Concat(PartsTo(header, present, share, budget, k).0)
  {
    hide AddField, Concat;
    if k == 0 {
      ConcatOne(header);
    } else {
      HeaderStaysFirst(header, present, share, budget, k - 1);
      var parts := PartsTo(header, present, share, budget, k - 1).0;
      PartsGrow(parts, present[k - 1], share, budget);
      var longer := Concat(AddField(parts, present[k - 1], share, budget).0);
      assert header <= Concat(parts) <= longer;
    }
  }

  lemma ConcatOne(part: string)
    ensures Concat([part]) == part
  {
    assert [part][..0] == [];
  }

  function Prefix(text: string, n: nat): string {
    if |text| <= n then text else text[..n]
  }

  function LineHeader(e: Episode): string {
    "- " + e.id + " | " + e.status
  }

  function Share(budget: nat, header: string, fields: nat): nat
    requires fields > 0 && |header| <= budget
  {
    var share := (budget - |header|) / fields;
    if share < 24 then 24 else share
  }

  /** One line for the selector: the id and status, then the fields, each with its share of the room. */
  ghost function Summary(e: Episode, budget: nat): (r: string)
    ensures |r| <= budget
  {
    var header, present := LineHeader(e), Present(Fields(e));
    if budget <= |header| + 8 then Prefix(header, budget)
    else if present == [] then header
    else Prefix(Concat(PartsTo(header, present, Share(budget, header, |present|), budget, |present|).0), budget)
  }

  lemma SummaryStartsWithHeader(e: Episode, budget: nat)
    ensures if |LineHeader(e)| <= budget then LineHeader(e) <= Summary(e, budget) else Summary(e, budget) == LineHeader(e)[..budget]
    ensures |LineHeader(e)| <= budget && (budget <= |LineHeader(e)| + 8 || Present(Fields(e)) == []) ==>
      Summary(e, budget) == LineHeader(e)
  {
    var header, present := LineHeader(e), Present(Fields(e));
    if budget > |header| + 8 && present != [] {
      HeaderStaysFirst(header, present, Share(budget, header, |present|), budget, |present|);
    }
  }

  /** The fields of a line: of these five, in this order, those that say something. */
  lemma PresentIs(e: Episode)
    ensures LineHeader(e) == "- " + e.id + " | " + e.status
    ensures Present(Fields(e)) ==
      (if e.goal == "" then [] else [("goal", e.goal)]) + (if e.objects == "" then [] else [("objects", e.objects)])
      + (if e.errors == "" then [] else [("errors", e.errors)])
      + (if e.verification == "" then [] else [("verification", e.verification)])
      + (if e.outcome == "" then [] else [("outcome", e.outcome)])
  {
    var f := Fields(e);
    forall k | 0 < k <= 5 ensures f[..k][..k - 1] == f[..k - 1] && f[..k][k - 1] == f[k - 1] {
    }
    assert f[..5] == f && f[..0] == [];
    assert Present(f[..1]) == if e.goal == "" then [] else [("goal", e.goal)];
    assert Present(f[..2]) == Present(f[..1]) + if e.objects == "" then [] else [("objects", e.objects)];
    assert Present(f[..3]) == Present(f[..2]) + if e.errors == "" then [] else [("errors", e.errors)];
    assert Present(f[..4]) == Present(f[..3]) + if e.verification == "" then [] else [("verification", e.verification)];
  }

  /**
    How a field is cut to a room: an outcome keeps both ends, any other text its start with a mark. Its share
    is an equal part of what the header leaves, and 24 at least.
   */
  lemma FieldIs(name: string, text: string, room: nat, budget: nat, header: string, fields: nat)
    requires fields > 0 && |header| <= budget
    ensures name != "outcome" ==> Field(name, text, room) == if |text| <= room then text else text[..room] + "…(truncated)"
    ensures name == "outcome" && |text| <= 4_000 ==> Field(name, text, room) == HeadTail(text, room)
    ensures name == "outcome" && |text| > 4_000 ==> Field(name, text, room) == HeadTail(text[..4_000] + "…(truncated)", room)
    ensures
      var share := Share(budget, header, fields);
      && share >= 24 && fields * (share + 1) > budget - |header| && (share == 24 || fields * share <= budget - |header|)
  {
    hide HeadTail;
    var share := (budget - |header|) / fields;
    assert fields * share <= budget - |header| < fields * share + fields;
    if share < 24 {
      assert fields * share <= fields * 24;
      assert fields * (24 + 1) >= fields * (share + 1);
    }
  }

  /** What a field adds to the line: its share, or what fits into the room that is left. */
  function Piece(parts: seq<string>, field: (string, string), share: nat, budget: nat): string {
    var mark := " | " + field.0 + "=";
    var whole := mark + Field(field.0, field.1, share);
    var room := budget - TotalLength(parts) - |mark|;
    if TotalLength(parts) + |whole| <= budget || room < 0 then whole else mark + Field(field.0, field.1, room)
  }

  /** A field does not fit, and there are fewer than 8 characters of room for a part of it. */
  ghost predicate NoRoom(parts: seq<string>, field: (string, string), share: nat, budget: nat) {
    && TotalLength(parts) + |" | " + field.0 + "=" + Field(field.0, field.1, share)| > budget
    && budget - TotalLength(parts) - |" | " + field.0 + "="| < 8
  }

  /** The line shows, of the first s fields, exactly those whose share is not empty, in order. */
  ghost predicate Shows(header: string, present: seq<(string, string)>, share: nat, budget: nat, parts: seq<string>,
                        shown: seq<nat>, s: nat)
  {
    && s <= |present| && |parts| == |shown| + 1 && parts[0] == header
    && (forall i :: 0 <= i < |shown| ==>
          shown[i] < s && parts[i + 1] == Piece(parts[..i + 1], present[shown[i]], share, budget))
    && (forall i, j :: 0 <= i < j < |shown| ==> shown[i] < shown[j])
    && (forall j :: 0 <= j < s ==> (j in shown <==> Field(present[j].0, present[j].1, share) != ""))
  }

  lemma ShowMore(header: string, present: seq<(string, string)>, share: nat, budget: nat, parts: seq<string>,
                 shown: seq<nat>, s: nat, piece: string)
    requires Shows(header, present, share, budget, parts, shown, s) && s < |present|
    requires Field(present[s].0, present[s].1, share) != "" && piece == Piece(parts, present[s], share, budget)
    ensures Shows(header, present, share, budget, parts + [piece], shown + [s], s + 1)
  {
    hide Field, Piece;
    var parts', shown' := parts + [piece], shown + [s];
    forall i | 0 <= i < |shown'|
      ensures parts'[i + 1] == Piece(parts'[..i + 1], present[shown'[i]], share, budget)
    {
      assert parts'[..i + 1] == parts[..i + 1];
      assert parts[..|parts|] == parts;
    }
    forall j | 0 <= j < s + 1 ensures j in shown' <==> Field(present[j].0, present[j].1, share) != "" {
      assert j in shown' <==> j in shown || j == s;
    }
  }

  /** The line after the first k fields: it shows all of them, or has ended before at the s-th. */
  ghost predicate ShowsUpTo(header: string, present: seq<(string, string)>, share: nat, budget: nat, k: nat,
                            parts: seq<string>, full: bool, shown: seq<nat>, s: nat)
  {
    && Shows(header, present, share, budget, parts, shown, s)
    && if full then
         s < k && s < |present| && Field(present[s].0, present[s].1, share) != ""
         && NoRoom(parts, present[s], share, budget)
       else s == k
  }

  lemma NothingShown(header: string, present: seq<(string, string)>, share: nat, budget: nat)
    ensures var r := PartsTo(header, present, share, budget, 0);
      ShowsUpTo(header, present, share, budget, 0, r.0, r.1, [], 0)
  {
  }

  lemma {:induction false} PartsShow(header: string, present: seq<(string, string)>, share: nat, budget: nat, k: nat)
    returns (shown: seq<nat>, s: nat)
    requires k <= |present|
    ensures var r := PartsTo(header, present, share, budget, k);
      ShowsUpTo(header, present, share, budget, k, r.0, r.1, shown, s)
  {
    hide *;
    if k == 0 {
      NothingShown(header, present, share, budget);
      return [], 0;
    }
    shown, s := PartsShow(header, present, share, budget, k - 1);
    PartsUnfold(header, present, share, budget, k);
    var before := PartsTo(header, present, share, budget, k - 1);
    shown, s := NextField(header, present, share, budget, k - 1, before.0, before.1, shown, s);
  }

  lemma NextField(header: string, present: seq<(string, string)>, share: nat, budget: nat, k: nat,
                  parts: seq<string>, full: bool, shown: seq<nat>, s: nat) returns (shown': seq<nat>, s': nat)
    requires k < |present| && ShowsUpTo(header, present, share, budget, k, parts, full, shown, s)
    ensures var r := if full then (parts, true) else AddField(parts, present[k], share, budget);
      ShowsUpTo(header, present, share, budget, k + 1, r.0, r.1, shown', s')
  {
    hide Shows, NoRoom, Field, AddField, Piece;
    shown', s' := shown, s;
    var field := present[k];
    if full {
    } else if AddField(parts, field, share, budget).1 {
      AddsNothing(parts, field, share, budget);
    } else if Field(field.0, field.1, share) == "" {
      AddsNothing(parts, field, share, budget);
      ShowNoMore(header, present, share, budget, parts, shown, s);
      s' := s + 1;
    } else {
      AddsPiece(parts, field, share, budget);
      ShowMore(header, present, share, budget, parts, shown, s, Piece(parts, field, share, budget));
      shown', s' := shown + [s], s + 1;
    }
  }

  lemma PartsUnfold(header: string, present: seq<(string, string)>, share: nat, budget: nat, k: nat)
    requires 0 < k <= |present|
    ensures var before := PartsTo(header, present, share, budget, k - 1);
      PartsTo(header, present, share, budget, k)
      == if before.1 then (before.0, true) else AddField(before.0, present[k - 1], share, budget)
  {
  }

  lemma ShowNoMore(header: string, present: seq<(string, string)>, share: nat, budget: nat, parts: seq<string>,
                   shown: seq<nat>, s: nat)
    requires Shows(header, present, share, budget, parts, shown, s) && s < |present|
    requires Field(present[s].0, present[s].1, share) == ""
    ensures Shows(header, present, share, budget, parts, shown, s + 1)
  {
    hide Field, Piece;
  }

  lemma AddsPiece(parts: seq<string>, field: (string, string), share: nat, budget: nat)
    requires Field(field.0, field.1, share) != "" && !AddField(parts, field, share, budget).1
    ensures AddField(parts, field, share, budget).0 == parts + [Piece(parts, field, share, budget)]
  {
  }

  lemma AddsNothing(parts: seq<string>, field: (string, string), share: nat, budget: nat)
    requires Field(field.0, field.1, share) == "" || AddField(parts, field, share, budget).1
    ensures AddField(parts, field, share, budget).0 == parts
    ensures AddField(parts, field, share, budget).1 ==>
      Field(field.0, field.1, share) != "" && NoRoom(parts, field, share, budget)
  {
  }

  /** The line shows the fields that say something, in order, up to the first without room, which ends it. */
  lemma SummaryShowsFields(e: Episode, budget: nat) returns (parts: seq<string>, shown: seq<nat>, s: nat)
    requires budget > |LineHeader(e)| + 8 && Present(Fields(e)) != []
    ensures Summary(e, budget) == Prefix(Concat(parts), budget)
    ensures var present := Present(Fields(e));
      var share := Share(budget, LineHeader(e), |present|);
      && Shows(LineHeader(e), present, share, budget, parts, shown, s)
      && (s < |present| ==>
            Field(present[s].0, present[s].1, share) != "" && NoRoom(parts, present[s], share, budget))
  {
    hide Shows, Field, NoRoom;
    var header, present := LineHeader(e), Present(Fields(e));
    var share := Share(budget, header, |present|);
    shown, s := PartsShow(header, present, share, budget, |present|);
    parts := PartsTo(header, present, share, budget, |present|).0;
  }

  method CandidateSummary(e: Episode, budget: nat) returns (r: string)
    ensures r == Summary(e, budget)
  {
    hide HeadTail, OneLine, Field, Concat, TotalLength, AddField;
    var header := LineHeader(e);
    if budget <= |header| + 8 {
      return Prefix(header, budget);
    }
    var fields, present := Fields(e), [];
    for k := 0 to |fields|
      invariant present == Present(fields[..k])
    {
      assert fields[..k + 1][..k] == fields[..k];
      if fields[k].1 != "" {
        present := present + [fields[k]];
      }
    }
    assert fields[..|fields|] == fields;
    if present == [] {
      return header;
    }
    var share := Share(budget, header, |present|);
    var parts := [header];
    for k := 0 to |present|
      invariant (parts, false) == PartsTo(header, present, share, budget, k)
    {
      var (next, full) := AddField(parts, present[k], share, budget);
      parts := next;
      if full {
        FullStaysFull(header, present, share, budget, k + 1, |present|);
        break;
      }
    }
    return Prefix(Concat(parts), budget);
  }

  function Smaller(a: int, b: int): int {
    if a < b then a else b
  }

  function Larger(a: int, b: int): int {
    if a < b then b else a
  }

  /** The lines of the first k episodes, each as long as the tokens that are left allow. */
  ghost function LinesTo(episodes: seq<Episode>, budget: int, k: nat): (lines: seq<string>)
    requires k <= |episodes|
    ensures |lines| == k
  {
    if k == 0 then []
    else
      var lines := LinesTo(episodes, budget, k - 1);
      lines + [Summary(episodes[k - 1], Smaller(700, Larger(40, (budget - Tokens(Join(lines, "\n"))) * 4)))]
  }

  /** The room for a line: four characters for each token that is left, but 40 at least and 700 at most. */
  lemma LineIs(episodes: seq<Episode>, budget: int, k: nat)
    requires k < |episodes|
    ensures
      var lines := LinesTo(episodes, budget, k);
      var left := 4 * (budget - |Join(lines, "\n")| / 4);
      LinesTo(episodes, budget, k + 1)
      == lines + [Summary(episodes[k], if left < 40 then 40 else if left > 700 then 700 else left)]
  {
    hide Summary;
  }

  /** The first episode is always taken; another one while more than two tokens are left and its line fits. */
  ghost predicate Takes(episodes: seq<Episode>, budget: int, k: nat)
    requires k < |episodes|
  {
    k == 0 || (budget - Tokens(Join(LinesTo(episodes, budget, k), "\n")) > 2 && Tokens(Join(LinesTo(episodes, budget, k + 1), "\n")) <= budget)
  }

  /**
    The longest start of the ranked list whose lines fit: the first line is always taken, so a
    budget under ten tokens may be exceeded by it alone.
   */
  method BudgetEpisodeManifest(episodes: seq<Episode>, budget: int)
    returns (manifest: string, dropped: seq<string>, ghost n: nat)
    ensures n <= |episodes| && (n > 0 <==> budget > 0 && episodes != [])
    ensures manifest == Join(LinesTo(episodes, budget, n), "\n")
    ensures n > 0 ==>
      (forall k :: 0 <= k < n ==> Takes(episodes, budget, k)) && (n < |episodes| ==> !Takes(episodes, budget, n))
    ensures Tokens(manifest) <= Larger(budget, 10) && (n > 1 ==> Tokens(manifest) <= budget)
    ensures budget <= 0 ==> manifest == "" && dropped == Ids(episodes)
    ensures forall id :: id in dropped <==>
      exists k :: 0 <= k < |episodes| && episodes[k].id == id && episodes[k] !in episodes[..n]
  {
    if budget <= 0 || episodes == [] {
      return "", Ids(episodes), 0;
    }
    hide LinesTo, Takes, Join;
    var lines, k := TakeLines(episodes, budget);
    ManifestCost(episodes, budget, k);
    dropped := Dropped(episodes, k);
    return Join(lines, "\n"), dropped, k;
  }

  method TakeLines(episodes: seq<Episode>, budget: int) returns (lines: seq<string>, k: nat)
    requires budget > 0 && episodes != []
    ensures 0 < k <= |episodes| && lines == LinesTo(episodes, budget, k)
    ensures (forall j :: 0 <= j < k ==> Takes(episodes, budget, j)) && (k < |episodes| ==> !Takes(episodes, budget, k))
  {
    hide Summary, Join, Tokens;
    lines, k := [], 0;
    while k < |episodes|
      invariant k <= |episodes| && lines == LinesTo(episodes, budget, k)
      invariant forall j :: 0 <= j < k ==> Takes(episodes, budget, j)
    {
      var remaining := budget - Tokens(Join(lines, "\n"));
      if remaining <= 2 && lines != [] {
        break;
      }
      var line := CandidateSummary(episodes[k], Smaller(700, Larger(40, remaining * 4)));
      assert lines + [line] == LinesTo(episodes, budget, k + 1);
      if Tokens(Join(lines + [line], "\n")) > budget && lines != [] {
        break;
      }
      lines, k := lines + [line], k + 1;
    }
  }

  lemma ManifestCost(episodes: seq<Episode>, budget: int, n: nat)
    requires budget > 0 && 0 < n <= |episodes| && Takes(episodes, budget, n - 1)
    ensures Tokens(Join(LinesTo(episodes, budget, n), "\n")) <= Larger(budget, 10)
    ensures n > 1 ==> Tokens(Join(LinesTo(episodes, budget, n), "\n")) <= budget
  {
    hide Summary;
    if n == 1 {
      var line := Summary(episodes[0], Smaller(700, Larger(40, budget * 4)));
      assert LinesTo(episodes, budget, 0) == [] && Join([], "\n") == "";
      assert LinesTo(episodes, budget, 1) == [line];
      assert Join([line], "\n") == line;
    }
  }

  method Dropped(episodes: seq<Episode>, n: nat) returns (dropped: seq<string>)
    requires n <= |episodes|
    ensures forall id :: id in dropped <==>
      exists k :: 0 <= k < |episodes| && episodes[k].id == id && episodes[k] !in episodes[..n]
  {
    dropped := [];
    for i := 0 to |episodes|
      invariant forall id :: id in dropped <==>
        exists j :: 0 <= j < i && episodes[j].id == id && episodes[j] !in episodes[..n]
    {
      if episodes[i] !in episodes[..n] {
        dropped := dropped + [episodes[i].id];
      }
    }
  }

  // ---- Semantic memories

  const INDEX_HEADER := "## In-scope index"
  const INDEX_NOTICE := "The index was truncated to the budget. Continue with search_memory scope=applicable."
  const BLOCKS_HEADER := "## Semantic memories relevant to this task"

  /** A memory's text, and the hint that stands in for it. */
  datatype Memory = Memory(block: string, hint: string)

  function IndexText(prefix: string, index: seq<string>, suffix: string): string {
    prefix + "\n" + Join(index, "\n") + suffix
  }

  function BlocksText(prefix: string, index: seq<string>, blocks: seq<string>, suffix: string): string {
    prefix + "\n" + Join(index, "\n") + "\n" + Join(blocks, "\n") + suffix
  }

  /** The first k lines are the longest start of which every start fits. */
  ghost predicate LongestIndex(prefix: string, lines: seq<string>, suffix: string, budget: int, k: nat) {
    && k <= |lines|
    && (forall j :: 0 < j <= k ==> Fits(IndexText(prefix, [INDEX_HEADER] + lines[..j], suffix), budget))
    && (k < |lines| ==> !Fits(IndexText(prefix, [INDEX_HEADER] + lines[..k + 1], suffix), budget))
  }

  /** The first k lines, and the notice if some are left out and it fits. */
  ghost function KeptIndex(prefix: string, lines: seq<string>, suffix: string, budget: int, k: nat): seq<string>
    requires k <= |lines|
  {
    var kept := [INDEX_HEADER] + lines[..k];
    if k < |lines| && Fits(IndexText(prefix, kept + [INDEX_NOTICE], suffix), budget)
    then kept + [INDEX_NOTICE] else kept
  }

  method KeepIndex(prefix: string, lines: seq<string>, suffix: string, budget: int)
    returns (index: seq<string>, ghost k: nat)
    ensures LongestIndex(prefix, lines, suffix, budget, k) && index == KeptIndex(prefix, lines, suffix, budget, k)
    ensures |index| > 1 ==> Fits(IndexText(prefix, index, suffix), budget)
  {
    hide IndexText, Fits;
    index, k := [INDEX_HEADER], 0;
    var omitted := false;
    for i := 0 to |lines|
      invariant k == i && index == [INDEX_HEADER] + lines[..i]
      invariant forall j :: 0 < j <= i ==> Fits(IndexText(prefix, [INDEX_HEADER] + lines[..j], suffix), budget)
    {
      assert [INDEX_HEADER] + lines[..i + 1] == index + [lines[i]];
      if !Fits(IndexText(prefix, index + [lines[i]], suffix), budget) {
        omitted := true;
        break;
      }
      index, k := index + [lines[i]], i + 1;
    }
    if omitted && Fits(IndexText(prefix, index + [INDEX_NOTICE], suffix), budget) {
      index := index + [INDEX_NOTICE];
    }
  }

  function Texts(memories: seq<Memory>): (blocks: seq<string>)
    ensures |blocks| == |memories| && forall i :: 0 <= i < |blocks| ==> blocks[i] == memories[i].block
  {
    seq(|memories|, i requires 0 <= i < |memories| => memories[i].block)
  }

  /** The first k memories are the longest start of which every start fits below the index. */
  ghost predicate LongestBlocks(prefix: string, index: seq<string>, memories: seq<Memory>, suffix: string,
                                budget: int, k: nat) {
    && k <= |memories|
    && (forall j :: 0 < j <= k ==>
          Fits(BlocksText(prefix, index, [BLOCKS_HEADER] + Texts(memories)[..j], suffix), budget))
    && (k < |memories| ==>
          !Fits(BlocksText(prefix, index, [BLOCKS_HEADER] + Texts(memories)[..k + 1], suffix), budget))
  }

  /** The first k memories, and the hint for the next one if it fits. */
  ghost function KeptBlocks(prefix: string, index: seq<string>, memories: seq<Memory>, suffix: string, budget: int,
                            k: nat): seq<string>
    requires k <= |memories|
  {
    var kept := [BLOCKS_HEADER] + Texts(memories)[..k];
    if k < |memories| && Fits(BlocksText(prefix, index, kept + [memories[k].hint], suffix), budget)
    then kept + [memories[k].hint] else kept
  }

  method KeepBlocks(prefix: string, index: seq<string>, memories: seq<Memory>, suffix: string, budget: int)
    returns (blocks: seq<string>, ghost k: nat)
    ensures LongestBlocks(prefix, index, memories, suffix, budget, k)
    ensures blocks == KeptBlocks(prefix, index, memories, suffix, budget, k)
    ensures |blocks| > 1 ==> Fits(BlocksText(prefix, index, blocks, suffix), budget)
  {
    hide BlocksText, Fits;
    blocks, k := [BLOCKS_HEADER], 0;
    ghost var texts := Texts(memories);
    for i := 0 to |memories|
      invariant k == i && blocks == [BLOCKS_HEADER] + texts[..i]
      invariant forall j :: 0 < j <= i ==> Fits(BlocksText(prefix, index, [BLOCKS_HEADER] + texts[..j], suffix), budget)
    {
      assert [BLOCKS_HEADER] + texts[..i + 1] == blocks + [memories[i].block];
      if !Fits(BlocksText(prefix, index, blocks + [memories[i].block], suffix), budget) {
        if Fits(BlocksText(prefix, index, blocks + [memories[i].hint], suffix), budget) {
          blocks := blocks + [memories[i].hint];
        }
        return;
      }
      blocks, k := blocks + [memories[i].block], i + 1;
    }
  }

  /** Below the index come the memories; without any there is no heading for them. */
  function SemanticText(prefix: string, index: seq<string>, blocks: seq<string>, suffix: string): string {
    if |blocks| > 1 then BlocksText(prefix, index, blocks, suffix) else IndexText(prefix, index, suffix)
  }

  /** Text with an index is longer than with its header alone. */
  lemma HeaderIsLeast(prefix: string, index: seq<string>, blocks: seq<string>, suffix: string, budget: int)
    requires index != [] && index[0] == INDEX_HEADER
    requires !Fits(IndexText(prefix, [INDEX_HEADER], suffix), budget)
    ensures !Fits(IndexText(prefix, index, suffix), budget) && !Fits(BlocksText(prefix, index, blocks, suffix), budget)
  {
    JoinAtLeastFirst(index);
    HeaderLength(prefix, suffix);
    TokensGrow(IndexText(prefix, [INDEX_HEADER], suffix), IndexText(prefix, index, suffix));
    TokensGrow(IndexText(prefix, [INDEX_HEADER], suffix), BlocksText(prefix, index, blocks, suffix));
  }

  lemma JoinAtLeastFirst(items: seq<string>)
    requires items != []
    ensures |Join(items, "\n")| >= |items[0]|
  {
  }

  lemma TokensGrow(a: string, b: string)
    requires |a| <= |b|
    ensures Tokens(a) <= Tokens(b)
  {
  }

  /**
    The recalled memories are the longest starts that fit, with notice and hint, and cost at most
    their budget exactly when the header of the index does, which is never checked by itself;
    if it does not, the text is that header and exceeds the budget by at most 5 tokens.
   */
  method RenderSemantic(lines: seq<string>, memories: seq<Memory>, prefix: string, suffix: string, budget: int)
    returns (text: string, ghost k: nat, ghost l: nat)
    ensures text == "" <==> !Recalls(lines, memories, prefix, suffix, budget)
    ensures Recalls(lines, memories, prefix, suffix, budget) ==>
      && LongestIndex(prefix, lines, suffix, budget, k)
      && var index := KeptIndex(prefix, lines, suffix, budget, k);
      && LongestBlocks(prefix, index, memories, suffix, budget, l)
      && text == SemanticText(prefix, index, KeptBlocks(prefix, index, memories, suffix, budget, l), suffix)
    ensures Recalls(lines, memories, prefix, suffix, budget) ==>
      var header := IndexText(prefix, [INDEX_HEADER], suffix);
      && (Fits(text, budget) <==> Fits(header, budget))
      && (!Fits(header, budget) ==> text == header && Tokens(text) <= budget + 5)
  {
    k, l := 0, 0;
    if lines == [] && memories == [] {
      return "", k, l;
    }
    if budget <= 0 {
      return "", k, l;
    }
    if !Fits(prefix + suffix, budget) {
      return "", k, l;
    }
    hide LongestIndex, LongestBlocks, Join, Fits, KeptBlocks, IndexText, BlocksText, Tokens;
    var index;
    index, k := KeepIndex(prefix, lines, suffix, budget);
    text := IndexText(prefix, index, suffix);
    ghost var blocks := [BLOCKS_HEADER];
    if memories != [] {
      var found;
      found, l := KeepBlocks(prefix, index, memories, suffix, budget);
      if |found| > 1 {
        text := BlocksText(prefix, index, found, suffix);
      }
      blocks := found;
    } else {
      NoBlocks(prefix, index, suffix, budget);
    }
    FitsWithHeader(prefix, index, blocks, suffix, budget);
    TextNotEmpty(prefix, index, blocks, suffix);
  }

  /** Something is recalled, and the text around it fits. */
  ghost predicate Recalls(lines: seq<string>, memories: seq<Memory>, prefix: string, suffix: string, budget: int) {
    (lines != [] || memories != []) && budget > 0 && Fits(prefix + suffix, budget)
  }

  lemma NoBlocks(prefix: string, index: seq<string>, suffix: string, budget: int)
    ensures LongestBlocks(prefix, index, [], suffix, budget, 0)
    ensures KeptBlocks(prefix, index, [], suffix, budget, 0) == [BLOCKS_HEADER]
  {
  }

  lemma TextNotEmpty(prefix: string, index: seq<string>, blocks: seq<string>, suffix: string)
    ensures SemanticText(prefix, index, blocks, suffix) != ""
  {
  }

  lemma FitsWithHeader(prefix: string, index: seq<string>, blocks: seq<string>, suffix: string, budget: int)
    requires index != [] && index[0] == INDEX_HEADER && blocks != [] && Fits(prefix + suffix, budget)
    requires |index| > 1 ==> Fits(IndexText(prefix, index, suffix), budget)
    requires |blocks| > 1 ==> Fits(BlocksText(prefix, index, blocks, suffix), budget)
    ensures
      var header, text := IndexText(prefix, [INDEX_HEADER], suffix), SemanticText(prefix, index, blocks, suffix);
      && (Fits(text, budget) <==> Fits(header, budget))
      && (!Fits(header, budget) ==> text == header && Tokens(text) <= budget + 5)
  {
    var header := IndexText(prefix, [INDEX_HEADER], suffix);
    HeaderLength(prefix, suffix);
    hide IndexText, BlocksText;
    if !Fits(header, budget) {
      HeaderIsLeast(prefix, index, blocks, suffix, budget);
      assert index == [INDEX_HEADER];
    } else if |blocks| == 1 && |index| == 1 {
      assert index == [INDEX_HEADER];
    }
  }

  lemma HeaderLength(prefix: string, suffix: string)
    ensures |IndexText(prefix, [INDEX_HEADER], suffix)| == |prefix + suffix| + 18
  {
  }

  /** Whatever surrounds the memories, there is a budget that the text exceeds, by 4 or 5 tokens. */
  method HeaderOverrun(lines: seq<string>, memories: seq<Memory>, prefix: string, suffix: string)
    returns (budget: int, text: string)
    requires (lines != [] || memories != []) && |prefix + suffix| >= CHARS_PER_TOKEN
    ensures Fits(prefix + suffix, budget) && !Fits(text, budget)
    ensures Tokens(text) == budget + if |prefix + suffix| % 4 >= 2 then 5 else 4
  {
    budget := Tokens(prefix + suffix);
    HeaderLength(prefix, suffix);
    ghost var k, l;
    text, k, l := RenderSemantic(lines, memories, prefix, suffix, budget);
  }
}
