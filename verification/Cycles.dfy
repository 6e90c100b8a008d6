// The three-colour depth-first search that reports import cycles
// (scripts/check_cycles.py).
//
// A graph maps each module to the list of modules it imports, in the order in
// which the search visits them. The source sorts a set; the results below hold
// for every visiting order, with or without repetitions. A dependency that is
// not itself a key of the graph is skipped.
module Cycles {

  type Graph<N> = map<N, seq<N>>

  const WHITE := 0
  const GREY := 1
  const BLACK := 2

  /** u imports v, and both are modules of the graph. */
  predicate Edge<N(==)>(graph: Graph<N>, u: N, v: N) {
    u in graph && v in graph && v in graph[u]
  }

  /** Consecutive modules of p are joined by edges. */
  ghost predicate IsPath<N(!new)>(graph: Graph<N>, p: seq<N>) {
    && (forall i :: 0 <= i < |p| ==> p[i] in graph)
    && (forall i :: 0 <= i < |p| - 1 ==> Edge(graph, p[i], p[i + 1]))
  }

  ghost predicate IsCycle<N(!new)>(graph: Graph<N>, p: seq<N>) {
    |p| >= 2 && p[0] == p[|p| - 1] && IsPath(graph, p)
  }

  /** A cycle leads from module to module along imports, all of them modules of the graph, back to its first. */
  lemma CyclesAre<N(!new)>(graph: Graph<N>, p: seq<N>)
    ensures IsCycle(graph, p) <==>
      && |p| >= 2 && p[0] == p[|p| - 1]
      && forall i {:trigger p[i]} :: 0 <= i < |p| - 1 ==> p[i] in graph && p[i + 1] in graph && p[i + 1] in graph[p[i]]
  {
    if IsCycle(graph, p) {
      assert forall i :: 0 <= i < |p| - 1 ==> Edge(graph, p[i], p[i + 1]);
    }
  }

  ghost predicate Distinct<N(!new)>(p: seq<N>) {
    forall i, j :: 0 <= i < j < |p| ==> p[i] != p[j]
  }

  ghost predicate HasCycle<N(!new)>(graph: Graph<N>) {
    exists p :: IsCycle(graph, p)
  }

  /** An edge that does not lead to an earlier element of the order. */
  ghost predicate Backward<N(!new)>(graph: Graph<N>, order: seq<N>, u: N, v: N) {
    Edge(graph, u, v) && exists i :: 0 <= i < |order| && order[i] == u && v !in order[..i]
  }

  /** Every edge out of an element of order leads to an earlier element. */
  ghost predicate Topological<N(!new)>(graph: Graph<N>, order: seq<N>) {
    forall u, v :: !Backward(graph, order, u, v)
  }

  ghost predicate Forward<N(!new)>(graph: Graph<N>, order: seq<N>, p: seq<N>) {
    forall i :: 0 <= i < |p| - 1 ==> !Backward(graph, order, p[i], p[i + 1])
  }

  /** The place of a module in an order drops along every path without backward edges. */
  lemma {:induction false} PathDescends<N(!new)>(graph: Graph<N>, order: seq<N>, p: seq<N>, i: nat) returns (k: nat)
    requires Forward(graph, order, p) && IsPath(graph, p) && |p| >= 1
    requires i < |order| && order[i] == p[0]
    ensures k <= i && order[k] == p[|p| - 1]
    ensures |p| >= 2 ==> k < i
    decreases |p|
  {
    k := i;
    if |p| >= 2 {
      assert Edge(graph, p[0], p[0 + 1]) && !Backward(graph, order, p[0], p[0 + 1]);
      var j :| 0 <= j < i && order[j] == p[1];
      assert IsPath(graph, p[1..]) && Forward(graph, order, p[1..]) by {
        forall m | 0 <= m < |p[1..]| - 1
          ensures Edge(graph, p[1..][m], p[1..][m + 1]) && !Backward(graph, order, p[1..][m], p[1..][m + 1])
        {
          assert Edge(graph, p[m + 1], p[m + 1 + 1]) && !Backward(graph, order, p[m + 1], p[m + 1 + 1]);
        }
      }
      k := PathDescends(graph, order, p[1..], j);
    }
  }

  /** However the modules are ordered, every cycle has an edge that leads backward. */
  lemma CyclesGoBackward<N(!new)>(graph: Graph<N>, order: seq<N>, p: seq<N>) returns (m: nat)
    requires Distinct(order) && (forall u :: u in graph ==> u in order) && IsCycle(graph, p)
    ensures m < |p| - 1 && Backward(graph, order, p[m], p[m + 1])
  {
    if Forward(graph, order, p) {
      var i :| 0 <= i < |order| && order[i] == p[0];
      var k := PathDescends(graph, order, p, i);
      assert false;
    }
    m :| 0 <= m < |p| - 1 && Backward(graph, order, p[m], p[m + 1]);
  }

  /** A graph whose modules can all be listed topologically has no cycle. */
  lemma TopologicalMeansAcyclic<N(!new)>(graph: Graph<N>, order: seq<N>)
    requires Topological(graph, order) && Distinct(order)
    requires forall u :: u in graph ==> u in order
    ensures !HasCycle(graph)
  {
    if HasCycle(graph) {
      var p :| IsCycle(graph, p);
      var m := CyclesGoBackward(graph, order, p);
    }
  }

  /** How many of some imports are modules of the graph that are not among `done`. */
  ghost function CountOutside<N(!new)>(graph: Graph<N>, deps: seq<N>, done: seq<N>): nat {
    if deps == [] then 0
    else
      var n := |deps| - 1;
      CountOutside(graph, deps[..n], done) + if deps[n] in graph && deps[n] !in done then 1 else 0
  }

  /** How many imports lead backward, over all modules of an order. */
  ghost function BackwardCount<N(!new)>(graph: Graph<N>, order: seq<N>): nat {
    if order == [] then 0
    else
      var n := |order| - 1;
      BackwardCount(graph, order[..n])
      + if order[n] in graph then CountOutside(graph, graph[order[n]], order[..n]) else 0
  }

  lemma BackwardCountNext<N(!new)>(graph: Graph<N>, order: seq<N>, u: N)
    requires u in graph
    ensures BackwardCount(graph, order + [u]) == BackwardCount(graph, order) + CountOutside(graph, graph[u], order)
  {
    assert (order + [u])[..|order|] == order;
  }

  /** How many of some imports are on the stack. */
  ghost function CountIn<N(!new)>(deps: seq<N>, stack: seq<N>): nat {
    if deps == [] then 0
    else CountIn(deps[..|deps| - 1], stack) + if deps[|deps| - 1] in stack then 1 else 0
  }

  lemma {:induction false} CountsAgree<N(!new)>(graph: Graph<N>, deps: seq<N>, stack: seq<N>, done: seq<N>)
    requires forall v :: v in deps ==> (v in stack <==> v in graph && v !in done)
    ensures CountIn(deps, stack) == CountOutside(graph, deps, done)
    decreases |deps|
  {
    if deps != [] {
      var n := |deps| - 1;
      assert deps == deps[..n] + [deps[n]];
      CountsAgree(graph, deps[..n], stack, done);
    }
  }

  /** The part of a path from position i on, closed by an edge back to its start. */
  lemma ClosingAPath<N(!new)>(graph: Graph<N>, p: seq<N>, i: nat)
    requires IsPath(graph, p) && Distinct(p) && i < |p| && Edge(graph, p[|p| - 1], p[i])
    ensures IsCycle(graph, p[i..] + [p[i]]) && Distinct(p[i..])
  {
    var c := p[i..] + [p[i]];
    forall m | 0 <= m < |c| - 1 ensures Edge(graph, c[m], c[m + 1]) {
      if m + 1 < |p| - i {
        assert Edge(graph, p[i + m], p[i + m + 1]);
      } else {
        assert c[m] == p[|p| - 1];
      }
    }
  }

  /** A reported list: a closed walk that meets no module twice before it closes. */
  ghost predicate Reported<N(!new)>(graph: Graph<N>, c: seq<N>) {
    IsCycle(graph, c) && Distinct(c[..|c| - 1])
  }

  /** The search state: colours, the grey stack, the reports and the order in which modules were left. */
  datatype State<N> = State(color: map<N, int>, stack: seq<N>, cycles: seq<seq<N>>, finished: seq<N>)

  predicate Has<N(==)>(color: map<N, int>, u: N, c: int) {
    (if u in color then color[u] else WHITE) == c
  }

  /** The grey modules are those on the stack, the black ones those already left. */
  ghost predicate Coloured<N(!new)>(graph: Graph<N>, s: State<N>) {
    && s.color.Keys <= graph.Keys
    && (forall u :: u in s.color ==> s.color[u] == GREY || s.color[u] == BLACK)
    && (forall u :: Has(s.color, u, GREY) <==> u in s.stack)
    && (forall u :: Has(s.color, u, BLACK) <==> u in s.finished)
    && Distinct(s.stack) && Distinct(s.finished)
  }

  ghost predicate AllReported<N(!new)>(graph: Graph<N>, cycles: seq<seq<N>>) {
    forall c :: c in cycles ==> Reported(graph, c)
  }

  /** The report ends with the edge that closes it. */
  ghost predicate Closes<N(!new)>(c: seq<N>, u: N, v: N) {
    |c| >= 2 && c[|c| - 2] == u && c[|c| - 1] == v
  }

  ghost predicate Told<N(!new)>(cycles: seq<seq<N>>, u: N, v: N) {
    exists c :: c in cycles && Closes(c, u, v)
  }

  /** Every backward edge out of a module that has been left has been reported. */
  ghost predicate BackwardTold<N(!new)>(graph: Graph<N>, s: State<N>) {
    forall u, v :: Backward(graph, s.finished, u, v) ==> Told(s.cycles, u, v)
  }

  ghost predicate BelowOnStack<N(!new)>(stack: seq<N>, u: N, v: N) {
    exists a, b :: 0 <= a <= b < |stack| && stack[a] == v && stack[b] == u
  }

  /** Every report closes with an edge that leads backward, or will once its module is left. */
  ghost predicate ToldBackward<N(!new)>(graph: Graph<N>, s: State<N>) {
    forall u, v :: Told(s.cycles, u, v) ==> BelowOnStack(s.stack, u, v) || Backward(graph, s.finished, u, v)
  }

  ghost predicate Consistent<N(!new)>(graph: Graph<N>, s: State<N>) {
    && Coloured(graph, s)
    && IsPath(graph, s.stack)
    && AllReported(graph, s.cycles)
    && BackwardTold(graph, s) && ToldBackward(graph, s)
  }

  lemma Recoloured<N(!new)>(color: map<N, int>, u: N, c: int, x: N, d: int)
    ensures Has(color[u := c], x, d) <==> (if x == u then c == d else Has(color, x, d))
  {
  }

  /** Turning a white module grey and pushing it keeps the state consistent. */
  lemma Enter<N(!new)>(graph: Graph<N>, s: State<N>, u: N)
    requires Consistent(graph, s) && u in graph && Has(s.color, u, WHITE)
    requires s.stack != [] ==> Edge(graph, s.stack[|s.stack| - 1], u)
    ensures Consistent(graph, s.(color := s.color[u := GREY], stack := s.stack + [u]))
  {
    assert !Has(s.color, u, GREY) && !Has(s.color, u, BLACK);
    forall x, d: int ensures Has(s.color[u := GREY], x, d) <==> (if x == u then d == GREY else Has(s.color, x, d)) {
      Recoloured(s.color, u, GREY, x, d);
    }
    var p := s.stack + [u];
    forall i | 0 <= i < |p| - 1 ensures Edge(graph, p[i], p[i + 1]) {
      if i + 1 < |s.stack| {
        assert Edge(graph, s.stack[i], s.stack[i + 1]);
      }
    }
    forall x, v | BelowOnStack(s.stack, x, v) ensures BelowOnStack(p, x, v) {
      var a, b :| 0 <= a <= b < |s.stack| && s.stack[a] == v && s.stack[b] == x;
      assert p[a] == v && p[b] == x;
    }
  }

  /** An edge from the top of the stack back into it is reported as a cycle. */
  lemma Report<N(!new)>(graph: Graph<N>, s: State<N>, k: nat)
    requires Consistent(graph, s) && k < |s.stack| && s.stack[k] in graph[s.stack[|s.stack| - 1]]
    ensures Consistent(graph, s.(cycles := s.cycles + [s.stack[k..] + [s.stack[k]]]))
    ensures Told(s.cycles + [s.stack[k..] + [s.stack[k]]], s.stack[|s.stack| - 1], s.stack[k])
  {
    ClosingAPath(graph, s.stack, k);
    var c := s.stack[k..] + [s.stack[k]];
    assert c[..|c| - 1] == s.stack[k..];
    var cycles := s.cycles + [c];
    assert c in cycles && Closes(c, s.stack[|s.stack| - 1], s.stack[k]);
    hide Coloured, IsPath, Reported, Backward;
    ToldMore(s.cycles, c);
    assert BelowOnStack(s.stack, s.stack[|s.stack| - 1], s.stack[k]);
  }

  lemma ToldMore<N(!new)>(cycles: seq<seq<N>>, c: seq<N>)
    ensures forall u, v :: Told(cycles + [c], u, v) <==> Told(cycles, u, v) || Closes(c, u, v)
  {
    forall u, v | Closes(c, u, v) ensures Told(cycles + [c], u, v) {
      assert c in cycles + [c];
    }
    forall u, v | Told(cycles, u, v) ensures Told(cycles + [c], u, v) {
      var d :| d in cycles && Closes(d, u, v);
      assert d in cycles + [c];
    }
  }

  lemma ToldStays<N(!new)>(before: seq<seq<N>>, after: seq<seq<N>>, u: N, v: N)
    requires before <= after && Told(before, u, v)
    ensures Told(after, u, v)
  {
    var c :| c in before && Closes(c, u, v);
    assert c in after;
  }

  lemma ToldIsEdge<N(!new)>(graph: Graph<N>, cycles: seq<seq<N>>, u: N, v: N)
    requires AllReported(graph, cycles) && Told(cycles, u, v)
    ensures Edge(graph, u, v)
  {
    var c :| c in cycles && Closes(c, u, v);
    assert Reported(graph, c) && Edge(graph, c[|c| - 2], c[|c| - 2 + 1]);
  }

  lemma BackwardNext<N(!new)>(graph: Graph<N>, order: seq<N>, u: N, x: N, v: N)
    ensures Backward(graph, order + [u], x, v) <==>
            Backward(graph, order, x, v) || (x == u && Edge(graph, u, v) && v !in order)
  {
    var next := order + [u];
    assert next[..|order|] == order;
    if Backward(graph, order, x, v) {
      var i :| 0 <= i < |order| && order[i] == x && v !in order[..i];
      assert next[i] == x && next[..i] == order[..i];
    }
    if Backward(graph, next, x, v) {
      var i :| 0 <= i < |next| && next[i] == x && v !in next[..i];
      if i < |order| {
        assert order[i] == x && next[..i] == order[..i];
      }
    }
    if x == u && Edge(graph, u, v) && v !in order {
      assert next[|order|] == x && v !in next[..|order|];
    }
  }

  /** The reports stay in step with the backward edges when the top of the stack is left. */
  lemma LeaveTold<N(!new)>(graph: Graph<N>, s: State<N>, u: N)
    requires Consistent(graph, s) && s.stack != [] && s.stack[|s.stack| - 1] == u
    requires forall v :: Edge(graph, u, v) ==> v in s.finished || Told(s.cycles, u, v)
    ensures var t := s.(stack := s.stack[..|s.stack| - 1], finished := s.finished + [u]);
      BackwardTold(graph, t) && ToldBackward(graph, t)
  {
    var rest, order := s.stack[..|s.stack| - 1], s.finished + [u];
    forall x, v ensures Backward(graph, order, x, v) <==>
                        Backward(graph, s.finished, x, v) || (x == u && Edge(graph, u, v) && v !in s.finished) {
      BackwardNext(graph, s.finished, u, x, v);
    }
    forall x, v | Told(s.cycles, x, v) ensures BelowOnStack(rest, x, v) || Backward(graph, order, x, v) {
      ToldIsEdge(graph, s.cycles, x, v);
      if BelowOnStack(s.stack, x, v) {
        var a, b :| 0 <= a <= b < |s.stack| && s.stack[a] == v && s.stack[b] == x;
        if b < |rest| {
          assert rest[a] == v && rest[b] == x;
        } else {
          assert v in s.stack && Has(s.color, v, GREY) && !Has(s.color, v, BLACK);
        }
      }
    }
  }

  /** Leaving the grey module on top, all of whose modules are black, keeps the state consistent. */
  lemma Leave<N(!new)>(graph: Graph<N>, s: State<N>, u: N)
    requires Consistent(graph, s) && s.stack != [] && s.stack[|s.stack| - 1] == u
    requires forall v :: Edge(graph, u, v) ==> v in s.finished || Told(s.cycles, u, v)
    ensures Consistent(graph, s.(color := s.color[u := BLACK], stack := s.stack[..|s.stack| - 1],
                                 finished := s.finished + [u]))
  {
    assert u in s.stack;
    var rest := s.stack[..|s.stack| - 1];
    assert s.stack == rest + [u];
    var order := s.finished + [u];
    assert u !in rest by {
      forall i | 0 <= i < |rest| ensures rest[i] != u {
        assert s.stack[i] != s.stack[|s.stack| - 1];
      }
    }
    assert forall x :: x in s.stack <==> x in rest || x == u;
    assert Has(s.color, u, GREY) && !Has(s.color, u, BLACK);
    forall x, d: int ensures Has(s.color[u := BLACK], x, d) <==> (if x == u then d == BLACK else Has(s.color, x, d)) {
      Recoloured(s.color, u, BLACK, x, d);
    }
    assert IsPath(graph, rest) by {
      forall i | 0 <= i < |rest| - 1 ensures Edge(graph, rest[i], rest[i + 1]) {
        assert Edge(graph, s.stack[i], s.stack[i + 1]);
      }
    }
    LeaveTold(graph, s, u);
  }

  method IndexOf<N(==, !new)>(s: seq<N>, x: N) returns (i: nat)
    requires x in s
    ensures i < |s| && s[i] == x && x !in s[..i]
  {
    i := 0;
    while s[i] != x
      invariant i < |s| && x !in s[..i] && x in s[i..]
      decreases |s| - i
    {
      i := i + 1;
    }
  }

  class Finder<N(==, !new)> {
    const graph: Graph<N>
    var color: map<N, int>
    var stack: seq<N>
    var cycles: seq<seq<N>>
    ghost var finished: seq<N>

    constructor (graph: Graph<N>)
      ensures Valid() && this.graph == graph
      ensures Now() == State(map[], [], [], [])
    {
      this.graph := graph;
      color, stack, cycles := map[], [], [];
      finished := [];
    }

    ghost function Now(): State<N>
      reads this
    {
      State(color, stack, cycles, finished)
    }

    ghost predicate Valid()
      reads this
    {
      Consistent(graph, Now())
    }

    /** Colour u grey and push it. */
    method Push(u: N)
      requires Valid() && u in graph && Has(color, u, WHITE)
      requires stack != [] ==> Edge(graph, stack[|stack| - 1], u)
      modifies this`color, this`stack
      ensures Valid() && stack == old(stack) + [u] && color == old(color)[u := GREY]
    {
      Enter(graph, Now(), u);
      color := color[u := GREY];
      stack := stack + [u];
    }

    /** Record the cycle that an edge from the top of the stack to the grey module v closes. */
    method Record(v: N)
      requires Valid() && v in stack && Edge(graph, stack[|stack| - 1], v)
      modifies this`cycles
      ensures Valid() && |cycles| == |old(cycles)| + 1 && old(cycles) <= cycles
      ensures Told(cycles, stack[|stack| - 1], v)
      ensures exists k :: 0 <= k < |stack| && stack[k] == v && cycles[|cycles| - 1] == stack[k..] + [v]
    {
      var k := IndexOf(stack, v);
      Report(graph, Now(), k);
      cycles := cycles + [stack[k..] + [v]];
      assert stack[k] == v;
    }

    /** Pop the top module and colour it black. */
    method Pop(u: N)
      requires Valid() && stack != [] && stack[|stack| - 1] == u
      requires Done(u, graph[u])
      modifies this`color, this`stack, this`finished
      ensures Valid() && stack == old(stack[..|stack| - 1]) && finished == old(finished) + [u]
              && color == old(color)[u := BLACK]
    {
      Leave(graph, Now(), u);
      stack := stack[..|stack| - 1];
      color := color[u := BLACK];
      finished := finished + [u];
    }

    /** Visit u and everything white it leads to; the stack is as before, the rest has only grown. */
    method Dfs(u: N)
      requires Valid() && u in graph && Has(color, u, WHITE)
      requires stack != [] ==> Edge(graph, stack[|stack| - 1], u)
      modifies this`color, this`stack, this`cycles, this`finished
      ensures Valid() && stack == old(stack)
      ensures u in finished && old(finished) <= finished && old(cycles) <= cycles
      ensures old(color.Keys) <= color.Keys
      ensures |cycles| + old(Backwards()) == |old(cycles)| + Backwards()
      decreases graph.Keys - color.Keys, 0
    {
      WhiteIsNew(u);
      hide Consistent, Has, BackwardCount, CountIn, CountOutside, Told;
      Push(u);
      FollowAll(u);
      OnStackInGraph(u);
      CountTop(u);
      Pop(u);
      assert stack == (old(stack) + [u])[..|old(stack)|];
    }

    /** Look along every edge out of the module on top of the stack. */
    method FollowAll(u: N)
      requires Valid() && stack != [] && stack[|stack| - 1] == u
      modifies this`color, this`stack, this`cycles, this`finished
      ensures Valid() && stack == old(stack)
      ensures old(finished) <= finished && old(cycles) <= cycles && old(color.Keys) <= color.Keys
      ensures Done(u, graph[u])
      ensures |cycles| + old(Backwards()) == |old(cycles)| + Backwards() + CountIn(graph[u], stack)
      decreases graph.Keys - color.Keys, 2
    {
      hide Consistent, BackwardCount, Told;
      OnStackInGraph(u);
      var deps := graph[u];
      var i := 0;
      while i < |deps|
        invariant 0 <= i <= |deps|
        invariant Valid() && stack == old(stack)
        invariant old(finished) <= finished && old(cycles) <= cycles && old(color.Keys) <= color.Keys
        invariant Done(u, deps[..i])
        invariant |cycles| + old(Backwards()) == |old(cycles)| + Backwards() + CountIn(deps[..i], stack)
      {
        ghost var reported, left := cycles, finished;
        assert deps[..i + 1] == deps[..i] + [deps[i]];
        assert deps[..i + 1][..i] == deps[..i];
        if deps[i] in graph {
          Follow(u, deps[i]);
        } else {
          OnStackInGraph(deps[i]);
        }
        StillDone(u, deps[..i], reported, left);
        i := i + 1;
      }
      assert deps[..i] == deps;
    }

    /** Look along one edge from the top of the stack: report, descend, or pass by. */
    method Follow(u: N, v: N)
      requires Valid() && stack != [] && stack[|stack| - 1] == u && Edge(graph, u, v)
      modifies this`color, this`stack, this`cycles, this`finished
      ensures Valid() && stack == old(stack)
      ensures old(finished) <= finished && old(cycles) <= cycles && old(color.Keys) <= color.Keys
      ensures v in old(stack) ==> Told(cycles, u, v)
      ensures v !in old(stack) ==> v in finished
      ensures |cycles| + old(Backwards()) == |old(cycles)| + Backwards() + if v in stack then 1 else 0
      decreases graph.Keys - color.Keys, 1
    {
      if Has(color, v, GREY) {
        Record(v);
      } else if Has(color, v, WHITE) {
        Dfs(v);
      } else {
        assert Has(color, v, BLACK);
      }
    }

    /** Those of the dependencies that are modules have been left, or the edge to them has been reported. */
    ghost predicate Done(u: N, deps: seq<N>)
      reads this`finished, this`cycles
    {
      forall v :: v in deps && v in graph ==> v in finished || Told(cycles, u, v)
    }

    lemma StillDone(u: N, deps: seq<N>, reported: seq<seq<N>>, left: seq<N>)
      requires reported <= cycles && left <= finished
      requires forall v :: v in deps && v in graph ==> v in left || Told(reported, u, v)
      ensures Done(u, deps)
    {
      forall v | v in deps && v in graph ensures v in finished || Told(cycles, u, v) {
        if v !in left {
          ToldStays(reported, cycles, u, v);
        }
      }
    }

    ghost function Backwards(): nat
      reads this`finished
    {
      BackwardCount(graph, finished)
    }

    lemma LeftIfNotWhite(u: N)
      requires Valid() && stack == [] && !Has(color, u, WHITE)
      ensures u in finished
    {
      assert Has(color, u, GREY) || Has(color, u, BLACK);
    }

    lemma WhiteIsNew(u: N)
      requires Valid() && Has(color, u, WHITE)
      ensures u !in color
    {
    }

    /** Leaving the top module counts the imports of it that lead down the stack. */
    lemma CountTop(u: N)
      requires Valid() && stack != [] && stack[|stack| - 1] == u && u in graph && Done(u, graph[u])
      ensures BackwardCount(graph, finished + [u]) == Backwards() + CountIn(graph[u], stack)
    {
      EitherWay(u);
      hide Consistent;
      CountsAgree(graph, graph[u], stack, finished);
      BackwardCountNext(graph, finished, u);
    }

    lemma OnStackInGraph(v: N)
      requires Valid()
      ensures v in stack ==> v in graph
    {
    }

    /** What the top module imports is on the stack or has been left. */
    lemma EitherWay(u: N)
      requires Valid() && stack != [] && stack[|stack| - 1] == u && u in graph && Done(u, graph[u])
      ensures forall v :: v in graph[u] ==> (v in stack <==> v in graph && v !in finished)
    {
      forall v | v in graph[u] ensures v in stack <==> v in graph && v !in finished {
        if v in stack {
          assert Has(color, v, GREY) && !Has(color, v, BLACK);
        } else if v in graph && v !in finished {
          assert Told(cycles, u, v);
          NotLeft(u, v);
        }
      }
    }

    /** An edge out of a grey module that has been reported leads down the stack. */
    lemma NotLeft(u: N, v: N)
      requires Valid() && u in stack && Told(cycles, u, v)
      ensures v in stack
    {
      assert Has(color, u, GREY) && !Has(color, u, BLACK) && u !in finished;
      assert !Backward(graph, finished, u, v);
    }
  }

  /**
    The driver loop. The exit code is 1 exactly when the graph restricted to its own modules has
    a cycle, and every reported list is such a cycle. In the order in which the search leaves the
    modules, the reports close with exactly the edges that lead backward, as often as there are
    such imports; so every cycle has the closing edge of a report, and without these edges there
    is none.
   */
  method CheckCycles<N(==, !new)>(graph: Graph<N>, modules: seq<N>)
    returns (cycles: seq<seq<N>>, exitCode: int, ghost order: seq<N>)
    requires forall m :: m in modules <==> m in graph
    ensures forall c :: c in cycles ==> Reported(graph, c)
    ensures exitCode == (if cycles == [] then 0 else 1)
    ensures exitCode == 1 <==> HasCycle(graph)
    ensures Distinct(order) && forall m :: m in order <==> m in graph
    ensures forall u, v :: Told(cycles, u, v) <==> Backward(graph, order, u, v)
    ensures |cycles| == BackwardCount(graph, order)
    ensures forall p :: IsCycle(graph, p) ==> exists i :: 0 <= i < |p| - 1 && Told(cycles, p[i], p[i + 1])
  {
    hide Consistent, BackwardCount, Told, Backward, HasCycle, IsCycle;
    var f := new Finder(graph);
    StartsAtNothing(graph);
    var i := 0;
    while i < |modules|
      invariant 0 <= i <= |modules|
      invariant f.Valid() && f.stack == [] && fresh(f)
      invariant forall j :: 0 <= j < i ==> modules[j] in f.finished
      invariant |f.cycles| == f.Backwards()
    {
      var m := modules[i];
      ghost var before := f.finished;
      if Has(f.color, m, WHITE) {
        f.Dfs(m);
      } else {
        f.LeftIfNotWhite(m);
      }
      assert forall x :: x in before ==> x in f.finished;
      i := i + 1;
    }
    cycles := f.cycles;
    exitCode := if cycles == [] then 0 else 1;
    order := f.finished;
    forall m | m in graph ensures m in order {
      assert m in modules;
    }
    InTheEnd(graph, f.Now());
  }

  lemma StartsAtNothing<N(!new)>(graph: Graph<N>)
    ensures BackwardCount(graph, []) == 0
  {
  }

  /** What the search has found when it has left every module. */
  lemma InTheEnd<N(!new)>(graph: Graph<N>, s: State<N>)
    requires Consistent(graph, s) && s.stack == [] && forall m :: m in graph ==> m in s.finished
    ensures forall c :: c in s.cycles ==> Reported(graph, c)
    ensures s.cycles == [] <==> !HasCycle(graph)
    ensures Distinct(s.finished) && forall m :: m in s.finished <==> m in graph
    ensures forall u, v :: Told(s.cycles, u, v) <==> Backward(graph, s.finished, u, v)
    ensures forall p :: IsCycle(graph, p) ==> exists i :: 0 <= i < |p| - 1 && Told(s.cycles, p[i], p[i + 1])
  {
    forall m | m in s.finished ensures m in graph {
      assert Has(s.color, m, BLACK);
    }
    hide Coloured, Reported;
    forall p | IsCycle(graph, p) ensures exists i :: 0 <= i < |p| - 1 && Told(s.cycles, p[i], p[i + 1]) {
      var k := CyclesGoBackward(graph, s.finished, p);
    }
    if s.cycles != [] {
      assert s.cycles[0] in s.cycles && Reported(graph, s.cycles[0]);
      ReportedIsCycle(graph, s.cycles[0]);
    }
  }

  lemma ReportedIsCycle<N(!new)>(graph: Graph<N>, c: seq<N>)
    requires Reported(graph, c)
    ensures IsCycle(graph, c)
  {
  }
}
