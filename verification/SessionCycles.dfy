/** Detection of circular session declarations (src/session.rs, `detect_session_cycle`). */
module SessionCycles {
  import opened Wrappers
  import opened Session

  type Graph = map<string, seq<string>>

  ghost predicate Closed(g: Graph) {
    forall n, e :: n in g && e in g[n] ==> e in g
  }

  ghost predicate Edge(g: Graph, a: string, b: string) {
    a in g && b in g[a]
  }

  ghost predicate Walk(g: Graph, w: seq<string>) {
    forall i :: 0 < i < |w| ==> Edge(g, w[i - 1], w[i])
  }

  /** A walk of at least one edge that returns to its first node. */
  ghost predicate ClosedWalk(g: Graph, w: seq<string>) {
    |w| >= 2 && Walk(g, w) && w[0] == w[|w| - 1]
  }

  ghost predicate Distinct(w: seq<string>) {
    forall i, j :: 0 <= i < j < |w| ==> w[i] != w[j]
  }

  ghost predicate SimpleCycle(g: Graph, c: seq<string>) {
    ClosedWalk(g, c) && Distinct(c[..|c| - 1])
  }

  ghost predicate Acyclic(g: Graph) {
    forall w :: !ClosedWalk(g, w)
  }

  // --- finishing order ---

  /** Every edge that leaves a listed node goes to a node listed before it. */
  ghost predicate Ordered(g: Graph, done: seq<string>) {
    forall i, e :: 0 <= i < |done| && Edge(g, done[i], e) ==> e in done[..i]
  }

  lemma {:induction false} WalkDescends(g: Graph, done: seq<string>, w: seq<string>, k: nat)
    requires Ordered(g, done) && Walk(g, w)
    requires |w| > 0 && k <= |done| && w[0] in done[..k]
    ensures |w| >= 2 ==> w[|w| - 1] in done[..k - 1]
    decreases |w|
  {
    if |w| >= 2 {
      var i :| 0 <= i < k && done[i] == w[0];
      assert Edge(g, w[0], w[1]);
      assert w[1] in done[..i];
      if |w| > 2 {
        var tail := w[1..];
        forall j | 0 < j < |tail|
          ensures Edge(g, tail[j - 1], tail[j])
        {
          assert Edge(g, w[j], w[j + 1]);
        }
        WalkDescends(g, done, tail, i);
        assert tail[|tail| - 1] == w[|w| - 1];
        PrefixGrows(done, i - 1, k - 1, w[|w| - 1]);
      } else {
        PrefixGrows(done, i, k - 1, w[1]);
      }
    }
  }

  lemma PrefixGrows(s: seq<string>, small: nat, large: nat, x: string)
    requires small <= large <= |s|
    requires x in s[..small]
    ensures x in s[..large]
  {
    var i :| 0 <= i < small && s[i] == x;
    assert s[..large][i] == x;
  }

  /** A node listed at its first position cannot lie on a closed walk. */
  lemma OrderedIsAcyclic(g: Graph, done: seq<string>, w: seq<string>)
    requires Ordered(g, done)
    requires forall n :: n in g ==> n in done
    ensures !ClosedWalk(g, w)
  {
    if ClosedWalk(g, w) {
      assert Edge(g, w[0], w[1]);
      var i := FirstIndex(done, w[0]);
      WalkDescends(g, done, w, i + 1);
    }
  }

  lemma FirstIndex(s: seq<string>, x: string) returns (i: nat)
    requires x in s
    ensures i < |s| && s[i] == x && x !in s[..i]
  {
    i := 0;
    while s[i] != x
      invariant i < |s| && x !in s[..i]
      invariant x in s[i..]
      decreases |s| - i
    {
      assert s[i..] == [s[i]] + s[i + 1..];
      assert s[..i + 1] == s[..i] + [s[i]];
      i := i + 1;
    }
  }

  // --- the depth-first search ---

  datatype Frame = Frame(node: string, next: nat)

  const WHITE := 0
  const GRAY := 1
  const BLACK := 2

  function ColorOf(color: map<string, int>, n: string): int {
    if n in color then color[n] else WHITE
  }

  ghost function Nodes(stack: seq<Frame>): seq<string> {
    seq(|stack|, i requires 0 <= i < |stack| => stack[i].node)
  }

  ghost function Whites(g: Graph, color: map<string, int>): set<string> {
    set n | n in g && ColorOf(color, n) == WHITE
  }

  /** Black nodes are exactly the finished ones, gray nodes exactly those on the path. */
  ghost predicate ColoredAt(g: Graph, color: map<string, int>, path: seq<string>, done: seq<string>, n: string) {
    && (ColorOf(color, n) == GRAY <==> n in path)
    && (ColorOf(color, n) == BLACK <==> n in done)
    && (ColorOf(color, n) == WHITE <==> n !in path && n !in done)
    && (n in path || n in done ==> n in g)
  }

  ghost predicate Coloring(g: Graph, color: map<string, int>, path: seq<string>, done: seq<string>) {
    forall n :: ColoredAt(g, color, path, done, n)
  }

  /** The edges frame `i` has taken lead to finished nodes, except its last one when that leads to frame `i + 1`. */
  ghost predicate FrameExplored(g: Graph, stack: seq<Frame>, done: seq<string>, i: nat)
    requires i < |stack|
  {
    var Frame(node, next) := stack[i];
    var inner := i + 1 < |stack|;
    && node in g
    && next <= |g[node]|
    && (inner ==> 0 < next && g[node][next - 1] == stack[i + 1].node)
    && forall j :: 0 <= j < next - (if inner then 1 else 0) ==> g[node][j] in done
  }

  ghost predicate Explored(g: Graph, stack: seq<Frame>, done: seq<string>) {
    forall i: nat :: i < |stack| ==> FrameExplored(g, stack, done, i)
  }

  lemma PathIsWalk(g: Graph, stack: seq<Frame>, done: seq<string>)
    requires Explored(g, stack, done)
    ensures Walk(g, Nodes(stack))
  {
    var path := Nodes(stack);
    forall i | 0 < i < |path|
      ensures Edge(g, path[i - 1], path[i])
    {
      assert FrameExplored(g, stack, done, i - 1);
    }
  }

  /** Where a node stands on the path, if it does. */
  method Position(path: seq<string>, x: string) returns (r: Option<nat>)
    ensures r.None? <==> x !in path
    ensures r.Some? ==> r.value < |path| && path[r.value] == x
  {
    for i := 0 to |path|
      invariant x !in path[..i]
    {
      if path[i] == x {
        return Some(i);
      }
    }
    return None;
  }

  lemma CycleFromPath(g: Graph, path: seq<string>, pos: nat)
    requires Walk(g, path) && Distinct(path) && pos < |path|
    requires Edge(g, path[|path| - 1], path[pos])
    ensures SimpleCycle(g, path[pos..] + [path[pos]])
  {
    var c := path[pos..] + [path[pos]];
    forall i | 0 < i < |c|
      ensures Edge(g, c[i - 1], c[i])
    {
      if i < |c| - 1 {
        assert Edge(g, path[pos + i - 1], path[pos + i]);
      }
    }
    assert c[..|c| - 1] == path[pos..];
  }

  /** The invariant of the search, between any two steps. */
  ghost predicate Searching(g: Graph, color: map<string, int>, stack: seq<Frame>, path: seq<string>, done: seq<string>)
  {
    && path == Nodes(stack)
    && Distinct(path)
    && Coloring(g, color, path, done)
    && Ordered(g, done)
    && Explored(g, stack, done)
  }

  ghost predicate HasEdgeLeft(g: Graph, stack: seq<Frame>) {
    stack != [] && var top := stack[|stack| - 1]; top.node in g && top.next < |g[top.node]|
  }

  ghost function EdgesLeft(g: Graph, stack: seq<Frame>): int {
    if HasEdgeLeft(g, stack) then |g[stack[|stack| - 1].node]| - stack[|stack| - 1].next else 0
  }

  function Advanced(stack: seq<Frame>): seq<Frame>
    requires stack != []
  {
    var top := |stack| - 1;
    stack[top := stack[top].(next := stack[top].next + 1)]
  }

  lemma GrayKeepsColoring(g: Graph, color: map<string, int>, path: seq<string>, done: seq<string>, n: string)
    requires Coloring(g, color, path, done) && n in g && ColorOf(color, n) == WHITE
    ensures Coloring(g, color[n := GRAY], path + [n], done)
  {
    var color', path' := color[n := GRAY], path + [n];
    forall x
      ensures ColoredAt(g, color', path', done, x)
    {
      assert ColoredAt(g, color, path, done, x);
    }
  }

  lemma BlackKeepsColoring(g: Graph, color: map<string, int>, path: seq<string>, done: seq<string>, n: string)
    requires Coloring(g, color, path + [n], done) && n !in path
    ensures Coloring(g, color[n := BLACK], path, done + [n])
  {
    var color', done', path' := color[n := BLACK], done + [n], path + [n];
    forall x
      ensures ColoredAt(g, color', path, done', x)
    {
      assert ColoredAt(g, color, path', done, x);
    }
  }

  lemma StartKeeps(g: Graph, color: map<string, int>, done: seq<string>, start: string)
    requires Searching(g, color, [], [], done)
    requires start in g && ColorOf(color, start) == WHITE
    ensures Searching(g, color[start := GRAY], [Frame(start, 0)], [start], done)
  {
    GrayKeepsColoring(g, color, [], done, start);
    assert [] + [start] == [start];
  }

  /** Taking an edge to an unvisited node. */
  lemma PushKeeps(g: Graph, color: map<string, int>, stack: seq<Frame>, path: seq<string>, done: seq<string>)
    requires Closed(g) && Searching(g, color, stack, path, done) && HasEdgeLeft(g, stack)
    requires var top := stack[|stack| - 1]; ColorOf(color, g[top.node][top.next]) == WHITE
    ensures var top := stack[|stack| - 1];
            var next := g[top.node][top.next];
            Searching(g, color[next := GRAY], Advanced(stack) + [Frame(next, 0)], path + [next], done)
            && Whites(g, color[next := GRAY]) < Whites(g, color)
  {
    var top := stack[|stack| - 1];
    var next := g[top.node][top.next];
    assert next in Whites(g, color);
    GrayKeepsColoring(g, color, path, done, next);
    assert ColoredAt(g, color, path, done, next);
    var stack' := Advanced(stack) + [Frame(next, 0)];
    forall i: nat | i < |stack'|
      ensures FrameExplored(g, stack', done, i)
    {
      if i < |stack| {
        assert FrameExplored(g, stack, done, i);
      }
    }
  }

  /** Passing over an edge to a finished node. */
  lemma SkipKeeps(g: Graph, color: map<string, int>, stack: seq<Frame>, path: seq<string>, done: seq<string>)
    requires Searching(g, color, stack, path, done) && HasEdgeLeft(g, stack)
    requires var top := stack[|stack| - 1]; ColorOf(color, g[top.node][top.next]) == BLACK
    ensures Searching(g, color, Advanced(stack), path, done)
  {
    var stack' := Advanced(stack);
    var top := stack[|stack| - 1];
    assert ColoredAt(g, color, path, done, g[top.node][top.next]);
    assert Nodes(stack') == Nodes(stack);
    forall i: nat | i < |stack'|
      ensures FrameExplored(g, stack', done, i)
    {
      if i < |stack| {
        assert FrameExplored(g, stack, done, i);
      }
    }
  }

  /** Finishing a node whose edges are all taken. */
  lemma PopKeeps(g: Graph, color: map<string, int>, stack: seq<Frame>, path: seq<string>, done: seq<string>)
    requires Searching(g, color, stack, path, done) && stack != [] && !HasEdgeLeft(g, stack)
    ensures var top := |stack| - 1;
            var node := stack[top].node;
            Searching(g, color[node := BLACK], stack[..top], path[..top], done + [node])
            && Whites(g, color[node := BLACK]) == Whites(g, color)
  {
    var top := |stack| - 1;
    var node := stack[top].node;
    assert FrameExplored(g, stack, done, top);
    assert path[top] == node && path == path[..top] + [node];
    assert ColoredAt(g, color, path, done, node);
    assert node !in path[..top];
    assert Nodes(stack[..top]) == path[..top];
    var done' := done + [node];
    BlackKeepsColoring(g, color, path[..top], done, node);
    forall i, e | 0 <= i < |done'| && Edge(g, done'[i], e)
      ensures e in done'[..i]
    {
      if i < |done| {
        assert done'[..i] == done[..i];
      } else {
        assert done'[..i] == done;
        var j :| 0 <= j < |g[node]| && g[node][j] == e;
      }
    }
    forall i: nat | i < top
      ensures FrameExplored(g, stack[..top], done', i)
    {
      assert FrameExplored(g, stack, done, i);
    }
  }

  lemma GrayEdgeCloses(g: Graph, color: map<string, int>, stack: seq<Frame>, path: seq<string>, done: seq<string>,
                       pos: nat)
    requires Searching(g, color, stack, path, done) && HasEdgeLeft(g, stack)
    requires var top := stack[|stack| - 1]; pos < |path| && path[pos] == g[top.node][top.next]
    ensures SimpleCycle(g, path[pos..] + [path[pos]])
  {
    PathIsWalk(g, stack, done);
    CycleFromPath(g, path, pos);
  }

  /** The search over an arbitrary graph: a reported cycle is real and simple, and silence means that
      no walk of any length returns to its start. The order in which starts are tried is unspecified. */
  method DetectCycle(g: Graph) returns (cycle: Option<seq<string>>)
    requires Closed(g)
    ensures cycle.Some? ==> SimpleCycle(g, cycle.value)
    ensures cycle.None? ==> Acyclic(g)
  {
    var color: map<string, int> := map[];
    var starts := g.Keys;
    ghost var done: seq<string> := [];
    while starts != {}
      invariant starts <= g.Keys
      invariant Searching(g, color, [], [], done)
      invariant forall n :: n in g && n !in starts ==> n in done
    {
      var start :| start in starts;
      starts := starts - {start};
      assert ColoredAt(g, color, [], done, start);
      if ColorOf(color, start) != WHITE {
        continue;
      }
      StartKeeps(g, color, done, start);
      cycle, color, done := Explore(g, color, start, done);
      if cycle.Some? {
        return;
      }
    }
    forall w
      ensures !ClosedWalk(g, w)
    {
      OrderedIsAcyclic(g, done, w);
    }
    cycle := None;
  }

  /** The inner loop: everything reachable from `start` is finished, or a cycle is reported. */
  method Explore(g: Graph, colors: map<string, int>, start: string, ghost finished: seq<string>)
    returns (cycle: Option<seq<string>>, color: map<string, int>, ghost done: seq<string>)
    requires Closed(g)
    requires Searching(g, colors[start := GRAY], [Frame(start, 0)], [start], finished)
    ensures cycle.Some? ==> SimpleCycle(g, cycle.value)
    ensures cycle.None? ==> Searching(g, color, [], [], done) && finished <= done && start in done
  {
    color := colors[start := GRAY];
    done := finished;
    cycle := None;
    var stack := [Frame(start, 0)];
    var path := [start];
    while |stack| > 0
      invariant Searching(g, color, stack, path, done)
      invariant finished <= done
      invariant if stack == [] then start in done else stack[0].node == start
      decreases Whites(g, color), |stack|, EdgesLeft(g, stack)
    {
      var top := |stack| - 1;
      var Frame(node, idx) := stack[top];
      assert FrameExplored(g, stack, done, top);
      if idx < |g[node]| {
        var next := g[node][idx];
        assert ColoredAt(g, color, path, done, next);
        if ColorOf(color, next) == WHITE {
          PushKeeps(g, color, stack, path, done);
          stack := Advanced(stack);
          color := color[next := GRAY];
          stack := stack + [Frame(next, 0)];
          path := path + [next];
        } else if ColorOf(color, next) == GRAY {
          var pos := Position(path, next);
          if pos.None? {
            return;
          }
          GrayEdgeCloses(g, color, stack, path, done, pos.value);
          cycle := Some(path[pos.value..] + [next]);
          return;
        } else {
          SkipKeeps(g, color, stack, path, done);
          stack := Advanced(stack);
        }
      } else {
        PopKeeps(g, color, stack, path, done);
        color := color[node := BLACK];
        stack := stack[..top];
        path := path[..top];
        done := done + [node];
      }
    }
  }

  // --- the reference graph of the session declarations ---

  function References(s: SessionType): set<string> {
    match s
    case Send(_, c) => References(c)
    case Recv(_, c) => References(c)
    case Dual(i) => References(i)
    case Name(n) => {n}
    case End => {}
  }

  /** `referenced_names` */
  method CollectReferences(s: SessionType, out: NameSet)
    modifies out
    ensures out.names == old(out.names) + References(s)
  {
    match s
    case Send(_, c) => CollectReferences(c, out);
    case Recv(_, c) => CollectReferences(c, out);
    case Dual(i) => CollectReferences(i, out);
    case Name(n) => var _ := out.Insert(n);
    case End =>
  }

  /** `g` has one node per declaration and its edges are the references to other declarations. */
  ghost predicate ReferenceGraph(env: Env, g: Graph) {
    g.Keys == env.Keys && forall n :: n in env ==> forall e :: e in g[n] <==> e in References(env[n]) && e in env
  }

  method BuildReferences(env: Env) returns (g: Graph)
    ensures ReferenceGraph(env, g)
  {
    g := map[];
    var pending := env.Keys;
    while pending != {}
      invariant pending <= env.Keys && g.Keys == env.Keys - pending
      invariant forall n :: n in g ==> forall e :: e in g[n] <==> e in References(env[n]) && e in env
    {
      var name :| name in pending;
      pending := pending - {name};
      var names := new NameSet();
      CollectReferences(env[name], names);
      var edges := [];
      var rest := names.names;
      while rest != {}
        invariant rest <= names.names
        invariant forall e :: e in edges <==> e in names.names - rest && e in env
      {
        var n :| n in rest;
        rest := rest - {n};
        if n in env {
          edges := edges + [n];
        }
      }
      g := g[name := edges];
    }
  }

  /** A reported cycle walks over references between declarations; no report means there is none. */
  method DetectSessionCycle(env: Env) returns (cycle: Option<seq<string>>)
    ensures cycle.Some? ==> exists g :: ReferenceGraph(env, g) && SimpleCycle(g, cycle.value)
    ensures cycle.None? ==> forall g :: ReferenceGraph(env, g) ==> Acyclic(g)
  {
    var g := BuildReferences(env);
    cycle := DetectCycle(g);
    if cycle.None? {
      forall h, w | ReferenceGraph(env, h)
        ensures !ClosedWalk(h, w)
      {
        assert forall a, b :: Edge(h, a, b) <==> Edge(g, a, b);
        assert !ClosedWalk(g, w);
      }
    }
  }

  // --- what a cycle means for resolution ---

  ghost predicate AllDeclared(env: Env) {
    forall n, e :: n in env && e in References(env[n]) ==> e in env
  }

  /** A term unfolds within a depth only if every name in it does. */
  lemma {:induction false} UnfoldingNeedsNames(s: SessionType, flip: bool, env: Env, depth: nat, n: string)
    requires Unfolding(s, flip, env, depth).Some?
    requires n in References(s)
    ensures Unfolding(Name(n), false, env, depth).Some?
  {
    match s
    case Send(_, c) => UnfoldingNeedsNames(c, flip, env, depth, n);
    case Recv(_, c) => UnfoldingNeedsNames(c, flip, env, depth, n);
    case Dual(i) => UnfoldingNeedsNames(i, !flip, env, depth, n);
    case Name(_) => UnfoldingFlips(s, flip, env, depth);
  }

  lemma {:induction false} CycleNeverUnfolds(env: Env, g: Graph, c: seq<string>, i: nat, depth: nat)
    requires ReferenceGraph(env, g) && ClosedWalk(g, c) && i < |c|
    ensures Unfolding(Name(c[i]), false, env, depth).None?
    decreases depth
  {
    if Unfolding(Name(c[i]), false, env, depth).Some? {
      var next := if i == |c| - 1 then 1 else i + 1;
      assert Edge(g, c[next - 1], c[next]);
      UnfoldingNeedsNames(env[c[i]], false, env, depth - 1, c[next]);
      CycleNeverUnfolds(env, g, c, next, depth - 1);
    }
  }

  /** Every name on a cycle of references fails to resolve. */
  lemma CycleDoesNotResolve(env: Env, g: Graph, c: seq<string>)
    requires ReferenceGraph(env, g) && ClosedWalk(g, c)
    ensures forall n <- c :: Resolve(Name(n), env) == None
  {
    forall n <- c
      ensures Resolve(Name(n), env) == None
    {
      var i :| 0 <= i < |c| && c[i] == n;
      if Resolve(Name(n), env).Some? {
        ResolveInUnfolds(Name(n), env, {});
        CycleNeverUnfolds(env, g, c, i, |env.Keys - {}|);
      }
    }
  }

  ghost predicate OnPath(path: seq<string>, visiting: set<string>) {
    forall n :: n in visiting <==> n in path
  }

  lemma ClosingWalk(g: Graph, path: seq<string>, n: string)
    requires Walk(g, path) && n in path && Edge(g, path[|path| - 1], n)
    ensures exists w :: ClosedWalk(g, w)
  {
    var pos :| 0 <= pos < |path| && path[pos] == n;
    var w := path[pos..] + [n];
    forall i | 0 < i < |w|
      ensures Edge(g, w[i - 1], w[i])
    {
      if i < |w| - 1 {
        assert Edge(g, path[pos + i - 1], path[pos + i]);
      }
    }
    assert ClosedWalk(g, w);
  }

  /** Along a path of references, resolution fails only by closing the path into a cycle. */
  lemma {:induction false} AcyclicResolves(s: SessionType, env: Env, g: Graph, path: seq<string>, visiting: set<string>)
    requires ReferenceGraph(env, g) && Acyclic(g) && AllDeclared(env)
    requires Walk(g, path) && OnPath(path, visiting)
    requires forall n <- References(s) :: n in env && (path != [] ==> Edge(g, path[|path| - 1], n))
    ensures ResolveIn(s, env, visiting).Some?
    decreases env.Keys - visiting, s
  {
    match s
    case Send(_, c) => AcyclicResolves(c, env, g, path, visiting);
    case Recv(_, c) => AcyclicResolves(c, env, g, path, visiting);
    case Dual(i) => AcyclicResolves(i, env, g, path, visiting);
    case End =>
    case Name(n) =>
      if n in visiting {
        ClosingWalk(g, path, n);
      } else {
        AcyclicResolves(env[n], env, g, path + [n], visiting + {n});
      }
  }

  /** With every reference declared, all declared names resolve exactly when the references are acyclic. */
  lemma ResolvesIffAcyclic(env: Env, g: Graph)
    requires ReferenceGraph(env, g) && AllDeclared(env)
    ensures (forall n <- env :: Resolve(Name(n), env).Some?) <==> Acyclic(g)
  {
    if Acyclic(g) {
      forall n <- env
        ensures Resolve(Name(n), env).Some?
      {
        AcyclicResolves(Name(n), env, g, [], {});
      }
    } else {
      var c :| ClosedWalk(g, c);
      CycleDoesNotResolve(env, g, c);
      assert c[0] in c;
      assert Edge(g, c[0], c[1]);
      assert c[0] in env;
    }
  }
}
