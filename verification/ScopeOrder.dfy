/** In which order deferred blocks run on a path (src/codegen/scope.rs, src/codegen/block.rs). */
module ScopeOrder {
  import opened Wrappers
  import opened ScopeStacks
  import opened ScopePaths
  import opened ScopeDefers

  // --- reading a path as a stack ---

  /** A pending block, with the counts of one pointer that were retained since, less those that were released. */
  datatype Entry = Entry(d: BlockId, net: int)

  type Pending = seq<Entry>

  /** What an operation does to the strong, or the weak, counts of `x`. */
  function Delta(op: Op, weak: bool, x: Pointer): int {
    match op
    case Retain(p) => if !weak && p == x then 1 else 0
    case Release(p) => if !weak && p == x then -1 else 0
    case RetainWeak(p) => if weak && p == x then 1 else 0
    case ReleaseWeak(p) => if weak && p == x then -1 else 0
    case _ => 0
  }

  function Shifted(s: Pending, n: int): (r: Pending)
    ensures |r| == |s|
  {
    seq(|s|, i requires 0 <= i < |s| => s[i].(net := s[i].net + n))
  }

  /**
    * A path read from the front: a registration pushes its block; a run has to find its block on top, with every count
    * released that was retained since the block was registered, and pops it. None where a run does not.
    */
  function Replay(trace: seq<Op>, s: Pending, weak: bool, x: Pointer): Option<Pending> {
    if trace == [] then Some(s) else
    match trace[0]
    case Register(d) => Replay(trace[1..], s + [Entry(d, 0)], weak, x)
    case RunBlock(d) =>
      if s != [] && s[|s| - 1].d == d && s[|s| - 1].net <= 0 then Replay(trace[1..], s[..|s| - 1], weak, x) else None
    case op => Replay(trace[1..], Shifted(s, Delta(op, weak, x)), weak, x)
  }

  lemma {:induction false} ReplayAppend(a: seq<Op>, b: seq<Op>, s: Pending, weak: bool, x: Pointer)
    ensures Replay(a + b, s, weak, x)
            == match Replay(a, s, weak, x) case Some(t) => Replay(b, t, weak, x) case None => None
  {
    if a == [] {
      assert a + b == b;
    } else {
      assert (a + b)[1..] == a[1..] + b && (a + b)[0] == a[0];
      match a[0]
      case Register(d) => ReplayAppend(a[1..], b, s + [Entry(d, 0)], weak, x);
      case RunBlock(d) =>
        if s != [] && s[|s| - 1].d == d && s[|s| - 1].net <= 0 {
          ReplayAppend(a[1..], b, s[..|s| - 1], weak, x);
        }
      case op => ReplayAppend(a[1..], b, Shifted(s, Delta(op, weak, x)), weak, x);
    }
  }

  lemma ShiftedTwice(s: Pending, m: int, n: int)
    ensures Shifted(Shifted(s, m), n) == Shifted(s, m + n) && Shifted(s, 0) == s
  {
  }

  lemma ShiftedConcat(s: Pending, t: Pending, n: int)
    ensures Shifted(s + t, n) == Shifted(s, n) + Shifted(t, n)
  {
  }

  // --- cleanup ---

  /** The counts of `x` that the strong, or the weak, list holds. */
  function HeldOf(strong: seq<Pointer>, weakPs: seq<Pointer>, weak: bool, x: Pointer): nat {
    Holds(if weak then weakPs else strong, x)
  }

  lemma {:induction false} ReleasesReplay(ps: seq<Pointer>, s: Pending, weak: bool, x: Pointer)
    ensures Replay(Releases(ps), s, weak, x) == Some(Shifted(s, if weak then 0 else 0 - Holds(ps, x)))
    ensures Replay(WeakReleases(ps), s, weak, x) == Some(Shifted(s, if weak then 0 - Holds(ps, x) else 0))
  {
    if ps == [] {
      ShiftedTwice(s, 0, 0);
    } else {
      var first := if ps[0] == x then 1 else 0;
      assert ps == [ps[0]] + ps[1..];
      assert Holds(ps, x) == first + Holds(ps[1..], x);
      assert Releases(ps)[1..] == Releases(ps[1..]) && WeakReleases(ps)[1..] == WeakReleases(ps[1..]);
      var a, b := Delta(Release(ps[0]), weak, x), Delta(ReleaseWeak(ps[0]), weak, x);
      ReleasesReplay(ps[1..], Shifted(s, a), weak, x);
      ReleasesReplay(ps[1..], Shifted(s, b), weak, x);
      ShiftedTwice(s, a, if weak then 0 else 0 - Holds(ps[1..], x));
      ShiftedTwice(s, b, if weak then 0 - Holds(ps[1..], x) else 0);
    }
  }

  /** The entries are those of the pending blocks, each with at most `held` counts to be released. */
  predicate Own(own: Pending, ds: seq<BlockId>, held: int) {
    |own| == |ds| && forall i :: 0 <= i < |ds| ==> own[i].d == ds[i] && own[i].net <= held
  }

  /** The latest pending block is on top: running the blocks latest first pops them all. */
  lemma {:induction false} RunsPop(ds: seq<BlockId>, s: Pending, own: Pending, weak: bool, x: Pointer)
    requires Own(own, ds, 0)
    ensures Replay(RunLatestFirst(ds), s + own, weak, x) == Some(s)
  {
    if ds == [] {
      assert s + own == s;
    } else {
      var last := |ds| - 1;
      assert RunLatestFirst(ds)[0] == RunBlock(ds[last]);
      assert RunLatestFirst(ds)[1..] == RunLatestFirst(ds[..last]);
      assert (s + own)[..|s + own| - 1] == s + own[..last];
      RunsPop(ds[..last], s, own[..last], weak, x);
    }
  }

  lemma BothReplay(a: seq<Op>, b: seq<Op>, s: Pending, t: Pending, u: Pending, weak: bool, x: Pointer)
    requires Replay(a, s, weak, x) == Some(t) && Replay(b, t, weak, x) == Some(u)
    ensures Replay(a + b, s, weak, x) == Some(u)
  {
    ReplayAppend(a, b, s, weak, x);
  }

  lemma AllReleasesReplay(strong: seq<Pointer>, weakPs: seq<Pointer>, s: Pending, weak: bool, x: Pointer)
    ensures Replay(Releases(strong) + WeakReleases(weakPs), s, weak, x)
            == Some(Shifted(s, 0 - HeldOf(strong, weakPs, weak, x)))
  {
    var a: int := if weak then 0 else 0 - Holds(strong, x);
    var b: int := if weak then 0 - Holds(weakPs, x) else 0;
    ReleasesReplay(strong, s, weak, x);
    ReleasesReplay(weakPs, Shifted(s, a), weak, x);
    ShiftedTwice(s, a, b);
    BothReplay(Releases(strong), WeakReleases(weakPs), s, Shifted(s, a), Shifted(s, a + b), weak, x);
  }

  lemma OwnReleased(own: Pending, ds: seq<BlockId>, held: int)
    requires Own(own, ds, held)
    ensures Own(Shifted(own, 0 - held), ds, 0)
  {
  }

  lemma CleanupReplays(strong: seq<Pointer>, weakPs: seq<Pointer>, ds: seq<BlockId>, s: Pending, own: Pending,
                       weak: bool, x: Pointer)
    requires Own(own, ds, HeldOf(strong, weakPs, weak, x))
    ensures Replay(CleanupCode(strong, weakPs, ds), s + own, weak, x)
            == Some(Shifted(s, 0 - HeldOf(strong, weakPs, weak, x)))
  {
    var n: int := 0 - HeldOf(strong, weakPs, weak, x);
    AllReleasesReplay(strong, weakPs, s + own, weak, x);
    ShiftedConcat(s, own, n);
    OwnReleased(own, ds, HeldOf(strong, weakPs, weak, x));
    RunsPop(ds, Shifted(s, n), Shifted(own, n), weak, x);
    BothReplay(Releases(strong) + WeakReleases(weakPs), RunLatestFirst(ds), s + own,
               Shifted(s, n) + Shifted(own, n), Shifted(s, n), weak, x);
  }

  // --- statements ---

  function TopHeld(shared: Stack, weakScopes: Stack, weak: bool, x: Pointer): nat
    requires shared != [] && weakScopes != []
  {
    HeldOf(Top(shared), Top(weakScopes), weak, x)
  }

  lemma TopIsAmongAll(scopes: Stack, x: Pointer)
    requires scopes != []
    ensures Holds(Top(scopes), x) <= Holds(Flatten(scopes), x)
  {
  }

  /** The counts of `x` a statement adds to its scope. */
  function Added(stmt: Stmt, weak: bool, x: Pointer): nat {
    if weak then KeptWeak(stmt, x) else Kept(stmt, x)
  }

  lemma HeldAfter(stmt: Stmt, shared: Stack, weakScopes: Stack, weak: bool, x: Pointer)
    requires shared != [] && weakScopes != []
    ensures TopHeld(SharedAfter(stmt, shared), WeakAfter(stmt, weakScopes), weak, x)
            == TopHeld(shared, weakScopes, weak, x) + Added(stmt, weak, x)
  {
    SharedAfterHolds(stmt, shared, x);
    WeakAfterHolds(stmt, weakScopes, x);
  }

  /** A path reads as a stack from the blocks pending before it, and when it does not return it leaves those after. */
  predicate Leaves(o: Outcome, before: Pending, after: Pending, weak: bool, x: Pointer) {
    var r := Replay(o.trace, before, weak, x);
    r.Some? && (!o.returned ==> r.value == after)
  }

  function Registered(stmt: Stmt): Pending {
    if stmt.Defer? then [Entry(stmt.d, 0)] else []
  }

  /** The block's own pending blocks behind a statement. */
  function OwnAfter(stmt: Stmt, own: Pending, weak: bool, x: Pointer): Pending {
    Shifted(own, Added(stmt, weak, x)) + Registered(stmt)
  }

  lemma FirstThenRest(a: Outcome, b: Outcome, before: Pending, mid: Pending, after: Pending, weak: bool, x: Pointer)
    requires Leaves(a, before, mid, weak, x)
    requires !a.returned ==> Leaves(b, mid, after, weak, x)
    ensures Leaves(Followed(a, b), before, after, weak, x)
  {
    if !a.returned {
      ReplayAppend(a.trace, b.trace, before, weak, x);
    }
  }

  lemma OwnStep(stmt: Stmt, shared: Stack, weakScopes: Stack, own: Pending, ds: seq<BlockId>, weak: bool, x: Pointer)
    requires shared != [] && weakScopes != [] && Own(own, ds, TopHeld(shared, weakScopes, weak, x))
    ensures var held := TopHeld(SharedAfter(stmt, shared), WeakAfter(stmt, weakScopes), weak, x);
            && held == TopHeld(shared, weakScopes, weak, x) + Added(stmt, weak, x)
            && Own(OwnAfter(stmt, own, weak, x), ds + Deferred(stmt), held)
  {
    HeldAfter(stmt, shared, weakScopes, weak, x);
  }

  /** A path through statements of a block finds its own pending blocks on top, latest first. */
  lemma {:induction false} StmtsReplay(stmts: seq<Stmt>, shared: Stack, weakScopes: Stack, ds: seq<BlockId>,
                                       choices: seq<bool>, s: Pending, own: Pending, weak: bool, x: Pointer)
    requires shared != [] && weakScopes != [] && Own(own, ds, TopHeld(shared, weakScopes, weak, x))
    ensures Leaves(Run(StmtsCode(stmts, shared, weakScopes, ds), choices), s + own,
                   Shifted(s, 0 - TopHeld(shared, weakScopes, weak, x)), weak, x)
    decreases stmts, 1
  {
    if stmts == [] || stmts[0].Return? {
      LastReplays(stmts, shared, weakScopes, ds, choices, s, own, weak, x);
    } else {
      var a := Run(StmtCode(stmts[0], shared, weakScopes), choices);
      StmtReplays(stmts[0], shared, weakScopes, choices, s, own, weak, x);
      RestReplays(stmts, shared, weakScopes, ds, a.rest, s, own, weak, x);
      FirstThenRest(a, Run(Later(stmts, shared, weakScopes, ds), a.rest), s + own,
                    Shifted(s, Added(stmts[0], weak, x)) + OwnAfter(stmts[0], own, weak, x),
                    Shifted(s, 0 - TopHeld(shared, weakScopes, weak, x)), weak, x);
      RunFirst(stmts, shared, weakScopes, ds, choices);
    }
  }

  lemma {:induction false} RestReplays(stmts: seq<Stmt>, shared: Stack, weakScopes: Stack, ds: seq<BlockId>,
                                       rest: seq<bool>, s: Pending, own: Pending, weak: bool, x: Pointer)
    requires shared != [] && weakScopes != [] && stmts != [] && Own(own, ds, TopHeld(shared, weakScopes, weak, x))
    ensures Leaves(Run(Later(stmts, shared, weakScopes, ds), rest),
                   Shifted(s, Added(stmts[0], weak, x)) + OwnAfter(stmts[0], own, weak, x),
                   Shifted(s, 0 - TopHeld(shared, weakScopes, weak, x)), weak, x)
    decreases stmts, 0
  {
    var n := Added(stmts[0], weak, x);
    OwnStep(stmts[0], shared, weakScopes, own, ds, weak, x);
    ShiftedTwice(s, n, 0 - (TopHeld(shared, weakScopes, weak, x) + n));
    StmtsReplay(stmts[1..], SharedAfter(stmts[0], shared), WeakAfter(stmts[0], weakScopes), ds + Deferred(stmts[0]),
                rest, Shifted(s, n), OwnAfter(stmts[0], own, weak, x), weak, x);
  }

  lemma LeavesByTrace(o: Outcome, code: seq<Op>, before: Pending, after: Pending, weak: bool, x: Pointer)
    requires o.trace == code && Replay(code, before, weak, x) == Some(after)
    ensures Leaves(o, before, after, weak, x)
  {
  }

  lemma CleanupLeaves(strong: seq<Pointer>, weakPs: seq<Pointer>, ds: seq<BlockId>, o: Outcome, s: Pending,
                      own: Pending, weak: bool, x: Pointer)
    requires Own(own, ds, HeldOf(strong, weakPs, weak, x)) && o.trace == CleanupCode(strong, weakPs, ds)
    ensures Leaves(o, s + own, Shifted(s, 0 - HeldOf(strong, weakPs, weak, x)), weak, x)
  {
    CleanupReplays(strong, weakPs, ds, s, own, weak, x);
    LeavesByTrace(o, CleanupCode(strong, weakPs, ds), s + own,
                  Shifted(s, 0 - HeldOf(strong, weakPs, weak, x)), weak, x);
  }

  lemma OwnAmongAll(shared: Stack, weakScopes: Stack, ds: seq<BlockId>, own: Pending, weak: bool, x: Pointer)
    requires shared != [] && weakScopes != [] && Own(own, ds, TopHeld(shared, weakScopes, weak, x))
    ensures Own(own, ds, HeldOf(Flatten(shared), Flatten(weakScopes), weak, x))
  {
    TopIsAmongAll(shared, x);
    TopIsAmongAll(weakScopes, x);
  }

  lemma ReturnedAnyhow(o: Outcome, before: Pending, after: Pending, other: Pending, weak: bool, x: Pointer)
    requires o.returned && Leaves(o, before, other, weak, x)
    ensures Leaves(o, before, after, weak, x)
  {
  }

  lemma LastReplays(stmts: seq<Stmt>, shared: Stack, weakScopes: Stack, ds: seq<BlockId>, choices: seq<bool>,
                    s: Pending, own: Pending, weak: bool, x: Pointer)
    requires shared != [] && weakScopes != [] && (stmts == [] || stmts[0].Return?)
    requires Own(own, ds, TopHeld(shared, weakScopes, weak, x))
    ensures Leaves(Run(StmtsCode(stmts, shared, weakScopes, ds), choices), s + own,
                   Shifted(s, 0 - TopHeld(shared, weakScopes, weak, x)), weak, x)
  {
    if stmts == [] {
      EndReplays(shared, weakScopes, ds, choices, s, own, weak, x);
    } else {
      ReturnReplays(stmts, shared, weakScopes, ds, choices, s, own, weak, x);
    }
  }

  lemma EndReplays(shared: Stack, weakScopes: Stack, ds: seq<BlockId>, choices: seq<bool>,
                   s: Pending, own: Pending, weak: bool, x: Pointer)
    requires shared != [] && weakScopes != [] && Own(own, ds, TopHeld(shared, weakScopes, weak, x))
    ensures Leaves(Run(StmtsCode([], shared, weakScopes, ds), choices), s + own,
                   Shifted(s, 0 - TopHeld(shared, weakScopes, weak, x)), weak, x)
  {
    CleanupPath(Top(shared), Top(weakScopes), ds, choices);
    EndLeaves(shared, weakScopes, ds, Run(StmtsCode([], shared, weakScopes, ds), choices), s, own, weak, x);
  }

  lemma EndLeaves(shared: Stack, weakScopes: Stack, ds: seq<BlockId>, o: Outcome, s: Pending, own: Pending,
                  weak: bool, x: Pointer)
    requires shared != [] && weakScopes != [] && Own(own, ds, TopHeld(shared, weakScopes, weak, x))
    requires o.trace == CleanupCode(Top(shared), Top(weakScopes), ds)
    ensures Leaves(o, s + own, Shifted(s, 0 - TopHeld(shared, weakScopes, weak, x)), weak, x)
  {
    CleanupLeaves(Top(shared), Top(weakScopes), ds, o, s, own, weak, x);
  }

  lemma ReturnReplays(stmts: seq<Stmt>, shared: Stack, weakScopes: Stack, ds: seq<BlockId>, choices: seq<bool>,
                      s: Pending, own: Pending, weak: bool, x: Pointer)
    requires shared != [] && weakScopes != [] && stmts != [] && stmts[0].Return?
    requires Own(own, ds, TopHeld(shared, weakScopes, weak, x))
    ensures Leaves(Run(StmtsCode(stmts, shared, weakScopes, ds), choices), s + own,
                   Shifted(s, 0 - TopHeld(shared, weakScopes, weak, x)), weak, x)
  {
    CleanupPath(Flatten(shared), Flatten(weakScopes), ds, choices);
    ReturnLeaves(shared, weakScopes, ds, Run(StmtsCode(stmts, shared, weakScopes, ds), choices), s, own, weak, x);
  }

  lemma ReturnLeaves(shared: Stack, weakScopes: Stack, ds: seq<BlockId>, o: Outcome, s: Pending, own: Pending,
                     weak: bool, x: Pointer)
    requires shared != [] && weakScopes != [] && Own(own, ds, TopHeld(shared, weakScopes, weak, x))
    requires o.returned && o.trace == CleanupCode(Flatten(shared), Flatten(weakScopes), ds)
    ensures Leaves(o, s + own, Shifted(s, 0 - TopHeld(shared, weakScopes, weak, x)), weak, x)
  {
    OwnAmongAll(shared, weakScopes, ds, own, weak, x);
    CleanupLeaves(Flatten(shared), Flatten(weakScopes), ds, o, s, own, weak, x);
    ReturnedAnyhow(o, s + own, Shifted(s, 0 - TopHeld(shared, weakScopes, weak, x)),
                   Shifted(s, 0 - HeldOf(Flatten(shared), Flatten(weakScopes), weak, x)), weak, x);
  }

  lemma CleanupPath(strong: seq<Pointer>, weakPs: seq<Pointer>, ds: seq<BlockId>, choices: seq<bool>)
    ensures Run(CleanupCode(strong, weakPs, ds), choices) == Outcome(CleanupCode(strong, weakPs, ds), false, choices)
    ensures Run(CleanupCode(strong, weakPs, ds) + [Ret], choices)
            == Outcome(CleanupCode(strong, weakPs, ds), true, choices)
  {
    CleanupCounts(strong, weakPs, ds, 0);
    RunPlain(CleanupCode(strong, weakPs, ds), choices);
    CleanupRuns(strong, weakPs, ds, choices, 0);
  }

  lemma {:induction false} StmtReplays(stmt: Stmt, shared: Stack, weakScopes: Stack, choices: seq<bool>, s: Pending,
                                       own: Pending, weak: bool, x: Pointer)
    requires !stmt.Return?
    ensures Leaves(Run(StmtCode(stmt, shared, weakScopes), choices), s + own,
                   Shifted(s, Added(stmt, weak, x)) + OwnAfter(stmt, own, weak, x), weak, x)
    decreases stmt, 3
  {
    if stmt.If? || stmt.Inner? {
      var body, rest := NestedPath(stmt, shared, weakScopes, choices);
      BodyReplays(stmt, body, shared, weakScopes, rest, s, own, weak, x);
    } else {
      PlainStmtRuns(stmt, shared, weakScopes, choices, 0);
      PlainReplays(stmt, shared, weakScopes, s, own, weak, x);
      LeavesByTrace(Run(StmtCode(stmt, shared, weakScopes), choices), StmtCode(stmt, shared, weakScopes), s + own,
                    Shifted(s, Added(stmt, weak, x)) + OwnAfter(stmt, own, weak, x), weak, x);
    }
  }

  lemma {:induction false} BodyReplays(stmt: Stmt, body: seq<Stmt>, shared: Stack, weakScopes: Stack, rest: seq<bool>,
                                       s: Pending, own: Pending, weak: bool, x: Pointer)
    requires (stmt.If? || stmt.Inner?) && IsBody(stmt, body)
    ensures Leaves(Run(BlockCode(body, shared, weakScopes), rest), s + own,
                   Shifted(s, Added(stmt, weak, x)) + OwnAfter(stmt, own, weak, x), weak, x)
    decreases stmt, 2
  {
    StmtsReplay(body, shared + [[]], weakScopes + [[]], [], rest, s + own, NOTHING, weak, x);
    NestedReplays(Run(BlockCode(body, shared, weakScopes), rest), stmt, shared, weakScopes, s, own, weak, x);
  }

  const NOTHING: Pending := []

  lemma NestedReplays(o: Outcome, stmt: Stmt, shared: Stack, weakScopes: Stack, s: Pending, own: Pending, weak: bool,
                      x: Pointer)
    requires stmt.If? || stmt.Inner?
    requires Leaves(o, s + own + NOTHING,
                    Shifted(s + own, 0 - TopHeld(shared + [[]], weakScopes + [[]], weak, x)), weak, x)
    ensures Leaves(o, s + own, Shifted(s, Added(stmt, weak, x)) + OwnAfter(stmt, own, weak, x), weak, x)
  {
    NothingHeld(shared, weakScopes, weak, x);
    NothingAdded(s, own);
  }

  lemma NothingHeld(shared: Stack, weakScopes: Stack, weak: bool, x: Pointer)
    ensures TopHeld(shared + [[]], weakScopes + [[]], weak, x) == 0
  {
    assert Top(shared + [[]]) == [] && Top(weakScopes + [[]]) == [];
  }

  lemma NothingAdded(s: Pending, own: Pending)
    ensures s + own + NOTHING == s + own == Shifted(s + own, 0) == Shifted(s, 0) + (Shifted(own, 0) + NOTHING)
  {
  }

  lemma PlainReplays(stmt: Stmt, shared: Stack, weakScopes: Stack, s: Pending, own: Pending, weak: bool, x: Pointer)
    requires !stmt.If? && !stmt.Inner?
    ensures Replay(StmtCode(stmt, shared, weakScopes), s + own, weak, x)
            == Some(Shifted(s, Added(stmt, weak, x)) + OwnAfter(stmt, own, weak, x))
  {
    var n := Added(stmt, weak, x);
    ShiftedConcat(s, own, n);
    ShiftedTwice(s + own, 0, 0);
    var code := StmtCode(stmt, shared, weakScopes);
    if code != [] {
      assert code == [code[0]] && code[1..] == [];
      assert Replay([], s + own + Registered(stmt), weak, x) == Some(s + own + Registered(stmt));
    }
    assert Shifted(s, n) + (Shifted(own, n) + Registered(stmt)) == Shifted(s + own, n) + Registered(stmt);
    assert Shifted(s + own, n) + [] == Shifted(s + own, n);
  }

  // --- a function body ---

  /** How often a block is pending. */
  function PendingTimes(s: Pending, d: BlockId): nat {
    if s == [] then 0 else PendingTimes(s[..|s| - 1], d) + if s[|s| - 1].d == d then 1 else 0
  }

  lemma {:induction false} ShiftKeepsPending(s: Pending, n: int, d: BlockId)
    ensures PendingTimes(Shifted(s, n), d) == PendingTimes(s, d)
  {
    if s != [] {
      assert Shifted(s, n)[..|s| - 1] == Shifted(s[..|s| - 1], n);
      ShiftKeepsPending(s[..|s| - 1], n, d);
    }
  }

  lemma {:induction false} ReplayCounts(trace: seq<Op>, s: Pending, weak: bool, x: Pointer, d: BlockId)
    requires Replay(trace, s, weak, x).Some?
    ensures PendingTimes(Replay(trace, s, weak, x).value, d) + Times(trace, RunBlock(d))
            == PendingTimes(s, d) + Times(trace, Register(d))
  {
    if trace != [] {
      assert trace == [trace[0]] + trace[1..];
      TimesAppend([trace[0]], trace[1..], RunBlock(d));
      TimesAppend([trace[0]], trace[1..], Register(d));
      match trace[0]
      case Register(e) =>
        assert (s + [Entry(e, 0)])[..|s|] == s;
        ReplayCounts(trace[1..], s + [Entry(e, 0)], weak, x, d);
      case RunBlock(e) => ReplayCounts(trace[1..], s[..|s| - 1], weak, x, d);
      case op =>
        ShiftKeepsPending(s, Delta(op, weak, x), d);
        ReplayCounts(trace[1..], Shifted(s, Delta(op, weak, x)), weak, x, d);
    }
  }

  /**
    * On every path through a function body, deferred blocks run latest first, each after the counts that were retained
    * since it was registered are released; on a path that falls through, and on every path of a covered body, none is
    * left over.
    */
  lemma DefersRunLatestFirst(body: seq<Stmt>, choices: seq<bool>, weak: bool, x: Pointer)
    ensures var o := Run(BlockCode(body, [], []), choices);
            && Replay(o.trace, [], weak, x).Some?
            && (!o.returned || Covered(body, false) ==> Replay(o.trace, [], weak, x) == Some([]))
  {
    StmtsReplay(body, [] + [[]], [] + [[]], [], choices, NOTHING, NOTHING, weak, x);
    assert NOTHING + NOTHING == NOTHING;
    var o := Run(BlockCode(body, [], []), choices);
    if o.returned && Covered(body, false) {
      NoneLeft(o.trace, body, choices, weak, x);
    }
  }

  lemma NoneLeft(trace: seq<Op>, body: seq<Stmt>, choices: seq<bool>, weak: bool, x: Pointer)
    requires trace == Run(BlockCode(body, [], []), choices).trace && Covered(body, false)
    requires Replay(trace, NOTHING, weak, x).Some?
    ensures Replay(trace, NOTHING, weak, x) == Some(NOTHING)
  {
    var left := Replay(trace, NOTHING, weak, x).value;
    if left != [] {
      var d := left[|left| - 1].d;
      DefersRunExactlyWhenCovered(body);
      assert RunsAll(Run(BlockCode(body, [], []), choices).trace, d, 0);
      ReplayCounts(trace, NOTHING, weak, x, d);
    }
  }

  /** Two blocks deferred one after the other run in reverse. */
  lemma TwoDefersRunInReverse(a: BlockId, b: BlockId)
    ensures BlockCode([Defer(a), Defer(b)], [], []) == [Register(a), Register(b), RunBlock(b), RunBlock(a)]
  {
    var stmts := [Defer(a), Defer(b)];
    assert stmts[1..] == [Defer(b)] && stmts[1..][1..] == [];
    var none: Stack := [];
    var one := none + [[]];
    assert BlockCode(stmts, [], []) == StmtsCode(stmts, one, one, []);
    assert StmtsCode(stmts, one, one, []) == [Register(a)] + StmtsCode([Defer(b)], one, one, [] + [a]);
    assert StmtsCode([Defer(b)], one, one, [a]) == [Register(b)] + StmtsCode([], one, one, [a] + [b]);
    assert StmtsCode([], one, one, [a, b]) == [RunBlock(b), RunBlock(a)];
  }

  /** A block deferred behind a shared value runs when the value's count has been released. */
  lemma DeferRunsAfterRelease(p: Pointer, d: BlockId)
    ensures BlockCode([Share(p), Defer(d)], [], []) == [Retain(p), Register(d), Release(p), RunBlock(d)]
  {
    var stmts := [Share(p), Defer(d)];
    assert stmts[1..] == [Defer(d)] && stmts[1..][1..] == [];
    var none: Stack := [];
    var one := none + [[]];
    var two := PushedOnTop(one, p);
    assert two == [[] + [p]] && Top(two) == [p];
    assert BlockCode(stmts, [], []) == StmtsCode(stmts, one, one, []);
    assert StmtsCode(stmts, one, one, []) == [Retain(p)] + StmtsCode([Defer(d)], two, one, [] + []);
    assert StmtsCode([Defer(d)], two, one, []) == [Register(d)] + StmtsCode([], two, one, [] + [d]);
    assert StmtsCode([], two, one, [d]) == [Release(p), RunBlock(d)];
  }
}
