/** On which paths every deferred block runs (src/codegen/scope.rs, src/codegen/block.rs). */
module ScopeDefers {
  import opened ScopeStacks
  import opened ScopePaths

  // --- what a block can do ---

  /** Some path through the statements reaches their end. */
  predicate MayFall(stmts: seq<Stmt>)
    decreases stmts, 0
  {
    stmts == [] || (StmtMayFall(stmts[0]) && MayFall(stmts[1..]))
  }

  predicate StmtMayFall(stmt: Stmt)
    decreases stmt, 1
  {
    match stmt
    case If(thenBlock, elseBlock) => MayFall(thenBlock) || MayFall(elseBlock)
    case Inner(body) => MayFall(body)
    case Return => false
    case _ => true
  }

  /** Some path through the statements returns. */
  predicate MayReturn(stmts: seq<Stmt>)
    decreases stmts, 0
  {
    stmts != [] && (StmtMayReturn(stmts[0]) || (StmtMayFall(stmts[0]) && MayReturn(stmts[1..])))
  }

  predicate StmtMayReturn(stmt: Stmt)
    decreases stmt, 1
  {
    match stmt
    case If(thenBlock, elseBlock) => MayReturn(thenBlock) || MayReturn(elseBlock)
    case Inner(body) => MayReturn(body)
    case Return => true
    case _ => false
  }

  /**
    * No reachable return sits in a nested block while the block around it has deferred blocks pending. `pending` says
    * whether the statements start with some.
    */
  predicate Covered(stmts: seq<Stmt>, pending: bool)
    decreases stmts, 0
  {
    stmts == [] || stmts[0].Return?
    || (StmtCovered(stmts[0], pending) && (StmtMayFall(stmts[0]) ==> Covered(stmts[1..], pending || stmts[0].Defer?)))
  }

  predicate StmtCovered(stmt: Stmt, pending: bool)
    decreases stmt, 1
  {
    match stmt
    case If(thenBlock, elseBlock) =>
      && Covered(thenBlock, false) && Covered(elseBlock, false)
      && (pending ==> !MayReturn(thenBlock) && !MayReturn(elseBlock))
    case Inner(body) => Covered(body, false) && (pending ==> !MayReturn(body))
    case _ => true
  }

  // --- what a path does ---

  /** Runs of a deferred block against its registrations and what was pending before. */
  predicate RunsAll(trace: seq<Op>, x: BlockId, owed: nat) {
    Times(trace, RunBlock(x)) == Times(trace, Register(x)) + owed
  }

  predicate RunsAtMost(trace: seq<Op>, x: BlockId, owed: nat) {
    Times(trace, RunBlock(x)) <= Times(trace, Register(x)) + owed
  }

  lemma CleanupRuns(strong: seq<Pointer>, weak: seq<Pointer>, ds: seq<BlockId>, choices: seq<bool>, x: BlockId)
    ensures var o := Run(CleanupCode(strong, weak, ds), choices);
      !o.returned && o.rest == choices && RunsAll(o.trace, x, Holds(ds, x))
    ensures Run(CleanupCode(strong, weak, ds) + [Ret], choices) == Outcome(CleanupCode(strong, weak, ds), true, choices)
  {
    CleanupCounts(strong, weak, ds, x);
    CleanupReleases(strong, weak, ds, choices, x);
    RunPlain(CleanupCode(strong, weak, ds), choices);
    RunAppend(CleanupCode(strong, weak, ds), [Ret], choices);
  }

  lemma PlainStmtRuns(stmt: Stmt, shared: Stack, weak: Stack, choices: seq<bool>, x: BlockId)
    requires !stmt.If? && !stmt.Inner?
    ensures Run(StmtCode(stmt, shared, weak), choices) == Outcome(StmtCode(stmt, shared, weak), false, choices)
    ensures Times(StmtCode(stmt, shared, weak), RunBlock(x)) == 0
    ensures Times(StmtCode(stmt, shared, weak), Register(x)) == Holds(Deferred(stmt), x)
  {
    PlainStmtKeeps(stmt, shared, weak, x);
    RunPlain(StmtCode(stmt, shared, weak), choices);
  }

  /** A first path that does not return, then a second one that owes what the first left pending. */
  lemma PathsAdd(a: seq<Op>, b: seq<Op>, x: BlockId, ds: seq<BlockId>, more: seq<BlockId>)
    requires Times(a, RunBlock(x)) + Holds(more, x) == Times(a, Register(x))
    ensures RunsAtMost(b, x, Holds(ds + more, x)) <==> RunsAtMost(a + b, x, Holds(ds, x))
    ensures RunsAll(b, x, Holds(ds + more, x)) <==> RunsAll(a + b, x, Holds(ds, x))
  {
    TimesAppend(a, b, RunBlock(x));
    TimesAppend(a, b, Register(x));
    assert Holds(ds + more, x) == Holds(ds, x) + Holds(more, x);
  }

  /** The code after the first statement. */
  function Later(stmts: seq<Stmt>, shared: Stack, weak: Stack, ds: seq<BlockId>): seq<Op>
    requires stmts != [] && shared != [] && weak != []
  {
    StmtsCode(stmts[1..], SharedAfter(stmts[0], shared), WeakAfter(stmts[0], weak), ds + Deferred(stmts[0]))
  }

  lemma RunFirst(stmts: seq<Stmt>, shared: Stack, weak: Stack, ds: seq<BlockId>, choices: seq<bool>)
    requires stmts != [] && !stmts[0].Return? && shared != [] && weak != []
    ensures var a := Run(StmtCode(stmts[0], shared, weak), choices);
      Run(StmtsCode(stmts, shared, weak, ds), choices) == Followed(a, Run(Later(stmts, shared, weak, ds), a.rest))
  {
    RunAppend(StmtCode(stmts[0], shared, weak), Later(stmts, shared, weak, ds), choices);
  }

  /** The verdict on a path, given its balance. */
  predicate Sound(o: Outcome, x: BlockId, owed: nat) {
    RunsAtMost(o.trace, x, owed) && (!o.returned ==> RunsAll(o.trace, x, owed))
  }

  predicate StmtSound(o: Outcome, x: BlockId, more: seq<BlockId>) {
    && (o.returned ==> RunsAtMost(o.trace, x, 0) && more == [])
    && (!o.returned ==> Times(o.trace, RunBlock(x)) + Holds(more, x) == Times(o.trace, Register(x)))
  }

  lemma FollowedSound(a: Outcome, b: Outcome, x: BlockId, ds: seq<BlockId>, more: seq<BlockId>)
    requires StmtSound(a, x, more) && (!a.returned ==> Sound(b, x, Holds(ds + more, x)))
    ensures Sound(Followed(a, b), x, Holds(ds, x))
  {
    if !a.returned {
      PathsAdd(a.trace, b.trace, x, ds, more);
    }
  }

  lemma LastRuns(stmts: seq<Stmt>, shared: Stack, weak: Stack, ds: seq<BlockId>, choices: seq<bool>, x: BlockId)
    requires shared != [] && weak != [] && (stmts == [] || stmts[0].Return?)
    ensures var o := Run(StmtsCode(stmts, shared, weak, ds), choices);
      o.returned == (stmts != []) && o.rest == choices && RunsAll(o.trace, x, Holds(ds, x))
    ensures Sound(Run(StmtsCode(stmts, shared, weak, ds), choices), x, Holds(ds, x))
  {
    if stmts == [] {
      CleanupRuns(Top(shared), Top(weak), ds, choices, x);
    } else {
      CleanupRuns(Flatten(shared), Flatten(weak), ds, choices, x);
      CleanupCounts(Flatten(shared), Flatten(weak), ds, x);
    }
  }

  /** No path runs a deferred block more often than it was registered; one that falls through runs each exactly so. */
  lemma {:induction false} StmtsRun(stmts: seq<Stmt>, shared: Stack, weak: Stack, ds: seq<BlockId>,
                                    choices: seq<bool>, x: BlockId)
    requires shared != [] && weak != []
    ensures Sound(Run(StmtsCode(stmts, shared, weak, ds), choices), x, Holds(ds, x))
    decreases stmts, 0
  {
    if stmts == [] || stmts[0].Return? {
      LastRuns(stmts, shared, weak, ds, choices, x);
    } else {
      var a := Run(StmtCode(stmts[0], shared, weak), choices);
      RunFirst(stmts, shared, weak, ds, choices);
      StmtRuns(stmts[0], shared, weak, choices, x);
      StmtsRun(stmts[1..], SharedAfter(stmts[0], shared), WeakAfter(stmts[0], weak),
               ds + Deferred(stmts[0]), a.rest, x);
      FollowedSound(a, Run(Later(stmts, shared, weak, ds), a.rest), x, ds, Deferred(stmts[0]));
    }
  }

  lemma {:induction false} BlockRuns(block: seq<Stmt>, shared: Stack, weak: Stack, choices: seq<bool>, x: BlockId)
    ensures Sound(Run(BlockCode(block, shared, weak), choices), x, 0)
    decreases block, 1
  {
    StmtsRun(block, shared + [[]], weak + [[]], [], choices, x);
  }

  lemma {:induction false} StmtRuns(stmt: Stmt, shared: Stack, weak: Stack, choices: seq<bool>, x: BlockId)
    requires !stmt.Return?
    ensures StmtSound(Run(StmtCode(stmt, shared, weak), choices), x, Deferred(stmt))
    decreases stmt, 2
  {
    if stmt.If? || stmt.Inner? {
      var body, rest := NestedPath(stmt, shared, weak, choices);
      BlockRuns(body, shared, weak, rest, x);
    } else {
      PlainStmtRuns(stmt, shared, weak, choices, x);
    }
  }

  // --- the static answers are exact ---

  lemma {:induction false} StmtsCan(stmts: seq<Stmt>, shared: Stack, weak: Stack, ds: seq<BlockId>, choices: seq<bool>)
    requires shared != [] && weak != []
    ensures if Run(StmtsCode(stmts, shared, weak, ds), choices).returned then MayReturn(stmts) else MayFall(stmts)
    decreases stmts, 0
  {
    if stmts == [] || stmts[0].Return? {
      LastRuns(stmts, shared, weak, ds, choices, 0);
    } else {
      RunFirst(stmts, shared, weak, ds, choices);
      StmtCan(stmts[0], shared, weak, choices);
      StmtsCan(stmts[1..], SharedAfter(stmts[0], shared), WeakAfter(stmts[0], weak), ds + Deferred(stmts[0]),
               Run(StmtCode(stmts[0], shared, weak), choices).rest);
    }
  }

  lemma {:induction false} StmtCan(stmt: Stmt, shared: Stack, weak: Stack, choices: seq<bool>)
    requires !stmt.Return?
    ensures if Run(StmtCode(stmt, shared, weak), choices).returned then StmtMayReturn(stmt) else StmtMayFall(stmt)
    decreases stmt, 2
  {
    if stmt.If? || stmt.Inner? {
      var body, rest := NestedPath(stmt, shared, weak, choices);
      StmtsCan(body, shared + [[]], weak + [[]], [], rest);
    } else {
      PlainStmtRuns(stmt, shared, weak, choices, 0);
    }
  }

  /** Choices that lead through the statements to their end, leaving the given ones over. */
  lemma {:induction false} FallWitness(stmts: seq<Stmt>, shared: Stack, weak: Stack, ds: seq<BlockId>, rest: seq<bool>)
    returns (choices: seq<bool>)
    requires shared != [] && weak != [] && MayFall(stmts)
    ensures var o := Run(StmtsCode(stmts, shared, weak, ds), choices);
      !o.returned && o.rest == rest
    decreases stmts, 0
  {
    if stmts == [] {
      choices := rest;
      LastRuns(stmts, shared, weak, ds, choices, 0);
    } else {
      var later := FallWitness(stmts[1..], SharedAfter(stmts[0], shared), WeakAfter(stmts[0], weak),
                               ds + Deferred(stmts[0]), rest);
      choices := StmtFallWitness(stmts[0], shared, weak, later);
      RunFirst(stmts, shared, weak, ds, choices);
    }
  }

  lemma {:induction false} StmtFallWitness(stmt: Stmt, shared: Stack, weak: Stack, rest: seq<bool>)
    returns (choices: seq<bool>)
    requires StmtMayFall(stmt)
    ensures var o := Run(StmtCode(stmt, shared, weak), choices);
      !o.returned && o.rest == rest
    decreases stmt, 2
  {
    if stmt.If? {
      var first := MayFall(stmt.thenBlock);
      var inner := FallWitness(if first then stmt.thenBlock else stmt.elseBlock, shared + [[]], weak + [[]], [], rest);
      choices := [first] + inner;
      EnterIf(stmt, shared, weak, first, inner);
    } else if stmt.Inner? {
      choices := FallWitness(stmt.body, shared + [[]], weak + [[]], [], rest);
    } else {
      choices := rest;
      PlainStmtRuns(stmt, shared, weak, choices, 0);
    }
  }

  lemma EnterIf(stmt: Stmt, shared: Stack, weak: Stack, first: bool, inner: seq<bool>)
    requires stmt.If?
    ensures Run(StmtCode(stmt, shared, weak), [first] + inner)
      == Run(BlockCode(if first then stmt.thenBlock else stmt.elseBlock, shared, weak), inner)
  {
    OneBranch(BlockCode(stmt.thenBlock, shared, weak), BlockCode(stmt.elseBlock, shared, weak), [first] + inner);
    assert ([first] + inner)[1..] == inner;
  }

  /** Choices that lead to a return. */
  lemma {:induction false} ReturnWitness(stmts: seq<Stmt>, shared: Stack, weak: Stack, ds: seq<BlockId>)
    returns (choices: seq<bool>)
    requires shared != [] && weak != [] && MayReturn(stmts)
    ensures Run(StmtsCode(stmts, shared, weak, ds), choices).returned
    decreases stmts, 0
  {
    if stmts[0].Return? {
      choices := [];
      LastRuns(stmts, shared, weak, ds, choices, 0);
    } else {
      if StmtMayReturn(stmts[0]) {
        choices := StmtReturnWitness(stmts[0], shared, weak);
      } else {
        var later := ReturnWitness(stmts[1..], SharedAfter(stmts[0], shared), WeakAfter(stmts[0], weak),
                                   ds + Deferred(stmts[0]));
        choices := StmtFallWitness(stmts[0], shared, weak, later);
      }
      RunFirst(stmts, shared, weak, ds, choices);
    }
  }

  lemma {:induction false} StmtReturnWitness(stmt: Stmt, shared: Stack, weak: Stack) returns (choices: seq<bool>)
    requires StmtMayReturn(stmt) && !stmt.Return?
    ensures Run(StmtCode(stmt, shared, weak), choices).returned
    decreases stmt, 2
  {
    if stmt.If? {
      var first := MayReturn(stmt.thenBlock);
      var inner := ReturnWitness(if first then stmt.thenBlock else stmt.elseBlock, shared + [[]], weak + [[]], []);
      choices := [first] + inner;
      EnterIf(stmt, shared, weak, first, inner);
    } else {
      choices := ReturnWitness(stmt.body, shared + [[]], weak + [[]], []);
    }
  }

  // --- deferred blocks run on every path exactly when they are covered ---

  lemma {:induction false} CoveredRuns(stmts: seq<Stmt>, pending: bool, shared: Stack, weak: Stack, ds: seq<BlockId>,
                                       choices: seq<bool>, x: BlockId)
    requires shared != [] && weak != [] && Covered(stmts, pending) && (ds != [] ==> pending)
    ensures RunsAll(Run(StmtsCode(stmts, shared, weak, ds), choices).trace, x, Holds(ds, x))
    decreases stmts, 0
  {
    if stmts == [] || stmts[0].Return? {
      LastRuns(stmts, shared, weak, ds, choices, x);
    } else {
      var a := Run(StmtCode(stmts[0], shared, weak), choices);
      RunFirst(stmts, shared, weak, ds, choices);
      StmtRuns(stmts[0], shared, weak, choices, x);
      StmtCan(stmts[0], shared, weak, choices);
      if a.returned {
        NestedCovered(stmts[0], pending, shared, weak, choices, x);
      } else {
        CoveredRuns(stmts[1..], pending || stmts[0].Defer?, SharedAfter(stmts[0], shared), WeakAfter(stmts[0], weak),
                    ds + Deferred(stmts[0]), a.rest, x);
        PathsAdd(a.trace, Run(Later(stmts, shared, weak, ds), a.rest).trace, x, ds, Deferred(stmts[0]));
      }
    }
  }

  // A covered statement that returns had nothing pending around it.
  lemma {:induction false} NestedCovered(stmt: Stmt, pending: bool, shared: Stack, weak: Stack, choices: seq<bool>,
                                        x: BlockId)
    requires StmtCovered(stmt, pending) && !stmt.Return? && Run(StmtCode(stmt, shared, weak), choices).returned
    ensures !pending && RunsAll(Run(StmtCode(stmt, shared, weak), choices).trace, x, 0)
    decreases stmt, 2
  {
    if stmt.If? || stmt.Inner? {
      var body, rest := NestedPath(stmt, shared, weak, choices);
      StmtsCan(body, shared + [[]], weak + [[]], [], rest);
      CoveredRuns(body, false, shared + [[]], weak + [[]], [], rest, x);
    } else {
      PlainStmtRuns(stmt, shared, weak, choices, x);
    }
  }

  /** Statements that are not covered have a path on which some deferred block is skipped. */
  lemma {:induction false} LossWitness(stmts: seq<Stmt>, pending: bool, shared: Stack, weak: Stack, ds: seq<BlockId>)
    returns (choices: seq<bool>, x: BlockId)
    requires shared != [] && weak != [] && !Covered(stmts, pending) && (pending ==> ds != [])
    ensures !RunsAll(Run(StmtsCode(stmts, shared, weak, ds), choices).trace, x, Holds(ds, x))
    decreases stmts, 0
  {
    var stmt := stmts[0];
    if !StmtCovered(stmt, pending) {
      choices, x := StmtLossWitness(stmt, pending, shared, weak, ds);
      RunFirst(stmts, shared, weak, ds, choices);
    } else {
      var later;
      later, x := LossWitness(stmts[1..], pending || stmt.Defer?, SharedAfter(stmt, shared), WeakAfter(stmt, weak),
                              ds + Deferred(stmt));
      choices := StmtFallWitness(stmt, shared, weak, later);
      RunFirst(stmts, shared, weak, ds, choices);
      StmtRuns(stmt, shared, weak, choices, x);
      PathsAdd(Run(StmtCode(stmt, shared, weak), choices).trace, Run(Later(stmts, shared, weak, ds), later).trace,
               x, ds, Deferred(stmt));
    }
  }

  lemma {:induction false} StmtLossWitness(stmt: Stmt, pending: bool, shared: Stack, weak: Stack, ds: seq<BlockId>)
    returns (choices: seq<bool>, x: BlockId)
    requires !StmtCovered(stmt, pending) && (pending ==> ds != [])
    ensures var o := Run(StmtCode(stmt, shared, weak), choices);
      o.returned && !RunsAll(o.trace, x, Holds(ds, x))
    decreases stmt, 2
  {
    var first :=
      stmt.If? && (!Covered(stmt.thenBlock, false) || (Covered(stmt.elseBlock, false) && MayReturn(stmt.thenBlock)));
    var body := if stmt.Inner? then stmt.body else if first then stmt.thenBlock else stmt.elseBlock;
    var inner: seq<bool>;
    if !Covered(body, false) {
      inner, x := LossWitness(body, false, shared + [[]], weak + [[]], []);
    } else {
      inner := ReturnWitness(body, shared + [[]], weak + [[]], []);
      x := ds[0];
    }
    BlockRuns(body, shared, weak, inner, x);
    choices := if stmt.If? then [first] + inner else inner;
    if stmt.If? {
      EnterIf(stmt, shared, weak, first, inner);
    }
  }

  /**
    * On every path through a function body each deferred block runs exactly as often as it was registered, if and only
    * if no reachable return sits in a nested block while the block around it has deferred blocks pending.
    */
  lemma DefersRunExactlyWhenCovered(body: seq<Stmt>)
    ensures Covered(body, false)
      <==> forall choices: seq<bool>, x: BlockId :: RunsAll(Run(BlockCode(body, [], []), choices).trace, x, 0)
  {
    if Covered(body, false) {
      forall choices: seq<bool>, x: BlockId ensures RunsAll(Run(BlockCode(body, [], []), choices).trace, x, 0) {
        CoveredRuns(body, false, [] + [[]], [] + [[]], [], choices, x);
      }
    } else {
      var choices, x := LossWitness(body, false, [] + [[]], [] + [[]], []);
      assert !RunsAll(Run(BlockCode(body, [], []), choices).trace, x, 0);
    }
  }

  /** A block deferred ahead of an early return in a nested block is skipped on that path. */
  lemma EarlyReturnSkipsDefer(d: BlockId)
    ensures var body := [Defer(d), If([Return], [])];
      !Covered(body, false) && exists choices, x :: !RunsAll(Run(BlockCode(body, [], []), choices).trace, x, 0)
  {
    var body := [Defer(d), If([Return], [])];
    assert body[1..] == [If([Return], [])];
    assert MayReturn([Return]);
    assert !StmtCovered(If([Return], []), true);
    DefersRunExactlyWhenCovered(body);
  }
}
