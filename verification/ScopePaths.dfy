/** Every path releases each count exactly once (src/codegen/scope.rs, src/codegen/block.rs). */
module ScopePaths {
  import opened ScopeStacks

  // --- paths ---

  /** A path through some code: what it performed, whether it returned, and the branch choices left over. */
  datatype Outcome = Outcome(trace: seq<Op>, returned: bool, rest: seq<bool>)

  /** The path that takes the given choices in order, `else` once they run out. */
  function Run(code: seq<Op>, choices: seq<bool>): Outcome
    decreases code
  {
    if code == [] then Outcome([], false, choices)
    else
      var first := RunOne(code[0], choices);
      Followed(first, Run(code[1..], first.rest))
  }

  function RunOne(op: Op, choices: seq<bool>): Outcome
    decreases op
  {
    match op
    case Ret => Outcome([], true, choices)
    case Branch(thenCode, elseCode) =>
      Run(if choices != [] && choices[0] then thenCode else elseCode, if choices == [] then [] else choices[1..])
    case _ => Outcome([op], false, choices)
  }

  /** One outcome, then the next, which does not happen after a return. */
  function Followed(first: Outcome, second: Outcome): Outcome {
    if first.returned then first else Outcome(first.trace + second.trace, second.returned, second.rest)
  }

  lemma FollowedAssociates(a: Outcome, b: Outcome, c: Outcome)
    ensures Followed(Followed(a, b), c) == Followed(a, Followed(b, c))
  {
    assert a.trace + b.trace + c.trace == a.trace + (b.trace + c.trace);
  }

  predicate Plain(code: seq<Op>) {
    forall i :: 0 <= i < |code| ==> !code[i].Branch? && !code[i].Ret?
  }

  lemma {:induction false} RunPlain(code: seq<Op>, choices: seq<bool>)
    requires Plain(code)
    ensures Run(code, choices) == Outcome(code, false, choices)
  {
    if code != [] {
      assert Plain(code[1..]);
      RunPlain(code[1..], choices);
      assert code == [code[0]] + code[1..];
    }
  }

  lemma {:induction false} RunAppend(first: seq<Op>, second: seq<Op>, choices: seq<bool>)
    ensures var a := Run(first, choices);
      Run(first + second, choices) == Followed(a, Run(second, a.rest))
    decreases first
  {
    if first == [] {
      assert first + second == second;
    } else {
      assert (first + second)[1..] == first[1..] + second;
      var a := RunOne(first[0], choices);
      RunAppend(first[1..], second, a.rest);
      var b := Run(first[1..], a.rest);
      FollowedAssociates(a, b, Run(second, b.rest));
    }
  }

  // --- counting ---

  function Times(trace: seq<Op>, op: Op): nat {
    multiset(trace)[op]
  }

  lemma TimesAppend(a: seq<Op>, b: seq<Op>, op: Op)
    ensures Times(a + b, op) == Times(a, op) + Times(b, op)
  {
  }

  function Holds(ps: seq<nat>, p: nat): nat {
    multiset(ps)[p]
  }

  lemma {:induction false} CleanupCounts(strong: seq<Pointer>, weak: seq<Pointer>, ds: seq<BlockId>, x: nat)
    ensures var code := CleanupCode(strong, weak, ds);
      && Plain(code)
      && Times(code, Release(x)) == Holds(strong, x) && Times(code, ReleaseWeak(x)) == Holds(weak, x)
      && Times(code, RunBlock(x)) == Holds(ds, x)
      && Times(code, Retain(x)) == 0 && Times(code, RetainWeak(x)) == 0 && Times(code, Register(x)) == 0
  {
    ReleaseCounts(strong, x);
    WeakReleaseCounts(weak, x);
    RunCounts(ds, x);
  }

  lemma {:induction false} ReleaseCounts(ps: seq<Pointer>, x: nat)
    ensures Times(Releases(ps), Release(x)) == Holds(ps, x)
    ensures forall op: Op :: !op.Release? ==> Times(Releases(ps), op) == 0
  {
    if ps != [] {
      var last := |ps| - 1;
      ReleaseCounts(ps[..last], x);
      assert Releases(ps) == Releases(ps[..last]) + [Release(ps[last])];
      assert ps == ps[..last] + [ps[last]];
    }
  }

  lemma {:induction false} WeakReleaseCounts(ps: seq<Pointer>, x: nat)
    ensures Times(WeakReleases(ps), ReleaseWeak(x)) == Holds(ps, x)
    ensures forall op: Op :: !op.ReleaseWeak? ==> Times(WeakReleases(ps), op) == 0
  {
    if ps != [] {
      var last := |ps| - 1;
      WeakReleaseCounts(ps[..last], x);
      assert WeakReleases(ps) == WeakReleases(ps[..last]) + [ReleaseWeak(ps[last])];
      assert ps == ps[..last] + [ps[last]];
    }
  }

  lemma {:induction false} RunCounts(ds: seq<BlockId>, x: nat)
    ensures Times(RunLatestFirst(ds), RunBlock(x)) == Holds(ds, x)
    ensures forall op: Op :: !op.RunBlock? ==> Times(RunLatestFirst(ds), op) == 0
  {
    if ds != [] {
      var last := |ds| - 1;
      RunCounts(ds[..last], x);
      assert RunLatestFirst(ds) == [RunBlock(ds[last])] + RunLatestFirst(ds[..last]);
      assert ds == ds[..last] + [ds[last]];
    }
  }

  // --- ownership counts ---

  /** Per pointer: the path released what it retained, and also what it owed when it started. */
  predicate Released(trace: seq<Op>, x: Pointer, strongOwed: nat, weakOwed: nat) {
    && Times(trace, Release(x)) == Times(trace, Retain(x)) + strongOwed
    && Times(trace, ReleaseWeak(x)) == Times(trace, RetainWeak(x)) + weakOwed
  }

  lemma PushKeepsOthers(scopes: Stack, p: Pointer, x: Pointer)
    requires scopes != []
    ensures var one := if p == x then 1 else 0;
      && Holds(Flatten(PushedOnTop(scopes, p)), x) == Holds(Flatten(scopes), x) + one
      && Holds(Top(PushedOnTop(scopes, p)), x) == Holds(Top(scopes), x) + one
  {
    var pushed := PushedOnTop(scopes, p);
    assert pushed[..|pushed| - 1] == scopes[..|scopes| - 1];
    assert Flatten(pushed) == Flatten(scopes) + [p];
  }

  lemma EmptyScopeHoldsNothing(scopes: Stack)
    ensures Flatten(scopes + [[]]) == Flatten(scopes) && Top(scopes + [[]]) == []
  {
    assert (scopes + [[]])[..|scopes|] == scopes;
  }

  /**
    * Every path through a block: one that returns releases every count of the enclosing scopes and every count it
    * retained; one that falls through releases exactly what it retained.
    */
  lemma {:induction false} BlockReleases(block: seq<Stmt>, shared: Stack, weak: Stack, choices: seq<bool>, x: Pointer)
    ensures var o := Run(BlockCode(block, shared, weak), choices);
      Released(o.trace, x, if o.returned then Holds(Flatten(shared), x) else 0,
               if o.returned then Holds(Flatten(weak), x) else 0)
    decreases block, 1
  {
    EmptyScopeHoldsNothing(shared);
    EmptyScopeHoldsNothing(weak);
    StmtsRelease(block, shared + [[]], weak + [[]], [], choices, x);
  }

  lemma {:induction false} StmtsRelease(stmts: seq<Stmt>, shared: Stack, weak: Stack, ds: seq<BlockId>,
                                        choices: seq<bool>, x: Pointer)
    requires shared != [] && weak != []
    ensures var o := Run(StmtsCode(stmts, shared, weak, ds), choices);
      Released(o.trace, x,
               Holds(if o.returned then Flatten(shared) else Top(shared), x),
               Holds(if o.returned then Flatten(weak) else Top(weak), x))
    decreases stmts, 0
  {
    if stmts == [] {
      CleanupReleases(Top(shared), Top(weak), ds, choices, x);
    } else if stmts[0].Return? {
      CleanupReleases(Flatten(shared), Flatten(weak), ds, choices, x);
      RunAppend(CleanupCode(Flatten(shared), Flatten(weak), ds), [Ret], choices);
    } else {
      var shared1, weak1, ds1 := SharedAfter(stmts[0], shared), WeakAfter(stmts[0], weak), ds + Deferred(stmts[0]);
      var a := Run(StmtCode(stmts[0], shared, weak), choices);
      var b := Run(StmtsCode(stmts[1..], shared1, weak1, ds1), a.rest);
      StmtReleases(stmts[0], shared, weak, choices, x);
      StmtsRelease(stmts[1..], shared1, weak1, ds1, a.rest, x);
      SharedAfterHolds(stmts[0], shared, x);
      WeakAfterHolds(stmts[0], weak, x);
      RunAppend(StmtCode(stmts[0], shared, weak), StmtsCode(stmts[1..], shared1, weak1, ds1), choices);
      if !a.returned {
        TracesAdd(a.trace, b.trace, x, Kept(stmts[0], x), KeptWeak(stmts[0], x),
                  Holds(if b.returned then Flatten(shared) else Top(shared), x),
                  Holds(if b.returned then Flatten(weak) else Top(weak), x));
      }
    }
  }

  lemma CleanupReleases(strong: seq<Pointer>, weak: seq<Pointer>, ds: seq<BlockId>, choices: seq<bool>, x: Pointer)
    ensures var o := Run(CleanupCode(strong, weak, ds), choices);
      !o.returned && Released(o.trace, x, Holds(strong, x), Holds(weak, x))
    ensures var code := CleanupCode(strong, weak, ds);
      && Followed(Run(code, choices), Run([Ret], choices)) == Outcome(code, true, choices)
      && Run(code, choices).trace == code
  {
    CleanupCounts(strong, weak, ds, x);
    RunPlain(CleanupCode(strong, weak, ds), choices);
    assert CleanupCode(strong, weak, ds) + [] == CleanupCode(strong, weak, ds);
  }

  // A step that keeps some counts, then a path that owes them on top of what was owed before.
  lemma TracesAdd(a: seq<Op>, b: seq<Op>, x: Pointer, kept: nat, keptWeak: nat, owed: nat, owedWeak: nat)
    requires Times(a, Release(x)) + kept == Times(a, Retain(x))
      && Times(a, ReleaseWeak(x)) + keptWeak == Times(a, RetainWeak(x))
    requires Released(b, x, owed + kept, owedWeak + keptWeak)
    ensures Released(a + b, x, owed, owedWeak)
  {
    TimesAppend(a, b, Release(x));
    TimesAppend(a, b, Retain(x));
    TimesAppend(a, b, ReleaseWeak(x));
    TimesAppend(a, b, RetainWeak(x));
  }

  /** What one statement leaves to be released. */
  function Kept(stmt: Stmt, x: Pointer): nat {
    if stmt == Share(x) then 1 else 0
  }

  function KeptWeak(stmt: Stmt, x: Pointer): nat {
    if stmt == Weaken(x) then 1 else 0
  }

  lemma SharedAfterHolds(stmt: Stmt, shared: Stack, x: Pointer)
    requires shared != []
    ensures Holds(Flatten(SharedAfter(stmt, shared)), x) == Holds(Flatten(shared), x) + Kept(stmt, x)
    ensures Holds(Top(SharedAfter(stmt, shared)), x) == Holds(Top(shared), x) + Kept(stmt, x)
  {
    if stmt.Share? {
      PushKeepsOthers(shared, stmt.p, x);
    }
  }

  lemma WeakAfterHolds(stmt: Stmt, weak: Stack, x: Pointer)
    requires weak != []
    ensures Holds(Flatten(WeakAfter(stmt, weak)), x) == Holds(Flatten(weak), x) + KeptWeak(stmt, x)
    ensures Holds(Top(WeakAfter(stmt, weak)), x) == Holds(Top(weak), x) + KeptWeak(stmt, x)
  {
    if stmt.Weaken? {
      PushKeepsOthers(weak, stmt.p, x);
    }
  }

  lemma {:induction false} StmtReleases(stmt: Stmt, shared: Stack, weak: Stack, choices: seq<bool>, x: Pointer)
    requires shared != [] && weak != []
    ensures var o := Run(StmtCode(stmt, shared, weak), choices);
      && (o.returned ==> Released(o.trace, x, Holds(Flatten(shared), x), Holds(Flatten(weak), x)))
      && (!o.returned ==> Keeps(o.trace, stmt, x))
    decreases stmt, 2
  {
    if stmt.If? || stmt.Inner? {
      var body, rest := NestedPath(stmt, shared, weak, choices);
      BlockReleases(body, shared, weak, rest, x);
    } else {
      RunPlain(StmtCode(stmt, shared, weak), choices);
      PlainStmtKeeps(stmt, shared, weak, x);
    }
  }

  predicate Keeps(trace: seq<Op>, stmt: Stmt, x: Pointer) {
    && Times(trace, Release(x)) + Kept(stmt, x) == Times(trace, Retain(x))
    && Times(trace, ReleaseWeak(x)) + KeptWeak(stmt, x) == Times(trace, RetainWeak(x))
  }

  lemma PlainStmtKeeps(stmt: Stmt, shared: Stack, weak: Stack, x: Pointer)
    requires !stmt.If? && !stmt.Inner?
    ensures Plain(StmtCode(stmt, shared, weak)) && Keeps(StmtCode(stmt, shared, weak), stmt, x)
  {
  }

  /** A path through an `if` or an inner block is a path through one of its blocks. */
  lemma NestedPath(stmt: Stmt, shared: Stack, weak: Stack, choices: seq<bool>)
    returns (body: seq<Stmt>, rest: seq<bool>)
    requires stmt.If? || stmt.Inner?
    ensures Run(StmtCode(stmt, shared, weak), choices) == Run(BlockCode(body, shared, weak), rest)
    ensures IsBody(stmt, body)
  {
    if stmt.If? {
      body := if choices != [] && choices[0] then stmt.thenBlock else stmt.elseBlock;
      rest := if choices == [] then [] else choices[1..];
      OneBranch(BlockCode(stmt.thenBlock, shared, weak), BlockCode(stmt.elseBlock, shared, weak), choices);
    } else {
      body, rest := stmt.body, choices;
    }
  }

  predicate IsBody(stmt: Stmt, body: seq<Stmt>) {
    (stmt.If? && (body == stmt.thenBlock || body == stmt.elseBlock)) || (stmt.Inner? && body == stmt.body)
  }

  lemma OneBranch(thenCode: seq<Op>, elseCode: seq<Op>, choices: seq<bool>)
    ensures Run([Branch(thenCode, elseCode)], choices)
      == Run(if choices != [] && choices[0] then thenCode else elseCode, if choices == [] then [] else choices[1..])
  {
    var taken := RunOne(Branch(thenCode, elseCode), choices);
    assert taken.trace + [] == taken.trace;
  }

  /** A function body with nothing outside it: on every path each strong and weak count is released exactly once. */
  lemma EachCountIsReleasedOnce(body: seq<Stmt>, choices: seq<bool>, x: Pointer)
    ensures var trace := Run(BlockCode(body, [], []), choices).trace;
      && Times(trace, Release(x)) == Times(trace, Retain(x))
      && Times(trace, ReleaseWeak(x)) == Times(trace, RetainWeak(x))
  {
    BlockReleases(body, [], [], choices, x);
  }
}
