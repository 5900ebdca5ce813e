/** The compiler's scope bookkeeping and the code it emits for blocks (src/codegen/scope.rs, src/codegen/block.rs). */
module ScopeStacks {
  type Pointer = nat
  type BlockId = nat

  /** The statements that touch the stacks; a deferred block is known by its identity. */
  datatype Stmt =
    | Share(p: Pointer)
    | Weaken(p: Pointer)
    | Defer(d: BlockId)
    | Compensate(d: BlockId)
    | If(thenBlock: seq<Stmt>, elseBlock: seq<Stmt>)
    | Inner(body: seq<Stmt>)
    | Return

  /**
    * Emitted code. `Register` marks the point where a deferred block becomes pending; it emits nothing.
    */
  datatype Op =
    | Retain(p: Pointer)
    | RetainWeak(p: Pointer)
    | Release(p: Pointer)
    | ReleaseWeak(p: Pointer)
    | Register(d: BlockId)
    | RunBlock(d: BlockId)
    | Branch(thenCode: seq<Op>, elseCode: seq<Op>)
    | Ret

  type Stack = seq<seq<Pointer>>

  // --- what is emitted ---

  function Releases(ps: seq<Pointer>): (r: seq<Op>)
    ensures |r| == |ps|
  {
    seq(|ps|, i requires 0 <= i < |ps| => Release(ps[i]))
  }

  function WeakReleases(ps: seq<Pointer>): (r: seq<Op>)
    ensures |r| == |ps|
  {
    seq(|ps|, i requires 0 <= i < |ps| => ReleaseWeak(ps[i]))
  }

  /** The pending blocks, last registered first. */
  function RunLatestFirst(ds: seq<BlockId>): (r: seq<Op>)
    ensures |r| == |ds|
  {
    seq(|ds|, i requires 0 <= i < |ds| => RunBlock(ds[|ds| - 1 - i]))
  }

  /** The code runs the blocks, the last one first. */
  predicate Reverses(code: seq<Op>, ds: seq<BlockId>) {
    |code| == |ds| && forall i, j :: 0 <= i < |ds| && 0 <= j < |ds| && i + j == |ds| - 1 ==> code[i] == RunBlock(ds[j])
  }

  function Flatten(scopes: Stack): seq<Pointer> {
    if scopes == [] then [] else Flatten(scopes[..|scopes| - 1]) + scopes[|scopes| - 1]
  }

  function Top(scopes: Stack): seq<Pointer>
    requires scopes != []
  {
    scopes[|scopes| - 1]
  }

  function PushedOnTop(scopes: Stack, p: Pointer): (r: Stack)
    requires scopes != []
    ensures |r| == |scopes|
  {
    scopes[..|scopes| - 1] + [Top(scopes) + [p]]
  }

  /** Strong counts, weak counts, then the deferred blocks. */
  function CleanupCode(strong: seq<Pointer>, weak: seq<Pointer>, ds: seq<BlockId>): seq<Op> {
    Releases(strong) + WeakReleases(weak) + RunLatestFirst(ds)
  }

  /** The code of a block compiled under the scopes of the blocks around it. */
  function BlockCode(block: seq<Stmt>, shared: Stack, weak: Stack): seq<Op>
    decreases block, 1
  {
    StmtsCode(block, shared + [[]], weak + [[]], [])
  }

  /** The code of the rest of a block: its own scopes are on top, `ds` are its pending deferred blocks. */
  function StmtsCode(stmts: seq<Stmt>, shared: Stack, weak: Stack, ds: seq<BlockId>): seq<Op>
    requires shared != [] && weak != []
    decreases stmts, 0
  {
    if stmts == [] then CleanupCode(Top(shared), Top(weak), ds)
    else if stmts[0].Return? then CleanupCode(Flatten(shared), Flatten(weak), ds) + [Ret]
    else
      StmtCode(stmts[0], shared, weak)
      + StmtsCode(stmts[1..], SharedAfter(stmts[0], shared), WeakAfter(stmts[0], weak), ds + Deferred(stmts[0]))
  }

  /** The code of a statement other than a return. */
  function StmtCode(stmt: Stmt, shared: Stack, weak: Stack): seq<Op>
    decreases stmt, 2
  {
    match stmt
    case Share(p) => [Retain(p)]
    case Weaken(p) => [RetainWeak(p)]
    case Defer(d) => [Register(d)]
    case Compensate(_) => []
    case If(thenBlock, elseBlock) => [Branch(BlockCode(thenBlock, shared, weak), BlockCode(elseBlock, shared, weak))]
    case Inner(body) => BlockCode(body, shared, weak)
    case Return => []
  }

  function SharedAfter(stmt: Stmt, shared: Stack): (r: Stack)
    requires shared != []
    ensures |r| == |shared|
  {
    if stmt.Share? then PushedOnTop(shared, stmt.p) else shared
  }

  function WeakAfter(stmt: Stmt, weak: Stack): (r: Stack)
    requires weak != []
    ensures |r| == |weak|
  {
    if stmt.Weaken? then PushedOnTop(weak, stmt.p) else weak
  }

  function Deferred(stmt: Stmt): seq<BlockId> {
    if stmt.Defer? then [stmt.d] else []
  }

  function Compensated(stmt: Stmt): seq<BlockId> {
    if stmt.Compensate? then [stmt.d] else []
  }

  // --- the code generator ---

  class CodeGenerator {
    var sharedReleaseVars: Stack
    var weakReleaseVars: Stack
    var deferBlocks: seq<BlockId>
    var deferScopeStack: seq<nat>
    var compensationBlocks: seq<BlockId>
    var compScopeStack: seq<nat>
    var emitted: seq<Op>

    /** Every scope start lies within the blocks it delimits, in order. */
    ghost predicate Valid()
      reads this
    {
      && |sharedReleaseVars| == |weakReleaseVars|
      && Delimits(deferScopeStack, |deferBlocks|)
      && Delimits(compScopeStack, |compensationBlocks|)
    }

    static predicate Delimits(starts: seq<nat>, length: nat) {
      && (forall i :: 0 <= i < |starts| ==> starts[i] <= length)
      && (forall i, j :: 0 <= i < j < |starts| ==> starts[i] <= starts[j])
    }

    constructor ()
      ensures Valid() && sharedReleaseVars == [[]] && weakReleaseVars == [[]] && emitted == []
      ensures deferBlocks == [] && deferScopeStack == [] && compensationBlocks == [] && compScopeStack == []
    {
      sharedReleaseVars, weakReleaseVars := [[]], [[]];
      deferBlocks, deferScopeStack, compensationBlocks, compScopeStack := [], [], [], [];
      emitted := [];
    }

    method PushSharedScope()
      modifies this`sharedReleaseVars, this`weakReleaseVars
      ensures sharedReleaseVars == old(sharedReleaseVars) + [[]] && weakReleaseVars == old(weakReleaseVars) + [[]]
    {
      sharedReleaseVars := sharedReleaseVars + [[]];
      weakReleaseVars := weakReleaseVars + [[]];
    }

    method RegisterSharedVar(p: Pointer)
      modifies this`sharedReleaseVars
      ensures sharedReleaseVars == if old(sharedReleaseVars) == [] then [] else PushedOnTop(old(sharedReleaseVars), p)
    {
      if sharedReleaseVars != [] {
        var last := |sharedReleaseVars| - 1;
        sharedReleaseVars := sharedReleaseVars[last := sharedReleaseVars[last] + [p]];
      }
    }

    method RegisterWeakVar(p: Pointer)
      modifies this`weakReleaseVars
      ensures weakReleaseVars == if old(weakReleaseVars) == [] then [] else PushedOnTop(old(weakReleaseVars), p)
    {
      if weakReleaseVars != [] {
        var last := |weakReleaseVars| - 1;
        weakReleaseVars := weakReleaseVars[last := weakReleaseVars[last] + [p]];
      }
    }

    method EmitReleases(ps: seq<Pointer>)
      modifies this`emitted
      ensures emitted == old(emitted) + Releases(ps)
    {
      var i := 0;
      while i < |ps|
        invariant 0 <= i <= |ps|
        invariant emitted == old(emitted) + Releases(ps)[..i]
      {
        emitted := emitted + [Release(ps[i])];
        i := i + 1;
      }
      assert Releases(ps)[..i] == Releases(ps);
    }

    method EmitWeakReleases(ps: seq<Pointer>)
      modifies this`emitted
      ensures emitted == old(emitted) + WeakReleases(ps)
    {
      var i := 0;
      while i < |ps|
        invariant 0 <= i <= |ps|
        invariant emitted == old(emitted) + WeakReleases(ps)[..i]
      {
        emitted := emitted + [ReleaseWeak(ps[i])];
        i := i + 1;
      }
      assert WeakReleases(ps)[..i] == WeakReleases(ps);
    }

    /** `pop_shared_scope`: the innermost scope's counts are released, duplicates included, and the scope is gone. */
    method PopSharedScope()
      modifies this`sharedReleaseVars, this`weakReleaseVars, this`emitted
      ensures emitted == old(emitted)
        + (if old(sharedReleaseVars) == [] then [] else Releases(Top(old(sharedReleaseVars))))
        + (if old(weakReleaseVars) == [] then [] else WeakReleases(Top(old(weakReleaseVars))))
      ensures sharedReleaseVars == if old(sharedReleaseVars) == [] then []
        else old(sharedReleaseVars)[..|old(sharedReleaseVars)| - 1]
      ensures weakReleaseVars == if old(weakReleaseVars) == [] then []
        else old(weakReleaseVars)[..|old(weakReleaseVars)| - 1]
    {
      if sharedReleaseVars != [] {
        var scope := Top(sharedReleaseVars);
        sharedReleaseVars := sharedReleaseVars[..|sharedReleaseVars| - 1];
        EmitReleases(scope);
      }
      if weakReleaseVars != [] {
        var scope := Top(weakReleaseVars);
        weakReleaseVars := weakReleaseVars[..|weakReleaseVars| - 1];
        EmitWeakReleases(scope);
      }
    }

    method FlattenScopes(scopes: Stack) returns (ps: seq<Pointer>)
      ensures ps == Flatten(scopes)
    {
      ps := [];
      var i := 0;
      while i < |scopes|
        invariant 0 <= i <= |scopes|
        invariant ps == Flatten(scopes[..i])
      {
        assert scopes[..i + 1][..i] == scopes[..i];
        ps := ps + scopes[i];
        i := i + 1;
      }
      assert scopes[..i] == scopes;
    }

    /** `emit_all_shared_releases`: every count of every scope, the stacks untouched. */
    method EmitAllSharedReleases()
      modifies this`emitted
      ensures emitted == old(emitted) + Releases(Flatten(sharedReleaseVars)) + WeakReleases(Flatten(weakReleaseVars))
    {
      var strong := FlattenScopes(sharedReleaseVars);
      EmitReleases(strong);
      var weak := FlattenScopes(weakReleaseVars);
      EmitWeakReleases(weak);
    }

    method DiscardSharedScope()
      modifies this`sharedReleaseVars, this`weakReleaseVars
      ensures sharedReleaseVars == if old(sharedReleaseVars) == [] then []
        else old(sharedReleaseVars)[..|old(sharedReleaseVars)| - 1]
      ensures weakReleaseVars == if old(weakReleaseVars) == [] then []
        else old(weakReleaseVars)[..|old(weakReleaseVars)| - 1]
    {
      if sharedReleaseVars != [] {
        sharedReleaseVars := sharedReleaseVars[..|sharedReleaseVars| - 1];
      }
      if weakReleaseVars != [] {
        weakReleaseVars := weakReleaseVars[..|weakReleaseVars| - 1];
      }
    }

    /** `release_all_shared`: as above, and the stacks start over. */
    method ReleaseAllShared()
      modifies this`sharedReleaseVars, this`weakReleaseVars, this`emitted
      ensures emitted
        == old(emitted) + Releases(Flatten(old(sharedReleaseVars))) + WeakReleases(Flatten(old(weakReleaseVars)))
      ensures sharedReleaseVars == [[]] && weakReleaseVars == [[]]
    {
      EmitAllSharedReleases();
      sharedReleaseVars, weakReleaseVars := [[]], [[]];
    }

    method PushDeferScope()
      requires Valid()
      modifies this`deferScopeStack
      ensures Valid() && deferScopeStack == old(deferScopeStack) + [|deferBlocks|]
    {
      deferScopeStack := deferScopeStack + [|deferBlocks|];
    }

    method RegisterDefer(d: BlockId)
      requires Valid()
      modifies this`deferBlocks
      ensures Valid() && deferBlocks == old(deferBlocks) + [d]
    {
      deferBlocks := deferBlocks + [d];
    }

    /** `pop_defer_scope`: exactly the blocks registered since the push, in reverse; outer ones stay pending. */
    method PopDeferScope()
      requires Valid()
      modifies this`deferBlocks, this`deferScopeStack, this`emitted
      ensures Valid()
      ensures old(deferScopeStack) == [] ==>
        deferScopeStack == [] && deferBlocks == old(deferBlocks) && emitted == old(emitted)
      ensures old(deferScopeStack) != [] ==>
        var start := old(deferScopeStack)[|old(deferScopeStack)| - 1];
        && deferScopeStack == old(deferScopeStack)[..|old(deferScopeStack)| - 1]
        && deferBlocks == old(deferBlocks)[..start]
        && emitted == old(emitted) + RunLatestFirst(old(deferBlocks)[start..])
        && Reverses(emitted[|old(emitted)|..], old(deferBlocks)[start..])
    {
      if deferScopeStack != [] {
        var start := deferScopeStack[|deferScopeStack| - 1];
        deferScopeStack := deferScopeStack[..|deferScopeStack| - 1];
        var blocks := deferBlocks[start..];
        deferBlocks := deferBlocks[..start];
        var i := |blocks|;
        while i > 0
          invariant 0 <= i <= |blocks|
          invariant emitted == old(emitted) + RunLatestFirst(blocks)[..|blocks| - i]
          modifies this`emitted
        {
          i := i - 1;
          emitted := emitted + [RunBlock(blocks[i])];
        }
        assert RunLatestFirst(blocks)[..|blocks|] == RunLatestFirst(blocks);
      }
    }

    /** `discard_defer_scope`: the blocks of the scope are dropped without being run. */
    method DiscardDeferScope()
      requires Valid()
      modifies this`deferBlocks, this`deferScopeStack
      ensures Valid()
      ensures old(deferScopeStack) == [] ==> deferScopeStack == [] && deferBlocks == old(deferBlocks)
      ensures old(deferScopeStack) != [] ==>
        && deferScopeStack == old(deferScopeStack)[..|old(deferScopeStack)| - 1]
        && deferBlocks == old(deferBlocks)[..old(deferScopeStack)[|old(deferScopeStack)| - 1]]
    {
      if deferScopeStack != [] {
        var start := deferScopeStack[|deferScopeStack| - 1];
        deferScopeStack := deferScopeStack[..|deferScopeStack| - 1];
        deferBlocks := deferBlocks[..start];
      }
    }

    method PushCompScope()
      requires Valid()
      modifies this`compScopeStack
      ensures Valid() && compScopeStack == old(compScopeStack) + [|compensationBlocks|]
    {
      compScopeStack := compScopeStack + [|compensationBlocks|];
    }

    method RegisterComp(d: BlockId)
      requires Valid()
      modifies this`compensationBlocks
      ensures Valid() && compensationBlocks == old(compensationBlocks) + [d]
    {
      compensationBlocks := compensationBlocks + [d];
    }

    method PopCompScope()
      requires Valid()
      modifies this`compensationBlocks, this`compScopeStack
      ensures Valid()
      ensures old(compScopeStack) == [] ==> compScopeStack == [] && compensationBlocks == old(compensationBlocks)
      ensures old(compScopeStack) != [] ==>
        && compScopeStack == old(compScopeStack)[..|old(compScopeStack)| - 1]
        && compensationBlocks == old(compensationBlocks)[..old(compScopeStack)[|old(compScopeStack)| - 1]]
    {
      if compScopeStack != [] {
        var start := compScopeStack[|compScopeStack| - 1];
        compScopeStack := compScopeStack[..|compScopeStack| - 1];
        compensationBlocks := compensationBlocks[..start];
      }
    }

    /** `compile_compensations`: every pending compensation, latest first, still pending afterwards. */
    method CompileCompensations()
      modifies this`emitted
      ensures emitted == old(emitted) + RunLatestFirst(compensationBlocks)
      ensures Reverses(emitted[|old(emitted)|..], compensationBlocks)
    {
      var i := |compensationBlocks|;
      while i > 0
        invariant 0 <= i <= |compensationBlocks|
        invariant emitted == old(emitted) + RunLatestFirst(compensationBlocks)[..|compensationBlocks| - i]
      {
        i := i - 1;
        emitted := emitted + [RunBlock(compensationBlocks[i])];
      }
      assert RunLatestFirst(compensationBlocks)[..|compensationBlocks|] == RunLatestFirst(compensationBlocks);
    }

    /** One scope of each kind is open above what was there before. */
    ghost predicate Inside(shared: Stack, weak: Stack, ds: seq<BlockId>, starts: seq<nat>, cs: seq<BlockId>,
                           compStarts: seq<nat>)
      reads this
    {
      && Valid()
      && |sharedReleaseVars| == |shared| + 1 && sharedReleaseVars[..|shared|] == shared
      && |weakReleaseVars| == |weak| + 1 && weakReleaseVars[..|weak|] == weak
      && deferScopeStack == starts + [|ds|] && ds <= deferBlocks
      && compScopeStack == compStarts + [|cs|] && cs <= compensationBlocks
    }

    /** Any statement but a return, inside a block. */
    method CompileStmt(stmt: Stmt)
      requires Valid() && !stmt.Return? && sharedReleaseVars != []
      modifies this
      ensures Valid()
      ensures emitted == old(emitted) + StmtCode(stmt, old(sharedReleaseVars), old(weakReleaseVars))
      ensures sharedReleaseVars == SharedAfter(stmt, old(sharedReleaseVars))
      ensures weakReleaseVars == WeakAfter(stmt, old(weakReleaseVars))
      ensures deferBlocks == old(deferBlocks) + Deferred(stmt) && deferScopeStack == old(deferScopeStack)
      ensures compensationBlocks == old(compensationBlocks) + Compensated(stmt) && compScopeStack == old(compScopeStack)
      decreases stmt
    {
      match stmt
      case Share(p) =>
        emitted := emitted + [Retain(p)];
        RegisterSharedVar(p);
      case Weaken(p) =>
        emitted := emitted + [RetainWeak(p)];
        RegisterWeakVar(p);
      case Defer(d) =>
        emitted := emitted + [Register(d)];
        RegisterDefer(d);
      case Compensate(d) =>
        RegisterComp(d);
      case If(thenBlock, elseBlock) =>
        var saved := emitted;
        emitted := [];
        CompileBlock(thenBlock);
        var thenCode := emitted;
        assert thenCode == BlockCode(thenBlock, sharedReleaseVars, weakReleaseVars);
        emitted := [];
        CompileBlock(elseBlock);
        assert emitted == BlockCode(elseBlock, sharedReleaseVars, weakReleaseVars);
        emitted := saved + [Branch(thenCode, emitted)];
      case Inner(body) =>
        CompileBlock(body);
    }

    /** The end of a block whose runtime path has released every count already. */
    method LeaveByReturn(ghost shared: Stack, ghost weak: Stack, ghost ds: seq<BlockId>, ghost starts: seq<nat>,
                         ghost cs: seq<BlockId>, ghost compStarts: seq<nat>)
      requires Inside(shared, weak, ds, starts, cs, compStarts)
      modifies this
      ensures Restored(shared, weak, ds, starts, cs, compStarts)
      ensures emitted == old(emitted) + RunLatestFirst(old(deferBlocks)[|ds|..]) + [Ret]
    {
      DiscardSharedScope();
      PopDeferScope();
      PopCompScope();
      emitted := emitted + [Ret];
    }

    /** The end of a block that falls through. */
    method LeaveAtEnd(ghost shared: Stack, ghost weak: Stack, ghost ds: seq<BlockId>, ghost starts: seq<nat>,
                      ghost cs: seq<BlockId>, ghost compStarts: seq<nat>)
      requires Inside(shared, weak, ds, starts, cs, compStarts)
      modifies this
      ensures Restored(shared, weak, ds, starts, cs, compStarts)
      ensures emitted == old(emitted)
        + CleanupCode(Top(old(sharedReleaseVars)), Top(old(weakReleaseVars)), old(deferBlocks)[|ds|..])
    {
      PopSharedScope();
      PopDeferScope();
      PopCompScope();
    }

    ghost predicate Restored(shared: Stack, weak: Stack, ds: seq<BlockId>, starts: seq<nat>, cs: seq<BlockId>,
                             compStarts: seq<nat>)
      reads this
    {
      && Valid()
      && sharedReleaseVars == shared && weakReleaseVars == weak
      && deferBlocks == ds && deferScopeStack == starts
      && compensationBlocks == cs && compScopeStack == compStarts
    }

    /**
      * `compile_block`: emits the block's code and leaves every stack as it found it, whether the block returns early
      * or falls through.
      */
    method CompileBlock(block: seq<Stmt>)
      requires Valid()
      modifies this
      ensures Restored(old(sharedReleaseVars), old(weakReleaseVars), old(deferBlocks), old(deferScopeStack),
                       old(compensationBlocks), old(compScopeStack))
      ensures emitted == old(emitted) + BlockCode(block, old(sharedReleaseVars), old(weakReleaseVars))
      decreases block
    {
      ghost var shared, weak, ds, starts := sharedReleaseVars, weakReleaseVars, deferBlocks, deferScopeStack;
      ghost var cs, compStarts := compensationBlocks, compScopeStack;
      ghost var code := emitted + BlockCode(block, shared, weak);
      PushCompScope();
      PushDeferScope();
      PushSharedScope();
      assert block[0..] == block && deferBlocks[|ds|..] == [];
      var i := 0;
      while i < |block|
        invariant 0 <= i <= |block|
        invariant Inside(shared, weak, ds, starts, cs, compStarts)
        invariant emitted + StmtsCode(block[i..], sharedReleaseVars, weakReleaseVars, deferBlocks[|ds|..]) == code
      {
        FirstStmt(block, i, emitted, sharedReleaseVars, weakReleaseVars, deferBlocks[|ds|..]);
        if block[i].Return? {
          ghost var before := emitted;
          EmitAllSharedReleases();
          CleanupIs(before, Flatten(sharedReleaseVars), Flatten(weakReleaseVars), deferBlocks[|ds|..]);
          LeaveByReturn(shared, weak, ds, starts, cs, compStarts);
          return;
        }
        ghost var pending := deferBlocks[|ds|..];
        CompileStmt(block[i]);
        assert deferBlocks[|ds|..] == pending + Deferred(block[i]);
        i := i + 1;
      }
      assert block[i..] == [];
      LeaveAtEnd(shared, weak, ds, starts, cs, compStarts);
    }
  }

  lemma CleanupIs(before: seq<Op>, strong: seq<Pointer>, weak: seq<Pointer>, ds: seq<BlockId>)
    ensures before + Releases(strong) + WeakReleases(weak) + RunLatestFirst(ds) + [Ret]
      == before + (CleanupCode(strong, weak, ds) + [Ret])
  {
  }

  lemma FirstStmt(block: seq<Stmt>, i: nat, before: seq<Op>, shared: Stack, weak: Stack, ds: seq<BlockId>)
    requires i < |block| && shared != [] && weak != []
    ensures block[i].Return? ==>
      StmtsCode(block[i..], shared, weak, ds) == CleanupCode(Flatten(shared), Flatten(weak), ds) + [Ret]
    ensures !block[i].Return? ==>
      before + StmtsCode(block[i..], shared, weak, ds)
      == before + StmtCode(block[i], shared, weak)
         + StmtsCode(block[i + 1..], SharedAfter(block[i], shared), WeakAfter(block[i], weak), ds + Deferred(block[i]))
  {
    assert block[i..][0] == block[i] && block[i..][1..] == block[i + 1..];
  }
}
