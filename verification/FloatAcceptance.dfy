/** What the check-convergence pass recognises and drops, by what the instructions compute
    (src/codegen/float_chain.rs). */
module FloatAcceptance {
  import opened Wrappers
  import opened FloatIr
  import opened FloatChain
  import opened FloatConvergence

  // --- operations that always hand non-finiteness on ---

  type Valuation = Operand -> Float

  function Values(val: Valuation, os: seq<Operand>): seq<Float> {
    seq(|os|, i requires 0 <= i < |os| => val(os[i]))
  }

  /** The number an arithmetic instruction or a call computes from the values of its operands. */
  function Computed(machine: Machine, inst: Inst, val: Valuation): Float
    requires inst.Arith? || inst.Call?
  {
    match inst
    case Arith(op, l, r) => ArithValue(machine, op, val(l), val(r))
    case Call(name, args) => LibraryValue(machine, name, Values(val, args))
  }

  lemma ComputedIsResult(machine: Machine, st: State, inst: Inst, id: nat)
    requires inst.Arith? || inst.Call?
    ensures FloatConvergence.Result(machine, st, inst, id)
         == Num(Computed(machine, inst, o => FloatAt(machine, st.regs, o)))
  {
    if inst.Call? {
      assert FloatsAt(machine, st.regs, inst.args) == Values(o => FloatAt(machine, st.regs, o), inst.args);
    }
  }

  /** On every machine and for any values of the other operands, a non-finite `x` gives a non-finite result. */
  ghost predicate AlwaysHandsOn(inst: Inst, x: Operand)
    requires inst.Arith? || inst.Call?
  {
    forall machine: Machine, val: Valuation ::
      val(x).NonFinite() ==> Computed(machine, inst, val).NonFinite()
  }

  /** A machine without surprises: all its open results are one. */
  const CALM_MACHINE := Machine((_, _, _) => ONE, (_, _) => ONE, (_, _, _) => false, _ => ONE, ONE)
  const ONE := Finite(false, 1.0)

  lemma ArithHandsOn(inst: Inst, x: Operand)
    requires inst.Arith? && x in Operands(inst)
    ensures AlwaysHandsOn(inst, x) <==> inst.op == FAdd || inst.op == FSub || inst.op == FMul || inst.lhs == x
  {
    if inst.op == FAdd || inst.op == FSub || inst.op == FMul || inst.lhs == x {
      forall machine: Machine, val: Valuation | val(x).NonFinite()
        ensures Computed(machine, inst, val).NonFinite()
      {
      }
    } else {
      var val: Valuation := o => if o == x then Inf(true) else ONE;
      assert !Computed(CALM_MACHINE, inst, val).NonFinite();
    }
  }

  lemma CallHandsOn(inst: Inst, x: Operand)
    requires inst.Call? && inst.args == [x] && !IsFabsIntrinsic(inst.callee)
    ensures AlwaysHandsOn(inst, x) <==> inst.callee in SAFE_LIBM
  {
    if inst.callee in SAFE_LIBM {
      forall machine: Machine, val: Valuation | val(x).NonFinite()
        ensures Computed(machine, inst, val).NonFinite()
      {
        assert Values(val, [x]) == [val(x)];
        SafeLibmPropagates(machine, inst.callee, val(x));
      }
    } else {
      var val: Valuation := o => Inf(true);
      assert Values(val, [x]) == [Inf(true)];
      assert !Computed(CALM_MACHINE, inst, val).NonFinite();
    }
  }

  lemma OtherCallHandsNothingOn(inst: Inst, x: Operand)
    requires inst.Call? && |inst.args| != 1
    ensures !AlwaysHandsOn(inst, x)
  {
    var val: Valuation := o => Inf(true);
    assert !Computed(CALM_MACHINE, inst, val).NonFinite();
  }

  /** Library functions of the table take one argument, as the compiler emits them. */
  ghost predicate OneArgument(f: Code) {
    forall u: nat :: u < |f| ==> OneArgumentAt(f, u)
  }

  predicate OneArgumentAt(f: Code, u: nat)
    requires u < |f|
  {
    IsPropagatingLibmCall(f[u]) ==> |f[u].args| == 1
  }

  /** An arithmetic operation or a call, fabs intrinsics apart, that always hands a non-finite `x` on. */
  ghost predicate HandsOnAlways(inst: Inst, x: Operand) {
    (inst.Arith? || (inst.Call? && !IsFabsIntrinsic(inst.callee))) && AlwaysHandsOn(inst, x)
  }

  /** A checked user of `x` is a member of the chain exactly when it always hands non-finiteness on. */
  lemma ChainOpsAreExact(f: Code, x: Operand, user: nat, checked: set<Operand>)
    requires user < |f| && OneArgumentAt(f, user) && Ref(user) in checked && x in Operands(f[user])
    ensures IsChainOp(f, x, user, checked) <==> HandsOnAlways(f[user], x)
  {
    var inst := f[user];
    if inst.Arith? {
      ArithHandsOn(inst, x);
    } else if inst.Call? && !IsFabsIntrinsic(inst.callee) {
      if |inst.args| == 1 {
        assert inst.args == [x];
        CallHandsOn(inst, x);
      } else {
        OtherCallHandsNothingOn(inst, x);
      }
    }
  }

  // --- the checks that are recognised ---

  /** Instruction `j` calls the trap, and no terminator stands between `start` and it. */
  predicate TrapsAt(f: Code, start: nat, j: nat) {
    start <= j < |f| && f[j].Call? && f[j].callee == TRAP && forall k :: start <= k < j ==> !IsTerminator(f[k])
  }

  lemma {:induction false} TrapBlocksAreExact(f: Code, start: nat)
    ensures BlockCallsTrap(f, start) <==> exists j: nat :: TrapsAt(f, start, j)
    decreases |f| - start
  {
    if start < |f| {
      if f[start].Call? && f[start].callee == TRAP {
        assert TrapsAt(f, start, start);
      } else {
        TrapBlocksAreExact(f, start + 1);
        if BlockCallsTrap(f, start) {
          var j: nat :| TrapsAt(f, start + 1, j);
          assert TrapsAt(f, start, j);
        }
        if j: nat :| TrapsAt(f, start, j) {
          assert j > start && !IsTerminator(f[start]);
          assert TrapsAt(f, start + 1, j);
        }
      }
    }
  }

  ghost predicate Traps(f: Code, start: nat) {
    exists j: nat :: TrapsAt(f, start, j)
  }

  /** The instruction an operand stands for. */
  ghost predicate Is(f: Code, o: Operand, inst: Inst) {
    o.Ref? && o.id < |f| && f[o.id] == inst
  }

  /** `cp` describes the branch at `i`: on `x` unordered with itself, or a call's result equal to something, in either
      order, to a block that calls the trap, the other block being the ok one. */
  ghost predicate Describes(f: Code, i: nat, cp: CheckPoint) {
    && i < |f| && cp.br == i && f[i].CondBr?
    && (Is(f, f[i].cond, Or(cp.isNan, cp.isInf)) || Is(f, f[i].cond, Or(cp.isInf, cp.isNan)))
    && Is(f, cp.isNan, FCmp(Uno, cp.x, cp.x))
    && IsEqualityWithCall(f, cp.isInf, cp.fabsCall)
    && (if Traps(f, f[i].succ0) then cp.ok == f[i].succ1 else Traps(f, f[i].succ1) && cp.ok == f[i].succ0)
  }

  ghost predicate IsEqualityWithCall(f: Code, comparison: Operand, call: Operand) {
    && call.Ref? && call.id < |f| && f[call.id].Call?
    && exists bound: Operand :: Is(f, comparison, FCmp(Oeq, call, bound))
  }

  lemma EqualityIsExact(f: Code, comparison: Operand, call: Operand)
    ensures IsEqualityWithCall(f, comparison, call)
            <==> IsInfCmp(f, comparison) && f[comparison.id].left == call && Defines(f, call) && f[call.id].Call?
  {
    if IsInfCmp(f, comparison) && f[comparison.id].left == call {
      assert Is(f, comparison, FCmp(Oeq, call, f[comparison.id].right));
    }
  }

  lemma PartsAreExact(f: Code, a: Operand, b: Operand, isNan: Operand, isInf: Operand)
    ensures ClassifyFcmp(f, a, b) == Some((isNan, isInf))
            <==> IsUno(f, isNan) && IsInfCmp(f, isInf) && ((a == isNan && b == isInf) || (a == isInf && b == isNan))
  {
  }

  lemma UnoIsExact(f: Code, isNan: Operand, x: Operand)
    ensures Is(f, isNan, FCmp(Uno, x, x)) <==> IsUno(f, isNan) && f[isNan.id].left == x
  {
  }

  /** Exactly the described branches are recognised, with their parts. */
  lemma RecognitionIsExact(f: Code, i: nat, cp: CheckPoint)
    requires i < |f|
    ensures CheckAt(f, i) == Some(cp) <==> Describes(f, i, cp)
  {
    if f[i].CondBr? {
      TrapBlocksAreExact(f, f[i].succ0);
      TrapBlocksAreExact(f, f[i].succ1);
      EqualityIsExact(f, cp.isInf, cp.fabsCall);
      UnoIsExact(f, cp.isNan, cp.x);
      var cond := f[i].cond;
      if Defines(f, cond) && f[cond.id].Or? {
        PartsAreExact(f, f[cond.id].a, f[cond.id].b, cp.isNan, cp.isInf);
      }
    }
  }

  /** The checked values are those of the described branches. */
  lemma CheckedIsExact(f: Code, x: Operand)
    ensures x in Checked(f) <==> exists i: nat, cp :: Describes(f, i, cp) && cp.x == x
  {
    if x in Checked(f) {
      var cp :| cp in Checks(f) && cp.x == x;
      ChecksToMembers(f, |f|, cp);
      RecognitionIsExact(f, cp.br, cp);
      assert Describes(f, cp.br, cp);
    }
    if i: nat, cp :| Describes(f, i, cp) && cp.x == x {
      RecognitionIsExact(f, i, cp);
      ChecksToMembers(f, |f|, cp);
    }
  }

  // --- the checks that are dropped ---

  /** `user` is checked itself, and non-finiteness of its operand `x` always reaches it. */
  ghost predicate Takes(f: Code, user: nat, x: Operand) {
    user < |f| && Ref(user) in Checked(f) && x in Operands(f[user]) && HandsOnAlways(f[user], x)
  }

  /** The cell is read by loads, and written by `s` and with constants, and used for nothing else. */
  ghost predicate OwnCell(f: Code, s: nat, cell: Operand) {
    forall u: nat :: u < |f| && cell in Operands(f[u]) ==> OwnCellUse(f, s, u)
  }

  ghost predicate OwnCellUse(f: Code, s: nat, u: nat)
    requires u < |f|
  {
    f[u].Load? || u == s || (f[u].Store? && f[u].value.Const?)
  }

  /** Every use of the load is a part of the check or takes the loaded value. */
  ghost predicate LoadTaken(f: Code, l: nat, cp: CheckPoint) {
    forall u: nat :: u < |f| && Ref(l) in Operands(f[u]) && Ref(u) != cp.isNan && Ref(u) != cp.fabsCall
      ==> Takes(f, u, Ref(l))
  }

  /** Store `s` puts the checked value into an own cell, which is loaded, and every load is taken. */
  ghost predicate Forwards(f: Code, s: nat, cp: CheckPoint) {
    && s < |f| && f[s].Store? && f[s].value == cp.x
    && Is(f, f[s].ptr, Alloca) && OwnCell(f, s, f[s].ptr)
    && (exists l: nat :: l < |f| && f[l].Load? && f[l].ptr == f[s].ptr)
    && (forall l: nat :: l < |f| && f[l].Load? && f[l].ptr == f[s].ptr ==> LoadTaken(f, l, cp))
  }

  /** Instruction `u` uses the value and is no part of its check. */
  ghost predicate UsedOutside(f: Code, u: nat, cp: CheckPoint) {
    u < |f| && cp.x in Operands(f[u]) && Ref(u) != cp.isNan && Ref(u) != cp.fabsCall
  }

  /** The value is used outside its check, and each such use takes it or forwards it. */
  ghost predicate PassedOn(f: Code, cp: CheckPoint) {
    && (exists u: nat :: UsedOutside(f, u, cp))
    && forall u: nat :: UsedOutside(f, u, cp) ==> Takes(f, u, cp.x) || Forwards(f, u, cp)
  }

  lemma TakesIsChainOp(f: Code, user: nat, x: Operand)
    requires OneArgument(f) && Uses(f, user, x)
    ensures IsChainOp(f, x, user, Checked(f)) <==> Takes(f, user, x)
  {
    assert OneArgumentAt(f, user);
    if Ref(user) in Checked(f) {
      ChainOpsAreExact(f, x, user, Checked(f));
    }
  }

  lemma LoadTakenIsFeeding(f: Code, l: nat, cp: CheckPoint)
    requires OneArgument(f)
    ensures LoadFeedsChain(f, l, cp, Checked(f)) <==> LoadTaken(f, l, cp)
  {
    forall u: nat | Uses(f, u, Ref(l))
      ensures IsChainOp(f, Ref(l), u, Checked(f)) <==> Takes(f, u, Ref(l))
    {
      TakesIsChainOp(f, u, Ref(l));
    }
  }

  lemma ForwardingIsExact(f: Code, s: nat, cp: CheckPoint)
    requires OneArgument(f) && s < |f|
    ensures Forwardable(f, s, cp, Checked(f)) <==> Forwards(f, s, cp)
  {
    if f[s].Store? && Is(f, f[s].ptr, Alloca) {
      var cell := f[s].ptr;
      forall u: nat
        ensures Uses(f, u, cell) ==> (PrivateUse(f, s, u) <==> OwnCellUse(f, s, u))
        ensures Uses(f, u, cell) && f[u].Load? <==> u < |f| && f[u].Load? && f[u].ptr == cell
      {
      }
      forall l: nat
        ensures LoadFeedsChain(f, l, cp, Checked(f)) <==> LoadTaken(f, l, cp)
      {
        LoadTakenIsFeeding(f, l, cp);
      }
    }
  }

  lemma RelaysAreExact(f: Code, cp: CheckPoint)
    requires OneArgument(f)
    ensures Relay(f, cp, Checked(f)) <==> PassedOn(f, cp)
  {
    assert forall u: nat :: RealUse(f, u, cp) <==> UsedOutside(f, u, cp);
    forall u: nat | UsedOutside(f, u, cp)
      ensures HandsOn(f, u, cp, Checked(f)) <==> Takes(f, u, cp.x) || Forwards(f, u, cp)
    {
      TakesIsChainOp(f, u, cp.x);
      ForwardingIsExact(f, u, cp);
    }
  }

  /** The pass turns a check into a branch to its ok block exactly when its value is passed on by every use. */
  lemma ConvergedChecks(f: Code, i: nat, cp: CheckPoint)
    requires OneArgument(f) && Describes(f, i, cp)
    ensures |Converged(f)| == |f| && Converged(f)[i] == if PassedOn(f, cp) then Br(cp.ok) else f[i]
  {
    RecognitionIsExact(f, i, cp);
    RelaysAreExact(f, cp);
  }

  /** Everything else stays. */
  lemma ConvergedElsewhere(f: Code, i: nat)
    requires i < |f| && !exists cp :: Describes(f, i, cp)
    ensures |Converged(f)| == |f| && Converged(f)[i] == f[i]
  {
    if CheckAt(f, i).Some? {
      RecognitionIsExact(f, i, CheckAt(f, i).value);
    }
  }
}
