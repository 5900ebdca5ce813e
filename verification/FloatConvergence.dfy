/** When straight-line float code keeps its outcome under the check-convergence pass (src/codegen/float_chain.rs). */
module FloatConvergence {
  import opened Wrappers
  import opened FloatIr
  import opened FloatChain

  // --- execution ---

  datatype Value = Num(num: Float) | Truth(holds: bool) | Cell(id: nat) | Void

  datatype State = State(regs: map<nat, Value>, cells: map<nat, Float>)

  datatype Outcome = Trapped | Returned(value: Float, state: State) | Lost

  function ValueOf(machine: Machine, regs: map<nat, Value>, o: Operand): Value {
    match o
    case Ref(id) => if id in regs then regs[id] else Void
    case Const(c) => Num(c)
    case Param(k) => Num(machine.params(k))
  }

  function FloatOf(v: Value): Float {
    if v.Num? then v.num else NaN
  }

  predicate Holds(v: Value) {
    v == Truth(true)
  }

  function FloatAt(machine: Machine, regs: map<nat, Value>, o: Operand): Float {
    FloatOf(ValueOf(machine, regs, o))
  }

  function FloatsAt(machine: Machine, regs: map<nat, Value>, os: seq<Operand>): seq<Float> {
    seq(|os|, i requires 0 <= i < |os| => FloatAt(machine, regs, os[i]))
  }

  predicate OrderedEqual(x: Float, y: Float) {
    match (x, y)
    case (NaN, _) => false
    case (Finite(m, a), Finite(n, b)) => a == b && (m == n || a == 0.0)
    case _ => x == y
  }

  function Compare(machine: Machine, p: Predicate, x: Float, y: Float): bool {
    match p
    case Uno => x.NaN? || y.NaN?
    case Oeq => OrderedEqual(x, y)
    case OtherPredicate(code) => machine.compare(code, x, y)
  }

  function LoadedFrom(machine: Machine, st: State, ptr: Value): Float {
    if ptr.Cell? && ptr.id in st.cells then st.cells[ptr.id] else machine.uninitialised
  }

  /** The value of an instruction executed in a state. */
  function Result(machine: Machine, st: State, inst: Inst, id: nat): Value {
    match inst
    case Arith(op, l, r) => Num(ArithValue(machine, op, FloatAt(machine, st.regs, l), FloatAt(machine, st.regs, r)))
    case Call(name, args) => Num(LibraryValue(machine, name, FloatsAt(machine, st.regs, args)))
    case FCmp(p, l, r) => Truth(Compare(machine, p, FloatAt(machine, st.regs, l), FloatAt(machine, st.regs, r)))
    case Or(a, b) => Truth(Holds(ValueOf(machine, st.regs, a)) || Holds(ValueOf(machine, st.regs, b)))
    case Alloca => Cell(id)
    case Load(p) => Num(LoadedFrom(machine, st, ValueOf(machine, st.regs, p)))
    case Other(os) => Num(machine.library("", FloatsAt(machine, st.regs, os)))
    case _ => Void
  }

  function After(machine: Machine, st: State, inst: Inst, id: nat): State {
    if inst.CondBr? || inst.Br? then st else
    var regs := st.regs[id := Result(machine, st, inst, id)];
    if inst.Store? && ValueOf(machine, st.regs, inst.ptr).Cell? then
      State(regs, st.cells[ValueOf(machine, st.regs, inst.ptr).id := FloatAt(machine, st.regs, inst.value)])
    else
      st.(regs := regs)
  }

  /** Execution from an instruction on; only forward branches are followed. */
  function Run(f: Code, machine: Machine, st: State, pc: nat): Outcome
    decreases |f| - pc
  {
    if pc >= |f| then Lost else
    match f[pc]
    case Ret(r) => Returned(FloatAt(machine, st.regs, r), st)
    case Unreachable => Lost
    case Br(t) => if pc < t then Run(f, machine, st, t) else Lost
    case CondBr(c, s0, s1) =>
      var t := if Holds(ValueOf(machine, st.regs, c)) then s0 else s1;
      if pc < t then Run(f, machine, st, t) else Lost
    case Call(name, _) =>
      if name == TRAP then Trapped else Run(f, machine, After(machine, st, f[pc], pc), pc + 1)
    case inst => Run(f, machine, After(machine, st, inst, pc), pc + 1)
  }

  const Initial := State(map[], map[])

  // --- the shape of the code ---

  /** The check that `check_float_finite` emits: the absolute value of `x` against infinity, the trap
      block out of line after `end`, the ok block right behind the branch. */
  ghost predicate StandardCheck(f: Code, end: nat, i: nat)
    requires i < |f|
  {
    && CheckAt(f, i).Some?
    && end <= f[i].succ0 < |f| && f[i].succ1 == i + 1
    && BlockCallsTrap(f, f[i].succ0)
    && var cp := CheckAt(f, i).value;
    && IsFabsIntrinsic(f[cp.fabsCall.id].callee) && f[cp.fabsCall.id].args == [cp.x]
    && f[cp.isInf.id].right == Const(Inf(false))
  }

  ghost predicate StraightAt(f: Code, end: nat, i: nat)
    requires i < |f|
  {
    && !f[i].Ret? && !f[i].Unreachable? && !(f[i].Call? && f[i].callee == TRAP)
    && (IsPropagatingLibmCall(f[i]) ==> |f[i].args| == 1)
    && (f[i].Br? ==> f[i].target == i + 1)
    && (f[i].CondBr? ==> StandardCheck(f, end, i))
    && forall o :: o in Operands(f[i]) && o.Ref? ==> o.id < i
  }

  /** Instructions `0..end` run one after the other; the trap blocks lie behind them. */
  ghost predicate StraightLine(f: Code, end: nat) {
    && end < |f| && f[end].Ret?
    && (forall i: nat :: i < end ==> StraightAt(f, end, i))
    && (forall i: nat :: end <= i < |f| ==> !f[i].CondBr?)
  }

  /** The state before instruction `n` when no check fires. */
  ghost function SpineState(f: Code, machine: Machine, n: nat): State
    requires n <= |f|
  {
    if n == 0 then Initial else After(machine, SpineState(f, machine, n - 1), f[n - 1], n - 1)
  }

  /** The value an operand has once it is computed. */
  ghost function Val(f: Code, end: nat, machine: Machine, o: Operand): Value
    requires end <= |f|
  {
    ValueOf(machine, SpineState(f, machine, end).regs, o)
  }

  lemma {:induction false} RegsStable(f: Code, end: nat, machine: Machine, n: nat, id: nat)
    requires end <= |f| && id < n <= end
    ensures ValueOf(machine, SpineState(f, machine, n).regs, Ref(id)) == Val(f, end, machine, Ref(id))
    decreases end - n
  {
    if n < end {
      RegsStable(f, end, machine, n + 1, id);
    }
  }

  lemma OperandStable(f: Code, end: nat, machine: Machine, n: nat, o: Operand)
    requires end <= |f| && n <= end && (o.Ref? ==> o.id < n)
    ensures ValueOf(machine, SpineState(f, machine, n).regs, o) == Val(f, end, machine, o)
  {
    if o.Ref? {
      RegsStable(f, end, machine, n, o.id);
    }
  }

  /** A value in static single assignment is given by its instruction and the values of its operands. */
  lemma ValueEquation(f: Code, end: nat, machine: Machine, i: nat)
    requires StraightLine(f, end) && i < end
    requires !f[i].Load? && !f[i].CondBr? && !f[i].Br?
    ensures Val(f, end, machine, Ref(i)) == Result(machine, SpineState(f, machine, end), f[i], i)
  {
    RegsStable(f, end, machine, i + 1, i);
    assert StraightAt(f, end, i);
    forall o | o in Operands(f[i])
      ensures ValueOf(machine, SpineState(f, machine, i).regs, o) == Val(f, end, machine, o)
    {
      OperandStable(f, end, machine, i, o);
    }
    match f[i]
    case Arith(_, l, r) => assert l in Operands(f[i]) && r in Operands(f[i]);
    case FCmp(_, l, r) => assert l in Operands(f[i]) && r in Operands(f[i]);
    case Or(a, b) => assert a in Operands(f[i]) && b in Operands(f[i]);
    case Call(_, args) =>
      assert FloatsAt(machine, SpineState(f, machine, i).regs, args)
          == FloatsAt(machine, SpineState(f, machine, end).regs, args);
    case Other(os) =>
      assert FloatsAt(machine, SpineState(f, machine, i).regs, os)
          == FloatsAt(machine, SpineState(f, machine, end).regs, os);
    case _ =>
  }

  /** The check at `i` sees a non-finite value. */
  ghost predicate Fires(f: Code, end: nat, machine: Machine, i: nat)
    requires end <= |f|
  {
    i < end && CheckAt(f, i).Some? && FloatOf(Val(f, end, machine, CheckAt(f, i).value.x)).NonFinite()
  }

  lemma OperandsPrecede(f: Code, end: nat, i: nat, o: Operand)
    requires StraightLine(f, end) && i < end && o in Operands(f[i]) && o.Ref?
    ensures o.id < i
  {
    assert StraightAt(f, end, i);
  }

  /** The branch condition of a standard check says whether its value is non-finite. */
  lemma CheckTestsFiniteness(f: Code, end: nat, machine: Machine, i: nat)
    requires StraightLine(f, end) && i < end && f[i].CondBr?
    ensures CheckAt(f, i).Some?
    ensures Holds(ValueOf(machine, SpineState(f, machine, i).regs, f[i].cond)) <==> Fires(f, end, machine, i)
  {
    assert StraightAt(f, end, i);
    var cp := CheckAt(f, i).value;
    var cond := f[i].cond;
    assert cond in Operands(f[i]);
    OperandsPrecede(f, end, i, cond);
    OperandStable(f, end, machine, i, cond);
    ValueEquation(f, end, machine, cond.id);
    assert cp.isNan in Operands(f[cond.id]) && cp.isInf in Operands(f[cond.id]);
    OperandsPrecede(f, end, cond.id, cp.isNan);
    OperandsPrecede(f, end, cond.id, cp.isInf);
    ValueEquation(f, end, machine, cp.isNan.id);
    ValueEquation(f, end, machine, cp.isInf.id);
    assert cp.fabsCall in Operands(f[cp.isInf.id]);
    OperandsPrecede(f, end, cp.isInf.id, cp.fabsCall);
    ValueEquation(f, end, machine, cp.fabsCall.id);
    FabsAgainstInfinity(machine, f[cp.fabsCall.id].callee, FloatOf(Val(f, end, machine, cp.x)));
    assert FloatsAt(machine, SpineState(f, machine, end).regs, [cp.x]) == [FloatOf(Val(f, end, machine, cp.x))];
  }

  lemma FabsAgainstInfinity(machine: Machine, name: string, x: Float)
    requires IsFabsIntrinsic(name)
    ensures (x.NaN? || x.NaN?) || OrderedEqual(LibraryValue(machine, name, [x]), Inf(false)) <==> x.NonFinite()
  {
  }

  // --- execution of code with some checks removed ---

  ghost predicate RemovesChecks(f: Code, end: nat, drops: map<nat, nat>)
    requires end <= |f|
  {
    forall i :: i in drops ==> i < end && f[i].CondBr? && drops[i] == i + 1
  }

  lemma {:induction false} TrapBlockTraps(f: Code, machine: Machine, st: State, pc: nat)
    requires BlockCallsTrap(f, pc)
    ensures Run(f, machine, st, pc) == Trapped
    decreases |f| - pc
  {
    if !(f[pc].Call? && f[pc].callee == TRAP) {
      TrapBlockTraps(f, machine, After(machine, st, f[pc], pc), pc + 1);
    }
  }

  lemma {:induction false} TrapBlocksKept(f: Code, end: nat, drops: map<nat, nat>, pc: nat)
    requires end <= |f| && RemovesChecks(f, end, drops) && end <= pc
    ensures BlockCallsTrap(Rewritten(f, drops), pc) == BlockCallsTrap(f, pc)
    decreases |f| - pc
  {
    if pc < |f| {
      TrapBlocksKept(f, end, drops, pc + 1);
    }
  }

  ghost predicate KeptCheckFires(f: Code, end: nat, machine: Machine, drops: map<nat, nat>, from: nat)
    requires end <= |f|
  {
    exists k: nat :: from <= k < end && k !in drops && Fires(f, end, machine, k)
  }

  /** One instruction: a kept check that fires traps, everything else goes on to the next instruction. */
  lemma RunStep(f: Code, end: nat, machine: Machine, drops: map<nat, nat>, pc: nat)
    requires StraightLine(f, end) && RemovesChecks(f, end, drops) && pc < end
    ensures Run(Rewritten(f, drops), machine, SpineState(f, machine, pc), pc) ==
            if pc !in drops && Fires(f, end, machine, pc) then Trapped
            else Run(Rewritten(f, drops), machine, SpineState(f, machine, pc + 1), pc + 1)
  {
    assert StraightAt(f, end, pc);
    if f[pc].CondBr? {
      CheckTestsFiniteness(f, end, machine, pc);
      if pc !in drops && Fires(f, end, machine, pc) {
        TrapBlocksKept(f, end, drops, f[pc].succ0);
        TrapBlockTraps(Rewritten(f, drops), machine, SpineState(f, machine, pc), f[pc].succ0);
      }
    } else {
      NoCheckWithoutBranch(f, end, machine, pc);
    }
  }

  /** What running straight-line code with some checks removed comes to. */
  ghost function Verdict(f: Code, end: nat, machine: Machine, traps: bool): Outcome
    requires StraightLine(f, end)
  {
    if traps then Trapped
    else Returned(FloatAt(machine, SpineState(f, machine, end).regs, f[end].result), SpineState(f, machine, end))
  }

  /** Execution from `pc` on traps exactly when a check that was kept fires, and otherwise reaches `end`. */
  lemma {:induction false} RunFrom(f: Code, end: nat, machine: Machine, drops: map<nat, nat>, pc: nat)
    requires StraightLine(f, end) && RemovesChecks(f, end, drops) && pc <= end
    ensures Run(Rewritten(f, drops), machine, SpineState(f, machine, pc), pc)
            == Verdict(f, end, machine, KeptCheckFires(f, end, machine, drops, pc))
    decreases end - pc
  {
    if pc == end {
      RunReturns(f, end, machine, drops);
    } else {
      RunFrom(f, end, machine, drops, pc + 1);
      RunStep(f, end, machine, drops, pc);
      KeptCheckStep(f, end, machine, drops, pc);
    }
  }

  lemma RunReturns(f: Code, end: nat, machine: Machine, drops: map<nat, nat>)
    requires StraightLine(f, end) && RemovesChecks(f, end, drops)
    ensures !KeptCheckFires(f, end, machine, drops, end)
    ensures Run(Rewritten(f, drops), machine, SpineState(f, machine, end), end) == Verdict(f, end, machine, false)
  {
  }

  lemma KeptCheckStep(f: Code, end: nat, machine: Machine, drops: map<nat, nat>, pc: nat)
    requires pc < end <= |f|
    ensures KeptCheckFires(f, end, machine, drops, pc) <==>
            (pc !in drops && Fires(f, end, machine, pc)) || KeptCheckFires(f, end, machine, drops, pc + 1)
  {
  }

  lemma NoCheckWithoutBranch(f: Code, end: nat, machine: Machine, i: nat)
    requires end <= |f| && i < end && !f[i].CondBr?
    ensures !Fires(f, end, machine, i)
  {
  }

  // --- non-finiteness reaches the end of the chain ---

  /** A chain operation on a non-finite operand has a non-finite result. */
  lemma ChainOpPropagates(f: Code, end: nat, machine: Machine, x: Operand, user: nat, checked: set<Operand>)
    requires StraightLine(f, end) && user < end
    requires IsChainOp(f, x, user, checked) && x in Operands(f[user])
    requires FloatOf(Val(f, end, machine, x)).NonFinite()
    ensures FloatOf(Val(f, end, machine, Ref(user))).NonFinite()
  {
    ValueEquation(f, end, machine, user);
    assert StraightAt(f, end, user);
    if f[user].Call? {
      assert f[user].args == [x];
      assert FloatsAt(machine, SpineState(f, machine, end).regs, [x]) == [FloatOf(Val(f, end, machine, x))];
      SafeLibmPropagates(machine, f[user].callee, FloatOf(Val(f, end, machine, x)));
    }
  }

  lemma SafeLibmPropagates(machine: Machine, name: string, x: Float)
    requires name in SAFE_LIBM && x.NonFinite()
    ensures LibraryValue(machine, name, [x]).NonFinite()
  {
  }

  function Applied(machine: Machine, op: ArithOp, left: bool, x: Float, y: Float): Float {
    if left then ArithValue(machine, op, x, y) else ArithValue(machine, op, y, x)
  }

  ghost predicate AlwaysPropagates(op: ArithOp, left: bool) {
    forall machine: Machine, x: Float, y: Float :: x.NonFinite() ==> Applied(machine, op, left, x, y).NonFinite()
  }

  /** The operand positions the pass accepts are exactly those from which non-finiteness always propagates. */
  lemma AcceptedPositionsAreExact(op: ArithOp, left: bool)
    ensures (op == FAdd || op == FSub || op == FMul || left) <==> AlwaysPropagates(op, left)
  {
    if (op == FDiv || op == FRem) && !left {
      var machine := Machine((_, _, _) => NaN, (_, _) => NaN, (_, _, _) => false, _ => NaN, NaN);
      assert !Applied(machine, op, left, Inf(false), Finite(false, 1.0)).NonFinite();
    } else {
      forall machine: Machine, x: Float, y: Float | x.NonFinite()
        ensures Applied(machine, op, left, x, y).NonFinite()
      {
      }
    }
  }

  // --- coverage of the dropped checks ---

  /** Load `l` reads exactly what store `s` has put into its cell. */
  ghost predicate ReadsStore(f: Code, s: nat, l: nat) {
    && s < l < |f| && f[s].Store? && f[l].Load? && f[l].ptr == f[s].ptr
    && forall t: nat :: s < t < l && f[t].Store? ==> f[t].ptr != f[s].ptr
  }

  /** Some use really consumes the value: an operation of the chain, directly or through a load that reads
      the stored value. A caller can read this off the instructions. */
  ghost predicate Consumed(f: Code, cp: CheckPoint) {
    || (exists u: nat :: RealUse(f, u, cp) && IsChainOp(f, cp.x, u, Checked(f)))
    || (exists s: nat, l: nat, u: nat :: RealUse(f, s, cp) && ReadsStore(f, s, l) && f[s].value == cp.x
          && Uses(f, u, Ref(l)) && !IsCheckPart(cp, u))
  }

  ghost predicate DropsAreConsumed(f: Code) {
    forall i :: i in Drops(f) ==> i < |f| && CheckAt(f, i).Some? && Consumed(f, CheckAt(f, i).value)
  }

  /** In code without stores every dropped check is consumed. */
  lemma NoStoresConsumed(f: Code)
    requires forall i: nat :: i < |f| ==> !f[i].Store?
    ensures DropsAreConsumed(f)
  {
    forall i | i in Drops(f)
      ensures CheckAt(f, i).Some? && Consumed(f, CheckAt(f, i).value)
    {
      var cp := CheckAt(f, i).value;
      var u: nat :| RealUse(f, u, cp);
      assert HandsOn(f, u, cp, Checked(f));
    }
  }

  lemma {:induction false} CellsNameAllocas(f: Code, machine: Machine, n: nat)
    requires n <= |f|
    ensures forall id :: id in SpineState(f, machine, n).regs && SpineState(f, machine, n).regs[id].Cell?
                         ==> SpineState(f, machine, n).regs[id].id == id
  {
    if n > 0 {
      CellsNameAllocas(f, machine, n - 1);
    }
  }

  lemma PointerIsAlloca(f: Code, machine: Machine, n: nat, p: Operand, c: nat)
    requires n <= |f| && ValueOf(machine, SpineState(f, machine, n).regs, p) == Cell(c)
    ensures p == Ref(c)
  {
    CellsNameAllocas(f, machine, n);
  }

  lemma AllocaValue(f: Code, end: nat, machine: Machine, s: nat)
    requires StraightLine(f, end) && s < end && f[s].Store?
    requires Defines(f, f[s].ptr) && f[f[s].ptr.id].Alloca?
    ensures f[s].ptr.id < s
    ensures ValueOf(machine, SpineState(f, machine, s).regs, f[s].ptr) == Cell(f[s].ptr.id)
  {
    var cell := f[s].ptr;
    assert cell in Operands(f[s]);
    OperandsPrecede(f, end, s, cell);
    OperandStable(f, end, machine, s, cell);
    ValueEquation(f, end, machine, cell.id);
  }

  /** Between a store and a load that reads it, the cell holds the stored value. */
  lemma {:induction false} CellHolds(f: Code, end: nat, machine: Machine, s: nat, l: nat, n: nat)
    requires StraightLine(f, end) && ReadsStore(f, s, l) && s < n <= l < end
    requires Defines(f, f[s].ptr) && f[f[s].ptr.id].Alloca?
    ensures f[s].ptr.id in SpineState(f, machine, n).cells
    ensures SpineState(f, machine, n).cells[f[s].ptr.id] == FloatOf(Val(f, end, machine, f[s].value))
    decreases n
  {
    var t := n - 1;
    if t == s {
      AllocaValue(f, end, machine, s);
      assert f[s].value in Operands(f[s]);
      if f[s].value.Ref? {
        OperandsPrecede(f, end, s, f[s].value);
      }
      OperandStable(f, end, machine, s, f[s].value);
    } else {
      CellHolds(f, end, machine, s, l, t);
      if f[t].Store? && ValueOf(machine, SpineState(f, machine, t).regs, f[t].ptr) == Cell(f[s].ptr.id) {
        PointerIsAlloca(f, machine, t, f[t].ptr, f[s].ptr.id);
      }
    }
  }

  lemma LoadYieldsStored(f: Code, end: nat, machine: Machine, s: nat, l: nat)
    requires StraightLine(f, end) && ReadsStore(f, s, l) && l < end
    requires Defines(f, f[s].ptr) && f[f[s].ptr.id].Alloca?
    ensures FloatOf(Val(f, end, machine, Ref(l))) == FloatOf(Val(f, end, machine, f[s].value))
  {
    var cell := f[s].ptr;
    CellHolds(f, end, machine, s, l, l);
    AllocaValue(f, end, machine, s);
    OperandStable(f, end, machine, s, cell);
    OperandStable(f, end, machine, l, cell);
    RegsStable(f, end, machine, l + 1, l);
  }

  /** A checked value is computed before its check, on the line. */
  lemma CheckedOnLine(f: Code, end: nat, u: nat) returns (k: nat)
    requires StraightLine(f, end) && Ref(u) in Checked(f)
    ensures u < k < end && CheckAt(f, k).Some? && CheckAt(f, k).value.x == Ref(u)
  {
    var cp :| cp in Checks(f) && cp.x == Ref(u);
    ChecksToMembers(f, |f|, cp);
    k := cp.br;
    CheckEndsAtBranch(f, k);
    var cond := f[k].cond;
    assert cond in Operands(f[k]);
    OperandsPrecede(f, end, k, cond);
    assert cp.isNan in Operands(f[cond.id]);
    OperandsPrecede(f, end, cond.id, cp.isNan);
    assert cp.x in Operands(f[cp.isNan.id]);
    OperandsPrecede(f, end, cp.isNan.id, cp.x);
  }

  ghost function Position(o: Operand): nat {
    if o.Ref? then o.id + 1 else 0
  }

  /** One link of the chain: a non-finite operand of a chain operation makes a later check fire. */
  lemma LinkFires(f: Code, end: nat, machine: Machine, x: Operand, u: nat) returns (k: nat)
    requires StraightLine(f, end) && Uses(f, u, x) && IsChainOp(f, x, u, Checked(f))
    requires FloatOf(Val(f, end, machine, x)).NonFinite()
    ensures Fires(f, end, machine, k) && CheckAt(f, k).value.x == Ref(u)
    ensures u < end && Position(x) <= u
  {
    k := CheckedOnLine(f, end, u);
    if x.Ref? {
      OperandsPrecede(f, end, u, x);
    }
    ChainOpPropagates(f, end, machine, x, u, Checked(f));
  }

  lemma ForwardedUse(f: Code, cp: CheckPoint, s: nat, l: nat, u: nat)
    requires ReadsStore(f, s, l) && Forwardable(f, s, cp, Checked(f))
    requires Uses(f, u, Ref(l)) && !IsCheckPart(cp, u)
    ensures IsChainOp(f, Ref(l), u, Checked(f))
    ensures f[s].value == cp.x && Defines(f, f[s].ptr) && f[f[s].ptr.id].Alloca?
  {
    assert Uses(f, l, f[s].ptr);
    assert LoadFeedsChain(f, l, cp, Checked(f));
  }

  lemma ForwardedLinkFires(f: Code, end: nat, machine: Machine, s: nat, l: nat, u: nat) returns (k: nat)
    requires StraightLine(f, end) && ReadsStore(f, s, l)
    requires Defines(f, f[s].ptr) && f[f[s].ptr.id].Alloca?
    requires Uses(f, u, Ref(l)) && IsChainOp(f, Ref(l), u, Checked(f))
    requires FloatOf(Val(f, end, machine, f[s].value)).NonFinite()
    ensures Fires(f, end, machine, k) && CheckAt(f, k).value.x == Ref(u)
    ensures u < end && Position(f[s].value) <= u
  {
    k := CheckedOnLine(f, end, u);
    OperandsPrecede(f, end, u, Ref(l));
    LoadYieldsStored(f, end, machine, s, l);
    assert f[s].value in Operands(f[s]);
    if f[s].value.Ref? {
      OperandsPrecede(f, end, s, f[s].value);
    }
    ChainOpPropagates(f, end, machine, Ref(l), u, Checked(f));
  }

  /** A dropped check of a consumed value that fires: a check of a value computed later fires too. */
  lemma ConsumedFiresLater(f: Code, end: nat, machine: Machine, i: nat) returns (k: nat)
    requires StraightLine(f, end) && i in Drops(f) && Fires(f, end, machine, i)
    requires Consumed(f, CheckAt(f, i).value)
    ensures Fires(f, end, machine, k)
    ensures Position(CheckAt(f, i).value.x) < Position(CheckAt(f, k).value.x) <= end
  {
    var cp := CheckAt(f, i).value;
    if u: nat :| RealUse(f, u, cp) && IsChainOp(f, cp.x, u, Checked(f)) {
      k := LinkFires(f, end, machine, cp.x, u);
    } else {
      var s: nat, l: nat, u: nat :| RealUse(f, s, cp) && ReadsStore(f, s, l) && f[s].value == cp.x
                                    && Uses(f, u, Ref(l)) && !IsCheckPart(cp, u);
      assert HandsOn(f, s, cp, Checked(f));
      ForwardedUse(f, cp, s, l, u);
      k := ForwardedLinkFires(f, end, machine, s, l, u);
    }
  }

  /** Every check that fires is covered: a check that is kept fires, of the same value or of one computed later. */
  lemma {:induction false} FiringIsCovered(f: Code, end: nat, machine: Machine, i: nat) returns (k: nat)
    requires StraightLine(f, end) && DropsAreConsumed(f)
    requires Fires(f, end, machine, i)
    ensures Fires(f, end, machine, k) && k !in Drops(f)
    ensures Position(CheckAt(f, i).value.x) <= Position(CheckAt(f, k).value.x)
    decreases end - Position(CheckAt(f, i).value.x)
  {
    k := i;
    if i in Drops(f) {
      k := ConsumedFiresLater(f, end, machine, i);
      k := FiringIsCovered(f, end, machine, k);
    }
  }

  lemma DropsAreChecks(f: Code, end: nat)
    requires StraightLine(f, end)
    ensures RemovesChecks(f, end, Drops(f))
  {
    forall i | i in Drops(f)
      ensures i < end && f[i].CondBr? && Drops(f)[i] == i + 1
    {
      CheckEndsAtBranch(f, i);
      assert StraightAt(f, end, i);
    }
  }

  lemma RewrittenByNothing(f: Code)
    ensures Rewritten(f, map[]) == f
  {
  }

  /** The pass keeps the outcome of straight-line code on every machine: it traps exactly when the original
      does, and otherwise ends in the same state with the same result. */
  lemma ConvergencePreservesOutcome(f: Code, end: nat, machine: Machine)
    requires StraightLine(f, end) && DropsAreConsumed(f)
    ensures Run(Converged(f), machine, Initial, 0) == Run(f, machine, Initial, 0)
  {
    DropsAreChecks(f, end);
    RewrittenByNothing(f);
    RunFrom(f, end, machine, Drops(f), 0);
    RunFrom(f, end, machine, map[], 0);
    if k: nat :| k < end && Fires(f, end, machine, k) {
      var kept := FiringIsCovered(f, end, machine, k);
      assert KeptCheckFires(f, end, machine, Drops(f), 0);
    }
  }

  /** Code without stores needs no further condition. */
  lemma PureConvergencePreservesOutcome(f: Code, end: nat, machine: Machine)
    requires StraightLine(f, end)
    requires forall i: nat :: i < |f| ==> !f[i].Store?
    ensures Run(Converged(f), machine, Initial, 0) == Run(f, machine, Initial, 0)
  {
    NoStoresConsumed(f);
    ConvergencePreservesOutcome(f, end, machine);
  }

  // --- exactly when the pass loses a trap ---

  /** The parts of a standard check use its value, and neither hands non-finiteness on. */
  lemma PartsAreDeadEnds(f: Code, end: nat, i: nat, checked: set<Operand>)
    requires StraightLine(f, end) && i < end && CheckAt(f, i).Some?
    ensures var cp := CheckAt(f, i).value;
            && Defines(f, cp.isNan) && Defines(f, cp.fabsCall)
            && Uses(f, cp.isNan.id, cp.x) && Uses(f, cp.fabsCall.id, cp.x)
            && !IsChainOp(f, cp.x, cp.isNan.id, checked) && !IsChainOp(f, cp.x, cp.fabsCall.id, checked)
            && f[cp.isNan.id].FCmp? && f[cp.fabsCall.id].Call?
  {
    assert StraightAt(f, end, i);
  }

  lemma DeadEndIsPart(f: Code, cp: CheckPoint, u: nat)
    requires Relay(f, cp, Checked(f)) && Uses(f, u, cp.x)
    requires !IsChainOp(f, cp.x, u, Checked(f)) && !f[u].Store?
    ensures IsCheckPart(cp, u)
  {
    assert HandsOn(f, u, cp, Checked(f));
  }

  /** A dropped check shares its parts with every other standard check of its value. */
  lemma DroppedSharesParts(f: Code, end: nat, i: nat, k: nat)
    requires StraightLine(f, end) && i in Drops(f) && i < end
    requires k < end && CheckAt(f, k).Some? && CheckAt(f, k).value.x == CheckAt(f, i).value.x
    ensures CheckAt(f, k).value.isNan == CheckAt(f, i).value.isNan
    ensures CheckAt(f, k).value.fabsCall == CheckAt(f, i).value.fabsCall
  {
    var cp, other := CheckAt(f, i).value, CheckAt(f, k).value;
    PartsAreDeadEnds(f, end, i, Checked(f));
    PartsAreDeadEnds(f, end, k, Checked(f));
    DeadEndIsPart(f, cp, other.isNan.id);
    DeadEndIsPart(f, cp, other.fabsCall.id);
  }

  lemma SamePartsSameUses(f: Code, cp: CheckPoint, other: CheckPoint, u: nat)
    requires cp.x == other.x && cp.isNan == other.isNan && cp.fabsCall == other.fabsCall
    ensures RealUse(f, u, cp) == RealUse(f, u, other)
    ensures u < |f| && HandsOn(f, u, cp, Checked(f)) ==> HandsOn(f, u, other, Checked(f))
  {
    if u < |f| && Forwardable(f, u, cp, Checked(f)) {
      forall l: nat | Uses(f, l, f[u].ptr) && f[l].Load?
        ensures LoadFeedsChain(f, l, other, Checked(f))
      {
        assert LoadFeedsChain(f, l, cp, Checked(f));
      }
    }
  }

  /** The checks of one value are all dropped or all kept. */
  lemma DroppedTogether(f: Code, end: nat, i: nat, k: nat)
    requires StraightLine(f, end) && i in Drops(f) && i < end
    requires k < end && CheckAt(f, k).Some? && CheckAt(f, k).value.x == CheckAt(f, i).value.x
    ensures k in Drops(f)
  {
    var cp, other := CheckAt(f, i).value, CheckAt(f, k).value;
    DroppedSharesParts(f, end, i, k);
    forall u: nat
      ensures RealUse(f, u, cp) == RealUse(f, u, other)
      ensures Uses(f, u, other.x) ==> HandsOn(f, u, other, Checked(f))
    {
      SamePartsSameUses(f, cp, other, u);
    }
    assert Relay(f, other, Checked(f));
  }

  /** Every check that fires is of the value that check `i` tests. */
  ghost predicate FiresAlone(f: Code, end: nat, machine: Machine, i: nat)
    requires end <= |f|
  {
    && Fires(f, end, machine, i)
    && forall k: nat :: Fires(f, end, machine, k) ==> CheckAt(f, k).value.x == CheckAt(f, i).value.x
  }

  /** Where only one value is non-finite at its checks, the outcome is kept exactly when its check is. */
  lemma OutcomeKeptExactly(f: Code, end: nat, machine: Machine, i: nat)
    requires StraightLine(f, end) && FiresAlone(f, end, machine, i)
    ensures Run(Converged(f), machine, Initial, 0) == Run(f, machine, Initial, 0) <==> i !in Drops(f)
    ensures i in Drops(f) ==> !Consumed(f, CheckAt(f, i).value) && Run(Converged(f), machine, Initial, 0).Returned?
    ensures Run(f, machine, Initial, 0) == Trapped
  {
    if i in Drops(f) {
      forall k: nat | k < end && Fires(f, end, machine, k) ensures k in Drops(f) {
        DroppedTogether(f, end, i, k);
      }
      if Consumed(f, CheckAt(f, i).value) {
        var k := ConsumedFiresLater(f, end, machine, i);
      }
      OutcomesDiffer(f, machine, end, i);
    } else {
      BothTrap(f, machine, end, i);
    }
  }

  lemma BothTrap(f: Code, machine: Machine, end: nat, i: nat)
    requires StraightLine(f, end) && Fires(f, end, machine, i) && i !in Drops(f)
    ensures Run(Converged(f), machine, Initial, 0) == Run(f, machine, Initial, 0) == Trapped
  {
    DropsAreChecks(f, end);
    RewrittenByNothing(f);
    RunFrom(f, end, machine, Drops(f), 0);
    RunFrom(f, end, machine, map[], 0);
    assert KeptCheckFires(f, end, machine, Drops(f), 0) && KeptCheckFires(f, end, machine, map[], 0);
  }

  lemma OutcomesDiffer(f: Code, machine: Machine, end: nat, i: nat)
    requires StraightLine(f, end) && Fires(f, end, machine, i)
    requires !KeptCheckFires(f, end, machine, Drops(f), 0)
    ensures Run(f, machine, Initial, 0) == Trapped
    ensures Run(Converged(f), machine, Initial, 0).Returned?
  {
    DropsAreChecks(f, end);
    RewrittenByNothing(f);
    RunFrom(f, end, machine, Drops(f), 0);
    RunFrom(f, end, machine, map[], 0);
    assert KeptCheckFires(f, end, machine, map[], 0);
  }

  // --- code that loses its trap ---

  /** The sum of a parameter with itself, checked, stored into a local cell and loaded, the load unused. */
  const DEAD_LOAD: Code := [
    Alloca,
    Arith(FAdd, Param(0), Param(0)),
    FCmp(Uno, Ref(1), Ref(1)),
    Call("llvm.fabs.f64", [Ref(1)]),
    FCmp(Oeq, Ref(3), Const(Inf(false))),
    Or(Ref(2), Ref(4)),
    CondBr(Ref(5), 10, 7),
    Store(Ref(1), Ref(0)),
    Load(Ref(0)),
    Ret(Const(Finite(false, 0.0))),
    Call(TRAP, []),
    Unreachable]

  ghost predicate IsDeadLoad(f: Code) {
    && |f| == 12
    && f[0] == Alloca
    && f[1] == Arith(FAdd, Param(0), Param(0))
    && f[2] == FCmp(Uno, Ref(1), Ref(1))
    && f[3] == Call("llvm.fabs.f64", [Ref(1)])
    && f[4] == FCmp(Oeq, Ref(3), Const(Inf(false)))
    && f[5] == Or(Ref(2), Ref(4))
    && f[6] == CondBr(Ref(5), 10, 7)
    && f[7] == Store(Ref(1), Ref(0))
    && f[8] == Load(Ref(0))
    && f[9] == Ret(Const(Finite(false, 0.0)))
    && f[10] == Call(TRAP, [])
    && f[11] == Unreachable
  }

  const DEAD_LOAD_CHECK := CheckPoint(Ref(1), Ref(2), Ref(4), Ref(3), 6, 7)

  lemma DeadLoadCheckFound(f: Code)
    requires IsDeadLoad(f)
    ensures BlockCallsTrap(f, 10)
    ensures CheckAt(f, 6) == Some(DEAD_LOAD_CHECK)
  {
  }

  lemma DeadLoadStarts(f: Code)
    requires IsDeadLoad(f)
    ensures StraightAt(f, 9, 0) && StraightAt(f, 9, 1) && StraightAt(f, 9, 2) && StraightAt(f, 9, 3)
  {
  }

  lemma DeadLoadGoesOn(f: Code)
    requires IsDeadLoad(f)
    ensures StraightAt(f, 9, 4) && StraightAt(f, 9, 5) && StraightAt(f, 9, 7) && StraightAt(f, 9, 8)
  {
  }

  lemma DeadLoadChecks(f: Code)
    requires IsDeadLoad(f)
    ensures StraightAt(f, 9, 6)
  {
    DeadLoadCheckFound(f);
    assert StandardCheck(f, 9, 6);
  }

  lemma DeadLoadIsStraight(f: Code)
    requires IsDeadLoad(f)
    ensures StraightLine(f, 9)
  {
    DeadLoadStarts(f);
    DeadLoadGoesOn(f);
    DeadLoadChecks(f);
    forall i: nat | i < 9 ensures StraightAt(f, 9, i) {
      assert i == 0 || i == 1 || i == 2 || i == 3 || i == 4 || i == 5 || i == 6 || i == 7 || i == 8;
    }
  }

  lemma DeadLoadUses(f: Code, u: nat)
    requires IsDeadLoad(f)
    ensures Uses(f, u, Ref(1)) <==> u == 2 || u == 3 || u == 7
    ensures Uses(f, u, Ref(0)) <==> u == 7 || u == 8
    ensures !Uses(f, u, Ref(8))
  {
    if u < 6 {
    } else if u < 12 {
    }
  }

  /** Its only check is dropped although nothing consumes the value. */
  lemma DeadLoadDrop(f: Code)
    requires IsDeadLoad(f)
    ensures 6 in Drops(f) && !DropsAreConsumed(f)
  {
    var cp := DEAD_LOAD_CHECK;
    DeadLoadCheckFound(f);
    forall u: nat
      ensures Uses(f, u, cp.x) ==> u == 7 || IsCheckPart(cp, u)
      ensures Uses(f, u, Ref(0)) ==> PrivateUse(f, 7, u)
      ensures Uses(f, u, Ref(0)) && f[u].Load? ==> LoadFeedsChain(f, u, cp, Checked(f))
    {
      DeadLoadUses(f, u);
      if u == 8 {
        forall v: nat
          ensures !Uses(f, v, Ref(8))
        {
          DeadLoadUses(f, v);
        }
      }
    }
    DeadLoadUses(f, 7);
    DeadLoadUses(f, 8);
    assert Forwardable(f, 7, cp, Checked(f));
    assert RealUse(f, 7, cp);
    assert Relay(f, cp, Checked(f));
    DeadLoadNotConsumed(f);
  }

  lemma DeadLoadNotConsumed(f: Code)
    requires IsDeadLoad(f)
    ensures !Consumed(f, DEAD_LOAD_CHECK)
  {
    forall u: nat
      ensures RealUse(f, u, DEAD_LOAD_CHECK) ==> u == 7
      ensures !Uses(f, u, Ref(8))
    {
      DeadLoadUses(f, u);
    }
    forall l: nat
      ensures ReadsStore(f, 7, l) ==> l == 8
    {
    }
  }

  /** A forwarded value whose load is unused loses its trap: with a parameter that overflows, the original
      traps and the converged code returns. */
  lemma DeadLoadLosesTrap(machine: Machine)
    requires machine.params(0) == Inf(false)
    ensures StraightLine(DEAD_LOAD, 9) && !DropsAreConsumed(DEAD_LOAD)
    ensures Run(DEAD_LOAD, machine, Initial, 0) == Trapped
    ensures Run(Converged(DEAD_LOAD), machine, Initial, 0).Returned?
  {
    assert IsDeadLoad(DEAD_LOAD);
    DeadLoadOutcomes(DEAD_LOAD, machine);
  }

  lemma DeadLoadFires(f: Code, machine: Machine)
    requires IsDeadLoad(f) && machine.params(0) == Inf(false)
    ensures Fires(f, 9, machine, 6)
  {
    DeadLoadIsStraight(f);
    DeadLoadCheckFound(f);
    ValueEquation(f, 9, machine, 1);
  }

  lemma DeadLoadBranches(f: Code, k: nat)
    requires IsDeadLoad(f) && k < 9 && k != 6
    ensures !f[k].CondBr?
  {
    assert k == 0 || k == 1 || k == 2 || k == 3 || k == 4 || k == 5 || k == 7 || k == 8;
  }

  lemma DeadLoadOutcomes(f: Code, machine: Machine)
    requires IsDeadLoad(f) && machine.params(0) == Inf(false)
    ensures StraightLine(f, 9) && !DropsAreConsumed(f)
    ensures Run(f, machine, Initial, 0) == Trapped
    ensures Run(Converged(f), machine, Initial, 0).Returned?
  {
    DeadLoadIsStraight(f);
    DeadLoadDrop(f);
    DeadLoadFires(f, machine);
    forall k: nat | k < 9 && k != 6
      ensures !Fires(f, 9, machine, k)
    {
      DeadLoadBranches(f, k);
      NoCheckWithoutBranch(f, 9, machine, k);
    }
    assert FiresAlone(f, 9, machine, 6);
    OutcomeKeptExactly(f, 9, machine, 6);
  }
}
