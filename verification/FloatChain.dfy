/** Convergence of float finiteness checks to the ends of arithmetic chains (src/codegen/float_chain.rs). */
module FloatChain {
  import opened Wrappers
  import opened FloatIr

  /** `br not_finite trap ok`, recognised together with the parts that compute `not_finite`. */
  datatype CheckPoint = CheckPoint(x: Operand, isNan: Operand, isInf: Operand, fabsCall: Operand, br: nat, ok: nat)

  predicate IsUno(f: Code, v: Operand) {
    Defines(f, v) && f[v.id].FCmp? && f[v.id].pred == Uno && f[v.id].left == f[v.id].right
  }

  predicate IsInfCmp(f: Code, v: Operand) {
    Defines(f, v) && f[v.id].FCmp? && f[v.id].pred == Oeq
  }

  function ClassifyFcmp(f: Code, a: Operand, b: Operand): Option<(Operand, Operand)> {
    if IsUno(f, a) && IsInfCmp(f, b) then Some((a, b))
    else if IsUno(f, b) && IsInfCmp(f, a) then Some((b, a))
    else None
  }

  /** Whether the block that starts at `start` calls the trap before it ends. */
  predicate BlockCallsTrap(f: Code, start: nat)
    decreases |f| - start
  {
    start < |f| &&
    ((f[start].Call? && f[start].callee == TRAP) ||
     (!IsTerminator(f[start]) && BlockCallsTrap(f, start + 1)))
  }

  method CallsTrap(f: Code, start: nat) returns (r: bool)
    ensures r == BlockCallsTrap(f, start)
  {
    var i := start;
    while i < |f|
      invariant BlockCallsTrap(f, start) == BlockCallsTrap(f, i)
    {
      if f[i].Call? && f[i].callee == TRAP {
        return true;
      }
      if IsTerminator(f[i]) {
        return false;
      }
      i := i + 1;
    }
    return false;
  }

  /** The check point that ends at instruction `i`, if `i` is the branch of one. */
  function CheckAt(f: Code, i: nat): Option<CheckPoint>
    requires i < |f|
  {
    if !f[i].CondBr? then None else
    var cond := f[i].cond;
    if !Defines(f, cond) || !f[cond.id].Or? then None else
    match ClassifyFcmp(f, f[cond.id].a, f[cond.id].b)
    case None => None
    case Some((isNan, isInf)) =>
      var x := f[isNan.id].left;
      var fabsCall := f[isInf.id].left;
      if !Defines(f, fabsCall) || !f[fabsCall.id].Call? then None
      else if BlockCallsTrap(f, f[i].succ0) then Some(CheckPoint(x, isNan, isInf, fabsCall, i, f[i].succ1))
      else if BlockCallsTrap(f, f[i].succ1) then Some(CheckPoint(x, isNan, isInf, fabsCall, i, f[i].succ0))
      else None
  }

  function ChecksTo(f: Code, n: nat): seq<CheckPoint>
    requires n <= |f|
  {
    if n == 0 then [] else
    ChecksTo(f, n - 1) + (match CheckAt(f, n - 1) case Some(cp) => [cp] case None => [])
  }

  function Checks(f: Code): seq<CheckPoint> {
    ChecksTo(f, |f|)
  }

  function Checked(f: Code): set<Operand> {
    set cp <- Checks(f) :: cp.x
  }

  lemma CheckEndsAtBranch(f: Code, i: nat)
    requires i < |f|
    ensures CheckAt(f, i).Some? ==> f[i].CondBr? && CheckAt(f, i).value.br == i
  {
  }

  lemma OneMoreCheck(f: Code, n: nat, cp: CheckPoint)
    requires n < |f|
    ensures cp in ChecksTo(f, n + 1) <==> cp in ChecksTo(f, n) || CheckAt(f, n) == Some(cp)
    ensures CheckAt(f, n) == Some(cp) ==> cp.br == n
  {
    CheckEndsAtBranch(f, n);
  }

  /** Check `cp` stands at its own branch, among the first `n` instructions. */
  predicate StandsBefore(f: Code, n: nat, cp: CheckPoint) {
    cp.br < n && cp.br < |f| && CheckAt(f, cp.br) == Some(cp)
  }

  lemma StandsOneLater(f: Code, n: nat, cp: CheckPoint)
    requires n < |f|
    ensures StandsBefore(f, n + 1, cp) <==> StandsBefore(f, n, cp) || CheckAt(f, n) == Some(cp)
  {
    CheckEndsAtBranch(f, n);
  }

  ghost predicate ListsStanding(f: Code, n: nat, cp: CheckPoint)
    requires n <= |f|
  {
    cp in ChecksTo(f, n) <==> StandsBefore(f, n, cp)
  }

  lemma ListsOneMore(f: Code, n: nat, cp: CheckPoint)
    requires n < |f| && ListsStanding(f, n, cp)
    ensures ListsStanding(f, n + 1, cp)
  {
    OneMoreCheck(f, n, cp);
    StandsOneLater(f, n, cp);
  }

  lemma {:induction false} ChecksStand(f: Code, n: nat, cp: CheckPoint)
    requires n <= |f|
    ensures ListsStanding(f, n, cp)
  {
    if n > 0 {
      ChecksStand(f, n - 1, cp);
      ListsOneMore(f, n - 1, cp);
    }
  }

  lemma ChecksToMembers(f: Code, n: nat, cp: CheckPoint)
    requires n <= |f|
    ensures cp in ChecksTo(f, n) <==> cp.br < n && CheckAt(f, cp.br) == Some(cp)
  {
    ChecksStand(f, n, cp);
  }

  const SAFE_LIBM := ["sqrt", "log", "log2", "log10", "sin", "cos", "tan", "asin", "acos", "sinh", "cosh", "cbrt",
                      "fabs", "floor", "ceil", "round"]

  predicate IsPropagatingLibmCall(inst: Inst) {
    inst.Call? && inst.callee in SAFE_LIBM
  }

  predicate IsChainOp(f: Code, x: Operand, user: nat, checked: set<Operand>)
    requires user < |f|
  {
    Ref(user) in checked &&
    match f[user]
    case Arith(op, l, _) => op == FAdd || op == FSub || op == FMul || l == x
    case Call(_, _) => IsPropagatingLibmCall(f[user])
    case _ => false
  }

  predicate Uses(f: Code, user: nat, x: Operand) {
    user < |f| && x in Operands(f[user])
  }

  /** The instructions that have `x` as an operand: its use list. */
  function UsersTo(f: Code, x: Operand, n: nat): seq<nat>
    requires n <= |f|
  {
    if n == 0 then [] else
    UsersTo(f, x, n - 1) + (if Uses(f, n - 1, x) then [n - 1] else [])
  }

  function Users(f: Code, x: Operand): seq<nat> {
    UsersTo(f, x, |f|)
  }

  lemma {:induction false} UsersToMembers(f: Code, x: Operand, n: nat, user: nat)
    requires n <= |f|
    ensures user in UsersTo(f, x, n) <==> user < n && Uses(f, user, x)
  {
    if n > 0 {
      UsersToMembers(f, x, n - 1, user);
    }
  }

  lemma UsersMembers(f: Code, x: Operand)
    ensures forall u: nat :: u in Users(f, x) <==> Uses(f, u, x)
  {
    forall u: nat
      ensures u in Users(f, x) <==> Uses(f, u, x)
    {
      UsersToMembers(f, x, |f|, u);
    }
  }

  /** A part of the check itself, which does not count as a use of the checked value. */
  predicate IsCheckPart(cp: CheckPoint, user: nat) {
    Ref(user) == cp.isNan || Ref(user) == cp.fabsCall
  }

  /** A use of the memory cell of a forwarded value that keeps the cell private to it. */
  predicate PrivateUse(f: Code, user: nat, u: nat)
    requires u < |f|
  {
    f[u].Load? || (f[u].Store? && (u == user || f[u].value.Const?))
  }

  ghost predicate LoadFeedsChain(f: Code, load: nat, cp: CheckPoint, checked: set<Operand>) {
    forall u: nat :: Uses(f, u, Ref(load)) ==> IsCheckPart(cp, u) || IsChainOp(f, Ref(load), u, checked)
  }

  /** `user` stores the checked value into a private cell whose loads are consumed by chain members only. */
  ghost predicate Forwardable(f: Code, user: nat, cp: CheckPoint, checked: set<Operand>)
    requires user < |f|
  {
    && f[user].Store?
    && f[user].value == cp.x
    && var cell := f[user].ptr;
    && Defines(f, cell) && f[cell.id].Alloca?
    && (forall u: nat :: Uses(f, u, cell) ==> PrivateUse(f, user, u))
    && (exists u: nat :: Uses(f, u, cell) && f[u].Load?)
    && (forall u: nat :: Uses(f, u, cell) && f[u].Load? ==> LoadFeedsChain(f, u, cp, checked))
  }

  ghost predicate HandsOn(f: Code, u: nat, cp: CheckPoint, checked: set<Operand>)
    requires u < |f|
  {
    IsCheckPart(cp, u) || IsChainOp(f, cp.x, u, checked) || Forwardable(f, u, cp, checked)
  }

  ghost predicate RealUse(f: Code, u: nat, cp: CheckPoint) {
    Uses(f, u, cp.x) && !IsCheckPart(cp, u)
  }

  /** The checked value has real uses, and each hands its non-finiteness on to another checked value. */
  ghost predicate Relay(f: Code, cp: CheckPoint, checked: set<Operand>) {
    && (exists u: nat :: RealUse(f, u, cp))
    && forall u: nat :: Uses(f, u, cp.x) ==> HandsOn(f, u, cp, checked)
  }

  /** The first `k` users keep the cell private. */
  ghost predicate AllPrivate(f: Code, user: nat, users: seq<nat>, k: nat)
    requires k <= |users|
  {
    k == 0 || (AllPrivate(f, user, users, k - 1) && users[k - 1] < |f| && PrivateUse(f, user, users[k - 1]))
  }

  lemma {:induction false} AllPrivateAt(f: Code, user: nat, users: seq<nat>, k: nat, j: nat)
    requires j < k <= |users| && AllPrivate(f, user, users, k)
    ensures users[j] < |f| && PrivateUse(f, user, users[j])
  {
    if j < k - 1 {
      AllPrivateAt(f, user, users, k - 1, j);
    }
  }

  lemma AllUsersPrivate(f: Code, user: nat, cell: Operand)
    requires AllPrivate(f, user, Users(f, cell), |Users(f, cell)|)
    ensures forall u: nat :: Uses(f, u, cell) ==> PrivateUse(f, user, u)
  {
    var users := Users(f, cell);
    forall u: nat | Uses(f, u, cell)
      ensures PrivateUse(f, user, u)
    {
      UsersToMembers(f, cell, |f|, u);
      var j :| 0 <= j < |users| && users[j] == u;
      AllPrivateAt(f, user, users, |users|, j);
    }
  }

  /** The loads among the first `k` users. */
  function LoadsAmong(f: Code, users: seq<nat>, k: nat): seq<nat>
    requires k <= |users|
  {
    if k == 0 then [] else
    LoadsAmong(f, users, k - 1) + (if users[k - 1] < |f| && f[users[k - 1]].Load? then [users[k - 1]] else [])
  }

  lemma {:induction false} LoadsAmongMembers(f: Code, users: seq<nat>, k: nat, l: nat)
    requires k <= |users|
    ensures l in LoadsAmong(f, users, k) <==> l in users[..k] && l < |f| && f[l].Load?
  {
    if k > 0 {
      LoadsAmongMembers(f, users, k - 1, l);
      assert users[..k] == users[..k - 1] + [users[k - 1]];
    }
  }

  lemma LoadsOfCell(f: Code, cell: Operand)
    ensures forall l: nat :: l in LoadsAmong(f, Users(f, cell), |Users(f, cell)|) <==> Uses(f, l, cell) && f[l].Load?
  {
    var users := Users(f, cell);
    forall l: nat
      ensures l in LoadsAmong(f, users, |users|) <==> Uses(f, l, cell) && f[l].Load?
    {
      LoadsAmongMembers(f, users, |users|, l);
      assert users[..|users|] == users;
      UsersToMembers(f, cell, |f|, l);
    }
  }

  lemma EscapingUse(f: Code, user: nat, cell: Operand, u: nat)
    requires u in Users(f, cell) && (u < |f| ==> !PrivateUse(f, user, u))
    ensures exists v: nat :: Uses(f, v, cell) && !PrivateUse(f, user, v)
  {
    UsersToMembers(f, cell, |f|, u);
    assert Uses(f, u, cell);
  }

  /** The scan of the cell's uses: `None` when one of them lets the cell escape. */
  method PrivateLoads(f: Code, user: nat, cell: Operand) returns (loads: Option<seq<nat>>)
    ensures loads.None? <==> exists u: nat :: Uses(f, u, cell) && !PrivateUse(f, user, u)
    ensures loads.Some? ==> forall l: nat :: l in loads.value <==> Uses(f, l, cell) && f[l].Load?
  {
    var uses := Users(f, cell);
    var found: seq<nat> := [];
    for k := 0 to |uses|
      invariant AllPrivate(f, user, uses, k)
      invariant found == LoadsAmong(f, uses, k)
    {
      var u := uses[k];
      UsersToMembers(f, cell, |f|, u);
      if f[u].Store? {
        if u != user && !f[u].value.Const? {
          EscapingUse(f, user, cell, u);
          return None;
        }
      } else if f[u].Load? {
        found := found + [u];
      } else {
        EscapingUse(f, user, cell, u);
        return None;
      }
    }
    AllUsersPrivate(f, user, cell);
    LoadsOfCell(f, cell);
    return Some(found);
  }

  method FeedsChain(f: Code, load: nat, cp: CheckPoint, checked: set<Operand>) returns (r: bool)
    ensures r == LoadFeedsChain(f, load, cp, checked)
  {
    var uses := Users(f, Ref(load));
    UsersMembers(f, Ref(load));
    for k := 0 to |uses|
      invariant forall j :: 0 <= j < k ==>
                  Uses(f, uses[j], Ref(load)) && (IsCheckPart(cp, uses[j]) || IsChainOp(f, Ref(load), uses[j], checked))
    {
      assert Uses(f, uses[k], Ref(load));
      if !IsCheckPart(cp, uses[k]) && !IsChainOp(f, Ref(load), uses[k], checked) {
        return false;
      }
    }
    return true;
  }

  method StoresIntoForwardableAlloca(f: Code, user: nat, cp: CheckPoint, checked: set<Operand>) returns (r: bool)
    requires user < |f|
    ensures r == Forwardable(f, user, cp, checked)
  {
    if !f[user].Store? || f[user].value != cp.x {
      return false;
    }
    var cell := f[user].ptr;
    if !Defines(f, cell) || !f[cell.id].Alloca? {
      return false;
    }
    var loads := PrivateLoads(f, user, cell);
    if loads.None? || loads.value == [] {
      return false;
    }
    assert loads.value[0] in loads.value;
    for k := 0 to |loads.value|
      invariant forall j :: 0 <= j < k ==> LoadFeedsChain(f, loads.value[j], cp, checked)
    {
      assert loads.value[k] in loads.value;
      var feeds := FeedsChain(f, loads.value[k], cp, checked);
      if !feeds {
        return false;
      }
    }
    return true;
  }

  ghost predicate AllHandOn(f: Code, users: seq<nat>, k: nat, cp: CheckPoint, checked: set<Operand>)
    requires k <= |users|
  {
    k == 0 || (AllHandOn(f, users, k - 1, cp, checked) && users[k - 1] < |f| && HandsOn(f, users[k - 1], cp, checked))
  }

  lemma {:induction false} AllHandOnAt(f: Code, users: seq<nat>, k: nat, cp: CheckPoint, checked: set<Operand>, j: nat)
    requires j < k <= |users| && AllHandOn(f, users, k, cp, checked)
    ensures users[j] < |f| && HandsOn(f, users[j], cp, checked)
  {
    if j < k - 1 {
      AllHandOnAt(f, users, k - 1, cp, checked, j);
    }
  }

  lemma AllUsersHandOn(f: Code, cp: CheckPoint, checked: set<Operand>)
    requires AllHandOn(f, Users(f, cp.x), |Users(f, cp.x)|, cp, checked)
    ensures forall u: nat :: Uses(f, u, cp.x) ==> HandsOn(f, u, cp, checked)
  {
    var users := Users(f, cp.x);
    forall u: nat | Uses(f, u, cp.x)
      ensures HandsOn(f, u, cp, checked)
    {
      UsersToMembers(f, cp.x, |f|, u);
      var j :| 0 <= j < |users| && users[j] == u;
      AllHandOnAt(f, users, |users|, cp, checked, j);
    }
  }

  method UserHandsOn(f: Code, user: nat, cp: CheckPoint, checked: set<Operand>) returns (r: bool)
    requires user < |f|
    requires !IsCheckPart(cp, user)
    ensures r == HandsOn(f, user, cp, checked)
  {
    if IsChainOp(f, cp.x, user, checked) {
      return true;
    }
    r := StoresIntoForwardableAlloca(f, user, cp, checked);
  }

  method IsRelay(f: Code, cp: CheckPoint, checked: set<Operand>) returns (r: bool)
    ensures r == Relay(f, cp, checked)
  {
    var hadRealUse := false;
    var uses := Users(f, cp.x);
    UsersMembers(f, cp.x);
    for k := 0 to |uses|
      invariant hadRealUse ==> exists u: nat :: RealUse(f, u, cp)
      invariant !hadRealUse ==> forall j :: 0 <= j < k ==> IsCheckPart(cp, uses[j])
      invariant AllHandOn(f, uses, k, cp, checked)
    {
      var user := uses[k];
      assert Uses(f, user, cp.x);
      if IsCheckPart(cp, user) {
        continue;
      }
      assert RealUse(f, user, cp);
      hadRealUse := true;
      var handsOn := UserHandsOn(f, user, cp, checked);
      if !handsOn {
        return false;
      }
    }
    AllUsersHandOn(f, cp, checked);
    return hadRealUse;
  }

  /** The checks that the pass removes: the position of each branch, with the ok block it then goes to. */
  ghost function Drops(f: Code): map<nat, nat> {
    map i: nat | i < |f| && CheckAt(f, i).Some? && Relay(f, CheckAt(f, i).value, Checked(f)) :: CheckAt(f, i).value.ok
  }

  ghost function Rewritten(f: Code, drops: map<nat, nat>): Code {
    seq(|f|, i requires 0 <= i < |f| => if i in drops then Br(drops[i]) else f[i])
  }

  /** The code after the pass. */
  ghost function Converged(f: Code): Code {
    Rewritten(f, Drops(f))
  }

  lemma DropsOfChecks(f: Code, cp: CheckPoint)
    requires cp in Checks(f)
    ensures cp.br < |f|
    ensures Relay(f, cp, Checked(f)) <==> cp.br in Drops(f)
    ensures cp.br in Drops(f) ==> Drops(f)[cp.br] == cp.ok
  {
    ChecksToMembers(f, |f|, cp);
  }

  lemma DropIsCheck(f: Code, i: nat)
    requires i in Drops(f)
    ensures exists cp :: cp in Checks(f) && cp.br == i && cp.ok == Drops(f)[i]
  {
    ChecksToMembers(f, |f|, CheckAt(f, i).value);
    assert CheckAt(f, i).value in Checks(f);
  }

  /** The recognition of one branch; the trap block may be either successor. */
  method RecogniseCheck(f: Code, i: nat) returns (found: Option<CheckPoint>)
    requires i < |f|
    ensures found == CheckAt(f, i)
  {
    if !f[i].CondBr? {
      return None;
    }
    var cond := f[i].cond;
    if !Defines(f, cond) || !f[cond.id].Or? {
      return None;
    }
    var parts := ClassifyFcmp(f, f[cond.id].a, f[cond.id].b);
    if parts.None? {
      return None;
    }
    var (isNan, isInf) := parts.value;
    var fabsCall := f[isInf.id].left;
    if !Defines(f, fabsCall) || !f[fabsCall.id].Call? {
      return None;
    }
    var first := CallsTrap(f, f[i].succ0);
    if first {
      return Some(CheckPoint(f[isNan.id].left, isNan, isInf, fabsCall, i, f[i].succ1));
    }
    var second := CallsTrap(f, f[i].succ1);
    if second {
      return Some(CheckPoint(f[isNan.id].left, isNan, isInf, fabsCall, i, f[i].succ0));
    }
    return None;
  }

  method CollectChecks(f: Code) returns (checks: seq<CheckPoint>, checked: set<Operand>)
    ensures checks == Checks(f) && checked == Checked(f)
  {
    checks, checked := [], {};
    for i := 0 to |f|
      invariant checks == ChecksTo(f, i)
      invariant checked == set cp <- checks :: cp.x
    {
      var found := RecogniseCheck(f, i);
      if found.Some? {
        checks := checks + [found.value];
        checked := checked + {found.value.x};
      }
    }
  }

  /** `toRewrite` lists exactly the pairs of `drops`. */
  ghost predicate Lists(toRewrite: seq<(nat, nat)>, drops: map<nat, nat>) {
    && (forall p :: p in toRewrite ==> p.0 in drops && drops[p.0] == p.1)
    && (forall i :: i in drops ==> (i, drops[i]) in toRewrite)
  }

  ghost predicate Decides(f: Code, cp: CheckPoint, checked: set<Operand>, drops: map<nat, nat>) {
    && (Relay(f, cp, checked) <==> cp.br in drops)
    && (cp.br in drops ==> drops[cp.br] == cp.ok)
  }

  method ClassifyCheck(f: Code, cp: CheckPoint, checked: set<Operand>, ghost drops: map<nat, nat>) returns (relay: bool)
    requires Decides(f, cp, checked, drops)
    ensures relay <==> cp.br in drops
    ensures relay ==> drops[cp.br] == cp.ok
  {
    relay := IsRelay(f, cp, checked);
  }

  /** Each check is listed exactly when it is dropped. */
  ghost predicate Covers(checks: seq<CheckPoint>, toRewrite: seq<(nat, nat)>, drops: map<nat, nat>) {
    && (forall p :: p in toRewrite ==> p.0 in drops && drops[p.0] == p.1)
    && (forall cp :: cp in checks && cp.br in drops ==> (cp.br, cp.ok) in toRewrite)
  }

  lemma CoversIsListing(f: Code, toRewrite: seq<(nat, nat)>)
    requires Covers(Checks(f), toRewrite, Drops(f))
    ensures Lists(toRewrite, Drops(f))
  {
    forall i | i in Drops(f)
      ensures (i, Drops(f)[i]) in toRewrite
    {
      DropIsCheck(f, i);
    }
  }

  lemma CoversGrows(checks: seq<CheckPoint>, toRewrite: seq<(nat, nat)>, drops: map<nat, nat>, cp: CheckPoint)
    requires Covers(checks, toRewrite, drops)
    ensures cp.br in drops && drops[cp.br] == cp.ok ==> Covers(checks + [cp], toRewrite + [(cp.br, cp.ok)], drops)
    ensures cp.br !in drops ==> Covers(checks + [cp], toRewrite, drops)
  {
  }

  method ClassifyChecks(f: Code, checks: seq<CheckPoint>, checked: set<Operand>, ghost drops: map<nat, nat>)
    returns (toRewrite: seq<(nat, nat)>)
    requires forall cp :: cp in checks ==> Decides(f, cp, checked, drops)
    ensures Covers(checks, toRewrite, drops)
  {
    toRewrite := [];
    for k := 0 to |checks|
      invariant Covers(checks[..k], toRewrite, drops)
    {
      var cp := checks[k];
      assert cp in checks;
      CoversGrows(checks[..k], toRewrite, drops, cp);
      assert checks[..k + 1] == checks[..k] + [cp];
      var relay := ClassifyCheck(f, cp, checked, drops);
      if relay {
        toRewrite := toRewrite + [(cp.br, cp.ok)];
      }
    }
    assert checks[..|checks|] == checks;
  }

  class Function {
    var insts: Code

    constructor (code: Code)
      ensures insts == code
    {
      insts := code;
    }

    /** `converge_function` */
    method Converge() returns (rewritten: bool)
      modifies this
      ensures insts == Converged(old(insts))
      ensures rewritten <==> Drops(old(insts)) != map[]
    {
      var checks, checked := CollectChecks(insts);
      ghost var drops := Drops(insts);
      forall cp | cp in checks
        ensures Decides(insts, cp, checked, drops)
      {
        DropsOfChecks(insts, cp);
      }
      var toRewrite := ClassifyChecks(insts, checks, checked, drops);
      CoversIsListing(insts, toRewrite);
      rewritten := toRewrite != [];
      if rewritten {
        assert toRewrite[0] in toRewrite;
        assert toRewrite[0].0 in drops;
      } else {
        assert forall i :: i !in drops;
      }
      assert forall i :: i in drops ==> i < |insts|;
      RewriteBranches(toRewrite, drops);
    }

    method RewriteBranches(toRewrite: seq<(nat, nat)>, ghost drops: map<nat, nat>)
      requires Lists(toRewrite, drops)
      requires forall i :: i in drops ==> i < |insts|
      modifies this
      ensures insts == Rewritten(old(insts), drops)
    {
      ghost var f := insts;
      ghost var rewrittenAt: set<nat> := {};
      for k := 0 to |toRewrite|
        invariant |insts| == |f|
        invariant rewrittenAt <= drops.Keys
        invariant forall j :: 0 <= j < k ==> toRewrite[j].0 in rewrittenAt
        invariant forall i: nat :: i < |f| ==> insts[i] == if i in rewrittenAt then Br(drops[i]) else f[i]
      {
        var (condBr, ok) := toRewrite[k];
        assert (condBr, ok) in toRewrite;
        insts := insts[condBr := Br(ok)];
        rewrittenAt := rewrittenAt + {condBr};
      }
      forall i | i in drops
        ensures i in rewrittenAt
      {
        assert (i, drops[i]) in toRewrite;
        var j :| 0 <= j < |toRewrite| && toRewrite[j] == (i, drops[i]);
      }
    }
  }
}
