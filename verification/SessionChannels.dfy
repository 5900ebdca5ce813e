/** The residual step function and the safety of a session pair (src/session.rs). */
module SessionChannels {
  import opened Wrappers
  import opened Session
  import Ast

  datatype SessionAction = DoSend | DoRecv | DoClose

  // The source renders the residual to text; the model keeps the residual itself.
  datatype SessionOrderError =
    | ExpectedSend(residual: SessionType)
    | ExpectedRecv(residual: SessionType)
    | ExpectedEnd(residual: SessionType)
    | AlreadyEnded

  type Step = Result<(SessionType, Option<Type>), SessionOrderError>

  function ApplyAction(residual: SessionType, action: SessionAction): Step {
    var r := if residual.Dual? then DualOf(residual.inner) else residual;
    match (action, r)
    case (DoSend, Send(t, c)) => Success((c, Some(t)))
    case (DoSend, End) => Failure(AlreadyEnded)
    case (DoSend, other) => Failure(ExpectedSend(other))
    case (DoRecv, Recv(t, c)) => Success((c, Some(t)))
    case (DoRecv, End) => Failure(AlreadyEnded)
    case (DoRecv, other) => Failure(ExpectedRecv(other))
    case (DoClose, End) => Success((End, None))
    case (DoClose, other) => Failure(ExpectedEnd(other))
  }

  /** The error for `action` names what it expected and shows a residual with the meaning of `s`. */
  ghost predicate Refuses(step: Step, action: SessionAction, s: SessionType) {
    step.Failure? &&
    match (action, step.error)
    case (DoSend, ExpectedSend(shown)) => Meaning(shown, false) == Meaning(s, false)
    case (DoRecv, ExpectedRecv(shown)) => Meaning(shown, false) == Meaning(s, false)
    case (DoClose, ExpectedEnd(shown)) => Meaning(shown, false) == Meaning(s, false)
    case _ => false
  }

  /** One action is allowed exactly when the meaning of the residual starts with it; the others are refused with
      their own error. */
  lemma ApplyActionFollowsMeaning(s: SessionType)
    ensures match Meaning(s, false)
            case Send(t, c) => ApplyAction(s, DoSend).Success? && ApplyAction(s, DoSend).value.1 == Some(t)
                && Meaning(ApplyAction(s, DoSend).value.0, false) == c
                && Refuses(ApplyAction(s, DoRecv), DoRecv, s) && Refuses(ApplyAction(s, DoClose), DoClose, s)
            case Recv(t, c) => ApplyAction(s, DoRecv).Success? && ApplyAction(s, DoRecv).value.1 == Some(t)
                && Meaning(ApplyAction(s, DoRecv).value.0, false) == c
                && Refuses(ApplyAction(s, DoSend), DoSend, s) && Refuses(ApplyAction(s, DoClose), DoClose, s)
            case End => ApplyAction(s, DoClose) == Success((End, None))
                && ApplyAction(s, DoSend) == Failure(AlreadyEnded) && ApplyAction(s, DoRecv) == Failure(AlreadyEnded)
            case _ => forall a :: Refuses(ApplyAction(s, a), a, s)
  {
    if s.Dual? {
      DualOfNegates(s.inner, false);
      DualOfHead(s.inner);
    }
  }

  /** `DualOf` leaves a `Dual` at the head only around a name. */
  lemma {:induction false} DualOfHead(s: SessionType)
    ensures DualOf(s).Dual? ==> DualOf(s).inner.Name?
  {
    if s.Dual? && s.inner.Dual? {
      DualOfHead(s.inner.inner);
    }
  }

  function ResidualFromChanType(ty: Type, env: Env): Option<SessionType> {
    if ty.Name? && (ty.name == "SessionChan" || ty.name == "session_chan") && |ty.args| > 0 then
      var first := ty.args[0];
      if first.Name? && first.name == "dual" && |first.args| == 1 then
        var x := first.args[0];
        if x.Name? && x.args == [] && x.name in env then
          Some(DualOf(ResolvedOrBody(env[x.name], env)))
        else
          None
      else if first.Name? && first.args == [] && first.name in env then
        Some(ResolvedOrBody(env[first.name], env))
      else
        None
    else
      None
  }

  function ResolvedOrBody(body: SessionType, env: Env): SessionType {
    match Resolve(body, env)
    case Some(r) => r
    case None => body
  }

  function ChanType(arg: Type): Type {
    Ast.Type.Name("SessionChan", [arg])
  }

  /** The two ends of `session_pair::<X>()` are tracked with dual residuals, resolvable or not. */
  lemma PairEndsAreDual(x: string, env: Env)
    ensures var lo := ResidualFromChanType(ChanType(Ast.Plain(x)), env);
            var hi := ResidualFromChanType(ChanType(Ast.Type.Name("dual", [Ast.Plain(x)])), env);
            if x in env then
              lo.Some? && hi.Some? && forall flip :: Meaning(hi.value, flip) == Meaning(lo.value, !flip)
            else
              lo.None? && hi.None?
  {
    if x in env {
      var lo := ResidualFromChanType(ChanType(Ast.Plain(x)), env);
      forall flip
        ensures Meaning(DualOf(lo.value), flip) == Meaning(lo.value, !flip)
      {
        DualOfNegates(lo.value, flip);
      }
    }
  }

  /** `SessionChan<x>`, or `SessionChan<dual<x>>` for the other end; further arguments are ignored. */
  ghost predicate Annotates(ty: Type, x: string, flip: bool) {
    && ty.Name? && ty.name in ["SessionChan", "session_chan"] && ty.args != []
    && ty.args[0] == if flip then Ast.Type.Name("dual", [Ast.Plain(x)]) else Ast.Plain(x)
  }

  /** A channel is tracked if and only if its annotation names a declared session. */
  lemma TrackedExactly(ty: Type, env: Env)
    ensures ResidualFromChanType(ty, env).Some? <==> exists x, flip :: x in env && Annotates(ty, x, flip)
  {
    if ResidualFromChanType(ty, env).Some? {
      var first := ty.args[0];
      if first.args == [] {
        assert Annotates(ty, first.name, false);
      } else {
        assert first.args == [first.args[0]];
        assert Annotates(ty, first.args[0].name, true);
      }
    }
  }

  /** Its residual means what the session unfolds to, or its body where that has no finite unfolding, with the
      polarity of the end. */
  lemma ResidualFollowsDeclaration(ty: Type, x: string, flip: bool, env: Env)
    requires x in env && Annotates(ty, x, flip)
    ensures ResidualFromChanType(ty, env).Some?
    ensures var residual := ResidualFromChanType(ty, env).value;
            && (forall r :: Unfolds(env[x], env, r) ==> Meaning(residual, false) == Meaning(r, flip))
            && ((forall r :: !Unfolds(env[x], env, r)) ==> Meaning(residual, false) == Meaning(env[x], flip))
  {
    forall r
      ensures Unfolds(env[x], env, r) <==> Resolve(env[x], env) == Some(r)
    {
      ResolveIsUnfolding(env[x], env, r);
    }
    DualOfNegates(ResolvedOrBody(env[x], env), false);
  }

  // --- two endpoints joined by a queue in each direction ---

  /** `toHi` and `toLo` are the messages in flight; `gotHi` and `gotLo` remember what has been received. */
  datatype Pair = Pair(lo: SessionType, hi: SessionType, toHi: seq<Type>, toLo: seq<Type>,
                       gotHi: seq<Type>, gotLo: seq<Type>)

  function Start(lo: SessionType, hi: SessionType): Pair {
    Pair(lo, hi, [], [], [], [])
  }

  function Swap(p: Pair): Pair {
    Pair(p.hi, p.lo, p.toLo, p.toHi, p.gotLo, p.gotHi)
  }

  /** The `lo` endpoint sends: its payload enters the queue towards `hi`. */
  ghost predicate LoSends(p: Pair, q: Pair) {
    match ApplyAction(p.lo, DoSend)
    case Success((c, Some(t))) => q == p.(lo := c, toHi := p.toHi + [t])
    case _ => false
  }

  /** The `lo` endpoint receives: the head of its queue is consumed, whatever its type. */
  ghost predicate LoReceives(p: Pair, q: Pair) {
    match ApplyAction(p.lo, DoRecv)
    case Success((c, Some(_))) =>
      p.toLo != [] && q == p.(lo := c, toLo := p.toLo[1..], gotLo := p.gotLo + [p.toLo[0]])
    case _ => false
  }

  ghost predicate LoCloses(p: Pair, q: Pair) {
    ApplyAction(p.lo, DoClose) == Success((q.lo, None)) && q == p.(lo := q.lo)
  }

  /** Either endpoint sends or receives. */
  ghost predicate Communicates(p: Pair, q: Pair) {
    LoSends(p, q) || LoReceives(p, q) || LoSends(Swap(p), Swap(q)) || LoReceives(Swap(p), Swap(q))
  }

  ghost predicate Moves(p: Pair, q: Pair) {
    Communicates(p, q) || LoCloses(p, q) || LoCloses(Swap(p), Swap(q))
  }

  /** Any interleaving of moves of the two endpoints. */
  ghost predicate Run(run: seq<Pair>) {
    |run| > 0 && forall i :: 0 < i < |run| ==> Moves(run[i - 1], run[i])
  }

  /** Every message waiting for `lo` is one its residual is ready for, with exactly the type demanded,
      and `lo` may close only when nothing is waiting for it. */
  ghost predicate LoSafe(p: Pair) {
    && (p.toLo != [] ==> match ApplyAction(p.lo, DoRecv)
                         case Success((_, Some(t))) => t == p.toLo[0]
                         case _ => false)
    && (ApplyAction(p.lo, DoClose).Success? ==> p.toLo == [])
  }

  ghost predicate Safe(p: Pair) {
    LoSafe(p) && LoSafe(Swap(p))
  }

  /** A protocol that first receives the messages in `queue` and then continues as `rest`. */
  ghost function Await(queue: seq<Type>, rest: SessionType): SessionType {
    if queue == [] then rest else Recv(queue[0], Await(queue[1..], rest))
  }

  /** `lo` runs ahead: `hi` still has to receive what is in flight, and is then the dual of `lo`. */
  ghost predicate LoAhead(p: Pair) {
    p.toLo == [] && Meaning(p.hi, false) == Await(p.toHi, Meaning(p.lo, true))
  }

  ghost predicate Balanced(p: Pair) {
    LoAhead(p) || LoAhead(Swap(p))
  }

  lemma {:induction false} AwaitSnoc(queue: seq<Type>, t: Type, rest: SessionType)
    ensures Await(queue + [t], rest) == Await(queue, Recv(t, rest))
  {
    if queue == [] {
      assert [t][1..] == [];
    } else {
      AwaitSnoc(queue[1..], t, rest);
      assert (queue + [t])[1..] == queue[1..] + [t];
    }
  }

  /** Negating a term is negating its meaning, so terms with equal meanings have equal negations. */
  lemma NegationOf(s: SessionType)
    ensures Meaning(s, true) == Meaning(Meaning(s, false), true)
    ensures Meaning(s, false) == Meaning(Meaning(s, true), true)
  {
    MeaningOfMeaning(s, false, true);
    MeaningOfMeaning(s, true, true);
  }

  lemma NegationHeads(s: SessionType)
    ensures match Meaning(s, false)
            case Send(t, c) => Meaning(s, true) == Recv(t, Meaning(c, true))
            case Recv(t, c) => Meaning(s, true) == Send(t, Meaning(c, true))
            case End => Meaning(s, true) == End
            case _ => true
  {
    NegationOf(s);
  }

  lemma BalancedIsSafe(p: Pair)
    requires Balanced(p)
    ensures LoSafe(p)
  {
    ApplyActionFollowsMeaning(p.lo);
  }

  lemma LoMovesKeepBalance(p: Pair, q: Pair)
    requires Balanced(p)
    requires LoSends(p, q) || LoReceives(p, q) || LoCloses(p, q)
    ensures Balanced(q)
  {
    ApplyActionFollowsMeaning(p.lo);
    NegationOf(p.lo);
    NegationOf(p.hi);
    NegationHeads(p.lo);
    NegationOf(q.lo);
    if LoSends(p, q) {
      var t := Meaning(p.lo, false).ty;
      AwaitSnoc(p.toHi, t, Meaning(q.lo, true));
      assert LoAhead(p);
    }
  }

  lemma MovesKeepBalance(p: Pair, q: Pair)
    requires Balanced(p) && Moves(p, q)
    ensures Balanced(q)
  {
    if LoSends(p, q) || LoReceives(p, q) || LoCloses(p, q) {
      LoMovesKeepBalance(p, q);
    } else {
      LoMovesKeepBalance(Swap(p), Swap(q));
    }
  }

  lemma {:induction false} RunStaysBalanced(run: seq<Pair>, i: nat)
    requires Run(run) && i < |run|
    requires Balanced(run[0])
    ensures Balanced(run[i])
  {
    if i > 0 {
      RunStaysBalanced(run, i - 1);
      MovesKeepBalance(run[i - 1], run[i]);
    }
  }

  /** The endpoints of a declared session, as the checker first tracks them. */
  ghost predicate Opens(x: string, env: Env, p: Pair) {
    var lo := ResidualFromChanType(ChanType(Ast.Plain(x)), env);
    var hi := ResidualFromChanType(ChanType(Ast.Type.Name("dual", [Ast.Plain(x)])), env);
    lo.Some? && hi.Some? && p == Start(lo.value, hi.value)
  }

  lemma OpenedIsBalanced(x: string, env: Env, p: Pair)
    requires Opens(x, env, p)
    ensures Balanced(p)
  {
    PairEndsAreDual(x, env);
    assert Meaning(p.hi, false) == Meaning(p.lo, true);
  }

  /** In every interleaving no endpoint ever has a message waiting that its residual does not ask for,
      type included, and no endpoint may close while a message is waiting for it. */
  lemma PairIsSafe(x: string, env: Env, run: seq<Pair>)
    requires Run(run) && Opens(x, env, run[0])
    ensures forall i :: 0 <= i < |run| ==> Safe(run[i])
  {
    OpenedIsBalanced(x, env, run[0]);
    forall i | 0 <= i < |run|
      ensures Safe(run[i])
    {
      RunStaysBalanced(run, i);
      BalancedIsSafe(run[i]);
      BalancedIsSafe(Swap(run[i]));
    }
  }

  // --- completion ---

  ghost predicate BothEnded(p: Pair) {
    Meaning(p.lo, false) == End && Meaning(p.hi, false) == End
  }

  ghost predicate CanCommunicate(p: Pair) {
    exists q :: Communicates(p, q)
  }

  /** The payload types of the sends (or of the receives) of a name-free meaning, in order. */
  ghost function Payloads(m: SessionType, sends: bool): seq<Type> {
    match m
    case Send(t, c) => (if sends then [t] else []) + Payloads(c, sends)
    case Recv(t, c) => (if sends then [] else [t]) + Payloads(c, sends)
    case _ => []
  }

  lemma {:induction false} PayloadsOfDual(s: SessionType, flip: bool)
    requires NameFree(s)
    ensures Payloads(Meaning(s, !flip), true) == Payloads(Meaning(s, flip), false)
  {
    match s
    case Send(_, c) => PayloadsOfDual(c, flip);
    case Recv(_, c) => PayloadsOfDual(c, flip);
    case Dual(i) => PayloadsOfDual(i, !flip);
    case End =>
  }

  lemma {:induction false} ActionsOfMeaning(s: SessionType, flip: bool)
    ensures Actions(Meaning(s, flip)) == Actions(s)
  {
    match s
    case Send(_, c) => ActionsOfMeaning(c, flip);
    case Recv(_, c) => ActionsOfMeaning(c, flip);
    case Dual(i) => ActionsOfMeaning(i, !flip);
    case _ =>
  }

  /** No deadlock: a pair that cannot communicate has ended on both sides, with both queues empty. */
  lemma StuckMeansEnded(p: Pair)
    requires Balanced(p) && NameFree(p.lo) && NameFree(p.hi)
    ensures CanCommunicate(p) <==> !BothEnded(p)
    ensures BothEnded(p) ==> p.toHi == [] && p.toLo == []
  {
    ApplyActionFollowsMeaning(p.lo);
    ApplyActionFollowsMeaning(p.hi);
    NameFreeMeaningIsGround(p.lo, false);
    NameFreeMeaningIsGround(p.hi, false);
    NegationHeads(p.lo);
    NegationHeads(p.hi);
    NegationOf(p.lo);
    NegationOf(p.hi);
    if !BothEnded(p) {
      var r := if LoAhead(p) then p else Swap(p);
      if r.toHi != [] {
        var c := ApplyAction(r.hi, DoRecv).value.0;
        var q := r.(hi := c, toHi := r.toHi[1..], gotHi := r.gotHi + [r.toHi[0]]);
        assert LoReceives(Swap(r), Swap(q));
        assert Communicates(p, if LoAhead(p) then q else Swap(q));
      } else if Meaning(r.lo, false).Send? {
        var (c, t) := ApplyAction(r.lo, DoSend).value;
        var q := r.(lo := c, toHi := r.toHi + [t.value]);
        assert LoSends(r, q);
        assert Communicates(p, if LoAhead(p) then q else Swap(q));
      } else {
        var (c, t) := ApplyAction(r.hi, DoSend).value;
        var q := r.(hi := c, toLo := r.toLo + [t.value]);
        assert LoSends(Swap(r), Swap(q));
        assert Communicates(p, if LoAhead(p) then q else Swap(q));
      }
    }
  }

  /** What is conserved from the first state on: a payload `lo` sends is either received or in flight. */
  ghost predicate LoConserves(p0: Pair, p: Pair) {
    p.gotHi + p.toHi + Payloads(Meaning(p.lo, false), true) == Payloads(Meaning(p0.lo, false), true)
  }

  ghost predicate Tracked(p0: Pair, p: Pair) {
    Balanced(p) && NameFree(p.lo) && NameFree(p.hi) && LoConserves(p0, p) && LoConserves(Swap(p0), Swap(p))
  }

  lemma LoMovesConserve(p0: Pair, p: Pair, q: Pair)
    requires LoConserves(p0, p) && LoConserves(Swap(p0), Swap(p))
    requires LoSends(p, q) || LoReceives(p, q) || LoCloses(p, q)
    ensures LoConserves(p0, q) && LoConserves(Swap(p0), Swap(q))
  {
    ApplyActionFollowsMeaning(p.lo);
    var rest := Payloads(Meaning(q.lo, false), true);
    if LoSends(p, q) {
      var t := Meaning(p.lo, false).ty;
      assert p.gotHi + (p.toHi + [t]) + rest == p.gotHi + p.toHi + ([t] + rest);
    } else if LoReceives(p, q) {
      assert [] + rest == rest;
      assert q.gotLo + q.toLo == p.gotLo + p.toLo;
    }
  }

  lemma LoMovesTrack(p0: Pair, p: Pair, q: Pair)
    requires Tracked(p0, p)
    requires LoSends(p, q) || LoReceives(p, q) || LoCloses(p, q)
    ensures Tracked(p0, q)
  {
    LoMovesKeepBalance(p, q);
    LoMovesConserve(p0, p, q);
    if p.lo.Dual? {
      DualOfNameFree(p.lo.inner);
    }
  }

  lemma LoMovesCount(p: Pair, q: Pair)
    requires LoSends(p, q) || LoReceives(p, q)
    ensures Actions(q.lo) + Actions(q.hi) == Actions(p.lo) + Actions(p.hi) - 1
  {
    ApplyActionFollowsMeaning(p.lo);
    ActionsOfMeaning(p.lo, false);
    ActionsOfMeaning(q.lo, false);
  }

  lemma MovesTrack(p0: Pair, p: Pair, q: Pair)
    requires Tracked(p0, p) && Moves(p, q)
    ensures Tracked(p0, q)
    ensures Communicates(p, q) ==> Actions(q.lo) + Actions(q.hi) == Actions(p.lo) + Actions(p.hi) - 1
  {
    if LoSends(p, q) || LoReceives(p, q) || LoCloses(p, q) {
      LoMovesTrack(p0, p, q);
    } else {
      LoMovesTrack(Swap(p0), Swap(p), Swap(q));
    }
    if LoSends(p, q) || LoReceives(p, q) {
      LoMovesCount(p, q);
    } else if Communicates(p, q) {
      LoMovesCount(Swap(p), Swap(q));
    }
  }

  lemma {:induction false} RunIsTracked(run: seq<Pair>, i: nat)
    requires Run(run) && i < |run|
    requires Tracked(run[0], run[0])
    ensures Tracked(run[0], run[i])
    ensures (forall k :: 0 < k < |run| ==> Communicates(run[k - 1], run[k]))
        ==> Actions(run[i].lo) + Actions(run[i].hi) + i == Actions(run[0].lo) + Actions(run[0].hi)
  {
    if i > 0 {
      RunIsTracked(run, i - 1);
      MovesTrack(run[0], run[i - 1], run[i]);
    }
  }

  /** A resolvable session runs to completion: whatever the interleaving, the pair can go on until both
      ends have ended, and then both queues are empty and each side has received exactly the payloads
      the protocol sends to it, in order. */
  lemma PairCompletes(x: string, env: Env, run: seq<Pair>)
    requires Run(run) && Opens(x, env, run[0])
    requires Resolve(env[x], env).Some?
    ensures var last := run[|run| - 1];
            var protocol := Resolve(env[x], env).value;
            CanCommunicate(last) ||
            (BothEnded(last) && last.toHi == [] && last.toLo == []
             && last.gotHi == Payloads(protocol, true) && last.gotLo == Payloads(protocol, false))
  {
    var last := run[|run| - 1];
    OpenedIsTracked(x, env, run[0]);
    RunIsTracked(run, |run| - 1);
    StuckMeansEnded(last);
    PayloadsOfDual(run[0].lo, false);
    ResolvedIsGround(env[x], env);
    GroundIsItsMeaning(run[0].lo);
    assert last.gotHi + [] + [] == last.gotHi && last.gotLo + [] + [] == last.gotLo;
  }

  /** Every run of sends and receives is finite: it has at most one step per action of either end. */
  lemma PairTerminates(x: string, env: Env, run: seq<Pair>)
    requires Run(run) && Opens(x, env, run[0])
    requires Resolve(env[x], env).Some?
    requires forall k :: 0 < k < |run| ==> Communicates(run[k - 1], run[k])
    ensures |run| - 1 <= 2 * Actions(Resolve(env[x], env).value)
    ensures |run| - 1 == 2 * Actions(Resolve(env[x], env).value) <==> BothEnded(run[|run| - 1])
  {
    var last := run[|run| - 1];
    OpenedIsTracked(x, env, run[0]);
    RunIsTracked(run, |run| - 1);
    ActionsOfMeaning(run[0].lo, true);
    ActionsOfMeaning(run[0].hi, false);
    PairEndsAreDual(x, env);
    assert Meaning(run[0].hi, false) == Meaning(run[0].lo, true);
    ActionsOfMeaning(last.lo, false);
    ActionsOfMeaning(last.hi, false);
    NameFreeMeaningIsGround(last.lo, false);
    NameFreeMeaningIsGround(last.hi, false);
  }

  lemma OpenedIsTracked(x: string, env: Env, p: Pair)
    requires Opens(x, env, p)
    requires x in env && Resolve(env[x], env).Some?
    ensures Tracked(p, p)
    ensures p.lo == Resolve(env[x], env).value && Ground(p.lo)
    ensures Meaning(p.hi, false) == Meaning(p.lo, true)
  {
    OpenedIsBalanced(x, env, p);
    PairEndsAreDual(x, env);
    ResolvedIsGround(env[x], env);
    GroundIsNameFree(p.lo);
    DualOfNameFree(p.lo);
  }

  lemma {:induction false} GroundIsNameFree(s: SessionType)
    requires Ground(s)
    ensures NameFree(s)
  {
    match s
    case Send(_, c) => GroundIsNameFree(c);
    case Recv(_, c) => GroundIsNameFree(c);
    case End =>
  }
}
