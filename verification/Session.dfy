/** Session types: dualisation, name resolution, equality and the residual step (src/session.rs). */
module Session {
  import opened Wrappers
  import Ast

  type Type = Ast.Type

  datatype SessionType =
    | Send(ty: Type, cont: SessionType)
    | Recv(ty: Type, cont: SessionType)
    | Dual(inner: SessionType)
    | Name(name: string)
    | End

  type Env = map<string, SessionType>

  // --- dualisation ---

  function DualOf(s: SessionType): SessionType {
    match s
    case Send(t, c) => Recv(t, DualOf(c))
    case Recv(t, c) => Send(t, DualOf(c))
    case End => End
    case Dual(inner) => if inner.Dual? then DualOf(inner.inner) else inner
    case Name(n) => Dual(Name(n))
  }

  /** What a term means: polarity is pushed down to the leaves, so that `Dual` is left only on names. */
  ghost function Meaning(s: SessionType, flip: bool): SessionType {
    match s
    case Send(t, c) => if flip then Recv(t, Meaning(c, flip)) else Send(t, Meaning(c, flip))
    case Recv(t, c) => if flip then Send(t, Meaning(c, flip)) else Recv(t, Meaning(c, flip))
    case End => End
    case Dual(inner) => Meaning(inner, !flip)
    case Name(n) => if flip then Dual(s) else s
  }

  ghost predicate NameFree(s: SessionType) {
    match s
    case Send(_, c) => NameFree(c)
    case Recv(_, c) => NameFree(c)
    case Dual(i) => NameFree(i)
    case Name(_) => false
    case End => true
  }

  /** Neither names nor `Dual` wrappers: a fully expanded protocol. */
  ghost predicate Ground(s: SessionType) {
    match s
    case Send(_, c) => Ground(c)
    case Recv(_, c) => Ground(c)
    case End => true
    case _ => false
  }

  /** The number of sends and receives a term spells out. */
  ghost function Actions(s: SessionType): nat {
    match s
    case Send(_, c) => 1 + Actions(c)
    case Recv(_, c) => 1 + Actions(c)
    case Dual(i) => Actions(i)
    case _ => 0
  }

  /** `DualOf` negates the meaning of every term, names and nested duals included. */
  lemma {:induction false} DualOfNegates(s: SessionType, flip: bool)
    ensures Meaning(DualOf(s), flip) == Meaning(s, !flip)
  {
    match s
    case Send(_, c) => DualOfNegates(c, flip);
    case Recv(_, c) => DualOfNegates(c, flip);
    case Dual(inner) =>
      if inner.Dual? {
        DualOfNegates(inner.inner, flip);
      }
    case _ =>
  }

  lemma DualOfInvolution(s: SessionType, flip: bool)
    ensures Meaning(DualOf(DualOf(s)), flip) == Meaning(s, flip)
  {
    DualOfNegates(DualOf(s), flip);
    DualOfNegates(s, !flip);
  }

  lemma {:induction false} GroundIsItsMeaning(s: SessionType)
    requires Ground(s)
    ensures Meaning(s, false) == s
    ensures Meaning(s, true) == DualOf(s)
    ensures Ground(DualOf(s)) && DualOf(DualOf(s)) == s
  {
    match s
    case Send(_, c) => GroundIsItsMeaning(c);
    case Recv(_, c) => GroundIsItsMeaning(c);
    case End =>
  }

  lemma {:induction false} NameFreeMeaningIsGround(s: SessionType, flip: bool)
    requires NameFree(s)
    ensures Ground(Meaning(s, flip))
  {
    match s
    case Send(_, c) => NameFreeMeaningIsGround(c, flip);
    case Recv(_, c) => NameFreeMeaningIsGround(c, flip);
    case Dual(i) => NameFreeMeaningIsGround(i, !flip);
    case End =>
  }

  /** Flipping the polarity of a name-free term is taking the dual of its meaning. */
  lemma {:induction false} MeaningFlips(s: SessionType, flip: bool)
    requires NameFree(s)
    ensures Meaning(s, !flip) == DualOf(Meaning(s, flip))
  {
    match s
    case Send(_, c) => MeaningFlips(c, flip);
    case Recv(_, c) => MeaningFlips(c, flip);
    case Dual(i) => MeaningFlips(i, !flip);
    case End =>
  }

  lemma {:induction false} MeaningOfMeaning(s: SessionType, flip: bool, again: bool)
    ensures Meaning(Meaning(s, flip), again) == Meaning(s, flip != again)
  {
    match s
    case Send(_, c) => MeaningOfMeaning(c, flip, again);
    case Recv(_, c) => MeaningOfMeaning(c, flip, again);
    case Dual(i) => MeaningOfMeaning(i, !flip, again);
    case _ =>
  }

  lemma {:induction false} DualOfNameFree(s: SessionType)
    requires NameFree(s)
    ensures NameFree(DualOf(s))
  {
    match s
    case Send(_, c) => DualOfNameFree(c);
    case Recv(_, c) => DualOfNameFree(c);
    case Dual(i) =>
      if i.Dual? { DualOfNameFree(i.inner); }
    case End =>
  }

  // --- resolution ---

  /** The value `resolve_inner` computes when the names in `visiting` are being expanded. */
  function ResolveIn(s: SessionType, env: Env, visiting: set<string>): Option<SessionType>
    decreases env.Keys - visiting, s
  {
    match s
    case Send(t, c) =>
      var r := ResolveIn(c, env, visiting);
      if r.None? then None else Some(Send(t, r.value))
    case Recv(t, c) =>
      var r := ResolveIn(c, env, visiting);
      if r.None? then None else Some(Recv(t, r.value))
    case End => Some(End)
    case Name(n) =>
      if n in visiting || n !in env then None else ResolveIn(env[n], env, visiting + {n})
    case Dual(inner) =>
      var r := ResolveIn(inner, env, visiting);
      if r.None? then None else Some(DualOf(r.value))
  }

  function Resolve(s: SessionType, env: Env): Option<SessionType> {
    ResolveIn(s, env, {})
  }

  /** A mutable set of names: the `visiting` and `out` arguments of the source. */
  class NameSet {
    var names: set<string>

    constructor ()
      ensures names == {}
    {
      names := {};
    }

    method Insert(n: string) returns (isNew: bool)
      modifies this
      ensures names == old(names) + {n}
      ensures isNew == (n !in old(names))
    {
      isNew := n !in names;
      names := names + {n};
    }

    method Remove(n: string)
      modifies this
      ensures names == old(names) - {n}
    {
      names := names - {n};
    }
  }

  method ResolveInner(s: SessionType, env: Env, visiting: NameSet) returns (r: Option<SessionType>)
    modifies visiting
    ensures r == ResolveIn(s, env, old(visiting.names))
    ensures visiting.names == old(visiting.names)
    decreases env.Keys - visiting.names, s
  {
    match s
    case Send(t, c) =>
      r := ResolveInner(c, env, visiting);
      if r.Some? {
        r := Some(Send(t, r.value));
      }
    case Recv(t, c) =>
      r := ResolveInner(c, env, visiting);
      if r.Some? {
        r := Some(Recv(t, r.value));
      }
    case End => r := Some(End);
    case Name(n) =>
      var isNew := visiting.Insert(n);
      if !isNew {
        return None;
      }
      if n in env {
        r := ResolveInner(env[n], env, visiting);
      } else {
        r := None;
      }
      visiting.Remove(n);
    case Dual(inner) =>
      r := ResolveInner(inner, env, visiting);
      if r.Some? {
        r := Some(DualOf(r.value));
      }
  }

  method ResolveSession(s: SessionType, env: Env) returns (r: Option<SessionType>)
    ensures r == Resolve(s, env)
  {
    var visiting := new NameSet();
    r := ResolveInner(s, env, visiting);
  }

  /** Independent reading of resolution: replace names by their bodies, at most `depth` names deep,
      tracking polarity instead of building duals. No visited set is involved. */
  ghost function Unfolding(s: SessionType, flip: bool, env: Env, depth: nat): Option<SessionType>
    decreases depth, s
  {
    match s
    case Send(t, c) =>
      var r := Unfolding(c, flip, env, depth);
      if r.None? then None else Some(if flip then Recv(t, r.value) else Send(t, r.value))
    case Recv(t, c) =>
      var r := Unfolding(c, flip, env, depth);
      if r.None? then None else Some(if flip then Send(t, r.value) else Recv(t, r.value))
    case End => Some(End)
    case Name(n) => if depth == 0 || n !in env then None else Unfolding(env[n], flip, env, depth - 1)
    case Dual(inner) => Unfolding(inner, !flip, env, depth)
  }

  /** Some finite number of name expansions turns `s` into `r`. */
  ghost predicate Unfolds(s: SessionType, env: Env, r: SessionType) {
    exists depth: nat :: Unfolding(s, false, env, depth) == Some(r)
  }

  lemma {:induction false} UnfoldingFlips(s: SessionType, flip: bool, env: Env, depth: nat)
    ensures match Unfolding(s, flip, env, depth)
            case None => Unfolding(s, !flip, env, depth) == None
            case Some(r) => Ground(r) && Unfolding(s, !flip, env, depth) == Some(DualOf(r))
    decreases depth, s
  {
    match s
    case Send(_, c) => UnfoldingFlips(c, flip, env, depth);
    case Recv(_, c) => UnfoldingFlips(c, flip, env, depth);
    case Dual(i) => UnfoldingFlips(i, !flip, env, depth);
    case Name(n) =>
      if depth != 0 && n in env {
        UnfoldingFlips(env[n], flip, env, depth - 1);
      }
    case End =>
  }

  lemma {:induction false} UnfoldingMonotone(s: SessionType, flip: bool, env: Env, small: nat, large: nat)
    requires small <= large
    requires Unfolding(s, flip, env, small).Some?
    ensures Unfolding(s, flip, env, large) == Unfolding(s, flip, env, small)
    decreases small, s
  {
    match s
    case Send(_, c) => UnfoldingMonotone(c, flip, env, small, large);
    case Recv(_, c) => UnfoldingMonotone(c, flip, env, small, large);
    case Dual(i) => UnfoldingMonotone(i, !flip, env, small, large);
    case Name(n) => UnfoldingMonotone(env[n], flip, env, small - 1, large - 1);
    case End =>
  }

  /** A successful resolution is an unfolding no deeper than the number of names not yet visited. */
  lemma {:induction false} ResolveInUnfolds(s: SessionType, env: Env, visiting: set<string>)
    requires ResolveIn(s, env, visiting).Some?
    ensures Unfolding(s, false, env, |env.Keys - visiting|) == ResolveIn(s, env, visiting)
    decreases env.Keys - visiting, s
  {
    match s
    case Send(_, c) => ResolveInUnfolds(c, env, visiting);
    case Recv(_, c) => ResolveInUnfolds(c, env, visiting);
    case Dual(i) =>
      ResolveInUnfolds(i, env, visiting);
      UnfoldingFlips(i, false, env, |env.Keys - visiting|);
    case Name(n) =>
      ResolveInUnfolds(env[n], env, visiting + {n});
      assert env.Keys - (visiting + {n}) == (env.Keys - visiting) - {n};
    case End =>
  }

  /** A finite unfolding is found, as long as no name being expanded unfolds within the same depth. */
  lemma {:induction false} UnfoldingResolves(s: SessionType, env: Env, visiting: set<string>, depth: nat)
    requires Unfolding(s, false, env, depth).Some?
    requires forall v <- visiting :: Unfolding(Name(v), false, env, depth).None?
    ensures ResolveIn(s, env, visiting) == Unfolding(s, false, env, depth)
    decreases depth, s
  {
    match s
    case Send(_, c) => UnfoldingResolves(c, env, visiting, depth);
    case Recv(_, c) => UnfoldingResolves(c, env, visiting, depth);
    case Dual(i) =>
      UnfoldingFlips(i, false, env, depth);
      UnfoldingResolves(i, env, visiting, depth);
    case Name(n) =>
      if Unfolding(s, false, env, depth - 1).Some? {
        NoUnfoldingBelow(visiting, env, depth - 1, depth);
        UnfoldingMonotone(s, false, env, depth - 1, depth);
        UnfoldingResolves(s, env, visiting, depth - 1);
      } else {
        NoUnfoldingBelow(visiting, env, depth - 1, depth);
        UnfoldingResolves(env[n], env, visiting + {n}, depth - 1);
      }
    case End =>
  }

  lemma NoUnfoldingBelow(names: set<string>, env: Env, small: nat, large: nat)
    requires small <= large
    requires forall v <- names :: Unfolding(Name(v), false, env, large).None?
    ensures forall v <- names :: Unfolding(Name(v), false, env, small).None?
  {
    forall v <- names
      ensures Unfolding(Name(v), false, env, small).None?
    {
      if Unfolding(Name(v), false, env, small).Some? {
        UnfoldingMonotone(Name(v), false, env, small, large);
      }
    }
  }

  /** Resolution succeeds exactly on the terms with a finite unfolding, cyclic environments included,
      and its result is that unfolding. */
  lemma ResolveIsUnfolding(s: SessionType, env: Env, r: SessionType)
    ensures Resolve(s, env) == Some(r) <==> Unfolds(s, env, r)
  {
    if Resolve(s, env) == Some(r) {
      ResolveInUnfolds(s, env, {});
    }
    if depth: nat :| Unfolding(s, false, env, depth) == Some(r) {
      UnfoldingResolves(s, env, {}, depth);
    }
  }

  lemma ResolvedIsGround(s: SessionType, env: Env)
    ensures match Resolve(s, env) case Some(r) => Ground(r) case None => forall r :: !Unfolds(s, env, r)
  {
    if Resolve(s, env).Some? {
      ResolveInUnfolds(s, env, {});
      UnfoldingFlips(s, false, env, |env.Keys - {}|);
    } else {
      forall r
        ensures !Unfolds(s, env, r)
      {
        ResolveIsUnfolding(s, env, r);
      }
    }
  }

  /** Resolution and dualisation commute, failures included. */
  lemma ResolveCommutesWithDual(s: SessionType, env: Env)
    ensures match Resolve(s, env)
            case None => Resolve(DualOf(s), env) == None
            case Some(r) => Resolve(DualOf(s), env) == Some(DualOf(r))
  {
    ResolveInCommutesWithDual(s, env, {});
  }

  lemma {:induction false} ResolveInIsGround(s: SessionType, env: Env, visiting: set<string>)
    requires ResolveIn(s, env, visiting).Some?
    ensures Ground(ResolveIn(s, env, visiting).value)
  {
    ResolveInUnfolds(s, env, visiting);
    UnfoldingFlips(s, false, env, |env.Keys - visiting|);
  }

  lemma {:induction false} ResolveInCommutesWithDual(s: SessionType, env: Env, visiting: set<string>)
    ensures match ResolveIn(s, env, visiting)
            case None => ResolveIn(DualOf(s), env, visiting) == None
            case Some(r) => ResolveIn(DualOf(s), env, visiting) == Some(DualOf(r))
  {
    match s
    case Send(_, c) => ResolveInCommutesWithDual(c, env, visiting);
    case Recv(_, c) => ResolveInCommutesWithDual(c, env, visiting);
    case Dual(i) =>
      if ResolveIn(i, env, visiting).Some? {
        ResolveInIsGround(i, env, visiting);
        GroundIsItsMeaning(ResolveIn(i, env, visiting).value);
      }
      if i.Dual? {
        ResolveInCommutesWithDual(i.inner, env, visiting);
        if ResolveIn(i.inner, env, visiting).Some? {
          ResolveInIsGround(i.inner, env, visiting);
          GroundIsItsMeaning(ResolveIn(i.inner, env, visiting).value);
        }
      }
    case _ =>
  }
}
