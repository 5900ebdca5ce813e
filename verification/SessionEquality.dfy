/** Structural equality of session types after dual-normalisation (src/session.rs, `session_eq`). */
module SessionEquality {
  import opened Wrappers
  import opened Session

  type Compatibility = (Type, Type) -> bool

  /** `session_eq` with its recursion bounded by `fuel`: None means it is still running. */
  function SessionEq(a: SessionType, b: SessionType, compatible: Compatibility, fuel: nat): Option<bool>
    decreases fuel
  {
    if fuel == 0 then None else
    match (a, b)
    case (End, End) => Some(true)
    case (Send(ta, ca), Send(tb, cb)) =>
      if compatible(ta, tb) then SessionEq(ca, cb, compatible, fuel - 1) else Some(false)
    case (Recv(ta, ca), Recv(tb, cb)) =>
      if compatible(ta, tb) then SessionEq(ca, cb, compatible, fuel - 1) else Some(false)
    case (Name(m), Name(n)) => Some(m == n)
    case (Dual(x), Dual(y)) => SessionEq(x, y, compatible, fuel - 1)
    case (Dual(x), _) => SessionEq(DualOf(x), b, compatible, fuel - 1)
    case (_, Dual(y)) => SessionEq(a, DualOf(y), compatible, fuel - 1)
    case _ => Some(false)
  }

  /** Agreement of two meanings, payloads compared by `compatible`. */
  ghost predicate Agree(x: SessionType, y: SessionType, compatible: Compatibility) {
    match (x, y)
    case (End, End) => true
    case (Send(t, c), Send(u, d)) => compatible(t, u) && Agree(c, d, compatible)
    case (Recv(t, c), Recv(u, d)) => compatible(t, u) && Agree(c, d, compatible)
    case (Name(m), Name(n)) => m == n
    case (Dual(i), Dual(j)) => Agree(i, j, compatible)
    case _ => false
  }

  ghost function LeadingDuals(s: SessionType): nat {
    if s.Dual? then 1 + LeadingDuals(s.inner) else 0
  }

  lemma {:induction false} DualOfMeasure(s: SessionType)
    ensures Actions(DualOf(s)) == Actions(s)
    ensures !s.Name? ==> LeadingDuals(DualOf(s)) <= LeadingDuals(s)
  {
    match s
    case Send(_, c) => DualOfMeasure(c);
    case Recv(_, c) => DualOfMeasure(c);
    case Dual(i) =>
      if i.Dual? {
        DualOfMeasure(i.inner);
      }
    case _ =>
  }

  /** The comparison meets the dual of a bare name on one side only. `dual` keeps such a term as it is,
      so the comparison would call itself with the same arguments. */
  ghost predicate MeetsBareDual(a: SessionType, b: SessionType, compatible: Compatibility)
    decreases Actions(a) + Actions(b), LeadingDuals(a) + LeadingDuals(b)
  {
    match (a, b)
    case (Send(t, c), Send(u, d)) => compatible(t, u) && MeetsBareDual(c, d, compatible)
    case (Recv(t, c), Recv(u, d)) => compatible(t, u) && MeetsBareDual(c, d, compatible)
    case (Dual(x), Dual(y)) => MeetsBareDual(x, y, compatible)
    case (Dual(x), _) => DualOfMeasure(x); x.Name? || MeetsBareDual(DualOf(x), b, compatible)
    case (_, Dual(y)) => DualOfMeasure(y); y.Name? || MeetsBareDual(a, DualOf(y), compatible)
    case _ => false
  }

  /** Two normal forms agree exactly when their negations do. */
  lemma {:induction false} AgreementIgnoresPolarity(x: SessionType, y: SessionType, compatible: Compatibility)
    requires Meaning(x, false) == x && Meaning(y, false) == y
    ensures Agree(Meaning(x, true), Meaning(y, true), compatible) == Agree(x, y, compatible)
  {
    match (x, y)
    case (Send(_, c), Send(_, d)) => AgreementIgnoresPolarity(c, d, compatible);
    case (Recv(_, c), Recv(_, d)) => AgreementIgnoresPolarity(c, d, compatible);
    case (Dual(i), Dual(j)) => BareDualForm(i); BareDualForm(j);
    case (Dual(i), _) => BareDualForm(i);
    case (_, Dual(j)) => BareDualForm(j);
    case _ =>
  }

  lemma {:induction false} BareDualForm(i: SessionType)
    requires Meaning(Dual(i), false) == Dual(i)
    ensures i.Name?
  {
    HeadOfMeaning(i, true);
  }

  /** `Dual` is left in a meaning only around a name. */
  lemma {:induction false} HeadOfMeaning(s: SessionType, flip: bool)
    ensures Meaning(s, flip).Dual? ==> Meaning(s, flip).inner.Name?
  {
    if s.Dual? {
      HeadOfMeaning(s.inner, !flip);
    }
  }

  lemma FlippedAgreement(a: SessionType, b: SessionType, compatible: Compatibility)
    ensures Agree(Meaning(a, true), Meaning(b, true), compatible)
         == Agree(Meaning(a, false), Meaning(b, false), compatible)
  {
    MeaningOfMeaning(a, false, true);
    MeaningOfMeaning(b, false, true);
    MeaningOfMeaning(a, false, false);
    MeaningOfMeaning(b, false, false);
    AgreementIgnoresPolarity(Meaning(a, false), Meaning(b, false), compatible);
  }

  /** Whenever the comparison answers, its answer is the agreement of the two meanings. */
  lemma {:induction false} AnswerIsAgreement(a: SessionType, b: SessionType, compatible: Compatibility, fuel: nat)
    requires SessionEq(a, b, compatible, fuel).Some?
    ensures SessionEq(a, b, compatible, fuel).value == Agree(Meaning(a, false), Meaning(b, false), compatible)
    decreases fuel
  {
    match (a, b)
    case (Send(t, c), Send(u, d)) =>
      if compatible(t, u) { AnswerIsAgreement(c, d, compatible, fuel - 1); }
    case (Recv(t, c), Recv(u, d)) =>
      if compatible(t, u) { AnswerIsAgreement(c, d, compatible, fuel - 1); }
    case (Dual(x), Dual(y)) =>
      AnswerIsAgreement(x, y, compatible, fuel - 1);
      FlippedAgreement(x, y, compatible);
    case (Dual(x), _) =>
      AnswerIsAgreement(DualOf(x), b, compatible, fuel - 1);
      DualOfNegates(x, false);
    case (_, Dual(y)) =>
      AnswerIsAgreement(a, DualOf(y), compatible, fuel - 1);
      DualOfNegates(y, false);
    case _ =>
  }

  lemma {:induction false} NeverAnswers(a: SessionType, b: SessionType, compatible: Compatibility, fuel: nat)
    requires MeetsBareDual(a, b, compatible)
    ensures SessionEq(a, b, compatible, fuel) == None
    decreases fuel
  {
    if fuel > 0 {
      match (a, b)
      case (Send(_, c), Send(_, d)) => NeverAnswers(c, d, compatible, fuel - 1);
      case (Recv(_, c), Recv(_, d)) => NeverAnswers(c, d, compatible, fuel - 1);
      case (Dual(x), Dual(y)) => NeverAnswers(x, y, compatible, fuel - 1);
      case (Dual(x), _) => NeverAnswers(DualOf(x), b, compatible, fuel - 1);
      case (_, Dual(y)) => NeverAnswers(a, DualOf(y), compatible, fuel - 1);
    }
  }

  lemma {:induction false} Answers(a: SessionType, b: SessionType, compatible: Compatibility) returns (fuel: nat)
    requires !MeetsBareDual(a, b, compatible)
    ensures SessionEq(a, b, compatible, fuel).Some?
    decreases Actions(a) + Actions(b), LeadingDuals(a) + LeadingDuals(b)
  {
    fuel := 0;
    match (a, b) {
      case (Send(t, c), Send(u, d)) =>
        if compatible(t, u) { fuel := Answers(c, d, compatible); }
      case (Recv(t, c), Recv(u, d)) =>
        if compatible(t, u) { fuel := Answers(c, d, compatible); }
      case (Dual(x), Dual(y)) => fuel := Answers(x, y, compatible);
      case (Dual(x), _) => DualOfMeasure(x); fuel := Answers(DualOf(x), b, compatible);
      case (_, Dual(y)) => DualOfMeasure(y); fuel := Answers(a, DualOf(y), compatible);
      case _ =>
    }
    fuel := fuel + 1;
  }

  /** The comparison stops exactly when it never meets a bare dual on one side only. */
  lemma StopsExactly(a: SessionType, b: SessionType, compatible: Compatibility)
    ensures (exists fuel: nat :: SessionEq(a, b, compatible, fuel).Some?) <==> !MeetsBareDual(a, b, compatible)
  {
    if MeetsBareDual(a, b, compatible) {
      forall fuel: nat
        ensures SessionEq(a, b, compatible, fuel).None?
      {
        NeverAnswers(a, b, compatible, fuel);
      }
    } else {
      var fuel := Answers(a, b, compatible);
    }
  }

  lemma {:induction false} NameFreeNeverLoops(a: SessionType, b: SessionType, compatible: Compatibility)
    requires NameFree(a) && NameFree(b)
    ensures !MeetsBareDual(a, b, compatible)
    decreases Actions(a) + Actions(b), LeadingDuals(a) + LeadingDuals(b)
  {
    if a.Dual? && b.Dual? {
      NameFreeNeverLoops(a.inner, b.inner, compatible);
    } else if a.Dual? {
      DualOfMeasure(a.inner);
      DualOfNameFree(a.inner);
      NameFreeNeverLoops(DualOf(a.inner), b, compatible);
    } else if b.Dual? {
      DualOfMeasure(b.inner);
      DualOfNameFree(b.inner);
      NameFreeNeverLoops(a, DualOf(b.inner), compatible);
    } else if (a.Send? && b.Send?) || (a.Recv? && b.Recv?) {
      NameFreeNeverLoops(a.cont, b.cont, compatible);
    }
  }

  /** On name-free terms the comparison stops, and holds exactly when the dual-normal forms agree. */
  lemma NameFreeEquality(a: SessionType, b: SessionType, compatible: Compatibility)
    requires NameFree(a) && NameFree(b)
    ensures exists fuel: nat :: SessionEq(a, b, compatible, fuel)
                                == Some(Agree(Meaning(a, false), Meaning(b, false), compatible))
  {
    NameFreeNeverLoops(a, b, compatible);
    var fuel := Answers(a, b, compatible);
    AnswerIsAgreement(a, b, compatible, fuel);
  }

  /** No name stands under a dual, at any depth. */
  ghost predicate NamesOutsideDuals(s: SessionType) {
    match s
    case Send(_, c) => NamesOutsideDuals(c)
    case Recv(_, c) => NamesOutsideDuals(c)
    case Dual(i) => NameFree(i)
    case _ => true
  }

  lemma {:induction false} NameFreeHasNoNames(s: SessionType)
    requires NameFree(s)
    ensures NamesOutsideDuals(s)
  {
    match s
    case Send(_, c) => NameFreeHasNoNames(c);
    case Recv(_, c) => NameFreeHasNoNames(c);
    case _ =>
  }

  lemma DualIsNameFree(i: SessionType)
    requires NameFree(i)
    ensures NamesOutsideDuals(DualOf(i))
  {
    DualOfNameFree(i);
    NameFreeHasNoNames(DualOf(i));
  }

  lemma {:induction false} NamesOutsideDualsNeverLoop(a: SessionType, b: SessionType, compatible: Compatibility)
    requires NamesOutsideDuals(a) && NamesOutsideDuals(b)
    ensures !MeetsBareDual(a, b, compatible)
    decreases Actions(a) + Actions(b), LeadingDuals(a) + LeadingDuals(b)
  {
    if a.Dual? && b.Dual? {
      NameFreeNeverLoops(a.inner, b.inner, compatible);
    } else if a.Dual? {
      DualOfMeasure(a.inner);
      DualIsNameFree(a.inner);
      NamesOutsideDualsNeverLoop(DualOf(a.inner), b, compatible);
    } else if b.Dual? {
      DualOfMeasure(b.inner);
      DualIsNameFree(b.inner);
      NamesOutsideDualsNeverLoop(a, DualOf(b.inner), compatible);
    } else if (a.Send? && b.Send?) || (a.Recv? && b.Recv?) {
      NamesOutsideDualsNeverLoop(a.cont, b.cont, compatible);
    }
  }

  /** On terms without a name under a dual the comparison stops with the agreement of the meanings. */
  lemma EqualityWithNames(a: SessionType, b: SessionType, compatible: Compatibility)
    requires NamesOutsideDuals(a) && NamesOutsideDuals(b)
    ensures exists fuel: nat :: SessionEq(a, b, compatible, fuel)
                                == Some(Agree(Meaning(a, false), Meaning(b, false), compatible))
  {
    NamesOutsideDualsNeverLoop(a, b, compatible);
    var fuel := Answers(a, b, compatible);
    AnswerIsAgreement(a, b, compatible, fuel);
  }

  // --- terms in dual-normal form ---

  /** `dual` stands around names only. */
  ghost predicate DualNormal(s: SessionType) {
    match s
    case Send(_, c) => DualNormal(c)
    case Recv(_, c) => DualNormal(c)
    case Dual(i) => i.Name?
    case _ => true
  }

  /** What follows the first `d` actions. */
  ghost function Tail(s: SessionType, d: nat): SessionType {
    if d == 0 then s else
    match s
    case Send(_, c) => Tail(c, d - 1)
    case Recv(_, c) => Tail(c, d - 1)
    case _ => s
  }

  /** The terms begin with the same `d` actions, up to compatible payloads. */
  ghost predicate SameActions(a: SessionType, b: SessionType, compatible: Compatibility, d: nat) {
    forall e {:trigger Tail(a, e)} :: 0 <= e < d ==> SameAction(Tail(a, e), Tail(b, e), compatible)
  }

  ghost predicate SameAction(a: SessionType, b: SessionType, compatible: Compatibility) {
    (a.Send? && b.Send? && compatible(a.ty, b.ty)) || (a.Recv? && b.Recv? && compatible(a.ty, b.ty))
  }

  /** Behind the same actions the dual of a name never faces another term. */
  ghost predicate DualsFaceDuals(a: SessionType, b: SessionType, compatible: Compatibility) {
    forall d: nat {:trigger Tail(a, d)} :: SameActions(a, b, compatible, d) ==> (Tail(a, d).Dual? <==> Tail(b, d).Dual?)
  }

  lemma SameActionsStep(a: SessionType, b: SessionType, compatible: Compatibility, d: nat)
    requires SameAction(a, b, compatible)
    ensures SameActions(a, b, compatible, d + 1) <==> SameActions(a.cont, b.cont, compatible, d)
  {
    forall e: nat
      ensures Tail(a, e + 1) == Tail(a.cont, e) && Tail(b, e + 1) == Tail(b.cont, e)
    {
    }
    if SameActions(a, b, compatible, d + 1) {
      forall e | 0 <= e < d ensures SameAction(Tail(a.cont, e), Tail(b.cont, e), compatible) {
        assert Tail(a, e + 1) == Tail(a.cont, e);
      }
    }
    if SameActions(a.cont, b.cont, compatible, d) {
      forall e | 0 <= e < d + 1 ensures SameAction(Tail(a, e), Tail(b, e), compatible) {
        assert e > 0 ==> Tail(a, e) == Tail(a.cont, e - 1);
      }
    }
  }

  lemma DualsFaceStep(a: SessionType, b: SessionType, compatible: Compatibility)
    requires SameAction(a, b, compatible)
    ensures DualsFaceDuals(a, b, compatible) <==> DualsFaceDuals(a.cont, b.cont, compatible)
  {
    if DualsFaceDuals(a, b, compatible) {
      forall d: nat | SameActions(a.cont, b.cont, compatible, d)
        ensures Tail(a.cont, d).Dual? <==> Tail(b.cont, d).Dual?
      {
        SameActionsStep(a, b, compatible, d);
        assert Tail(a, d + 1) == Tail(a.cont, d) && Tail(b, d + 1) == Tail(b.cont, d);
      }
    }
    if DualsFaceDuals(a.cont, b.cont, compatible) {
      forall d: nat | SameActions(a, b, compatible, d)
        ensures Tail(a, d).Dual? <==> Tail(b, d).Dual?
      {
        if d > 0 {
          SameActionsStep(a, b, compatible, d - 1);
          assert Tail(a, d) == Tail(a.cont, d - 1) && Tail(b, d) == Tail(b.cont, d - 1);
        }
      }
    }
  }

  lemma DualsFaceNow(a: SessionType, b: SessionType, compatible: Compatibility)
    requires !SameAction(a, b, compatible)
    ensures DualsFaceDuals(a, b, compatible) <==> (a.Dual? <==> b.Dual?)
  {
    assert Tail(a, 0) == a && Tail(b, 0) == b;
  }

  lemma {:induction false} MeetsBareDualExactly(a: SessionType, b: SessionType, compatible: Compatibility)
    requires DualNormal(a) && DualNormal(b)
    ensures MeetsBareDual(a, b, compatible) <==> !DualsFaceDuals(a, b, compatible)
  {
    if SameAction(a, b, compatible) {
      MeetsBareDualExactly(a.cont, b.cont, compatible);
      DualsFaceStep(a, b, compatible);
    } else {
      DualsFaceNow(a, b, compatible);
    }
  }

  /** On terms in dual-normal form the comparison stops exactly when, behind the same actions, the dual of a name
      only ever faces the dual of a name. */
  lemma NormalFormsStopExactly(a: SessionType, b: SessionType, compatible: Compatibility)
    requires DualNormal(a) && DualNormal(b)
    ensures (exists fuel: nat :: SessionEq(a, b, compatible, fuel).Some?) <==> DualsFaceDuals(a, b, compatible)
  {
    MeetsBareDualExactly(a, b, compatible);
    StopsExactly(a, b, compatible);
  }

  /** Every meaning is in dual-normal form. */
  lemma {:induction false} MeaningIsDualNormal(s: SessionType, flip: bool)
    ensures DualNormal(Meaning(s, flip))
  {
    match s
    case Send(_, c) => MeaningIsDualNormal(c, flip);
    case Recv(_, c) => MeaningIsDualNormal(c, flip);
    case Dual(i) => MeaningIsDualNormal(i, !flip);
    case _ =>
  }

  /** The smallest failing input: the dual of a name against anything that is not itself a dual. */
  lemma BareDualLoops(n: string, b: SessionType, compatible: Compatibility, fuel: nat)
    requires !b.Dual?
    ensures SessionEq(Dual(Name(n)), b, compatible, fuel) == None
  {
    NeverAnswers(Dual(Name(n)), b, compatible, fuel);
  }
}
