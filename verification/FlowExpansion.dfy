/** What expansion keeps, adds and never repeats (src/flow_matrix.rs). */
module FlowExpansion {
  import opened Wrappers
  import opened Ast
  import opened FlowMatrix

  // --- the Fault state ---

  /** `full` is `base` followed by the persistent fields it lacked, each with its declared type. */
  predicate Shadowed(base: seq<FieldDef>, full: seq<FieldDef>, names: seq<string>, states: seq<StateDef>) {
    && base <= full
    && (forall n :: n in names ==> n in Names(full))
    && (forall k :: |base| <= k < |full| ==> IsShadow(base, full[k], names, states))
  }

  predicate IsShadow(base: seq<FieldDef>, field: FieldDef, names: seq<string>, states: seq<StateDef>) {
    field.name in names && field.name !in Names(base) && field.ty == DeclaredType(states, field.name)
  }

  lemma {:induction false} ShadowsAreTheMissingFields(payload: seq<FieldDef>, names: seq<string>, states: seq<StateDef>)
    ensures Shadowed(payload, WithShadows(payload, names, states), names, states)
    decreases names
  {
    if names != [] {
      var name := names[0];
      var next := if name in Names(payload) then payload else payload + [FieldDef(name, DeclaredType(states, name))];
      var full := WithShadows(payload, names, states);
      assert full == WithShadows(next, names[1..], states);
      ShadowsAreTheMissingFields(next, names[1..], states);
      assert name in Names(full) by {
        NamesArePrefix(next, full);
        assert next != payload ==> Names(next)[|payload|] == name;
      }
      NamesArePrefix(payload, next);
      forall k | |payload| <= k < |full| ensures IsShadow(payload, full[k], names, states) {
        if k >= |next| {
          assert IsShadow(next, full[k], names[1..], states);
        } else {
          assert full[k] == next[k];
        }
      }
    }
  }

  lemma NamesArePrefix(short: seq<FieldDef>, long: seq<FieldDef>)
    requires short <= long
    ensures Names(short) <= Names(long)
    ensures forall n :: n in Names(short) ==> n in Names(long)
  {
    assert Names(long)[..|short|] == Names(short);
  }

  function WithFault(f: Flow, moduleName: string): seq<StateDef> {
    if HasState(f.states, FAULT) then f.states else f.states + [StateDef(FAULT, Some(FaultFields(f, moduleName)))]
  }

  /** The states of a flow that has been given its Fault: every other state is as the user wrote it. */
  predicate FaultGiven(f: Flow, moduleName: string, after: seq<StateDef>) {
    && |after| == |WithFault(f, moduleName)|
    && HasState(after, FAULT)
    && Shadowed(PayloadOf(WithFault(f, moduleName), FAULT), PayloadOf(after, FAULT),
                f.persistent, WithFault(f, moduleName))
    && forall i :: 0 <= i < |after| ==> KeptState(WithFault(f, moduleName), after, i)
  }

  predicate KeptState(before: seq<StateDef>, after: seq<StateDef>, i: nat)
    requires i < |before| == |after|
  {
    && after[i].name == before[i].name
    && (StateIndex(before, FAULT, 0) != Some(i) ==> after[i] == before[i])
  }

  lemma {:induction false} SameIndex(short: seq<StateDef>, long: seq<StateDef>, name: string, i: nat)
    requires i <= |short| <= |long|
    requires forall k :: i <= k < |short| ==> long[k].name == short[k].name
    requires forall k :: |short| <= k < |long| ==> long[k].name != name
    ensures StateIndex(long, name, i) == StateIndex(short, name, i)
    decreases |short| - i
  {
    if i < |short| {
      SameIndex(short, long, name, i + 1);
    }
  }

  lemma EnsureFaultGivesFault(f: Flow, moduleName: string)
    ensures EnsureFault(f, moduleName) == f.(states := EnsureFault(f, moduleName).states)
    ensures FaultGiven(f, moduleName, EnsureFault(f, moduleName).states)
  {
    var before := WithFault(f, moduleName);
    var g := f.(states := before);
    FaultPresent(f, moduleName);
    var i := StateIndex(before, FAULT, 0).value;
    var payload := PayloadOf(before, FAULT);
    ShadowsAreTheMissingFields(payload, f.persistent, before);
    var after := AttachShadows(g).states;
    assert EnsureFault(f, moduleName) == AttachShadows(g);
    assert forall k :: 0 <= k < |before| ==> after[k].name == before[k].name;
    SameIndex(before, after, FAULT, 0);
    assert f.persistent == [] ==> Shadowed(payload, payload, [], before);
  }

  lemma FaultPresent(f: Flow, moduleName: string)
    ensures HasState(WithFault(f, moduleName), FAULT)
    ensures !HasState(f.states, FAULT) ==> PayloadOf(WithFault(f, moduleName), FAULT) == FaultFields(f, moduleName)
  {
    var before := WithFault(f, moduleName);
    assert before[|before| - 1].name == FAULT || before == f.states;
  }

  // Away from Fault, lookups see the states the user declared.
  lemma LookupsAwayFromFault(f: Flow, moduleName: string, name: string)
    requires name != FAULT
    ensures StateIndex(EnsureFault(f, moduleName).states, name, 0) == StateIndex(f.states, name, 0)
    ensures PayloadOf(EnsureFault(f, moduleName).states, name) == PayloadOf(f.states, name)
  {
    EnsureFaultGivesFault(f, moduleName);
    var before, after := WithFault(f, moduleName), EnsureFault(f, moduleName).states;
    forall k | 0 <= k < |f.states| ensures after[k].name == f.states[k].name {
      assert KeptState(before, after, k);
    }
    forall k | |f.states| <= k < |after| ensures after[k].name != name {
      assert KeptState(before, after, k);
    }
    SameIndex(f.states, after, name, 0);
    var at := StateIndex(f.states, name, 0);
    if at.Some? {
      assert KeptState(before, after, at.value);
    }
  }

  // --- user parts stay ---

  /** Only transitions were added, and only at the end. */
  predicate Extends(f: Flow, g: Flow) {
    f.transitions <= g.transitions && g == f.(transitions := g.transitions)
  }

  function Added(f: Flow, g: Flow): seq<Transition>
    requires Extends(f, g)
  {
    g.transitions[|f.transitions|..]
  }

  lemma SystemVerbsExtend(f: Flow, shapes: Shapes)
    ensures Extends(f, InjectSystemVerbs(f, shapes))
  {
    var root := RootStateName(f.states);
    if root.Some? {
      var reset := Generated("reset", FAULT, root.value, RebuildRoot(f, root.value, false, shapes), true, false);
      assert Extends(f, AddMissing(f, reset));
    }
  }

  lemma FfiPinnedExtends(f: Flow, shapes: Shapes)
    ensures Extends(f, InjectFfiPinned(f, shapes))
  {
  }

  /** User states and transitions stay as a prefix; only Fault may gain its shadow fields. */
  lemma ExpansionKeepsUserParts(f: Flow, shapes: Shapes, moduleName: string)
    ensures var g := Expanded(f, shapes, moduleName);
      && f.transitions <= g.transitions
      && FaultGiven(f, moduleName, g.states)
      && g == f.(states := g.states, transitions := g.transitions)
  {
    EnsureFaultGivesFault(f, moduleName);
    var a := EnsureFault(f, moduleName);
    var b := InjectSystemVerbs(a, shapes);
    var c := InjectPeerFaults(b, shapes);
    SystemVerbsExtend(a, shapes);
    assert Extends(b, c);
    FfiPinnedExtends(c, shapes);
  }

  // --- no pair is declared twice ---

  /** No two transitions answer the same event in the same state. */
  predicate PairsDistinct(transitions: seq<Transition>) {
    forall i, j :: 0 <= i < j < |transitions| ==> !SamePair(transitions[i], transitions[j])
  }

  predicate SamePair(t: Transition, u: Transition) {
    t.name == u.name && t.from == u.from
  }

  /** A state name is declared twice only for Fault or when the user handles `peer_fault` there. */
  predicate RepeatsAreHandled(f: Flow, n: nat)
    requires n <= |f.states|
  {
    forall i, j :: 0 <= i < j < n && f.states[i].name == f.states[j].name ==> Handled(f, f.states[j].name)
  }

  predicate Handled(f: Flow, state: string) {
    state == FAULT || HasTransition(f.transitions, "peer_fault", state)
  }

  /** Exactly one pair, that of `t`, may be answered after and not before. */
  ghost predicate AnswersOneMore(before: seq<Transition>, after: seq<Transition>, t: Transition) {
    forall name, from ::
      Answers(after, name, from) <==> Answers(before, name, from) || (name == t.name && from == t.from)
  }

  predicate Answers(transitions: seq<Transition>, name: string, from: string) {
    HasTransition(transitions, name, from)
  }

  lemma DistinctWithOneMore(transitions: seq<Transition>, t: Transition)
    ensures PairsDistinct(transitions + [t])
            <==> PairsDistinct(transitions) && !HasTransition(transitions, t.name, t.from)
    ensures AnswersOneMore(transitions, transitions + [t], t)
  {
    var more := transitions + [t];
    assert more[|transitions|] == t;
    assert forall i :: 0 <= i < |transitions| ==> more[i] == transitions[i];
    if PairsDistinct(more) {
      forall i, j | 0 <= i < j < |transitions| ensures !SamePair(transitions[i], transitions[j]) {
        assert !SamePair(more[i], more[j]);
      }
      forall i | 0 <= i < |transitions| ensures !(transitions[i].name == t.name && transitions[i].from == t.from) {
        assert !SamePair(more[i], more[|transitions|]);
      }
    }
  }

  lemma AddMissingKeepsDistinct(f: Flow, t: Transition)
    ensures PairsDistinct(AddMissing(f, t).transitions) <==> PairsDistinct(f.transitions)
    ensures AnswersOneMore(f.transitions, AddMissing(f, t).transitions, t)
  {
    DistinctWithOneMore(f.transitions, t);
  }

  /** The pairs answered once the first `n` states have their `peer_fault`. */
  ghost predicate AnswersPeerFault(f: Flow, after: seq<Transition>, n: nat)
    requires n <= |f.states|
  {
    forall name, from ::
      Answers(after, name, from)
      <==> Answers(f.transitions, name, from) || (name == "peer_fault" && from != FAULT && IsAmong(f.states[..n], from))
  }

  predicate IsAmong(states: seq<StateDef>, name: string) {
    exists i :: 0 <= i < |states| && states[i].name == name
  }

  lemma AmongOneMore(states: seq<StateDef>, n: nat)
    requires n < |states|
    ensures forall name :: IsAmong(states[..n + 1], name) <==> IsAmong(states[..n], name) || name == states[n].name
  {
    assert states[..n + 1] == states[..n] + [states[n]];
    forall name ensures IsAmong(states[..n + 1], name) <==> IsAmong(states[..n], name) || name == states[n].name {
      if IsAmong(states[..n], name) {
        var i :| 0 <= i < n && states[..n][i].name == name;
        assert states[..n + 1][i].name == name;
      }
      assert states[..n + 1][n] == states[n];
    }
  }

  lemma RepeatsOneMore(f: Flow, n: nat)
    requires n < |f.states|
    ensures RepeatsAreHandled(f, n + 1)
            <==> RepeatsAreHandled(f, n) && (IsAmong(f.states[..n], f.states[n].name) ==> Handled(f, f.states[n].name))
  {
    var state := f.states[n].name;
    if RepeatsAreHandled(f, n + 1) && IsAmong(f.states[..n], state) {
      var i :| 0 <= i < n && f.states[..n][i].name == state;
      assert f.states[i].name == f.states[n].name;
    }
    if RepeatsAreHandled(f, n) && (IsAmong(f.states[..n], state) ==> Handled(f, state)) {
      forall i, j | 0 <= i < j < n + 1 && f.states[i].name == f.states[j].name ensures Handled(f, f.states[j].name) {
        assert f.states[..n][i].name == f.states[i].name;
      }
    }
  }

  lemma HandledStep(f: Flow, before: seq<Transition>, n: nat)
    requires n < |f.states| && AnswersPeerFault(f, before, n) && Handled(f, f.states[n].name)
    ensures AnswersPeerFault(f, before, n + 1)
  {
    AmongOneMore(f.states, n);
    var state := f.states[n].name;
    assert state != FAULT ==> Answers(f.transitions, "peer_fault", state);
  }

  lemma UnhandledStep(f: Flow, before: seq<Transition>, n: nat, t: Transition)
    requires n < |f.states| && AnswersPeerFault(f, before, n) && !Handled(f, f.states[n].name)
    requires t.name == "peer_fault" && t.from == f.states[n].name
    ensures AnswersPeerFault(f, before + [t], n + 1)
    ensures PairsDistinct(before + [t]) <==> PairsDistinct(before) && !IsAmong(f.states[..n], t.from)
  {
    AmongOneMore(f.states, n);
    DistinctWithOneMore(before, t);
    assert Answers(before, "peer_fault", t.from) <==> IsAmong(f.states[..n], t.from);
  }

  lemma {:induction false} PeerFaultsKeepDistinct(f: Flow, shapes: Shapes, n: nat)
    requires n <= |f.states|
    ensures var all := f.transitions + PeerFaults(f, shapes, n);
      && (PairsDistinct(all) <==> PairsDistinct(f.transitions) && RepeatsAreHandled(f, n))
      && AnswersPeerFault(f, all, n)
  {
    if n == 0 {
      assert f.transitions + PeerFaults(f, shapes, 0) == f.transitions;
    } else {
      PeerFaultsKeepDistinct(f, shapes, n - 1);
      RepeatsOneMore(f, n - 1);
      var state := f.states[n - 1].name;
      var before := f.transitions + PeerFaults(f, shapes, n - 1);
      if Handled(f, state) {
        assert f.transitions + PeerFaults(f, shapes, n) == before;
        HandledStep(f, before, n - 1);
      } else {
        assert f.transitions + PeerFaults(f, shapes, n) == before + [PeerFault(f, state, shapes)];
        UnhandledStep(f, before, n - 1, PeerFault(f, state, shapes));
      }
    }
  }

  lemma PeerFaultPassKeepsDistinct(f: Flow, shapes: Shapes)
    ensures PairsDistinct(InjectPeerFaults(f, shapes).transitions)
            <==> PairsDistinct(f.transitions) && RepeatsAreHandled(f, |f.states|)
    ensures forall name, from ::
              Answers(InjectPeerFaults(f, shapes).transitions, name, from)
              <==> Answers(f.transitions, name, from) || (name == "peer_fault" && HasState(f.states, from))
  {
    PeerFaultsKeepDistinct(f, shapes, |f.states|);
    var all := f.transitions + PeerFaults(f, shapes, |f.states|);
    DistinctWithOneMore(all, PeerFault(f, FAULT, shapes));
    assert f.states[..|f.states|] == f.states;
    assert Answers(all, "peer_fault", FAULT) <==> Answers(f.transitions, "peer_fault", FAULT);
    assert InjectPeerFaults(f, shapes).transitions == all
      || InjectPeerFaults(f, shapes).transitions == all + [PeerFault(f, FAULT, shapes)];
  }

  lemma SystemVerbsKeepDistinct(f: Flow, shapes: Shapes)
    ensures PairsDistinct(InjectSystemVerbs(f, shapes).transitions) <==> PairsDistinct(f.transitions)
    ensures forall name, from ::
              Answers(InjectSystemVerbs(f, shapes).transitions, name, from)
              <==> Answers(f.transitions, name, from)
                   || (RootStateName(f.states).Some? && from == FAULT && (name == "reset" || name == "recover"))
  {
    var root := RootStateName(f.states);
    if root.Some? {
      var reset := Generated("reset", FAULT, root.value, RebuildRoot(f, root.value, false, shapes), true, false);
      var recover :=
        Generated("recover", FAULT, root.value, RebuildRoot(f, root.value, f.persistent != [], shapes), true, false);
      AddMissingKeepsDistinct(f, reset);
      AddMissingKeepsDistinct(AddMissing(f, reset), recover);
      assert InjectSystemVerbs(f, shapes) == AddMissing(AddMissing(f, reset), recover);
    }
  }

  lemma FfiPinnedKeepsDistinct(f: Flow, shapes: Shapes)
    ensures PairsDistinct(InjectFfiPinned(f, shapes).transitions) <==> PairsDistinct(f.transitions)
  {
    var active := FirstStateExcept(f.states, {FAULT, PINNED});
    if HasState(f.states, PINNED) && active.Some? {
      var enter := Generated("enter_ffi", active.value, PINNED, Passthrough(f, PINNED), false, true);
      var exit := Generated("exit_ffi", PINNED, active.value, Passthrough(f, active.value), false, true);
      var crash := Generated("ffi_crash", PINNED, FAULT, FaultReturn(f, PINNED, "ffi_crash", shapes), true, true);
      AddMissingKeepsDistinct(f, enter);
      AddMissingKeepsDistinct(AddMissing(f, enter), exit);
      AddMissingKeepsDistinct(AddMissing(AddMissing(f, enter), exit), crash);
      AddMissingKeepsDistinct(f, crash);
    }
  }

  lemma EnsureFaultKeepsRepeats(f: Flow, moduleName: string)
    ensures var g := EnsureFault(f, moduleName);
      RepeatsAreHandled(g, |g.states|) <==> RepeatsAreHandled(f, |f.states|)
  {
    var g := EnsureFault(f, moduleName);
    EnsureFaultGivesFault(f, moduleName);
    var before := WithFault(f, moduleName);
    assert forall i :: 0 <= i < |before| ==> KeptState(before, g.states, i);
    if RepeatsAreHandled(g, |g.states|) {
      forall i, j | 0 <= i < j < |f.states| && f.states[i].name == f.states[j].name
        ensures Handled(f, f.states[j].name)
      {
        assert g.states[i].name == g.states[j].name;
        assert Handled(g, g.states[j].name);
      }
    }
    if RepeatsAreHandled(f, |f.states|) {
      forall i, j | 0 <= i < j < |g.states| && g.states[i].name == g.states[j].name
        ensures Handled(g, g.states[j].name)
      {
        assert j < |f.states| ==> f.states[i].name == f.states[j].name;
        assert j < |f.states| ==> Handled(f, f.states[j].name);
      }
    }
  }

  lemma SystemVerbsKeepRepeats(f: Flow, shapes: Shapes)
    ensures var g := InjectSystemVerbs(f, shapes);
            RepeatsAreHandled(g, |g.states|) <==> RepeatsAreHandled(f, |f.states|)
  {
    var g := InjectSystemVerbs(f, shapes);
    SystemVerbsKeepDistinct(f, shapes);
    SystemVerbsExtend(f, shapes);
    assert forall state :: Answers(g.transitions, "peer_fault", state) <==> Answers(f.transitions, "peer_fault", state);
    assert forall state :: Handled(f, state) <==> Handled(g, state);
  }

  /**
    * Distinct (state, event) pairs stay distinct exactly when no state name is declared twice, Fault and the states
    * whose `peer_fault` the user wrote excepted.
    */
  lemma DistinctPairsStayDistinct(f: Flow, shapes: Shapes, moduleName: string)
    ensures PairsDistinct(Expanded(f, shapes, moduleName).transitions)
            <==> PairsDistinct(f.transitions) && RepeatsAreHandled(f, |f.states|)
  {
    var a := EnsureFault(f, moduleName);
    var b := InjectSystemVerbs(a, shapes);
    EnsureFaultGivesFault(f, moduleName);
    EnsureFaultKeepsRepeats(f, moduleName);
    SystemVerbsKeepDistinct(a, shapes);
    SystemVerbsKeepRepeats(a, shapes);
    PeerFaultPassKeepsDistinct(b, shapes);
    FfiPinnedKeepsDistinct(InjectPeerFaults(b, shapes), shapes);
  }

  /** A flow that declares one state twice. */
  const TWICE_DECLARED := Flow("Door", [StateDef("Open", None), StateDef("Open", None)], [], [], None)

  /** Expansion gives that state two transitions for `peer_fault`. */
  lemma TwiceDeclaredIsDoubled(f: Flow, shapes: Shapes, moduleName: string)
    requires f == TWICE_DECLARED
    ensures PairsDistinct(f.transitions) && !PairsDistinct(Expanded(f, shapes, moduleName).transitions)
  {
    DistinctPairsStayDistinct(f, shapes, moduleName);
    assert f.states[0].name == f.states[1].name == "Open";
    assert !Handled(f, f.states[1].name);
  }

  // --- a second expansion changes nothing ---

  lemma {:induction false} NothingMissing(payload: seq<FieldDef>, names: seq<string>, states: seq<StateDef>)
    requires forall n :: n in names ==> n in Names(payload)
    ensures WithShadows(payload, names, states) == payload
    decreases names
  {
    if names != [] {
      NothingMissing(payload, names[1..], states);
    }
  }

  lemma AttachShadowsTwice(f: Flow)
    ensures AttachShadows(AttachShadows(f)) == AttachShadows(f)
    ensures HasState(f.states, FAULT) ==> HasState(AttachShadows(f).states, FAULT)
  {
    var at := StateIndex(f.states, FAULT, 0);
    if f.persistent != [] && at.Some? {
      var i := at.value;
      var payload := if f.states[i].payload.Some? then f.states[i].payload.value else [];
      var full := WithShadows(payload, f.persistent, f.states);
      var g := AttachShadows(f);
      ShadowsAreTheMissingFields(payload, f.persistent, f.states);
      SameIndex(f.states, g.states, FAULT, 0);
      assert g.states[i] == f.states[i].(payload := Some(full));
      NothingMissing(full, f.persistent, g.states);
      assert g.states[i := g.states[i].(payload := Some(full))] == g.states;
    }
  }

  lemma EnsureFaultTwice(f: Flow, moduleName: string, transitions: seq<Transition>)
    ensures var g := EnsureFault(f, moduleName).(transitions := transitions);
      EnsureFault(g, moduleName) == g
  {
    EnsureFaultGivesFault(f, moduleName);
    var h := if HasState(f.states, FAULT) then f
             else f.(states := f.states + [StateDef(FAULT, Some(FaultFields(f, moduleName)))]);
    AttachShadowsTwice(h);
  }

  /** Every verb that a pass would add is answered already. */
  ghost predicate Settled(f: Flow) {
    && (RootStateName(f.states).Some? ==>
          Answers(f.transitions, "reset", FAULT) && Answers(f.transitions, "recover", FAULT))
    && (forall state :: HasState(f.states, state) ==> Answers(f.transitions, "peer_fault", state))
    && PinnedSettled(f)
  }

  predicate PinnedSettled(f: Flow) {
    var active := FirstStateExcept(f.states, {FAULT, PINNED});
    HasState(f.states, PINNED) && active.Some? ==>
      && Answers(f.transitions, "ffi_crash", PINNED)
      && (Names(PayloadOf(f.states, active.value)) == Names(PayloadOf(f.states, PINNED)) ==>
            Answers(f.transitions, "enter_ffi", active.value) && Answers(f.transitions, "exit_ffi", PINNED))
  }

  lemma SettledAddsNothing(f: Flow, shapes: Shapes)
    requires Settled(f)
    ensures InjectSystemVerbs(f, shapes) == f
    ensures InjectPeerFaults(f, shapes) == f
    ensures InjectFfiPinned(f, shapes) == f
  {
    AllHandled(f, shapes, |f.states|);
    assert InjectPeerFaults(f, shapes) == f by {
      if HasState(f.states, FAULT) {
        assert Answers(f.transitions, "peer_fault", FAULT);
      }
      assert InjectPeerFaults(f, shapes).transitions == f.transitions;
    }
  }

  lemma {:induction false} AllHandled(f: Flow, shapes: Shapes, n: nat)
    requires n <= |f.states|
    requires forall state :: HasState(f.states, state) ==> Answers(f.transitions, "peer_fault", state)
    ensures PeerFaults(f, shapes, n) == []
  {
    if n > 0 {
      AllHandled(f, shapes, n - 1);
      assert HasState(f.states, f.states[n - 1].name);
    }
  }

  lemma AnswersStay(f: Flow, g: Flow, name: string, from: string)
    requires Extends(f, g)
    requires Answers(f.transitions, name, from)
    ensures Answers(g.transitions, name, from)
  {
    var i :| 0 <= i < |f.transitions| && f.transitions[i].name == name && f.transitions[i].from == from;
    assert g.transitions[i] == f.transitions[i];
  }

  lemma FfiPinnedSettles(f: Flow, shapes: Shapes)
    ensures PinnedSettled(InjectFfiPinned(f, shapes))
  {
    FfiPinnedExtends(f, shapes);
    var active := FirstStateExcept(f.states, {FAULT, PINNED});
    if HasState(f.states, PINNED) && active.Some? {
      var enter := Generated("enter_ffi", active.value, PINNED, Passthrough(f, PINNED), false, true);
      var exit := Generated("exit_ffi", PINNED, active.value, Passthrough(f, active.value), false, true);
      var crash := Generated("ffi_crash", PINNED, FAULT, FaultReturn(f, PINNED, "ffi_crash", shapes), true, true);
      AddMissingKeepsDistinct(f, enter);
      AddMissingKeepsDistinct(AddMissing(f, enter), exit);
      AddMissingKeepsDistinct(AddMissing(AddMissing(f, enter), exit), crash);
      AddMissingKeepsDistinct(f, crash);
    }
  }

  lemma RecoveryAnswered(f: Flow, shapes: Shapes, moduleName: string, name: string)
    requires name == "reset" || name == "recover"
    requires RootStateName(EnsureFault(f, moduleName).states).Some?
    ensures Answers(Expanded(f, shapes, moduleName).transitions, name, FAULT)
  {
    var a := EnsureFault(f, moduleName);
    var b := InjectSystemVerbs(a, shapes);
    var c := InjectPeerFaults(b, shapes);
    SystemVerbsKeepDistinct(a, shapes);
    assert Answers(b.transitions, name, FAULT);
    AnswersStay(b, c, name, FAULT);
    FfiPinnedExtends(c, shapes);
    AnswersStay(c, InjectFfiPinned(c, shapes), name, FAULT);
  }

  lemma ExpansionSettles(f: Flow, shapes: Shapes, moduleName: string)
    ensures Settled(Expanded(f, shapes, moduleName))
  {
    var b := InjectSystemVerbs(EnsureFault(f, moduleName), shapes);
    var c := InjectPeerFaults(b, shapes);
    var d := InjectFfiPinned(c, shapes);
    SystemVerbsExtend(EnsureFault(f, moduleName), shapes);
    PeerFaultPassKeepsDistinct(b, shapes);
    FfiPinnedExtends(c, shapes);
    FfiPinnedSettles(c, shapes);
    forall state | HasState(d.states, state) ensures Answers(d.transitions, "peer_fault", state) {
      AnswersStay(c, d, "peer_fault", state);
    }
    if RootStateName(d.states).Some? {
      RecoveryAnswered(f, shapes, moduleName, "reset");
      RecoveryAnswered(f, shapes, moduleName, "recover");
    }
  }

  /** Expanding an expanded flow changes nothing. */
  lemma ExpansionIsIdempotent(f: Flow, shapes: Shapes, moduleName: string)
    ensures var g := Expanded(f, shapes, moduleName);
      Expanded(g, shapes, moduleName) == g
  {
    var g := Expanded(f, shapes, moduleName);
    ExpansionKeepsUserParts(f, shapes, moduleName);
    ExpansionAddsOnlyTransitions(f, shapes, moduleName);
    EnsureFaultTwice(f, moduleName, g.transitions);
    ExpansionSettles(f, shapes, moduleName);
    SettledAddsNothing(g, shapes);
  }

  lemma ExpansionAddsOnlyTransitions(f: Flow, shapes: Shapes, moduleName: string)
    ensures Extends(EnsureFault(f, moduleName), Expanded(f, shapes, moduleName))
  {
    var a := EnsureFault(f, moduleName);
    var b := InjectSystemVerbs(a, shapes);
    var c := InjectPeerFaults(b, shapes);
    SystemVerbsExtend(a, shapes);
    assert Extends(b, c);
    FfiPinnedExtends(c, shapes);
  }

  lemma {:induction false} OwnShapesIgnoreFault(before: seq<StateDef>, after: seq<StateDef>)
    requires |before| <= |after|
    requires forall i :: 0 <= i < |before| ==> before[i].name == after[i].name
    requires forall i :: 0 <= i < |before| ==> before[i].name == FAULT || before[i] == after[i]
    requires forall i :: |before| <= i < |after| ==> after[i].name == FAULT
    ensures OwnShapes(after) == OwnShapes(before)
    decreases |after|
  {
    if after != [] {
      var last := |after| - 1;
      if |after| > |before| {
        OwnShapesIgnoreFault(before, after[..last]);
      } else {
        OwnShapesIgnoreFault(before[..last], after[..last]);
      }
    }
  }

  /** The stand-alone entry point, which takes its shapes from the flow itself, is idempotent too. */
  lemma ExpandingAloneIsIdempotent(f: Flow)
    ensures ExpandedAlone(ExpandedAlone(f)) == ExpandedAlone(f)
  {
    var g := ExpandedAlone(f);
    ExpansionKeepsUserParts(f, OwnShapes(f.states), "");
    FirstFaultOnly(f, g.states);
    OwnShapesIgnoreFault(f.states, g.states);
    ExpansionIsIdempotent(f, OwnShapes(f.states), "");
  }

  lemma FirstFaultOnly(f: Flow, after: seq<StateDef>)
    requires FaultGiven(f, "", after)
    ensures |f.states| <= |after|
    ensures forall i :: 0 <= i < |f.states| ==> f.states[i].name == after[i].name
    ensures forall i :: 0 <= i < |f.states| ==> f.states[i].name == FAULT || f.states[i] == after[i]
    ensures forall i :: |f.states| <= i < |after| ==> after[i].name == FAULT
  {
    var before := WithFault(f, "");
    forall i | 0 <= i < |after|
      ensures i < |f.states| ==> f.states[i].name == after[i].name
      ensures i < |f.states| ==> f.states[i].name == FAULT || f.states[i] == after[i]
      ensures i >= |f.states| ==> after[i].name == FAULT
    {
      assert KeptState(before, after, i);
      assert i < |f.states| ==> before[i] == f.states[i];
    }
  }
}
