/** The expansion as the pass performs it: one flow definition, updated in place (src/flow_matrix.rs). */
module FlowInPlace {
  import opened Wrappers
  import opened Ast
  import opened FlowMatrix

  class FlowDef {
    const name: string
    const persistent: seq<string>
    const faultType: Option<Type>
    var states: seq<StateDef>
    var transitions: seq<Transition>

    ghost function Contents(): Flow
      reads this
    {
      Flow(name, states, transitions, persistent, faultType)
    }

    constructor (f: Flow)
      ensures Contents() == f
    {
      name, persistent, faultType := f.name, f.persistent, f.faultType;
      states, transitions := f.states, f.transitions;
    }

    function View(): (f: Flow)
      reads this
      ensures f == Contents()
    {
      Flow(name, states, transitions, persistent, faultType)
    }

    /** The declared type of every persistent field, first declaration first. */
    method ResolveTypes() returns (types: map<string, Type>)
      ensures forall n :: n in types <==> n in persistent && DeclaredIn(states, n).Some?
      ensures forall n :: n in types ==> DeclaredIn(states, n) == Some(types[n])
    {
      types := map[];
      var i := 0;
      while i < |states|
        invariant 0 <= i <= |states|
        invariant Resolved(types, states[..i], [])
      {
        if states[i].payload.Some? {
          var payload := states[i].payload.value;
          var j := 0;
          while j < |payload|
            invariant 0 <= j <= |payload|
            invariant Resolved(types, states[..i], payload[..j])
          {
            assert payload[..j + 1][..j] == payload[..j];
            if payload[j].name in persistent && payload[j].name !in types {
              types := types[payload[j].name := payload[j].ty];
            }
            j := j + 1;
          }
          assert payload[..j] == payload;
        }
        assert states[..i + 1][..i] == states[..i];
        i := i + 1;
      }
      assert states[..i] == states;
    }

    // The map agrees with the states seen so far, followed by the fields seen in the current state.
    ghost predicate Resolved(types: map<string, Type>, before: seq<StateDef>, fields: seq<FieldDef>) {
      forall n :: (n in types <==> n in persistent && Found(before, fields, n).Some?)
                  && (n in types ==> Found(before, fields, n) == Some(types[n]))
    }

    static ghost function Found(before: seq<StateDef>, fields: seq<FieldDef>, n: string): Option<Type> {
      if DeclaredIn(before, n).Some? then DeclaredIn(before, n) else TypeIn(fields, n)
    }

    method AttachPersistentShadows()
      modifies this`states
      ensures Contents() == AttachShadows(old(Contents()))
    {
      if persistent == [] {
        return;
      }
      var types := ResolveTypes();
      var at := StateIndex(states, FAULT, 0);
      if at.None? {
        return;
      }
      ghost var all := states;
      var i := at.value;
      var payload := if states[i].payload.Some? then states[i].payload.value else [];
      ghost var first := payload;
      var k := 0;
      while k < |persistent|
        invariant 0 <= k <= |persistent|
        invariant states == all
        invariant WithShadows(payload, persistent[k..], all) == WithShadows(first, persistent, all)
      {
        var field := persistent[k];
        if field !in Names(payload) {
          var ty := if field in types then types[field] else Plain("unit");
          payload := payload + [FieldDef(field, ty)];
        }
        k := k + 1;
      }
      states := states[i := states[i].(payload := Some(payload))];
    }

    method EnsureFaultState(moduleName: string)
      modifies this`states
      ensures Contents() == EnsureFault(old(Contents()), moduleName)
    {
      if !HasState(states, FAULT) {
        states := states + [StateDef(FAULT, Some(FaultFields(View(), moduleName)))];
      }
      AttachPersistentShadows();
    }

    method InjectVerbs(shapes: Shapes)
      modifies this`transitions
      ensures Contents() == InjectSystemVerbs(old(Contents()), shapes)
    {
      var start := RootStateName(states);
      if start.None? {
        return;
      }
      var root := start.value;
      var hasReset := HasTransition(transitions, "reset", FAULT);
      var hasRecover := HasTransition(transitions, "recover", FAULT);
      ghost var reset := Generated("reset", FAULT, root, RebuildRoot(Contents(), root, false, shapes), true, false);
      if !hasReset {
        transitions :=
          transitions + [Generated("reset", FAULT, root, RebuildRoot(View(), root, false, shapes), true, false)];
      }
      KeepsOthers(old(transitions), reset, "recover", FAULT);
      if !hasRecover {
        var keep := persistent != [];
        transitions :=
          transitions + [Generated("recover", FAULT, root, RebuildRoot(View(), root, keep, shapes), true, false)];
      }
    }

    /** The states that already have a `peer_fault`. */
    method PeerFaultSources() returns (defined: set<string>)
      ensures forall s :: s in defined <==> HasTransition(transitions, "peer_fault", s)
    {
      defined := {};
      var k := 0;
      while k < |transitions|
        invariant 0 <= k <= |transitions|
        invariant forall s :: s in defined <==> HasTransition(transitions[..k], "peer_fault", s)
      {
        var t := transitions[k];
        if t.name == "peer_fault" {
          defined := defined + {t.from};
        }
        forall s ensures s in defined <==> HasTransition(transitions[..k + 1], "peer_fault", s) {
          assert transitions[..k + 1] == transitions[..k] + [t];
          KeepsOthers(transitions[..k], t, "peer_fault", s);
        }
        k := k + 1;
      }
      assert transitions[..k] == transitions;
    }

    method InjectPeerFaultVerbs(shapes: Shapes)
      modifies this`transitions
      ensures Contents() == InjectPeerFaults(old(Contents()), shapes)
    {
      var defined := PeerFaultSources();
      var injected: seq<Transition> := [];
      var i := 0;
      while i < |states|
        invariant 0 <= i <= |states|
        invariant injected == PeerFaults(Contents(), shapes, i)
      {
        var state := states[i].name;
        if state != FAULT && state !in defined {
          injected := injected + [PeerFault(View(), state, shapes)];
        }
        i := i + 1;
      }
      if FAULT !in defined && HasState(states, FAULT) {
        injected := injected + [PeerFault(View(), FAULT, shapes)];
      }
      transitions := transitions + injected;
    }

    method InjectFfiPinnedTransitions(shapes: Shapes)
      modifies this`transitions
      ensures Contents() == InjectFfiPinned(old(Contents()), shapes)
    {
      if !HasState(states, PINNED) {
        return;
      }
      var found := FirstStateExcept(states, {FAULT, PINNED});
      if found.None? {
        return;
      }
      var active := found.value;
      var compatible := Names(PayloadOf(states, active)) == Names(PayloadOf(states, PINNED));
      if !HasTransition(transitions, "enter_ffi", active) && compatible {
        transitions := transitions + [Generated("enter_ffi", active, PINNED, Passthrough(View(), PINNED), false, true)];
      }
      if !HasTransition(transitions, "exit_ffi", PINNED) && compatible {
        transitions := transitions + [Generated("exit_ffi", PINNED, active, Passthrough(View(), active), false, true)];
      }
      BodiesIgnoreTransitions(old(Contents()), Contents(), PINNED, "ffi_crash", shapes);
      if !HasTransition(transitions, "ffi_crash", PINNED) {
        transitions := transitions
          + [Generated("ffi_crash", PINNED, FAULT, FaultReturn(View(), PINNED, "ffi_crash", shapes), true, true)];
      }
    }

    /** `expand_flow_with_shapes` */
    method ExpandWithShapes(shapes: Shapes, moduleName: string)
      modifies this`states, this`transitions
      ensures Contents() == Expanded(old(Contents()), shapes, moduleName)
    {
      EnsureFaultState(moduleName);
      InjectVerbs(shapes);
      InjectPeerFaultVerbs(shapes);
      InjectFfiPinnedTransitions(shapes);
    }

    /** `expand_flow`: only this flow's own state shapes are known. */
    method Expand()
      modifies this`states, this`transitions
      ensures Contents() == ExpandedAlone(old(Contents()))
    {
      var shapes: Shapes := map[];
      var i := 0;
      while i < |states|
        invariant 0 <= i <= |states|
        invariant shapes == OwnShapes(states[..i])
      {
        var state := states[i];
        if state.name != FAULT && state.name !in shapes {
          shapes := shapes[state.name := if state.payload.Some? then state.payload.value else []];
        }
        assert states[..i + 1][..i] == states[..i];
        i := i + 1;
      }
      assert states[..i] == states;
      ExpandWithShapes(shapes, "");
    }
  }

  lemma KeepsOthers(transitions: seq<Transition>, t: Transition, name: string, from: string)
    ensures HasTransition(transitions + [t], name, from)
            <==> HasTransition(transitions, name, from) || (t.name == name && t.from == from)
  {
    var more := transitions + [t];
    if HasTransition(transitions, name, from) {
      var i :| 0 <= i < |transitions| && transitions[i].name == name && transitions[i].from == from;
      assert more[i] == transitions[i];
    }
    if t.name == name && t.from == from {
      assert more[|transitions|] == t;
    }
  }
}
