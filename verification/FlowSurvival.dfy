/** What survives a fault: runs of generated transitions through Fault and back (src/flow_matrix.rs). */
module FlowSurvival {
  import opened Wrappers
  import opened Ast
  import opened FlowMatrix
  import opened FlowExpansion
  import opened FlowRuns

  // --- generated bodies are closed ---

  /** The body returns a record with exactly the fields of the target state, and reads only fields its source has. */
  predicate Closed(states: seq<StateDef>, t: Transition) {
    && |t.to| == 1
    && t.body.Some? && t.body.value.Returns? && t.body.value.result.Record?
    && t.body.value.result.ty == t.to[0]
    && ListsFields(t.body.value.result.fields, PayloadOf(states, t.to[0]), Names(PayloadOf(states, t.from)))
  }

  predicate ListsFields(fields: seq<FieldExpr>, payload: seq<FieldDef>, readable: seq<string>) {
    && |fields| == |payload|
    && forall i :: 0 <= i < |payload| ==> GoodField(fields[i], payload[i], readable)
  }

  predicate GoodField(field: FieldExpr, declared: FieldDef, readable: seq<string>) {
    field.name == declared.name && ReadsOnly(field.value, readable)
  }

  lemma DefaultFieldReadsNothing(field: FieldDef, from: string, event: string, snapshot: string, shapes: Shapes,
                                 names: seq<string>)
    ensures ReadsOnly(DefaultField(field, from, event, snapshot, shapes), names)
  {
    TraceReadsNothing(from, event, snapshot, names);
    DefaultsReadNothing(field.ty, shapes, 0, names);
  }

  lemma FaultReturnCloses(a: Flow, from: string, event: string, shapes: Shapes)
    ensures ListsFields(FaultReturn(a, from, event, shapes).result.fields, PayloadOf(a.states, FAULT),
                        Names(PayloadOf(a.states, from)))
  {
    var payload, fields := PayloadOf(a.states, FAULT), FaultReturn(a, from, event, shapes).result.fields;
    var readable := Names(PayloadOf(a.states, from));
    forall i | 0 <= i < |payload| ensures GoodField(fields[i], payload[i], readable) {
      DefaultFieldReadsNothing(payload[i], from, event, SnapshotText(event, from), shapes, readable);
      assert from == FAULT ==> readable[i] == payload[i].name;
    }
  }

  lemma RebuildRootCloses(a: Flow, root: string, keep: bool, shapes: Shapes, readable: seq<string>)
    requires keep ==> forall p :: p in a.persistent ==> p in readable
    ensures ListsFields(RebuildRoot(a, root, keep, shapes).result.fields, PayloadOf(a.states, root), readable)
  {
    var payload, fields := PayloadOf(a.states, root), RebuildRoot(a, root, keep, shapes).result.fields;
    forall i | 0 <= i < |payload| ensures GoodField(fields[i], payload[i], readable) {
      DefaultsReadNothing(payload[i].ty, shapes, 0, readable);
    }
  }

  lemma PassthroughCloses(a: Flow, target: string)
    ensures ListsFields(Passthrough(a, target).result.fields, PayloadOf(a.states, target),
                        Names(PayloadOf(a.states, target)))
  {
    var payload, fields := PayloadOf(a.states, target), Passthrough(a, target).result.fields;
    forall i | 0 <= i < |payload| ensures GoodField(fields[i], payload[i], Names(payload)) {
      assert Names(payload)[i] == payload[i].name;
    }
  }

  predicate ShadowsAll(a: Flow) {
    forall p :: p in a.persistent ==> p in Names(PayloadOf(a.states, FAULT))
  }

  lemma GeneratedCloses(a: Flow, t: Transition, shapes: Shapes)
    requires IsGenerated(a, t, shapes) && ShadowsAll(a)
    ensures Closed(a.states, t)
  {
    if t.name == "peer_fault" || t.name == "ffi_crash" {
      FaultReturnCloses(a, t.from, t.name, shapes);
    } else if t.name == "reset" || t.name == "recover" {
      RebuildRootCloses(a, t.to[0], t.name == "recover" && a.persistent != [], shapes,
                        Names(PayloadOf(a.states, FAULT)));
    } else {
      PassthroughCloses(a, t.to[0]);
    }
  }

  /** Every generated body lists exactly its target's fields and reads only what its source has. */
  lemma GeneratedBodiesAreClosed(f: Flow, shapes: Shapes, moduleName: string)
    ensures var g := Expanded(f, shapes, moduleName);
      f.transitions <= g.transitions
      && forall k :: |f.transitions| <= k < |g.transitions| ==> Closed(g.states, g.transitions[k])
  {
    var a, g := EnsureFault(f, moduleName), Expanded(f, shapes, moduleName);
    ExpansionGenerates(f, shapes, moduleName);
    EnsureFaultGivesFault(f, moduleName);
    forall k | |f.transitions| <= k < |g.transitions| ensures Closed(g.states, g.transitions[k]) {
      assert g.transitions[k] == Added(a, g)[k - |f.transitions|];
      GeneratedCloses(a, g.transitions[k], shapes);
    }
  }

  lemma ConformingHasAll(states: seq<StateDef>, at: Instance)
    requires Conforms(states, at)
    ensures HasAll(at.payload, Names(PayloadOf(states, at.state)))
  {
    var payload := PayloadOf(states, at.state);
    forall n | n in Names(payload) ensures Lookup(at.payload, n).Some? {
      var i :| 0 <= i < |payload| && Names(payload)[i] == n;
      assert at.payload[i].name == n;
    }
  }

  /** A closed body run on a record of its source state yields a record of its target state. */
  lemma ClosedBodiesRun(states: seq<StateDef>, t: Transition, at: Instance)
    requires Closed(states, t) && Conforms(states, at) && at.state == t.from
    ensures var r := RunBody(t.body.value, at.payload);
      r.Some? && r.value.state == t.to[0] && Conforms(states, r.value)
  {
    ConformingHasAll(states, at);
    var fields, readable := t.body.value.result.fields, Names(PayloadOf(states, t.from));
    var payload := PayloadOf(states, t.to[0]);
    forall i | 0 <= i < |fields| ensures Eval(fields[i].value, at.payload).Some? {
      assert GoodField(fields[i], payload[i], readable);
      ReadsOnlyEvaluates(fields[i].value, readable, at.payload);
    }
    assert forall i :: 0 <= i < |payload| ==> GoodField(fields[i], payload[i], readable);
  }

  // --- one step ---

  lemma UnansweredIsAdded(user: seq<Transition>, all: seq<Transition>, t: Transition) returns (k: nat)
    requires user <= all && t in all && !Answers(user, t.name, t.from)
    ensures |user| <= k < |all| && all[k] == t
  {
    k :| 0 <= k < |all| && all[k] == t;
    assert forall j :: 0 <= j < |user| ==> user[j] == all[j];
  }

  lemma UnansweredIsGenerated(user: seq<Transition>, all: seq<Transition>, t: Transition, a: Flow, shapes: Shapes)
    requires user <= all && t in all && !Answers(user, t.name, t.from)
    requires AllGenerated(a, all[|user|..], shapes)
    ensures IsGenerated(a, t, shapes)
  {
    var k := UnansweredIsAdded(user, all, t);
    assert t == all[|user|..][k - |user|];
  }

  lemma AddedIsGenerated(f: Flow, shapes: Shapes, moduleName: string, t: Transition)
    requires t in Expanded(f, shapes, moduleName).transitions && !Answers(f.transitions, t.name, t.from)
    ensures IsGenerated(EnsureFault(f, moduleName), t, shapes)
  {
    ExpansionGenerates(f, shapes, moduleName);
    UnansweredIsGenerated(f.transitions, Expanded(f, shapes, moduleName).transitions, t, EnsureFault(f, moduleName),
                          shapes);
  }

  lemma ChosenIsGenerated(f: Flow, shapes: Shapes, moduleName: string, event: string, state: string)
    requires Answers(Expanded(f, shapes, moduleName).transitions, event, state) && !Answers(f.transitions, event, state)
    ensures var a, g := EnsureFault(f, moduleName), Expanded(f, shapes, moduleName);
      var t := Chosen(g.transitions, event, state);
      && t.Some? && t.value.name == event && t.value.from == state && IsGenerated(a, t.value, shapes)
      && Closed(g.states, t.value)
  {
    var a, g := EnsureFault(f, moduleName), Expanded(f, shapes, moduleName);
    var t := Chosen(g.transitions, event, state).value;
    AddedIsGenerated(f, shapes, moduleName, t);
    EnsureFaultGivesFault(f, moduleName);
    ExpansionAddsOnlyTransitions(f, shapes, moduleName);
    GeneratedCloses(a, t, shapes);
  }

  /** An event that the user does not answer in this state runs the generated body. */
  lemma GeneratedStep(f: Flow, shapes: Shapes, moduleName: string, at: Instance, event: string)
    requires Conforms(Expanded(f, shapes, moduleName).states, at)
    requires Answers(Expanded(f, shapes, moduleName).transitions, event, at.state)
    requires !Answers(f.transitions, event, at.state)
    ensures var g := Expanded(f, shapes, moduleName);
      var t := Chosen(g.transitions, event, at.state);
      && t.Some? && IsGenerated(EnsureFault(f, moduleName), t.value, shapes)
      && t.value.name == event && t.value.from == at.state
      && Step(g, at, event) == RunBody(t.value.body.value, at.payload)
      && Step(g, at, event).Some? && Step(g, at, event).value.state == t.value.to[0]
      && Conforms(g.states, Step(g, at, event).value)
  {
    ChosenIsGenerated(f, shapes, moduleName, event, at.state);
    var g := Expanded(f, shapes, moduleName);
    ClosedBodiesRun(g.states, Chosen(g.transitions, event, at.state).value, at);
  }

  /** When every field of that name holds the same value, that value is what is read back. */
  lemma {:induction false} LookupUniform(payload: seq<FieldValue>, name: string, v: Value)
    requires exists i :: 0 <= i < |payload| && payload[i].name == name
    requires forall i :: 0 <= i < |payload| && payload[i].name == name ==> payload[i].value == v
    ensures Lookup(payload, name) == Some(v)
  {
    if payload[0].name != name {
      assert forall i :: 1 <= i < |payload| ==> payload[i] == payload[1..][i - 1];
      LookupUniform(payload[1..], name, v);
    }
  }

  predicate Copies(fields: seq<FieldExpr>, name: string) {
    forall i :: 0 <= i < |fields| && fields[i].name == name ==> fields[i].value == SelfField(name)
  }

  lemma CopiedFieldsKeepTheirValue(body: Body, self: seq<FieldValue>, name: string)
    requires RunBody(body, self).Some?
    requires Copies(body.result.fields, name)
    requires exists i :: 0 <= i < |body.result.fields| && body.result.fields[i].name == name
    ensures Lookup(RunBody(body, self).value.payload, name) == Lookup(self, name)
  {
    var fields := body.result.fields;
    var values := EvalFields(fields, self).value;
    var k :| 0 <= k < |fields| && fields[k].name == name;
    assert Eval(fields[k].value, self) == Lookup(self, name);
    forall i | 0 <= i < |values| && values[i].name == name ensures values[i].value == Lookup(self, name).value {
      assert Eval(fields[i].value, self) == Some(values[i].value);
    }
    assert values[k].name == name;
    LookupUniform(values, name, Lookup(self, name).value);
  }

  lemma FaultCopies(a: Flow, from: string, event: string, shapes: Shapes, name: string)
    requires name in Names(PayloadOf(a.states, FAULT))
    requires (name in a.persistent && name in Names(PayloadOf(a.states, from))) || (from == FAULT && IsTraceField(name))
    ensures var fields := FaultReturn(a, from, event, shapes).result.fields;
      Copies(fields, name) && exists i :: 0 <= i < |fields| && fields[i].name == name
  {
    var payload, fields := PayloadOf(a.states, FAULT), FaultReturn(a, from, event, shapes).result.fields;
    var k :| 0 <= k < |payload| && Names(payload)[k] == name;
    assert fields[k].name == name;
  }

  lemma RecoverCopies(a: Flow, root: string, shapes: Shapes, name: string)
    requires name in a.persistent && name in Names(PayloadOf(a.states, root))
    ensures var fields := RebuildRoot(a, root, a.persistent != [], shapes).result.fields;
      Copies(fields, name) && exists i :: 0 <= i < |fields| && fields[i].name == name
  {
    var payload, fields := PayloadOf(a.states, root), RebuildRoot(a, root, a.persistent != [], shapes).result.fields;
    var k :| 0 <= k < |payload| && Names(payload)[k] == name;
    assert fields[k].name == name;
  }

  // --- whole runs ---

  function Peers(n: nat): seq<string> {
    if n == 0 then [] else ["peer_fault"] + Peers(n - 1)
  }

  lemma {:induction false} RunAppend(g: Flow, at: Instance, first: seq<string>, later: seq<string>)
    requires Run(g, at, first).Some?
    ensures Run(g, at, first + later) == Run(g, Run(g, at, first).value, later)
    decreases first
  {
    if first == [] {
      assert first + later == later;
    } else {
      assert (first + later)[1..] == first[1..] + later;
      RunAppend(g, Step(g, at, first[0]).value, first[1..], later);
    }
  }

  /** What a further fault must not disturb: the persistent fields and the record of the first fault. */
  predicate Protected(f: Flow, name: string) {
    name in f.persistent || IsTraceField(name)
  }

  ghost predicate KeptWhileFaulted(f: Flow, before: Instance, after: Instance) {
    forall name :: Protected(f, name) ==> SameField(before, after, name)
  }

  predicate SameField(before: Instance, after: Instance, name: string) {
    Lookup(after.payload, name) == Lookup(before.payload, name)
  }

  lemma KeptTwice(f: Flow, before: Instance, middle: Instance, after: Instance)
    requires KeptWhileFaulted(f, before, middle) && KeptWhileFaulted(f, middle, after)
    ensures KeptWhileFaulted(f, before, after)
  {
    forall name | Protected(f, name) ensures SameField(before, after, name) {
      assert SameField(before, middle, name) && SameField(middle, after, name);
    }
  }

  lemma UndeclaredFieldIsAbsent(states: seq<StateDef>, at: Instance, name: string)
    requires Conforms(states, at) && name !in Names(PayloadOf(states, at.state))
    ensures Lookup(at.payload, name).None?
  {
    var payload := PayloadOf(states, at.state);
    forall i | 0 <= i < |at.payload| ensures at.payload[i].name != name {
      assert Names(payload)[i] == payload[i].name;
    }
  }

  predicate InFault(g: Flow, at: Instance) {
    at.state == FAULT && Conforms(g.states, at)
  }

  /** One more peer fault leaves a faulted record faulted, with its protected fields as they were. */
  ghost predicate Absorbs(f: Flow, g: Flow, at: Instance) {
    var next := Step(g, at, "peer_fault");
    next.Some? && InFault(g, next.value) && KeptWhileFaulted(f, at, next.value)
  }

  lemma PeerFaultInFault(f: Flow, shapes: Shapes, moduleName: string, at: Instance)
    requires InFault(Expanded(f, shapes, moduleName), at)
    requires !Answers(f.transitions, "peer_fault", FAULT)
    ensures Absorbs(f, Expanded(f, shapes, moduleName), at)
  {
    var a, g := EnsureFault(f, moduleName), Expanded(f, shapes, moduleName);
    EnsureFaultGivesFault(f, moduleName);
    ExpansionAddsOnlyTransitions(f, shapes, moduleName);
    ExpansionSettles(f, shapes, moduleName);
    assert Answers(g.transitions, "peer_fault", FAULT);
    GeneratedStep(f, shapes, moduleName, at, "peer_fault");
    var next := Step(g, at, "peer_fault").value;
    forall name | Protected(f, name) ensures SameField(at, next, name) {
      if name in Names(PayloadOf(a.states, FAULT)) {
        FaultCopies(a, FAULT, "peer_fault", shapes, name);
        CopiedFieldsKeepTheirValue(FaultReturn(a, FAULT, "peer_fault", shapes), at.payload, name);
      } else {
        UndeclaredFieldIsAbsent(g.states, at, name);
        UndeclaredFieldIsAbsent(g.states, next, name);
      }
    }
  }

  lemma RunOnePeerFault(g: Flow, at: Instance, n: nat)
    requires n > 0 && Step(g, at, "peer_fault").Some?
    ensures Run(g, at, Peers(n)) == Run(g, Step(g, at, "peer_fault").value, Peers(n - 1))
  {
    assert Peers(n)[0] == "peer_fault" && Peers(n)[1..] == Peers(n - 1);
  }

  lemma NothingRuns(f: Flow, g: Flow, at: Instance)
    ensures Run(g, at, Peers(0)) == Some(at) && KeptWhileFaulted(f, at, at)
  {
  }

  /** Any number of further peer faults leave the record of the first one and the persistent fields alone. */
  lemma {:induction false} PeerFaultsInFault(f: Flow, g: Flow, at: Instance, n: nat)
    requires InFault(g, at) && forall r {:trigger Absorbs(f, g, r)} :: InFault(g, r) ==> Absorbs(f, g, r)
    ensures var last := Run(g, at, Peers(n));
      last.Some? && InFault(g, last.value) && KeptWhileFaulted(f, at, last.value)
    decreases n
  {
    if n == 0 {
      NothingRuns(f, g, at);
    } else {
      assert Absorbs(f, g, at);
      var next := Step(g, at, "peer_fault").value;
      PeerFaultsInFault(f, g, next, n - 1);
      RunOnePeerFault(g, at, n);
      KeptTwice(f, at, next, Run(g, next, Peers(n - 1)).value);
    }
  }

  /** The persistent fields that a record carries under the flow's declarations. */
  predicate Carried(f: Flow, states: seq<StateDef>, state: string, name: string) {
    name in f.persistent && name in Names(PayloadOf(states, state))
  }

  /** The first fault: `peer_fault` anywhere, `ffi_crash` where the flow pins its foreign calls. */
  predicate CanFault(f: Flow, state: string, event: string) {
    && HasState(f.states, state) && state != FAULT
    && (event == "peer_fault"
        || (event == "ffi_crash" && state == PINNED && FirstStateExcept(f.states, {FAULT, PINNED}).Some?))
    && !Answers(f.transitions, event, state)
  }

  lemma FirstFault(f: Flow, shapes: Shapes, moduleName: string, at: Instance, event: string)
    requires Conforms(Expanded(f, shapes, moduleName).states, at) && CanFault(f, at.state, event)
    ensures var next := Step(Expanded(f, shapes, moduleName), at, event);
      && next.Some? && next.value.state == FAULT
      && Conforms(Expanded(f, shapes, moduleName).states, next.value)
      && forall name :: Carried(f, f.states, at.state, name) ==> SameField(at, next.value, name)
  {
    var a, g := EnsureFault(f, moduleName), Expanded(f, shapes, moduleName);
    EnsureFaultGivesFault(f, moduleName);
    ExpansionAddsOnlyTransitions(f, shapes, moduleName);
    FaultIsAnswered(f, shapes, moduleName, at.state, event);
    LookupsAwayFromFault(f, moduleName, at.state);
    GeneratedStep(f, shapes, moduleName, at, event);
    forall name | Carried(f, f.states, at.state, name) ensures SameField(at, Step(g, at, event).value, name) {
      FaultCopies(a, at.state, event, shapes, name);
      CopiedFieldsKeepTheirValue(FaultReturn(a, at.state, event, shapes), at.payload, name);
    }
  }

  lemma FaultIsAnswered(f: Flow, shapes: Shapes, moduleName: string, state: string, event: string)
    requires CanFault(f, state, event)
    ensures Answers(Expanded(f, shapes, moduleName).transitions, event, state)
  {
    ExpansionSettles(f, shapes, moduleName);
    ExpansionAddsOnlyTransitions(f, shapes, moduleName);
    EnsureFaultGivesFault(f, moduleName);
    LookupsAwayFromFault(f, moduleName, state);
    if event == "ffi_crash" {
      ActiveStays(f, moduleName, {FAULT, PINNED});
    }
  }

  lemma ActiveStays(f: Flow, moduleName: string, skip: set<string>)
    requires FAULT in skip
    ensures FirstStateExcept(EnsureFault(f, moduleName).states, skip) == FirstStateExcept(f.states, skip)
  {
    var before, after := WithFault(f, moduleName), EnsureFault(f, moduleName).states;
    EnsureFaultGivesFault(f, moduleName);
    assert forall i :: 0 <= i < |before| ==> KeptState(before, after, i);
    assert forall i :: 0 <= i < |f.states| ==> before[i] == f.states[i];
    SameFirst(f.states, after, skip);
  }

  lemma SameFirst(short: seq<StateDef>, long: seq<StateDef>, skip: set<string>)
    requires |short| <= |long|
    requires forall i :: 0 <= i < |short| ==> short[i].name == long[i].name
    requires forall i :: |short| <= i < |long| ==> long[i].name in skip
    ensures FirstStateExcept(long, skip) == FirstStateExcept(short, skip)
  {
    var i := IndexExcept(short, skip, 0);
    assert i.Some? ==> long[i.value].name !in skip;
  }

  lemma Recovery(f: Flow, shapes: Shapes, moduleName: string, at: Instance)
    requires Conforms(Expanded(f, shapes, moduleName).states, at) && at.state == FAULT
    requires !Answers(f.transitions, "recover", FAULT) && RootStateName(f.states).Some?
    ensures var next := Step(Expanded(f, shapes, moduleName), at, "recover");
      var root := RootStateName(f.states).value;
      && next.Some? && next.value.state == root
      && Conforms(Expanded(f, shapes, moduleName).states, next.value)
      && forall name :: Carried(f, f.states, root, name) ==> SameField(at, next.value, name)
  {
    var a, g := EnsureFault(f, moduleName), Expanded(f, shapes, moduleName);
    var root := RootStateName(f.states).value;
    EnsureFaultGivesFault(f, moduleName);
    ExpansionSettles(f, shapes, moduleName);
    ExpansionAddsOnlyTransitions(f, shapes, moduleName);
    ActiveStays(f, moduleName, {FAULT});
    LookupsAwayFromFault(f, moduleName, root);
    GeneratedStep(f, shapes, moduleName, at, "recover");
    forall name | Carried(f, f.states, root, name) ensures SameField(at, Step(g, at, "recover").value, name) {
      RecoverCopies(a, root, shapes, name);
      CopiedFieldsKeepTheirValue(RebuildRoot(a, root, a.persistent != [], shapes), at.payload, name);
    }
  }

  /** A fault in any state, then any number of peer faults: the run never gets stuck and keeps what is protected. */
  lemma FaultedRun(f: Flow, shapes: Shapes, moduleName: string, at: Instance, event: string, n: nat)
    requires Conforms(Expanded(f, shapes, moduleName).states, at) && CanFault(f, at.state, event)
    requires !Answers(f.transitions, "peer_fault", FAULT)
    ensures var g := Expanded(f, shapes, moduleName);
      var fault, faulted := Step(g, at, event), Run(g, at, [event] + Peers(n));
      && fault.Some? && faulted.Some?
      && faulted.value.state == FAULT && Conforms(g.states, faulted.value)
      && KeptWhileFaulted(f, fault.value, faulted.value)
      && (forall name :: Carried(f, f.states, at.state, name) ==> SameField(at, faulted.value, name))
  {
    var g := Expanded(f, shapes, moduleName);
    FirstFault(f, shapes, moduleName, at, event);
    var fault := Step(g, at, event).value;
    forall r | InFault(g, r) ensures Absorbs(f, g, r) {
      PeerFaultInFault(f, shapes, moduleName, r);
    }
    PeerFaultsInFault(f, g, fault, n);
    var faulted := Run(g, fault, Peers(n)).value;
    assert ([event] + Peers(n))[1..] == Peers(n);
    assert Run(g, at, [event] + Peers(n)) == Some(faulted);
    forall name | Carried(f, f.states, at.state, name) ensures SameField(at, faulted, name) {
      assert SameField(at, fault, name);
      assert Protected(f, name);
      assert SameField(fault, faulted, name);
    }
  }

  lemma OneMoreEvent(g: Flow, at: Instance, events: seq<string>, event: string)
    requires Run(g, at, events).Some?
    ensures Run(g, at, events + [event]) == Step(g, Run(g, at, events).value, event)
  {
    RunAppend(g, at, events, [event]);
    var next := Step(g, Run(g, at, events).value, event);
    assert next.Some? ==> Run(g, next.value, []) == next;
  }

  /**
    * A fault in any state, any number of peer faults while in Fault, then a recovery: the run never gets stuck, the
    * record of the first fault is kept throughout, and the root state is rebuilt with the original value of every
    * persistent field it shares with the state that faulted.
    */
  lemma PersistentFieldsSurvive(f: Flow, shapes: Shapes, moduleName: string, at: Instance, event: string, n: nat)
    requires Conforms(Expanded(f, shapes, moduleName).states, at) && CanFault(f, at.state, event)
    requires !Answers(f.transitions, "peer_fault", FAULT) && !Answers(f.transitions, "recover", FAULT)
    ensures RootStateName(f.states).Some?
    ensures var g, root := Expanded(f, shapes, moduleName), RootStateName(f.states).value;
      var fault, faulted, back :=
        Step(g, at, event), Run(g, at, [event] + Peers(n)), Run(g, at, [event] + Peers(n) + ["recover"]);
      && fault.Some? && faulted.Some? && back.Some?
      && faulted.value.state == FAULT && Conforms(g.states, faulted.value)
      && KeptWhileFaulted(f, fault.value, faulted.value)
      && back.value.state == root && Conforms(g.states, back.value)
      && (forall name :: Carried(f, f.states, at.state, name) ==> SameField(at, faulted.value, name))
      && (forall name :: Carried(f, f.states, at.state, name) && Carried(f, f.states, root, name)
            ==> SameField(at, back.value, name))
  {
    var g := Expanded(f, shapes, moduleName);
    RootExists(f, at.state);
    FaultedRun(f, shapes, moduleName, at, event, n);
    var faulted := Run(g, at, [event] + Peers(n)).value;
    Recovery(f, shapes, moduleName, faulted);
    OneMoreEvent(g, at, [event] + Peers(n), "recover");
    var back := Step(g, faulted, "recover").value;
    forall name | Carried(f, f.states, at.state, name) && Carried(f, f.states, RootStateName(f.states).value, name)
      ensures SameField(at, back, name)
    {
      assert SameField(at, faulted, name) && SameField(faulted, back, name);
    }
  }

  lemma RootExists(f: Flow, state: string)
    requires HasState(f.states, state) && state != FAULT
    ensures RootStateName(f.states).Some?
  {
    var i := StateIndex(f.states, state, 0).value;
    assert f.states[i].name !in {FAULT};
  }

  // --- what the first fault records ---

  lemma {:induction false} LookupAt(payload: seq<FieldValue>, name: string, k: nat)
    requires k < |payload| && payload[k].name == name
    requires forall j :: 0 <= j < k ==> payload[j].name != name
    ensures Lookup(payload, name) == Some(payload[k].value)
  {
    if k > 0 {
      assert payload[1..][k - 1] == payload[k];
      assert forall j :: 0 <= j < k - 1 ==> payload[1..][j] == payload[j + 1];
      LookupAt(payload[1..], name, k - 1);
    }
  }

  /** Each field of Fault holds the value that the generated body gives it. */
  lemma FieldRecorded(f: Flow, shapes: Shapes, moduleName: string, at: Instance, event: string, k: nat)
    requires Conforms(Expanded(f, shapes, moduleName).states, at) && CanFault(f, at.state, event)
    requires var payload := PayloadOf(EnsureFault(f, moduleName).states, FAULT);
      k < |payload| && forall j :: 0 <= j < k ==> payload[j].name != payload[k].name
    ensures var fault := Step(Expanded(f, shapes, moduleName), at, event);
      var field := PayloadOf(EnsureFault(f, moduleName).states, FAULT)[k];
      && fault.Some?
      && Lookup(fault.value.payload, field.name)
         == Eval(FaultField(EnsureFault(f, moduleName), field, at.state, event, shapes), at.payload)
  {
    FaultRuns(f, shapes, moduleName, at, event);
    FaultReturnField(EnsureFault(f, moduleName), at.state, event, shapes, at.payload, k);
  }

  lemma FaultRuns(f: Flow, shapes: Shapes, moduleName: string, at: Instance, event: string)
    requires Conforms(Expanded(f, shapes, moduleName).states, at) && CanFault(f, at.state, event)
    ensures Step(Expanded(f, shapes, moduleName), at, event).Some?
    ensures Step(Expanded(f, shapes, moduleName), at, event)
         == RunBody(FaultReturn(EnsureFault(f, moduleName), at.state, event, shapes), at.payload)
  {
    FaultIsAnswered(f, shapes, moduleName, at.state, event);
    GeneratedStep(f, shapes, moduleName, at, event);
  }

  lemma FaultReturnField(a: Flow, from: string, event: string, shapes: Shapes, self: seq<FieldValue>, k: nat)
    requires RunBody(FaultReturn(a, from, event, shapes), self).Some? && k < |PayloadOf(a.states, FAULT)|
    requires var payload := PayloadOf(a.states, FAULT);
             forall j :: 0 <= j < k ==> payload[j].name != payload[k].name
    ensures var field := PayloadOf(a.states, FAULT)[k];
            Lookup(RunBody(FaultReturn(a, from, event, shapes), self).value.payload, field.name)
            == Eval(FaultField(a, field, from, event, shapes), self)
  {
    BodyField(FaultReturn(a, from, event, shapes), self, k);
  }

  lemma BodyField(body: Body, self: seq<FieldValue>, k: nat)
    requires RunBody(body, self).Some? && k < |body.result.fields|
    requires forall j :: 0 <= j < k ==> body.result.fields[j].name != body.result.fields[k].name
    ensures var field := body.result.fields[k];
      Lookup(RunBody(body, self).value.payload, field.name) == Eval(field.value, self)
  {
    var fields := body.result.fields;
    var values := EvalFields(fields, self).value;
    LookupAt(values, fields[k].name, k);
  }

  predicate StartsWellKnown(payload: seq<FieldDef>) {
    && |payload| >= 4
    && payload[0].name == "last_state" && payload[0].ty.Name? && EndsWith(payload[0].ty.name, "::StateId")
    && payload[1].name == "unexpected_event" && payload[1].ty.Name? && EndsWith(payload[1].ty.name, "::EventId")
    && payload[2].name == "snapshot" && IsNamed(payload[2].ty, "string")
    && payload[3].name == "trace" && IsNamed(payload[3].ty, "SystemTrace")
  }

  /** The injected Fault starts with its four well-known fields, none of which is a shadow, and the error of the
      declared type. */
  lemma InjectedFaultStarts(f: Flow, moduleName: string)
    requires !HasState(f.states, FAULT)
    ensures var payload := PayloadOf(EnsureFault(f, moduleName).states, FAULT);
            && StartsWellKnown(payload)
            && (f.faultType.Some? ==> |payload| > 4 && payload[4] == FieldDef("error", f.faultType.value))
  {
    EnsureFaultGivesFault(f, moduleName);
    FaultPresent(f, moduleName);
    var base := FaultFields(f, moduleName);
    assert base <= PayloadOf(EnsureFault(f, moduleName).states, FAULT);
    var qualified := if moduleName == "" then f.name else moduleName + "::" + f.name;
    assert ("flow::" + qualified + "::StateId")[|"flow::" + qualified|..] == "::StateId";
    assert ("flow::" + qualified + "::EventId")[|"flow::" + qualified|..] == "::EventId";
  }

  lemma WellKnownValue(a: Flow, field: FieldDef, from: string, event: string, shapes: Shapes)
    requires field.name !in a.persistent && from != FAULT
    ensures FaultField(a, field, from, event, shapes)
      == DefaultField(field, from, event, SnapshotText(event, from), shapes)
  {
  }

  predicate NamesDiffer(payload: seq<FieldDef>, k: nat)
    requires k < |payload|
  {
    forall j :: 0 <= j < k ==> payload[j].name != payload[k].name
  }

  lemma WellKnownRecorded(f: Flow, shapes: Shapes, moduleName: string, at: Instance, event: string, k: nat)
    requires Conforms(Expanded(f, shapes, moduleName).states, at) && CanFault(f, at.state, event)
    requires k < |PayloadOf(EnsureFault(f, moduleName).states, FAULT)|
    requires NamesDiffer(PayloadOf(EnsureFault(f, moduleName).states, FAULT), k)
    requires PayloadOf(EnsureFault(f, moduleName).states, FAULT)[k].name !in f.persistent
    ensures var fault := Step(Expanded(f, shapes, moduleName), at, event);
      var field := PayloadOf(EnsureFault(f, moduleName).states, FAULT)[k];
      && fault.Some?
      && Lookup(fault.value.payload, field.name)
         == Eval(DefaultField(field, at.state, event, SnapshotText(event, at.state), shapes), at.payload)
  {
    var a := EnsureFault(f, moduleName);
    EnsureFaultGivesFault(f, moduleName);
    FieldRecorded(f, shapes, moduleName, at, event, k);
    WellKnownValue(a, PayloadOf(a.states, FAULT)[k], at.state, event, shapes);
  }

  const WELL_KNOWN := ["last_state", "unexpected_event", "snapshot", "trace"]

  /** The record of a fault: the state and the event in words, a summary, and an empty dump. */
  function TraceRecord(from: string, event: string, summary: string): Value {
    Struct("SystemTrace", [
      FieldValue("last_state_name", Atom(LitString(from))), FieldValue("unexpected_event", Atom(LitString(event))),
      FieldValue("snapshot", Atom(LitString(summary))),
      FieldValue("memory_dump", Struct("MemoryDump", [
        FieldValue("fields", Atom(LitString(""))), FieldValue("count", Atom(LitInt(0)))])),
      FieldValue("panic_payload", Struct("PanicPayload", [
        FieldValue("error_type", Atom(LitString(event))), FieldValue("file", Atom(LitString(""))),
        FieldValue("line", Atom(LitInt(0))), FieldValue("stack", Atom(LitString(summary)))]))])
  }

  lemma TraceEvaluates(from: string, event: string, summary: string, self: seq<FieldValue>)
    ensures Eval(SystemTrace(from, event, summary), self) == Some(TraceRecord(from, event, summary))
  {
    DumpEvaluates(self);
    PanicEvaluates(event, summary, self);
    var fields := SystemTrace(from, event, summary).fields;
    var values := EvalFields(fields, self);
    assert Eval(fields[0].value, self) == Some(Atom(LitString(from)));
    assert Eval(fields[1].value, self) == Some(Atom(LitString(event)));
    assert Eval(fields[2].value, self) == Some(Atom(LitString(summary)));
    assert values.Some? && values.value == TraceRecord(from, event, summary).fields;
  }

  lemma DumpEvaluates(self: seq<FieldValue>)
    ensures Eval(MemoryDump(), self) == Some(TraceRecord("", "", "").fields[3].value)
  {
    var fields := MemoryDump().fields;
    assert Eval(fields[0].value, self) == Some(Atom(LitString("")));
    assert Eval(fields[1].value, self) == Some(Atom(LitInt(0)));
    assert EvalFields(fields, self).value == TraceRecord("", "", "").fields[3].value.fields;
  }

  lemma PanicEvaluates(event: string, summary: string, self: seq<FieldValue>)
    ensures Eval(PanicPayload(event, summary), self) == Some(TraceRecord("", event, summary).fields[4].value)
  {
    var fields := PanicPayload(event, summary).fields;
    assert Eval(fields[0].value, self) == Some(Atom(LitString(event)));
    assert Eval(fields[1].value, self) == Some(Atom(LitString("")));
    assert Eval(fields[2].value, self) == Some(Atom(LitInt(0)));
    assert Eval(fields[3].value, self) == Some(Atom(LitString(summary)));
    assert EvalFields(fields, self).value == TraceRecord("", event, summary).fields[4].value.fields;
  }

  /** What the first fault is to be remembered as. */
  function Remembered(k: nat, from: string, event: string): Value
    requires k < 4
  {
    var summary := "undefined transition " + event + "(" + from + ")";
    if k == 0 then Made(from, [])
    else if k == 1 then Made(event, [])
    else if k == 2 then Atom(LitString(summary))
    else TraceRecord(from, event, summary)
  }

  function RememberedExpr(k: nat, from: string, event: string): Expr
    requires k < 4
  {
    if k == 0 then Call(from, [])
    else if k == 1 then Call(event, [])
    else if k == 2 then StringLit(SnapshotText(event, from))
    else SystemTrace(from, event, SnapshotText(event, from))
  }

  lemma RememberedEvaluates(k: nat, from: string, event: string, self: seq<FieldValue>)
    requires k < 4
    ensures Eval(RememberedExpr(k, from, event), self) == Some(Remembered(k, from, event))
  {
    TraceEvaluates(from, event, SnapshotText(event, from), self);
  }

  lemma DefaultsOfWellKnown(payload: seq<FieldDef>, k: nat, from: string, event: string, shapes: Shapes)
    requires StartsWellKnown(payload) && k < 4
    requires event == "peer_fault" || event == "ffi_crash"
    ensures DefaultField(payload[k], from, event, SnapshotText(event, from), shapes) == RememberedExpr(k, from, event)
    ensures payload[k].name == WELL_KNOWN[k] && NamesDiffer(payload, k) && IsTraceField(payload[k].name)
  {
    assert PANIC[1] == 'a' && event[1] != 'a';
  }

  /** A panic is recorded as its own variant, with the text behind its prefix. */
  lemma PanicIsRecorded(field: FieldDef, from: string, code: string, summary: string, shapes: Shapes,
                        self: seq<FieldValue>)
    requires field.name == "unexpected_event" && field.ty.Name? && EndsWith(field.ty.name, "::EventId")
    ensures Eval(DefaultField(field, from, "panic:" + code, summary, shapes), self)
         == Some(Made("Panic", [Atom(LitString(code))]))
  {
    assert PANIC <= "panic:" + code && ("panic:" + code)[|PANIC|..] == code;
    assert Eval(StringLit(code), self) == Some(Atom(LitString(code)));
    var args := [StringLit(code)];
    assert args[1..] == [] && EvalAll([], self) == Some([]);
    assert [Atom(LitString(code))] + [] == [Atom(LitString(code))];
    assert DefaultField(field, from, "panic:" + code, summary, shapes) == Call("Panic", args);
  }

  /** The Fault that expansion injects remembers the state that failed, the event that hit it and a summary of both. */
  lemma FirstFaultIsRecorded(f: Flow, shapes: Shapes, moduleName: string, at: Instance, event: string, k: nat)
    requires Conforms(Expanded(f, shapes, moduleName).states, at) && CanFault(f, at.state, event)
    requires !HasState(f.states, FAULT) && k < 4
    requires forall name :: name in f.persistent ==> !IsTraceField(name)
    ensures var fault := Step(Expanded(f, shapes, moduleName), at, event);
      && fault.Some?
      && Lookup(fault.value.payload, WELL_KNOWN[k]) == Some(Remembered(k, at.state, event))
  {
    InjectedFaultStarts(f, moduleName);
    DefaultsOfWellKnown(PayloadOf(EnsureFault(f, moduleName).states, FAULT), k, at.state, event, shapes);
    RememberedEvaluates(k, at.state, event, at.payload);
    WellKnownRecorded(f, shapes, moduleName, at, event, k);
  }
}
