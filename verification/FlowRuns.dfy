/** Running the generated bodies of an expanded flow (src/flow_matrix.rs). */
module FlowRuns {
  import opened Wrappers
  import Ast
  import opened FlowMatrix
  import opened FlowExpansion

  // --- values ---

  datatype Value =
    | Atom(lit: Lit)
    | Constant(name: string)
    | Made(callee: string, args: seq<Value>)
    | Struct(ty: string, fields: seq<FieldValue>)
    | Items(values: seq<Value>)
    | NoItems
    | NoMembers

  datatype FieldValue = FieldValue(name: string, value: Value)

  /** A flow record: the state it is in and its payload, field by field. */
  datatype Instance = Instance(state: string, payload: seq<FieldValue>)

  function Lookup(payload: seq<FieldValue>, name: string): (r: Option<Value>)
    ensures r.Some? <==> exists i :: 0 <= i < |payload| && payload[i].name == name
  {
    if payload == [] then None
    else if payload[0].name == name then Some(payload[0].value)
    else
      var r := Lookup(payload[1..], name);
      assert r.Some? ==> exists i :: 0 <= i < |payload[1..]| && payload[1..][i].name == name;
      assert forall i :: 1 <= i < |payload| ==> payload[i] == payload[1..][i - 1];
      r
  }

  /** The value of an expression; None when it reads a field that `self` does not have. */
  function Eval(e: Expr, self: seq<FieldValue>): Option<Value> {
    match e
    case Literal(lit) => Some(Atom(lit))
    case Ident(name) => if name == "self" then None else Some(Constant(name))
    case Field(target, field) => if target == Ident("self") then Lookup(self, field) else None
    case Record(ty, fields) =>
      (match EvalFields(fields, self) case None => None case Some(values) => Some(Struct(ty, values)))
    case Call(callee, args) =>
      (match EvalAll(args, self) case None => None case Some(values) => Some(Made(callee, values)))
    case TupleExpr(items) =>
      (match EvalAll(items, self) case None => None case Some(values) => Some(Items(values)))
    case EmptyList => Some(NoItems)
    case EmptySet => Some(NoMembers)
  }

  function EvalAll(es: seq<Expr>, self: seq<FieldValue>): Option<seq<Value>> {
    if es == [] then Some([])
    else match (Eval(es[0], self), EvalAll(es[1..], self))
      case (Some(v), Some(vs)) => Some([v] + vs)
      case _ => None
  }

  function EvalFields(fields: seq<FieldExpr>, self: seq<FieldValue>): (r: Option<seq<FieldValue>>)
    ensures r.Some? ==> |r.value| == |fields|
    ensures r.Some? ==> forall i :: 0 <= i < |fields| ==>
              r.value[i].name == fields[i].name && Eval(fields[i].value, self) == Some(r.value[i].value)
    ensures (forall i :: 0 <= i < |fields| ==> Eval(fields[i].value, self).Some?) ==> r.Some?
  {
    if fields == [] then Some([])
    else match (Eval(fields[0].value, self), EvalFields(fields[1..], self))
      case (Some(v), Some(vs)) => Some([FieldValue(fields[0].name, v)] + vs)
      case _ => None
  }

  /** A generated body builds the record it returns; a body the user wrote is not run here. */
  function RunBody(body: Body, self: seq<FieldValue>): Option<Instance> {
    if !body.Returns? || !body.result.Record? then None
    else match EvalFields(body.result.fields, self)
      case None => None
      case Some(values) => Some(Instance(body.result.ty, values))
  }

  /** The first transition for a state and event. */
  function Chosen(transitions: seq<Transition>, name: string, from: string): (r: Option<Transition>)
    ensures r.Some? ==> r.value in transitions && r.value.name == name && r.value.from == from
    ensures r.Some? <==> HasTransition(transitions, name, from)
  {
    if transitions == [] then None
    else if transitions[0].name == name && transitions[0].from == from then Some(transitions[0])
    else
      assert HasTransition(transitions, name, from) <==> HasTransition(transitions[1..], name, from) by {
        assert transitions == [transitions[0]] + transitions[1..];
      }
      Chosen(transitions[1..], name, from)
  }

  function Step(f: Flow, at: Instance, event: string): Option<Instance> {
    match Chosen(f.transitions, event, at.state)
    case None => None
    case Some(t) => if t.body.None? then None else RunBody(t.body.value, at.payload)
  }

  function Run(f: Flow, at: Instance, events: seq<string>): Option<Instance>
    decreases events
  {
    if events == [] then Some(at)
    else match Step(f, at, events[0])
      case None => None
      case Some(next) => Run(f, next, events[1..])
  }

  /** The record has exactly the fields its state declares, in order. */
  predicate Conforms(states: seq<StateDef>, at: Instance) {
    var payload := PayloadOf(states, at.state);
    |at.payload| == |payload| && forall i :: 0 <= i < |payload| ==> at.payload[i].name == payload[i].name
  }

  // --- what the generated transitions are ---

  /** A transition that expansion wrote: its body is the one its event calls for. */
  predicate IsGenerated(a: Flow, t: Transition, shapes: Shapes) {
    && |t.to| == 1 && t.params == [] && t.fails.None?
    && (t.isFallback <==> t.name !in ["enter_ffi", "exit_ffi"])
    && (t.isFfiPinned <==> t.name in ["enter_ffi", "exit_ffi", "ffi_crash"])
    && HasState(a.states, t.from)
    && HasState(a.states, t.to[0])
    && if t.name == "peer_fault" || t.name == "ffi_crash" then
         t.to[0] == FAULT && t.body == Some(FaultReturn(a, t.from, t.name, shapes))
       else if t.name == "reset" || t.name == "recover" then
         && t.from == FAULT
         && RootStateName(a.states) == Some(t.to[0])
         && t.body == Some(RebuildRoot(a, t.to[0], t.name == "recover" && a.persistent != [], shapes))
       else
         && (t.name == "enter_ffi" || t.name == "exit_ffi")
         && (if t.name == "enter_ffi" then t.to[0] else t.from) == PINNED
         && FirstStateExcept(a.states, {FAULT, PINNED}) == Some(if t.name == "enter_ffi" then t.from else t.to[0])
         && Names(PayloadOf(a.states, t.from)) == Names(PayloadOf(a.states, t.to[0]))
         && t.body == Some(Passthrough(a, t.to[0]))
  }

  predicate AllGenerated(a: Flow, transitions: seq<Transition>, shapes: Shapes) {
    forall i :: 0 <= i < |transitions| ==> IsGenerated(a, transitions[i], shapes)
  }

  lemma AddMissingGenerates(a: Flow, f: Flow, t: Transition, shapes: Shapes)
    requires Extends(a, f) && AllGenerated(a, Added(a, f), shapes) && IsGenerated(a, t, shapes)
    ensures Extends(a, AddMissing(f, t)) && AllGenerated(a, Added(a, AddMissing(f, t)), shapes)
  {
    assert Added(a, AddMissing(f, t)) == Added(a, f) || Added(a, AddMissing(f, t)) == Added(a, f) + [t];
  }

  lemma SystemVerbsGenerate(a: Flow, shapes: Shapes)
    requires HasState(a.states, FAULT)
    ensures Extends(a, InjectSystemVerbs(a, shapes))
    ensures AllGenerated(a, Added(a, InjectSystemVerbs(a, shapes)), shapes)
  {
    var root := RootStateName(a.states);
    if root.Some? {
      var reset := Generated("reset", FAULT, root.value, RebuildRoot(a, root.value, false, shapes), true, false);
      var recover :=
        Generated("recover", FAULT, root.value, RebuildRoot(a, root.value, a.persistent != [], shapes), true, false);
      AddMissingGenerates(a, a, reset, shapes);
      AddMissingGenerates(a, AddMissing(a, reset), recover, shapes);
    }
  }

  lemma {:induction false} PeerFaultsGenerate(a: Flow, f: Flow, shapes: Shapes, n: nat)
    requires Extends(a, f) && HasState(a.states, FAULT) && n <= |f.states|
    ensures AllGenerated(a, PeerFaults(f, shapes, n), shapes)
  {
    if n > 0 {
      PeerFaultsGenerate(a, f, shapes, n - 1);
      var state := f.states[n - 1].name;
      BodiesIgnoreTransitions(a, f, state, "peer_fault", shapes);
      assert HasState(a.states, state);
      assert IsGenerated(a, PeerFault(f, state, shapes), shapes);
    }
  }

  lemma GeneratedAppend(a: Flow, xs: seq<Transition>, ys: seq<Transition>, shapes: Shapes)
    requires AllGenerated(a, xs, shapes) && AllGenerated(a, ys, shapes)
    ensures AllGenerated(a, xs + ys, shapes)
  {
  }

  lemma FaultPeerIsGenerated(a: Flow, f: Flow, shapes: Shapes)
    requires Extends(a, f) && HasState(a.states, FAULT)
    ensures AllGenerated(a, [PeerFault(f, FAULT, shapes)], shapes)
  {
    BodiesIgnoreTransitions(a, f, FAULT, "peer_fault", shapes);
  }

  lemma AddedByPeers(a: Flow, f: Flow, shapes: Shapes)
    requires Extends(a, f)
    ensures Extends(a, InjectPeerFaults(f, shapes))
    ensures var all, peers := Added(a, InjectPeerFaults(f, shapes)), PeerFaults(f, shapes, |f.states|);
            || all == Added(a, f) + peers
            || all == Added(a, f) + peers + [PeerFault(f, FAULT, shapes)]
  {
  }

  lemma PeerFaultPassGenerates(a: Flow, f: Flow, shapes: Shapes)
    requires Extends(a, f) && AllGenerated(a, Added(a, f), shapes) && HasState(a.states, FAULT)
    ensures Extends(a, InjectPeerFaults(f, shapes))
    ensures AllGenerated(a, Added(a, InjectPeerFaults(f, shapes)), shapes)
  {
    var peers := PeerFaults(f, shapes, |f.states|);
    FaultPeerIsGenerated(a, f, shapes);
    PeerFaultsGenerate(a, f, shapes, |f.states|);
    GeneratedAppend(a, Added(a, f), peers, shapes);
    GeneratedAppend(a, Added(a, f) + peers, [PeerFault(f, FAULT, shapes)], shapes);
    AddedByPeers(a, f, shapes);
  }

  lemma FfiPinnedGenerates(a: Flow, f: Flow, shapes: Shapes)
    requires Extends(a, f) && AllGenerated(a, Added(a, f), shapes) && HasState(a.states, FAULT)
    ensures Extends(a, InjectFfiPinned(f, shapes))
    ensures AllGenerated(a, Added(a, InjectFfiPinned(f, shapes)), shapes)
  {
    var active := FirstStateExcept(f.states, {FAULT, PINNED});
    if HasState(f.states, PINNED) && active.Some? {
      var enter := Generated("enter_ffi", active.value, PINNED, Passthrough(f, PINNED), false, true);
      var exit := Generated("exit_ffi", PINNED, active.value, Passthrough(f, active.value), false, true);
      var crash := Generated("ffi_crash", PINNED, FAULT, FaultReturn(f, PINNED, "ffi_crash", shapes), true, true);
      BodiesIgnoreTransitions(a, f, PINNED, "ffi_crash", shapes);
      BodiesIgnoreTransitions(a, f, active.value, "", shapes);
      assert IsGenerated(a, crash, shapes);
      if Names(PayloadOf(f.states, active.value)) == Names(PayloadOf(f.states, PINNED)) {
        AddMissingGenerates(a, f, enter, shapes);
        AddMissingGenerates(a, AddMissing(f, enter), exit, shapes);
        AddMissingGenerates(a, AddMissing(AddMissing(f, enter), exit), crash, shapes);
      } else {
        AddMissingGenerates(a, f, crash, shapes);
      }
    }
  }

  /** Every transition that the user did not write is one of the six generated kinds. */
  lemma ExpansionGenerates(f: Flow, shapes: Shapes, moduleName: string)
    ensures var a, g := EnsureFault(f, moduleName), Expanded(f, shapes, moduleName);
      Extends(a, g) && a.transitions == f.transitions && AllGenerated(a, Added(a, g), shapes)
  {
    EnsureFaultGivesFault(f, moduleName);
    var a := EnsureFault(f, moduleName);
    var b := InjectSystemVerbs(a, shapes);
    SystemVerbsGenerate(a, shapes);
    PeerFaultPassGenerates(a, b, shapes);
    FfiPinnedGenerates(a, InjectPeerFaults(b, shapes), shapes);
  }

  // --- generated bodies never get stuck ---

  /** The expression reads no field of `self` but these. */
  predicate ReadsOnly(e: Expr, names: seq<string>) {
    match e
    case Literal(_) => true
    case Ident(name) => name != "self"
    case Field(target, field) => target == Ident("self") && field in names
    case Record(_, fields) => forall i :: 0 <= i < |fields| ==> ReadsOnly(fields[i].value, names)
    case Call(_, args) => forall i :: 0 <= i < |args| ==> ReadsOnly(args[i], names)
    case TupleExpr(items) => forall i :: 0 <= i < |items| ==> ReadsOnly(items[i], names)
    case EmptyList => true
    case EmptySet => true
  }

  predicate HasAll(self: seq<FieldValue>, names: seq<string>) {
    forall n :: n in names ==> Lookup(self, n).Some?
  }

  lemma {:induction false} ReadsOnlyEvaluates(e: Expr, names: seq<string>, self: seq<FieldValue>)
    requires ReadsOnly(e, names) && HasAll(self, names)
    ensures Eval(e, self).Some?
    decreases e, 0
  {
    match e
    case Record(_, fields) =>
      forall i | 0 <= i < |fields| ensures Eval(fields[i].value, self).Some? {
        ReadsOnlyEvaluates(fields[i].value, names, self);
      }
    case Call(_, args) => ReadsOnlyEvaluateAll(args, names, self);
    case TupleExpr(items) => ReadsOnlyEvaluateAll(items, names, self);
    case _ =>
  }

  lemma {:induction false} ReadsOnlyEvaluateAll(es: seq<Expr>, names: seq<string>, self: seq<FieldValue>)
    requires forall i :: 0 <= i < |es| ==> ReadsOnly(es[i], names)
    requires HasAll(self, names)
    ensures EvalAll(es, self).Some?
    decreases es
  {
    if es != [] {
      ReadsOnlyEvaluates(es[0], names, self);
      ReadsOnlyEvaluateAll(es[1..], names, self);
    }
  }

  lemma TraceReadsNothing(from: string, event: string, snapshot: string, names: seq<string>)
    ensures ReadsOnly(MemoryDump(), names)
    ensures ReadsOnly(PanicPayload(event, snapshot), names)
    ensures ReadsOnly(SystemTrace(from, event, snapshot), names)
  {
  }

  lemma ScalarsReadNothing(n: string, names: seq<string>)
    ensures ScalarDefault(n).Some? ==> ReadsOnly(ScalarDefault(n).value, names)
  {
    TraceReadsNothing("", "", "", names);
  }

  /** A default value reads nothing of `self`, however deep its type nests. */
  lemma {:induction false} DefaultsReadNothing(ty: Ast.Type, shapes: Shapes, depth: nat, names: seq<string>)
    ensures ReadsOnly(DefaultAt(ty, shapes, depth), names)
    decreases if depth < MAX_DEFAULT_NESTING then MAX_DEFAULT_NESTING - depth else 0, ty
  {
    match ty
    case Name(n, args) =>
      ScalarsReadNothing(n, names);
      if ScalarDefault(n).Some? {
      } else if n in shapes {
        if depth < MAX_DEFAULT_NESTING {
          forall i | 0 <= i < |shapes[n]| ensures ReadsOnly(DefaultAt(shapes[n][i].ty, shapes, depth + 1), names) {
            DefaultsReadNothing(shapes[n][i].ty, shapes, depth + 1, names);
          }
        }
      } else if |args| > 1 {
        DefaultsReadNothing(args[1], shapes, depth + 1, names);
      }
    case Tuple(elems) =>
      forall i | 0 <= i < |elems| ensures ReadsOnly(DefaultAt(elems[i], shapes, depth + 1), names) {
        DefaultsReadNothing(elems[i], shapes, depth + 1, names);
      }
    case Opaque(_) =>
  }
}
