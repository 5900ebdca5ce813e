/** Expansion of a flow with its Fault state and system verbs (src/flow_matrix.rs). */
module FlowMatrix {
  import opened Wrappers
  import opened Ast

  // --- syntax ---

  datatype Lit = LitString(s: string) | LitInt(i: int) | LitFloat(f: real) | LitBool(b: bool) | LitUnit

  datatype FieldExpr = FieldExpr(name: string, value: Expr)

  datatype Expr =
    | Literal(lit: Lit)
    | Ident(name: string)
    | Field(target: Expr, field: string)
    | Record(ty: string, fields: seq<FieldExpr>)
    | Call(callee: string, args: seq<Expr>)
    | TupleExpr(items: seq<Expr>)
    | EmptyList
    | EmptySet

  datatype FieldDef = FieldDef(name: string, ty: Type)

  datatype StateDef = StateDef(name: string, payload: Option<seq<FieldDef>>)

  // A body written by the user is not looked into; a generated body returns one record.
  datatype Body = Returns(result: Expr) | Written(text: string)

  datatype Transition = Transition(
    name: string,
    from: string,
    params: seq<string>,
    to: seq<string>,
    body: Option<Body>,
    fails: Option<Type>,
    isFallback: bool,
    isFfiPinned: bool)

  datatype Flow = Flow(
    name: string,
    states: seq<StateDef>,
    transitions: seq<Transition>,
    persistent: seq<string>,
    faultType: Option<Type>)

  type Shapes = map<string, seq<FieldDef>>

  const FAULT := "Fault"
  const PINNED := "FFI_Pinned"

  // --- lookups ---

  /** The first state with a given name. */
  function StateIndex(states: seq<StateDef>, name: string, i: nat): (r: Option<nat>)
    requires i <= |states|
    ensures r.None? <==> forall j :: i <= j < |states| ==> states[j].name != name
    ensures r.Some? ==> i <= r.value < |states| && states[r.value].name == name
                        && forall j :: i <= j < r.value ==> states[j].name != name
    decreases |states| - i
  {
    if i == |states| then None
    else if states[i].name == name then Some(i)
    else StateIndex(states, name, i + 1)
  }

  predicate HasState(states: seq<StateDef>, name: string) {
    StateIndex(states, name, 0).Some?
  }

  /** The payload of the first state with that name; no payload and no such state both count as empty. */
  function PayloadOf(states: seq<StateDef>, name: string): seq<FieldDef> {
    match StateIndex(states, name, 0)
    case None => []
    case Some(i) => if states[i].payload.None? then [] else states[i].payload.value
  }

  function Names(fields: seq<FieldDef>): seq<string> {
    seq(|fields|, i requires 0 <= i < |fields| => fields[i].name)
  }

  predicate HasTransition(transitions: seq<Transition>, name: string, from: string) {
    exists i :: 0 <= i < |transitions| && transitions[i].name == name && transitions[i].from == from
  }

  /** The position of the first state from `i` on whose name is not in `skip`. */
  function IndexExcept(states: seq<StateDef>, skip: set<string>, i: nat): (r: Option<nat>)
    requires i <= |states|
    ensures r.None? <==> forall j :: i <= j < |states| ==> states[j].name in skip
    ensures r.Some? ==> i <= r.value < |states| && states[r.value].name !in skip
                        && forall j :: i <= j < r.value ==> states[j].name in skip
    decreases |states| - i
  {
    if i == |states| then None
    else if states[i].name !in skip then Some(i)
    else IndexExcept(states, skip, i + 1)
  }

  /** The name of the first state whose name is not in `skip`: all states before it are skipped. */
  function FirstStateExcept(states: seq<StateDef>, skip: set<string>): (r: Option<string>)
    ensures r.Some? ==> r.value !in skip && HasState(states, r.value)
                        && forall j :: 0 <= j < StateIndex(states, r.value, 0).value ==> states[j].name in skip
    ensures r.None? <==> forall j :: 0 <= j < |states| ==> states[j].name in skip
  {
    match IndexExcept(states, skip, 0)
    case Some(i) => Some(states[i].name)
    case None => None
  }

  function RootStateName(states: seq<StateDef>): Option<string> {
    FirstStateExcept(states, {FAULT})
  }

  // --- default values ---

  const MAX_DEFAULT_NESTING: nat := 8

  function StringLit(s: string): Expr {
    Literal(LitString(s))
  }

  function SelfField(name: string): Expr {
    Field(Ident("self"), name)
  }

  function MemoryDump(): Expr {
    Record("MemoryDump", [FieldExpr("fields", StringLit("")), FieldExpr("count", Literal(LitInt(0)))])
  }

  function PanicPayload(event: string, snapshot: string): Expr {
    Record("PanicPayload", [
      FieldExpr("error_type", StringLit(event)), FieldExpr("file", StringLit("")),
      FieldExpr("line", Literal(LitInt(0))), FieldExpr("stack", StringLit(snapshot))])
  }

  function SystemTrace(from: string, event: string, snapshot: string): Expr {
    Record("SystemTrace", [
      FieldExpr("last_state_name", StringLit(from)), FieldExpr("unexpected_event", StringLit(event)),
      FieldExpr("snapshot", StringLit(snapshot)), FieldExpr("memory_dump", MemoryDump()),
      FieldExpr("panic_payload", PanicPayload(event, snapshot))])
  }

  /** The defaults that come before the record shapes are consulted. */
  function ScalarDefault(n: string): Option<Expr> {
    if n == "string" || n == "String" then Some(StringLit(""))
    else if n == "i32" || n == "i64" || n == "Int" then Some(Literal(LitInt(0)))
    else if n == "f32" || n == "f64" || n == "Float" then Some(Literal(LitFloat(0.0)))
    else if n == "bool" || n == "Bool" then Some(Literal(LitBool(false)))
    else if n == "SystemTrace" then Some(SystemTrace("", "", ""))
    else None
  }

  /** `default_type_value_depth`. It ends on recursive shapes because records nest at most eight deep. */
  function DefaultAt(ty: Type, shapes: Shapes, depth: nat): Expr
    decreases if depth < MAX_DEFAULT_NESTING then MAX_DEFAULT_NESTING - depth else 0, ty
  {
    match ty
    case Name(n, args) =>
      if ScalarDefault(n).Some? then ScalarDefault(n).value
      else if n in shapes then
        if depth >= MAX_DEFAULT_NESTING then Literal(LitUnit)
        else
          var fields := shapes[n];
          Record(n, seq(|fields|, i requires 0 <= i < |fields| =>
            FieldExpr(fields[i].name, DefaultAt(fields[i].ty, shapes, depth + 1))))
      else if n == "List" || n == "list" then EmptyList
      else if n == "Option" || n == "option" then Ident("None")
      else if n == "Result" || n == "result" then
        Call("Err", [if |args| > 1 then DefaultAt(args[1], shapes, depth + 1) else StringLit("")])
      else if n == "Map" || n == "map" then Call("map_new", [])
      else if n == "Set" || n == "set" then EmptySet
      else Literal(LitUnit)
    case Tuple(elems) =>
      TupleExpr(seq(|elems|, i requires 0 <= i < |elems| => DefaultAt(elems[i], shapes, depth + 1)))
    case Opaque(_) => Literal(LitUnit)
  }

  predicate EndsWith(s: string, suffix: string) {
    |suffix| <= |s| && s[|s| - |suffix|..] == suffix
  }

  predicate IsNamed(ty: Type, name: string) {
    ty.Name? && ty.name == name
  }

  const PANIC := "panic:"

  /** `default_field_value`: the well-known Fault fields first, then the type's default. */
  function DefaultField(field: FieldDef, from: string, event: string, snapshot: string, shapes: Shapes): Expr {
    var ty := field.ty;
    if field.name == "last_state" || field.name == "last_state_name" then
      if ty.Name? && EndsWith(ty.name, "::StateId") then Call(from, []) else StringLit(from)
    else if field.name == "unexpected_event" then
      if ty.Name? && EndsWith(ty.name, "::EventId") then
        if PANIC <= event then Call("Panic", [StringLit(event[|PANIC|..])]) else Call(event, [])
      else StringLit(event)
    else if field.name == "snapshot" then StringLit(snapshot)
    else if field.name == "trace" then
      if IsNamed(ty, "SystemTrace") then SystemTrace(from, event, snapshot) else StringLit(snapshot)
    else if field.name == "memory_dump" && IsNamed(ty, "MemoryDump") then MemoryDump()
    else if field.name == "panic_payload" && IsNamed(ty, "PanicPayload") then PanicPayload(event, snapshot)
    else DefaultAt(ty, shapes, 0)
  }

  // --- generated bodies ---

  predicate IsTraceField(name: string) {
    name == "trace" || name == "last_state" || name == "unexpected_event" || name == "snapshot"
  }

  /** `rebuild_root_body` */
  function RebuildRoot(f: Flow, root: string, keepPersistent: bool, shapes: Shapes): Body {
    var payload := PayloadOf(f.states, root);
    Returns(Record(root, seq(|payload|, i requires 0 <= i < |payload| =>
      FieldExpr(payload[i].name,
                if keepPersistent && payload[i].name in f.persistent then SelfField(payload[i].name)
                else DefaultAt(payload[i].ty, shapes, 0)))))
  }

  function SnapshotText(event: string, from: string): string {
    "undefined transition " + event + "(" + from + ")"
  }

  /** The value `fault_return_body` gives one field of Fault. */
  function FaultField(f: Flow, field: FieldDef, from: string, event: string, shapes: Shapes): Expr {
    if field.name in f.persistent && field.name in Names(PayloadOf(f.states, from)) then SelfField(field.name)
    else if from == FAULT && IsTraceField(field.name) then SelfField(field.name)
    else DefaultField(field, from, event, SnapshotText(event, from), shapes)
  }

  /** `fault_return_body` */
  function FaultReturn(f: Flow, from: string, event: string, shapes: Shapes): Body {
    var payload := PayloadOf(f.states, FAULT);
    Returns(Record(FAULT, seq(|payload|, i requires 0 <= i < |payload| =>
      FieldExpr(payload[i].name, FaultField(f, payload[i], from, event, shapes)))))
  }

  function Passthrough(f: Flow, target: string): Body {
    var payload := PayloadOf(f.states, target);
    Returns(Record(target, seq(|payload|, i requires 0 <= i < |payload| =>
      FieldExpr(payload[i].name, SelfField(payload[i].name)))))
  }

  // --- the Fault state ---

  function FaultFields(f: Flow, moduleName: string): seq<FieldDef> {
    var qualified := if moduleName == "" then f.name else moduleName + "::" + f.name;
    [FieldDef("last_state", Plain("flow::" + qualified + "::StateId")),
     FieldDef("unexpected_event", Plain("flow::" + qualified + "::EventId")),
     FieldDef("snapshot", Plain("string")),
     FieldDef("trace", Plain("SystemTrace"))]
    + (match f.faultType case Some(t) => [FieldDef("error", t)] case None => [])
  }

  /** The type of the first field with that name. */
  function TypeIn(fields: seq<FieldDef>, name: string): Option<Type> {
    if fields == [] then None
    else
      var last := |fields| - 1;
      var before := TypeIn(fields[..last], name);
      if before.Some? then before else if fields[last].name == name then Some(fields[last].ty) else None
  }

  /** The type of a persistent field: its first declaration in any state. */
  function DeclaredIn(states: seq<StateDef>, name: string): Option<Type> {
    if states == [] then None
    else
      var last := |states| - 1;
      var before := DeclaredIn(states[..last], name);
      if before.Some? then before
      else if states[last].payload.Some? then TypeIn(states[last].payload.value, name) else None
  }

  function DeclaredType(states: seq<StateDef>, name: string): Type {
    match DeclaredIn(states, name) case Some(ty) => ty case None => Plain("unit")
  }

  lemma {:induction false} TypeInIsFirst(fields: seq<FieldDef>, k: nat)
    requires k < |fields| && forall j :: 0 <= j < k ==> fields[j].name != fields[k].name
    ensures TypeIn(fields, fields[k].name) == Some(fields[k].ty)
  {
    var last := |fields| - 1;
    if k < last {
      TypeInIsFirst(fields[..last], k);
    } else {
      NotDeclared(fields[..last], fields[k].name);
    }
  }

  lemma {:induction false} NotDeclared(fields: seq<FieldDef>, name: string)
    requires forall j :: 0 <= j < |fields| ==> fields[j].name != name
    ensures TypeIn(fields, name).None?
  {
    if fields != [] {
      NotDeclared(fields[..|fields| - 1], name);
    }
  }

  /** No state declares a field with that name. */
  ghost predicate Undeclared(states: seq<StateDef>, name: string) {
    forall i, j :: 0 <= i < |states| && states[i].payload.Some? && 0 <= j < |states[i].payload.value| ==>
      states[i].payload.value[j].name != name
  }

  lemma {:induction false} UndeclaredHasNoType(states: seq<StateDef>, name: string)
    requires Undeclared(states, name)
    ensures DeclaredIn(states, name).None? && DeclaredType(states, name) == Plain("unit")
  {
    if states != [] {
      var last := |states| - 1;
      UndeclaredHasNoType(states[..last], name);
      if states[last].payload.Some? {
        NotDeclared(states[last].payload.value, name);
      }
    }
  }

  /** A persistent field has the type it is first declared with: the first field of that name, in the first state that
      has one. */
  lemma {:induction false} FirstDeclarationCounts(states: seq<StateDef>, i: nat, k: nat)
    requires i < |states| && states[i].payload.Some? && k < |states[i].payload.value|
    requires var fields := states[i].payload.value;
             Undeclared(states[..i], fields[k].name) && forall j :: 0 <= j < k ==> fields[j].name != fields[k].name
    ensures DeclaredType(states, states[i].payload.value[k].name) == states[i].payload.value[k].ty
    ensures DeclaredIn(states, states[i].payload.value[k].name).Some?
  {
    var last := |states| - 1;
    if i < last {
      assert states[..last][..i] == states[..i];
      FirstDeclarationCounts(states[..last], i, k);
    } else {
      TypeInIsFirst(states[i].payload.value, k);
      UndeclaredHasNoType(states[..last], states[i].payload.value[k].name);
    }
  }

  /** The persistent fields pushed onto Fault's payload, each only when it is still missing. */
  function WithShadows(payload: seq<FieldDef>, names: seq<string>, states: seq<StateDef>): seq<FieldDef>
    decreases names
  {
    if names == [] then payload
    else
      var name := names[0];
      WithShadows(if name in Names(payload) then payload else payload + [FieldDef(name, DeclaredType(states, name))],
                  names[1..], states)
  }

  function AttachShadows(f: Flow): Flow {
    if f.persistent == [] then f else
    match StateIndex(f.states, FAULT, 0)
    case None => f
    case Some(i) =>
      var payload := if f.states[i].payload.Some? then f.states[i].payload.value else [];
      f.(states := f.states[i := f.states[i].(payload := Some(WithShadows(payload, f.persistent, f.states)))])
  }

  function EnsureFault(f: Flow, moduleName: string): Flow {
    AttachShadows(if HasState(f.states, FAULT) then f
                  else f.(states := f.states + [StateDef(FAULT, Some(FaultFields(f, moduleName)))]))
  }

  // --- injected transitions ---

  function Generated(name: string, from: string, to: string, body: Body, isFallback: bool,
                     isFfiPinned: bool): Transition
  {
    Transition(name, from, [], [to], Some(body), None, isFallback, isFfiPinned)
  }

  /** The transition, unless the flow already has one for this state and event. */
  function AddMissing(f: Flow, t: Transition): Flow {
    if HasTransition(f.transitions, t.name, t.from) then f else f.(transitions := f.transitions + [t])
  }

  function InjectSystemVerbs(f: Flow, shapes: Shapes): Flow {
    match RootStateName(f.states)
    case None => f
    case Some(root) =>
      var reset := Generated("reset", FAULT, root, RebuildRoot(f, root, false, shapes), true, false);
      var recover := Generated("recover", FAULT, root, RebuildRoot(f, root, f.persistent != [], shapes), true, false);
      AddMissing(AddMissing(f, reset), recover)
  }

  function PeerFault(f: Flow, from: string, shapes: Shapes): Transition {
    Generated("peer_fault", from, FAULT, FaultReturn(f, from, "peer_fault", shapes), true, false)
  }

  /** A `peer_fault` for each of the first `n` states, Fault excepted, that has none yet. */
  function PeerFaults(f: Flow, shapes: Shapes, n: nat): seq<Transition>
    requires n <= |f.states|
  {
    if n == 0 then []
    else
      var state := f.states[n - 1].name;
      PeerFaults(f, shapes, n - 1)
      + if state == FAULT || HasTransition(f.transitions, "peer_fault", state) then []
        else [PeerFault(f, state, shapes)]
  }

  function InjectPeerFaults(f: Flow, shapes: Shapes): Flow {
    var onFault := if !HasTransition(f.transitions, "peer_fault", FAULT) && HasState(f.states, FAULT)
                   then [PeerFault(f, FAULT, shapes)] else [];
    f.(transitions := f.transitions + PeerFaults(f, shapes, |f.states|) + onFault)
  }

  function InjectFfiPinned(f: Flow, shapes: Shapes): Flow {
    if !HasState(f.states, PINNED) then f else
    match FirstStateExcept(f.states, {FAULT, PINNED})
    case None => f
    case Some(active) =>
      var compatible := Names(PayloadOf(f.states, active)) == Names(PayloadOf(f.states, PINNED));
      var enter := Generated("enter_ffi", active, PINNED, Passthrough(f, PINNED), false, true);
      var exit := Generated("exit_ffi", PINNED, active, Passthrough(f, active), false, true);
      var crash := Generated("ffi_crash", PINNED, FAULT, FaultReturn(f, PINNED, "ffi_crash", shapes), true, true);
      AddMissing(if compatible then AddMissing(AddMissing(f, enter), exit) else f, crash)
  }

  /** `expand_flow_with_shapes` */
  function Expanded(f: Flow, shapes: Shapes, moduleName: string): Flow {
    InjectFfiPinned(InjectPeerFaults(InjectSystemVerbs(EnsureFault(f, moduleName), shapes), shapes), shapes)
  }

  /** The record shapes of a flow's own states, the first declaration of each name; Fault has none. */
  function OwnShapes(states: seq<StateDef>): Shapes {
    if states == [] then map[]
    else
      var last := |states| - 1;
      var before := OwnShapes(states[..last]);
      if states[last].name == FAULT || states[last].name in before then before
      else before[states[last].name := if states[last].payload.Some? then states[last].payload.value else []]
  }

  /** A state's shape is the payload of its first declaration; Fault has none. */
  lemma {:induction false} OwnShapesAreFirst(states: seq<StateDef>, name: string)
    ensures name in OwnShapes(states) <==> name != FAULT && HasState(states, name)
    ensures name in OwnShapes(states) ==> OwnShapes(states)[name] == PayloadOf(states, name)
  {
    if states != [] {
      var last := |states| - 1;
      OwnShapesAreFirst(states[..last], name);
      assert HasState(states[..last], name) ==>
          StateIndex(states, name, 0) == StateIndex(states[..last], name, 0);
      assert states[last].name != name ==> (HasState(states, name) <==> HasState(states[..last], name));
      assert states[last].name == name && !HasState(states[..last], name) ==> StateIndex(states, name, 0) == Some(last);
    }
  }

  /** `expand_flow` */
  function ExpandedAlone(f: Flow): Flow {
    Expanded(f, OwnShapes(f.states), "")
  }

  /** A generated body is read off the states and the persistent fields alone. */
  lemma BodiesIgnoreTransitions(f: Flow, g: Flow, from: string, event: string, shapes: Shapes)
    requires f.states == g.states && f.persistent == g.persistent
    ensures FaultReturn(f, from, event, shapes) == FaultReturn(g, from, event, shapes)
    ensures Passthrough(f, from) == Passthrough(g, from)
    ensures forall keep :: RebuildRoot(f, from, keep, shapes) == RebuildRoot(g, from, keep, shapes)
  {
    var payload := PayloadOf(f.states, FAULT);
    assert forall i :: 0 <= i < |payload| ==>
      FaultField(f, payload[i], from, event, shapes) == FaultField(g, payload[i], from, event, shapes);
    assert FaultReturn(f, from, event, shapes).result.fields == FaultReturn(g, from, event, shapes).result.fields;
    forall keep ensures RebuildRoot(f, from, keep, shapes) == RebuildRoot(g, from, keep, shapes) {
      assert RebuildRoot(f, from, keep, shapes).result.fields == RebuildRoot(g, from, keep, shapes).result.fields;
    }
  }
}
