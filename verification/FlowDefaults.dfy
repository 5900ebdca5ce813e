/** The values that reset, recover, faults and pinning write (src/flow_matrix.rs). */
module FlowDefaults {
  import opened Wrappers
  import Ast
  import opened FlowMatrix
  import opened FlowExpansion
  import opened FlowRuns
  import opened FlowSurvival

  // --- zeros ---

  /** The zero of a type: zero, the empty string, an empty collection, nothing, or a record or a tuple of zeros; unit
      for other types, and for records nested deeper than eight. */
  ghost predicate Zero(v: Value, ty: Ast.Type, shapes: Shapes, depth: nat)
    decreases v
  {
    match ty
    case Name(n, args) =>
      if n in ["string", "String"] then v == Atom(LitString(""))
      else if n in ["i32", "i64", "Int"] then v == Atom(LitInt(0))
      else if n in ["f32", "f64", "Float"] then v == Atom(LitFloat(0.0))
      else if n in ["bool", "Bool"] then v == Atom(LitBool(false))
      else if n == "SystemTrace" then v == TraceRecord("", "", "")
      else if n in shapes then
        if depth < 8 then
          && v.Struct? && v.ty == n && |v.fields| == |shapes[n]|
          && forall i :: 0 <= i < |v.fields| ==>
               v.fields[i].name == shapes[n][i].name && Zero(v.fields[i].value, shapes[n][i].ty, shapes, depth + 1)
        else v == Atom(LitUnit)
      else if n in ["List", "list"] then v == NoItems
      else if n in ["Option", "option"] then v == Constant("None")
      else if n in ["Result", "result"] then
        && v.Made? && v.callee == "Err" && |v.args| == 1
        && (if |args| > 1 then Zero(v.args[0], args[1], shapes, depth + 1) else v.args[0] == Atom(LitString("")))
      else if n in ["Map", "map"] then v == Made("map_new", [])
      else if n in ["Set", "set"] then v == NoMembers
      else v == Atom(LitUnit)
    case Tuple(elems) =>
      && v.Items? && |v.values| == |elems|
      && forall i :: 0 <= i < |elems| ==> Zero(v.values[i], elems[i], shapes, depth + 1)
    case Opaque(_) => v == Atom(LitUnit)
  }

  /** The value of a closed expression. */
  ghost predicate GivesZero(e: Expr, self: seq<FieldValue>, ty: Ast.Type, shapes: Shapes, depth: nat) {
    Eval(e, self).Some? && Zero(Eval(e, self).value, ty, shapes, depth)
  }

  lemma {:induction false} AllEvaluate(es: seq<Expr>, self: seq<FieldValue>)
    requires forall i :: 0 <= i < |es| ==> Eval(es[i], self).Some?
    ensures EvalAll(es, self).Some? && |EvalAll(es, self).value| == |es|
    ensures forall i :: 0 <= i < |es| ==> Eval(es[i], self) == Some(EvalAll(es, self).value[i])
  {
    if es != [] {
      assert forall i :: 1 <= i < |es| ==> es[i] == es[1..][i - 1];
      AllEvaluate(es[1..], self);
    }
  }

  lemma RecordGivesZero(n: string, fields: seq<FieldExpr>, self: seq<FieldValue>, shapes: Shapes, depth: nat)
    requires n in shapes && depth < 8 && |fields| == |shapes[n]|
    requires n !in ["string", "String", "i32", "i64", "Int", "f32", "f64", "Float", "bool", "Bool", "SystemTrace"]
    requires forall i :: 0 <= i < |fields| ==>
      fields[i].name == shapes[n][i].name && GivesZero(fields[i].value, self, shapes[n][i].ty, shapes, depth + 1)
    ensures forall args :: GivesZero(Record(n, fields), self, Ast.Name(n, args), shapes, depth)
  {
    assert EvalFields(fields, self).Some?;
  }

  lemma TupleGivesZero(items: seq<Expr>, elems: seq<Ast.Type>, self: seq<FieldValue>, shapes: Shapes, depth: nat)
    requires |items| == |elems|
    requires forall i :: 0 <= i < |items| ==> GivesZero(items[i], self, elems[i], shapes, depth + 1)
    ensures GivesZero(TupleExpr(items), self, Ast.Tuple(elems), shapes, depth)
  {
    AllEvaluate(items, self);
  }

  lemma ErrGivesZero(e: Expr, self: seq<FieldValue>, n: string, args: seq<Ast.Type>, shapes: Shapes, depth: nat)
    requires n in ["Result", "result"] && n !in shapes
    requires if |args| > 1 then GivesZero(e, self, args[1], shapes, depth + 1) else e == StringLit("")
    ensures GivesZero(Call("Err", [e]), self, Ast.Name(n, args), shapes, depth)
  {
    AllEvaluate([e], self);
  }

  lemma ScalarGivesZero(n: string, args: seq<Ast.Type>, self: seq<FieldValue>, shapes: Shapes, depth: nat)
    requires ScalarDefault(n).Some?
    ensures GivesZero(ScalarDefault(n).value, self, Ast.Name(n, args), shapes, depth)
  {
    TraceEvaluates("", "", "", self);
  }

  lemma EmptyGivesZero(n: string, args: seq<Ast.Type>, self: seq<FieldValue>, shapes: Shapes, depth: nat)
    requires ScalarDefault(n).None? && (if n in shapes then depth >= 8 else n !in ["Result", "result"])
    ensures GivesZero(DefaultAt(Ast.Name(n, args), shapes, depth), self, Ast.Name(n, args), shapes, depth)
  {
  }

  /** The default of a type is its zero. */
  lemma {:induction false} DefaultIsZero(ty: Ast.Type, shapes: Shapes, depth: nat, self: seq<FieldValue>)
    ensures GivesZero(DefaultAt(ty, shapes, depth), self, ty, shapes, depth)
    decreases if depth < MAX_DEFAULT_NESTING then MAX_DEFAULT_NESTING - depth else 0, ty
  {
    match ty
    case Name(n, args) =>
      if ScalarDefault(n).None? && n in shapes && depth < 8 {
        var fields := DefaultAt(ty, shapes, depth).fields;
        forall i | 0 <= i < |fields|
          ensures fields[i].name == shapes[n][i].name
          ensures GivesZero(fields[i].value, self, shapes[n][i].ty, shapes, depth + 1)
        {
          DefaultIsZero(shapes[n][i].ty, shapes, depth + 1, self);
        }
        RecordGivesZero(n, fields, self, shapes, depth);
      } else if ScalarDefault(n).None? && n !in shapes && n in ["Result", "result"] {
        if |args| > 1 {
          DefaultIsZero(args[1], shapes, depth + 1, self);
          ErrGivesZero(DefaultAt(args[1], shapes, depth + 1), self, n, args, shapes, depth);
        } else {
          ErrGivesZero(StringLit(""), self, n, args, shapes, depth);
        }
      } else if ScalarDefault(n).Some? {
        ScalarGivesZero(n, args, self, shapes, depth);
      } else {
        EmptyGivesZero(n, args, self, shapes, depth);
      }
    case Tuple(elems) =>
      var items := DefaultAt(ty, shapes, depth).items;
      forall i | 0 <= i < |items| ensures GivesZero(items[i], self, elems[i], shapes, depth + 1) {
        DefaultIsZero(elems[i], shapes, depth + 1, self);
      }
      TupleGivesZero(items, elems, self, shapes, depth);
    case Opaque(_) =>
  }

  // --- reset and recover ---

  /** A record of the root state, each field the zero of its type unless it is kept. */
  ghost predicate ZeroRoot(f: Flow, next: Instance, at: Instance, keep: bool, shapes: Shapes) {
    && RootStateName(f.states).Some? && next.state == RootStateName(f.states).value
    && var payload := PayloadOf(f.states, next.state);
    && |next.payload| == |payload|
    && forall i :: 0 <= i < |payload| ==>
         && next.payload[i].name == payload[i].name
         && (if keep && payload[i].name in f.persistent then
               Lookup(at.payload, payload[i].name) == Some(next.payload[i].value)
             else Zero(next.payload[i].value, payload[i].ty, shapes, 0))
  }

  lemma RebuiltRoot(f: Flow, a: Flow, root: string, keep: bool, shapes: Shapes, at: Instance)
    requires RootStateName(f.states) == Some(root) && PayloadOf(a.states, root) == PayloadOf(f.states, root)
    requires a.persistent == f.persistent && RunBody(RebuildRoot(a, root, keep, shapes), at.payload).Some?
    ensures ZeroRoot(f, RunBody(RebuildRoot(a, root, keep, shapes), at.payload).value, at, keep, shapes)
  {
    var payload, fields := PayloadOf(f.states, root), RebuildRoot(a, root, keep, shapes).result.fields;
    var values := EvalFields(fields, at.payload).value;
    forall i | 0 <= i < |payload|
      ensures values[i].name == payload[i].name
      ensures if keep && payload[i].name in f.persistent then
                Lookup(at.payload, payload[i].name) == Some(values[i].value)
              else Zero(values[i].value, payload[i].ty, shapes, 0)
    {
      DefaultIsZero(payload[i].ty, shapes, 0, at.payload);
      assert Eval(fields[i].value, at.payload) == Some(values[i].value);
    }
  }

  /** In Fault, `reset` gives a root record of zeros, and `recover` one whose persistent fields are Fault's and whose
      other fields are zeros. */
  lemma RootIsZeroed(f: Flow, shapes: Shapes, moduleName: string, at: Instance, event: string)
    requires Conforms(Expanded(f, shapes, moduleName).states, at) && at.state == FAULT
    requires (event == "reset" || event == "recover") && !Answers(f.transitions, event, FAULT)
    requires RootStateName(f.states).Some?
    ensures var next := Step(Expanded(f, shapes, moduleName), at, event);
            next.Some? && ZeroRoot(f, next.value, at, event == "recover", shapes)
  {
    var a, root := EnsureFault(f, moduleName), RootStateName(f.states).value;
    EnsureFaultGivesFault(f, moduleName);
    ExpansionSettles(f, shapes, moduleName);
    ExpansionAddsOnlyTransitions(f, shapes, moduleName);
    ActiveStays(f, moduleName, {FAULT});
    LookupsAwayFromFault(f, moduleName, root);
    GeneratedStep(f, shapes, moduleName, at, event);
    RebuiltRoot(f, a, root, event == "recover" && a.persistent != [], shapes, at);
  }

  // --- faults ---

  /** The fields of Fault that record a fault, whatever their type. */
  const RECORDING := ["last_state", "last_state_name", "unexpected_event", "snapshot", "trace", "memory_dump",
                      "panic_payload"]

  lemma PlainDefault(field: FieldDef, from: string, event: string, snapshot: string, shapes: Shapes)
    requires field.name !in RECORDING
    ensures DefaultField(field, from, event, snapshot, shapes) == DefaultAt(field.ty, shapes, 0)
  {
  }

  /** Any other field of Fault is the zero of its type after a first fault, unless it is a persistent one. */
  lemma OtherFaultFieldsAreZero(f: Flow, shapes: Shapes, moduleName: string, at: Instance, event: string, k: nat)
    requires Conforms(Expanded(f, shapes, moduleName).states, at) && CanFault(f, at.state, event)
    requires var payload := PayloadOf(EnsureFault(f, moduleName).states, FAULT);
             && k < |payload| && NamesDiffer(payload, k)
             && payload[k].name !in RECORDING && payload[k].name !in f.persistent
    ensures var fault := Step(Expanded(f, shapes, moduleName), at, event);
            var field := PayloadOf(EnsureFault(f, moduleName).states, FAULT)[k];
            && fault.Some? && Lookup(fault.value.payload, field.name).Some?
            && Zero(Lookup(fault.value.payload, field.name).value, field.ty, shapes, 0)
  {
    var field := PayloadOf(EnsureFault(f, moduleName).states, FAULT)[k];
    WellKnownRecorded(f, shapes, moduleName, at, event, k);
    PlainDefault(field, at.state, event, SnapshotText(event, at.state), shapes);
    DefaultIsZero(field.ty, shapes, 0, at.payload);
  }

  // --- pinning ---

  /** The active state and the pinned one list the same fields, so that pinning is injected. */
  predicate CanPin(f: Flow, active: string) {
    && HasState(f.states, PINNED) && FirstStateExcept(f.states, {FAULT, PINNED}) == Some(active)
    && Names(PayloadOf(f.states, active)) == Names(PayloadOf(f.states, PINNED))
    && !Answers(f.transitions, "enter_ffi", active) && !Answers(f.transitions, "exit_ffi", PINNED)
  }

  lemma PassthroughKeepsFields(a: Flow, at: Instance, target: string)
    requires Conforms(a.states, at) && RunBody(Passthrough(a, target), at.payload).Some?
    requires Names(PayloadOf(a.states, at.state)) == Names(PayloadOf(a.states, target))
    ensures forall name :: SameField(at, RunBody(Passthrough(a, target), at.payload).value, name)
  {
    var body, next := Passthrough(a, target), RunBody(Passthrough(a, target), at.payload).value;
    var payload, own := PayloadOf(a.states, target), PayloadOf(a.states, at.state);
    forall name ensures SameField(at, next, name) {
      if name in Names(payload) {
        var k :| 0 <= k < |payload| && Names(payload)[k] == name;
        assert body.result.fields[k].name == name;
        CopiedFieldsKeepTheirValue(body, at.payload, name);
      } else {
        UndeclaredFieldIsAbsent(a.states, at, name);
        forall i | 0 <= i < |next.payload| ensures next.payload[i].name != name {
          assert Names(payload)[i] == body.result.fields[i].name;
        }
      }
    }
  }

  lemma PinningStep(f: Flow, shapes: Shapes, moduleName: string, active: string, at: Instance, event: string)
    requires CanPin(f, active) && Conforms(Expanded(f, shapes, moduleName).states, at)
    requires (event == "enter_ffi" && at.state == active) || (event == "exit_ffi" && at.state == PINNED)
    ensures var g, next := Expanded(f, shapes, moduleName), Step(Expanded(f, shapes, moduleName), at, event);
            && next.Some? && Conforms(g.states, next.value)
            && next.value.state == (if event == "enter_ffi" then PINNED else active)
            && forall name :: SameField(at, next.value, name)
  {
    var a, g := EnsureFault(f, moduleName), Expanded(f, shapes, moduleName);
    EnsureFaultGivesFault(f, moduleName);
    ExpansionSettles(f, shapes, moduleName);
    ExpansionAddsOnlyTransitions(f, shapes, moduleName);
    ActiveStays(f, moduleName, {FAULT, PINNED});
    LookupsAwayFromFault(f, moduleName, active);
    LookupsAwayFromFault(f, moduleName, PINNED);
    GeneratedStep(f, shapes, moduleName, at, event);
    PassthroughKeepsFields(a, at, Step(g, at, event).value.state);
  }

  lemma TwoEvents(g: Flow, at: Instance, mid: Instance, first: string, second: string)
    requires Step(g, at, first) == Some(mid)
    ensures Run(g, at, [first, second]) == Step(g, mid, second)
  {
    assert Run(g, at, [first]) == Some(mid) by {
      assert [first][1..] == [];
    }
    OneMoreEvent(g, at, [first], second);
    assert [first] + [second] == [first, second];
  }

  /** Entering a foreign call and leaving it gives back the state and the value of every field. */
  lemma PinnedRoundTrip(f: Flow, shapes: Shapes, moduleName: string, active: string, at: Instance)
    requires CanPin(f, active) && Conforms(Expanded(f, shapes, moduleName).states, at) && at.state == active
    ensures var g := Expanded(f, shapes, moduleName);
            var pinned, back := Step(g, at, "enter_ffi"), Run(g, at, ["enter_ffi", "exit_ffi"]);
            && pinned.Some? && pinned.value.state == PINNED
            && back.Some? && back.value.state == active && forall name :: SameField(at, back.value, name)
  {
    var g := Expanded(f, shapes, moduleName);
    PinningStep(f, shapes, moduleName, active, at, "enter_ffi");
    var pinned := Step(g, at, "enter_ffi").value;
    PinningStep(f, shapes, moduleName, active, pinned, "exit_ffi");
    TwoEvents(g, at, pinned, "enter_ffi", "exit_ffi");
    var back := Step(g, pinned, "exit_ffi").value;
    forall name ensures SameField(at, back, name) {
      assert SameField(at, pinned, name) && SameField(pinned, back, name);
    }
  }
}
