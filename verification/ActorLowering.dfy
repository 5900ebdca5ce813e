/** The types an actor method can return, and which of its results arrive (src/codegen/actors.rs, types.rs, mod.rs). */
module ActorLowering {
  import opened Wrappers
  import opened Bytes
  import opened ActorAbi
  import opened ActorMailbox
  import opened ActorResults

  // --- types as written and as lowered ---

  datatype Llvm =
    | IntLlvm(bits: nat)
    | FloatLlvm(bits: nat)
    | PointerLlvm
    | StructLlvm(fields: seq<Llvm>)
    | ArrayLlvm(element: Llvm, count: nat)

  /** `Pointing` stands for shared, weak and raw pointers, C function pointers and C buffers; `Unlowered` for types
      without a lowering. */
  datatype Surface =
    | Named(name: string, args: seq<Surface>)
    | Reference(inner: Surface)
    | Pointing
    | TupleOf(elements: seq<Surface>)
    | OptionOf(inner: Surface)
    | ResultOf(ok: Surface, err: Surface)
    | NewtypeOf(inner: Surface)
    | ArrayOf(inner: Surface, count: nat)
    | SliceOf(inner: Surface)
    | FunctionType
    | DynTrait
    | Opaque
    | Unlowered

  const INT64 := IntLlvm(64)
  const BOOL := IntLlvm(1)

  function WidenPayload(t: Llvm): Llvm {
    if t.IntLlvm? && t.bits != 64 then INT64 else t
  }

  function WidenField(t: Llvm): Llvm {
    if t.IntLlvm? && 1 < t.bits < 64 then INT64 else t
  }

  function OptionLayout(payload: Option<Llvm>): (r: Option<Llvm>)
    ensures r.Some? ==> r.value.StructLlvm?
  {
    match payload
    case Some(t) => Some(StructLlvm([BOOL, t]))
    case None => None
  }

  function ResultLayout(payload: Option<Llvm>): (r: Option<Llvm>)
    ensures r.Some? ==> r.value.StructLlvm?
  {
    match payload
    case Some(t) => Some(StructLlvm([BOOL, t, INT64]))
    case None => None
  }

  function Widened(payload: Option<Llvm>): Option<Llvm> {
    match payload
    case Some(t) => Some(WidenPayload(t))
    case None => None
  }

  /** The fields of a product; one without a lowering leaves the product without one. */
  function ProductLayout(fields: seq<Option<Llvm>>): (r: Option<Llvm>)
    ensures r.Some? ==> r.value.StructLlvm?
  {
    if exists k :: 0 <= k < |fields| && fields[k].None? then None
    else Some(StructLlvm(seq(|fields|, k requires 0 <= k < |fields| => WidenField(fields[k].value))))
  }

  predicate IsUnit(ty: Surface) {
    ty.Named? && (ty.name == "unit" || ty.name == "nothing")
  }

  /** `container_payload_llvm` */
  function Payload(ty: Surface): Option<Llvm>
    decreases ty, 1
  {
    if IsUnit(ty) then Some(INT64) else BaseType(ty)
  }

  /** `mimi_type_to_llvm`: the lowering that knows no declared types and takes every other name for an `i64`. */
  function BaseType(ty: Surface): Option<Llvm>
    decreases ty, 0
  {
    match ty
    case Named(name, args) =>
      if name == "i32" then Some(IntLlvm(32))
      else if name == "i64" then Some(INT64)
      else if name == "f32" then Some(FloatLlvm(32))
      else if name == "f64" then Some(FloatLlvm(64))
      else if name == "bool" then Some(BOOL)
      else if name == "string" then Some(StructLlvm([PointerLlvm, INT64]))
      else if name == "Result" && |args| == 2 then ResultLayout(Widened(Payload(args[0])))
      else if name == "Option" && |args| == 1 then OptionLayout(Widened(Payload(args[0])))
      else if name == "List" then Some(StructLlvm([INT64, PointerLlvm]))
      else if IsUnit(ty) then None
      else Some(INT64)
    case Reference(inner) => if BaseType(inner).None? then None else Some(PointerLlvm)
    case Pointing => Some(PointerLlvm)
    case TupleOf(elements) =>
      ProductLayout(seq(|elements|, k requires 0 <= k < |elements| => BaseType(elements[k])))
    case OptionOf(inner) => OptionLayout(Widened(Payload(inner)))
    case ResultOf(ok, _) => ResultLayout(Widened(Payload(ok)))
    case NewtypeOf(inner) => BaseType(inner)
    case ArrayOf(inner, count) =>
      (match BaseType(inner) case Some(element) => Some(ArrayLlvm(element, count)) case None => None)
    case SliceOf(inner) => if BaseType(inner).None? then None else Some(StructLlvm([PointerLlvm, INT64]))
    case FunctionType => Some(StructLlvm([PointerLlvm, PointerLlvm]))
    case DynTrait => Some(StructLlvm([PointerLlvm, PointerLlvm]))
    case Opaque => Some(INT64)
    case Unlowered => None
  }

  // --- the lowering that knows the declared types ---

  datatype Env = Env(actors: set<string>, types: map<string, Llvm>)

  predicate HoldsActor(env: Env, ty: Surface) {
    match ty
    case Named(name, args) => name in env.actors || exists k :: 0 <= k < |args| && HoldsActor(env, args[k])
    case TupleOf(elements) => exists k :: 0 <= k < |elements| && HoldsActor(env, elements[k])
    case Reference(inner) => HoldsActor(env, inner)
    case OptionOf(inner) => HoldsActor(env, inner)
    case ResultOf(ok, err) => HoldsActor(env, ok) || HoldsActor(env, err)
    case ArrayOf(inner, _) => HoldsActor(env, inner)
    case SliceOf(inner) => HoldsActor(env, inner)
    case NewtypeOf(inner) => HoldsActor(env, inner)
    case _ => false
  }

  /** A container or an option inside an option is packed on the heap. */
  predicate PackedOnHeap(inner: Surface) {
    inner.OptionOf? || (inner.Named? && inner.name in ["List", "Map", "Set"])
  }

  /** The payload of an option or a result: tuples by the rule for products, scalars by the one for containers. */
  function SurfacePayload(env: Env, inner: Surface): Option<Llvm>
    decreases inner, 3
  {
    var lowered := if DeclaredType(env, inner).Some? then DeclaredType(env, inner) else Payload(inner);
    if inner.TupleOf? && lowered.Some? && lowered.value.StructLlvm? then
      var fields := lowered.value.fields;
      Some(StructLlvm(seq(|fields|, k requires 0 <= k < |fields| => WidenField(fields[k]))))
    else Widened(lowered)
  }

  function DeclaredOption(env: Env, inner: Surface): (r: Option<Llvm>)
    ensures r.Some? ==> r.value.StructLlvm?
    decreases inner, 4
  {
    if PackedOnHeap(inner) then Some(StructLlvm([BOOL, INT64])) else OptionLayout(SurfacePayload(env, inner))
  }

  /** `llvm_type_for` */
  function DeclaredType(env: Env, ty: Surface): Option<Llvm>
    decreases ty, 1
  {
    match ty
    case Named(name, args) =>
      if args == [] && name in env.actors then Some(PointerLlvm)
      else if args == [] && name in env.types then Some(env.types[name])
      else if name == "Option" && |args| == 1 then DeclaredOption(env, args[0])
      else if name == "Result" && |args| == 2 then ResultLayout(SurfacePayload(env, args[0]))
      else if name in env.types then Some(env.types[name])
      else BaseType(ty)
    case TupleOf(elements) =>
      ProductLayout(seq(|elements|, k requires 0 <= k < |elements| => TupleField(env, elements[k])))
    case OptionOf(inner) => DeclaredOption(env, inner)
    case ResultOf(ok, _) => ResultLayout(SurfacePayload(env, ok))
    case _ => BaseType(ty)
  }

  /** `tuple_field_type_for_actor_values`: fields keep the plain lowering unless they hold an actor. */
  function TupleField(env: Env, ty: Surface): Option<Llvm>
    decreases ty, 2
  {
    if ty.Named? && ty.args == [] && ty.name in env.actors then Some(PointerLlvm)
    else if ty.TupleOf? then
      ProductLayout(seq(|ty.elements|, k requires 0 <= k < |ty.elements| => TupleField(env, ty.elements[k])))
    else if (ty.OptionOf? || ty.ResultOf? || (ty.Named? && ty.name in ["Option", "Result"])) && HoldsActor(env, ty) then
      DeclaredType(env, ty)
    else BaseType(ty)
  }

  /** `actor_abi_type_for` */
  function AbiTypeFor(env: Env, ty: Surface): Llvm {
    match DeclaredType(env, ty)
    case Some(t) => t
    case None => INT64
  }

  // --- sizes ---

  function RoundedUp(n: nat, align: nat): nat
    requires align > 0
  {
    (n + align - 1) / align * align
  }

  function PowerFrom(p: nat, n: nat): (r: nat)
    requires p > 0
    ensures r > 0
    decreases n - p
  {
    if p >= n then p else PowerFrom(2 * p, n)
  }

  function Larger(a: nat, b: nat): (r: nat)
    ensures r >= a && r >= b
  {
    if a < b then b else a
  }

  function FieldsAlign(fields: seq<Llvm>): (r: nat)
    ensures r > 0
  {
    if fields == [] then 1 else Larger(FieldsAlign(fields[..|fields| - 1]), Align(fields[|fields| - 1]))
  }

  /** `llvm_type_alignment` */
  function Align(t: Llvm): (r: nat)
    ensures r > 0
  {
    match t
    case IntLlvm(bits) => PowerFrom(1, (bits + 7) / 8)
    case FloatLlvm(bits) => PowerFrom(1, (bits + 7) / 8)
    case PointerLlvm => 8
    case StructLlvm(fields) => FieldsAlign(fields)
    case ArrayLlvm(element, _) => Align(element)
  }

  function FieldsEnd(fields: seq<Llvm>): nat {
    if fields == [] then 0 else
    var last := fields[|fields| - 1];
    RoundedUp(FieldsEnd(fields[..|fields| - 1]), Align(last)) + SizeBytes(last)
  }

  /** `llvm_type_size_bytes` */
  function SizeBytes(t: Llvm): nat {
    match t
    case IntLlvm(bits) => (bits + 7) / 8
    case FloatLlvm(bits) => (bits + 7) / 8
    case PointerLlvm => 8
    case StructLlvm(fields) => RoundedUp(FieldsEnd(fields), FieldsAlign(fields))
    case ArrayLlvm(element, count) => count * SizeBytes(element)
  }

  // --- registering declarations ---

  /** Records with the C layout come with their fields as the C mapping lowers them. */
  datatype Definition =
    | RecordDef(name: string, fields: seq<Surface>)
    | CRecordDef(name: string, lowered: seq<Llvm>)
    | EnumDef(name: string)
    | CEnumDef(name: string)
    | AliasDef(name: string, target: Surface)
    | NewtypeDef(name: string, target: Surface)
    | UnionDef(name: string, fields: seq<Surface>)
    | ActorDef(name: string, fields: seq<Surface>)

  function LargestField(env: Env, fields: seq<Surface>): nat {
    if fields == [] then 0
    else Larger(LargestField(env, fields[..|fields| - 1]), SizeBytes(AbiTypeFor(env, fields[|fields| - 1])))
  }

  /** What a declaration is lowered to; a record field without a lowering is an error. */
  function Lowered(env: Env, def: Definition): Option<Llvm> {
    match def
    case RecordDef(_, fields) =>
      if exists k :: 0 <= k < |fields| && DeclaredType(env, fields[k]).None? then None
      else Some(StructLlvm(seq(|fields|, k requires 0 <= k < |fields| => DeclaredType(env, fields[k]).value)))
    case CRecordDef(_, lowered) => Some(StructLlvm(lowered))
    case EnumDef(_) => Some(StructLlvm([IntLlvm(32), INT64]))
    case CEnumDef(_) => Some(IntLlvm(32))
    case AliasDef(_, target) => Some(AbiTypeFor(env, target))
    case NewtypeDef(_, target) => Some(AbiTypeFor(env, target))
    case UnionDef(_, fields) => Some(ArrayLlvm(IntLlvm(8), if fields == [] then 8 else LargestField(env, fields)))
    case ActorDef(_, fields) =>
      Some(StructLlvm(seq(|fields|, k requires 0 <= k < |fields| => AbiTypeFor(env, fields[k]))))
  }

  /** The types known after the first `n` declarations, from the given names of actors on. */
  function EnvAfter(actors: set<string>, defs: seq<Definition>, n: nat): Option<Env>
    requires n <= |defs|
  {
    if n == 0 then Some(Env(actors, map[])) else
    match EnvAfter(actors, defs, n - 1)
    case None => None
    case Some(env) =>
      (match Lowered(env, defs[n - 1])
       case Some(t) => Some(env.(types := env.types[defs[n - 1].name := t]))
       case None => None)
  }

  /** A number takes 1, 32 or 64 bits, a float 32 or 64. */
  predicate FitsScalar(t: Llvm) {
    && (t.IntLlvm? ==> t.bits in [1, 32, 64])
    && (t.FloatLlvm? ==> t.bits in [32, 64])
  }

  predicate KnowsScalars(env: Env) {
    forall name :: name in env.types ==> FitsScalar(env.types[name])
  }

  lemma {:induction false} BaseFitsScalar(ty: Surface)
    ensures BaseType(ty).Some? ==> FitsScalar(BaseType(ty).value)
  {
    if ty.NewtypeOf? {
      BaseFitsScalar(ty.inner);
    }
  }

  /** Whatever a declared type is lowered to, its numbers fit the eight bytes of a scalar result. */
  lemma DeclaredFitsScalar(env: Env, ty: Surface)
    requires KnowsScalars(env)
    ensures FitsScalar(AbiTypeFor(env, ty))
  {
    BaseFitsScalar(ty);
  }

  lemma LoweredFitsScalar(env: Env, def: Definition)
    requires KnowsScalars(env) && Lowered(env, def).Some?
    ensures FitsScalar(Lowered(env, def).value)
  {
    if def.AliasDef? || def.NewtypeDef? {
      DeclaredFitsScalar(env, def.target);
    }
  }

  /** No sequence of declarations brings in a wider number. */
  lemma {:induction false} RegisteringKeepsScalars(actors: set<string>, defs: seq<Definition>, n: nat)
    requires n <= |defs| && EnvAfter(actors, defs, n).Some?
    ensures KnowsScalars(EnvAfter(actors, defs, n).value)
  {
    if n > 0 {
      RegisteringKeepsScalars(actors, defs, n - 1);
      LoweredFitsScalar(EnvAfter(actors, defs, n - 1).value, defs[n - 1]);
    }
  }

  // --- results of declared types ---

  /** The type of the method's result; without a declared one it is an `i64`. */
  function MethodType(env: Env, ret: Option<Surface>): Llvm {
    match ret
    case Some(ty) => AbiTypeFor(env, ty)
    case None => INT64
  }

  /** The type the caller loads; three names are read without asking what is declared. */
  function CallerType(env: Env, ret: Option<Surface>): Llvm {
    match ret
    case None => INT64
    case Some(ty) =>
      if ty.Named? && ty.name == "f64" then FloatLlvm(64)
      else if ty.Named? && ty.name == "i32" then IntLlvm(32)
      else if ty.Named? && ty.name == "bool" then BOOL
      else AbiTypeFor(env, ty)
  }

  predicate LeavesScalarNames(env: Env) {
    forall name :: name in ["f64", "i32", "bool"] ==> name !in env.actors && name !in env.types
  }

  /** Both ends agree on the type. */
  lemma EndsAgree(env: Env, ret: Option<Surface>)
    requires LeavesScalarNames(env)
    ensures CallerType(env, ret) == MethodType(env, ret)
  {
  }

  /** Records and arrays are known by their bytes. */
  function AbiOf(t: Llvm): AbiType {
    match t
    case IntLlvm(bits) => IntType(bits)
    case FloatLlvm(bits) => FloatType(bits)
    case PointerLlvm => PointerType
    case _ => RecordType(SizeBytes(t))
  }

  /** Whether dispatch refuses a result of this type: a record larger than the blob. */
  predicate Refused(t: Llvm) {
    t.StructLlvm? && SizeBytes(t) > CAPACITY
  }

  lemma RefusedExactly(t: Llvm, v: AbiValue)
    requires FitsScalar(t) && !t.ArrayLlvm? && HasType(v, AbiOf(t))
    ensures ResultChunk(v, AbiOf(t)).None? <==> Refused(t)
    ensures !Refused(t) ==> Size(AbiOf(t)) <= CAPACITY && FitsSlot(v)
  {
  }

  /** What the caller gets for a result of type `t`: an array has no arm of its own, so that dispatch stores a zero
      and the caller loads an `i64`. */
  function Answer(t: Llvm, v: AbiValue, stale: seq<Byte>): AbiValue
    requires FitsScalar(t) && HasType(v, AbiOf(t)) && !Refused(t) && |stale| == CAPACITY
  {
    if t.ArrayLlvm? then Load(IntType(64), ToLittleEndian(0, 8) + stale[8..])
    else
      RefusedExactly(t, v);
      Received(v, AbiOf(t), stale)
  }

  /** A result of a declared type reaches the caller whatever its blob held, exactly when the type is not an array. */
  lemma DeclaredResultArrives(env: Env, ret: Option<Surface>, v: AbiValue)
    requires KnowsScalars(env) && LeavesScalarNames(env)
    requires HasType(v, AbiOf(MethodType(env, ret))) && !Refused(MethodType(env, ret))
    ensures CallerType(env, ret) == MethodType(env, ret) && FitsScalar(MethodType(env, ret))
    ensures !MethodType(env, ret).ArrayLlvm?
            <==> forall stale: seq<Byte> :: |stale| == CAPACITY ==> Answer(MethodType(env, ret), v, stale) == v
  {
    EndsAgree(env, ret);
    if ret.Some? {
      DeclaredFitsScalar(env, ret.value);
    }
    ArrivesExactly(MethodType(env, ret), v);
  }

  lemma ArrivesExactly(t: Llvm, v: AbiValue)
    requires FitsScalar(t) && HasType(v, AbiOf(t)) && !Refused(t)
    ensures !t.ArrayLlvm? <==> forall stale: seq<Byte> :: |stale| == CAPACITY ==> Answer(t, v, stale) == v
  {
    if t.ArrayLlvm? {
      var stale := seq(CAPACITY, _ => 0 as Byte);
      assert Answer(t, v, stale) != v;
    } else {
      RefusedExactly(t, v);
      forall stale: seq<Byte> | |stale| == CAPACITY ensures Answer(t, v, stale) == v {
        FittingResultArrives(v, AbiOf(t), stale);
      }
    }
  }

  /** In any program whose declarations leave the three scalar names alone, only arrays and unions are lost. */
  lemma ResultsOfProgramsArrive(actors: set<string>, defs: seq<Definition>, ret: Option<Surface>, v: AbiValue)
    requires EnvAfter(actors, defs, |defs|).Some? && LeavesScalarNames(EnvAfter(actors, defs, |defs|).value)
    requires var t := MethodType(EnvAfter(actors, defs, |defs|).value, ret);
             HasType(v, AbiOf(t)) && !Refused(t) && !t.ArrayLlvm?
    ensures var t := MethodType(EnvAfter(actors, defs, |defs|).value, ret);
            FitsScalar(t) && forall stale: seq<Byte> :: |stale| == CAPACITY ==> Answer(t, v, stale) == v
  {
    RegisteringKeepsScalars(actors, defs, |defs|);
    DeclaredResultArrives(EnvAfter(actors, defs, |defs|).value, ret, v);
  }

  // --- results that do not arrive ---

  /** The bytes of a result have no way back when the caller gets a number. */
  lemma ArrayResultIsLost(t: Llvm, v: AbiValue, stale: seq<Byte>)
    requires t.ArrayLlvm? && HasType(v, AbiOf(t)) && |stale| == CAPACITY
    ensures Answer(t, v, stale) == IntValue(64, 0) != v
  {
    var zero := ToLittleEndian(0, 8);
    assert (zero + stale[8..])[..8] == zero;
    LittleEndianRoundTrip(0, 8);
    LowBitsInRange(0, 64);
  }

  /** The fixed-size array `[i32; 3]`. */
  const THREE_NUMBERS := ArrayOf(Named("i32", []), 3)

  /** A method that returns it answers with twelve bytes, and its caller gets the number zero instead. */
  lemma ArrayIsLost(env: Env, v: AbiValue, stale: seq<Byte>)
    requires |stale| == CAPACITY && v.StructValue? && |v.bytes| == 12
    ensures var t := MethodType(env, Some(THREE_NUMBERS));
            && t == ArrayLlvm(IntLlvm(32), 3) && SizeBytes(t) == 12 && HasType(v, AbiOf(t)) && !Refused(t)
            && Answer(t, v, stale) == IntValue(64, 0) != v
  {
    assert BaseType(Named("i32", [])) == Some(IntLlvm(32));
    ArrayResultIsLost(MethodType(env, Some(THREE_NUMBERS)), v, stale);
  }

  /** A union of a 64-bit number and a string. */
  const NUMBER_OR_TEXT := UnionDef("NumberOrText", [Named("i64", []), Named("string", [])])

  lemma UnionSize(env: Env)
    requires "i64" !in env.actors && "i64" !in env.types && "string" !in env.actors && "string" !in env.types
    ensures Lowered(env, NUMBER_OR_TEXT) == Some(ArrayLlvm(IntLlvm(8), 16))
  {
    var number, text := Named("i64", []), Named("string", []);
    assert DeclaredType(env, number) == Some(INT64);
    assert DeclaredType(env, text) == Some(StructLlvm([PointerLlvm, INT64]));
    TextSize();
    assert [number, text][..1] == [number] && [number][..0] == [];
    assert LargestField(env, [number]) == 8;
  }

  lemma TextSize()
    ensures SizeBytes(StructLlvm([PointerLlvm, INT64])) == 16
  {
    var fields := [PointerLlvm, INT64];
    assert fields[..1] == [PointerLlvm] && fields[..1][..0] == [];
    assert PowerFrom(1, 8) == PowerFrom(2, 8) == PowerFrom(4, 8) == PowerFrom(8, 8) == 8;
    assert FieldsAlign(fields[..1]) == 8 && FieldsEnd(fields[..1]) == 8;
    assert Align(INT64) == 8 && SizeBytes(INT64) == 8;
    assert FieldsAlign(fields) == 8 && FieldsEnd(fields) == RoundedUp(8, 8) + 8 == 16;
  }

  lemma UnionEnv()
    ensures var env := EnvAfter({}, [NUMBER_OR_TEXT], 1);
            && env == Some(Env({}, map["NumberOrText" := ArrayLlvm(IntLlvm(8), 16)])) && LeavesScalarNames(env.value)
            && MethodType(env.value, Some(Named("NumberOrText", []))) == ArrayLlvm(IntLlvm(8), 16)
  {
    UnionSize(Env({}, map[]));
    assert EnvAfter({}, [NUMBER_OR_TEXT], 0) == Some(Env({}, map[]));
  }

  /** A program that declares it and returns it from a method loses its sixteen bytes. */
  lemma UnionIsLost(v: AbiValue, stale: seq<Byte>)
    requires |stale| == CAPACITY && v.StructValue? && |v.bytes| == 16
    ensures var env := EnvAfter({}, [NUMBER_OR_TEXT], 1);
            && env.Some? && LeavesScalarNames(env.value)
            && var t := MethodType(env.value, Some(Named("NumberOrText", [])));
            && t == ArrayLlvm(IntLlvm(8), 16) && HasType(v, AbiOf(t)) && !Refused(t)
            && Answer(t, v, stale) == IntValue(64, 0) != v
  {
    UnionEnv();
    var t := ArrayLlvm(IntLlvm(8), 16);
    assert SizeBytes(t) == 16;
    ArrayResultIsLost(t, v, stale);
  }
}
