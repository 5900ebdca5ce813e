/** Recovery of generic bindings from the argument types of a call (src/codegen/mono_recover.rs). */
module MonoRecover {
  import opened Wrappers
  import opened Ast

  type TypeId = nat

  // Resolved types other than nominal ones are known by their rendered text.
  datatype Resolved = Nominal(item: string, arguments: seq<TypeId>) | OtherResolved(text: string)

  /** The resolved types of a call and the partial conversion of one of them back to a syntax tree. */
  datatype Table = Table(types: map<TypeId, Resolved>, toAst: Resolved -> Option<Type>)

  type Bindings = map<string, Type>

  const BUILTIN := "builtin:type:"

  /** `trim_start_matches`: the prefix is taken off as often as it is there. */
  function Trimmed(item: string): string {
    if BUILTIN <= item then Trimmed(item[|BUILTIN|..]) else item
  }

  predicate EndsWith(s: string, suffix: string) {
    |suffix| <= |s| && s[|s| - |suffix|..] == suffix
  }

  predicate HeadsMatch(item: string, head: string) {
    var found := Trimmed(item);
    found == head || EndsWith(found, "::" + head) || EndsWith(head, found)
  }

  predicate IsGeneric(ty: Type, generics: set<string>) {
    ty.Name? && ty.args == [] && ty.name in generics
  }

  /** The arguments to walk side by side, when the argument type is a nominal type with a matching head. */
  function Paired(ty: Type, id: TypeId, table: Table): (r: Option<seq<TypeId>>)
    ensures r.Some? ==> ty.Name? && |r.value| == |ty.args|
  {
    if !ty.Name? || ty.args == [] || id !in table.types then None
    else match table.types[id]
      case OtherResolved(_) => None
      case Nominal(item, arguments) =>
        if |ty.args| != |arguments| || !HeadsMatch(item, ty.name) then None else Some(arguments)
  }

  function Concrete(id: TypeId, table: Table): Option<Type> {
    if id in table.types then table.toAst(table.types[id]) else None
  }

  /** The first binding of a generic stays. */
  function Bound(binds: Bindings, name: string, ty: Type): Bindings {
    if name in binds then binds else binds[name := ty]
  }

  /** `walk` */
  function Walked(ty: Type, id: TypeId, generics: set<string>, table: Table, binds: Bindings): Bindings
    decreases ty, 1
  {
    if IsGeneric(ty, generics) then
      match Concrete(id, table)
      case None => binds
      case Some(concrete) => Bound(binds, ty.name, concrete)
    else
      match Paired(ty, id, table)
      case None => binds
      case Some(arguments) => WalkedAll(ty.args, arguments, generics, table, binds)
  }

  function WalkedAll(tys: seq<Type>, ids: seq<TypeId>, generics: set<string>, table: Table, binds: Bindings): Bindings
    decreases tys, 0
  {
    if tys == [] || ids == [] then binds
    else WalkedAll(tys[1..], ids[1..], generics, table, Walked(tys[0], ids[0], generics, table, binds))
  }

  // --- the walk as it runs ---

  class Recovery {
    const generics: set<string>
    const table: Table
    var binds: Bindings

    constructor (generics: set<string>, table: Table)
      ensures this.generics == generics && this.table == table && binds == map[]
    {
      this.generics, this.table, binds := generics, table, map[];
    }

    method Walk(ty: Type, id: TypeId)
      modifies this
      ensures binds == Walked(ty, id, generics, table, old(binds))
      decreases ty
    {
      if IsGeneric(ty, generics) {
        var concrete := Concrete(id, table);
        if concrete.Some? && ty.name !in binds {
          binds := binds[ty.name := concrete.value];
        }
        return;
      }
      var arguments := Paired(ty, id, table);
      if arguments.None? {
        return;
      }
      var k := 0;
      while k < |ty.args|
        invariant 0 <= k <= |ty.args|
        invariant WalkedAll(ty.args[k..], arguments.value[k..], generics, table, binds)
          == WalkedAll(ty.args, arguments.value, generics, table, old(binds))
      {
        assert ty.args[k..][1..] == ty.args[k + 1..] && arguments.value[k..][1..] == arguments.value[k + 1..];
        Walk(ty.args[k], arguments.value[k]);
        k := k + 1;
      }
    }
  }

  /** `infer_type_args_from_call_site` */
  method InferTypeArgs(generics: seq<string>, params: seq<Type>, arguments: seq<TypeId>, table: Table)
    returns (binds: Bindings)
    ensures binds == WalkedAll(params, arguments, (set g | g in generics), table, map[])
  {
    var recovery := new Recovery((set g | g in generics), table);
    var k := 0;
    while k < |params| && k < |arguments|
      invariant 0 <= k <= |params| && k <= |arguments| && fresh(recovery)
      invariant WalkedAll(params[k..], arguments[k..], recovery.generics, table, recovery.binds)
        == WalkedAll(params, arguments, recovery.generics, table, map[])
      invariant recovery.generics == set g | g in generics
      invariant recovery.table == table
    {
      assert params[k..][1..] == params[k + 1..] && arguments[k..][1..] == arguments[k + 1..];
      recovery.Walk(params[k], arguments[k]);
      k := k + 1;
    }
    binds := recovery.binds;
  }

  // --- recovering a substitution ---

  /** The generics the walk reaches in a type: those under names all the way down. */
  function Reached(ty: Type, generics: set<string>): set<string>
    decreases ty, 1
  {
    if IsGeneric(ty, generics) then {ty.name}
    else if ty.Name? then ReachedAll(ty.args, generics)
    else {}
  }

  function ReachedAll(tys: seq<Type>, generics: set<string>): set<string>
    decreases tys, 0
  {
    if tys == [] then {} else Reached(tys[0], generics) + ReachedAll(tys[1..], generics)
  }

  /**
    * The argument type is the parameter type with its generics replaced: a generic stands for a type that converts to
    * its replacement, a type with arguments for a nominal type of a matching head whose arguments are instances in
    * turn.
    */
  predicate IsInstance(ty: Type, id: TypeId, generics: set<string>, table: Table, sigma: Bindings)
    decreases ty, 1
  {
    if IsGeneric(ty, generics) then ty.name in sigma && Concrete(id, table) == Some(sigma[ty.name])
    else if ty.Name? && ty.args != [] then
      Paired(ty, id, table).Some? && AreInstances(ty.args, Paired(ty, id, table).value, generics, table, sigma)
    else true
  }

  predicate AreInstances(tys: seq<Type>, ids: seq<TypeId>, generics: set<string>, table: Table, sigma: Bindings)
    decreases tys, 0
  {
    |tys| == |ids|
    && (tys != [] ==> IsInstance(tys[0], ids[0], generics, table, sigma)
                      && AreInstances(tys[1..], ids[1..], generics, table, sigma))
  }

  /** Every binding is the substitution's. */
  predicate Agrees(binds: Bindings, sigma: Bindings) {
    forall g :: g in binds ==> g in sigma && binds[g] == sigma[g]
  }

  lemma {:induction false} WalkRecovers(ty: Type, id: TypeId, generics: set<string>, table: Table, sigma: Bindings,
                                        binds: Bindings)
    requires IsInstance(ty, id, generics, table, sigma) && Agrees(binds, sigma)
    ensures var after := Walked(ty, id, generics, table, binds);
      Agrees(after, sigma) && after.Keys == binds.Keys + Reached(ty, generics)
    decreases ty, 1
  {
    if !IsGeneric(ty, generics) && ty.Name? && ty.args != [] {
      WalkAllRecovers(ty.args, Paired(ty, id, table).value, generics, table, sigma, binds);
    }
  }

  lemma {:induction false} WalkAllRecovers(tys: seq<Type>, ids: seq<TypeId>, generics: set<string>, table: Table,
                                        sigma: Bindings, binds: Bindings)
    requires AreInstances(tys, ids, generics, table, sigma) && Agrees(binds, sigma)
    ensures var after := WalkedAll(tys, ids, generics, table, binds);
      Agrees(after, sigma) && after.Keys == binds.Keys + ReachedAll(tys, generics)
    decreases tys, 0
  {
    if tys != [] {
      WalkRecovers(tys[0], ids[0], generics, table, sigma, binds);
      WalkAllRecovers(tys[1..], ids[1..], generics, table, sigma, Walked(tys[0], ids[0], generics, table, binds));
    }
  }

  /**
    * When the argument types are instances of the parameter types under one substitution, the recovered bindings are
    * that substitution on exactly the generics the walk reaches, whatever the nesting and repetition.
    */
  lemma RecoversSubstitution(generics: set<string>, params: seq<Type>, arguments: seq<TypeId>, table: Table,
                             sigma: Bindings)
    requires AreInstances(params, arguments, generics, table, sigma)
    ensures var binds := WalkedAll(params, arguments, generics, table, map[]);
      && binds.Keys == ReachedAll(params, generics)
      && forall g :: g in binds ==> g in sigma && binds[g] == sigma[g]
  {
    WalkAllRecovers(params, arguments, generics, table, sigma, map[]);
  }

  // --- which heads match ---

  function Repeated(n: nat): string {
    if n == 0 then "" else BUILTIN + Repeated(n - 1)
  }

  /** `found` is what is left of the item once the prefix is taken off as often as it is there. */
  ghost predicate Unprefixed(item: string, found: string) {
    !(BUILTIN <= found) && exists n: nat :: item == Repeated(n) + found
  }

  ghost predicate Suffix(s: string, suffix: string) {
    exists front: string :: s == front + suffix
  }

  lemma {:induction false} PrefixesTakenOff(n: nat, found: string)
    requires !(BUILTIN <= found)
    ensures Trimmed(Repeated(n) + found) == found
  {
    if n > 0 {
      var item := Repeated(n) + found;
      assert item == BUILTIN + (Repeated(n - 1) + found);
      assert item[|BUILTIN|..] == Repeated(n - 1) + found;
      PrefixesTakenOff(n - 1, found);
    }
  }

  lemma {:induction false} TrimmedIsUnprefixed(item: string) returns (n: nat)
    ensures item == Repeated(n) + Trimmed(item) && !(BUILTIN <= Trimmed(item))
  {
    n := 0;
    if BUILTIN <= item {
      var m := TrimmedIsUnprefixed(item[|BUILTIN|..]);
      n := m + 1;
      assert item == BUILTIN + item[|BUILTIN|..];
      assert item == BUILTIN + (Repeated(m) + Trimmed(item));
    }
  }

  lemma SuffixIsExact(s: string, suffix: string)
    ensures EndsWith(s, suffix) <==> Suffix(s, suffix)
  {
    if EndsWith(s, suffix) {
      assert s == s[..|s| - |suffix|] + suffix;
    }
  }

  /** A nominal type has a matching head exactly when its name without the prefix is the head, is qualified and ends in
      it, or is an ending of the head itself. */
  lemma HeadsMatchExactly(item: string, head: string, found: string)
    requires Unprefixed(item, found)
    ensures HeadsMatch(item, head) <==> found == head || Suffix(found, "::" + head) || Suffix(head, found)
  {
    var n: nat :| item == Repeated(n) + found;
    PrefixesTakenOff(n, found);
    SuffixIsExact(found, "::" + head);
    SuffixIsExact(head, found);
  }

  /** The builtin of that name, and every qualified one, has a matching head. */
  lemma NamedHeadsMatch(m: string, head: string)
    ensures HeadsMatch(head, head) && HeadsMatch(BUILTIN + head, head)
    ensures !(BUILTIN <= m + "::" + head) ==> HeadsMatch(m + "::" + head, head)
  {
    var n := TrimmedIsUnprefixed(head);
    SuffixIsExact(head, Trimmed(head));
    assert (BUILTIN + head)[|BUILTIN|..] == head;
    SuffixIsExact(m + "::" + head, "::" + head);
    assert m + "::" + head == m + ("::" + head);
  }

  lemma OneInstance(ty: Type, id: TypeId, generics: set<string>, table: Table, sigma: Bindings)
    requires IsInstance(ty, id, generics, table, sigma)
    ensures AreInstances([ty], [id], generics, table, sigma)
  {
    assert [ty][1..] == [] && [id][1..] == [];
  }

  /** So the element type of such a collection is recovered. */
  lemma ElementIsRecovered(head: string, generic: string, item: string, id: TypeId, element: TypeId, table: Table,
                           concrete: Type)
    requires HeadsMatch(item, head) && id in table.types && table.types[id] == Nominal(item, [element])
    requires Concrete(element, table) == Some(concrete)
    ensures WalkedAll([Name(head, [Plain(generic)])], [id], {generic}, table, map[]) == map[generic := concrete]
  {
    var sigma: Bindings := map[generic := concrete];
    var tys, ids := [Name(head, [Plain(generic)])], [id];
    OneInstance(Plain(generic), element, {generic}, table, sigma);
    OneInstance(tys[0], id, {generic}, table, sigma);
    RecoversSubstitution({generic}, tys, ids, table, sigma);
    assert ReachedAll([Plain(generic)], {generic}) == {generic};
    assert ReachedAll(tys, {generic}) == {generic};
  }

  /** A type of another name matches too, when the head ends in it. */
  lemma EndingsMatch(front: string, item: string)
    requires !(BUILTIN <= item)
    ensures HeadsMatch(item, front + item)
  {
    SuffixIsExact(front + item, item);
  }

  // --- without a substitution ---

  /** The pairs of generic and type that the walk meets, in order. */
  function Met(ty: Type, id: TypeId, generics: set<string>, table: Table): seq<(string, Type)>
    decreases ty, 1
  {
    if IsGeneric(ty, generics) then
      (match Concrete(id, table) case None => [] case Some(concrete) => [(ty.name, concrete)])
    else
      match Paired(ty, id, table)
      case None => []
      case Some(arguments) => MetAll(ty.args, arguments, generics, table)
  }

  function MetAll(tys: seq<Type>, ids: seq<TypeId>, generics: set<string>, table: Table): seq<(string, Type)>
    decreases tys, 0
  {
    if tys == [] || ids == [] then []
    else Met(tys[0], ids[0], generics, table) + MetAll(tys[1..], ids[1..], generics, table)
  }

  /** The first pair for a name. */
  function FirstFor(met: seq<(string, Type)>, name: string): Option<Type> {
    if met == [] then None else if met[0].0 == name then Some(met[0].1) else FirstFor(met[1..], name)
  }

  function Get(binds: Bindings, name: string): Option<Type> {
    if name in binds then Some(binds[name]) else None
  }

  function OrElse(first: Option<Type>, second: Option<Type>): Option<Type> {
    if first.Some? then first else second
  }

  lemma {:induction false} FirstForAppend(a: seq<(string, Type)>, b: seq<(string, Type)>, name: string)
    ensures FirstFor(a + b, name) == OrElse(FirstFor(a, name), FirstFor(b, name))
  {
    if a == [] {
      assert a + b == b;
    } else {
      assert (a + b)[1..] == a[1..] + b;
      FirstForAppend(a[1..], b, name);
    }
  }

  lemma {:induction false} WalkKeepsFirst(ty: Type, id: TypeId, generics: set<string>, table: Table, binds: Bindings,
                                        name: string)
    ensures Get(Walked(ty, id, generics, table, binds), name)
      == OrElse(Get(binds, name), FirstFor(Met(ty, id, generics, table), name))
    decreases ty, 1
  {
    if !IsGeneric(ty, generics) && Paired(ty, id, table).Some? {
      WalkAllKeepsFirst(ty.args, Paired(ty, id, table).value, generics, table, binds, name);
    }
  }

  /** For any argument types at all: each generic is bound to the type of its first occurrence that matches. */
  lemma {:induction false} WalkAllKeepsFirst(tys: seq<Type>, ids: seq<TypeId>, generics: set<string>, table: Table,
                                        binds: Bindings, name: string)
    ensures Get(WalkedAll(tys, ids, generics, table, binds), name)
      == OrElse(Get(binds, name), FirstFor(MetAll(tys, ids, generics, table), name))
    decreases tys, 0
  {
    if tys != [] && ids != [] {
      WalkKeepsFirst(tys[0], ids[0], generics, table, binds, name);
      WalkAllKeepsFirst(tys[1..], ids[1..], generics, table, Walked(tys[0], ids[0], generics, table, binds), name);
      FirstForAppend(Met(tys[0], ids[0], generics, table), MetAll(tys[1..], ids[1..], generics, table), name);
    }
  }
}
