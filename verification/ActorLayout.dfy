/** Sizes and alignments of lowered types are those of the natural layout (src/codegen/mod.rs). */
module ActorLayout {
  import opened ActorAbi
  import opened ActorLowering

  ghost function Sizes(fields: seq<Llvm>): seq<nat> {
    seq(|fields|, k requires 0 <= k < |fields| => SizeBytes(fields[k]))
  }

  ghost function Aligns(fields: seq<Llvm>): seq<nat> {
    seq(|fields|, k requires 0 <= k < |fields| => Align(fields[k]))
  }

  /** Where the part before the `k`-th ends; nothing precedes the first one. */
  ghost function EndOf(sizes: seq<nat>, at: seq<nat>, k: nat): nat
    requires |at| == |sizes| && k <= |sizes|
  {
    if k == 0 then 0 else at[k - 1] + sizes[k - 1]
  }

  ghost predicate StandsNaturally(sizes: seq<nat>, aligns: seq<nat>, at: seq<nat>, k: nat)
    requires |sizes| == |aligns| == |at| && k < |sizes|
  {
    FirstMultiple(at[k], aligns[k], EndOf(sizes, at, k))
  }

  /** Every part stands at the first multiple of its alignment behind the part before it. */
  ghost predicate Natural(sizes: seq<nat>, aligns: seq<nat>, at: seq<nat>) {
    |sizes| == |aligns| == |at| && forall k :: 0 <= k < |sizes| ==> StandsNaturally(sizes, aligns, at, k)
  }

  ghost predicate FirstMultiple(n: nat, align: nat, from: nat) {
    align > 0 && n % align == 0 && from <= n < from + align
  }

  ghost predicate PowerOfTwo(n: nat) {
    n == 1 || (n > 1 && n % 2 == 0 && PowerOfTwo(n / 2))
  }

  lemma RoundedUpIsFirst(n: nat, align: nat)
    requires align > 0
    ensures FirstMultiple(RoundedUp(n, align), align, n)
  {
    var q := (n + align - 1) / align;
    assert n + align - 1 == q * align + (n + align - 1) % align;
    MultipleHasNoRest(q, align);
  }

  lemma MultipleHasNoRest(q: nat, align: nat)
    requires align > 0
    ensures q * align % align == 0
  {
    DivisionIsUnique(q * align, align, q, 0);
  }

  /** Only one number is the first multiple from a place on. */
  lemma FirstMultipleIsOne(m: nat, n: nat, align: nat, from: nat)
    requires align > 0 && FirstMultiple(m, align, from) && FirstMultiple(n, align, from)
    ensures m == n
  {
    assert align * (m / align - n / align) == m - n;
    MultipleIsFar(align, m / align - n / align);
  }

  lemma {:induction false} PowerFromIsPower(p: nat, n: nat)
    requires PowerOfTwo(p)
    ensures PowerOfTwo(PowerFrom(p, n)) && PowerFrom(p, n) >= n
    ensures PowerFrom(p, n) == p || PowerFrom(p, n) < 2 * n
    decreases n - p
  {
    if p < n {
      assert 2 * p / 2 == p;
      PowerFromIsPower(2 * p, n);
    }
  }

  lemma {:induction false} PowersDivide(a: nat, b: nat)
    requires PowerOfTwo(a) && PowerOfTwo(b) && a <= b
    ensures b % a == 0
  {
    if a > 1 {
      PowersDivide(a / 2, b / 2);
      var half, k := a / 2, b / 2 / (a / 2);
      assert b / 2 == k * half;
      assert b == k * a;
      MultipleHasNoRest(k, a);
    }
  }

  /** Alignments are powers of two, and that of a number is the first one its bytes fit in. */
  lemma {:induction false} AlignIsPower(t: Llvm)
    ensures PowerOfTwo(Align(t))
    ensures t.IntLlvm? || t.FloatLlvm? ==>
              SizeBytes(t) <= Align(t) && (Align(t) == 1 || Align(t) < 2 * SizeBytes(t))
              && 8 * SizeBytes(t) - 7 <= t.bits <= 8 * SizeBytes(t)
  {
    match t
    case IntLlvm(bits) => PowerFromIsPower(1, (bits + 7) / 8);
    case FloatLlvm(bits) => PowerFromIsPower(1, (bits + 7) / 8);
    case PointerLlvm => assert PowerOfTwo(1) && PowerOfTwo(2) && PowerOfTwo(4) && PowerOfTwo(8);
    case ArrayLlvm(element, _) => AlignIsPower(element);
    case StructLlvm(fields) => FieldsAlignIsLargest(fields);
  }

  /** The alignment of a struct is the largest of its fields, which all divide it. */
  lemma {:induction false} FieldsAlignIsLargest(fields: seq<Llvm>)
    ensures PowerOfTwo(FieldsAlign(fields))
    ensures forall k :: 0 <= k < |fields| ==> FieldsAlign(fields) % Align(fields[k]) == 0
    ensures FieldsAlign(fields) == 1 || exists k :: 0 <= k < |fields| && FieldsAlign(fields) == Align(fields[k])
  {
    if fields != [] {
      var n := |fields| - 1;
      FieldsAlignIsLargest(fields[..n]);
      AlignIsPower(fields[n]);
      if FieldsAlign(fields) == FieldsAlign(fields[..n]) != 1 {
        var k :| 0 <= k < n && FieldsAlign(fields[..n]) == Align(fields[..n][k]);
        assert fields[k] == fields[..n][k];
      }
      forall k | 0 <= k < |fields|
        ensures FieldsAlign(fields) % Align(fields[k]) == 0
      {
        AlignIsPower(fields[k]);
        if k < n {
          assert fields[..n][k] == fields[k];
          DivisorIsSmaller(FieldsAlign(fields[..n]), Align(fields[k]));
        }
        PowersDivide(Align(fields[k]), FieldsAlign(fields));
      }
    }
  }

  lemma DivisorIsSmaller(n: nat, d: nat)
    requires n > 0 && d > 0 && n % d == 0
    ensures d <= n
  {
  }

  lemma NaturalPrefix(sizes: seq<nat>, aligns: seq<nat>, at: seq<nat>, n: nat)
    requires Natural(sizes, aligns, at) && n <= |sizes|
    ensures Natural(sizes[..n], aligns[..n], at[..n])
    ensures EndOf(sizes[..n], at[..n], n) == EndOf(sizes, at, n)
  {
    forall k | 0 <= k < n
      ensures StandsNaturally(sizes[..n], aligns[..n], at[..n], k)
    {
      assert StandsNaturally(sizes, aligns, at, k);
      assert EndOf(sizes[..n], at[..n], k) == EndOf(sizes, at, k);
    }
  }

  lemma {:induction false} FieldsEndWhereTheyStand(fields: seq<Llvm>, at: seq<nat>)
    requires Natural(Sizes(fields), Aligns(fields), at)
    ensures FieldsEnd(fields) == EndOf(Sizes(fields), at, |fields|)
  {
    if fields != [] {
      var n := |fields| - 1;
      var end := EndOf(Sizes(fields), at, n);
      NaturalPrefix(Sizes(fields), Aligns(fields), at, n);
      assert Sizes(fields)[..n] == Sizes(fields[..n]) && Aligns(fields)[..n] == Aligns(fields[..n]);
      FieldsEndWhereTheyStand(fields[..n], at[..n]);
      assert FieldsEnd(fields[..n]) == end;
      RoundedUpIsFirst(end, Align(fields[n]));
      assert StandsNaturally(Sizes(fields), Aligns(fields), at, n);
      FirstMultipleIsOne(at[n], RoundedUp(end, Align(fields[n])), Align(fields[n]), end);
    }
  }

  /** The size of a struct is the first multiple of its alignment behind its fields, each laid out naturally; the
      alignment is a multiple of every field's, so that copies of it in a row are aligned too. */
  lemma StructIsItsLayout(fields: seq<Llvm>, at: seq<nat>)
    requires Natural(Sizes(fields), Aligns(fields), at)
    ensures FirstMultiple(SizeBytes(StructLlvm(fields)), Align(StructLlvm(fields)), EndOf(Sizes(fields), at, |fields|))
    ensures forall k :: 0 <= k < |fields| ==> Align(StructLlvm(fields)) % Align(fields[k]) == 0
    ensures Align(StructLlvm(fields)) == 1
            || exists k :: 0 <= k < |fields| && Align(StructLlvm(fields)) == Align(fields[k])
  {
    FieldsAlignIsLargest(fields);
    FieldsEndWhereTheyStand(fields, at);
    RoundedUpIsFirst(FieldsEnd(fields), FieldsAlign(fields));
  }

  /** Every part ends before the later ones start, and before the end. */
  lemma {:induction false} PartsAreApart(sizes: seq<nat>, aligns: seq<nat>, at: seq<nat>, j: nat, k: nat)
    requires Natural(sizes, aligns, at) && j < k <= |sizes|
    ensures at[j] + sizes[j] <= EndOf(sizes, at, k)
    ensures k < |sizes| ==> at[j] + sizes[j] <= at[k]
  {
    if j < k - 1 {
      PartsAreApart(sizes, aligns, at, j, k - 1);
    }
    if k < |sizes| {
      assert StandsNaturally(sizes, aligns, at, k);
    }
  }

  /** There is such a layout. */
  lemma {:induction false} LayoutExists(sizes: seq<nat>, aligns: seq<nat>) returns (at: seq<nat>)
    requires |sizes| == |aligns| && forall k :: 0 <= k < |aligns| ==> aligns[k] > 0
    ensures Natural(sizes, aligns, at)
  {
    at := [];
    if sizes != [] {
      var n := |sizes| - 1;
      var before := LayoutExists(sizes[..n], aligns[..n]);
      var end := EndOf(sizes[..n], before, n);
      at := before + [RoundedUp(end, aligns[n])];
      RoundedUpIsFirst(end, aligns[n]);
      forall k | 0 <= k < |sizes|
        ensures StandsNaturally(sizes, aligns, at, k)
      {
        assert EndOf(sizes, at, k) == EndOf(sizes[..n], before, k);
        if k < n {
          assert StandsNaturally(sizes[..n], aligns[..n], before, k);
        }
      }
    }
  }
}
