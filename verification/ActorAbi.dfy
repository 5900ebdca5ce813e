/** Packing actor calls into mailbox blobs and back (src/codegen/actors.rs). */
module ActorAbi {
  import opened Wrappers
  import opened Bytes

  const CAPACITY: nat := 256

  // --- types and values ---

  // The layout of a record is known by its size alone; a string is a pointer and a length.
  datatype AbiType =
    | IntType(bits: nat)
    | FloatType(bits: nat)
    | PointerType
    | StringType
    | RecordType(size: nat)

  // Numbers are bit patterns.
  datatype AbiValue =
    | IntValue(bits: nat, pattern: nat)
    | FloatValue(bits: nat, pattern: nat)
    | PointerValue(address: nat)
    | StructValue(bytes: seq<Byte>)

  /** `llvm_type_size_bytes` */
  function Size(ty: AbiType): nat {
    match ty
    case IntType(bits) => (bits + 7) / 8
    case FloatType(bits) => (bits + 7) / 8
    case PointerType => 8
    case StringType => 16
    case RecordType(size) => size
  }

  /** `actor_abi_slot_size` */
  function SlotSize(ty: AbiType): nat {
    var size := if Size(ty) < 1 then 1 else Size(ty);
    (size + 7) / 8 * 8
  }

  function Power2(k: nat): (p: nat)
    ensures p > 0
  {
    if k == 0 then 1 else 2 * Power2(k - 1)
  }

  /** The `k` low bits of a number. */
  function LowBits(n: nat, k: nat): nat {
    if k == 0 then 0 else n % 2 + 2 * LowBits(n / 2, k - 1)
  }

  predicate HasType(v: AbiValue, ty: AbiType) {
    match ty
    case IntType(bits) => v.IntValue? && v.bits == bits && bits > 0 && v.pattern < Power2(bits)
    case FloatType(bits) => v.FloatValue? && v.bits == bits && bits > 0 && v.pattern < Power2(bits)
    case PointerType => v.PointerValue? && v.address < Power2(64)
    case StringType => v.StructValue? && |v.bytes| == 16
    case RecordType(size) => v.StructValue? && |v.bytes| == size
  }

  /** The bytes a store of the value writes, on a little-endian target. */
  function Stored(v: AbiValue): seq<Byte> {
    match v
    case IntValue(bits, pattern) => ToLittleEndian(pattern, (bits + 7) / 8)
    case FloatValue(bits, pattern) => ToLittleEndian(pattern, (bits + 7) / 8)
    case PointerValue(address) => ToLittleEndian(address, 8)
    case StructValue(bytes) => bytes
  }

  /** A load of a declared type from the front of some bytes. */
  function Load(ty: AbiType, bytes: seq<Byte>): AbiValue
    requires |bytes| >= Size(ty)
  {
    var front := bytes[..Size(ty)];
    match ty
    case IntType(bits) => IntValue(bits, LowBits(FromLittleEndian(front), bits))
    case FloatType(bits) => FloatValue(bits, LowBits(FromLittleEndian(front), bits))
    case PointerType => PointerValue(FromLittleEndian(front))
    case StringType => StructValue(front)
    case RecordType(_) => StructValue(front)
  }

  // --- integer widths ---

  function SignExtended(bits: nat, pattern: nat, width: nat): nat
    requires 0 < bits <= width && pattern < Power2(bits)
  {
    PowersGrow(bits, width);
    if pattern >= Power2(bits - 1) then pattern + Power2(width) - Power2(bits) else pattern
  }

  /** A narrow integer is widened, one bit wide without its sign; a wide one is cut. */
  function Resized(bits: nat, pattern: nat, width: nat): nat
    requires 0 < bits && pattern < Power2(bits)
  {
    if bits < width then (if bits == 1 then pattern else SignExtended(bits, pattern, width))
    else if bits > width then LowBits(pattern, width)
    else pattern
  }

  /** The two's-complement reading of a bit pattern. */
  function Signed(bits: nat, pattern: nat): int
    requires bits > 0
  {
    if pattern >= Power2(bits - 1) then pattern - Power2(bits) else pattern
  }

  lemma {:induction false} PowersGrow(a: nat, b: nat)
    requires a <= b
    ensures Power2(a) <= Power2(b)
    ensures a < b ==> 2 * Power2(a) <= Power2(b)
    decreases b
  {
    if a < b {
      PowersGrow(a, b - 1);
    }
  }

  lemma {:induction false} LowBitsInRange(n: nat, k: nat)
    ensures LowBits(n, k) < Power2(k)
    ensures n < Power2(k) ==> LowBits(n, k) == n
  {
    if k > 0 {
      LowBitsInRange(n / 2, k - 1);
    }
  }

  lemma {:induction false} LowBitsTwice(n: nat, a: nat, b: nat)
    requires b <= a
    ensures LowBits(LowBits(n, a), b) == LowBits(n, b)
  {
    if b > 0 {
      LowBitsTwice(n / 2, a - 1, b - 1);
    }
  }

  // Whole multiples of 2^bits above a number do not show in its low bits.
  lemma {:induction false} HighBitsDropOut(n: nat, bits: nat, width: nat)
    requires bits <= width
    ensures Power2(width) >= Power2(bits)
    ensures LowBits(n + (Power2(width) - Power2(bits)), bits) == LowBits(n, bits)
    decreases bits
  {
    PowersGrow(bits, width);
    if bits > 0 {
      HighBitsDropOut(n / 2, bits - 1, width - 1);
      var high := Power2(width - 1) - Power2(bits - 1);
      assert n + (Power2(width) - Power2(bits)) == n + 2 * high;
      assert (n + 2 * high) / 2 == n / 2 + high && (n + 2 * high) % 2 == n % 2;
    }
  }

  /** Widening keeps the signed number, and the bits it came from are its low bits. */
  lemma WideningKeepsNumber(bits: nat, pattern: nat, width: nat)
    requires 1 < bits <= width && pattern < Power2(bits)
    ensures SignExtended(bits, pattern, width) < Power2(width)
    ensures Signed(width, SignExtended(bits, pattern, width)) == Signed(bits, pattern)
    ensures LowBits(SignExtended(bits, pattern, width), bits) == pattern
  {
    PowersGrow(bits, width);
    PowersGrow(bits - 1, width - 1);
    assert Power2(bits) == 2 * Power2(bits - 1);
    assert Power2(width) == 2 * Power2(width - 1);
    LowBitsInRange(pattern, bits);
    HighBitsDropOut(pattern, bits, width);
  }

  lemma {:induction false} BytesHoldBits(k: nat)
    ensures Power256(k) == Power2(8 * k)
  {
    if k > 0 {
      BytesHoldBits(k - 1);
      EightDoublings(8 * (k - 1));
    }
  }

  lemma EightDoublings(k: nat)
    ensures Power2(k + 8) == 256 * Power2(k)
  {
    assert Power2(k + 8) == 2 * Power2(k + 7) && Power2(k + 7) == 2 * Power2(k + 6);
    assert Power2(k + 6) == 2 * Power2(k + 5) && Power2(k + 5) == 2 * Power2(k + 4);
    assert Power2(k + 4) == 2 * Power2(k + 3) && Power2(k + 3) == 2 * Power2(k + 2);
    assert Power2(k + 2) == 2 * Power2(k + 1);
  }

  lemma {:induction false} LowBytesAreLowBits(n: nat, k: nat)
    ensures LowBytes(n, k) == LowBits(n, 8 * k)
  {
    if k > 0 {
      LowBytesAreLowBits(n / 256, k - 1);
      EightLowBits(n, 8 * (k - 1));
    }
  }

  lemma EightLowBits(n: nat, k: nat)
    ensures LowBits(n, k + 8) == n % 256 + 256 * LowBits(n / 256, k)
  {
    FourLowBits(n, k + 4);
    FourLowBits(n / 16, k);
    assert n / 16 / 16 == n / 256 && n % 16 + 16 * (n / 16 % 16) == n % 256;
  }

  lemma FourLowBits(n: nat, k: nat)
    ensures LowBits(n, k + 4) == n % 16 + 16 * LowBits(n / 16, k)
  {
    assert LowBits(n, k + 4) == n % 2 + 2 * LowBits(n / 2, k + 3);
    assert LowBits(n / 2, k + 3) == n / 2 % 2 + 2 * LowBits(n / 4, k + 2);
    assert LowBits(n / 4, k + 2) == n / 4 % 2 + 2 * LowBits(n / 8, k + 1);
    assert LowBits(n / 8, k + 1) == n / 8 % 2 + 2 * LowBits(n / 16, k);
  }

  // --- one value through memory ---

  lemma BitsFit(bits: nat, pattern: nat)
    requires pattern < Power2(bits)
    ensures pattern < Power256((bits + 7) / 8)
  {
    BytesHoldBits((bits + 7) / 8);
    PowersGrow(bits, 8 * ((bits + 7) / 8));
  }

  /** Loading a stored value by its own type gives it back, whatever follows it. */
  lemma StoreThenLoad(v: AbiValue, ty: AbiType, bytes: seq<Byte>)
    requires HasType(v, ty) && |bytes| >= Size(ty)
    requires bytes[..Size(ty)] == Stored(v)
    ensures Load(ty, bytes) == v
  {
    match ty
    case IntType(bits) =>
      BitsFit(bits, v.pattern);
      LittleEndianRoundTrip(v.pattern, (bits + 7) / 8);
      LowBitsInRange(v.pattern, bits);
    case FloatType(bits) =>
      BitsFit(bits, v.pattern);
      LittleEndianRoundTrip(v.pattern, (bits + 7) / 8);
      LowBitsInRange(v.pattern, bits);
    case PointerType =>
      BytesHoldBits(8);
      LittleEndianRoundTrip(v.address, 8);
    case StringType =>
    case RecordType(_) =>
  }

  lemma StoredHasSize(v: AbiValue, ty: AbiType)
    requires HasType(v, ty)
    ensures |Stored(v)| == Size(ty) <= SlotSize(ty)
  {
  }

  // --- arguments ---

  /** What the caller's memory holds: the string a C pointer stands for, and the record at an address. */
  datatype Memory = Memory(wrap: nat -> seq<Byte>, record: (nat, nat) -> seq<Byte>)

  ghost predicate Sane(m: Memory) {
    (forall address :: |m.wrap(address)| == 16) && (forall address, size :: |m.record(address, size)| == size)
  }

  /** The value that is stored for an argument of a declared type. */
  function Converted(arg: AbiValue, ty: AbiType, m: Memory): AbiValue
    requires arg.IntValue? ==> arg.bits > 0 && arg.pattern < Power2(arg.bits)
  {
    match (arg, ty)
    case (IntValue(bits, pattern), IntType(width)) => IntValue(width, Resized(bits, pattern, width))
    case (PointerValue(address), StringType) => StructValue(m.wrap(address))
    case (PointerValue(address), RecordType(size)) => StructValue(m.record(address, size))
    case (IntValue(bits, pattern), _) =>
      if bits < 64 then IntValue(64, Resized(bits, pattern, 64)) else arg
    case _ => arg
  }

  /** The arguments a checked call passes: integers of any width, records by value or by address. */
  predicate Passes(arg: AbiValue, ty: AbiType) {
    match ty
    case IntType(bits) => bits > 0 && arg.IntValue? && arg.bits > 0 && arg.pattern < Power2(arg.bits)
    case FloatType(_) => HasType(arg, ty)
    case PointerType => HasType(arg, ty)
    case StringType => arg.StructValue? || arg.PointerValue?
    case RecordType(_) => arg.StructValue? || arg.PointerValue?
  }

  /** A record passed by value has its declared size. */
  predicate Fits(arg: AbiValue, ty: AbiType) {
    Passes(arg, ty) && (arg.StructValue? ==> |arg.bytes| == Size(ty))
  }

  predicate AllPass(args: seq<AbiValue>, params: seq<AbiType>) {
    |args| == |params| && forall i :: 0 <= i < |args| ==> Passes(args[i], params[i])
  }

  predicate AllFit(args: seq<AbiValue>, params: seq<AbiType>) {
    |args| == |params| && forall i :: 0 <= i < |args| ==> Fits(args[i], params[i])
  }

  function ConvertedAll(args: seq<AbiValue>, params: seq<AbiType>, m: Memory): (r: seq<AbiValue>)
    requires AllPass(args, params)
    ensures |r| == |params|
  {
    seq(|args|, i requires 0 <= i < |args| => assert Passes(args[i], params[i]); Converted(args[i], params[i], m))
  }

  lemma ConvertedHasType(arg: AbiValue, ty: AbiType, m: Memory)
    requires Sane(m) && Fits(arg, ty)
    ensures HasType(Converted(arg, ty, m), ty)
    ensures HasType(arg, ty) ==> Converted(arg, ty, m) == arg
  {
    if ty.IntType? {
      var bits, width := arg.bits, ty.bits;
      if bits < width {
        PowersGrow(bits, width);
        if bits > 1 {
          WideningKeepsNumber(bits, arg.pattern, width);
        }
      } else {
        LowBitsInRange(arg.pattern, width);
      }
    }
  }

  /**
    * What a parameter of a declared type makes of an argument: a number keeps its value when it is widened, one bit
    * counting as zero or one, and is taken modulo two to the declared width when it is narrowed; a pointer stands for
    * its string or record where one is declared; everything else is passed as it is.
    */
  ghost predicate StandsFor(arg: AbiValue, ty: AbiType, m: Memory, got: AbiValue) {
    match (arg, ty)
    case (IntValue(bits, pattern), IntType(width)) =>
      && got.IntValue? && got.bits == width && got.pattern < Power2(width) && bits > 0 && width > 0
      && (if bits > width then got.pattern == pattern % Power2(width)
          else if bits == 1 then got.pattern == pattern
          else Signed(width, got.pattern) == Signed(bits, pattern))
    case (PointerValue(address), StringType) => got == StructValue(m.wrap(address))
    case (PointerValue(address), RecordType(size)) => got == StructValue(m.record(address, size))
    case _ => got == arg
  }

  lemma {:induction false} LowBitsAreRemainder(n: nat, k: nat)
    ensures LowBits(n, k) == n % Power2(k)
  {
    if k > 0 {
      LowBitsAreRemainder(n / 2, k - 1);
      HalvedRemainder(n, Power2(k - 1));
    }
  }

  lemma HalvedRemainder(n: nat, p: nat)
    requires p > 0
    ensures n % (2 * p) == n % 2 + 2 * (n / 2 % p)
  {
    var q, r := n / 2 / p, n / 2 % p;
    assert n / 2 == p * q + r;
    assert n == 2 * (n / 2) + n % 2;
    assert n == (2 * p) * q + (2 * r + n % 2);
    DivisionIsUnique(n, 2 * p, q, 2 * r + n % 2);
  }

  lemma {:induction false} MultipleIsFar(d: nat, k: int)
    ensures k >= 1 ==> d * k >= d
    ensures k <= -1 ==> d * k + d <= 0
    decreases if k < 0 then -k else k
  {
    if k > 1 {
      MultipleIsFar(d, k - 1);
      assert d * k == d * (k - 1) + d;
    } else if k < -1 {
      MultipleIsFar(d, k + 1);
      assert d * k + d == d * (k + 1);
    }
  }

  lemma DivisionIsUnique(n: nat, d: nat, q: nat, r: nat)
    requires n == d * q + r && r < d
    ensures n / d == q && n % d == r
  {
    var a, b := n / d, n % d;
    assert n == d * a + b;
    assert d * (a - q) == d * a - d * q;
    MultipleIsFar(d, a - q);
  }

  /** What is stored for an argument is what its declared type makes of it. */
  lemma ConvertedStandsFor(arg: AbiValue, ty: AbiType, m: Memory)
    requires Fits(arg, ty)
    ensures StandsFor(arg, ty, m, Converted(arg, ty, m))
  {
    if ty.IntType? {
      var bits, width := arg.bits, ty.bits;
      PowersGrow(if bits < width then bits else width, width);
      LowBitsInRange(arg.pattern, width);
      LowBitsAreRemainder(arg.pattern, width);
      if 1 < bits <= width {
        WideningKeepsNumber(bits, arg.pattern, width);
      }
    }
  }

  /** A number that the declared type can hold arrives as the same number, whatever width it had. */
  lemma FittingNumberIsKept(bits: nat, pattern: nat, width: nat, m: Memory, got: AbiValue)
    requires bits > 1 && width > 0 && pattern < Power2(bits)
    requires -(Power2(width - 1) as int) <= Signed(bits, pattern) < Power2(width - 1)
    requires StandsFor(IntValue(bits, pattern), IntType(width), m, got)
    ensures got.IntValue? && got.bits == width && Signed(width, got.pattern) == Signed(bits, pattern)
  {
    if bits > width {
      var p := Power2(width);
      PowersGrow(width, bits);
      DoublingDivides(width, bits);
      if pattern >= Power2(bits - 1) {
        var k := Power2(bits) / p;
        assert pattern == p * (k - 1) + (pattern - Power2(bits) + p);
        DivisionIsUnique(pattern, p, k - 1, pattern - Power2(bits) + p);
      } else {
        DivisionIsUnique(pattern, p, 0, pattern);
      }
    }
  }

  lemma {:induction false} DoublingDivides(width: nat, bits: nat)
    requires width <= bits
    ensures Power2(bits) == Power2(width) * (Power2(bits) / Power2(width)) && Power2(bits) / Power2(width) > 0
    decreases bits
  {
    var p := Power2(width);
    if width < bits {
      DoublingDivides(width, bits - 1);
      var k := Power2(bits - 1) / p;
      assert Power2(bits) == p * (2 * k) + 0;
      DivisionIsUnique(Power2(bits), p, 2 * k, 0);
    }
  }

  // --- slots ---

  function Slots(params: seq<AbiType>): (slots: seq<nat>)
    ensures |slots| == |params|
  {
    seq(|params|, i requires 0 <= i < |params| => SlotSize(params[i]))
  }

  /** The bytes that the first `i` slots take. */
  function Offset(slots: seq<nat>, i: nat): nat
    requires i <= |slots|
  {
    if i == 0 then 0 else Offset(slots, i - 1) + slots[i - 1]
  }

  function Total(slots: seq<nat>): nat {
    Offset(slots, |slots|)
  }

  lemma {:induction false} OffsetsGrow(slots: seq<nat>, i: nat, j: nat)
    requires i <= j <= |slots|
    ensures Offset(slots, i) <= Offset(slots, j)
    decreases j
  {
    if i < j {
      OffsetsGrow(slots, i, j - 1);
    }
  }

  lemma SlotHoldsItsType(ty: AbiType)
    ensures Size(ty) <= SlotSize(ty) && SlotSize(ty) % 8 == 0 && SlotSize(ty) >= 8
    ensures SlotSize(ty) == 8 || SlotSize(ty) < Size(ty) + 8
  {
  }

  lemma {:induction false} OffsetsAreAligned(params: seq<AbiType>, i: nat)
    requires i <= |params|
    ensures Offset(Slots(params), i) % 8 == 0
  {
    if i > 0 {
      OffsetsAreAligned(params, i - 1);
      SlotHoldsItsType(params[i - 1]);
    }
  }

  /** Slots are 8-aligned, lie one after the other, and hold their value within the total. */
  lemma SlotsAreAlignedAndDisjoint(params: seq<AbiType>, i: nat, j: nat)
    requires i < j < |params|
    ensures var slots := Slots(params);
      && Offset(slots, i) % 8 == 0 && Offset(slots, j) % 8 == 0
      && Offset(slots, i) + Size(params[i]) <= Offset(slots, i + 1) <= Offset(slots, j)
      && Offset(slots, j) + Size(params[j]) <= Total(slots)
  {
    var slots := Slots(params);
    OffsetsAreAligned(params, i);
    OffsetsAreAligned(params, j);
    SlotHoldsItsType(params[i]);
    SlotHoldsItsType(params[j]);
    OffsetsGrow(slots, i + 1, j);
    OffsetsGrow(slots, j + 1, |slots|);
  }

  // --- packing and unpacking ---

  function Written(blob: seq<Byte>, at: nat, bytes: seq<Byte>): (r: seq<Byte>)
    requires at + |bytes| <= |blob|
    ensures |r| == |blob|
  {
    blob[..at] + bytes + blob[at + |bytes|..]
  }

  /** The first `n` chunks are no larger than their slots. */
  predicate InSlots(chunks: seq<seq<Byte>>, slots: seq<nat>, n: nat) {
    n <= |slots| == |chunks| && forall i :: 0 <= i < n ==> |chunks[i]| <= slots[i]
  }

  /** A blob with the first `n` chunks written at the start of their slots. */
  function Packed(blob: seq<Byte>, chunks: seq<seq<Byte>>, slots: seq<nat>, n: nat): (r: seq<Byte>)
    requires InSlots(chunks, slots, n) && Offset(slots, n) <= |blob|
    ensures |r| == |blob|
  {
    if n == 0 then blob
    else Written(Packed(blob, chunks, slots, n - 1), Offset(slots, n - 1), chunks[n - 1])
  }

  /** Each packed chunk lies in its slot, undisturbed by the later ones. */
  lemma {:induction false} PackedSlot(blob: seq<Byte>, chunks: seq<seq<Byte>>, slots: seq<nat>, n: nat, i: nat)
    requires InSlots(chunks, slots, n) && i < n && Offset(slots, n) <= |blob|
    ensures Offset(slots, i) + |chunks[i]| <= |blob|
    ensures Packed(blob, chunks, slots, n)[Offset(slots, i)..Offset(slots, i) + |chunks[i]|] == chunks[i]
    decreases n
  {
    OffsetsGrow(slots, i + 1, n);
    if i < n - 1 {
      OffsetsGrow(slots, i + 1, n - 1);
      PackedSlot(blob, chunks, slots, n - 1, i);
      WrittenBehind(Packed(blob, chunks, slots, n - 1), Offset(slots, n - 1), chunks[n - 1],
                    Offset(slots, i), Offset(slots, i) + |chunks[i]|);
    } else {
      WrittenHere(Packed(blob, chunks, slots, n - 1), Offset(slots, i), chunks[i]);
    }
  }

  lemma WrittenHere(blob: seq<Byte>, at: nat, bytes: seq<Byte>)
    requires at + |bytes| <= |blob|
    ensures Written(blob, at, bytes)[at..at + |bytes|] == bytes
  {
  }

  lemma WrittenBehind(blob: seq<Byte>, at: nat, bytes: seq<Byte>, lo: nat, hi: nat)
    requires lo <= hi <= at && at + |bytes| <= |blob|
    ensures Written(blob, at, bytes)[lo..hi] == blob[lo..hi]
  {
  }

  predicate Typed(values: seq<AbiValue>, params: seq<AbiType>) {
    |values| == |params| && forall i :: 0 <= i < |values| ==> HasType(values[i], params[i])
  }

  /** The bytes stored for each argument. */
  function Chunks(values: seq<AbiValue>): seq<seq<Byte>> {
    seq(|values|, i requires 0 <= i < |values| => Stored(values[i]))
  }

  lemma TypedChunksFit(values: seq<AbiValue>, params: seq<AbiType>)
    requires Typed(values, params)
    ensures InSlots(Chunks(values), Slots(params), |params|)
  {
    forall i | 0 <= i < |values| ensures |Chunks(values)[i]| <= Slots(params)[i] {
      StoredHasSize(values[i], params[i]);
    }
  }

  lemma SlotInside(params: seq<AbiType>, i: nat)
    requires i < |params|
    ensures Offset(Slots(params), i) + Size(params[i]) <= Total(Slots(params))
  {
    SlotHoldsItsType(params[i]);
    OffsetsGrow(Slots(params), i + 1, |params|);
  }

  /** The value in one slot. */
  function SlotValue(blob: seq<Byte>, params: seq<AbiType>, i: nat): AbiValue
    requires i < |params| && Total(Slots(params)) <= |blob|
  {
    SlotInside(params, i);
    Load(params[i], blob[Offset(Slots(params), i)..])
  }

  /** The values read back from the slots. */
  function Unpacked(blob: seq<Byte>, params: seq<AbiType>): (r: seq<AbiValue>)
    requires Total(Slots(params)) <= |blob|
    ensures |r| == |params|
  {
    seq(|params|, i requires 0 <= i < |params| => SlotValue(blob, params, i))
  }

  /** Every chunk lies at the start of its slot. */
  predicate Delivered(received: seq<Byte>, chunks: seq<seq<Byte>>, slots: seq<nat>)
    requires |chunks| == |slots|
  {
    forall i :: 0 <= i < |chunks| ==> LiesAt(received, chunks[i], Offset(slots, i))
  }

  predicate LiesAt(blob: seq<Byte>, bytes: seq<Byte>, at: nat) {
    at + |bytes| <= |blob| && blob[at..at + |bytes|] == bytes
  }

  lemma PackDelivers(blob: seq<Byte>, received: seq<Byte>, chunks: seq<seq<Byte>>, slots: seq<nat>)
    requires InSlots(chunks, slots, |slots|) && Total(slots) <= |blob| && Total(slots) <= |received|
    requires received[..Total(slots)] == Packed(blob, chunks, slots, |slots|)[..Total(slots)]
    ensures Delivered(received, chunks, slots)
  {
    forall i | 0 <= i < |chunks| ensures LiesAt(received, chunks[i], Offset(slots, i)) {
      PackedSlot(blob, chunks, slots, |slots|, i);
      OffsetsGrow(slots, i + 1, |slots|);
      SamePart(received, Packed(blob, chunks, slots, |slots|), Total(slots), Offset(slots, i), |chunks[i]|);
    }
  }

  lemma SamePart(a: seq<Byte>, b: seq<Byte>, n: nat, at: nat, size: nat)
    requires n <= |a| && n <= |b| && a[..n] == b[..n] && at + size <= n
    ensures a[at..at + size] == b[at..at + size]
  {
    assert forall k :: 0 <= k < n ==> a[k] == a[..n][k] && b[k] == b[..n][k];
  }

  lemma LoadAt(blob: seq<Byte>, at: nat, v: AbiValue, ty: AbiType)
    requires HasType(v, ty) && LiesAt(blob, Stored(v), at)
    ensures at + Size(ty) <= |blob| && Load(ty, blob[at..]) == v
  {
    StoredHasSize(v, ty);
    assert blob[at..][..Size(ty)] == Stored(v);
    StoreThenLoad(v, ty, blob[at..]);
  }

  lemma SlotGivesBack(received: seq<Byte>, values: seq<AbiValue>, params: seq<AbiType>, i: nat)
    requires Typed(values, params) && Total(Slots(params)) <= |received|
    requires Delivered(received, Chunks(values), Slots(params)) && i < |params|
    ensures SlotValue(received, params, i) == values[i]
  {
    assert LiesAt(received, Chunks(values)[i], Offset(Slots(params), i));
    LoadAt(received, Offset(Slots(params), i), values[i], params[i]);
  }

  /**
    * What dispatch unpacks is what the call packed: whatever the caller's blob held before, for any worker blob that
    * received the packed bytes, every argument comes back.
    */
  lemma UnpackUndoesPack(blob: seq<Byte>, received: seq<Byte>, values: seq<AbiValue>, params: seq<AbiType>)
    requires Typed(values, params) && InSlots(Chunks(values), Slots(params), |params|)
    requires Total(Slots(params)) <= |blob| && Total(Slots(params)) <= |received|
    requires received[..Total(Slots(params))]
      == Packed(blob, Chunks(values), Slots(params), |params|)[..Total(Slots(params))]
    ensures Unpacked(received, params) == values
  {
    PackDelivers(blob, received, Chunks(values), Slots(params));
    forall i | 0 <= i < |params| ensures SlotValue(received, params, i) == values[i] {
      SlotGivesBack(received, values, params, i);
    }
  }

  lemma FittingArgumentsAreTyped(args: seq<AbiValue>, params: seq<AbiType>, m: Memory)
    requires Sane(m) && AllFit(args, params)
    ensures AllPass(args, params) && Typed(ConvertedAll(args, params, m), params)
    ensures Typed(args, params) ==> ConvertedAll(args, params, m) == args
  {
    forall i | 0 <= i < |args|
      ensures Passes(args[i], params[i]) && HasType(Converted(args[i], params[i], m), params[i])
      ensures HasType(args[i], params[i]) ==> Converted(args[i], params[i], m) == args[i]
    {
      assert Fits(args[i], params[i]);
      ConvertedHasType(args[i], params[i], m);
    }
  }

  /**
    * The whole trip: a call whose packed arguments fit the blob sends exactly the bytes dispatch requires, so its
    * underflow check does not fire, and dispatch passes the method what its declared types make of the arguments.
    */
  lemma CallDelivers(args: seq<AbiValue>, params: seq<AbiType>, m: Memory, blob: seq<Byte>)
    requires Sane(m) && AllFit(args, params)
    requires |blob| == CAPACITY && Total(Slots(params)) <= CAPACITY
    ensures AllPass(args, params)
    ensures var values := ConvertedAll(args, params, m);
      && InSlots(Chunks(values), Slots(params), |params|)
      && var sent := Packed(blob, Chunks(values), Slots(params), |params|)[..Total(Slots(params))];
      && |sent| == Total(Slots(params))
      && Unpacked(sent, params) == values
      && (Typed(args, params) ==> Unpacked(sent, params) == args)
      && forall i :: 0 <= i < |args| ==> StandsFor(args[i], params[i], m, Unpacked(sent, params)[i])
  {
    FittingArgumentsAreTyped(args, params, m);
    var values := ConvertedAll(args, params, m);
    TypedChunksFit(values, params);
    var total := Total(Slots(params));
    var sent := Packed(blob, Chunks(values), Slots(params), |params|)[..total];
    assert sent[..total] == sent;
    UnpackUndoesPack(blob, sent, values, params);
    forall i | 0 <= i < |args| ensures StandsFor(args[i], params[i], m, values[i]) {
      assert Fits(args[i], params[i]);
      ConvertedStandsFor(args[i], params[i], m);
    }
  }
}
