/** The result of an actor method on its way back to the caller (src/codegen/actors.rs). */
module ActorResults {
  import opened Wrappers
  import opened Bytes
  import opened ActorAbi
  import opened ActorMailbox

  /** What dispatch stores: scalars widened to one 8-byte slot, records as they are. None when dispatch aborts. */
  function ResultChunk(v: AbiValue, ty: AbiType): Option<seq<Byte>>
    requires HasType(v, ty)
  {
    match v
    case IntValue(bits, pattern) =>
      if bits < 64 then Some(ToLittleEndian(Resized(bits, pattern, 64), 8))
      else Some(ToLittleEndian(pattern, (bits + 7) / 8))
    case FloatValue(bits, pattern) => if bits <= 64 then Some(ToLittleEndian(pattern, 8)) else None
    case PointerValue(address) => Some(ToLittleEndian(address, 8))
    case StructValue(bytes) => if |bytes| > CAPACITY then None else Some(bytes)
  }

  /** The size dispatch reports, which is how many bytes travel back. */
  function ReportedSize(v: AbiValue): nat {
    if v.StructValue? then |v.bytes| else 8
  }

  /** The end of a dispatch case: the result is widened, stored, and its size reported. */
  method PackResult(v: AbiValue, ty: AbiType, blob: array<Byte>) returns (size: Option<nat>)
    requires HasType(v, ty) && blob.Length == CAPACITY
    requires v.IntValue? ==> (v.bits + 7) / 8 <= CAPACITY
    modifies blob
    ensures size.Some? <==> ResultChunk(v, ty).Some?
    ensures size.Some?
      ==> size.value == ReportedSize(v) && blob[..] == Written(old(blob[..]), 0, ResultChunk(v, ty).value)
    ensures size.None? ==> blob[..] == old(blob[..])
  {
    if v.FloatValue? && v.bits > 64 {
      return None;
    }
    if v.StructValue? && |v.bytes| > CAPACITY {
      return None;
    }
    Store(blob, 0, ResultChunk(v, ty).value);
    size := Some(if v.StructValue? then |v.bytes| else 8);
  }

  /** The caller's blob after the reply: the reported bytes over whatever it held. */
  function Reply(v: AbiValue, ty: AbiType, stale: seq<Byte>): (r: seq<Byte>)
    requires HasType(v, ty) && ResultChunk(v, ty).Some? && |stale| == CAPACITY
    ensures |r| == CAPACITY
  {
    ChunkCoversReport(v, ty);
    ResultChunk(v, ty).value[..ReportedSize(v)] + stale[ReportedSize(v)..]
  }

  lemma ChunkCoversReport(v: AbiValue, ty: AbiType)
    requires HasType(v, ty) && ResultChunk(v, ty).Some?
    ensures ReportedSize(v) <= |ResultChunk(v, ty).value| && ReportedSize(v) <= CAPACITY
  {
  }

  /** The caller's load of the declared return type. */
  function Received(v: AbiValue, ty: AbiType, stale: seq<Byte>): AbiValue
    requires HasType(v, ty) && ResultChunk(v, ty).Some? && |stale| == CAPACITY && Size(ty) <= CAPACITY
  {
    Load(ty, Reply(v, ty, stale))
  }

  // --- scalars ---

  lemma SlotFront(n: nat, stale: seq<Byte>, k: nat)
    requires k <= 8 && |stale| == CAPACITY
    ensures FromLittleEndian((ToLittleEndian(n, 8) + stale[8..])[..k]) == LowBits(n, 8 * k)
  {
    assert (ToLittleEndian(n, 8) + stale[8..])[..k] == ToLittleEndian(n, 8)[..k];
    LittleEndianLowPart(n, 8, k);
    LowBytesAreLowBits(n, k);
  }

  /** The low bits of a widened scalar are the scalar. */
  lemma NarrowResultArrives(n: nat, bits: nat, pattern: nat, stale: seq<Byte>)
    requires 0 < bits <= 64 && |stale| == CAPACITY && LowBits(n, bits) == pattern
    ensures LowBits(FromLittleEndian((ToLittleEndian(n, 8) + stale[8..])[..(bits + 7) / 8]), bits) == pattern
  {
    var k := (bits + 7) / 8;
    SlotFront(n, stale, k);
    LowBitsTwice(n, 8 * k, bits);
  }

  lemma WidenedIntKeepsBits(bits: nat, pattern: nat)
    requires 0 < bits < 64 && pattern < Power2(bits)
    ensures LowBits(Resized(bits, pattern, 64), bits) == pattern
  {
    if bits == 1 {
      LowBitsInRange(pattern, bits);
    } else {
      WideningKeepsNumber(bits, pattern, 64);
    }
  }

  lemma SlotIsReply(v: AbiValue, ty: AbiType, n: nat, stale: seq<Byte>)
    requires HasType(v, ty) && !v.StructValue? && |stale| == CAPACITY
    requires ResultChunk(v, ty) == Some(ToLittleEndian(n, 8))
    ensures Reply(v, ty, stale) == ToLittleEndian(n, 8) + stale[8..]
  {
    assert ToLittleEndian(n, 8)[..8] == ToLittleEndian(n, 8);
  }

  lemma NumberLoads(blob: seq<Byte>, bits: nat, pattern: nat)
    requires (bits + 7) / 8 <= |blob| && LowBits(FromLittleEndian(blob[..(bits + 7) / 8]), bits) == pattern
    ensures Load(IntType(bits), blob) == IntValue(bits, pattern)
    ensures Load(FloatType(bits), blob) == FloatValue(bits, pattern)
  {
  }

  /** A scalar stored as a number whose low bits it is arrives as it was. */
  lemma ScalarArrives(v: AbiValue, ty: AbiType, n: nat, bits: nat, pattern: nat, stale: seq<Byte>)
    requires HasType(v, ty) && |stale| == CAPACITY && 0 < bits <= 64
    requires (v == IntValue(bits, pattern) && ty == IntType(bits))
      || (v == FloatValue(bits, pattern) && ty == FloatType(bits))
    requires ResultChunk(v, ty) == Some(ToLittleEndian(n, 8)) && LowBits(n, bits) == pattern
    ensures Received(v, ty, stale) == v
  {
    SlotIsReply(v, ty, n, stale);
    NarrowResultArrives(n, bits, pattern, stale);
    NumberLoads(ToLittleEndian(n, 8) + stale[8..], bits, pattern);
  }

  lemma NarrowIntArrives(bits: nat, pattern: nat, stale: seq<Byte>)
    requires 0 < bits < 64 && pattern < Power2(bits) && |stale| == CAPACITY
    ensures Received(IntValue(bits, pattern), IntType(bits), stale) == IntValue(bits, pattern)
  {
    WidenedIntKeepsBits(bits, pattern);
    ScalarArrives(IntValue(bits, pattern), IntType(bits), Resized(bits, pattern, 64), bits, pattern, stale);
  }

  lemma FullIntArrives(pattern: nat, stale: seq<Byte>)
    requires pattern < Power2(64) && |stale| == CAPACITY
    ensures Received(IntValue(64, pattern), IntType(64), stale) == IntValue(64, pattern)
  {
    LowBitsInRange(pattern, 64);
    ScalarArrives(IntValue(64, pattern), IntType(64), pattern, 64, pattern, stale);
  }

  lemma FloatArrives(bits: nat, pattern: nat, stale: seq<Byte>)
    requires 0 < bits <= 64 && pattern < Power2(bits) && |stale| == CAPACITY
    ensures Received(FloatValue(bits, pattern), FloatType(bits), stale) == FloatValue(bits, pattern)
  {
    LowBitsInRange(pattern, bits);
    ScalarArrives(FloatValue(bits, pattern), FloatType(bits), pattern, bits, pattern, stale);
  }

  lemma PointerArrives(address: nat, stale: seq<Byte>)
    requires address < Power2(64) && |stale| == CAPACITY
    ensures Received(PointerValue(address), PointerType, stale) == PointerValue(address)
  {
    SlotIsReply(PointerValue(address), PointerType, address, stale);
    SlotFront(address, stale, 8);
    LowBitsInRange(address, 64);
  }

  lemma StructArrives(bytes: seq<Byte>, ty: AbiType, stale: seq<Byte>)
    requires HasType(StructValue(bytes), ty) && |bytes| <= CAPACITY && |stale| == CAPACITY
    ensures Received(StructValue(bytes), ty, stale) == StructValue(bytes)
  {
    assert (bytes[..|bytes|] + stale[|bytes|..])[..|bytes|] == bytes;
  }

  // --- integers wider than the slot, which no declared type is lowered to (see ActorLowering) ---

  lemma {:induction false} FrontInRange(bytes: seq<Byte>)
    ensures FromLittleEndian(bytes) < Power256(|bytes|)
  {
    if bytes != [] {
      FrontInRange(bytes[1..]);
    }
  }

  lemma {:induction false} AppendedBit(low: seq<Byte>, high: seq<Byte>)
    requires FromLittleEndian(high) <= 1
    ensures FromLittleEndian(low + high)
      == FromLittleEndian(low) + if FromLittleEndian(high) == 1 then Power256(|low|) else 0
  {
    if low == [] {
      assert low + high == high;
    } else {
      assert (low + high)[1..] == low[1..] + high;
      AppendedBit(low[1..], high);
    }
  }

  lemma {:induction false} ZerosAreZero(k: nat)
    ensures FromLittleEndian(seq(k, _ => 0 as Byte)) == 0
  {
    if k > 0 {
      assert seq(k, _ => 0 as Byte)[1..] == seq(k - 1, _ => 0 as Byte);
      ZerosAreZero(k - 1);
    }
  }

  /** What the caller reads of a wide integer: eight of its bytes, then the caller's own. */
  lemma WideReading(bits: nat, pattern: nat, high: seq<Byte>, stale: seq<Byte>)
    requires 64 < bits && (bits + 7) / 8 <= CAPACITY == |stale| && pattern < Power2(bits)
    requires stale[8..(bits + 7) / 8] == high
    ensures Received(IntValue(bits, pattern), IntType(bits), stale)
      == IntValue(bits, LowBits(FromLittleEndian(ToLittleEndian(pattern, (bits + 7) / 8)[..8] + high), bits))
  {
    var k := (bits + 7) / 8;
    assert Reply(IntValue(bits, pattern), IntType(bits), stale)[..k] == ToLittleEndian(pattern, k)[..8] + high;
  }

  /** A remark on the store arm alone: of a wider integer only eight bytes would travel, the caller's stale bytes
      deciding the rest. */
  lemma WideIntIsLost(bits: nat, pattern: nat) returns (stale: seq<Byte>)
    requires 64 < bits && (bits + 7) / 8 <= CAPACITY && pattern < Power2(bits)
    ensures |stale| == CAPACITY
    ensures Received(IntValue(bits, pattern), IntType(bits), stale) != IntValue(bits, pattern)
  {
    var k := (bits + 7) / 8;
    var low := ToLittleEndian(pattern, k)[..8];
    var zeros := seq(k - 8, _ => 0 as Byte);
    var one := [1 as Byte] + seq(k - 9, _ => 0 as Byte);
    var clear := seq(CAPACITY, _ => 0 as Byte);
    var marked := clear[8 := 1];
    assert clear[8..k] == zeros && marked[8..k] == one;
    WideReading(bits, pattern, zeros, clear);
    WideReading(bits, pattern, one, marked);
    WideReadingsDiffer(bits, low, zeros, one);
    var arrived := Received(IntValue(bits, pattern), IntType(bits), clear);
    stale := if arrived == IntValue(bits, pattern) then marked else clear;
  }

  lemma WideReadingsDiffer(bits: nat, low: seq<Byte>, zeros: seq<Byte>, one: seq<Byte>)
    requires 64 < bits && |low| == 8
    requires zeros == seq(|zeros|, _ => 0 as Byte) && one != [] && one == [1] + seq(|one| - 1, _ => 0 as Byte)
    ensures LowBits(FromLittleEndian(low + zeros), bits) != LowBits(FromLittleEndian(low + one), bits)
  {
    ZerosAreZero(|zeros|);
    ZerosAreZero(|one| - 1);
    assert one[1..] == seq(|one| - 1, _ => 0 as Byte);
    AppendedBit(low, zeros);
    AppendedBit(low, one);
    FrontInRange(low);
    SlotIsNarrow(bits);
    TwoReadings(FromLittleEndian(low), Power256(8), bits);
  }

  lemma SlotIsNarrow(bits: nat)
    requires bits > 64
    ensures 2 * Power256(8) <= Power2(bits)
  {
    BytesHoldBits(8);
    PowersGrow(64, bits);
  }

  lemma TwoReadings(n: nat, p: nat, bits: nat)
    requires n < p && 2 * p <= Power2(bits)
    ensures LowBits(n, bits) == n && LowBits(n + p, bits) == n + p
  {
    LowBitsInRange(n, bits);
    LowBitsInRange(n + p, bits);
  }

  predicate FitsSlot(v: AbiValue) {
    v.IntValue? ==> v.bits <= 64
  }

  lemma FittingResultArrives(v: AbiValue, ty: AbiType, stale: seq<Byte>)
    requires HasType(v, ty) && ResultChunk(v, ty).Some? && FitsSlot(v)
    requires |stale| == CAPACITY && Size(ty) <= CAPACITY
    ensures Received(v, ty, stale) == v
  {
    match v
    case IntValue(bits, pattern) =>
      if bits < 64 {
        NarrowIntArrives(bits, pattern, stale);
      } else {
        FullIntArrives(pattern, stale);
      }
    case FloatValue(bits, pattern) => FloatArrives(bits, pattern, stale);
    case PointerValue(address) => PointerArrives(address, stale);
    case StructValue(bytes) => StructArrives(bytes, ty, stale);
  }

  /**
    * A result that dispatch does not refuse reaches the caller for every bit pattern, whatever the caller's blob held,
    * exactly when it is not an integer wider than the 8-byte slot.
    */
  lemma ResultArrivesExactly(v: AbiValue, ty: AbiType)
    requires HasType(v, ty) && Size(ty) <= CAPACITY && ResultChunk(v, ty).Some?
    ensures FitsSlot(v) <==> forall stale: seq<Byte> :: |stale| == CAPACITY ==> Received(v, ty, stale) == v
  {
    if FitsSlot(v) {
      forall stale: seq<Byte> | |stale| == CAPACITY ensures Received(v, ty, stale) == v {
        FittingResultArrives(v, ty, stale);
      }
    } else {
      var stale := WideIntIsLost(v.bits, v.pattern);
      assert Received(v, ty, stale) != v;
    }
  }
}
