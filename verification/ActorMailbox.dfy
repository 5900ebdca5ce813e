/** The two sides of an actor call over one byte blob (src/codegen/actors.rs). */
module ActorMailbox {
  import opened Wrappers
  import opened Bytes
  import opened ActorAbi

  datatype Abort = Overflow | Underflow | ArgumentTooLarge(index: nat)

  method Store(blob: array<Byte>, at: nat, bytes: seq<Byte>)
    requires at + |bytes| <= blob.Length
    modifies blob
    ensures blob[..] == Written(old(blob[..]), at, bytes)
  {
    var k := 0;
    while k < |bytes|
      invariant 0 <= k <= |bytes|
      invariant blob[..] == Written(old(blob[..]), at, bytes[..k])
    {
      blob[at + k] := bytes[k];
      k := k + 1;
    }
    assert bytes[..k] == bytes;
  }

  /** The bytes an argument is stored as, and the size of its slot. */
  predicate StoresChunk(arg: AbiValue, ty: AbiType, m: Memory, slot: nat, chunk: seq<Byte>) {
    Passes(arg, ty) && slot == SlotSize(ty) && chunk == Stored(Converted(arg, ty, m))
  }

  /** One argument: converted, held against its slot, and stored at its start. */
  method StoreArgument(arg: AbiValue, ty: AbiType, m: Memory, blob: array<Byte>, at: nat, ghost slot: nat,
                       ghost chunk: seq<Byte>)
    returns (stored: bool)
    requires Sane(m) && StoresChunk(arg, ty, m, slot, chunk) && at + slot <= blob.Length
    modifies blob
    ensures stored <==> |chunk| <= slot
    ensures stored ==> blob[..] == Written(old(blob[..]), at, chunk)
  {
    SlotHoldsItsType(ty);
    if arg.StructValue? && |arg.bytes| > SlotSize(ty) {
      return false;
    }
    var value := Converted(arg, ty, m);
    ConvertedStaysInSlot(arg, ty, m);
    Store(blob, at, Stored(value));
    stored := true;
  }

  lemma ConvertedStaysInSlot(arg: AbiValue, ty: AbiType, m: Memory)
    requires Sane(m) && Passes(arg, ty)
    requires arg.StructValue? ==> |arg.bytes| <= SlotSize(ty)
    ensures |Stored(Converted(arg, ty, m))| <= SlotSize(ty)
  {
    SlotHoldsItsType(ty);
    if !arg.StructValue? {
      ConvertedHasType(arg, ty, m);
      StoredHasSize(Converted(arg, ty, m), ty);
    }
  }

  /** The bytes a call stores, slot by slot. */
  function CallChunks(args: seq<AbiValue>, params: seq<AbiType>, m: Memory): (r: seq<seq<Byte>>)
    requires AllPass(args, params)
    ensures |r| == |params|
  {
    Chunks(ConvertedAll(args, params, m))
  }

  lemma CallChunk(args: seq<AbiValue>, params: seq<AbiType>, m: Memory, i: nat)
    requires AllPass(args, params) && i < |params|
    ensures Passes(args[i], params[i])
    ensures CallChunks(args, params, m)[i] == Stored(Converted(args[i], params[i], m))
    ensures Slots(params)[i] == SlotSize(params[i])
  {
  }

  lemma SlotStays(slots: seq<nat>, i: nat)
    requires i < |slots|
    ensures Offset(slots, i) + slots[i] == Offset(slots, i + 1) <= Total(slots)
  {
    OffsetsGrow(slots, i + 1, |slots|);
  }

  lemma PackOneMore(blob: seq<Byte>, chunks: seq<seq<Byte>>, slots: seq<nat>, i: nat)
    requires InSlots(chunks, slots, i) && i < |slots| && |chunks[i]| <= slots[i] && Total(slots) <= |blob|
    ensures InSlots(chunks, slots, i + 1)
    ensures Offset(slots, i) + slots[i] == Offset(slots, i + 1) <= |blob|
    ensures Packed(blob, chunks, slots, i + 1) == Written(Packed(blob, chunks, slots, i), Offset(slots, i), chunks[i])
  {
    SlotStays(slots, i);
  }

  /**
    * The call site: the packed size is checked before anything is stored, then every argument is converted and stored
    * at the start of its slot. No store leaves the blob, and `args_size` is the sum of the declared slots.
    */
  method PackArguments(params: seq<AbiType>, args: seq<AbiValue>, m: Memory, blob: array<Byte>)
    returns (r: Result<nat, Abort>)
    requires blob.Length == CAPACITY && AllPass(args, params) && Sane(m)
    modifies blob
    ensures r.Success? <==>
      Total(Slots(params)) <= CAPACITY && InSlots(CallChunks(args, params, m), Slots(params), |params|)
    ensures r.Success? ==>
      r.value == Total(Slots(params))
      && blob[..] == Packed(old(blob[..]), CallChunks(args, params, m), Slots(params), |params|)
    ensures Total(Slots(params)) > CAPACITY ==> r == Failure(Overflow) && blob[..] == old(blob[..])
  {
    var packed := PackedSize(params);
    if packed > CAPACITY {
      return Failure(Overflow);
    }
    forall i | 0 <= i < |params|
      ensures StoresChunk(args[i], params[i], m, Slots(params)[i], CallChunks(args, params, m)[i])
    {
      CallChunk(args, params, m, i);
    }
    r := StoreArguments(params, args, m, blob, Slots(params), CallChunks(args, params, m));
  }

  method StoreArguments(params: seq<AbiType>, args: seq<AbiValue>, m: Memory, blob: array<Byte>,
                        ghost slots: seq<nat>, ghost chunks: seq<seq<Byte>>)
    returns (r: Result<nat, Abort>)
    requires Sane(m) && |args| == |params| == |slots| == |chunks|
    requires forall i {:trigger StoresChunk(args[i], params[i], m, slots[i], chunks[i])} ::
      0 <= i < |params| ==> StoresChunk(args[i], params[i], m, slots[i], chunks[i])
    requires Total(slots) <= blob.Length
    modifies blob
    ensures r.Success? <==> InSlots(chunks, slots, |slots|)
    ensures r.Success? ==> r.value == Total(slots) && blob[..] == Packed(old(blob[..]), chunks, slots, |slots|)
  {
    var offset, i := 0, 0;
    while i < |args|
      invariant 0 <= i <= |args| && offset == Offset(slots, i) <= Total(slots)
      invariant InSlots(chunks, slots, i)
      invariant blob[..] == Packed(old(blob[..]), chunks, slots, i)
    {
      assert StoresChunk(args[i], params[i], m, slots[i], chunks[i]);
      SlotStays(slots, i);
      var stored := StoreArgument(args[i], params[i], m, blob, offset, slots[i], chunks[i]);
      if !stored {
        return Failure(ArgumentTooLarge(i));
      }
      PackOneMore(old(blob[..]), chunks, slots, i);
      offset := offset + SlotSize(params[i]);
      i := i + 1;
    }
    r := Success(offset);
  }

  method PackedSize(params: seq<AbiType>) returns (total: nat)
    ensures total == Total(Slots(params))
  {
    total := 0;
    var i := 0;
    while i < |params|
      invariant 0 <= i <= |params| && total == Offset(Slots(params), i)
    {
      total := total + SlotSize(params[i]);
      i := i + 1;
    }
  }

  /** Dispatch: sizes are checked before any read, then every parameter is loaded from its slot. */
  method UnpackArguments(params: seq<AbiType>, received: seq<Byte>) returns (r: Result<seq<AbiValue>, Abort>)
    ensures Total(Slots(params)) > CAPACITY ==> r == Failure(Overflow)
    ensures Total(Slots(params)) <= CAPACITY && |received| < Total(Slots(params)) ==> r == Failure(Underflow)
    ensures Total(Slots(params)) <= CAPACITY && |received| >= Total(Slots(params))
      ==> r == Success(Unpacked(received, params))
  {
    var required := PackedSize(params);
    if required > CAPACITY {
      return Failure(Overflow);
    }
    if |received| < required {
      return Failure(Underflow);
    }
    var values: seq<AbiValue> := [];
    var offset, i := 0, 0;
    while i < |params|
      invariant 0 <= i <= |params| && offset == Offset(Slots(params), i)
      invariant values == Unpacked(received, params)[..i]
    {
      SlotInside(params, i);
      values := values + [Load(params[i], received[offset..])];
      offset := offset + SlotSize(params[i]);
      i := i + 1;
    }
    assert Unpacked(received, params)[..i] == Unpacked(received, params);
    r := Success(values);
  }
}
