/** The length-framed compiler environment that identifies a cached runtime (src/runtime_cache.rs). */
module CompilerFrame {
  import opened Wrappers
  import opened Bytes

  // A buffer in memory: its length fits the unsigned 64-bit length that frames it.
  type Buffer = s: seq<Byte> | |s| < MAX_LENGTH

  const MAX_LENGTH: nat := 0x1_0000_0000_0000_0000

  type Environment = string -> Option<Buffer>

  const KEYS: seq<string> := [
    "RUSTUP_TOOLCHAIN", "RUSTC_BOOTSTRAP", "RUSTFLAGS", "CARGO_ENCODED_RUSTFLAGS", "RUSTC_WRAPPER",
    "RUSTC_WORKSPACE_WRAPPER", "RUSTUP_HOME", "PATH", "LD_LIBRARY_PATH", "DYLD_LIBRARY_PATH"]

  const TOOLCHAIN: string := "RUSTUP_TOOLCHAIN"

  const MAGIC: string := "rustc-env\0"

  // Keys and markers are ASCII: one byte a character.
  function AsBytes(text: string): seq<Byte> {
    seq(|text|, i requires 0 <= i < |text| => text[i] as int % 256)
  }

  // --- encoding ---

  function LengthFramed(bytes: seq<Byte>): seq<Byte> {
    ToLittleEndian(|bytes|, 8) + bytes
  }

  /** What the compiler will see under a key: the sanitizer build overrides the toolchain. */
  function Effective(asan: bool, lookup: Environment, key: string): Option<Buffer> {
    if asan && key == TOOLCHAIN then Some(AsBytes("nightly")) else lookup(key)
  }

  /** The bytes a value leaves after its key. */
  function Marked(value: Option<Buffer>): seq<Byte> {
    if value.Some? then [1] + LengthFramed(value.value) else [0]
  }

  function Entry(key: string, value: Option<Buffer>): seq<Byte> {
    LengthFramed(AsBytes(key)) + Marked(value)
  }

  function Entries(asan: bool, lookup: Environment, keys: seq<string>): seq<Byte> {
    if keys == [] then [] else Entry(keys[0], Effective(asan, lookup, keys[0])) + Entries(asan, lookup, keys[1..])
  }

  function Frame(asan: bool, lookup: Environment): seq<Byte> {
    AsBytes(MAGIC) + Entries(asan, lookup, KEYS)
  }

  /** The frame as the cache builds it, appended to byte by byte. */
  class FrameBuffer {
    var bytes: seq<Byte>

    constructor ()
      ensures bytes == AsBytes(MAGIC)
    {
      bytes := AsBytes(MAGIC);
    }

    method AppendLenFramed(more: Buffer)
      modifies this
      ensures bytes == old(bytes) + LengthFramed(more)
    {
      bytes := bytes + ToLittleEndian(|more|, 8);
      bytes := bytes + more;
      assert bytes == old(bytes) + LengthFramed(more);
    }

    method AppendValue(value: Option<Buffer>)
      modifies this
      ensures bytes == old(bytes) + Marked(value)
    {
      match value
      case Some(content) =>
        bytes := bytes + [1];
        AppendLenFramed(content);
        assert bytes == old(bytes) + ([1] + LengthFramed(content));
      case None =>
        bytes := bytes + [0];
    }

    method AppendEntry(key: string, value: Option<Buffer>)
      requires Fits(key)
      modifies this
      ensures bytes == old(bytes) + Entry(key, value)
    {
      AppendLenFramed(AsBytes(key));
      AppendValue(value);
      AppendsAssociate(old(bytes), LengthFramed(AsBytes(key)), Marked(value));
    }

    method AppendEntries(asan: bool, lookup: Environment, keys: seq<string>)
      requires AllFit(keys)
      modifies this
      ensures bytes == old(bytes) + Entries(asan, lookup, keys)
    {
      ghost var all := bytes + Entries(asan, lookup, keys);
      var i := 0;
      while i < |keys|
        invariant 0 <= i <= |keys|
        invariant bytes + Entries(asan, lookup, keys[i..]) == all
      {
        EntriesFromHere(asan, lookup, keys, i, bytes);
        assert Fits(keys[i]);
        AppendEntry(keys[i], Effective(asan, lookup, keys[i]));
        i := i + 1;
      }
      assert keys[i..] == [];
    }
  }

  lemma AppendsAssociate(a: seq<Byte>, b: seq<Byte>, c: seq<Byte>)
    ensures a + b + c == a + (b + c)
  {
  }

  predicate Fits(key: string) {
    |AsBytes(key)| < MAX_LENGTH
  }

  predicate AllFit(keys: seq<string>) {
    forall i :: 0 <= i < |keys| ==> Fits(keys[i])
  }

  lemma KeysFit()
    ensures AllFit(KEYS)
  {
  }

  lemma EntriesFromHere(asan: bool, lookup: Environment, keys: seq<string>, i: nat, before: seq<Byte>)
    requires i < |keys|
    ensures before + Entry(keys[i], Effective(asan, lookup, keys[i])) + Entries(asan, lookup, keys[i + 1..])
      == before + Entries(asan, lookup, keys[i..])
  {
    assert keys[i..][1..] == keys[i + 1..];
  }

  /** `compiler_environment_frame_from_lookup` */
  method CompilerEnvironmentFrame(asan: bool, lookup: Environment) returns (frame: seq<Byte>)
    ensures frame == Frame(asan, lookup)
  {
    var buffer := new FrameBuffer();
    KeysFit();
    buffer.AppendEntries(asan, lookup, KEYS);
    frame := buffer.bytes;
  }

  // --- decoding ---

  /** A length-framed buffer off the front, and what follows it. */
  function TakeFramed(bytes: seq<Byte>): Option<(seq<Byte>, seq<Byte>)> {
    if |bytes| < 8 then None
    else
      var n := FromLittleEndian(bytes[..8]);
      if |bytes| < 8 + n then None else Some((bytes[8..8 + n], bytes[8 + n..]))
  }

  /** A presence marker and, when it is one, a framed value. */
  function TakeValue(bytes: seq<Byte>): Option<(Option<seq<Byte>>, seq<Byte>)> {
    if bytes == [] then None
    else if bytes[0] == 0 then Some((None, bytes[1..]))
    else if bytes[0] == 1 then
      match TakeFramed(bytes[1..])
      case None => None
      case Some((value, rest)) => Some((Some(value), rest))
    else None
  }

  datatype Pair = Pair(key: seq<Byte>, value: Option<seq<Byte>>)

  function TakePair(bytes: seq<Byte>): Option<(Pair, seq<Byte>)> {
    match TakeFramed(bytes)
    case None => None
    case Some((key, afterKey)) =>
      match TakeValue(afterKey)
      case None => None
      case Some((value, rest)) => Some((Pair(key, value), rest))
  }

  type Taker<T> = seq<Byte> -> Option<(T, seq<Byte>)>

  /** Exactly `count` items, one after the other, and nothing after them. */
  function TakeAll<T>(take: Taker<T>, bytes: seq<Byte>, count: nat): Option<seq<T>>
    decreases count
  {
    if count == 0 then (if bytes == [] then Some([]) else None)
    else match take(bytes)
      case None => None
      case Some((first, rest)) =>
        match TakeAll(take, rest, count - 1)
        case None => None
        case Some(others) => Some([first] + others)
  }

  function Decode(frame: seq<Byte>): Option<seq<Pair>> {
    if AsBytes(MAGIC) <= frame then TakeAll(TakePair, frame[|MAGIC|..], |KEYS|) else None
  }

  // --- the decoder undoes the encoder ---

  lemma EightBytes()
    ensures Power256(8) == MAX_LENGTH
  {
    assert Power256(2) == 0x1_0000;
    assert Power256(4) == 0x1_0000_0000;
    assert Power256(6) == 0x1_0000_0000_0000;
  }

  lemma FramedIsTaken(content: Buffer, rest: seq<Byte>)
    ensures TakeFramed(LengthFramed(content) + rest) == Some((content, rest))
  {
    var bytes := LengthFramed(content) + rest;
    EightBytes();
    LittleEndianRoundTrip(|content|, 8);
    assert bytes[..8] == ToLittleEndian(|content|, 8);
    assert bytes[8..8 + |content|] == content;
    assert bytes[8 + |content|..] == rest;
  }

  lemma ValueIsTaken(value: Option<Buffer>, rest: seq<Byte>)
    ensures TakeValue(Marked(value) + rest) == Some((value, rest))
  {
    match value
    case None => assert (Marked(value) + rest)[1..] == rest;
    case Some(content) => PresentIsTaken(content, rest);
  }

  lemma PresentIsTaken(content: Buffer, rest: seq<Byte>)
    ensures TakeValue(Marked(Some(content)) + rest) == Some((Some(content), rest))
  {
    var bytes := Marked(Some(content)) + rest;
    var framed := LengthFramed(content) + rest;
    assert bytes[0] == 1 && bytes[1..] == framed;
    FramedIsTaken(content, rest);
  }

  function Pairs(asan: bool, lookup: Environment, keys: seq<string>): seq<Pair> {
    seq(|keys|, i requires 0 <= i < |keys| => Pair(AsBytes(keys[i]), Effective(asan, lookup, keys[i])))
  }

  lemma {:induction false} EntriesAreTaken(asan: bool, lookup: Environment, keys: seq<string>)
    requires AllFit(keys)
    ensures TakeAll(TakePair, Entries(asan, lookup, keys), |keys|) == Some(Pairs(asan, lookup, keys))
  {
    if keys == [] {
      assert Pairs(asan, lookup, keys) == [];
    } else {
      var key, value := keys[0], Effective(asan, lookup, keys[0]);
      var rest := Entries(asan, lookup, keys[1..]);
      FirstKey(asan, lookup, keys);
      EntriesAreTaken(asan, lookup, keys[1..]);
      EntryIsTaken(key, value, rest);
      TakeOneMore(TakePair, Entry(key, value) + rest, Pair(AsBytes(key), value), rest, |keys|);
    }
  }

  lemma FirstKey(asan: bool, lookup: Environment, keys: seq<string>)
    requires keys != [] && AllFit(keys)
    ensures Fits(keys[0]) && AllFit(keys[1..])
    ensures Pairs(asan, lookup, keys)
      == [Pair(AsBytes(keys[0]), Effective(asan, lookup, keys[0]))] + Pairs(asan, lookup, keys[1..])
  {
    assert forall i :: 0 <= i < |keys| - 1 ==> keys[1..][i] == keys[i + 1];
  }

  lemma TakeOneMore<T>(take: Taker<T>, bytes: seq<Byte>, first: T, rest: seq<Byte>, count: nat)
    requires count > 0 && take(bytes) == Some((first, rest)) && TakeAll(take, rest, count - 1).Some?
    ensures TakeAll(take, bytes, count) == Some([first] + TakeAll(take, rest, count - 1).value)
  {
  }

  lemma EntryIsTaken(key: string, value: Option<Buffer>, rest: seq<Byte>)
    requires Fits(key)
    ensures TakePair(Entry(key, value) + rest) == Some((Pair(AsBytes(key), value), rest))
  {
    AppendsAssociate(LengthFramed(AsBytes(key)), Marked(value), rest);
    PairIsTaken(AsBytes(key), value, rest);
  }

  lemma PairIsTaken(key: Buffer, value: Option<Buffer>, rest: seq<Byte>)
    ensures TakePair(LengthFramed(key) + (Marked(value) + rest)) == Some((Pair(key, value), rest))
  {
    FramedIsTaken(key, Marked(value) + rest);
    ValueIsTaken(value, rest);
  }

  /** Decoding a frame gives back every key with the value the compiler sees, unset told from empty. */
  lemma DecodeUndoesFrame(asan: bool, lookup: Environment)
    ensures Decode(Frame(asan, lookup)) == Some(Pairs(asan, lookup, KEYS))
  {
    var frame := Frame(asan, lookup);
    KeysFit();
    assert frame[|MAGIC|..] == Entries(asan, lookup, KEYS);
    EntriesAreTaken(asan, lookup, KEYS);
  }

  lemma {:induction false} SameValuesSameEntries(asan1: bool, lookup1: Environment, asan2: bool,
                                        lookup2: Environment, keys: seq<string>)
    requires forall key :: key in keys ==> Effective(asan1, lookup1, key) == Effective(asan2, lookup2, key)
    ensures Entries(asan1, lookup1, keys) == Entries(asan2, lookup2, keys)
  {
    if keys != [] {
      assert keys[0] in keys;
      SameValuesSameEntries(asan1, lookup1, asan2, lookup2, keys[1..]);
    }
  }

  /** Two frames are the same bytes exactly when the compiler sees the same value, or none, under every listed key. */
  lemma FramesIdentifyEnvironments(asan1: bool, lookup1: Environment, asan2: bool, lookup2: Environment)
    ensures Frame(asan1, lookup1) == Frame(asan2, lookup2)
            <==> forall key :: key in KEYS ==> Effective(asan1, lookup1, key) == Effective(asan2, lookup2, key)
  {
    if Frame(asan1, lookup1) == Frame(asan2, lookup2) {
      DecodeUndoesFrame(asan1, lookup1);
      DecodeUndoesFrame(asan2, lookup2);
      forall key | key in KEYS ensures Effective(asan1, lookup1, key) == Effective(asan2, lookup2, key) {
        var i :| 0 <= i < |KEYS| && KEYS[i] == key;
        assert Pairs(asan1, lookup1, KEYS)[i] == Pairs(asan2, lookup2, KEYS)[i];
      }
    } else if forall key :: key in KEYS ==> Effective(asan1, lookup1, key) == Effective(asan2, lookup2, key) {
      SameValuesSameEntries(asan1, lookup1, asan2, lookup2, KEYS);
    }
  }

  /** For one sanitizer setting: agreement in presence and content on every key, the toolchain excepted under it. */
  lemma FramesDifferOnlyInListedKeys(asan: bool, lookup1: Environment, lookup2: Environment)
    ensures Frame(asan, lookup1) == Frame(asan, lookup2)
            <==> forall key :: key in KEYS && !(asan && key == TOOLCHAIN) ==> lookup1(key) == lookup2(key)
  {
    FramesIdentifyEnvironments(asan, lookup1, asan, lookup2);
    forall key | key in KEYS && !(asan && key == TOOLCHAIN)
      ensures Effective(asan, lookup1, key) == Effective(asan, lookup2, key) <==> lookup1(key) == lookup2(key)
    {
    }
  }

  /** What a plain build has to see under a key to be keyed like a sanitizer build. */
  ghost predicate LikeSanitizer(sanitized: Environment, plain: Environment, key: string) {
    if key == TOOLCHAIN then plain(key).Some? && plain(key).value == AsBytes("nightly")
    else plain(key) == sanitized(key)
  }

  lemma SameUnderSanitizer(sanitized: Environment, plain: Environment, key: string)
    ensures Effective(true, sanitized, key) == Effective(false, plain, key) <==> LikeSanitizer(sanitized, plain, key)
  {
  }

  /** A sanitizer build is keyed like a plain one under the nightly toolchain, and like no other. */
  lemma SanitizerIsNightly(sanitized: Environment, plain: Environment)
    ensures Frame(true, sanitized) == Frame(false, plain)
            <==> forall key :: key in KEYS ==> LikeSanitizer(sanitized, plain, key)
  {
    FramesIdentifyEnvironments(true, sanitized, false, plain);
    forall key | key in KEYS
      ensures Effective(true, sanitized, key) == Effective(false, plain, key)
              <==> LikeSanitizer(sanitized, plain, key)
    {
      SameUnderSanitizer(sanitized, plain, key);
    }
  }
}
