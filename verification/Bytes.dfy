/** Bytes and little-endian numbers. */
module Bytes {
  type Byte = n: nat | n < 256

  /** The `width` low bytes of a number, least significant first. */
  function ToLittleEndian(n: nat, width: nat): (bytes: seq<Byte>)
    ensures |bytes| == width
  {
    if width == 0 then [] else [n % 256] + ToLittleEndian(n / 256, width - 1)
  }

  function FromLittleEndian(bytes: seq<Byte>): nat {
    if bytes == [] then 0 else bytes[0] + 256 * FromLittleEndian(bytes[1..])
  }

  function Power256(k: nat): (p: nat)
    ensures p > 0
  {
    if k == 0 then 1 else 256 * Power256(k - 1)
  }

  lemma {:induction false} LittleEndianRoundTrip(n: nat, width: nat)
    requires n < Power256(width)
    ensures FromLittleEndian(ToLittleEndian(n, width)) == n
  {
    if width > 0 {
      LittleEndianRoundTrip(n / 256, width - 1);
      assert ToLittleEndian(n, width)[1..] == ToLittleEndian(n / 256, width - 1);
    }
  }

  /** The `k` low bytes of a number, as a number. */
  function LowBytes(n: nat, k: nat): nat {
    if k == 0 then 0 else n % 256 + 256 * LowBytes(n / 256, k - 1)
  }

  /** Reading back fewer bytes than were written keeps the low part of the number. */
  lemma {:induction false} LittleEndianLowPart(n: nat, width: nat, k: nat)
    requires k <= width
    ensures FromLittleEndian(ToLittleEndian(n, width)[..k]) == LowBytes(n, k)
  {
    var bytes := ToLittleEndian(n, width);
    if k == 0 {
      assert bytes[..0] == [];
    } else {
      LittleEndianLowPart(n / 256, width - 1, k - 1);
      assert bytes[1..] == ToLittleEndian(n / 256, width - 1);
      assert bytes[..k][1..] == bytes[1..][..k - 1];
    }
  }
}
