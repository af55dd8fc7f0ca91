/** The capability register record `cheri_reg_t` and its bit-field layout.

    The three 64-bit fields (base, length, offset) are added and compared by the
    instruction handlers, so they are modelled as integers in [0, 2^64) with
    explicit wrap-around (`Add64`). The packed bit-fields are only masked and
    tested, so each one is a bit-vector of exactly its declared width.
 */
module CheriTypes {

  const TWO64: int := 0x1_0000_0000_0000_0000

  /** An unsigned 64-bit value (`uint64_t`, `reg_t`). */
  type u64 = x: int | 0 <= x < TWO64

  /** Addition of two `uint64_t` values: wraps around modulo 2^64. */
  function Add64(a: u64, b: u64): (r: u64)
    ensures a + b < TWO64 ==> r == a + b
    ensures a + b >= TWO64 ==> r == a + b - TWO64
  {
    (a + b) % TWO64
  }

  /** `cheri_reg_t`: one capability, as held in a register.
      uperms:20, perms:11 and sealed:1 share the first 32-bit bit-field word;
      otype:24, reserved:7 and tag:1 share the second. */
  datatype Cap = Cap(
    base: u64,
    length: u64,
    offset: u64,
    uperms: bv20,
    perms: bv11,
    sealed: bv1,
    otype: bv24,
    reserved: bv7,
    tag: bv1)

  /** The all-zero record that a `memset` of a register leaves behind. */
  const NullCap: Cap := Cap(0, 0, 0, 0, 0, 0, 0, 0, 0)

  /** Outside the 128-bit configuration the in-memory capability type is the
      register type itself (the tag is stored in it, and cleared, like any field). */
  type InMemoryCap = Cap

  /** The struct's storage: three 64-bit words followed by the two 32-bit
      bit-field words, each filled from its least significant bit in
      declaration order. 3 * 8 + 2 * 4 = 32 bytes, `sizeof(cheri_reg_t)`. */
  datatype Image = Image(base: u64, length: u64, offset: u64, w0: bv32, w1: bv32)

  const CAP_SIZE_BYTES: nat := 3 * 8 + 2 * 4

  function Pack(c: Cap): (im: Image)
    ensures im.base == c.base && im.length == c.length && im.offset == c.offset
    ensures (im.w0 & 0xF_FFFF) as bv20 == c.uperms
    ensures ((im.w0 >> 20) & 0x7FF) as bv11 == c.perms
    ensures (im.w0 >> 31) as bv1 == c.sealed
    ensures (im.w1 & 0xFF_FFFF) as bv24 == c.otype
    ensures ((im.w1 >> 24) & 0x7F) as bv7 == c.reserved
    ensures (im.w1 >> 31) as bv1 == c.tag
  {
    Image(c.base, c.length, c.offset,
          (c.uperms as bv32) | ((c.perms as bv32) << 20) | ((c.sealed as bv32) << 31),
          (c.otype as bv32) | ((c.reserved as bv32) << 24) | ((c.tag as bv32) << 31))
  }

  function Unpack(im: Image): Cap
  {
    Cap(im.base, im.length, im.offset,
        (im.w0 & 0xF_FFFF) as bv20, ((im.w0 >> 20) & 0x7FF) as bv11, (im.w0 >> 31) as bv1,
        (im.w1 & 0xFF_FFFF) as bv24, ((im.w1 >> 24) & 0x7F) as bv7, (im.w1 >> 31) as bv1)
  }

  /** The first bit-field word is exactly uperms, perms and sealed side by side. */
  lemma Word0Tiles(w0: bv32)
    ensures (w0 & 0xF_FFFF) | (((w0 >> 20) & 0x7FF) << 20) | ((w0 >> 31) << 31) == w0
  {
  }

  /** The second bit-field word is exactly otype, reserved and tag side by side. */
  lemma Word1Tiles(w1: bv32)
    ensures (w1 & 0xFF_FFFF) | (((w1 >> 24) & 0x7F) << 24) | ((w1 >> 31) << 31) == w1
  {
  }

  /** Reading the fields back from a record's storage image gives the record. */
  lemma UnpackPack(c: Cap)
    ensures Unpack(Pack(c)) == c
  {
  }

  /** Every storage image is the image of the record read from it: the
      bit-fields tile the two 32-bit words with no gap and no overlap. */
  lemma PackUnpack(im: Image)
    ensures Pack(Unpack(im)) == im
  {
    Word0Tiles(im.w0);
    Word1Tiles(im.w1);
  }

  /** A record whose tag was cleared has a storage image whose tag bit
      (bit 31 of the second bit-field word) is zero. */
  lemma UntaggedImageHasZeroTagBit(c: Cap)
    ensures Pack(c.(tag := 0)).w1 & 0x8000_0000 == 0
    ensures Pack(c.(tag := 0)).w0 == Pack(c).w0
  {
    TagBitOfImage(c.(tag := 0));
    FirstWordOfImage(c.(tag := 0), c);
  }

  /** Bit 31 of the second word is the tag. */
  lemma TagBitOfImage(c: Cap)
    requires c.tag == 0
    ensures Pack(c).w1 & 0x8000_0000 == 0
  {
  }

  /** The first word depends on uperms, perms and sealed alone. */
  lemma FirstWordOfImage(a: Cap, b: Cap)
    requires a.uperms == b.uperms && a.perms == b.perms && a.sealed == b.sealed
    ensures Pack(a).w0 == Pack(b).w0
  {
  }
}
