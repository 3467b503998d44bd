/** Fixed-width words, the byte order of the wire, and the wrap-around of a 32-bit counter. */
module Words {
  const MODULUS := 0x1_0000_0000

  /** A C `uint32_t`; every wrap-around is written out where it happens. */
  type u32 = n: int | 0 <= n < 0x1_0000_0000
  type byte = n: int | 0 <= n < 0x100

  datatype Option<+T> = None | Some(value: T)

  function Inc(v: u32): u32 { (v + 1) % MODULUS }

  /** Little-endian packing, as both sides write their payloads. */
  function StoreU32(v: u32): (bytes: seq<byte>)
    ensures |bytes| == 4
  {
    [v % 0x100, v / 0x100 % 0x100, v / 0x1_0000 % 0x100, v / 0x100_0000]
  }

  function LoadU32(bytes: seq<byte>): u32
    requires |bytes| >= 4
  {
    var b0: int, b1: int, b2: int, b3: int := bytes[0], bytes[1], bytes[2], bytes[3];
    b0 + 0x100 * b1 + 0x1_0000 * b2 + 0x100_0000 * b3
  }

  lemma LoadAfterStore(v: u32, tail: seq<byte>)
    ensures LoadU32(StoreU32(v) + tail) == v
  {
    hide StoreU32;
    var bytes := StoreU32(v) + tail;
    StoredBytes(v);
    assert bytes[0] == StoreU32(v)[0] && bytes[1] == StoreU32(v)[1] && bytes[2] == StoreU32(v)[2]
           && bytes[3] == StoreU32(v)[3];
    var high := v / 0x100;
    BytePeels(v);
    BytePeels(high);
    BytePeels(high / 0x100);
  }

  lemma StoredBytes(v: u32)
    ensures var high := v / 0x100;
            && StoreU32(v)[0] == v % 0x100 && StoreU32(v)[1] == high % 0x100
            && StoreU32(v)[2] == high / 0x100 % 0x100 && StoreU32(v)[3] == high / 0x100 / 0x100
  {
    DivideAgain(v, 0x100);
    DivideAgain(v, 0x1_0000);
  }

  lemma DivideAgain(v: nat, d: nat)
    requires d == 0x100 || d == 0x1_0000
    ensures v / d / 0x100 == v / (0x100 * d)
  {
  }

  lemma BytePeels(v: nat)
    ensures v == 0x100 * (v / 0x100) + v % 0x100
  {
  }

  /** Four bytes are the stored form of one word only: that which they are read as. */
  lemma StoreAfterLoad(bytes: seq<byte>)
    requires |bytes| >= 4
    ensures StoreU32(LoadU32(bytes)) == bytes[..4]
  {
    hide StoreU32;
    var b1: int, b2: int, b3: int := bytes[1], bytes[2], bytes[3];
    var v, low := LoadU32(bytes), b1 + 0x100 * (b2 + 0x100 * b3);
    StoredBytes(v);
    Peeled(bytes[0], low);
    Peeled(b1, b2 + 0x100 * b3);
    Peeled(b2, b3);
  }

  lemma Peeled(b: byte, high: nat)
    ensures (b + 0x100 * high) % 0x100 == b && (b + 0x100 * high) / 0x100 == high
  {
  }

  /** The lowest byte comes first. */
  lemma LowestByteFirst(bytes: seq<byte>)
    requires |bytes| >= 4
    ensures LoadU32(bytes) % 0x100 == bytes[0] && LoadU32(bytes) / 0x100 % 0x100 == bytes[1]
    ensures LoadU32(bytes) / 0x1_0000 % 0x100 == bytes[2] && LoadU32(bytes) / 0x100_0000 == bytes[3]
  {
    StoreAfterLoad(bytes);
    assert forall i | 0 <= i < 4 :: StoreU32(LoadU32(bytes))[i] == bytes[..4][i];
    hide LoadU32;
  }
}
