/** Machine words and the byte order of the wire. Every field of a packet is a
    32-bit little-endian word, and the C++ code computes on `uint32_t`, so each
    place where the source can wrap is written with `Wrap32`. */
module Words {
  type Byte = b: int | 0 <= b < 256
  type U16 = x: int | 0 <= x < 0x1_0000
  type U32 = x: int | 0 <= x < 0x1_0000_0000

  const TWO32 := 0x1_0000_0000

  /** The value an `int` takes when stored in a `uint32_t`. */
  function Wrap32(x: int): U32 {
    x % TWO32
  }

  /** The value a `uint32_t` takes when converted to an `int32_t`. */
  function Signed32(x: U32): int {
    if x < 0x8000_0000 then x else x - TWO32
  }

  function Word(s: seq<Byte>): U32
    requires |s| >= 4
  {
    var b0: int, b1: int, b2: int, b3: int := s[0], s[1], s[2], s[3];
    b0 + 0x100 * b1 + 0x1_0000 * b2 + 0x100_0000 * b3
  }

  function WordBytes(w: U32): (bytes: seq<Byte>)
    ensures |bytes| == 4
  {
    [w % 0x100, w / 0x100 % 0x100, w / 0x1_0000 % 0x100, w / 0x100_0000]
  }

  lemma WordOfBytes(w: U32, rest: seq<Byte>)
    ensures Word(WordBytes(w) + rest) == w
  {
    var bytes := WordBytes(w) + rest;
    assert bytes[0] == w % 0x100 && bytes[1] == w / 0x100 % 0x100;
    assert bytes[2] == w / 0x1_0000 % 0x100 && bytes[3] == w / 0x100_0000;
    hide WordBytes;
    BytesAddUp(w);
  }

  lemma BytesAddUp(w: int)
    requires w >= 0
    ensures w % 0x100 + 0x100 * (w / 0x100 % 0x100) + 0x1_0000 * (w / 0x1_0000 % 0x100) + 0x100_0000 * (w / 0x100_0000) == w
  {
    var q1, q2, q3 := w / 0x100, w / 0x1_0000, w / 0x100_0000;
    assert q2 == q1 / 0x100;
    assert q3 == q2 / 0x100;
  }

  lemma BytesOfWord(bytes: seq<Byte>)
    requires |bytes| == 4
    ensures WordBytes(Word(bytes)) == bytes
  {
    var b0: int, b1: int, b2: int, b3: int := bytes[0], bytes[1], bytes[2], bytes[3];
    var w: int := Word(bytes);
    assert w / 0x100 == b1 + 0x100 * b2 + 0x1_0000 * b3;
    assert w / 0x1_0000 == b2 + 0x100 * b3;
    assert w / 0x100_0000 == b3;
  }
}
