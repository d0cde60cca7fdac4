/**
  Bytes of the binary vector index.  A header word is an unsigned 32-bit
  integer written with Python's native `struct` format "I"; on the
  little-endian machines the service runs on that is four bytes, least
  significant first.  A vector cell is a float32, which the model keeps as an
  opaque four-byte word: it is never interpreted, only copied.
*/
module Bytes {

  newtype byte = x: int | 0 <= x < 256

  /** Number of bytes in one header word and in one float32 cell. */
  const WordSize: nat := 4

  /** Exclusive upper bound of what "I" can pack. */
  const U32Bound: nat := 0x1_0000_0000

  /** One float32 cell, uninterpreted. */
  type Word = w: seq<byte> | |w| == WordSize witness [0, 0, 0, 0]

  /** struct.pack("I", n): defined only below 2^32 (struct.error otherwise). */
  function EncodeU32(n: nat): (r: seq<byte>)
    requires n < U32Bound
    ensures |r| == WordSize
  {
    var q1 := n / 256;
    var q2 := q1 / 256;
    var q3 := q2 / 256;
    [(n % 256) as byte, (q1 % 256) as byte, (q2 % 256) as byte, q3 as byte]
  }

  /** struct.unpack("I", b)[0] on exactly four bytes. */
  function DecodeU32(b: seq<byte>): (n: nat)
    requires |b| == WordSize
    ensures n < U32Bound
  {
    b[0] as int + 256 * (b[1] as int + 256 * (b[2] as int + 256 * (b[3] as int)))
  }

  /** Division by 256 splits x into its low byte and the rest, uniquely. */
  lemma DivMod256(x: nat, low: int, high: nat)
    requires 0 <= low < 256 && x == low + 256 * high
    ensures x % 256 == low && x / 256 == high
  {
  }

  /** Reading back a packed header word gives the number that was packed. */
  lemma DecodeEncodeU32(n: nat)
    requires n < U32Bound
    ensures DecodeU32(EncodeU32(n)) == n
  {
    var q1 := n / 256;
    var q2 := q1 / 256;
    var q3 := q2 / 256;
    assert n == n % 256 + 256 * q1;
    assert q1 == q1 % 256 + 256 * q2;
    assert q2 == q2 % 256 + 256 * q3;
  }

  /** A four-byte header word is exactly the packing of the number it reads as. */
  lemma EncodeDecodeU32(b: seq<byte>)
    requires |b| == WordSize
    ensures EncodeU32(DecodeU32(b)) == b
  {
    var h2 := b[2] as int + 256 * (b[3] as int);
    var h1 := b[1] as int + 256 * h2;
    var n := DecodeU32(b);
    DivMod256(n, b[0] as int, h1);
    DivMod256(h1, b[1] as int, h2);
    DivMod256(h2, b[2] as int, b[3] as int);
    var r := EncodeU32(n);
    assert r[0] == b[0] && r[1] == b[1] && r[2] == b[2] && r[3] == b[3];
  }

  /** The bytes of a sequence of cells, one after the other (struct.pack of the cells). */
  function Flatten(cells: seq<Word>): (r: seq<byte>)
    ensures |r| == 4 * |cells|
  {
    if cells == [] then []
    else
      cells[0] + Flatten(cells[1..])
  }

  /** Splits a byte string whose length is a multiple of four into cells (struct.unpack of "<d>f"). */
  function Words(b: seq<byte>): (r: seq<Word>)
    requires |b| % WordSize == 0
    ensures 4 * |r| == |b|
  {
    seq(|b| / WordSize, j requires 0 <= j < |b| / WordSize => b[4 * j .. 4 * j + WordSize])
  }

  /** Cell j of packed cells occupies bytes [4j, 4j+4). */
  lemma {:induction false} FlattenSlice(cells: seq<Word>, j: nat)
    requires j < |cells|
    ensures Flatten(cells)[4 * j .. 4 * j + 4] == cells[j]
  {
    if j > 0 {
      FlattenSlice(cells[1..], j - 1);
      assert Flatten(cells)[4 * j .. 4 * j + 4] == Flatten(cells[1..])[4 * (j - 1) .. 4 * (j - 1) + 4];
    }
  }

  /** Unpacking packed cells gives back the same cells. */
  lemma WordsFlatten(cells: seq<Word>)
    ensures |Flatten(cells)| % WordSize == 0
    ensures Words(Flatten(cells)) == cells
  {
    var r := Words(Flatten(cells));
    forall j | 0 <= j < |cells|
      ensures r[j] == cells[j]
    {
      FlattenSlice(cells, j);
    }
  }
}
