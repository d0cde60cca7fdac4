/**
  The binary vector index file shared by the offline builder and the query
  handler: a header of two unsigned 32-bit words (number of vectors, number of
  dimensions) followed by every vector's float32 cells, vector after vector.
  The builder writes it (scripts/build_index.py) and the handler reads it back
  with an offset that advances one vector at a time (lambda/handler.py).
*/
module IndexFormat {
  import opened Wrappers
  import opened Bytes

  /** The number of dimensions every build asks the embedding service for. */
  const EmbeddingDimensions: nat := 256

  /** Two header words. */
  const HeaderSize: nat := 8

  /** The in-memory index the handler keeps: its vectors and their dimension. */
  datatype VectorIndex = VectorIndex(vectors: seq<seq<Word>>, dimensions: nat)

  /** Why reading an index file fails (struct.unpack raises on a short slice). */
  datatype LoadError = TruncatedHeader | TruncatedVectors

  /**
    Byte offset at which vector `i` starts when every vector has `d` cells:
    the reader starts at 8 and advances by d*4 per vector.
  */
  function VectorOffset(i: nat, d: nat): (r: nat)
    ensures r >= HeaderSize
  {
    if i == 0 then HeaderSize else VectorOffset(i - 1, d) + 4 * d
  }

  lemma MulSucc(a: nat, c: nat)
    ensures (a + 1) * c == a * c + c
  {
  }

  /** Vector i is read from offset 8 + i*d*4. */
  lemma {:induction false} VectorOffsetIs(i: nat, d: nat)
    ensures VectorOffset(i, d) == HeaderSize + i * (4 * d)
  {
    if i > 0 {
      VectorOffsetIs(i - 1, d);
      MulSucc(i - 1, 4 * d);
    }
  }

  /** Byte offset just past vector `i`. */
  function VectorEnd(i: nat, d: nat): (r: nat)
    ensures r == VectorOffset(i + 1, d)
  {
    VectorOffset(i, d) + 4 * d
  }

  /** A later vector never starts before an earlier one. */
  lemma {:induction false} OffsetMonotone(i: nat, j: nat, d: nat)
    requires i <= j
    ensures VectorOffset(i, d) <= VectorOffset(j, d)
  {
    if i < j {
      OffsetMonotone(i, j - 1, d);
    }
  }

  // ---------------------------------------------------------------- reading

  function HeaderCount(data: seq<byte>): nat
    requires |data| >= HeaderSize
  {
    DecodeU32(data[..WordSize])
  }

  function HeaderDimensions(data: seq<byte>): nat
    requires |data| >= HeaderSize
  {
    DecodeU32(data[WordSize..HeaderSize])
  }

  /** The `d` cells of vector `i`, unpacked from the bytes at its offset. */
  function VectorAt(data: seq<byte>, i: nat, d: nat): (v: seq<Word>)
    requires VectorEnd(i, d) <= |data|
    ensures |v| == d
  {
    Words(data[VectorOffset(i, d) .. VectorEnd(i, d)])
  }

  /**
    What loading an index file yields: an error when the header or any of the
    announced vectors is cut short, otherwise the announced number of vectors,
    vector i taken from its own offset.  Bytes after the last vector are ignored.
  */
  function Decode(data: seq<byte>): (r: Result<VectorIndex, LoadError>)
    ensures r.Ok? <==> |data| >= HeaderSize && VectorOffset(HeaderCount(data), HeaderDimensions(data)) <= |data|
    ensures r.Ok? ==> |data| >= HeaderSize && |r.value.vectors| == HeaderCount(data)
    ensures r.Ok? ==> |data| >= HeaderSize && r.value.dimensions == HeaderDimensions(data)
    ensures r.Ok? ==> forall i :: 0 <= i < |r.value.vectors| ==> |r.value.vectors[i]| == r.value.dimensions
  {
    if |data| < HeaderSize then Err(TruncatedHeader)
    else
      var n, d := HeaderCount(data), HeaderDimensions(data);
      if |data| < VectorOffset(n, d) then Err(TruncatedVectors)
      else
        Ok(VectorIndex(
          seq(n, i requires 0 <= i < n =>
            OffsetMonotone(i + 1, n, d);
            VectorAt(data, i, d)),
          d))
  }

  /**
    The handler's loader: reads the two header words, then walks the file one
    vector at a time, advancing the offset by dimensions*4 and appending each
    unpacked vector.
  */
  method ReadIndex(data: seq<byte>) returns (r: Result<VectorIndex, LoadError>)
    ensures r == Decode(data)
  {
    if |data| < HeaderSize {
      return Err(TruncatedHeader);
    }
    var numVectors := DecodeU32(data[..WordSize]);
    var dimensions := DecodeU32(data[WordSize..HeaderSize]);
    var stride := dimensions * 4;
    var vectors: seq<seq<Word>> := [];
    var offset := HeaderSize;
    for i := 0 to numVectors
      invariant offset == VectorOffset(i, dimensions) <= |data|
      invariant |vectors| == i
      invariant forall k :: 0 <= k < i ==>
        VectorEnd(k, dimensions) <= offset && vectors[k] == VectorAt(data, k, dimensions)
    {
      OffsetMonotone(i + 1, numVectors, dimensions);
      if |data| < offset + stride {
        // the slice is short, so struct.unpack raises
        return Err(TruncatedVectors);
      }
      assert VectorAt(data, i, dimensions) == Words(data[offset .. offset + stride]);
      vectors := vectors + [Words(data[offset .. offset + stride])];
      offset := offset + stride;
    }
    ghost var expected := Decode(data);
    assert expected.Ok?;
    assert forall k :: 0 <= k < numVectors ==>
      VectorEnd(k, dimensions) <= |data| && expected.value.vectors[k] == VectorAt(data, k, dimensions);
    assert vectors == expected.value.vectors;
    return Ok(VectorIndex(vectors, dimensions));
  }

  // ---------------------------------------------------------------- writing

  /** The header the builder writes for `count` vectors. */
  function Header(count: nat): (r: seq<byte>)
    requires count < U32Bound
    ensures |r| == HeaderSize
  {
    EncodeU32(count) + EncodeU32(EmbeddingDimensions)
  }

  /** The cells of all vectors, in order. */
  function Body(vectors: seq<seq<Word>>): seq<byte>
  {
    if vectors == [] then []
    else Body(vectors[..|vectors| - 1]) + Flatten(vectors[|vectors| - 1])
  }

  /** The whole file for `vectors`. */
  function Serialize(vectors: seq<seq<Word>>): seq<byte>
    requires |vectors| < U32Bound
  {
    Header(|vectors|) + Body(vectors)
  }

  /** Every vector has `d` cells. */
  predicate AllOfDimension(vectors: seq<seq<Word>>, d: nat)
  {
    forall k :: 0 <= k < |vectors| ==> |vectors[k]| == d
  }

  /** The builder can write `vectors` without struct.pack raising. */
  predicate Writable(vectors: seq<seq<Word>>)
  {
    |vectors| < U32Bound && AllOfDimension(vectors, EmbeddingDimensions)
  }

  /**
    The builder's writer: truncates the file, packs the count and the fixed
    dimension, then packs every vector.  A count beyond 32 bits raises before
    anything is written; a vector of the wrong length raises after the header
    and the vectors before it have been written, leaving that prefix on disk.
  */
  method WriteIndex(vectors: seq<seq<Word>>) returns (file: seq<byte>, ok: bool)
    ensures ok <==> Writable(vectors)
    ensures ok ==> file == Serialize(vectors)
    ensures !ok && |vectors| >= U32Bound ==> file == []
    ensures !ok && |vectors| < U32Bound ==>
      exists k | 0 <= k < |vectors| ::
        && |vectors[k]| != EmbeddingDimensions
        && (forall j | 0 <= j < k :: |vectors[j]| == EmbeddingDimensions)
        && file == Header(|vectors|) + Body(vectors[..k])
  {
    file := [];
    if |vectors| >= U32Bound {
      return file, false;
    }
    file := file + EncodeU32(|vectors|);
    file := file + EncodeU32(EmbeddingDimensions);
    for i := 0 to |vectors|
      invariant file == Header(|vectors|) + Body(vectors[..i])
      invariant forall j | 0 <= j < i :: |vectors[j]| == EmbeddingDimensions
    {
      if |vectors[i]| != EmbeddingDimensions {
        return file, false;
      }
      assert vectors[..i + 1][..i] == vectors[..i];
      file := file + Flatten(vectors[i]);
    }
    assert vectors[..|vectors|] == vectors;
    ok := true;
  }

  // ---------------------------------------------------------------- properties

  /** A body of n vectors of d cells ends where vector n would start. */
  lemma {:induction false} BodyLength(vectors: seq<seq<Word>>, d: nat)
    requires AllOfDimension(vectors, d)
    ensures HeaderSize + |Body(vectors)| == VectorOffset(|vectors|, d)
  {
    if vectors != [] {
      var front := vectors[..|vectors| - 1];
      assert AllOfDimension(front, d);
      BodyLength(front, d);
    }
  }

  lemma SliceOfConcat(a: seq<byte>, b: seq<byte>, lo: nat, hi: nat)
    requires lo <= hi <= |a|
    ensures (a + b)[lo..hi] == a[lo..hi]
  {
  }

  /** Vector i of a written body sits between the offsets of vectors i and i+1. */
  lemma {:induction false} BodySlice(vectors: seq<seq<Word>>, d: nat, i: nat)
    requires AllOfDimension(vectors, d)
    requires i < |vectors|
    ensures HeaderSize + |Body(vectors)| >= VectorEnd(i, d)
    ensures Body(vectors)[VectorOffset(i, d) - HeaderSize .. VectorEnd(i, d) - HeaderSize] == Flatten(vectors[i])
  {
    var m := |vectors| - 1;
    var front, last := vectors[..m], vectors[m];
    var lo, hi := VectorOffset(i, d) - HeaderSize, VectorEnd(i, d) - HeaderSize;
    assert AllOfDimension(front, d);
    BodyLength(front, d);
    if i < m {
      BodySlice(front, d, i);
      OffsetMonotone(i + 1, m, d);
      SliceOfConcat(Body(front), Flatten(last), lo, hi);
      assert front[i] == vectors[i];
    } else {
      assert lo == |Body(front)| && hi == lo + |Flatten(last)|;
    }
  }

  /** A written index is 8 bytes of header plus 1024 bytes per vector. */
  lemma SerializedSize(vectors: seq<seq<Word>>)
    requires Writable(vectors)
    ensures |Serialize(vectors)| == HeaderSize + |vectors| * (4 * EmbeddingDimensions)
  {
    BodyLength(vectors, EmbeddingDimensions);
    VectorOffsetIs(|vectors|, EmbeddingDimensions);
  }

  /** The header of a written index announces its vector count and the fixed dimension. */
  lemma SerializedHeader(vectors: seq<seq<Word>>)
    requires |vectors| < U32Bound
    ensures |Serialize(vectors)| >= HeaderSize
    ensures HeaderCount(Serialize(vectors)) == |vectors|
    ensures HeaderDimensions(Serialize(vectors)) == EmbeddingDimensions
  {
    var data := Serialize(vectors);
    assert data[..WordSize] == EncodeU32(|vectors|);
    assert data[WordSize..HeaderSize] == EncodeU32(EmbeddingDimensions);
    DecodeEncodeU32(|vectors|);
    DecodeEncodeU32(EmbeddingDimensions);
  }

  /** Vector i of a written index unpacks to the vector that was written. */
  lemma SerializedVector(vectors: seq<seq<Word>>, i: nat)
    requires Writable(vectors)
    requires i < |vectors|
    ensures VectorEnd(i, EmbeddingDimensions) <= |Serialize(vectors)|
    ensures VectorAt(Serialize(vectors), i, EmbeddingDimensions) == vectors[i]
  {
    var data := Serialize(vectors);
    var d := EmbeddingDimensions;
    BodySlice(vectors, d, i);
    assert data[VectorOffset(i, d) .. VectorOffset(i + 1, d)]
        == Body(vectors)[VectorOffset(i, d) - HeaderSize .. VectorOffset(i + 1, d) - HeaderSize];
    WordsFlatten(vectors[i]);
  }

  /**
    Round trip between the builder's writer and the handler's reader: the
    handler gets back the same number of vectors, the fixed dimension and
    every vector's cells in order.
  */
  lemma DecodeSerialize(vectors: seq<seq<Word>>)
    requires Writable(vectors)
    ensures Decode(Serialize(vectors)) == Ok(VectorIndex(vectors, EmbeddingDimensions))
  {
    var data := Serialize(vectors);
    SerializedHeader(vectors);
    BodyLength(vectors, EmbeddingDimensions);
    var r := Decode(data);
    assert r.Ok?;
    forall i | 0 <= i < |vectors|
      ensures r.value.vectors[i] == vectors[i]
    {
      SerializedVector(vectors, i);
    }
    assert r.value.vectors == vectors;
  }

  /** Bytes after the last announced vector do not change what is loaded. */
  lemma DecodeIgnoresTrailing(data: seq<byte>, extra: seq<byte>)
    requires Decode(data).Ok?
    ensures Decode(data + extra) == Decode(data)
  {
    var all := data + extra;
    assert all[..WordSize] == data[..WordSize];
    assert all[WordSize..HeaderSize] == data[WordSize..HeaderSize];
    var n, d := HeaderCount(data), HeaderDimensions(data);
    forall i | 0 <= i < n
      ensures VectorEnd(i, d) <= |data|
    {
      OffsetMonotone(i + 1, n, d);
    }
    forall i | 0 <= i < n
      ensures VectorAt(all, i, d) == VectorAt(data, i, d)
    {
      assert all[VectorOffset(i, d) .. VectorEnd(i, d)] == data[VectorOffset(i, d) .. VectorEnd(i, d)];
    }
    assert HeaderCount(all) == n && HeaderDimensions(all) == d;
    assert Decode(all).Ok?;
    assert Decode(all).value.vectors == Decode(data).value.vectors;
  }
}
