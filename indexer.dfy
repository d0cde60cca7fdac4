/**
  The offline index build: every permit becomes its chunk, every chunk is
  embedded, and the vectors are written to the binary index file whose
  position i holds the embedding of chunk i.
*/
module Indexer {
  import opened Bytes
  import opened IndexFormat
  import opened Chunker

  /** The chunks of all permits, in permit order (each permit's chunks appended in turn). */
  function ChunkAll(permits: seq<Permit>, lookup: map<string, Agency>): seq<Chunk>
  {
    if permits == [] then []
    else ChunkAll(permits[..|permits| - 1], lookup) + ChunkPermit(permits[|permits| - 1], lookup)
  }

  /** The embedding of every chunk's text, in chunk order. */
  function Embedded(chunks: seq<Chunk>, embed: string -> seq<Word>): (vectors: seq<seq<Word>>)
    ensures |vectors| == |chunks|
    ensures forall i :: 0 <= i < |chunks| ==> vectors[i] == embed(chunks[i].text)
  {
    seq(|chunks|, i requires 0 <= i < |chunks| => embed(chunks[i].text))
  }

  /** One chunk per permit: chunk i is the chunk of permit i. */
  lemma {:induction false} ChunkAllAligned(permits: seq<Permit>, lookup: map<string, Agency>)
    ensures |ChunkAll(permits, lookup)| == |permits|
    ensures forall i :: 0 <= i < |permits| ==>
      ChunkAll(permits, lookup)[i] == ChunkPermit(permits[i], lookup)[0]
  {
    if permits != [] {
      var init := permits[..|permits| - 1];
      ChunkAllAligned(init, lookup);
      var front, last := ChunkAll(init, lookup), ChunkPermit(permits[|permits| - 1], lookup);
      assert ChunkAll(permits, lookup) == front + last;
      forall i | 0 <= i < |permits|
        ensures ChunkAll(permits, lookup)[i] == ChunkPermit(permits[i], lookup)[0]
      {
        if i < |init| {
          assert permits[i] == init[i];
          assert (front + last)[i] == front[i];
        } else {
          assert (front + last)[i] == last[0];
        }
      }
    }
  }

  /** Extending the permits by one appends that permit's chunks. */
  lemma ChunkAllSnoc(permits: seq<Permit>, lookup: map<string, Agency>, i: nat)
    requires i < |permits|
    ensures ChunkAll(permits[..i + 1], lookup) == ChunkAll(permits[..i], lookup) + ChunkPermit(permits[i], lookup)
  {
    assert permits[..i + 1][..i] == permits[..i];
  }

  /**
    Chunks every permit, embeds every chunk, then writes the index file.
    `ok` is false when the write fails part-way; `file` then holds what was
    written before the failure.
  */
  method BuildIndex(permits: seq<Permit>, agencies: seq<Agency>, embed: string -> seq<Word>)
    returns (chunks: seq<Chunk>, vectors: seq<seq<Word>>, file: seq<byte>, ok: bool)
    ensures chunks == ChunkAll(permits, AgencyLookup(agencies))
    ensures vectors == Embedded(chunks, embed)
    ensures ok <==> Writable(vectors)
    ensures ok ==> file == Serialize(vectors)
  {
    var lookup := AgencyLookup(agencies);
    chunks := [];
    for i := 0 to |permits|
      invariant chunks == ChunkAll(permits[..i], lookup)
    {
      ChunkAllSnoc(permits, lookup, i);
      chunks := chunks + ChunkPermit(permits[i], lookup);
    }
    assert permits[..|permits|] == permits;
    vectors := [];
    for i := 0 to |chunks|
      invariant |vectors| == i
      invariant forall k :: 0 <= k < i ==> vectors[k] == embed(chunks[k].text)
    {
      vectors := vectors + [embed(chunks[i].text)];
    }
    file, ok := WriteIndex(vectors);
  }

  /**
    A successful build yields an index file that reads back as one vector
    per permit, vector i being the embedding of permit i's chunk.
  */
  lemma BuiltIndexAligned(permits: seq<Permit>, agencies: seq<Agency>, embed: string -> seq<Word>)
    requires Writable(Embedded(ChunkAll(permits, AgencyLookup(agencies)), embed))
    ensures var lookup := AgencyLookup(agencies);
      var chunks := ChunkAll(permits, lookup);
      var r := Decode(Serialize(Embedded(chunks, embed)));
      && r.Ok?
      && r.value.dimensions == EmbeddingDimensions
      && |r.value.vectors| == |permits|
      && forall i :: 0 <= i < |permits| ==>
           r.value.vectors[i] == embed(ChunkPermit(permits[i], lookup)[0].text)
  {
    var lookup := AgencyLookup(agencies);
    var chunks := ChunkAll(permits, lookup);
    ChunkAllAligned(permits, lookup);
    DecodeSerialize(Embedded(chunks, embed));
  }

  /** The file size is the 8-byte header plus 1024 bytes per permit. */
  lemma BuiltIndexSize(permits: seq<Permit>, agencies: seq<Agency>, embed: string -> seq<Word>)
    requires Writable(Embedded(ChunkAll(permits, AgencyLookup(agencies)), embed))
    ensures |Serialize(Embedded(ChunkAll(permits, AgencyLookup(agencies)), embed))|
      == HeaderSize + |permits| * (WordSize * EmbeddingDimensions)
  {
    ChunkAllAligned(permits, AgencyLookup(agencies));
    SerializedSize(Embedded(ChunkAll(permits, AgencyLookup(agencies)), embed));
  }
}
