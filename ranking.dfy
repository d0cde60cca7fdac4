/**
  Top-K retrieval over the loaded vector index (search_index in
  lambda/handler.py): score every stored vector against the query in index
  order, sort the (index, score) pairs by score, highest first, with Python's
  stable sort, and keep the first `topK`.  The similarity measure (cosine
  similarity over floats) is a parameter: only its ordering matters here.
*/
module Ranking {
  import opened Wrappers
  import opened Bytes
  import opened IndexFormat

  /** Number of passages retrieved per question (TOP_K). */
  const DefaultTopK: nat := 5

  /** One (vector index, similarity score) pair. */
  datatype Hit = Hit(index: nat, score: real)

  function Min(a: nat, b: nat): nat
  {
    if a <= b then a else b
  }

  // ------------------------------------------------- the stable sort (list.sort)

  /**
    Inserts `h` in front of the first element that does not score higher, so
    `h` lands before the elements of equal score that follow it in the input.
  */
  function InsertByScore(h: Hit, sorted: seq<Hit>): (r: seq<Hit>)
    ensures multiset(r) == multiset(sorted) + multiset{h}
  {
    if sorted == [] || sorted[0].score <= h.score then [h] + sorted
    else
      assert sorted == [sorted[0]] + sorted[1..];
      [sorted[0]] + InsertByScore(h, sorted[1..])
  }

  /**
    `sort(key=score, reverse=True)`: a stable sort by descending score, built
    by insertion from the back of the list.
  */
  function SortByScoreDesc(hits: seq<Hit>): (r: seq<Hit>)
    ensures multiset(r) == multiset(hits)
  {
    if hits == [] then []
    else
      assert hits == [hits[0]] + hits[1..];
      InsertByScore(hits[0], SortByScoreDesc(hits[1..]))
  }

  /** `a` comes before `b` in a ranking: higher score, or equal score and lower index. */
  predicate Outranks(a: Hit, b: Hit)
  {
    a.score > b.score || (a.score == b.score && a.index < b.index)
  }

  /** Scores never increase along `s`, and equal scores are in ascending index order. */
  predicate Ranked(s: seq<Hit>)
  {
    forall i, j :: 0 <= i < j < |s| ==> Outranks(s[i], s[j])
  }

  /** Indices strictly increase along `s`, as they do in the list of scored vectors. */
  predicate IndicesAscending(s: seq<Hit>)
  {
    forall i, j :: 0 <= i < j < |s| ==> s[i].index < s[j].index
  }

  lemma {:induction false} InsertRanked(h: Hit, s: seq<Hit>)
    requires Ranked(s)
    requires forall x <- s :: h.index < x.index
    ensures Ranked(InsertByScore(h, s))
  {
    var r := InsertByScore(h, s);
    if s == [] || s[0].score <= h.score {
      assert r == [h] + s;
    } else {
      var t := InsertByScore(h, s[1..]);
      InsertRanked(h, s[1..]);
      assert r == [s[0]] + t;
      forall j | 0 <= j < |t|
        ensures Outranks(s[0], t[j])
      {
        assert t[j] in multiset(t);
        if t[j] != h {
          assert t[j] in s[1..];
        }
      }
    }
  }

  /**
    Stability at work: sorting pairs listed in ascending index order by
    descending score leaves equal scores in ascending index order.
  */
  lemma {:induction false} SortRanked(hits: seq<Hit>)
    requires IndicesAscending(hits)
    ensures Ranked(SortByScoreDesc(hits))
  {
    if hits != [] {
      var rest := SortByScoreDesc(hits[1..]);
      SortRanked(hits[1..]);
      forall x <- rest
        ensures hits[0].index < x.index
      {
        assert x in multiset(hits[1..]);
      }
      InsertRanked(hits[0], rest);
    }
  }

  // ------------------------------------------------- search_index

  /** The list of (i, sim(query, vector i)) pairs the scan builds, in index order. */
  function Scored<Q>(vectors: seq<seq<Word>>, query: Q, sim: (Q, seq<Word>) -> real): (r: seq<Hit>)
    ensures |r| == |vectors|
  {
    seq(|vectors|, i requires 0 <= i < |vectors| => Hit(i, sim(query, vectors[i])))
  }

  /** What search_index returns: nothing without a loaded index, else the first `topK` of the ranking. */
  function SearchResults<Q>(index: Option<VectorIndex>, query: Q, sim: (Q, seq<Word>) -> real, topK: nat): seq<Hit>
  {
    match index
    case None => []
    case Some(ix) =>
      var sorted := SortByScoreDesc(Scored(ix.vectors, query, sim));
      sorted[..Min(topK, |sorted|)]
  }

  /** search_index: the scoring loop, the sort and the truncation. */
  method SearchIndex<Q>(index: Option<VectorIndex>, query: Q, sim: (Q, seq<Word>) -> real, topK: nat)
    returns (results: seq<Hit>)
    ensures results == SearchResults(index, query, sim, topK)
    ensures index.None? ==> results == []
  {
    if index.None? {
      return [];
    }
    var vectors := index.value.vectors;
    var similarities: seq<Hit> := [];
    for i := 0 to |vectors|
      invariant |similarities| == i
      invariant forall k :: 0 <= k < i ==> similarities[k] == Hit(k, sim(query, vectors[k]))
    {
      similarities := similarities + [Hit(i, sim(query, vectors[i]))];
    }
    assert similarities == Scored(vectors, query, sim);
    var sorted := SortByScoreDesc(similarities);
    results := sorted[..Min(topK, |sorted|)];
  }

  // ------------------------------------------------- what the search promises

  /** Every element of the scored list is the pair of a stored vector and its score. */
  lemma InScored<Q>(vectors: seq<seq<Word>>, query: Q, sim: (Q, seq<Word>) -> real, h: Hit)
    requires h in multiset(Scored(vectors, query, sim))
    ensures h.index < |vectors| && h.score == sim(query, vectors[h.index])
  {
    var all := Scored(vectors, query, sim);
    assert h in all;
    var i :| 0 <= i < |all| && all[i] == h;
  }

  /** Exactly min(topK, number of stored vectors) results, or none without an index. */
  lemma SearchLength<Q>(index: Option<VectorIndex>, query: Q, sim: (Q, seq<Word>) -> real, topK: nat)
    ensures |SearchResults(index, query, sim, topK)| ==
      if index.None? then 0 else Min(topK, |index.value.vectors|)
  {
    if index.Some? {
      var all := Scored(index.value.vectors, query, sim);
      assert |multiset(SortByScoreDesc(all))| == |multiset(all)|;
    }
  }

  /** Results come highest score first; equal scores in ascending vector index order. */
  lemma SearchRanked<Q>(index: Option<VectorIndex>, query: Q, sim: (Q, seq<Word>) -> real, topK: nat)
    ensures Ranked(SearchResults(index, query, sim, topK))
  {
    if index.Some? {
      var all := Scored(index.value.vectors, query, sim);
      SortRanked(all);
    }
  }

  /** Each result names a stored vector, carries that vector's score, and no vector is returned twice. */
  lemma SearchHitsValid<Q>(ix: VectorIndex, query: Q, sim: (Q, seq<Word>) -> real, topK: nat)
    ensures var r := SearchResults(Some(ix), query, sim, topK);
      && (forall k :: 0 <= k < |r| ==> r[k].index < |ix.vectors| && r[k].score == sim(query, ix.vectors[r[k].index]))
      && (forall a, b :: 0 <= a < b < |r| ==> r[a].index != r[b].index)
  {
    var all := Scored(ix.vectors, query, sim);
    var sorted := SortByScoreDesc(all);
    var r := SearchResults(Some(ix), query, sim, topK);
    forall k | 0 <= k < |r|
      ensures r[k].index < |ix.vectors| && r[k].score == sim(query, ix.vectors[r[k].index])
    {
      assert r[k] in multiset(sorted);
      InScored(ix.vectors, query, sim, r[k]);
    }
    SearchRanked(Some(ix), query, sim, topK);
  }

  /**
    The results are the top of the ranking: a stored vector that is not
    returned is outranked by every vector that is.
  */
  lemma SearchComplete<Q>(ix: VectorIndex, query: Q, sim: (Q, seq<Word>) -> real, topK: nat, j: nat)
    requires j < |ix.vectors|
    requires forall k :: 0 <= k < |SearchResults(Some(ix), query, sim, topK)| ==>
      SearchResults(Some(ix), query, sim, topK)[k].index != j
    ensures forall k :: 0 <= k < |SearchResults(Some(ix), query, sim, topK)| ==>
      Outranks(SearchResults(Some(ix), query, sim, topK)[k], Hit(j, sim(query, ix.vectors[j])))
  {
    var all := Scored(ix.vectors, query, sim);
    var sorted := SortByScoreDesc(all);
    var r := SearchResults(Some(ix), query, sim, topK);
    var h := Hit(j, sim(query, ix.vectors[j]));
    assert all[j] == h;
    assert h in multiset(sorted);
    var p :| 0 <= p < |sorted| && sorted[p] == h;
    assert forall k :: 0 <= k < |r| ==> r[k] == sorted[k];
    assert p >= |r|;
    SortRanked(all);
  }
}
