/**
  The question-answering request handler (lambda/handler.py): validation of
  the question, the daily quota, the cached index, retrieval, and the
  assembly of the context passages and the cited sources.  The embedding and
  text-generation services are parameters; the state that survives between
  invocations of a warm instance lives in `Runtime`.
*/
module Query {
  import opened Wrappers
  import opened Bytes
  import opened IndexFormat
  import opened Chunker
  import opened Ranking
  import UsageGuard

  // ------------------------------------------------- str.strip()

  /** Python's `str.isspace` for one code point. */
  predicate IsSpace(c: char)
  {
    || ('\U{9}' <= c <= '\U{D}')
    || ('\U{1C}' <= c <= '\U{20}')
    || c == '\U{85}' || c == '\U{A0}' || c == '\U{1680}'
    || ('\U{2000}' <= c <= '\U{200A}')
    || c == '\U{2028}' || c == '\U{2029}' || c == '\U{202F}' || c == '\U{205F}' || c == '\U{3000}'
  }

  predicate AllSpace(s: string)
  {
    forall i :: 0 <= i < |s| ==> IsSpace(s[i])
  }

  function TrimStart(s: string): (r: string)
    ensures |r| <= |s| && r == s[|s| - |r|..]
    ensures AllSpace(s[..|s| - |r|])
    ensures r != [] ==> !IsSpace(r[0])
  {
    if s != [] && IsSpace(s[0]) then
      var r := TrimStart(s[1..]);
      assert s[1..][..|s| - 1 - |r|] == s[1..|s| - |r|];
      r
    else s
  }

  function TrimEnd(s: string): (r: string)
    ensures |r| <= |s| && r == s[..|r|]
    ensures AllSpace(s[|r|..])
    ensures r != [] ==> !IsSpace(r[|r| - 1])
  {
    if s != [] && IsSpace(s[|s| - 1]) then
      var r := TrimEnd(s[..|s| - 1]);
      assert s[|r|..] == s[..|s| - 1][|r|..] + [s[|s| - 1]];
      r
    else s
  }

  /** `str.strip()` with no argument: leading and trailing whitespace removed. */
  function Strip(s: string): string
  {
    TrimEnd(TrimStart(s))
  }

  /**
    The stripped question is the slice of the input between its leading and
    its trailing whitespace, and it neither starts nor ends with whitespace.
  */
  lemma StripIsCore(s: string)
    ensures exists i, j :: 0 <= i <= j <= |s| && Strip(s) == s[i..j] && AllSpace(s[..i]) && AllSpace(s[j..])
    ensures Strip(s) != [] ==> !IsSpace(Strip(s)[0]) && !IsSpace(Strip(s)[|Strip(s)| - 1])
  {
    var t := TrimStart(s);
    var r := TrimEnd(t);
    var i := |s| - |t|;
    var j := i + |r|;
    assert r == s[i..j];
    assert s[j..] == t[|r|..];
  }

  /** A question strips to nothing exactly when it is all whitespace. */
  lemma StripEmpty(s: string)
    ensures Strip(s) == [] <==> AllSpace(s)
  {
    var t := TrimStart(s);
    if Strip(s) == [] {
      assert t[0..] == t;
      assert t == [];
      assert s[..|s|] == s;
    }
  }

  /** Stripping twice changes nothing more. */
  lemma StripIdempotent(s: string)
    ensures Strip(Strip(s)) == Strip(s)
  {
    StripIsCore(s);
  }

  // ------------------------------------------------- responses

  const MaxQuestionLength: nat := 500
  const QuestionRequired := "Question is required"
  const QuestionTooLong := "Question too long (max 500 characters)"

  /** One cited permit: its id, name and agency, with the score of its best passage. */
  datatype Source = Source(permitId: string, permitName: string, agency: string, score: real)

  /**
    The handler's responses: the CORS preflight answer, a rejected question,
    the exhausted daily quota, an internal failure, or an answer with its
    sources and the question as it was understood.  The HTTP status codes
    are 200, 400, 429, 500 and 200 respectively.
  */
  datatype Response =
    | Preflight
    | BadRequest(error: string)
    | QuotaExceeded
    | ServerError
    | Answered(answer: string, sources: seq<Source>, query: string)

  /** The request body: not JSON (or a non-string question), or a JSON object with or without "question". */
  datatype RequestBody = Malformed | Json(question: Option<string>)

  /** The question's checks: required after stripping, then at most 500 characters. */
  function ValidateQuestion(question: Option<string>): (r: Result<string, string>)
    ensures r == Err(QuestionRequired) <==> AllSpace(question.GetOr(""))
    ensures r == Err(QuestionTooLong) <==> !AllSpace(question.GetOr("")) && |Strip(question.GetOr(""))| > MaxQuestionLength
    ensures r.Ok? ==> r.value == Strip(question.GetOr("")) && 1 <= |r.value| <= MaxQuestionLength
    ensures r.Ok? <==> !AllSpace(question.GetOr("")) && |Strip(question.GetOr(""))| <= MaxQuestionLength
  {
    StripEmpty(question.GetOr(""));
    var q := Strip(question.GetOr(""));
    if q == [] then Err(QuestionRequired)
    else if |q| > MaxQuestionLength then Err(QuestionTooLong)
    else Ok(q)
  }

  // ------------------------------------------------- context and sources

  /** The separator placed between context passages in the prompt. */
  const ContextSeparator := "\n\n---\n\n"

  predicate InRange(h: Hit, chunks: seq<Chunk>)
  {
    h.index < |chunks|
  }

  function SourceOf(h: Hit, chunks: seq<Chunk>): Source
    requires InRange(h, chunks)
  {
    var c := chunks[h.index];
    Source(c.permitId, c.permitName, c.agency, h.score)
  }

  function PermitIds(sources: seq<Source>): (ids: seq<string>)
    ensures |ids| == |sources|
    ensures forall i :: 0 <= i < |sources| ==> ids[i] == sources[i].permitId
  {
    seq(|sources|, i requires 0 <= i < |sources| => sources[i].permitId)
  }

  /** The passages handed to the model: the text of every hit that names an existing chunk, in rank order. */
  function ContextOf(results: seq<Hit>, chunks: seq<Chunk>): seq<string>
  {
    if results == [] then []
    else
      var h := results[|results| - 1];
      ContextOf(results[..|results| - 1], chunks) + (if InRange(h, chunks) then [chunks[h.index].text] else [])
  }

  /** The cited permits: one entry per permit, taken from its first (best-ranked) hit. */
  function SourcesOf(results: seq<Hit>, chunks: seq<Chunk>): seq<Source>
  {
    if results == [] then []
    else
      var h := results[|results| - 1];
      var prev := SourcesOf(results[..|results| - 1], chunks);
      if InRange(h, chunks) && chunks[h.index].permitId !in PermitIds(prev) then prev + [SourceOf(h, chunks)]
      else prev
  }

  /** The loop over the results that gathers the passages and the sources. */
  method AssembleContext(results: seq<Hit>, chunks: seq<Chunk>) returns (context: seq<string>, sources: seq<Source>)
    ensures context == ContextOf(results, chunks)
    ensures sources == SourcesOf(results, chunks)
  {
    context, sources := [], [];
    for i := 0 to |results|
      invariant context == ContextOf(results[..i], chunks)
      invariant sources == SourcesOf(results[..i], chunks)
    {
      assert results[..i + 1][..i] == results[..i];
      var h := results[i];
      if h.index < |chunks| {
        var chunk := chunks[h.index];
        context := context + [chunk.text];
        if chunk.permitId !in PermitIds(sources) {
          sources := sources + [Source(chunk.permitId, chunk.permitName, chunk.agency, h.score)];
        }
      }
    }
    assert results[..|results|] == results;
  }

  /** Every passage is the text of a hit's chunk, at most one per hit. */
  lemma {:induction false} ContextFromHits(results: seq<Hit>, chunks: seq<Chunk>)
    ensures |ContextOf(results, chunks)| <= |results|
    ensures forall t :: t in ContextOf(results, chunks) ==>
      exists k :: 0 <= k < |results| && InRange(results[k], chunks) && t == chunks[results[k].index].text
  {
    if results != [] {
      var init := results[..|results| - 1];
      ContextFromHits(init, chunks);
      forall t | t in ContextOf(results, chunks)
        ensures exists k :: 0 <= k < |results| && InRange(results[k], chunks) && t == chunks[results[k].index].text
      {
        if t in ContextOf(init, chunks) {
          var k :| 0 <= k < |init| && InRange(init[k], chunks) && t == chunks[init[k].index].text;
          assert results[k] == init[k];
        } else {
          assert InRange(results[|results| - 1], chunks);
        }
      }
    }
  }

  /** When every hit names an existing chunk, the context is exactly the hits' texts in rank order. */
  lemma {:induction false} ContextAligned(results: seq<Hit>, chunks: seq<Chunk>)
    requires forall k :: 0 <= k < |results| ==> results[k].index < |chunks|
    ensures |ContextOf(results, chunks)| == |results|
    ensures forall k :: 0 <= k < |results| ==> ContextOf(results, chunks)[k] == chunks[results[k].index].text
  {
    if results != [] {
      var init := results[..|results| - 1];
      ContextAligned(init, chunks);
      forall k | 0 <= k < |results|
        ensures ContextOf(results, chunks)[k] == chunks[results[k].index].text
      {
        if k < |init| {
          assert results[k] == init[k];
        }
      }
    }
  }

  predicate DistinctIds(s: seq<Source>)
  {
    forall i, j :: 0 <= i < j < |s| ==> s[i].permitId != s[j].permitId
  }

  /** No permit is cited twice. */
  lemma {:induction false} SourcesDistinct(results: seq<Hit>, chunks: seq<Chunk>)
    ensures DistinctIds(SourcesOf(results, chunks))
  {
    if results != [] {
      var init := results[..|results| - 1];
      SourcesDistinct(init, chunks);
      var prev := SourcesOf(init, chunks);
      var s := SourcesOf(results, chunks);
      forall i, j | 0 <= i < j < |s| ensures s[i].permitId != s[j].permitId {
        if j < |prev| {
          assert s[i] == prev[i] && s[j] == prev[j];
          assert prev[i].permitId != prev[j].permitId;
        } else {
          var h := results[|results| - 1];
          assert s == prev + [SourceOf(h, chunks)];
          assert s[i] == prev[i] && s[j] == SourceOf(h, chunks);
          assert PermitIds(prev)[i] == prev[i].permitId;
          assert chunks[h.index].permitId !in PermitIds(prev);
        }
      }
    }
  }

  /** Every permit with a hit that names an existing chunk is cited. */
  lemma {:induction false} SourcesCover(results: seq<Hit>, chunks: seq<Chunk>)
    ensures forall k :: 0 <= k < |results| && InRange(results[k], chunks) ==>
      chunks[results[k].index].permitId in PermitIds(SourcesOf(results, chunks))
  {
    if results != [] {
      var init := results[..|results| - 1];
      SourcesCover(init, chunks);
      var prev := SourcesOf(init, chunks);
      var s := SourcesOf(results, chunks);
      assert prev <= s;
      forall k | 0 <= k < |results| && InRange(results[k], chunks)
        ensures chunks[results[k].index].permitId in PermitIds(s)
      {
        if k < |init| {
          assert results[k] == init[k];
          var id := chunks[results[k].index].permitId;
          var i :| 0 <= i < |prev| && PermitIds(prev)[i] == id;
          assert PermitIds(s)[i] == id;
        } else if |s| > |prev| {
          assert PermitIds(s)[|prev|] == chunks[results[k].index].permitId;
        }
      }
    }
  }

  /** Whether some hit before position `k` names an existing chunk of permit `id`. */
  predicate CitedBefore(results: seq<Hit>, chunks: seq<Chunk>, k: nat, id: string)
    requires k <= |results|
  {
    exists m :: 0 <= m < k && InRange(results[m], chunks) && chunks[results[m].index].permitId == id
  }

  /** Hit `k` names an existing chunk, `src` is taken from it, and no earlier hit names the same permit. */
  predicate FirstHit(results: seq<Hit>, chunks: seq<Chunk>, k: int, src: Source)
  {
    && 0 <= k < |results| && InRange(results[k], chunks)
    && src == SourceOf(results[k], chunks)
    && !CitedBefore(results, chunks, k, src.permitId)
  }

  predicate HasFirstHit(results: seq<Hit>, chunks: seq<Chunk>, src: Source)
  {
    exists k :: 0 <= k < |results| && FirstHit(results, chunks, k, src)
  }

  /**
    Each source is taken from the first hit of its permit: name, agency and
    score come from that hit, and no earlier hit names the same permit.
  */
  lemma {:induction false} SourcesFromFirstHit(results: seq<Hit>, chunks: seq<Chunk>)
    ensures forall i :: 0 <= i < |SourcesOf(results, chunks)| ==>
      HasFirstHit(results, chunks, SourcesOf(results, chunks)[i])
  {
    if results == [] {
      assert SourcesOf(results, chunks) == [];
    } else {
      var init := results[..|results| - 1];
      SourcesFromFirstHit(init, chunks);
      SourcesCover(init, chunks);
      var prev := SourcesOf(init, chunks);
      var s := SourcesOf(results, chunks);
      forall i | 0 <= i < |s|
        ensures HasFirstHit(results, chunks, s[i])
      {
        if i < |prev| {
          assert s[i] == prev[i];
          assert HasFirstHit(init, chunks, prev[i]);
          var k :| 0 <= k < |init| && FirstHit(init, chunks, k, prev[i]);
          assert results[k] == init[k];
          assert FirstHit(results, chunks, k, s[i]);
        } else {
          var k := |results| - 1;
          var h := results[k];
          assert s == prev + [SourceOf(h, chunks)] && s[i] == SourceOf(h, chunks);
          assert FirstHit(results, chunks, k, s[i]);
        }
      }
    }
  }

  /** Sources listed in the order their permits are first hit: source i's first hit precedes source j's when i < j. */
  predicate FirstSeenOrder(results: seq<Hit>, chunks: seq<Chunk>, s: seq<Source>)
  {
    forall i, j, k1, k2 :: 0 <= i < j < |s| && 0 <= k1 < |results| && 0 <= k2 < |results| && FirstHit(results, chunks, k1, s[i]) && FirstHit(results, chunks, k2, s[j]) ==> k1 < k2
  }

  /** A first hit before the last result is also a first hit of the results without the last one. */
  lemma FirstHitInInit(results: seq<Hit>, chunks: seq<Chunk>, k: int, src: Source)
    requires FirstHit(results, chunks, k, src) && k < |results| - 1
    ensures FirstHit(results[..|results| - 1], chunks, k, src)
  {
    var init := results[..|results| - 1];
    forall m | 0 <= m <= k
      ensures init[m] == results[m]
    {
    }
  }

  /** A permit already cited by the earlier results has its first hit among them, never at the last result. */
  lemma FirstHitNotLast(results: seq<Hit>, chunks: seq<Chunk>, k: int, src: Source)
    requires results != [] && FirstHit(results, chunks, k, src)
    requires HasFirstHit(results[..|results| - 1], chunks, src)
    ensures k < |results| - 1
  {
    var init := results[..|results| - 1];
    var m :| 0 <= m < |init| && FirstHit(init, chunks, m, src);
    assert results[m] == init[m];
    assert CitedBefore(results, chunks, |results| - 1, src.permitId);
  }

  /**
    The sources appear in the order in which their permits are first hit:
    for i < j, the first hit of source i ranks above the first hit of source j.
  */
  lemma {:induction false} SourcesInFirstSeenOrder(results: seq<Hit>, chunks: seq<Chunk>)
    ensures FirstSeenOrder(results, chunks, SourcesOf(results, chunks))
  {
    if results != [] {
      var init := results[..|results| - 1];
      var last := |results| - 1;
      SourcesInFirstSeenOrder(init, chunks);
      SourcesFromFirstHit(init, chunks);
      var prev := SourcesOf(init, chunks);
      var s := SourcesOf(results, chunks);
      forall i, j, k1, k2 | 0 <= i < j < |s| && 0 <= k1 < |results| && 0 <= k2 < |results| && FirstHit(results, chunks, k1, s[i]) && FirstHit(results, chunks, k2, s[j])
        ensures k1 < k2
      {
        assert s[i] == prev[i];
        assert HasFirstHit(init, chunks, prev[i]);
        FirstHitNotLast(results, chunks, k1, s[i]);
        if j < |prev| {
          assert s[j] == prev[j];
          assert HasFirstHit(init, chunks, prev[j]);
          FirstHitNotLast(results, chunks, k2, s[j]);
          FirstHitInInit(results, chunks, k1, s[i]);
          FirstHitInInit(results, chunks, k2, s[j]);
        } else {
          // the new source's permit is not hit before the last result
          var h := results[last];
          assert s == prev + [SourceOf(h, chunks)];
          assert s[j].permitId !in PermitIds(prev);
          SourcesCover(init, chunks);
          forall m | 0 <= m < last && InRange(results[m], chunks)
            ensures chunks[results[m].index].permitId != s[j].permitId
          {
            assert results[m] == init[m];
          }
        }
      }
    }
  }

  /** The results that name an existing chunk, in rank order. */
  function InRangeHits(results: seq<Hit>, chunks: seq<Chunk>): (r: seq<Hit>)
    ensures |r| <= |results|
    ensures forall k :: 0 <= k < |r| ==> InRange(r[k], chunks) && r[k] in results
    ensures forall k :: 0 <= k < |results| && InRange(results[k], chunks) ==> results[k] in r
  {
    if results == [] then []
    else
      var h := results[|results| - 1];
      InRangeHits(results[..|results| - 1], chunks) + (if InRange(h, chunks) then [h] else [])
  }

  /** Hits that name no chunk contribute nothing to the context. */
  lemma {:induction false} ContextSkipsOutOfRange(results: seq<Hit>, chunks: seq<Chunk>)
    ensures ContextOf(results, chunks) == ContextOf(InRangeHits(results, chunks), chunks)
  {
    if results != [] {
      var init := results[..|results| - 1];
      var h := results[|results| - 1];
      ContextSkipsOutOfRange(init, chunks);
      var f := InRangeHits(init, chunks);
      if InRange(h, chunks) {
        assert InRangeHits(results, chunks) == f + [h];
        assert (f + [h])[..|f|] == f;
      } else {
        assert InRangeHits(results, chunks) == f;
      }
    }
  }

  /** The context is exactly the texts of the in-range results, one per result, in rank order. */
  lemma ContextExact(results: seq<Hit>, chunks: seq<Chunk>)
    ensures var hits := InRangeHits(results, chunks);
      && |ContextOf(results, chunks)| == |hits|
      && forall k :: 0 <= k < |hits| ==> ContextOf(results, chunks)[k] == chunks[hits[k].index].text
  {
    ContextSkipsOutOfRange(results, chunks);
    ContextAligned(InRangeHits(results, chunks), chunks);
  }

  // ------------------------------------------------- the handler

  /** The cached index and chunks after a load attempt, and whether the attempt succeeded. */
  datatype LoadOutcome = LoadOutcome(index: Option<VectorIndex>, chunks: Option<seq<Chunk>>, ok: bool)

  /**
    load_index as a step on the cache: nothing to do once both are loaded;
    otherwise the chunks file (`None`: it could not be fetched or parsed) is
    cached first, then the index file is read.
  */
  function LoadStep(index: Option<VectorIndex>, chunks: Option<seq<Chunk>>,
                    chunksFile: Option<seq<Chunk>>, indexFile: Option<seq<byte>>): (r: LoadOutcome)
    ensures index.Some? && chunks.Some? ==> r == LoadOutcome(index, chunks, true)
    ensures r.ok <==> (index.Some? && chunks.Some?) || (chunksFile.Some? && indexFile.Some? && Decode(indexFile.value).Ok?)
    ensures r.ok ==> r.index.Some? && r.chunks.Some?
    ensures !(index.Some? && chunks.Some?) ==>
      && r.chunks == (if chunksFile.Some? then chunksFile else chunks)
      && r.index == (if r.ok then Some(Decode(indexFile.value).value) else index)
  {
    if index.Some? && chunks.Some? then LoadOutcome(index, chunks, true)
    else if chunksFile.None? then LoadOutcome(index, chunks, false)
    else if indexFile.None? then LoadOutcome(index, chunksFile, false)
    else
      match Decode(indexFile.value)
      case Err(_) => LoadOutcome(index, chunksFile, false)
      case Ok(ix) => LoadOutcome(Some(ix), chunksFile, true)
  }

  /** The cache is filled once: after a successful load, later loads change nothing, whatever the files hold. */
  lemma LoadOnce(index: Option<VectorIndex>, chunks: Option<seq<Chunk>>,
                 chunksFile: Option<seq<Chunk>>, indexFile: Option<seq<byte>>,
                 laterChunks: Option<seq<Chunk>>, laterIndex: Option<seq<byte>>)
    requires LoadStep(index, chunks, chunksFile, indexFile).ok
    ensures var r := LoadStep(index, chunks, chunksFile, indexFile);
      LoadStep(r.index, r.chunks, laterChunks, laterIndex) == r
  {
  }

  /** A request that reaches the rate limit: not a preflight, a JSON body, and a question that passes validation. */
  predicate Validated(httpMethod: string, body: RequestBody)
  {
    httpMethod != "OPTIONS" && body.Json? && ValidateQuestion(body.question).Ok?
  }

  /**
    The handler's work once a question is admitted: search the loaded index
    with the question's embedding, build the prompt context and the sources,
    and answer; any failure along the way is an internal error.
  */
  function Respond<Q>(question: string, cache: LoadOutcome,
                      embed: string -> Option<Q>, sim: (Q, seq<Word>) -> real,
                      generate: (string, string) -> Option<string>): (r: Response)
    ensures r.Answered? || r.ServerError?
    ensures r.Answered? <==>
      && cache.ok && cache.chunks.Some? && embed(question).Some?
      && generate(question, JoinWith(ContextSeparator,
           ContextOf(SearchResults(cache.index, embed(question).value, sim, DefaultTopK), cache.chunks.value))).Some?
    ensures r.Answered? ==>
      var results := SearchResults(cache.index, embed(question).value, sim, DefaultTopK);
      && r.query == question
      && r.sources == SourcesOf(results, cache.chunks.value)
      && Some(r.answer) == generate(question, JoinWith(ContextSeparator, ContextOf(results, cache.chunks.value)))
  {
    if !cache.ok || cache.chunks.None? then ServerError
    else
      match embed(question)
      case None => ServerError
      case Some(vector) =>
        var results := SearchResults(cache.index, vector, sim, DefaultTopK);
        match generate(question, JoinWith(ContextSeparator, ContextOf(results, cache.chunks.value)))
        case None => ServerError
        case Some(answer) => Answered(answer, SourcesOf(results, cache.chunks.value), question)
  }


  /**
    The module-level state of one warm instance: the loaded index and
    chunks (`None` until loaded) and the counter file kept in its scratch
    directory.
  */
  class Runtime {
    var faissIndex: Option<VectorIndex>
    var chunks: Option<seq<Chunk>>
    var counterFile: UsageGuard.CounterFile

    /** A cold instance: nothing loaded yet, the counter file as found. */
    constructor (counterFile: UsageGuard.CounterFile)
      ensures this.faissIndex == None && this.chunks == None && this.counterFile == counterFile
    {
      this.faissIndex := None;
      this.chunks := None;
      this.counterFile := counterFile;
    }

    /** check_rate_limit: decides on the query and writes the counter back when it is admitted. */
    method CheckRateLimit(today: string) returns (outcome: UsageGuard.Outcome)
      modifies this
      ensures outcome == UsageGuard.RateLimit(old(counterFile), today)
      ensures counterFile == (if outcome.Admitted? then outcome.file else old(counterFile))
      ensures faissIndex == old(faissIndex) && chunks == old(chunks)
    {
      outcome := UsageGuard.RateLimit(counterFile, today);
      if outcome.Admitted? {
        counterFile := outcome.file;
      }
    }

    /**
      load_index: a no-op once both the index and the chunks are loaded;
      otherwise reads the chunks file (`None`: it could not be fetched or
      parsed), then the index file.  `ok` is false where the source raises.
    */
    method LoadIndex(chunksFile: Option<seq<Chunk>>, indexFile: Option<seq<byte>>) returns (ok: bool)
      modifies this
      ensures LoadOutcome(faissIndex, chunks, ok) == LoadStep(old(faissIndex), old(chunks), chunksFile, indexFile)
      ensures counterFile == old(counterFile)
    {
      if faissIndex.Some? && chunks.Some? {
        return true;
      }
      if chunksFile.None? {
        return false;
      }
      chunks := chunksFile;
      if indexFile.None? {
        return false;
      }
      var r := ReadIndex(indexFile.value);
      if r.Err? {
        return false;
      }
      faissIndex := Some(r.value);
      return true;
    }

    /**
      lambda_handler.  `embed` and `generate` stand for the embedding and
      text-generation services (`None`: the call raised); `sim` is the
      similarity measure of the search.
    */
    method LambdaHandler<Q>(
      httpMethod: string, body: RequestBody, today: string,
      chunksFile: Option<seq<Chunk>>, indexFile: Option<seq<byte>>,
      embed: string -> Option<Q>, sim: (Q, seq<Word>) -> real,
      generate: (string, string) -> Option<string>)
      returns (response: Response)
      modifies this
      ensures response.Preflight? <==> httpMethod == "OPTIONS"
      ensures response.BadRequest? <==>
        httpMethod != "OPTIONS" && body.Json? && ValidateQuestion(body.question).Err?
      ensures response.BadRequest? ==> response.error == ValidateQuestion(body.question).error
      ensures httpMethod != "OPTIONS" && body.Malformed? ==> response == ServerError
      ensures !Validated(httpMethod, body) ==> unchanged(this)
      ensures Validated(httpMethod, body) ==>
        var outcome := UsageGuard.RateLimit(old(counterFile), today);
        && counterFile == (if outcome.Admitted? then outcome.file else old(counterFile))
        && (outcome.Denied? <==> response == QuotaExceeded)
        && (outcome.Failed? ==> response == ServerError)
        && (!outcome.Admitted? ==> faissIndex == old(faissIndex) && chunks == old(chunks))
      ensures Validated(httpMethod, body) && UsageGuard.RateLimit(old(counterFile), today).Admitted? ==>
        var cache := LoadStep(old(faissIndex), old(chunks), chunksFile, indexFile);
        && faissIndex == cache.index && chunks == cache.chunks
        && response == Respond(ValidateQuestion(body.question).value, cache, embed, sim, generate)
      ensures response.QuotaExceeded? ==> Validated(httpMethod, body)
      ensures response.Answered? ==>
        Validated(httpMethod, body) && UsageGuard.RateLimit(old(counterFile), today).Admitted?
    {
      if httpMethod == "OPTIONS" {
        return Preflight;
      }
      if body.Malformed? {
        return ServerError;
      }
      var validated := ValidateQuestion(body.question);
      if validated.Err? {
        return BadRequest(validated.error);
      }
      var question := validated.value;
      var outcome := CheckRateLimit(today);
      if outcome.Failed? {
        return ServerError;
      }
      if outcome.Denied? {
        return QuotaExceeded;
      }
      var loaded := LoadIndex(chunksFile, indexFile);
      if !loaded {
        return ServerError;
      }
      var queryVector := embed(question);
      if queryVector.None? {
        return ServerError;
      }
      var results := SearchIndex(faissIndex, queryVector.value, sim, DefaultTopK);
      var context, sources := AssembleContext(results, chunks.value);
      var answer := generate(question, JoinWith(ContextSeparator, context));
      if answer.None? {
        return ServerError;
      }
      return Answered(answer.value, sources, question);
    }
  }

  /**
    With an index of at least five vectors all matched by chunks, the answer
    cites between one and five permits and sees five passages.
  */
  lemma AnswerShape<Q>(ix: VectorIndex, chunks: seq<Chunk>, query: Q, sim: (Q, seq<Word>) -> real)
    requires |ix.vectors| >= DefaultTopK && |chunks| >= |ix.vectors|
    ensures var results := SearchResults(Some(ix), query, sim, DefaultTopK);
      && |ContextOf(results, chunks)| == DefaultTopK
      && 1 <= |SourcesOf(results, chunks)| <= DefaultTopK
  {
    var results := SearchResults(Some(ix), query, sim, DefaultTopK);
    SearchLength(Some(ix), query, sim, DefaultTopK);
    SearchHitsValid(ix, query, sim, DefaultTopK);
    ContextAligned(results, chunks);
    SourcesCover(results, chunks);
    SourcesBound(results, chunks);
    assert InRange(results[0], chunks);
  }

  lemma {:induction false} SourcesBound(results: seq<Hit>, chunks: seq<Chunk>)
    ensures |SourcesOf(results, chunks)| <= |results|
  {
    if results != [] {
      SourcesBound(results[..|results| - 1], chunks);
    }
  }
}
