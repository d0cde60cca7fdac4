# DC Permit Navigator — verified model of the retrieval core

The DC Permit Navigator answers natural-language questions about Washington DC
permits. An offline script (`scripts/build_index.py`) turns every permit of the
permit database into one text chunk, embeds each chunk, and writes the
embeddings to a small binary vector index. A request handler
(`lambda/handler.py`) validates the question, applies a daily query quota,
loads the index and chunks once per warm instance, ranks the stored vectors
against the embedded question, and hands the best passages to a language
model, citing each permit once.

This project models that core in Dafny and proves its properties:

| file | module | models |
|---|---|---|
| `wrappers.dfy` | `Wrappers` | `Option` / `Result` |
| `bytes.dfy` | `Bytes` | bytes, little-endian 32-bit header words, opaque 4-byte float cells |
| `index_format.dfy` | `IndexFormat` | the index writer and the handler's reader, with their round trip |
| `chunker.dfy` | `Chunker` | the agency lookup and `chunk_permit` |
| `indexer.dfy` | `Indexer` | the chunk and embedding loops of `build_index` |
| `ranking.dfy` | `Ranking` | `search_index`: scoring scan, stable descending sort, top-K cut |
| `usage_guard.dfy` | `UsageGuard` | the daily counter of `check_rate_limit` as a step function |
| `query.dfy` | `Query` | question validation, context/source assembly, and the handler's module state as class `Runtime` |

The embedding service, the text-generation service and the similarity
measure are parameters (`embed`, `generate`, `sim`); the index file, the
chunks file and the counter file are in-memory values; the current date is
a parameter. Scores are `real`s and float32 cells are opaque 4-byte words.

Behaviours of the code that the model keeps as they are:
- the quota counter is incremented before the index is loaded and before
  embedding and generation, so a request that then fails still uses quota;
- the reader does not compare the stored dimensions with the query's;
- each permit becomes exactly one chunk, never split;
- ties in score keep ascending vector order through the stability of
  Python's sort; there is no explicit tie-break;
- the index carries no corpus version;
- searching without a loaded index returns an empty list rather than an error.

## Model

| member | source | states |
|---|---|---|
| Bytes.EncodeU32 | scripts/build_index.py:151-152 | struct "I": a count below 2^32 as a 4-byte little-endian word (always four bytes) |
| Bytes.DecodeU32 | lambda/handler.py:82-83 | struct "I" read back: any 4-byte word gives a number below 2^32 |
| Bytes.DecodeEncodeU32 | scripts/build_index.py:151-152 | a count below 2^32 packed as a 4-byte little-endian word reads back as the same count |
| Bytes.EncodeDecodeU32 | lambda/handler.py:82-83 | every 4-byte word is the packing of the number it is read as |
| Bytes.WordsFlatten | scripts/build_index.py:153-154 | cutting the written cell bytes back into 4-byte words gives the cells in order |
| Bytes.FlattenSlice | scripts/build_index.py:153-154 | cell j of a written vector sits at bytes 4j..4j+4 |
| IndexFormat.VectorOffsetIs | lambda/handler.py:86-90 | vector i starts at byte 8 + i·(4·dimensions) |
| IndexFormat.OffsetMonotone | lambda/handler.py:86-90 | offsets grow with the vector number |
| IndexFormat.Decode | lambda/handler.py:81-92 | parsing succeeds exactly when the header is present and the buffer holds all count·dimensions cells; it then yields count vectors of the header's dimensions (a short buffer is an error, as struct.unpack raises) |
| IndexFormat.ReadIndex | lambda/handler.py:81-92 | the reader's offset loop computes exactly `Decode` |
| IndexFormat.Header | scripts/build_index.py:151-152 | the header is the vector count then the 256 dimensions, 8 bytes in all |
| IndexFormat.Body | scripts/build_index.py:153-154 | every vector's cells written in order (its length and layout are stated by `BodyLength` and `BodySlice`) |
| IndexFormat.Serialize | scripts/build_index.py:149-154 | header then body (what it reads back as is stated by `DecodeSerialize` and `SerializedVector`) |
| IndexFormat.WriteIndex | scripts/build_index.py:149-154 | the write succeeds iff the count fits 32 bits and every vector has 256 cells; it then emits the serialised index; a failing write leaves the header plus the vectors before the first misfit, or nothing when the count does not fit |
| IndexFormat.BodyLength | scripts/build_index.py:153-154 | the body written for n vectors of d cells ends where the reader expects vector n to start |
| IndexFormat.BodySlice | scripts/build_index.py:153-154 | vector i's cells are written at the reader's offset for vector i |
| IndexFormat.SerializedSize | scripts/build_index.py:149-154 | the file is 8 + n·256·4 bytes |
| IndexFormat.SerializedHeader | scripts/build_index.py:151-152 | the header words read back as (number of vectors, 256) |
| IndexFormat.SerializedVector | scripts/build_index.py:153-154 | the reader's vector i is the writer's vector i |
| IndexFormat.DecodeSerialize | lambda/handler.py:81-92 | reading a written index gives back the same vectors with 256 dimensions |
| IndexFormat.DecodeIgnoresTrailing | lambda/handler.py:82-90 | bytes after the last vector do not change what the reader returns |
| Chunker.AgencyLookup | scripts/build_index.py:39 | the map from agency id to agency (its keys and last-wins rule are stated by the next two rows) |
| Chunker.AgencyLookupKeys | scripts/build_index.py:39 | the lookup's keys are exactly the agencies' ids |
| Chunker.AgencyLookupLastWins | scripts/build_index.py:39 | an id maps to the last agency that carries it |
| Chunker.Render | scripts/build_index.py:55-81 | each line as its label, ": " and value, the former name as "(Formerly: …)" |
| Chunker.JoinWith | scripts/build_index.py:81-83 | Python's `str.join`: the parts with the separator between consecutive ones |
| Chunker.Lines | scripts/build_index.py:54-81 | the chunk's lines (their contents and order are stated by `LinesMatchFields` and `LinesInFixedOrder`) |
| Chunker.ChunkPermit | scripts/build_index.py:85-93 | exactly one chunk; id and name copied; category metadata is the category or ""; agency is the looked-up name or "Unknown Agency" |
| Chunker.LinesMatchFields | scripts/build_index.py:50-81 | a line with a given label and value is present iff the permit field (or agency's former name) has that value: optional lines iff truthy, category and description defaulting to "N/A", related permits joined with ", " |
| Chunker.OptionalLinesMatch | scripts/build_index.py:62-81 | an optional line with a given label and value is present iff that field is truthy with that value (related permits: a non-empty list, joined with ", ") |
| Chunker.OptionalLinesInOrder | scripts/build_index.py:62-81 | the optional lines follow the description in the fixed order Requirements … Related Permits |
| Chunker.LinesInFixedOrder | scripts/build_index.py:54-81 | all lines come in the fixed label order, each label at most once |
| Chunker.ChunkTextHeader | scripts/build_index.py:55-57 | the chunk text begins with the "Permit: ", "Category: " and "Agency: " lines, each ended by a newline |
| Chunker.JoinHeader | scripts/build_index.py:83 | joining four or more parts with newlines puts the first three parts, each followed by a newline, in front |
| Chunker.UnknownAgency | scripts/build_index.py:50-52 | an unknown agency or one without a name gives "Unknown Agency", and an unknown agency gives no former-name line |
| Chunker.MissingAgencyReference | scripts/build_index.py:50 | a permit without an agency reference finds no agency unless one has the empty id |
| Indexer.ChunkAll | scripts/build_index.py:122-125 | every permit's chunks appended in permit order (one per permit, by `ChunkAllAligned`) |
| Indexer.BuildIndex | scripts/build_index.py:122-154 | chunks are every permit's chunks in permit order, vector i is the embedding of chunk i, and the write succeeds iff the vectors are writable, producing the serialised index |
| Indexer.ChunkAllAligned | scripts/build_index.py:122-126 | one chunk per permit: chunk i is permit i's chunk |
| Indexer.Embedded | scripts/build_index.py:131-138 | one vector per chunk, vector i embedding chunk i's text |
| Indexer.BuiltIndexAligned | scripts/build_index.py:122-154 | the written index reads back as one 256-cell vector per permit, vector i being the embedding of permit i's chunk |
| Indexer.BuiltIndexSize | scripts/build_index.py:149-154 | the written file is 8 + 1024 bytes per permit |
| Ranking.InsertByScore | lambda/handler.py:116 | inserting keeps every element (multiset) |
| Ranking.SortByScoreDesc | lambda/handler.py:116 | the sort is a permutation of its input |
| Ranking.InsertRanked | lambda/handler.py:116 | inserting an earlier-indexed hit into a ranked list keeps it ranked |
| Ranking.SortRanked | lambda/handler.py:116 | sorting hits listed in ascending index order yields descending scores with ties in ascending index order |
| Ranking.Scored | lambda/handler.py:111-114 | one (position, similarity) pair per stored vector, in position order |
| Ranking.SearchResults | lambda/handler.py:106-117 | no index gives []; otherwise the stably sorted pairs cut to top_k (stated by the `Search…` lemmas below) |
| Ranking.SearchIndex | lambda/handler.py:106-117 | the scan, sort and cut compute `SearchResults`; no index gives [] |
| Ranking.InScored | lambda/handler.py:112-114 | every scored pair is a stored vector with its own score |
| Ranking.SearchLength | lambda/handler.py:108-117 | min(topK, number of vectors) results, or 0 without an index |
| Ranking.SearchRanked | lambda/handler.py:112-116 | results never increase in score, and equal scores keep ascending vector order |
| Ranking.SearchHitsValid | lambda/handler.py:112-114 | each result is a valid vector position with that vector's score, and no position repeats |
| Ranking.SearchComplete | lambda/handler.py:116-117 | a vector left out of the results is outranked by every returned one |
| UsageGuard.RateLimit | lambda/handler.py:178-198 | a missing, unreadable or other-day file counts as 0 for today; denial exactly when today's count ≥ 200 (file unchanged); otherwise the file becomes (today, count + 1); a today-dated file without a count fails |
| UsageGuard.RateLimitKeepsCap | lambda/handler.py:191-198 | the count never passes 200, and a fresh start is within the cap |
| UsageGuard.NewDayAdmits | lambda/handler.py:188-189 | a file dated another day admits the query as number 1 of today |
| UsageGuard.DailyQuota | lambda/handler.py:178-198 | k same-day queries from count c admit exactly the smaller of k and the room left under 200, leaving (today, c + admitted) |
| UsageGuard.DailyCap | lambda/handler.py:191-198 | from zero, at most 200 queries a day are admitted, and the first 200 all are |
| Query.Strip | lambda/handler.py:226 | Python's `str.strip()` with its whitespace set (stated by the three lemmas below) |
| Query.StripIsCore | lambda/handler.py:226 | the stripped question is the input minus its leading and trailing whitespace and neither starts nor ends with whitespace |
| Query.StripEmpty | lambda/handler.py:226-229 | the question strips to nothing iff it is all whitespace |
| Query.StripIdempotent | lambda/handler.py:226 | stripping twice equals stripping once |
| Query.ValidateQuestion | lambda/handler.py:225-232 | "Question is required" iff the (possibly absent) question is all whitespace; "Question too long" iff the stripped question exceeds 500 characters; otherwise the stripped question of 1..500 characters |
| Query.ContextOf | lambda/handler.py:256-259 | the text of every result whose position names a chunk, in rank order (exactly so by `ContextExact`) |
| Query.SourcesOf | lambda/handler.py:256-268 | one source per permit, from its first in-range result (stated by the `Sources…` lemmas) |
| Query.AssembleContext | lambda/handler.py:254-268 | the loop computes the context passages and the cited sources |
| Query.PermitIds | lambda/handler.py:260 | the list of cited ids, one per source in order |
| Query.ContextFromHits | lambda/handler.py:256-259 | at most one passage per result, each the text of a result's existing chunk |
| Query.ContextAligned | lambda/handler.py:256-259 | when every result names an existing chunk, the passages are exactly the results' texts in rank order |
| Query.SourcesDistinct | lambda/handler.py:260-268 | no permit is cited twice |
| Query.SourcesCover | lambda/handler.py:256-268 | every permit of a result with an existing chunk is cited |
| Query.SourcesFromFirstHit | lambda/handler.py:260-268 | each source carries the name, agency and score of its permit's first result, and no earlier result names that permit |
| Query.SourcesBound | lambda/handler.py:256-268 | at most one source per result |
| Query.InRangeHits | lambda/handler.py:256-257 | the results whose position names an existing chunk, each taken from the results |
| Query.ContextSkipsOutOfRange | lambda/handler.py:256-259 | results beyond the chunks add nothing: the context is that of the in-range results |
| Query.ContextExact | lambda/handler.py:254-259 | the context is exactly the texts of the in-range results, one each, in rank order |
| Query.FirstHitInInit | lambda/handler.py:256-260 | a permit's first result before the last one is still its first result without the last one |
| Query.FirstHitNotLast | lambda/handler.py:256-260 | a permit already cited by the earlier results is not first seen at the last one |
| Query.SourcesInFirstSeenOrder | lambda/handler.py:256-268 | sources are listed in the order their permits are first hit: for i < j, source i's first result ranks above source j's |
| Query.AnswerShape | lambda/handler.py:248-268 | with at least five vectors, all backed by chunks, the model sees five passages and one to five permits are cited |
| Query.LoadStep | lambda/handler.py:55-92 | once index and chunks are loaded nothing changes and the load succeeds; otherwise the chunks are cached when readable, and the load succeeds exactly when the chunks and index files are available and the index parses, caching the parsed index |
| Query.LoadOnce | lambda/handler.py:59-60 | after a successful load every later load is a no-op, whatever the files hold |
| Query.Respond | lambda/handler.py:245-280 | after admission: an answer exactly when the load succeeded, the question embeds and generation succeeds; the answer cites `SourcesOf` and is generated from the joined `ContextOf` of the top 5 results; otherwise a 500 |
| Query.Runtime.constructor | lambda/handler.py:21-23 | a cold instance has neither index nor chunks loaded |
| Query.Runtime.CheckRateLimit | lambda/handler.py:178-198 | the decision is `RateLimit` of the stored file, and the file is rewritten only on admission |
| Query.Runtime.LoadIndex | lambda/handler.py:55-92 | the new index, chunks and success flag are exactly `LoadStep` of the old cache and the files; the counter file is untouched |
| Query.Runtime.LambdaHandler | lambda/handler.py:215-290 | preflight (200) iff the method is OPTIONS; a 400 with the validation message iff the question fails validation; a malformed body is a 500; nothing changes before validation passes; then the counter follows `RateLimit`, a 429 iff it denies, and a denial or failure leaves the cache alone; on admission the cache becomes `LoadStep` of the old cache and the response is `Respond` on the stripped question |

## Left out

- Calls to the embedding and text-generation services, the prompt wording, the S3 downloads and uploads, and all file reads and writes: the services are function parameters and the files in-memory values.
- The caching of downloaded files under `/tmp` (a second download is skipped when the file exists): the model receives the file contents directly.
- Cosine similarity and all floating-point arithmetic: the similarity is an abstract real-valued function, and float32 cells are opaque 4-byte words.
- JSON encoding and decoding: the optional permit and agency fields are optional strings (`None` for an absent key); JSON `null` values, non-string field values and non-object counter files are not modelled.
- Missing required keys in the permit database: a permit without "name" (scripts/build_index.py:55) or "id" (scripts/build_index.py:88), or an agency without "id" (scripts/build_index.py:39), makes the source raise KeyError and abort the build; the model's `Permit` and `Agency` always carry these fields, so that failure is not modelled.
- A today-dated counter file whose "count" is not a number: the comparison at lambda/handler.py:191 raises TypeError and the handler answers 500; the model's count is an optional integer, so only a missing count (also a 500) is modelled.
- `cors_response` headers, printing, `traceback`, the embedding delay, argparse, the cost estimate, and `scripts/generate_site_data.py`, which only rewraps a JSON file.
- Concurrent invocations sharing the counter file: the counter is modelled for one instance, one request at a time.
- Query.AssembleContext: source scores are kept exact, not rounded to three decimals, because scores are abstract reals.
- Query.Runtime.LambdaHandler: a 500 does not carry the exception text of the source's error detail, and the 200/400/429/500 codes are named in the response type's documentation rather than modelled as numbers.
- Indexer.BuildIndex: the partial file left by a failing write is stated by `IndexFormat.WriteIndex`, not repeated here.
- Embedding failures during the offline build are not modelled: `embed` always returns a vector, whose length decides whether the write succeeds.
