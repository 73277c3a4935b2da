# enrichr_py in Dafny

A model of `Enrichr`, the Python client for the Enrichr gene-set enrichment service. A
session registers one gene list with the server and gets back two identifiers: `userListId`
and `shortId`. It then asks for enrichment results one gene-set library at a time. The
response for each library is cached. A response can be written to a file, or shaped into
two parallel lists (term names and one chosen column), ordered by `np.argsort` of that column.

The model has four modules:

- `Outcomes` (outcomes.dfy): the failure kinds the client raises, `Result`, `Option`, and
  `Reply`. A `Reply` is what the server answers: ok with a body, or not ok.
- `Chunks` (chunks.dfy): response bodies as bytes. It holds the slicing of a downloaded body
  into chunks of at most 1024 bytes, and the write loop `if chunk: f.write(chunk)` as a method.
- `Ranking` (ranking.dfy): the pure part of `enrich_data`. `EnrichData` extracts the columns
  and computes the Python keys `sort_sign * values` as list repetition. `ArgSort` is
  insertion of indices. A corrected `EnrichDataIntended` is defined as well (see Findings).
- `EnrichrPy` (enrichr.dfy): the class `Enrichr`. Its identifiers are `const` fields. It has
  the cache `enrichCache: map<string, Payload>` and a ghost log `fetches` of every
  enrichment request sent, with its reply. `Valid()` states the cache invariant: every cached
  library had exactly one successful request, whose payload is the cached one, and no
  uncached library had any.

The network is a parameter. Each method that may send a request receives the `Reply` the
server would give. `Enrich` consults that reply only on a cache miss. Construction can fail,
so it is the static method `Create`, which returns `Failure(AddListFailed)` and no object
when the registration reply is not ok.

Where the documentation and the code disagree, the model follows the code.
`enrich_data`'s doc comment says the combined score (field 5) is ranked in decreasing
order. In the code, `-1 * values` is the
empty list, so field 5 yields `([], [])`. `np.argsort` is not stable, so the model makes no
promise about the order of equal keys.

## Model

| member | source | states |
|---|---|---|
| `EnrichrPy.Enrichr.Create` | enrichr_py/enrichr_py.py:16-49 | not-ok registration raises (`AddListFailed`) and yields no session; otherwise a fresh valid session whose ids come from the reply, whose description defaults to `""`, with an empty cache and no requests |
| `EnrichrPy.Enrichr.constructor` | enrichr_py/enrichr_py.py:21-28 | fields set from the arguments and the registration, cache empty, invariant established |
| `EnrichrPy.Enrichr.GetURL` | enrichr_py/enrichr_py.py:30-34 | the URL is the base, `/enrich?dataset=`, then `shortId`. It reads no mutable state, and `ShortIdOf` recovers `shortId` from it |
| `EnrichrPy.Enrichr.Enrich` | enrichr_py/enrichr_py.py:62-97 | hit: no request, cache unchanged, cached entry returned. Miss: exactly one request for `(userListId, library)` is logged. An ok reply is stored under `library` and returned, other keys unchanged. A not-ok reply gives `FetchFailed` and leaves the cache as it was. Keys only grow. With an output file, the file ends up holding the served body byte for byte |
| `EnrichrPy.Enrichr.EnrichData` | enrichr_py/enrichr_py.py:99-125 | `field` defaults to 2 (the p-value). Same cache and request effects as `Enrich` with no file. The result is the fetch failure, or the ranking of the served payload's records for `library` (`LibraryMissing` when the document has no such key) |
| `EnrichrPy.EnrichTwice` | enrichr_py/enrichr_py.py:68-97 | two calls for one library: if the first succeeds, the second returns the same payload and at most one request is sent. If the first fails, the second sends a request again |
| `EnrichrPy.Served` | enrichr_py/enrichr_py.py:68-77 | definition of what `enrich` returns: the cached entry on a hit, the reply's payload on an ok miss, `FetchFailed` otherwise; properties in `EnrichrPy.StoredGrows`, `EnrichrPy.ServedAgain` |
| `EnrichrPy.Stored` | enrichr_py/enrichr_py.py:68-77 | definition of the cache after `enrich`: the reply's payload is added only on an ok miss; properties in `EnrichrPy.StoredGrows`, `EnrichrPy.ServedAgain` |
| `EnrichrPy.RankPayload` | enrichr_py/enrichr_py.py:118-125 | definition: the library's records ranked by `Ranking.EnrichData`, `LibraryMissing` for the `KeyError` when the document has no such library; used by `EnrichrPy.Enrichr.EnrichData` |
| `EnrichrPy.Enrichr.Valid` | enrichr_py/enrichr_py.py:68-97 | invariant: every request was for this session's list, and the cache holds exactly the payloads of the successful requests, one per cached library; kept by `Create`, `Enrich`, `EnrichData` |
| `EnrichrPy.StoredGrows` | enrichr_py/enrichr_py.py:68-77 | the cache after `enrich` keeps every old entry unchanged and adds at most the requested library. That library is present exactly when the call succeeds, holding the returned payload |
| `EnrichrPy.ServedAgain` | enrichr_py/enrichr_py.py:68-97 | once a library was served, a later call returns the same payload whatever the server would say, and leaves the cache as it is |
| `EnrichrPy.OkPayloadsAppend` | enrichr_py/enrichr_py.py:69-77 | a new request adds its payload, if ok, to the successful fetches of its own library and of no other |
| `Chunks.Concat` | enrichr_py/enrichr_py.py:93-94 | definition: the bytes of the chunks written one after another; properties in `Chunks.ConcatNonEmpty`, `Chunks.SavedBodyRoundTrip` |
| `Chunks.NonEmpty` | enrichr_py/enrichr_py.py:93 | the `if chunk` filter keeps only non-empty chunks, in order, and never more than it was given |
| `Chunks.Split` | enrichr_py/enrichr_py.py:92 | the streamed chunks are non-empty, at most `size` bytes each, and concatenate to the body |
| `Chunks.WriteChunks` | enrichr_py/enrichr_py.py:91-94 | the loop writes the concatenation of the non-empty chunks, which equals the concatenation of all chunks |
| `Chunks.ConcatNonEmpty` | enrichr_py/enrichr_py.py:92-94 | dropping empty chunks loses no byte |
| `Chunks.NonEmptyKeepsFullChunks` | enrichr_py/enrichr_py.py:93 | chunks none of which is empty pass the `if chunk` filter unchanged |
| `Chunks.SavedBodyRoundTrip` | enrichr_py/enrichr_py.py:91-94 | streaming a body in 1024-byte chunks and writing the non-empty ones reproduces the body |
| `Ranking.SortSign` | enrichr_py/enrichr_py.py:114-117 | definition: `-1` for the combined score, `1` for every other field; properties in `Ranking.SignedKeys` |
| `Ranking.Repeat` | enrichr_py/enrichr_py.py:124 | Python's `k * list` has `k * len(list)` elements, and none when `k <= 0` |
| `Ranking.SignedKeys` | enrichr_py/enrichr_py.py:114-117 | the sort keys `sort_sign * values` are a copy of the values, except for field 5, where they are empty |
| `Ranking.InsertMultiset` | enrichr_py/enrichr_py.py:124 | inserting an index adds exactly one copy of that index and nothing else |
| `Ranking.InsertSorted` | enrichr_py/enrichr_py.py:124 | inserting an index into a key-ordered index list keeps it key-ordered |
| `Ranking.SortPrefixPermutes` | enrichr_py/enrichr_py.py:124 | the order built for the first `m` keys holds every index below `m` exactly once |
| `Ranking.SortPrefixSorted` | enrichr_py/enrichr_py.py:124 | the order built for the first `m` keys reads them in non-decreasing order |
| `Ranking.ArgSort` | enrichr_py/enrichr_py.py:124 | `np.argsort`: a permutation of the key indices reading the keys in non-decreasing order. Tie order is not promised |
| `Ranking.EnrichData` | enrichr_py/enrichr_py.py:114-125 | definition of the as-written ranking (column extraction, `sort_sign * values`, argsort); `field` defaults to 2 as at line 99; properties in `Ranking.EnrichDataFails`, `Ranking.EnrichDataAscending`, `Ranking.EnrichDataKeepsPairs`, `Ranking.EnrichDataCombinedScore` |
| `Ranking.EnrichDataUnfold` | enrichr_py/enrichr_py.py:121-125 | away from field 5, both returned lists are read through the one argsort permutation of the value column |
| `Ranking.EnrichDataFails` | enrichr_py/enrichr_py.py:118-124 | `ColumnMissing` (IndexError) exactly when some record lacks column 1 or column `field`. `NotNumeric` exactly when, away from field 5, the sort column holds a non-number. No other failure |
| `Ranking.EnrichDataAscending` | enrichr_py/enrichr_py.py:121-125 | for field ≠ 5: one entry per record, and one permutation `p` with `names[k] = data[p[k]][1]` and `values[k] = data[p[k]][field]`. `values` is non-decreasing |
| `Ranking.EnrichDataKeepsPairs` | enrichr_py/enrichr_py.py:121-125 | the returned (name, value) pairs are a rearrangement (equal multisets) of the records' own pairs |
| `Ranking.PermuteAgree` | enrichr_py/enrichr_py.py:125 | reading a list through two index lists with equal multisets gives equal multisets of elements |
| `Ranking.PermuteMultiset` | enrichr_py/enrichr_py.py:125 | reading a list through a permutation of its indices rearranges its elements |
| `Ranking.EnrichDataCombinedScore` | enrichr_py/enrichr_py.py:114-125 | for field 5 the result is `([], [])` for any records that have the columns |
| `Ranking.TwoTermsByPValue` | enrichr_py/enrichr_py.py:121-125 | two terms with p-values 0.5 and 0.1 come back as (B, A) with values (0.1, 0.5) |
| `Ranking.EnrichDataTwo` | enrichr_py/enrichr_py.py:121-125 | on two records where the second key is below the first, the ranking swaps them. Equal keys are left out, since no tie order is promised |
| `Ranking.ArgSortPair` | enrichr_py/enrichr_py.py:124 | argsort of two distinct keys is `[1, 0]` when the second is below the first, else `[0, 1]`. Equal keys are excluded because `np.argsort` promises no tie order |
| `Ranking.TwoTermsByCombinedScore` | enrichr_py/enrichr_py.py:112-124 | the same two terms by combined score come back as `([], [])`, not in decreasing order as line 112 promises |
| `Ranking.EnrichDataIntended` | enrichr_py/enrichr_py.py:112-125 | definition of the corrected ranking, which sorts field 5 by negated scores; properties in `Ranking.IntendedAgreesElsewhere`, `Ranking.IntendedCombinedScoreDescending` |
| `Ranking.IntendedAgreesElsewhere` | enrichr_py/enrichr_py.py:114-125 | the corrected ranking equals the code's for every field but 5 |
| `Ranking.IntendedCombinedScoreDescending` | enrichr_py/enrichr_py.py:112 | corrected field-5 ranking: one entry per record through one permutation, with scores non-increasing |
| `Ranking.IntendedTwoByCombinedScore` | enrichr_py/enrichr_py.py:112 | corrected ranking of two records whose first score is below the second: the second record comes first |
| `Ranking.TwoTermsByCombinedScoreIntended` | enrichr_py/enrichr_py.py:112 | the corrected ranking returns the two terms as (B, A) with scores (9.0, 3.0) |

## Findings

| source | as written | input that shows it | evidently intended | confidence | as-written member | corrected member |
|---|---|---|---|---|---|---|
| enrichr_py/enrichr_py.py:124 | `np.argsort(sort_sign * values)` multiplies a Python list, so with `sort_sign = -1` the keys are `[]` and both results are empty | field 5 on the records `[0, "Pathway A", 0.5, 0.6, 1.2, 3.0]` and `[1, "Pathway B", 0.1, 0.2, 2.5, 9.0]` gives `([], [])` | terms ordered by decreasing combined score, as the doc comment at line 112 says: `(["Pathway B", "Pathway A"], [9.0, 3.0])` | high (not executed) | `Ranking.TwoTermsByCombinedScore` | `Ranking.IntendedCombinedScoreDescending` |

`Ranking.EnrichDataIntended` is the corrected definition: it ranks field 5 by negated scores.
`Ranking.IntendedAgreesElsewhere` proves it agrees with the code on every other field.
`Ranking.TwoTermsByCombinedScoreIntended` shows it returns the documented answer on the
example above. The session method `EnrichrPy.Enrichr.EnrichData` models the code as
written, so it uses `Ranking.EnrichData`.

## Left out

- HTTP transport (`requests.post`, `requests.get`, response objects): each request's outcome is a `Reply` parameter. Timeouts, retries and transport exceptions are not modelled.
- `view`: it is not modelled. It sends one uncached GET and raises on a non-ok reply, and touches no state.
- JSON parsing: the registration reply is modelled already parsed, as `Registration(userListId, shortId)`. So a reply without those keys (a KeyError in Python) is not modelled, and `userListId` is taken to be an integer and `shortId` a string. An enrichment `Payload` carries both its body bytes and the document the body parses to. The model does not relate the two.
- String formatting of the request URLs sent to the server: a request is recorded as `Fetch(userListId, library, reply)`, not as a URL.
- `EnrichrPy.Enrichr.GetURL`: models `os.path.join` with the POSIX separator `/`. On Windows the separator would be `\`.
- `EnrichrPy.Enrichr.Enrich`: the output-file branch is modelled only as the bytes the file ends up holding. Path resolution (`os.path.isabs`, `os.path.abspath`, which depends on the working directory), directory creation, and `open`/`write` failures are not modelled. Nor is the bare `raise()` on lines 89 and 96, which raises a TypeError. So the model never fails after a successful fetch, and a write failure after a miss, which leaves the new entry in the cache, is not represented.
- `Chunks.Split`: the slicing of a downloaded body is the HTTP library's (`iter_content` over already-read content). It is modelled after that behaviour, not after code in this repository.
- `Ranking.EnrichData`: the requires excludes column 1 (string names, which numpy would sort as strings) and negative column numbers (Python indexes those from the end). So sorting by those columns is not modelled.
- `Ranking.EnrichData`: a non-numeric sort column is reported as `NotNumeric`, where numpy would sort a column holding strings as strings (a mix of numbers and strings becomes a string array), and raise only on nulls or nested lists. Scores are exact `real`s, so floating-point rounding and NaN are not modelled.
- `Ranking.ArgSort`: the model computes one particular order for equal keys. Only the permutation and the non-decreasing order are promised, because `np.argsort`'s default algorithm is not stable.
- Concurrency: the client is single-threaded, so concurrent first-time `enrich` calls for one library do not arise in the model.
- Packaging (`setup.py`) and the test file, which only calls the live server, are not part of this model.
