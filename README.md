# Attractions4U backend — verified model of the recommender and its services

Attractions4U recommends tourist attractions. This project models the part of its backend that makes the recommendations, and the four small services around it, in Dafny. It also proves what they promise.

The recommender builds each user's list in three steps:
- **Preference candidates.** Each type the user prefers is normalised: fixed spelling corrections, then noun singularisation. A search query is built from the user's countries and types.
- **History candidates.** The five most recent page views seed an expansion. The result is the attractions similar to those views that also match their dominant types or image labels.
- **Merge and fetch.** A capped random sample of both candidate sets is merged. The records are fetched in one batch, with missing `restaurants` and `weekday_text` defaulted to empty lists.

The user-facing handler reads through a cache. On a hit it returns a shuffled cut of 36 cached records; on a miss it computes the list, caches it for 15 seconds and returns a shuffled cut. A scheduled run recomputes and caches the list of every user.

The other services:
- **Cache service.** Validates `get`/`del`/`set` requests and runs them key by key over a store with a 15-second TTL.
- **Attraction services.** There is a Python and a JavaScript twin. Both answer keyword searches with a projected listing. Both count each attraction-page view in the attraction record and in the user's page-history row. The Python one also fetches nearby restaurants from Yelp for records that have none, using a location string derived per country from the address.
- **User-profile service.** Reads, registers and updates profiles. An update evicts the user's cached recommendations.

## How it is modelled

External calls are parameters of the model:
- Elasticsearch searches, DynamoDB reads of other services' data and Yelp are function-typed parameters (`Backend`, `HistoryIndex`, `Env`).
- nltk part-of-speech tagging and inflect singularisation form the uninterpreted `Tagger`.

State the code updates in place is a class:
- the cache store (`CacheService.Cache`);
- the attraction and page-history tables (`AttractionService.Tables`);
- the profile table (`ProfileService.Profiles`).

Each handler is a method proved against specification functions:
- `Validate`, `GetReplies`, `DeleteAll`, `DeleteReplies` and `SetAll` for the cache;
- `Viewed`, `Replay` and `SearchListing` for the attraction services;
- `NormalizeType` and `NormalizeQuery` for the normalisers;
- `PrefQuery` for the recommender's preference search body and `GetLocationQuery` for the Yelp location of an address, whose properties are the `PrefQuery…` and `LocationQuery…` lemmas;
- `Candidates` for the history expansion.

Lemmas about those functions state the properties.

Randomness is a nondeterministic choice:
- `random.sample` is a subset of the stated size;
- `random.shuffle` is a Fisher–Yates pass on an array;
- iterating a set is a list without duplicates holding exactly its elements.

Modules, by file:
- `wrappers.dfy`: `Option` and `Result`.
- `text.dfy`: Python string operations, such as `replace`, `split(sep)`, `split()`, `join` and slicing.
- `records.dfy`: profiles, attraction records, page-history rows, backfill and batch get.
- `normalizer.dfy`: `proc_attraction_type(s)` and `proc_usr_query`.
- `query.dfy`: the preference query.
- `lists.dfy`: `min` and lists without repeats.
- `sorting.dfy`: a descending sort and `[:n]`.
- `counting.dfy`: `collections.Counter`.
- `history.dfy`: `search_by_histories`.
- `randomness.dfy`: sampling and shuffling.
- `recommender.dfy`: merge, fetch and the handler.
- `cache.dfy`: the cache service.
- `attraction_service.dfy`: what the two attraction services share.
- `attraction_py.dfy`: the Python attraction service.
- `attraction_js.dfy`: the JavaScript attraction service.
- `profile.dfy`: the user-profile service.

## Model

| member | source | states |
|---|---|---|
| Normalizer.NormalizeToken | attractions4u-recommender/lambda_function.py:41-50 | non-nouns and nouns without a singular pass through unchanged; a noun with a singular becomes it, and a singular `biergarten` gains ` beer garden`; any change comes from a noun with a singular |
| Normalizer.PrepareType | attractions4u-recommender/lambda_function.py:35-37 | a type mentioning `nature_reserves` becomes exactly `nature_reserves`, and the result never contains `accomodation` |
| Normalizer.NatureReservesCollapse | attractions4u-recommender/lambda_function.py:35-36 | all types mentioning `nature_reserves` normalise to the same tag |
| Normalizer.PrepareTypeUntouched | attractions4u-recommender/lambda_function.py:35-37 | a type with neither correction reaches the tokeniser unchanged |
| Normalizer.PrepareTypeFixesSpelling | attractions4u-recommender/lambda_function.py:37 | a type starting with `accomodation` (and no `nature_reserves`) starts with `accommodation` instead, the rest rewritten alike |
| Normalizer.ProcAttractionType | attractions4u-recommender/lambda_function.py:34-51 | the token loop yields `NormalizeType`: corrections, split on `_`, per-token normalisation, joined by spaces |
| Normalizer.ProcAttractionTypes | attractions4u-recommender/lambda_function.py:54-58 | one normalised type per input type, in order |
| Normalizer.NoNounsMeansUnderscoresToSpaces | attractions4u-recommender/lambda_function.py:39-51 | when no token is a noun, normalisation just turns the corrected type's underscores into spaces |
| Normalizer.ProcUsrQuery | attractions4u-attraction-py/lambda_function.py:116-127 | the token loop yields `NormalizeQuery`: `_` to space, punctuation removed, whitespace split, nouns singularised, joined by spaces |
| Normalizer.QueryTokensClean | attractions4u-attraction-py/lambda_function.py:118 | the tagged tokens are non-empty, free of whitespace and punctuation, and concatenate to the cleaned query without its whitespace |
| Normalizer.QueryNonNounsPassThrough | attractions4u-attraction-py/lambda_function.py:118-127 | a query without nouns comes back as its cleaned tokens joined by single spaces |
| QueryBuilder.LocationClauses | attractions4u-recommender/lambda_function.py:82-85 | 2·len(countries) clauses: a phrase on `address` per country, then one on `description` per country |
| QueryBuilder.TypeClauses | attractions4u-recommender/lambda_function.py:86-90 | 3·len(types) clauses: `match` on `attractionTypeP`, then phrases on `attractionName`, then on `descriptionP`, per type |
| QueryBuilder.PrefQueryShape | attractions4u-recommender/lambda_function.py:66-112 | both clause lists non-empty give `must[should(location), should(type)]`, exactly one gives `should` of it, neither gives no inner query (each an if-and-only-if); size 100, only `_id`, no `_source` |
| QueryBuilder.PrefQueryLeaves | attractions4u-recommender/lambda_function.py:82-109 | the query's leaves are the location clauses followed by the type clauses, 2·len(countries) + 3·len(types) of them |
| Recommender.EsMultiSearch | attractions4u-recommender/lambda_function.py:130-133 | one id set per response, in response order, holding exactly that response's ids |
| Recommender.SearchByPrefs | attractions4u-recommender/lambda_function.py:136-138 | one preference-candidate set per profile, in profile order |
| Sorting.SortDescCorrect | attractions4u-recommender/lambda_function.py:145 | the sort is a permutation of the history, ordered by (lastVisit, cnt) descending |
| Sorting.TakeSortedIsTop | attractions4u-recommender/lambda_function.py:146 | no element left out of `sorted[:n]` outranks an element kept |
| HistoryExpander.RecentRowsSpec | attractions4u-recommender/lambda_function.py:145-146 | the seed rows are min(5, len(history)) rows of the history (all of them when at most 5), sorted, and none left out ranks above one kept |
| HistoryExpander.SimilarIdsMembership | attractions4u-recommender/lambda_function.py:167-173 | an id is in the similarity set exactly when some seed hit lists it in `visSimilar` or `descSimilar` |
| Counting.AddAllCounts | attractions4u-recommender/lambda_function.py:174-175 | `Counter.update` adds each key's number of occurrences to its count and keeps the counter well formed |
| Counting.DeleteForgets | attractions4u-recommender/lambda_function.py:178 | `del` removes exactly one key and leaves every other count unchanged |
| Counting.MostCommonTop | attractions4u-recommender/lambda_function.py:179 | `most_common()[:n]` gives exactly min(n, len(counter)) distinct counted keys, all of them when fewer than n, and no key left out has a higher count than one kept |
| HistoryExpander.TypeCounterCounts | attractions4u-recommender/lambda_function.py:168-174 | the type counter counts every occurrence of every type among the seed hits |
| HistoryExpander.LabelCounterCounts | attractions4u-recommender/lambda_function.py:169-175 | the label counter counts every occurrence of every label among the seed hits, none for a hit without labels |
| HistoryExpander.TopTypesSpec | attractions4u-recommender/lambda_function.py:178-179 | at most 15 distinct types, never `interesting place`, each seen; none left out seen more often than one chosen, and every seen type chosen when fewer than 15 are, so the list has min(15, distinct non-filler types seen) entries |
| HistoryExpander.TopLabelsSpec | attractions4u-recommender/lambda_function.py:210 | at most 15 distinct labels, each seen among the seed hits; none left out seen more often than one chosen, and every seen label chosen when fewer than 15 are |
| HistoryExpander.CandidatesSpec | attractions4u-recommender/lambda_function.py:240 | an id is a history candidate exactly when a seed hit lists it as similar and the type or the label search returned it |
| HistoryExpander.NoHistoryNoCandidates | attractions4u-recommender/lambda_function.py:146-173 | a user with no page history has no history candidates, given an `ids` search that returns only the ids asked for |
| HistoryExpander.SearchByHistory | attractions4u-recommender/lambda_function.py:143-242 | the loop over the seed hits yields `Candidates` of the user's history |
| HistoryExpander.SearchByHistories | attractions4u-recommender/lambda_function.py:141-243 | one candidate set per user, in user order |
| Randomness.Sample | attractions4u-recommender/lambda_function.py:300-301 | `random.sample(s, min(k, len(s)))`: a subset of the stated size, the whole set when it is no larger than k |
| Randomness.SetToSeq | attractions4u-recommender/lambda_function.py:303 | the list of a set holds each element exactly once |
| Randomness.Shuffle | attractions4u-recommender/lambda_function.py:307-308 | an in-place shuffle permutes the array |
| Randomness.Shuffled | attractions4u-recommender/lambda_function.py:307-308 | a shuffled copy is a permutation |
| Recommender.MergeCandidates | attractions4u-recommender/lambda_function.py:300-309 | merged is the union of a sample of min(len(P),100) preference ids and one of min(len(H),30) history ids; a set within its cap is kept whole; merged is empty iff P ∪ H is; the keys are min(len(merged), 100) distinct merged ids, all of them when there are at most 100 |
| Records.Present | attractions4u-recommender/lambda_function.py:311 | the batch returns the requested keys the table holds, as a subsequence of the request (request order kept), no more than requested, without duplicates when the request has none |
| Records.BackfilledSpec | attractions4u-recommender/lambda_function.py:312-316 | a backfilled record has `restaurants` and `weekday_text`, missing ones are `[]`, present values and all other fields are untouched, and backfill is idempotent |
| Records.WithRestaurants | attractions4u-recommender/lambda_function.py:313-314 | `restaurants` is present afterwards, an existing value is kept, nothing else changes |
| Records.WithWeekdayText | attractions4u-recommender/lambda_function.py:315-316 | `weekday_text` is present afterwards, an existing value is kept, nothing else changes |
| Recommender.BackfillAll | attractions4u-recommender/lambda_function.py:312-316 | the loop replaces every fetched record, in place and in order, by its backfill: one record out per record in, each `Backfilled` of the one at its position |
| Recommender.RecommendFor | attractions4u-recommender/lambda_function.py:297-316 | merged is a sampled union; an empty candidate union gives `[]` and no fetch (iff); otherwise the keys are drawn from merged as above and the list is the backfilled stored records of the keys the table holds, in key order |
| Recommender.SampledUnionSpec | attractions4u-recommender/lambda_function.py:300-303 | a sampled union lies within the candidates, is no larger than the two caps together, is empty without candidates and is all of them when both fit their caps |
| Recommender.FetchedSpec | attractions4u-recommender/lambda_function.py:311-316 | each fetched record is the complete backfilled record of a key; of a well-keyed table the ids are the held keys without repeats; every held key is fetched |
| Recommender.RecommendedSpec | attractions4u-recommender/lambda_function.py:297-316 | a recommendation has at most 100 records and no more than the two caps together, `[]` without candidates; each is the complete backfilled record of a candidate; of a well-keyed table the ids are distinct candidates; when both sets fit their caps and the union fits the fetch, every stored candidate is recommended |
| Recommender.GetRecommendations | attractions4u-recommender/lambda_function.py:291-318 | one list per (profile, email) pair up to the shorter; each is the fetch of keys drawn from a sampled union of that profile's preference candidates and that email's history candidates |
| Recommender.ShuffleAndTake | attractions4u-recommender/lambda_function.py:330-334 | a shuffled cut holds min(36, len(list)) elements of the list |
| Recommender.Recommend | attractions4u-recommender/lambda_function.py:322-356 | the store afterwards is the old one plus, when a list was computed, that list under the email for 15 s; a hit returns a cut of the cached list and writes nothing; a miss without a profile raises without writing; otherwise the list drawn from the user's preference and history candidates is written and a cut of it is returned |
| Recommender.Serve | attractions4u-recommender/lambda_function.py:328-356 | the three branches after the cache read: hit, a miss without a profile, and a miss with one, each with the write and the response stated for `Recommend` |
| Recommender.RecommendMiss | attractions4u-recommender/lambda_function.py:341-356 | on a miss the list drawn from the user's preference and history candidates is written under the email for 15 s, nothing else is written, and a cut of it is returned with status 200 |
| Recommender.WriteAndCut | attractions4u-recommender/lambda_function.py:346-351 | the list is written under the email for 15 s and nothing else changes; the response has status 200 and min(36, len(list)) records drawn from the list |
| Recommender.RecommendUser | attractions4u-recommender/lambda_function.py:344 | `get_recommendations([profile], [email])[0]` is a list drawn from that profile's preference candidates and that email's history candidates |
| Recommender.RecommendAll | attractions4u-recommender/lambda_function.py:296-318 | one list per pair of candidate sets, up to the shorter; each is the fetch of keys drawn from a sampled union of that pair |
| Recommender.CacheGet | attractions4u-recommender/lambda_function.py:262-273 | a `get` of no keys is refused with 400; otherwise the reply is 200 with each key's live value or null, in key order; the cache is only read |
| Recommender.CacheSet | attractions4u-recommender/lambda_function.py:276-288 | a `set` pairing at least one key with a value each writes them all for 15 s and acknowledges each key; any other is refused with 400 and writes nothing |
| Recommender.CacheSetOne | attractions4u-recommender/lambda_function.py:346 | `cache_set([email], [usr_res])` stores exactly that entry for 15 s and leaves every other key as it was |
| Recommender.Refresh | attractions4u-recommender/lambda_function.py:357-366 | every profile of the table gets the list drawn from its preference and history candidates, written in one `set` under its username (nothing when there are no profiles); status 200 |
| Recommender.RecommendScanned | attractions4u-recommender/lambda_function.py:360-362 | the usernames of the scanned profiles and, per profile, the list drawn from its preference and history candidates |
| Recommender.LambdaHandler | attractions4u-recommender/lambda_function.py:321-366 | a user request returns at most 36 records with status 200 or raises for a user without a profile; any other event refreshes |
| CacheService.Validate | attractions4u-cache/lambda_function.py:24-56 | a request is valid iff it has a body with `op` and `keys`, at least one key, and `op` is `get`/`del`, or `set` with `values` of the same length as `keys` |
| CacheService.GetRequest | attractions4u-cache/lambda_function.py:35-37 | a `get` is accepted exactly when it names a key |
| CacheService.DelRequest | attractions4u-cache/lambda_function.py:35-37 | a `del` is accepted exactly when it names a key |
| CacheService.SetRequest | attractions4u-cache/lambda_function.py:44-49 | a `set` is accepted exactly when it names a key and gives one value per key |
| CacheService.DeleteAllRemoves | attractions4u-cache/lambda_function.py:39-43 | deleting a list of keys removes exactly those keys from the store |
| CacheService.DeleteRepliesSpec | attractions4u-cache/lambda_function.py:39-43 | one reply per key in key order; 1 exactly when the key was live and not deleted by an earlier key of the request |
| CacheService.SetAllUntouched | attractions4u-cache/lambda_function.py:51-53 | a `set` leaves every key it does not name as it was |
| CacheService.SetAllSpec | attractions4u-cache/lambda_function.py:51-53 | keys and values pair positionally: a key holds the value of its last occurrence, expiring after the TTL |
| CacheService.SetThenGet | attractions4u-cache/lambda_function.py:13 | a value set is read back until 15 s have passed and is absent from then on |
| CacheService.Cache.GetAll | attractions4u-cache/lambda_function.py:39-43 | the pipeline of `get`s answers each key's live value or null, in key order |
| CacheService.Cache.DelAll | attractions4u-cache/lambda_function.py:39-43 | the pipeline of `delete`s removes the keys one by one and answers per key |
| CacheService.Cache.PutAll | attractions4u-cache/lambda_function.py:51-54 | the pipeline of `set`s writes each pair with the TTL and acknowledges each |
| CacheService.Cache.Handle | attractions4u-cache/lambda_function.py:23-62 | an invalid request is answered 400 and changes nothing; a valid one is answered 200 with the per-key replies of its op and the store updated accordingly |
| AttractionService.Project | attractions4u-attraction-py/lambda_function.py:188-195 | the listing keeps `attractionId` and exactly the projected attributes the record has |
| AttractionService.SearchListing | attractions4u-attraction-py/lambda_function.py:188-195 | one projected record per hit the table holds, in hit order; of a well-keyed table, each item's id is a hit |
| AttractionService.Viewed | attractions4u-attraction-py/lambda_function.py:208-214 | the counter goes up by one (to 1 when missing), `weekday_text` defaults to `[]`, nothing else changes |
| AttractionService.ReplayCounts | attractions4u-attraction-py/lambda_function.py:225-236 | after any views a row exists iff it existed or was viewed, its count is the old count plus its views, unviewed rows are untouched, and rows stay well formed |
| AttractionService.ReplayStamps | attractions4u-attraction-py/lambda_function.py:225-236 | a row's `lastVisit` is the stamp of its latest view |
| AttractionService.Tables.View | attractions4u-attraction-py/lambda_function.py:200-236 | an unknown id changes nothing; a known one writes back the viewed record and upserts the user's history row; the tables stay well formed |
| AttractionPy.KeepExampleKeys | attractions4u-attraction-py/lambda_function.py:85 | a business keeps exactly the attributes of the sample business, with their values |
| AttractionPy.RestaurantParams | attractions4u-attraction-py/lambda_function.py:77-82 | term and location keep their length with every space turned into `+` and every other character kept; limit 5, radius 40000 |
| AttractionPy.SearchRestaurants | attractions4u-attraction-py/lambda_function.py:76-86 | one filtered business per business Yelp finds (none when it sends none), in order |
| AttractionPy.LocationQueryFails | attractions4u-attraction-py/lambda_function.py:96-110 | the lookup raises exactly for one-part addresses that contain USA or start with China |
| AttractionPy.LocationQueryCommaFree | attractions4u-attraction-py/lambda_function.py:96-110 | a location query never contains a comma |
| AttractionPy.LocationQueryShortAddress | attractions4u-attraction-py/lambda_function.py:98-109 | an address with no more parts than its rule keeps is its normalised self with commas turned into `+` |
| AttractionPy.LocationQueryOnePart | attractions4u-attraction-py/lambda_function.py:96-110 | a comma-free address that is neither US nor China-first is its own location query |
| AttractionPy.KeywordQuery | attractions4u-attraction-py/lambda_function.py:141-163 | 60 hits, only `_id`, no `_source`; five phrase matches, on `attractionName` and `address` with the keyword as typed and on the three processed fields with the normalised keyword |
| AttractionPy.Handle | attractions4u-attraction-py/lambda_function.py:130-257 | a search returns the listing or `[]` and writes nothing; an unknown attraction gives 404 and an unknown route 400, neither writing; a view updates both tables and returns the record, with Yelp's filtered restaurants when it has none, or raises when the address has too few parts |
| AttractionJs.KeywordQuery | attractions4u-attraction/index.js:34-61 | 60 hits, only `_id`, no `_source`, four `should` clauses on exactly `attractionType`, `attractionName`, `address` and `description`; the one on `attractionType` is the only wildcard, the prefix pattern `keyword*`, and the others are phrase matches of the keyword itself |
| AttractionJs.Handle | attractions4u-attraction/index.js:18-204 | a search returns `[]` without a fetch when there are no hits, else the listing; a view updates both tables and returns the record with `restaurants` shown as `[]` when missing; an unknown attraction gives 404; another route gives 400 with `Unsupported route: "<route>"` |
| AttractionJs.ShownRecord | attractions4u-attraction/index.js:133-182 | the page shows a complete record with the counter bumped, equal to the recommender's backfill of the stored record |
| ProfileService.Profiles.Handle | attractions4u-user-profile/index.js:17-104 | get returns the profile or 404; register stores the profile unconditionally; update of an unknown user gives 400 and writes nothing, otherwise stores the profile and deletes exactly that user's cache key; a malformed body or other route gives 400 with `success: false` |

`ProfileService.UpdateEvicts` is a client of the profile handler. It shows that after an update the cache has no live entry for that user.

## Left out

- Transport is not modelled: HTTP, Elasticsearch, DynamoDB and Redis clients, and response headers. Search results and table reads are parameters or maps.
- JSON and `DecimalEncoder` serialisation is taken as the identity. The cache stores values as given.
- Elasticsearch scoring is an oracle, including the `random_score` seeds. The preference query and the keyword queries are built as request bodies. The history searches (the `ids` query for the visited records, and the 200-hit `match_phrase` queries on `attractionTypeP` and `rekognitionLabels`) are not built as bodies: `HistoryIndex.byIds`, `byTypes` and `byLabels` take the id list and the top-type and top-label lists directly.
- nltk tagging and inflect singularisation are the uninterpreted `Tagger`. Falsy results of `singular_noun` (`False` or `""`) are both "no singular".
- The Yelp HTTP call is an oracle returning its `businesses` or nothing. The URL quoting of the path is not modelled.
- JWT claim extraction is not modelled: the caller's email is an input.
- Redis TTL expiry is an abstract clock (`Cache.Tick`), and entries are live while the clock is before their expiry.
- Records.BatchGet: DynamoDB's reply order and `UnprocessedKeys` are not modelled. The records come back in request order and all at once.
- Recommender.MergeCandidates: the random order of the keys is not stated; only their set, size and distinctness are.
- Recommender.ShuffleAndTake: states the size of the cut and that it is drawn from the list, not which elements a seed would pick.
- Recommender.LambdaHandler: states only the status and size bounds; the per-branch contracts are those of `Recommend` and `Refresh`.
- Recommender.Recommend: a profile-table query that returns several rows for one email is not modelled. The profile table is a map keyed by username, so there is at most one.
- Recommender.Refresh: the profile scan is paginated at 1 MB; only the first page is read, which is not modelled. The whole table is scanned, in some order.
- A cache reply that is not a JSON list is not modelled. Neither is an exception from a failing cache call.
- The recommender's history sort negates `lastVisit`. It is modelled for the Python service's integer stamps. Rows written by the JavaScript service carry ISO-8601 text stamps, which that sort cannot negate; the model keeps the two stamp types apart (`HistoryRow<int>`, `HistoryRow<Str>`).
- `opening_hours` is taken to be present in every attraction record. The code would raise on a record without it.
- `visSimilar` and `attractionTypeP` are taken to be present in every seed hit, as the code requires. `descSimilar` and `rekognitionLabels` may be missing.
- Path parameters are taken to be present, as the gateway's route keys guarantee.
- In the profile service, a body that is not valid JSON yields a fixed message (`MalformedBody`) standing for the parser's own. A valid body missing `username`, `attractions` or `favCty` is not modelled.
- Errors raised by the profile and attraction stores are not modelled. The JavaScript handlers would catch them and answer 400.
- The search-history updates are commented out in both attraction services and are not part of this model.
- A batch get with duplicate keys or more than 100 keys is not modelled. The searches return at most 60 distinct ids.
- The offline feature jobs under `visual-features/` and `nlp-features/` are not part of this model. Only their id lists (`visSimilar`, `descSimilar`) are consumed, as oracle data.
- Randomness.Sample: `random.sample` is given a `set` or `frozenset`, which Python accepts up to 3.10. From 3.11 it raises `TypeError`, and every recommendation would fail. The model assumes a runtime before 3.11.
- AttractionPy.Handle: a viewed record with neither `restaurants` nor `address` raises `KeyError` after both table writes. The model's records always carry an address, so that crash is not modelled.
- CacheService.Validate: a body that is not valid JSON makes `json.loads` raise, an uncaught error rather than a 400. The model receives the body already parsed.
- Sorting.SortDescCorrect: states order and permutation, not that ties keep their input order (Python's sort is stable). The insertion keeps that order, but no lemma states it, so which of several equally counted keys `most_common()[:15]` keeps is left open.
