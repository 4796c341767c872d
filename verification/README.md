# Navi resource embeddings — a Dafny model of the similarity core

The service matches a family's situation against stored case studies and
resources. This project models the parts of it that decide which matches
are found and in what order:

- the four **field comparators**:
  - `exact_match_score`, a case-insensitive, whitespace-insensitive string match;
  - `array_overlap_score`, the Jaccard index of normalised string sets;
  - `age_proximity_score`, an age distance scaled by the smaller age;
  - `text_similarity_score`, the guards around an embedding cosine.
- the **case-study matcher** (`app/api/similar_case_studies.py`):
  - eight fields are bound to comparators and weighted by `WEIGHTS`, whose weights sum to 1;
  - the detailed scores and the total are rounded to 3 places;
  - the cases are ranked by total with Python's stable sort, highest first, and the top five are returned;
  - the optional export builds one row per case, sorted by total.
- **resource ranking** (`app/api/similar_resources.py`): every resource
  with a stored embedding is scored by cosine against the embedded text,
  then sorted (highest first, stable) and cut to five.
- the **data layer** (`app/supabase_client.py`):
  - embeddings are attached to resources through a dictionary, where the last row for an id wins;
  - the children's diagnosis lists are flattened;
  - the vector-search call is skipped when the query cannot be embedded;
  - the embedding backfill upserts one embedding per embeddable resource.
- the two **sandbox exports** (`app/sandbox/`):
  - the first builds one row per (query text, search result), with topics joined by ", " and the score rounded to 4 places;
  - the second builds the same rows per user from the user's combined profile text, skipping every resource whose embedding is missing or unreadable or whose cosine raises;
  - both sort by query text ascending, then by score descending.

Everything outside the process becomes a parameter of the model:

- the OpenAI embedding call and `numpy.linalg.norm` form the `Oracle`;
- the database rows are sequences or functions of the user id;
- the `match_resources` RPC is a `MatchRpc` function;
- `json.loads` and `eval` on an embedding string form `Parsers`.

Python's `dict.get(key, default)` on a JSON row is modelled by
`Field<T> = Absent | Null | Present(value)`: a missing key gives the default
and a JSON null gives `None`. Except where "## Left out" says otherwise, the
model raises an error wherever the program would raise on such a value, for example `", ".join` of a null list or a cosine
of vectors of different lengths. Errors are `Result` values, and loops stop at
the first one, just as an uncaught exception stops the program.

`list.sort(key=..., reverse=...)` is modelled by one stable insertion sort
(`Sorting.Sort`). It is proved once to return a sorted permutation in which
elements with equal keys keep their input order. Python's `round(x, n)` is
modelled as exact round-half-even on reals (`Rounding.Round`).

Modules (one per source file, plus helpers):

| file | module | models |
|---|---|---|
| wrappers.dfy | Wrappers | `Option`, `Result`, `Field` (`dict.get` on a JSON row) |
| text.dfy | Text | ASCII `str.lower`, `str.strip`, `str.isspace`, `str.join`, `<` on `str` |
| rounding.dfy | Rounding | `round(x, 3)` and `round(x, 4)` |
| sorting.dfy | Sorting | stable `list.sort` with a key, `[:n]` |
| exact_match.dfy | ExactMatch | app/similarity_calculations/exact_match.py |
| array_overlap.dfy | ArrayOverlap | app/similarity_calculations/array_overlap.py |
| numeric_closeness.dfy | NumericCloseness | app/similarity_calculations/numeric_closeness.py |
| text_similarity.dfy | TextSimilarity | app/similarity_calculations/text_similarity.py |
| similar_case_studies.dfy | SimilarCaseStudies | app/api/similar_case_studies.py |
| supabase_client.dfy | SupabaseClient | app/supabase_client.py |
| similar_resources.dfy | SimilarResources | app/api/similar_resources.py |
| resource_rows.dfy | ResourceRows | the row and the sort shared by both sandbox scripts |
| sandbox_resource_similarity.dfy | SandboxResourceSimilarity | app/sandbox/calculate_resource_similarity.py |
| sandbox_resource_similarity_by_user.dfy | SandboxResourceSimilarityByUser | app/sandbox/calculate_resource_similarity_by_user.py |

Code that works by mutation is modelled with methods whose loops carry
invariants:

- the join mutating every resource dict (`AttachEmbeddings`, on an `array`);
- the diagnosis `extend` loop;
- the backfill loop;
- the scoring and export loops;
- the nested loops of both sandbox scripts.

Each such method is proved equal to a recursive specification function. The
properties are then proved about that function.

## Model

| member | source | states |
|---|---|---|
| ExactMatch.ExactMatchScore | app/similarity_calculations/exact_match.py:1-5 | the score is 0.0 or 1.0, and it is 1.0 exactly when both values are non-empty and equal after lower-casing and stripping |
| ExactMatch.ExactMatchMissing | app/similarity_calculations/exact_match.py:3-4 | None or "" on either side gives 0.0 |
| ExactMatch.ExactMatchSymmetric | app/similarity_calculations/exact_match.py:3-5 | swapping the arguments does not change the score |
| ExactMatch.ExactMatchReflexive | app/similarity_calculations/exact_match.py:3-5 | a non-empty string matches itself with 1.0 |
| ExactMatch.ExactMatchNormalForm | app/similarity_calculations/exact_match.py:5 | two inputs with the same lower-cased, stripped form score the same against anything |
| ExactMatch.ExactMatchIgnoresPadding | app/similarity_calculations/exact_match.py:5 | surrounding whitespace and case are ignored (" maine " scores like "maine") |
| ExactMatch.ExactMatchWhitespaceOnly | app/similarity_calculations/exact_match.py:3-5 | two non-empty whitespace-only strings pass the emptiness guard and score 1.0 |
| ArrayOverlap.NormalizedSetMembers | app/similarity_calculations/array_overlap.py:9-10 | every member of a normalised set is non-empty and already lower-case and stripped |
| ArrayOverlap.JaccardIndex | app/similarity_calculations/array_overlap.py:15-18 | the Jaccard index is in [0, 1]; it is 1 exactly for equal non-empty sets and 0 exactly for disjoint sets |
| ArrayOverlap.ArrayOverlapScore | app/similarity_calculations/array_overlap.py:3-18 | with its three guards, the score is the Jaccard index of the two normalised sets |
| ArrayOverlap.ArrayOverlapRange | app/similarity_calculations/array_overlap.py:3-18 | the score is in [0, 1] |
| ArrayOverlap.ArrayOverlapMissing | app/similarity_calculations/array_overlap.py:5-6 | a None or empty list on either side gives 0.0 |
| ArrayOverlap.ArrayOverlapBlank | app/similarity_calculations/array_overlap.py:12-18 | a list whose entries are all None, empty or whitespace gives 0.0 on either side |
| ArrayOverlap.JaccardSymmetric | app/similarity_calculations/array_overlap.py:15-18 | the Jaccard index is symmetric |
| ArrayOverlap.ArrayOverlapSymmetric | app/similarity_calculations/array_overlap.py:5-18 | the score is symmetric |
| ArrayOverlap.NormalizedSetSameEntries | app/similarity_calculations/array_overlap.py:9-10 | lists with the same entries, whatever their order or repetitions, give the same set |
| ArrayOverlap.NormalizedSetPointwise | app/similarity_calculations/array_overlap.py:9-10 | lists whose entries agree after normalisation give the same set |
| ArrayOverlap.NormalizedSetLowerAll | app/similarity_calculations/array_overlap.py:9-10 | re-casing the entries does not change the set |
| ArrayOverlap.ArrayOverlapSameSets | app/similarity_calculations/array_overlap.py:15-18 | equal non-empty normalised sets score 1.0 |
| ArrayOverlap.JaccardExample | app/similarity_calculations/array_overlap.py:15-18 | {a, b} against {b, c} gives 1/3 |
| ArrayOverlap.ArrayOverlapExample | app/similarity_calculations/array_overlap.py:3-18 | ["A", "B"] against ["b", "c"] gives 1/3 |
| NumericCloseness.AgeScale | app/similarity_calculations/numeric_closeness.py:9 | the denominator `max(min(a, b), 1)` is at least 1, so there is no division by zero |
| NumericCloseness.AgeProximityScore | app/similarity_calculations/numeric_closeness.py:1-13 | the score is in [0, 1]; it is 1.0 exactly for equal ages; a None age gives 0.0 |
| NumericCloseness.AgeProximitySymmetric | app/similarity_calculations/numeric_closeness.py:5-9 | the score is symmetric |
| NumericCloseness.AgeProximityMonotone | app/similarity_calculations/numeric_closeness.py:5-13 | with the smaller age fixed, the score does not increase as the difference grows |
| NumericCloseness.AgeProximityExamples | app/similarity_calculations/numeric_closeness.py:5-13 | 9 against 12 gives 2/3, and 0 against 5 is clamped to 0.0 |
| TextSimilarity.DotSymmetric | app/similarity_calculations/text_similarity.py:13 | the dot product is symmetric |
| TextSimilarity.CosineSimilarity | app/similarity_calculations/text_similarity.py:7-13 | a zero norm product gives 0.0; numpy raises (None) exactly on a non-zero norm product with different lengths |
| TextSimilarity.CosineSymmetric | app/similarity_calculations/text_similarity.py:7-13 | the cosine is symmetric |
| TextSimilarity.EmbeddingInput | app/similarity_calculations/text_similarity.py:28-35 | a text is embedded only when present and not all whitespace, and what is embedded is the stripped, non-empty text |
| TextSimilarity.TextSimilarityScore | app/similarity_calculations/text_similarity.py:26-46 | a missing or whitespace-only text, or a failed embedding call, gives 0.0; two usable texts whose embeddings succeed score the cosine of those embeddings, and any non-zero result is such a cosine |
| TextSimilarity.TextSimilarityEmbedFailure | app/similarity_calculations/text_similarity.py:38-43 | a failed embedding of either text gives 0.0 |
| TextSimilarity.TextSimilaritySymmetric | app/similarity_calculations/text_similarity.py:26-46 | the score is symmetric |
| TextSimilarity.TextSimilarityIgnoresPadding | app/similarity_calculations/text_similarity.py:31-32 | surrounding whitespace does not change the score |
| Text.Strip | app/similarity_calculations/exact_match.py:5 | `strip()` is empty exactly for an all-whitespace string and otherwise neither starts nor ends with whitespace |
| Text.StripPadded | app/similarity_calculations/exact_match.py:5 | stripping removes exactly the surrounding whitespace |
| Text.StripIdempotent | app/similarity_calculations/text_similarity.py:31-32 | stripping twice is stripping once |
| Text.StripLowerCommute | app/similarity_calculations/exact_match.py:5 | lower-casing and stripping commute |
| Text.NormalizeIdempotent | app/similarity_calculations/array_overlap.py:9-10 | `lower().strip()` applied twice is applied once |
| Text.NormalizeEmpty | app/similarity_calculations/array_overlap.py:9-10 | `lower().strip()` is empty exactly for whitespace-only strings |
| Text.StringLessIrreflexive | app/sandbox/calculate_resource_similarity.py:69 | Python's `<` on strings is irreflexive |
| Text.StringLessTransitive | app/sandbox/calculate_resource_similarity.py:69 | Python's `<` on strings is transitive |
| Rounding.RoundMonotone | app/api/similar_case_studies.py:89-97 | rounding to 3 or 4 places is monotone |
| Rounding.RoundIdempotent | app/api/similar_case_studies.py:184 | rounding an already rounded value changes nothing |
| Rounding.RoundOfInt | app/api/similar_case_studies.py:89-95 | whole numbers, such as the 0 and 1 of exact match, round to themselves |
| Rounding.RoundUnitRange | app/api/similar_case_studies.py:89-97 | a value in [0, 1] rounds to a value in [0, 1] |
| Sorting.Take | app/api/similar_case_studies.py:178 | `[:n]` is the prefix of length min(n, len) |
| Sorting.TakeComplete | app/api/similar_case_studies.py:178 | in a sorted list, an element with a strictly larger key than one kept by `[:n]` is kept too |
| Sorting.SortCorrect | app/api/similar_case_studies.py:175 | the stable sort returns a permutation that is sorted by the key, with equal keys in input order |
| SimilarCaseStudies.Weight | app/api/similar_case_studies.py:18-27 | every weight is in (0, 0.25] |
| SimilarCaseStudies.WeightsSumToOne | app/api/similar_case_studies.py:18-27 | there are eight distinct weighted fields, and their weights sum to 1.0 |
| SimilarCaseStudies.Components.Rounded | app/api/similar_case_studies.py:89-96 | every component is rounded to the given number of places |
| SimilarCaseStudies.ComponentScores | app/api/similar_case_studies.py:45-73 | with a missing key read as "", [] or 0, the exact-match components are 0 or 1, and the Jaccard and age components are in [0, 1] |
| SimilarCaseStudies.WeightedSumBounds | app/api/similar_case_studies.py:76-85 | with every component in [0, 1], Σ score × weight over a set of fields is between 0 and the weights' sum |
| SimilarCaseStudies.WeightedTotalIsWeightedSum | app/api/similar_case_studies.py:76-85 | the written-out total equals Σ score × weight over the eight fields, and it is in [0, 1] when every component is |
| SimilarCaseStudies.RoundedRanges | app/api/similar_case_studies.py:89-95 | rounding to 3 places keeps the comparator ranges and leaves the exact-match 0 or 1 unchanged |
| SimilarCaseStudies.RoundedTotalRange | app/api/similar_case_studies.py:97 | the rounded total is in [0, 1] when every component is |
| SimilarCaseStudies.CalculateCaseSimilarityDetailed | app/api/similar_case_studies.py:41-98 | the id defaults to "", each component is its comparator score rounded to 3 places, and the total is the rounded weighted sum of the unrounded components |
| SimilarCaseStudies.CalculateCaseSimilarity | app/api/similar_case_studies.py:147-150 | the similarity is the weighted sum rounded to 3 places, in [0, 1] when every component is |
| SimilarCaseStudies.MissingKeyDefaults | app/api/similar_case_studies.py:45-73 | a missing state or stage contributes 0, and a missing age is compared as 0, so an input age of 0 scores 1.0 |
| SimilarCaseStudies.ScoreCases | app/api/similar_case_studies.py:166-172 | the loop gives one entry per case, in fetch order, with that case's score |
| SimilarCaseStudies.RankCases | app/api/similar_case_studies.py:175 | the ranking is a permutation of the scored cases, sorted highest first, with ties in fetch order |
| SimilarCaseStudies.RankedFromCases | app/api/similar_case_studies.py:166-175 | every ranked entry is a fetched case with its own score |
| SimilarCaseStudies.CasesRanked | app/api/similar_case_studies.py:166-175 | every fetched case appears in the ranking with its own score |
| SimilarCaseStudies.RankedTopComplete | app/api/similar_case_studies.py:175-178 | a case scoring strictly higher than a kept entry is kept too |
| SimilarCaseStudies.Respond | app/api/similar_case_studies.py:180-189 | the response fails exactly when a kept case has no `id` key, and otherwise lists each kept case's id and its score rounded to 3 places |
| SimilarCaseStudies.TopSimilarLength | app/api/similar_case_studies.py:178-189 | the response holds min(5, n) entries and can fail only on a case without an id |
| SimilarCaseStudies.TopSimilarOrdered | app/api/similar_case_studies.py:175-189 | the returned scores do not increase down the list |
| SimilarCaseStudies.TopSimilarFromCases | app/api/similar_case_studies.py:175-189 | every returned entry is the id and rounded score of a fetched case |
| SimilarCaseStudies.TopSimilarComplete | app/api/similar_case_studies.py:175-189 | a case whose rounded score beats a returned entry is itself returned |
| SimilarCaseStudies.SimilarityRounded | app/api/similar_case_studies.py:184 | rounding the already rounded similarity again changes nothing |
| SimilarCaseStudies.JoinList | app/api/similar_case_studies.py:118 | `", ".join` of a list field fails exactly on a null list or a null entry, and a missing list joins to "" |
| SimilarCaseStudies.ExportScoringToCsv | app/api/similar_case_studies.py:111-129 | the export fails exactly when some case's list fields cannot be joined, and then at the first such case; otherwise the rows are one per case, stable-sorted by weighted total, highest first |
| SimilarCaseStudies.GetSimilarCaseStudies | app/api/similar_case_studies.py:158-189 | the export runs only when `export_csv` is true, and an export failure fails the request; the similar cases are the top five of the ranking |
| SupabaseClient.EmbeddingMap | app/supabase_client.py:40 | the dictionary's keys are exactly the resource ids of the embedding rows |
| SupabaseClient.EmbeddingMapLastWins | app/supabase_client.py:40 | for an id with several rows, the last row's embedding is kept |
| SupabaseClient.Attached | app/supabase_client.py:44 | every resource gets the `embedding` key; it is set exactly when the id has a non-null embedding |
| SupabaseClient.AttachedEmbedding | app/supabase_client.py:40-44 | an id without a row gets None, and otherwise it gets its last row's embedding |
| SupabaseClient.AttachEmbeddings | app/supabase_client.py:43-46 | the loop sets each resource's embedding and leaves the rest of every resource, and the list's length and order, unchanged |
| SupabaseClient.AllDiagnosesAppend | app/supabase_client.py:71-77 | the flattening of two groups of children is the concatenation of their flattenings |
| SupabaseClient.AllDiagnosesMembers | app/supabase_client.py:71-77 | a diagnosis, a string or a null or other non-string entry, is in the result exactly when it is in some child's diagnosis list |
| SupabaseClient.GetChildDiagnoses | app/supabase_client.py:67-77 | the `extend` loop returns the lists of the children in order, entries copied unchanged, skipping missing and non-list values |
| SupabaseClient.MatchSimilarResources | app/supabase_client.py:48-61 | a query that cannot be embedded returns [] without the RPC, and otherwise the RPC's result |
| SupabaseClient.TextParts | app/supabase_client.py:25 | the embedded text is built from seven columns |
| SupabaseClient.ColumnsTextOrder | app/supabase_client.py:25 | the text is title, description, category, topics, recommend-if, organization and default navigator note, each as `str` renders it, separated by single spaces |
| SupabaseClient.EmbeddingText | app/supabase_client.py:25 | the text can be built exactly when all seven columns are present |
| SupabaseClient.UpsertFor | app/supabase_client.py:26-31 | an upsert happens exactly when the embedding succeeds, and it stores that embedding under the resource's id |
| SupabaseClient.UpsertsExactly | app/supabase_client.py:24-31 | the upserts are exactly those of the resources whose text was embedded |
| SupabaseClient.Backfill | app/supabase_client.py:24-32 | the loop's upserts are those of the resources it processed; it stops at the first resource whose text cannot be built |
| SupabaseClient.AddEmbeddingsToResources | app/supabase_client.py:22-32 | the backfill with the seven-column text stops at the first resource missing a column, and otherwise upserts every embedded resource |
| SimilarResources.StoredVector | app/api/similar_resources.py:26 | the embedding read from a resource is the attached value, and none when it is missing or null |
| SimilarResources.NestedLookup | app/api/similar_resources.py:26 | the lookup as written never yields an embedding |
| SimilarResources.JoinedLookupRaises | app/api/similar_resources.py:26 | the lookup as written raises on every joined resource, while the corrected read finds every attached embedding |
| SimilarResources.Scored | app/api/similar_resources.py:24-29 | there is at most one entry per resource, and a failure names a resource |
| SimilarResources.ScoredEntries | app/api/similar_resources.py:24-29 | scoring succeeds exactly when every resource with an embedding has a score, and each entry is such a resource with its own score |
| SimilarResources.ScoredComplete | app/api/similar_resources.py:26-29 | every resource with an embedding is scored |
| SimilarResources.ScoredFailureSticks | app/api/similar_resources.py:24-29 | a failure on a prefix is the failure of the whole loop |
| SimilarResources.ScoredFailure | app/api/similar_resources.py:28 | the loop fails at the first resource with an embedding whose cosine raises |
| SimilarResources.Rank | app/api/similar_resources.py:31 | the sort is a permutation, highest score first, with ties in input order |
| SimilarResources.Resources | app/api/similar_resources.py:32 | the result keeps the resource of each entry, in order |
| SimilarResources.GetSimilarResources | app/api/similar_resources.py:15-34 | a text that cannot be embedded gives []; otherwise the result is the top five of the ranked scored resources |
| SimilarResources.TopResourcesLength | app/api/similar_resources.py:32 | at most five resources are returned, and fewer only when fewer were scored |
| SimilarResources.TopResourcesFromInput | app/api/similar_resources.py:24-32 | every returned resource is a fetched resource with an embedding |
| SimilarResources.TopResourcesOrdered | app/api/similar_resources.py:31-32 | every returned resource has a score, and the scores do not increase down the list |
| SimilarResources.TopResourcesComplete | app/api/similar_resources.py:24-32 | no resource left out scores strictly higher than a returned one |
| SimilarResources.TopResourcesStable | app/api/similar_resources.py:31 | resources with equal scores keep their input order |
| ResourceRows.JoinEmpty | app/sandbox/calculate_resource_similarity.py:58 | a join with a non-empty separator is "" only for no items or a single empty item |
| ResourceRows.TopicsCell | app/sandbox/calculate_resource_similarity.py:58 | the topics cell is "" exactly for missing, null or empty topics or the single topic "", and a single topic is itself |
| ResourceRows.ResourceRow | app/sandbox/calculate_resource_similarity.py:50-64 | the row carries the query text and the resource id, the topics cell and the score rounded to 4 places; every other cell is its column read with a default of "", null staying empty |
| ResourceRows.RowKeyStrict | app/sandbox/calculate_resource_similarity.py:69 | the key order (text ascending, then score descending) is a strict order |
| ResourceRows.SortRows | app/sandbox/calculate_resource_similarity.py:69 | the sort is a permutation of the rows, ordered by the key, with equal keys in input order |
| ResourceRows.SortedRowsOrder | app/sandbox/calculate_resource_similarity.py:69 | in the result a row never precedes one with a smaller text, and for the same text the scores do not increase |
| SandboxResourceSimilarity.MatchRow | app/sandbox/calculate_resource_similarity.py:50-63 | a result's row fails exactly on a null similarity, and a missing similarity counts as 0 |
| SandboxResourceSimilarity.TestRowsExactly | app/sandbox/calculate_resource_similarity.py:49-64 | a query text gets exactly one row per result, each tagged with the text, unless a result fails |
| SandboxResourceSimilarity.TestRowsFailureSticks | app/sandbox/calculate_resource_similarity.py:49-64 | a failure on a prefix of the results is the failure of the inner loop |
| SandboxResourceSimilarity.AllRowsFailureSticks | app/sandbox/calculate_resource_similarity.py:34-64 | a failure on a prefix of the texts is the failure of the outer loop |
| SandboxResourceSimilarity.MatchRowTagged | app/sandbox/calculate_resource_similarity.py:51 | every row is tagged with its query text |
| SandboxResourceSimilarity.AllRowsPerTest | app/sandbox/calculate_resource_similarity.py:34-64 | the rows number the total results, and each is tagged with a query text that returned results |
| SandboxResourceSimilarity.AllRowsComplete | app/sandbox/calculate_resource_similarity.py:34-64 | every result of every query text has its row |
| SandboxResourceSimilarity.NoEmbeddingNoRows | app/sandbox/calculate_resource_similarity.py:38-46 | a query text that cannot be embedded contributes no rows |
| SandboxResourceSimilarity.QueryRows | app/sandbox/calculate_resource_similarity.py:49-64 | the inner loop builds the rows of one query text |
| SandboxResourceSimilarity.CalculateResourceSimilarityToCsv | app/sandbox/calculate_resource_similarity.py:33-69 | the loops, with the skip of empty results and the final sort, give the sorted rows of all query texts, or the first null-similarity failure |
| SandboxResourceSimilarityByUser.ProfileText | app/sandbox/calculate_resource_similarity_by_user.py:43 | a missing profile key gives "" and a null one "None" |
| SandboxResourceSimilarityByUser.CombinedTextIsJoin | app/sandbox/calculate_resource_similarity_by_user.py:43 | the combined text is the three profile texts and the diagnoses joined by single spaces |
| SandboxResourceSimilarityByUser.EmptyProfileText | app/sandbox/calculate_resource_similarity_by_user.py:43 | an empty profile without diagnoses gives three spaces |
| SandboxResourceSimilarityByUser.DiagnosisStrings | app/sandbox/calculate_resource_similarity_by_user.py:43 | the diagnoses can be space-joined exactly when none is null or a non-string, and then they are joined as they are |
| SandboxResourceSimilarityByUser.UserTextOfJoinable | app/sandbox/calculate_resource_similarity_by_user.py:43 | a user's text fails exactly when one of their children's diagnoses is not a string, and otherwise it is the combined text of the profile and the diagnoses |
| SandboxResourceSimilarityByUser.UsersData | app/sandbox/calculate_resource_similarity_by_user.py:39-44 | the texts are built exactly when every user's text can be built, one per user id in order; otherwise the failure is at the first user whose text cannot be built |
| SandboxResourceSimilarityByUser.UsersDataFailureSticks | app/sandbox/calculate_resource_similarity_by_user.py:39-44 | once a user's text fails, every longer list of users fails at the same user |
| SandboxResourceSimilarityByUser.BuildUsersData | app/sandbox/calculate_resource_similarity_by_user.py:39-44 | the loop builds the users' combined texts, stopping at the first user whose diagnoses cannot be joined |
| SandboxResourceSimilarityByUser.ResourceEmbedding | app/sandbox/calculate_resource_similarity_by_user.py:58-79 | a stored vector is used as it is; an empty stored text gives none, and any other stored text gives its JSON parse, or when that fails its evaluation; nothing stored gives none |
| SandboxResourceSimilarityByUser.FirstElementLookup | app/sandbox/calculate_resource_similarity_by_user.py:58-62 | the lookup as written never yields an embedding |
| SandboxResourceSimilarityByUser.FirstElementLookupRaises | app/sandbox/calculate_resource_similarity_by_user.py:58-62 | the lookup as written raises on every resource that the corrected read scores |
| SandboxResourceSimilarityByUser.UserScoreSkips | app/sandbox/calculate_resource_similarity_by_user.py:61-101 | a resource is skipped exactly when it has no or an empty embedding, both parses fail, or the cosine raises; otherwise it is scored by the cosine, so a stored vector, or a stored text that parses, of 1536 numbers is always scored |
| SandboxResourceSimilarityByUser.UserRows | app/sandbox/calculate_resource_similarity_by_user.py:56-101 | a user gets at most one row per resource |
| SandboxResourceSimilarityByUser.Kept | app/sandbox/calculate_resource_similarity_by_user.py:81-101 | the kept resources are those with a score, in increasing order |
| SandboxResourceSimilarityByUser.UserRowsKept | app/sandbox/calculate_resource_similarity_by_user.py:56-101 | the user's rows are the rows of the kept resources, in order, with their scores |
| SandboxResourceSimilarityByUser.UserRowCells | app/sandbox/calculate_resource_similarity_by_user.py:85-98 | the row carries the user's text, the resource id and the cosine rounded to 4 places |
| SandboxResourceSimilarityByUser.NoEmbeddingNoRows | app/sandbox/calculate_resource_similarity_by_user.py:50-54 | a user whose text cannot be embedded contributes no rows |
| SandboxResourceSimilarityByUser.AllUserRowsFrom | app/sandbox/calculate_resource_similarity_by_user.py:48-101 | every row belongs to one of the users |
| SandboxResourceSimilarityByUser.AllUserRowsComplete | app/sandbox/calculate_resource_similarity_by_user.py:48-101 | every row of every user is in the result |
| SandboxResourceSimilarityByUser.UserResourceRows | app/sandbox/calculate_resource_similarity_by_user.py:56-101 | the inner loop, with its skips, builds the rows of one user |
| SandboxResourceSimilarityByUser.UsersRows | app/sandbox/calculate_resource_similarity_by_user.py:48-101 | the outer loop gives the rows of all users, user by user |
| SandboxResourceSimilarityByUser.CalculateResourceSimilarityToCsv | app/sandbox/calculate_resource_similarity_by_user.py:35-104 | the script fails at the first user whose diagnoses cannot be joined; otherwise its loops give the sorted rows of all users |

## Left out

- The OpenAI embedding call (`embed`) is an oracle. Any string may or may not embed, and a successful embedding has the 1536 dimensions of `text-embedding-3-small`. Its exception handling is the `None` outcome.
- `numpy.linalg.norm` is an oracle too, since a square root is not modelled. The dot product and the zero-denominator guard are modelled exactly.
- Floating point is not modelled:
  - arithmetic is exact over the reals;
  - `round(x, n)` is exact round-half-even on reals, not the rounding of a binary float.
- Unicode is not modelled. `lower()`, `strip()` and `isspace()` are modelled on ASCII characters.
- The Supabase client is not modelled:
  - the table queries of `get_all_case_studies`, `get_all_resources`, `get_all_resources_with_embeddings`, `get_user_profile_by_id` and `get_child_diagnoses_by_user_id` are parameters;
  - the `match_resources` RPC is a parameter;
  - the upsert is modelled only as the list of upserted rows;
  - the `.single()` error of `get_user_profile_by_id` is not modelled.
- `get_all_tasks` is not modelled: nothing in the modelled code uses it.
- File I/O is not modelled:
  - writing the CSV files, creating `exports/` and the timestamped file names are out;
  - the exports are modelled as the sorted rows together with the fixed header constants (`ExportHeader`, `RowHeader`);
  - all `print` calls are out.
- The FastAPI router, the pydantic request validation and the API-key check are not modelled. The request is a validated value.
- The cron driver, the `__main__` blocks, the tests and the fixture data are not modelled.
- SupabaseClient.ShowList: it renders the `topics` list in the backfill text as `['a', 'b']` and does not model Python's escaping of quotes inside a topic.
- SupabaseClient.Backfill: the text builder is a parameter, so the cost of proving the loop does not depend on the string building. `AddEmbeddingsToResources` instantiates it with the seven-column text.
- SandboxResourceSimilarityByUser.ResourceEmbedding: a parse result that is not a list of numbers is not modelled. The parsers return a vector or fail.
- SandboxResourceSimilarityByUser.ProfileText: a profile column is treated as text.
- ResourceRows.TopicsCell: a topics list with null entries is not modelled, since the model's topics are lists of strings.
- SimilarResources.CosineTo: an embedding stored as text makes `numpy` raise on the norm, and this is modelled as a failure of the loop.
- SimilarResources.StoredVector and SandboxResourceSimilarityByUser.ResourceEmbedding read the attached embedding directly, not through the nested lookups the scripts write. The lookups as written are modelled beside them; see Findings.

## Findings

| source | as written | input that shows it | evidently intended | confidence | as-written member | corrected member |
|---|---|---|---|---|---|---|
| app/api/similar_resources.py:26 | `resource.get("embedding", {}).get("embedding")` calls `.get` on the value the join stores, which is None or the embedding itself | one resource `r1` and one embedding row for `r1`: `.get` on a list or a string raises AttributeError, and so does `.get` on the None of a resource without a row | read the attached embedding, `resource.get("embedding")` | high; not executed | SimilarResources.JoinedLookupRaises | SimilarResources.StoredVector |
| app/sandbox/calculate_resource_similarity_by_user.py:62 | `embedding_data[0].get("embedding")` indexes the stored embedding as if it were a list of row dicts | any resource with a non-empty stored embedding: element 0 is a float or a one-character string, and `.get` raises outside the `try` | read the attached embedding itself as `raw_embedding` | high; not executed | SandboxResourceSimilarityByUser.FirstElementLookupRaises | SandboxResourceSimilarityByUser.ResourceEmbedding |
