# Tourism recommendation batch commands, modelled in Dafny

The tourism recommendation system keeps places (attractions in cities), their
categories and their images in a relational store. It derives two things from
them offline, with three Django management commands:

- **`calculate_similarities`** fills the `SimilarPlace` table.
  - Structural rows score the Jaccard overlap of the two places' category
    sets, boosted to 0.7 J + 0.3 for a shared city, and are kept above 0.1.
  - Image rows score the cosine of the two colour vectors, remapped to
    [0, 1]. They are filed as `image_same_city` or `image_diff_city`.
  - The place list is split round-robin over MPI ranks. Every rank compares
    its places with all places, and the root gathers and flattens the results.
  - The root then saves them in batches of 1000 with
    `bulk_create(ignore_conflicts=True)`.
- **`calculate_pagerank`** computes a relevance score per place and
  overwrites `Place.relevance_score` with it.
  - Links between places are weighted 0.5 for a shared city plus 0.5 for the
    Jaccard overlap of categories, and the weight matrix is row-normalised.
  - Page views and language counts feed in as popularity vectors.
  - A damped power iteration of bounded length runs on the result, and the
    final vector is rescaled linearly into [min_score, max_score].
- **`simple_stuctural`** is a second structural scorer. It blends
  "same city" with "similar page views" as `city_weight·[same city] +
  views_weight·(1 − abs(v1 − v2))`. It keeps every same-city pair, and every
  other pair scoring above 0.3.

The data model (`myapp/models.py`) contributes:

- the three similarity types;
- the uniqueness keys the writers rely on;
- the cascade deletes;
- the default ordering by descending relevance.

Modules:

- `Numeric`: sums, Jaccard, dot products, squared norms, Cauchy–Schwarz.
- `Models`: the records, the similarity types, and the `SimilarPlace` table.
  The table is a map keyed by (main, similar, type), with insert-if-absent
  and clear-by-type.
- `Snapshot`: the category map and colour map the commands load.
- `EdgeWriter`: the table as a class, with batched `bulk_create`.
- `SimilarityRules` and `SimilarityCommand`: the similarity engine. The first
  holds the pair rules, rows, shards and round-robin split; the second holds
  the command's loops.
- `PageRankSpec` and `PageRankCommand`: the ranking. The first holds the
  mathematics as functions; the second holds the command over an `array2`
  matrix and an `array` of places.
- `SimpleStructural`: the simplified scorer.

Floats are modelled as exact reals. Python's `x or 0` on nullable integers is
written out as `ViewsOrZero`/`LanguagesOrZero`.

Where the documentation of the system and the code disagree, the model
follows the code:

- The boosted structural score is symmetric in the two places. The boost
  depends only on whether the cities are equal.
- A new place's `relevance_score` is 0, the field default.
- In `simple_stuctural.py:54,64`, `place.page_views or 0 - min_views` parses
  as `page_views or (0 - min_views)`. The value is therefore the raw page
  count when that is non-zero, and `-min_views` otherwise, divided by the
  range.
  - The model keeps this reading (`SimpleStructural.ViewsAsWritten`).
  - It proves that when no page count is negative, every combined score
    equals the one computed with the intended `(views − min)/range`.
  - It also exhibits three places with negative counts for which the two
    scores, and the emission decision, differ.

## Model

| member | source | states |
|---|---|---|
| Models.Channel.Tag | myapp/models.py:91-95 | every similarity type has a non-empty tag of at most 20 characters, the column's `max_length` |
| Models.ParseChannel | myapp/models.py:91-100 | a stored tag is accepted exactly when it is one of `structural`, `image_same_city`, `image_diff_city`, and then it is that type's tag |
| Models.ChannelTagRoundTrip | myapp/models.py:91-100 | parsing a type's tag gives that type back |
| Models.NewPlace | myapp/models.py:36-55 | a new place keeps its nullable counts as given and starts with relevance 0 |
| Models.CategoriesOfMembership | myapp/models.py:77-86 | a category is in a place's set exactly when a `PlaceCategory` row joins them |
| Models.CategoriesOfCount | myapp/models.py:86 | with (place, category) unique, a place has as many categories as link rows |
| Models.Rows | myapp/models.py:103 | the table's rows are exactly its key/score entries, and no two rows share (main, similar, type) |
| Models.InsertIfAbsent | myapp/models.py:103 | one row inserted with ignore-conflicts adds its key, leaves every existing row and its score as they were, and carries its own score only when the key was absent |
| Models.InsertAll | myapp/management/commands/calculate_similarities.py:218-225 | one `bulk_create(..., ignore_conflicts=True)`: the rows are inserted in order, each skipped when its key is present; the lemmas below state the resulting table |
| Models.InsertAllKeepsExisting | myapp/models.py:103 | an ignore-conflicts insert yields exactly the old keys plus the inserted keys, and every existing row keeps its score |
| Models.InsertAllFirstWins | myapp/models.py:103 | a key that is new to the table takes the score of the first inserted row carrying it |
| Models.InsertAllConcat | myapp/management/commands/calculate_similarities.py:216-225 | inserting a list in two consecutive parts equals inserting it at once |
| Models.InsertAllPresent | myapp/models.py:103 | rows whose keys are all present change nothing |
| Models.InsertAllIdempotent | myapp/management/commands/calculate_similarities.py:216-253 | re-inserting the same rows leaves the table as the first insert left it |
| Models.InsertAllKeyFunctional | myapp/models.py:103 | when no two different rows share a key, a newly inserted key holds its row's score |
| Models.InsertAllOrderIrrelevant | myapp/models.py:103 | when no two different rows share a key, two orderings of the same rows give the same table |
| Models.ClearChannels | myapp/management/commands/calculate_similarities.py:47-49 | a delete by type removes exactly the rows of the given types and keeps every other row and its score |
| Models.RerunWithClearIsIdempotent | myapp/management/commands/calculate_similarities.py:40-50 | clearing the recomputed types and inserting the same rows again reproduces the table of the first run |
| Models.FlattenConcat | myapp/management/commands/calculate_similarities.py:199-201 | flattening distributes over concatenation of the outer list |
| Models.DeletePlace | myapp/models.py:64-98 | deleting a place removes exactly that place, its images, its links and every similarity row naming it on either side |
| Models.DeletePlaceKeepsIntegrity | myapp/models.py:64-98 | with unique ids the cascade leaves every remaining foreign key valid and the place gone |
| Models.InsertByRelevance | myapp/models.py:61 | inserting into an ordered list adds exactly that place |
| Models.InsertByRelevanceOrdered | myapp/models.py:61 | inserting keeps the list in descending relevance |
| Models.OrderByRelevance | myapp/models.py:61 | the default order is a permutation of the places in descending relevance |
| Numeric.SumDivide | myapp/management/commands/calculate_pagerank.py:113-115 | dividing every entry by s divides the sum by s |
| Numeric.DivideBySumIsOne | myapp/management/commands/calculate_pagerank.py:113-117 | dividing a vector with non-zero sum by that sum gives sum 1 |
| Numeric.SumNonNegative | myapp/management/commands/calculate_pagerank.py:95 | non-negative entries have a non-negative sum |
| Numeric.SumZeroMeansAllZero | myapp/management/commands/calculate_pagerank.py:97 | a non-negative vector with a sum of at most 0 is all zero |
| Numeric.EntryAtMostSum | myapp/management/commands/calculate_pagerank.py:98 | in a non-negative vector every entry is at most the sum |
| Numeric.MaxCount | myapp/management/commands/calculate_pagerank.py:101-102 | `max` of a non-empty count list bounds every entry and is attained |
| Numeric.MinCount | myapp/management/commands/simple_stuctural.py:42 | `min` of a non-empty count list is below every entry and is attained |
| Numeric.Jaccard | myapp/management/commands/calculate_similarities.py:119-122 | the Jaccard overlap (shared categories over all categories, 0 for two empty sets) lies in [0, 1] |
| Numeric.JaccardSymmetric | myapp/management/commands/calculate_similarities.py:120-122 | the overlap does not depend on the order of the sets |
| Numeric.JaccardZeroIffDisjoint | myapp/management/commands/calculate_similarities.py:120-122 | the overlap is 0 exactly when the sets are disjoint |
| Numeric.JaccardOneIffEqual | myapp/management/commands/calculate_similarities.py:120-122 | the overlap is 1 exactly when the sets are equal |
| Numeric.CauchySchwarz | myapp/management/commands/calculate_similarities.py:166 | dot(a, b)² ≤ ‖a‖²‖b‖² |
| Numeric.SqNormPrefix | myapp/management/commands/calculate_similarities.py:161-163 | a truncated vector's squared norm is at most the full vector's |
| Snapshot.CategoryMapOf | myapp/management/commands/calculate_similarities.py:84-88 | the `place_categories` dict: a key for each linked place (each listed one, when restricted) holding its categories; `CategoryMapLookup` proves a lookup yields exactly the linked categories |
| Snapshot.CategoryMapLookup | myapp/management/commands/calculate_similarities.py:84-116 | looking a place up in the collected map (empty set when absent) yields exactly its linked categories |
| Snapshot.CategoryMapStep | myapp/management/commands/calculate_pagerank.py:59-65 | one more link row adds its category to its place's set when the place is kept, and changes nothing otherwise |
| Snapshot.CollectCategories | myapp/management/commands/calculate_pagerank.py:58-65 | the loop over the link rows builds the map of category sets, restricted to the listed places when a restriction is given |
| Snapshot.Usable | myapp/management/commands/calculate_similarities.py:94-98 | an image contributes a vector when its column is set, decodes, and the decoded list is non-empty |
| Snapshot.ColoursOf | myapp/management/commands/calculate_similarities.py:93-100 | the `place_colors` dict, where a later usable image of a place replaces an earlier one; `ColoursOfLastWins` proves what each lookup yields |
| Snapshot.ColoursOfLastWins | myapp/management/commands/calculate_similarities.py:93-100 | a place has a colour vector exactly when one of its images is usable, and it is that of its last usable image |
| Snapshot.CollectColours | myapp/management/commands/calculate_similarities.py:93-100 | the loop over the images builds that colour map, skipping empty, undecodable and empty-list vectors |
| EdgeWriter.SimilarPlaceTable.constructor | myapp/models.py:90-103 | a table starts with the given rows |
| EdgeWriter.SimilarPlaceTable.BulkCreateIgnoreConflicts | myapp/management/commands/calculate_similarities.py:218-225 | one `bulk_create` inserts each row whose key is absent, in order |
| EdgeWriter.SimilarPlaceTable.DeleteChannels | myapp/management/commands/calculate_similarities.py:49 | a delete by type leaves exactly the cleared table |
| EdgeWriter.BatchesFrom | myapp/management/commands/calculate_similarities.py:216-217 | the slices `es[i:i+size]` for i from `start` in steps of `size`; `BatchesFromShape` proves their sizes and that they concatenate to the rest of the list |
| EdgeWriter.Batches | myapp/management/commands/calculate_similarities.py:216-217 | the batches of the whole list; `BatchesShape` proves they partition it into runs of 1 to `size` rows |
| EdgeWriter.BatchesFromShape | myapp/management/commands/calculate_similarities.py:216-217 | the slices from a start index are non-empty, hold at most `size` rows, all but the last exactly `size`, and concatenate to the rest of the list |
| EdgeWriter.BatchesShape | myapp/management/commands/simple_stuctural.py:90-91 | the batches concatenate to the whole list and each holds 1 to `size` rows |
| EdgeWriter.SaveInBatches | myapp/management/commands/calculate_similarities.py:215-226 | the batch loop sends exactly those slices, and the table ends as if every row were inserted at once with ignore-conflicts |
| SimilarityRules.StructuralScore | myapp/management/commands/calculate_similarities.py:119-126 | the structural score lies in [0, 1], and in [0.3, 1] for a shared city |
| SimilarityRules.ImageChannel | myapp/management/commands/calculate_similarities.py:170-185 | an image edge is never structural, and is `image_same_city` iff the cities match |
| SimilarityRules.EmitsStructural | myapp/management/commands/calculate_similarities.py:112-129 | a structural row needs two distinct places that both have categories and a score above 0.1; `SameCityStructuralAlwaysEmitted`, `StructuralSymmetric` and `CrossCityDisjointNotEmitted` state its consequences |
| SimilarityRules.ComparableColours | myapp/management/commands/calculate_similarities.py:140-158 | an image comparison needs two distinct places that both have vectors, of non-zero norm; `ImageRouting` states the resulting rule |
| SimilarityRules.CosineScore | myapp/management/commands/calculate_similarities.py:154-167 | the dot product over the common prefix divided by the product of the full norms, remapped from [-1, 1]; `CosineScoreBounds` and `CosineScoreSymmetric` state its range and symmetry |
| SimilarityRules.PairEdges | myapp/management/commands/calculate_similarities.py:111-185 | one comparison yields at most one edge per type, from the place to the other place, of the requested type |
| SimilarityRules.SameCityStructuralAlwaysEmitted | myapp/management/commands/calculate_similarities.py:119-135 | every pair of distinct same-city places that both have categories gets a structural edge with the boosted score |
| SimilarityRules.StructuralSymmetric | myapp/management/commands/calculate_similarities.py:119-129 | the structural score and the emission decision are the same in both directions |
| SimilarityRules.CrossCityDisjointNotEmitted | myapp/management/commands/calculate_similarities.py:119-129 | cross-city places with no shared category get no structural edge |
| SimilarityRules.IdenticalCategoriesScoreOne | myapp/management/commands/calculate_similarities.py:119-126 | identical non-empty category sets score 1 in either city case |
| SimilarityRules.SameCityExample | myapp/management/commands/calculate_similarities.py:119-129 | same city with categories {1, 2} and {1, 3} scores 0.7/3 + 0.3 and is emitted |
| SimilarityRules.CosineScoreBounds | myapp/management/commands/calculate_similarities.py:154-167 | with the norms taken over the full vectors and the dot over the common prefix, the remapped cosine lies in [0, 1] |
| SimilarityRules.CosineScoreSymmetric | myapp/management/commands/calculate_similarities.py:161-167 | the image score is the same in both directions |
| SimilarityRules.ImageRouting | myapp/management/commands/calculate_similarities.py:140-185 | an image edge exists exactly for distinct places both having colour vectors of non-zero norm, in the same-city type iff the cities match, with no threshold |
| SimilarityRules.RowEdges | myapp/management/commands/calculate_similarities.py:111-185 | the edges of one type that one place appends against the given places, in their order; `RowMembership` characterises its contents |
| SimilarityRules.ShardEdges | myapp/management/commands/calculate_similarities.py:103-185 | the edges of one type a worker appends for its places, place by place; `ShardMembership`, `ShardEdgesConcat` and `ShardEdgesPermutation` state its contents |
| SimilarityRules.RowMembership | myapp/management/commands/calculate_similarities.py:111-185 | an edge is in a place's row exactly when one comparison produced it |
| SimilarityRules.ShardEdgesConcat | myapp/management/commands/calculate_similarities.py:103 | processing two place lists one after the other concatenates their edges |
| SimilarityRules.ShardMembership | myapp/management/commands/calculate_similarities.py:103-185 | an edge is in a shard's output exactly when one of its places produced it against one of all places |
| SimilarityRules.ExcludedPlacesNeverAppear | myapp/management/commands/calculate_similarities.py:119-147 | a place without categories is in no structural edge, and one without a colour vector is in no image edge |
| SimilarityRules.ShardEdgesPermutation | myapp/management/commands/calculate_similarities.py:103 | processing a permutation of the places yields a permutation of the edges |
| SimilarityRules.UnshardedKeyFunctional | myapp/management/commands/calculate_similarities.py:111-185 | with unique place ids, no two different edges of one pass share a (main, similar, type) key |
| SimilarityRules.RoundRobin | myapp/management/commands/calculate_similarities.py:59-61 | the partition has one chunk per process |
| SimilarityRules.RoundRobinPermutation | myapp/management/commands/calculate_similarities.py:59-61 | the chunks together hold every place exactly as often as the list |
| SimilarityRules.RoundRobinLength | myapp/management/commands/calculate_similarities.py:59-61 | chunk j holds ⌈(n − j)/size⌉ places |
| SimilarityRules.RoundRobinPlacement | myapp/management/commands/calculate_similarities.py:60-61 | the place at index i sits in chunk i mod size at position i div size |
| SimilarityRules.Gathered | myapp/management/commands/calculate_similarities.py:191-193 | the gathered lists are the shards' edge lists in rank order |
| SimilarityRules.FlattenGathered | myapp/management/commands/calculate_similarities.py:199-201 | flattening the gathered lists equals processing the concatenated chunks |
| SimilarityRules.ShardingPreservesEdges | myapp/management/commands/calculate_similarities.py:59-201 | round-robin split, per-shard comparison against all places and flattening yield the edges of one unsharded pass, as a multiset |
| SimilarityCommand.LoadedFeatures | myapp/management/commands/calculate_similarities.py:79-100 | the maps every worker loads: categories only when structural scores are computed, colours only when image scores are; `ComputeShard` and `CalculateSimilarities` rely on it |
| SimilarityCommand.Expected | myapp/management/commands/calculate_similarities.py:103-188 | a worker's list of one type: its chunk's shard edges when that family is computed, empty otherwise; `ComputeShard` proves the loops build it |
| SimilarityCommand.ResolveMode | myapp/management/commands/calculate_similarities.py:30-37 | a run computes at least one family; structural iff `--structural-only` or not `--image-only`, and image iff `--image-only` or not `--structural-only` |
| SimilarityCommand.ChannelsToClear | myapp/management/commands/calculate_similarities.py:41-45 | structural is cleared iff structural is computed, and both image types iff images are |
| SimilarityCommand.StartingTable | myapp/management/commands/calculate_similarities.py:40-50 | under `--clear` exactly the recomputed types are deleted; every other row keeps its score |
| SimilarityCommand.Partition | myapp/management/commands/calculate_similarities.py:59-61 | the append loop builds the round-robin chunks, which together are a permutation of the places |
| SimilarityCommand.NoColourNoRow | myapp/management/commands/calculate_similarities.py:140-141 | a place without a colour vector contributes no image edge |
| SimilarityCommand.StructuralRow | myapp/management/commands/calculate_similarities.py:109-135 | the inner structural loop appends exactly the place's structural row |
| SimilarityCommand.RowStep | myapp/management/commands/calculate_similarities.py:111 | comparing with one more place appends that pair's edges |
| SimilarityCommand.ImagePair | myapp/management/commands/calculate_similarities.py:145-185 | one comparable pair adds its cosine score to exactly the city-matching image list |
| SimilarityCommand.ImageRows | myapp/management/commands/calculate_similarities.py:138-185 | the inner image loop appends exactly the place's same-city and different-city rows |
| SimilarityCommand.ComputeShard | myapp/management/commands/calculate_similarities.py:103-188 | a worker's three lists are its chunk's edges of each type, or empty when that family is off |
| SimilarityCommand.GatherMatchesUnsharded | myapp/management/commands/calculate_similarities.py:191-201 | the flattened gather equals one unsharded pass, as a multiset |
| SimilarityCommand.RunWorkers | myapp/management/commands/calculate_similarities.py:67-193 | every rank's three lists, in rank order, are the expected shard edges |
| SimilarityCommand.CalculateSimilarities | myapp/management/commands/calculate_similarities.py:30-253 | the saved lists are, as multisets, one unsharded pass over all places per type, and the table is the cleared table with the three lists inserted in order |
| SimilarityCommand.SavedRowsIndependentOfWorkers | myapp/management/commands/calculate_similarities.py:59-253 | with unique place ids the saved table does not depend on the number of processes |
| PageRankSpec.LinkWeight | myapp/management/commands/calculate_pagerank.py:76-89 | an off-diagonal link weight lies in [0, 1] |
| PageRankSpec.RawEntry | myapp/management/commands/calculate_pagerank.py:71-92 | cell (i, j) of `M` before normalisation: 0 on the diagonal, the link weight elsewhere |
| PageRankSpec.RawMatrix | myapp/management/commands/calculate_pagerank.py:68-92 | the n×n matrix of those cells; `RawMatrixFacts` proves its shape, range, zero diagonal and symmetry |
| PageRankSpec.RawMatrixFacts | myapp/management/commands/calculate_pagerank.py:68-92 | the raw matrix is n×n, non-negative, zero on the diagonal, at most 1 and symmetric |
| PageRankSpec.SameCityLinked | myapp/management/commands/calculate_pagerank.py:79-80 | distinct places in one city are linked with weight at least 0.5 |
| PageRankSpec.NormaliseRow | myapp/management/commands/calculate_pagerank.py:95-98 | a row divided by its sum when that is positive, and left alone otherwise; `NormaliseRowFacts` proves the result |
| PageRankSpec.NormaliseRowFacts | myapp/management/commands/calculate_pagerank.py:95-98 | a non-negative row normalises to entries in [0, 1] summing to 1 when its sum is positive, and stays all zero otherwise |
| PageRankSpec.NormaliseMatrix | myapp/management/commands/calculate_pagerank.py:95-98 | every row normalised; `NormalisedMatrixFacts` proves the result row-stochastic or zero row by row |
| PageRankSpec.NormalisedMatrixFacts | myapp/management/commands/calculate_pagerank.py:68-98 | the normalised matrix is n×n with entries in [0, 1] and every row summing to 1 or all zero |
| PageRankSpec.ScaledCounts | myapp/management/commands/calculate_pagerank.py:101-111 | each count divided by the largest count, or by 1 when that is 0; `ScaledCountsSigns` proves the signs |
| PageRankSpec.PopularityVector | myapp/management/commands/calculate_pagerank.py:101-117 | the scaled counts divided by their sum when that is positive; `PopularityFacts` proves it is a distribution or all zero |
| PageRankSpec.ScaledCountsSigns | myapp/management/commands/calculate_pagerank.py:101-111 | max-scaled non-negative counts are non-negative, and positive where the count is |
| PageRankSpec.PopularityFacts | myapp/management/commands/calculate_pagerank.py:101-117 | a popularity vector has entries in [0, 1], sums to 1 when some count is positive, and is all zero otherwise |
| PageRankSpec.Influence | myapp/management/commands/calculate_pagerank.py:125 | `M.T.dot(pagerank)`, entry j the dot product of column j with the vector; `BlendAtLeastTeleport` uses that it is non-negative for a non-negative matrix and vector |
| PageRankSpec.Blend | myapp/management/commands/calculate_pagerank.py:128-132 | the teleport term plus the damped mix of influence and popularity; `BlendAtLeastTeleport` bounds each entry from below |
| PageRankSpec.Step | myapp/management/commands/calculate_pagerank.py:125-135 | one iteration fails exactly when the blended vector sums to 0, and otherwise keeps the vector's length |
| PageRankSpec.StepSumsToOne | myapp/management/commands/calculate_pagerank.py:135 | every successful iteration yields a vector summing to 1 |
| PageRankSpec.BlendAtLeastTeleport | myapp/management/commands/calculate_pagerank.py:128-132 | with 0 ≤ d < 1 and non-negative inputs each blended entry is at least (1 − d)/n |
| PageRankSpec.StepPositive | myapp/management/commands/calculate_pagerank.py:125-135 | under sane inputs an iteration never fails and every entry is positive |
| PageRankSpec.Uniform | myapp/management/commands/calculate_pagerank.py:120 | the start vector has n positive entries |
| PageRankSpec.UniformSumsToOne | myapp/management/commands/calculate_pagerank.py:120 | the start vector sums to 1 |
| PageRankSpec.Converged | myapp/management/commands/calculate_pagerank.py:138-144 | the change is below the tolerance, decided on squares; `ConvergedMatchesNorm` proves this agrees with `norm(diff) < tolerance` |
| PageRankSpec.ConvergedMatchesNorm | myapp/management/commands/calculate_pagerank.py:138-144 | the squared convergence test agrees with `norm(new − old) < tolerance` |
| PageRankSpec.Run | myapp/management/commands/calculate_pagerank.py:123-148 | a finished loop returns a vector of the same length |
| PageRankSpec.Iterate | myapp/management/commands/calculate_pagerank.py:123-135 | the k-th iterate from the start vector, absent once a step fails, of the start vector's length |
| PageRankSpec.RunFollowsIterates | myapp/management/commands/calculate_pagerank.py:123-146 | the loop resumed at iteration `it` on the it-th iterate returns the iterate it stopped at, stops on convergence only at an iteration that converged, and ran no earlier converged iteration |
| PageRankSpec.RunStopsAtFirstConvergence | myapp/management/commands/calculate_pagerank.py:123-146 | a finished loop returns the iterate of its last iteration, reports convergence exactly when that iteration converged, a failed loop failed at its last iteration, and no earlier iteration converged |
| PageRankSpec.RunIterationBound | myapp/management/commands/calculate_pagerank.py:123-148 | at most `max_iterations` iterations run, and an unconverged finish used all of them |
| PageRankSpec.RunSumsToOne | myapp/management/commands/calculate_pagerank.py:120-146 | starting from a distribution, the final vector is a distribution |
| PageRankSpec.RunPositive | myapp/management/commands/calculate_pagerank.py:123-146 | under sane inputs the loop never fails and every final entry is positive |
| PageRankSpec.MinOf | myapp/management/commands/calculate_pagerank.py:151 | `pagerank.min()` bounds every entry from below and is attained |
| PageRankSpec.MaxOf | myapp/management/commands/calculate_pagerank.py:152 | `pagerank.max()` bounds every entry from above and is attained |
| PageRankSpec.ScaleOne | myapp/management/commands/calculate_pagerank.py:155-158 | one value mapped linearly from [min, max] to [min_score, max_score], or to the midpoint when min equals max |
| PageRankSpec.Rescale | myapp/management/commands/calculate_pagerank.py:151-158 | every value mapped with the vector's own minimum and maximum; the lemmas below state its endpoints, bounds and monotonicity |
| PageRankSpec.RescaleConstant | myapp/management/commands/calculate_pagerank.py:155-156 | when all raw values are equal every place gets (min_score + max_score)/2 |
| PageRankSpec.RescaleEndpoints | myapp/management/commands/calculate_pagerank.py:157-158 | otherwise the smallest value maps to min_score and the largest to max_score |
| PageRankSpec.RescaleBounds | myapp/management/commands/calculate_pagerank.py:151-158 | with min_score ≤ max_score every scaled value lies in [min_score, max_score] |
| PageRankSpec.RescaleMonotone | myapp/management/commands/calculate_pagerank.py:151-158 | rescaling keeps the order of the values, strictly when min_score < max_score |
| PageRankCommand.Contents | myapp/management/commands/calculate_pagerank.py:68 | a matrix's contents have its dimensions |
| PageRankCommand.ContextOf | myapp/management/commands/calculate_pagerank.py:55-117 | the derived matrix and vectors are of consistent sizes |
| PageRankCommand.Result | myapp/management/commands/calculate_pagerank.py:36-163 | what a run ends with: invalid weights, no places, a failed iteration, or the rescaled final vector with its iteration count and convergence flag; `CalculatePageRank` proves the command ends so, and `RankingWellBehaved` states when it updates |
| PageRankCommand.BuildMatrix | myapp/management/commands/calculate_pagerank.py:68-92 | the cell-by-cell loops fill a fresh n×n matrix with the raw link weights |
| PageRankCommand.PairWeight | myapp/management/commands/calculate_pagerank.py:75-89 | one cell's weight computation yields the link weight that `PageRankSpec.LinkWeight` bounds in [0, 1] |
| PageRankCommand.NormaliseRows | myapp/management/commands/calculate_pagerank.py:95-98 | the in-place division leaves the row-normalised matrix |
| PageRankCommand.PowerIterate | myapp/management/commands/calculate_pagerank.py:120-148 | the loop with its early `break` ends exactly as the bounded iteration from the uniform vector |
| PageRankCommand.WriteBack | myapp/management/commands/calculate_pagerank.py:161-163 | every place's relevance score is overwritten with its own scaled value, and no other field changes |
| PageRankCommand.CalculatePageRank | myapp/management/commands/calculate_pagerank.py:26-163 | invalid weights or no places leave the places untouched; a step whose blended sum is 0 ends the run as `Diverged` with the places untouched (the source writes NaN here, see below); otherwise every place gets its scaled score |
| PageRankCommand.ContextOfSane | myapp/management/commands/calculate_pagerank.py:55-117 | with a damping below 1, non-negative option weights, a positive connection weight and non-negative counts, the derived matrix and popularity vectors meet the conditions under which no iteration fails |
| PageRankCommand.RankingWellBehaved | myapp/management/commands/calculate_pagerank.py:36-163 | with sane options and non-negative counts every place is updated within `max_iterations`, scores lie in [min_score, max_score], and they follow the order of the final PageRank vector |
| SimpleStructural.NormalisedWeights | myapp/management/commands/simple_stuctural.py:23-27 | the weights kept when they sum to 1, divided by their sum otherwise, and none when that sum is 0; `NormalisedWeightsFacts` proves the result |
| SimpleStructural.NormalisedWeightsFacts | myapp/management/commands/simple_stuctural.py:23-27 | the weights fail exactly when they sum to 0; otherwise they sum to 1 and keep the given ratio |
| SimpleStructural.ReconcileWeights | myapp/management/commands/simple_stuctural.py:23-27 | reassigning the two weights in place yields the normalised weights, and no weights when their sum is 0 |
| SimpleStructural.ViewsOf | myapp/management/commands/simple_stuctural.py:40 | the page-view list has each place's count, with null as 0 |
| SimpleStructural.StatsOf | myapp/management/commands/simple_stuctural.py:40-43 | `range_views` is positive, and every count lies between `min_views` and `min_views + range_views` |
| SimpleStructural.MinViewsNonNegative | myapp/management/commands/simple_stuctural.py:40-42 | with no negative count `min_views` is not negative |
| SimpleStructural.ViewsAsWritten | myapp/management/commands/simple_stuctural.py:54-64 | `(page_views or (0 - min_views)) / range_views`, the operator precedence as written |
| SimpleStructural.ViewsIntended | myapp/management/commands/simple_stuctural.py:53-54 | `((page_views or 0) - min_views) / range_views`, as the comment describes; `IntendedWithinUnit` bounds it |
| SimpleStructural.AsWrittenAgreesWhenMinIsZero | myapp/management/commands/simple_stuctural.py:54-64 | when `min_views` is 0 the written normalisation equals `(views − min)/range` |
| SimpleStructural.IntendedWithinUnit | myapp/management/commands/simple_stuctural.py:53-54 | the intended normalisation lies in [0, 1] |
| SimpleStructural.ScoreAgreesForNonNegativeViews | myapp/management/commands/simple_stuctural.py:54-74 | with no negative count the combined score as written equals the intended one |
| SimpleStructural.NegativeViewsSampleStats | myapp/management/commands/simple_stuctural.py:40-43 | for page views 0, −1, 4 `min_views` is −1 and `range_views` is 5 |
| SimpleStructural.NegativeViewsCounterexample | myapp/management/commands/simple_stuctural.py:54-77 | with page views 0, −1, 4 in three cities and weights 0.6/0.4 the pair (0, −1) scores 0.24 as written and 0.32 as intended, and is not emitted |
| SimpleStructural.Blend | myapp/management/commands/simple_stuctural.py:61-74 | `city_weight·[same city] + views_weight·(1 − abs(v1 − v2))`; `BlendWithinUnit` bounds it |
| SimpleStructural.Score | myapp/management/commands/simple_stuctural.py:54-74 | the blend with the views normalised as written; `ScoreSymmetric`, `ScoreWithinUnit` and `ScoreAgreesForNonNegativeViews` state its properties |
| SimpleStructural.ScoreSymmetric | myapp/management/commands/simple_stuctural.py:61-74 | the combined score is the same in both directions |
| SimpleStructural.BlendWithinUnit | myapp/management/commands/simple_stuctural.py:67-74 | a blend of values in [0, 1] with non-negative weights summing to 1 lies in [0, 1] |
| SimpleStructural.ScoreWithinUnit | myapp/management/commands/simple_stuctural.py:23-74 | with such weights and no negative count every score lies in [0, 1] |
| SimpleStructural.PairEdges | myapp/management/commands/simple_stuctural.py:57-83 | one comparison yields at most one edge |
| SimpleStructural.SameCityAlwaysEmitted | myapp/management/commands/simple_stuctural.py:57-77 | every ordered pair of distinct same-city places gets an edge whatever its score |
| SimpleStructural.CrossCityRule | myapp/management/commands/simple_stuctural.py:61-77 | a cross-city pair gets an edge iff `views_weight·(1 − abs(v1 − v2)) > 0.3` |
| SimpleStructural.RowEdges | myapp/management/commands/simple_stuctural.py:56-83 | place i compared with the first k places, in order; `RowMembership` characterises it |
| SimpleStructural.AllEdges | myapp/management/commands/simple_stuctural.py:48-83 | the `similarities` list of the first i places; `AllMembership`, `EdgesComeInPairs` and `EdgesAreStructural` characterise it |
| SimpleStructural.RowMembership | myapp/management/commands/simple_stuctural.py:56-83 | an edge is in a place's row exactly when one comparison produced it |
| SimpleStructural.AllMembership | myapp/management/commands/simple_stuctural.py:49-83 | an edge is in the list exactly when some ordered pair of positions produced it |
| SimpleStructural.EdgesComeInPairs | myapp/management/commands/simple_stuctural.py:57-83 | every edge's reverse is in the list with the same score |
| SimpleStructural.EdgesAreStructural | myapp/management/commands/simple_stuctural.py:57-83 | every edge is structural and joins two different list positions |
| SimpleStructural.CompareWithAll | myapp/management/commands/simple_stuctural.py:56-83 | the inner loop appends exactly the place's row |
| SimpleStructural.CompareAll | myapp/management/commands/simple_stuctural.py:48-83 | the outer loop collects every place's row in list order, the list whose membership `AllMembership` characterises |
| SimpleStructural.SimpleStructuralCommand | myapp/management/commands/simple_stuctural.py:18-99 | a zero weight sum stops before the table is touched; otherwise the list is every emitted pair in order, and the table is the (optionally structural-cleared) table with it inserted with ignore-conflicts |

## Left out

- MPI processes: the scatter, the `Barrier` and the gather are not run concurrently. The ranks run one after another in `RunWorkers`. Each rank reads only its own chunk and the shared snapshot, so the order does not change what they return.
- Django ORM, `save()` and `transaction.atomic`: places, links and images are sequences, and the `SimilarPlace` table is a map. The two `Place.objects.all()` queries of `calculate_similarities` are assumed to return the same list.
- JSON decoding of `color_vector` is not modelled. A stored vector is a `ColourField`: null or empty, undecodable, or decoded to a flat list of numbers. Other truthy JSON values are not represented: nested lists, which numpy would turn into matrices, and non-list values such as a number or an object. In the source such a value still replaces an earlier usable vector of the same place, and every image comparison with that place then fails in the per-pair handler.
- The per-pair exception handler of the image loop is not modelled. A failing pair contributes no edge either way, so the model only skips it.
- `SimilarityRules.CosineScore`: the norm of a colour vector is supplied with the vector, because square roots are not available on reals. Bounds and symmetry are proved under `NormMatches`, which requires the norm to be the non-negative square root of the squared norm.
- `PageRankSpec.Converged`: `np.linalg.norm(diff) < tolerance` is decided as `tolerance > 0 && ‖diff‖² < tolerance²`. `ConvergedMatchesNorm` shows this agrees with the norm test.
- Floating point: all arithmetic is exact. NaN and infinity are not modelled; a power-iteration step whose blended sum is 0 ends the run as `Diverged` (see the next line).
- PageRankCommand.CalculatePageRank: when a step's blended sum is 0, the model stops with `Diverged` at that iteration and leaves every place untouched. The source divides by zero instead. It goes on iterating on NaN for all `max_iterations`, because `diff < tolerance` is never true, rescales NaN to NaN, and writes NaN into every `relevance_score`. A database that refuses NaN in that column makes the first `save()` fail instead. The sum can be 0 only outside the conditions of `RankingWellBehaved`, for example with `--damping 1.0`, no category links and no page views or language counts.
  - The weight test `city_weight + views_weight != 1.0` is exact here, whereas floats can report a sum like 0.1 + 0.2 as different from 0.3.
  - Rounding with `round(x, 3)` and `round(x, 2)` is left out. Thresholds are applied before rounding in the source as well.
- `SimpleStructural.SimpleStructuralCommand`: the source raises `ZeroDivisionError` when the two weights sum to 0. The model returns `None` with the table unchanged, which is what the crash leaves.
- `PageRankCommand.CalculatePageRank` works on the array of places it is given. Saving each place to the database is that array update.
- Progress and summary messages on standard output, including the counts printed after clearing, are left out.
- Cascades from `City` and `Category` deletions are not modelled. Only the cascades of a place deletion are.
- The other commands, views, URLs, admin and migrations are not part of this model: importers, image fixing, colour-bar generation and the diagnostic command.
