/**
 * The `calculate_pagerank` command as it runs: the matrix is filled and
 * row-normalised in place, the power iteration reassigns its vector each
 * round, and every place's relevance score is overwritten at the end.
 */
module PageRankCommand {
  import opened Numeric
  import opened Models
  import opened Snapshot
  import opened PageRankSpec

  /** How a run ends. */
  datatype RankResult =
    | InvalidWeights
    | NoPlaces
    | Diverged(iterations: nat)
    | Updated(scores: seq<real>, iterations: nat, converged: bool)

  /** The current contents of a matrix, row by row. */
  function Contents(m: array2<real>): (r: seq<seq<real>>)
    reads m
    ensures |r| == m.Length0
    ensures forall i :: 0 <= i < m.Length0 ==> |r[i]| == m.Length1
  {
    seq(m.Length0, i requires 0 <= i < m.Length0 reads m =>
      seq(m.Length1, j requires 0 <= j < m.Length1 reads m => m[i, j]))
  }

  /** Everything the iteration reads, as the command derives it from the places and links. */
  function ContextOf(places: seq<Place>, links: seq<CategoryLink>, cfg: Config): (ctx: Context)
    requires |places| > 0
    ensures WellFormed(ctx)
  {
    var n := |places|;
    var cats := CategoryMapOf(links, Some(Ids(places)));
    NormalisedMatrixFacts(places, cats);
    Context(
      NormaliseMatrix(RawMatrix(places, cats)),
      PopularityVector(seq(n, i requires 0 <= i < n => ViewsOrZero(places[i]))),
      PopularityVector(seq(n, i requires 0 <= i < n => LanguagesOrZero(places[i]))),
      cfg)
  }

  /** What the command ends with for the given places, links and options. */
  function Result(places: seq<Place>, links: seq<CategoryLink>, cfg: Config): RankResult
  {
    if ConnectionWeight(cfg) <= 0.0 then InvalidWeights
    else if |places| == 0 then NoPlaces
    else match Run(ContextOf(places, links, cfg), Uniform(|places|), 0)
      case NonFinite(k) => Diverged(k)
      case Finished(v, k, c) => Updated(Rescale(v, cfg.minScore, cfg.maxScore), k, c)
  }

  /** `M = np.zeros((n, n))` filled cell by cell. */
  method BuildMatrix(places: seq<Place>, cats: CategoryMap) returns (m: array2<real>)
    ensures fresh(m)
    ensures m.Length0 == |places| && m.Length1 == |places|
    ensures Contents(m) == RawMatrix(places, cats)
  {
    var n := |places|;
    m := new real[n, n]((_, _) => 0.0);
    var i := 0;
    while i < n
      invariant 0 <= i <= n
      invariant forall r, c :: 0 <= r < n && 0 <= c < n ==> m[r, c] == (if r < i then RawEntry(places, cats, r, c) else 0.0)
    {
      var place1 := places[i];
      var j := 0;
      while j < n
        invariant 0 <= j <= n
        invariant forall r, c :: 0 <= r < n && 0 <= c < n ==>
          m[r, c] == (if r < i || (r == i && c < j) then RawEntry(places, cats, r, c) else 0.0)
      {
        if i != j {
          var weight := PairWeight(place1, places[j], cats);
          if weight > 0.0 {
            m[i, j] := weight;
          }
        }
        j := j + 1;
      }
      i := i + 1;
    }
    RawMatrixFacts(places, cats);
    SameMatrix(Contents(m), RawMatrix(places, cats), n, n);
  }

  /** The weight of the link from place1 to place2: 0.5 for a shared city plus half the category overlap. */
  method PairWeight(place1: Place, place2: Place, cats: CategoryMap) returns (weight: real)
    ensures weight == LinkWeight(place1, place2, cats)
  {
    weight := 0.0;
    if place1.cityId == place2.cityId {
      weight := weight + 0.5;
    }
    var cats1, cats2 := CategorySet(cats, place1.id), CategorySet(cats, place2.id);
    if cats1 != {} && cats2 != {} {
      var similarity := (|cats1 * cats2| as real) / (|cats1 + cats2| as real);
      weight := weight + similarity * 0.5;
    }
  }

  /** `row_sums = M.sum(axis=1)`, then each row with a positive sum divided by it, in place. */
  method NormaliseRows(m: array2<real>)
    modifies m
    ensures Contents(m) == NormaliseMatrix(old(Contents(m)))
  {
    ghost var raw := Contents(m);
    var rowSums := seq(m.Length0, r requires 0 <= r < m.Length0 reads m => Sum(Contents(m)[r]));
    var i := 0;
    while i < m.Length0
      invariant 0 <= i <= m.Length0
      invariant forall r, c :: 0 <= r < m.Length0 && 0 <= c < m.Length1 ==>
        m[r, c] == (if r < i then NormaliseRow(raw[r])[c] else raw[r][c])
    {
      if rowSums[i] > 0.0 {
        var j := 0;
        while j < m.Length1
          invariant 0 <= j <= m.Length1
          invariant forall r, c :: 0 <= r < m.Length0 && 0 <= c < m.Length1 ==>
            m[r, c] == (if r < i || (r == i && c < j) then NormaliseRow(raw[r])[c] else raw[r][c])
        {
          m[i, j] := m[i, j] / rowSums[i];
          j := j + 1;
        }
      }
      i := i + 1;
    }
    SameMatrix(Contents(m), NormaliseMatrix(raw), m.Length0, m.Length1);
  }

  /**
   * `for iteration in range(max_iterations)`: step, test the change, and
   * `break` after the first converged step.
   */
  method PowerIterate(ctx: Context) returns (outcome: Outcome)
    requires WellFormed(ctx)
    ensures outcome == Run(ctx, Uniform(|ctx.pageViews|), 0)
  {
    var n := |ctx.pageViews|;
    var pagerank := Uniform(n);
    var iteration: nat := 0;
    while iteration < ctx.config.maxIterations
      invariant |pagerank| == n
      invariant Run(ctx, Uniform(n), 0) == Run(ctx, pagerank, iteration)
      decreases Remaining(ctx, iteration)
    {
      var next := Step(ctx, pagerank);
      if next.None? {
        return NonFinite(iteration + 1);
      }
      var newPagerank := next.value;
      var converged := Converged(newPagerank, pagerank, ctx.config.tolerance);
      pagerank := newPagerank;
      if converged {
        return Finished(pagerank, iteration + 1, true);
      }
      iteration := iteration + 1;
    }
    return Finished(pagerank, iteration, false);
  }

  /** `place.relevance_score = scaled_scores[i]` for every place, in order. */
  method WriteBack(places: array<Place>, scores: seq<real>)
    requires |scores| == places.Length
    modifies places
    ensures forall i :: 0 <= i < places.Length ==> places[i] == old(places[i]).(relevanceScore := scores[i])
  {
    var i := 0;
    while i < places.Length
      invariant 0 <= i <= places.Length
      invariant forall k :: 0 <= k < places.Length ==>
        places[k] == if k < i then old(places[k]).(relevanceScore := scores[k]) else old(places[k])
    {
      places[i] := places[i].(relevanceScore := scores[i]);
      i := i + 1;
    }
  }

  predicate Shaped(a: seq<seq<real>>, rows: nat, cols: nat)
  {
    |a| == rows && forall i :: 0 <= i < rows ==> |a[i]| == cols
  }

  /** Two matrices of one shape with equal entries are equal. */
  lemma SameMatrix(a: seq<seq<real>>, b: seq<seq<real>>, rows: nat, cols: nat)
    requires Shaped(a, rows, cols) && Shaped(b, rows, cols)
    requires forall i, j :: 0 <= i < rows && 0 <= j < cols ==> a[i][j] == b[i][j]
    ensures a == b
  {
    forall i | 0 <= i < rows ensures a[i] == b[i] {
      assert forall j :: 0 <= j < cols ==> a[i][j] == b[i][j];
    }
  }

  /** The whole command over the place table, the category links and the options. */
  method CalculatePageRank(places: array<Place>, links: seq<CategoryLink>, cfg: Config) returns (result: RankResult)
    modifies places
    ensures result == Result(old(places[..]), links, cfg)
    ensures result.Updated? ==> |result.scores| == places.Length
    ensures result.Updated? ==> forall i :: 0 <= i < places.Length ==> places[i] == old(places[i]).(relevanceScore := result.scores[i])
    ensures !result.Updated? ==> places[..] == old(places[..])
  {
    var connectionWeight := 1.0 - (cfg.pageViewWeight + cfg.languageWeight);
    if connectionWeight <= 0.0 {
      return InvalidWeights;
    }
    var ps := places[..];
    if |ps| == 0 {
      return NoPlaces;
    }
    var n := |ps|;
    var placeIndices := Ids(ps);
    var cats := CollectCategories(links, Some(placeIndices));

    var m := BuildMatrix(ps, cats);
    NormaliseRows(m);
    var weights := Contents(m);

    var pageViewVector := PopularityVector(seq(n, i requires 0 <= i < n => ViewsOrZero(ps[i])));
    var languageVector := PopularityVector(seq(n, i requires 0 <= i < n => LanguagesOrZero(ps[i])));
    var ctx := Context(weights, pageViewVector, languageVector, cfg);
    assert ctx == ContextOf(ps, links, cfg);

    var outcome := PowerIterate(ctx);
    if outcome.NonFinite? {
      return Diverged(outcome.iterations);
    }
    var scaled := Rescale(outcome.vector, cfg.minScore, cfg.maxScore);
    WriteBack(places, scaled);
    result := Updated(scaled, outcome.iterations, outcome.converged);
  }

  /**
   * With a damping factor in [0, 1), non-negative popularity weights that
   * leave room for the links, non-negative counts and min_score <= max_score,
   * the command always updates every place, uses at most max_iterations
   * iterations, gives every place a score in [min_score, max_score], and
   * ranks places in the order of their final PageRank values.
   */
  lemma RankingWellBehaved(places: seq<Place>, links: seq<CategoryLink>, cfg: Config)
    requires |places| > 0
    requires 0.0 <= cfg.damping < 1.0
    requires 0.0 <= cfg.pageViewWeight && 0.0 <= cfg.languageWeight && 0.0 < ConnectionWeight(cfg)
    requires cfg.minScore <= cfg.maxScore
    requires forall i :: 0 <= i < |places| ==> 0 <= ViewsOrZero(places[i]) && 0 <= LanguagesOrZero(places[i])
    ensures Result(places, links, cfg).Updated?
    ensures Result(places, links, cfg).iterations <= Max(0, cfg.maxIterations)
    ensures |Result(places, links, cfg).scores| == |places|
    ensures forall i :: 0 <= i < |places| ==> cfg.minScore <= Result(places, links, cfg).scores[i] <= cfg.maxScore
    ensures var v := Run(ContextOf(places, links, cfg), Uniform(|places|), 0).vector;
            |v| == |places| &&
            forall i, j :: 0 <= i < |places| && 0 <= j < |places| && v[i] <= v[j] ==>
              Result(places, links, cfg).scores[i] <= Result(places, links, cfg).scores[j]
  {
    var n := |places|;
    var ctx := ContextOf(places, links, cfg);
    ContextOfSane(places, links, cfg);
    RunPositive(ctx, Uniform(n), 0);
    RunIterationBound(ctx, Uniform(n), 0);
    var run := Run(ctx, Uniform(n), 0);
    assert |run.vector| == n by {
      UniformSumsToOne(n);
      RunSumsToOne(ctx, Uniform(n), 0);
    }
    var v := run.vector;
    assert Result(places, links, cfg) == Updated(Rescale(v, cfg.minScore, cfg.maxScore), run.iterations, run.converged);
    RescaleBounds(v, cfg.minScore, cfg.maxScore);
    forall i, j | 0 <= i < n && 0 <= j < n && v[i] <= v[j]
      ensures Rescale(v, cfg.minScore, cfg.maxScore)[i] <= Rescale(v, cfg.minScore, cfg.maxScore)[j]
    {
      RescaleMonotone(v, cfg.minScore, cfg.maxScore, i, j);
    }
  }

  /** Under the conditions of RankingWellBehaved the iteration's inputs are sane. */
  lemma ContextOfSane(places: seq<Place>, links: seq<CategoryLink>, cfg: Config)
    requires |places| > 0
    requires 0.0 <= cfg.damping < 1.0
    requires 0.0 <= cfg.pageViewWeight && 0.0 <= cfg.languageWeight && 0.0 < ConnectionWeight(cfg)
    requires forall i :: 0 <= i < |places| ==> 0 <= ViewsOrZero(places[i]) && 0 <= LanguagesOrZero(places[i])
    ensures Sane(ContextOf(places, links, cfg))
  {
    var n := |places|;
    var views := seq(n, i requires 0 <= i < n => ViewsOrZero(places[i]));
    var languages := seq(n, i requires 0 <= i < n => LanguagesOrZero(places[i]));
    PopularityFacts(views);
    PopularityFacts(languages);
    NormalisedMatrixFacts(places, CategoryMapOf(links, Some(Ids(places))));
  }

}
