/**
 * The mathematics of `calculate_pagerank`: the link-weight matrix, its row
 * normalisation, the popularity vectors, one power-iteration step, the
 * bounded iteration with its convergence test, and the final rescale.
 */
module PageRankSpec {
  import opened Numeric
  import opened Models
  import opened Snapshot

  /** The command's options. */
  datatype Config = Config(
    damping: real,
    maxIterations: int,
    tolerance: real,
    pageViewWeight: real,
    languageWeight: real,
    minScore: real,
    maxScore: real)

  /** The option defaults. */
  const Defaults: Config := Config(0.85, 100, 0.0001, 0.3, 0.2, 0.1, 5.0)

  /** The share left for the link structure once the popularity weights are taken. */
  function ConnectionWeight(c: Config): real
  {
    1.0 - (c.pageViewWeight + c.languageWeight)
  }

  function Ids(places: seq<Place>): set<int>
  {
    set p | p in places :: p.id
  }

  // ---------------------------------------------------------------------
  // The link-weight matrix
  // ---------------------------------------------------------------------

  /** 0.5 for a shared city plus 0.5 J when both places have categories. */
  function LinkWeight(p1: Place, p2: Place, cats: CategoryMap): (w: real)
    ensures 0.0 <= w <= 1.0
  {
    var c1, c2 := CategorySet(cats, p1.id), CategorySet(cats, p2.id);
    (if p1.cityId == p2.cityId then 0.5 else 0.0)
      + (if c1 != {} && c2 != {} then Jaccard(c1, c2) * 0.5 else 0.0)
  }

  /** Entry (i, j) of the matrix before normalisation: no self-links. */
  function RawEntry(places: seq<Place>, cats: CategoryMap, i: nat, j: nat): real
    requires i < |places| && j < |places|
  {
    if i == j then 0.0 else LinkWeight(places[i], places[j], cats)
  }

  function RawMatrix(places: seq<Place>, cats: CategoryMap): seq<seq<real>>
  {
    seq(|places|, i requires 0 <= i < |places| =>
      seq(|places|, j requires 0 <= j < |places| => RawEntry(places, cats, i, j)))
  }

  predicate Square(m: seq<seq<real>>, n: nat)
  {
    |m| == n && forall i :: 0 <= i < n ==> |m[i]| == n
  }

  predicate NonNegativeMatrix(m: seq<seq<real>>)
  {
    forall i :: 0 <= i < |m| ==> AllNonNegative(m[i])
  }

  /** The raw matrix is square, has a zero diagonal, entries in [0, 1], and is symmetric. */
  lemma RawMatrixFacts(places: seq<Place>, cats: CategoryMap)
    ensures Square(RawMatrix(places, cats), |places|)
    ensures NonNegativeMatrix(RawMatrix(places, cats))
    ensures forall i :: 0 <= i < |places| ==> RawMatrix(places, cats)[i][i] == 0.0
    ensures forall i, j :: 0 <= i < |places| && 0 <= j < |places| ==>
              RawMatrix(places, cats)[i][j] <= 1.0 && RawMatrix(places, cats)[i][j] == RawMatrix(places, cats)[j][i]
  {
    var m := RawMatrix(places, cats);
    forall i, j | 0 <= i < |places| && 0 <= j < |places|
      ensures m[i][j] == m[j][i]
    {
      JaccardSymmetric(CategorySet(cats, places[i].id), CategorySet(cats, places[j].id));
    }
  }

  /** Two distinct places in one city are linked with weight at least 0.5. */
  lemma SameCityLinked(places: seq<Place>, cats: CategoryMap, i: nat, j: nat)
    requires i < |places| && j < |places| && i != j && places[i].cityId == places[j].cityId
    ensures 0.5 <= RawEntry(places, cats, i, j)
  {
  }

  // ---------------------------------------------------------------------
  // Row normalisation
  // ---------------------------------------------------------------------

  /** `M[i] = M[i] / row_sums[i]` when the row sum is positive; other rows are left alone. */
  function NormaliseRow(row: seq<real>): (r: seq<real>)
    ensures |r| == |row|
  {
    if Sum(row) > 0.0 then Divide(row, Sum(row)) else row
  }

  /**
   * A non-negative row normalises to entries in [0, 1] summing to 1 when its
   * sum is positive, and stays all zero otherwise: no mass is redistributed.
   */
  lemma NormaliseRowFacts(row: seq<real>)
    requires AllNonNegative(row)
    ensures AllNonNegative(NormaliseRow(row))
    ensures forall j :: 0 <= j < |row| ==> NormaliseRow(row)[j] <= 1.0
    ensures Sum(row) > 0.0 ==> Sum(NormaliseRow(row)) == 1.0
    ensures Sum(row) <= 0.0 ==> NormaliseRow(row) == row && AllZero(row)
  {
    SumNonNegative(row);
    if Sum(row) > 0.0 {
      DivideBySumIsOne(row);
      forall j | 0 <= j < |row| ensures NormaliseRow(row)[j] <= 1.0 {
        EntryAtMostSum(row, j);
        DivideAtMostOne(row[j], Sum(row));
      }
    } else {
      SumZeroMeansAllZero(row);
    }
  }

  function NormaliseMatrix(m: seq<seq<real>>): (r: seq<seq<real>>)
    ensures |r| == |m|
  {
    seq(|m|, i requires 0 <= i < |m| => NormaliseRow(m[i]))
  }

  /** The normalised link matrix: square, entries in [0, 1], every row summing to 1 or all zero. */
  lemma NormalisedMatrixFacts(places: seq<Place>, cats: CategoryMap)
    ensures var w := NormaliseMatrix(RawMatrix(places, cats));
            && Square(w, |places|)
            && NonNegativeMatrix(w)
            && forall i :: 0 <= i < |places| ==> Sum(w[i]) == 1.0 || AllZero(w[i])
  {
    var raw := RawMatrix(places, cats);
    RawMatrixFacts(places, cats);
    forall i | 0 <= i < |places|
      ensures AllNonNegative(NormaliseRow(raw[i]))
      ensures Sum(NormaliseRow(raw[i])) == 1.0 || AllZero(NormaliseRow(raw[i]))
    {
      NormaliseRowFacts(raw[i]);
    }
  }

  // ---------------------------------------------------------------------
  // Popularity vectors
  // ---------------------------------------------------------------------

  /** `(count or 0) / max` per place, with a maximum of 0 replaced by 1. */
  function ScaledCounts(counts: seq<int>): (v: seq<real>)
    requires |counts| > 0
    ensures |v| == |counts|
  {
    var mx := MaxCount(counts);
    var denom := if mx == 0 then 1 else mx;
    seq(|counts|, i requires 0 <= i < |counts| => (counts[i] as real) / (denom as real))
  }

  /** The max-scaled vector, then divided by its sum when that is positive. */
  function PopularityVector(counts: seq<int>): (v: seq<real>)
    requires |counts| > 0
    ensures |v| == |counts|
  {
    NormaliseRow(ScaledCounts(counts))
  }

  /** Non-negative counts scale to non-negative values, positive where the count is positive. */
  lemma ScaledCountsSigns(counts: seq<int>)
    requires |counts| > 0
    requires forall i :: 0 <= i < |counts| ==> 0 <= counts[i]
    ensures AllNonNegative(ScaledCounts(counts))
    ensures forall i :: 0 <= i < |counts| && counts[i] > 0 ==> ScaledCounts(counts)[i] > 0.0
    ensures forall i :: 0 <= i < |counts| && counts[i] == 0 ==> ScaledCounts(counts)[i] == 0.0
  {
    var mx := MaxCount(counts);
    var denom := if mx == 0 then 1 else mx;
    var scaled := ScaledCounts(counts);
    forall i | 0 <= i < |counts|
      ensures 0.0 <= scaled[i] && (counts[i] > 0 ==> scaled[i] > 0.0) && (counts[i] == 0 ==> scaled[i] == 0.0)
    {
      assert scaled[i] == (counts[i] as real) / (denom as real);
      QuotientSigns(counts[i], denom);
    }
  }

  lemma QuotientSigns(x: int, d: int)
    requires 0 <= x && 0 < d
    ensures 0.0 <= (x as real) / (d as real)
    ensures x > 0 ==> (x as real) / (d as real) > 0.0
  {
    assert (x as real) / (d as real) * (d as real) == x as real;
  }

  /**
   * For non-negative counts the popularity vector has entries in [0, 1], and
   * sums to 1 when some count is positive; when all counts are 0 it is all zero.
   */
  lemma PopularityFacts(counts: seq<int>)
    requires |counts| > 0
    requires forall i :: 0 <= i < |counts| ==> 0 <= counts[i]
    ensures AllNonNegative(PopularityVector(counts))
    ensures forall i :: 0 <= i < |counts| ==> PopularityVector(counts)[i] <= 1.0
    ensures (exists i :: 0 <= i < |counts| && counts[i] > 0) ==> Sum(PopularityVector(counts)) == 1.0
    ensures (forall i :: 0 <= i < |counts| ==> counts[i] == 0) ==> AllZero(PopularityVector(counts))
  {
    var scaled := ScaledCounts(counts);
    ScaledCountsSigns(counts);
    NormaliseRowFacts(scaled);
    if exists i :: 0 <= i < |counts| && counts[i] > 0 {
      var i :| 0 <= i < |counts| && counts[i] > 0;
      EntryAtMostSum(scaled, i);
    } else {
      assert AllZero(scaled);
      SumOfZeros(scaled);
    }
  }

  // ---------------------------------------------------------------------
  // Power iteration
  // ---------------------------------------------------------------------

  /** Everything one iteration reads besides the current vector. */
  datatype Context = Context(
    weights: seq<seq<real>>,
    pageViews: seq<real>,
    languages: seq<real>,
    config: Config)

  predicate WellFormed(ctx: Context)
  {
    && |ctx.pageViews| > 0
    && |ctx.languages| == |ctx.pageViews|
    && Square(ctx.weights, |ctx.pageViews|)
  }

  /** Inputs under which the iteration is a well-behaved stochastic process. */
  predicate Sane(ctx: Context)
  {
    && WellFormed(ctx)
    && 0.0 <= ctx.config.damping < 1.0
    && 0.0 < ConnectionWeight(ctx.config)
    && 0.0 <= ctx.config.pageViewWeight && 0.0 <= ctx.config.languageWeight
    && NonNegativeMatrix(ctx.weights)
    && AllNonNegative(ctx.pageViews) && AllNonNegative(ctx.languages)
  }

  /** Column j of a square matrix. */
  function Column(m: seq<seq<real>>, n: nat, j: nat): (c: seq<real>)
    requires Square(m, n) && j < n
    ensures |c| == n
  {
    seq(n, i requires 0 <= i < n => m[i][j])
  }

  /** `M.T.dot(v)` */
  function Influence(m: seq<seq<real>>, v: seq<real>): (r: seq<real>)
    requires Square(m, |v|)
    ensures |r| == |v|
  {
    seq(|v|, j requires 0 <= j < |v| => Dot(Column(m, |v|, j), v))
  }

  /** `(1 - d) / n + d * (cw * influence + pw * page_views + lw * languages)`, before renormalising. */
  function Blend(ctx: Context, v: seq<real>): (r: seq<real>)
    requires WellFormed(ctx) && |v| == |ctx.pageViews|
    ensures |r| == |v|
  {
    var n := |v|;
    var c := ctx.config;
    var infl := Influence(ctx.weights, v);
    seq(n, j requires 0 <= j < n =>
      (1.0 - c.damping) / (n as real)
        + c.damping * (ConnectionWeight(c) * infl[j] + c.pageViewWeight * ctx.pageViews[j] + c.languageWeight * ctx.languages[j]))
  }

  /**
   * One iteration: the blended vector divided by its sum. A zero sum makes
   * the division produce non-numbers; that case is `None`.
   */
  function Step(ctx: Context, v: seq<real>): (r: Option<seq<real>>)
    requires WellFormed(ctx) && |v| == |ctx.pageViews|
    ensures r.None? <==> Sum(Blend(ctx, v)) == 0.0
    ensures r.Some? ==> |r.value| == |v|
  {
    var b := Blend(ctx, v);
    if Sum(b) == 0.0 then None else Some(Divide(b, Sum(b)))
  }

  /** Whenever a step succeeds, its vector sums to 1. */
  lemma StepSumsToOne(ctx: Context, v: seq<real>)
    requires WellFormed(ctx) && |v| == |ctx.pageViews|
    requires Step(ctx, v).Some?
    ensures Sum(Step(ctx, v).value) == 1.0
  {
    DivideBySumIsOne(Blend(ctx, v));
  }

  lemma {:induction false} DotNonNegative(a: seq<real>, b: seq<real>)
    requires |a| == |b| && AllNonNegative(a) && AllNonNegative(b)
    ensures 0.0 <= Dot(a, b)
  {
    if a != [] {
      DotNonNegative(a[..|a| - 1], b[..|b| - 1]);
      MulNonNegative(a[|a| - 1], b[|b| - 1]);
    }
  }

  lemma MulNonNegative(a: real, b: real)
    requires 0.0 <= a && 0.0 <= b
    ensures 0.0 <= a * b
  {
    if a > 0.0 && b > 0.0 {
      MulPositive(a, b);
    }
  }

  /** With 0 <= d < 1 and non-negative inputs every blended entry is at least (1 - d) / n. */
  lemma BlendAtLeastTeleport(ctx: Context, v: seq<real>, j: nat)
    requires Sane(ctx) && |v| == |ctx.pageViews| && AllNonNegative(v) && j < |v|
    ensures (1.0 - ctx.config.damping) / (|v| as real) <= Blend(ctx, v)[j]
  {
    var c := ctx.config;
    var col := Column(ctx.weights, |v|, j);
    assert AllNonNegative(col);
    DotNonNegative(col, v);
    var infl := Influence(ctx.weights, v)[j];
    MulNonNegative(ConnectionWeight(c), infl);
    MulNonNegative(c.pageViewWeight, ctx.pageViews[j]);
    MulNonNegative(c.languageWeight, ctx.languages[j]);
    MulNonNegative(c.damping, ConnectionWeight(c) * infl + c.pageViewWeight * ctx.pageViews[j] + c.languageWeight * ctx.languages[j]);
  }

  /** Under sane inputs a step from a non-negative vector succeeds and every entry is positive. */
  lemma StepPositive(ctx: Context, v: seq<real>)
    requires Sane(ctx) && |v| == |ctx.pageViews| && AllNonNegative(v)
    ensures Step(ctx, v).Some?
    ensures AllPositive(Step(ctx, v).value)
  {
    var n := |v|;
    var b := Blend(ctx, v);
    var lo := (1.0 - ctx.config.damping) / (n as real);
    assert 0.0 < lo;
    forall j | 0 <= j < n ensures lo <= b[j] {
      BlendAtLeastTeleport(ctx, v, j);
    }
    SumAtLeast(b, lo);
    MulPositive(n as real, lo);
    forall j | 0 <= j < n ensures 0.0 < b[j] / Sum(b) {
      MulPositive(b[j], 1.0 / Sum(b));
    }
  }

  /** `np.ones(n) / n` */
  function Uniform(n: nat): (v: seq<real>)
    requires n > 0
    ensures |v| == n
    ensures AllPositive(v)
  {
    seq(n, _ => 1.0 / (n as real))
  }

  lemma {:induction false} SumConstant(n: nat, c: real)
    ensures Sum(seq(n, _ => c)) == (n as real) * c
  {
    if n > 0 {
      assert seq(n, _ => c)[..n - 1] == seq(n - 1, _ => c);
      SumConstant(n - 1, c);
    }
  }

  /** The starting vector is a probability distribution. */
  lemma UniformSumsToOne(n: nat)
    requires n > 0
    ensures Sum(Uniform(n)) == 1.0
  {
    SumConstant(n, 1.0 / (n as real));
  }

  /** Componentwise difference. */
  function Sub(a: seq<real>, b: seq<real>): (r: seq<real>)
    requires |a| == |b|
    ensures |r| == |a|
  {
    seq(|a|, i requires 0 <= i < |a| => a[i] - b[i])
  }

  /** `np.linalg.norm(new - old) < tolerance`, decided on squares. */
  predicate Converged(next: seq<real>, prev: seq<real>, tolerance: real)
    requires |next| == |prev|
  {
    0.0 < tolerance && SqNorm(Sub(next, prev)) < tolerance * tolerance
  }

  /** The squared test agrees with comparing the Euclidean distance against the tolerance. */
  lemma ConvergedMatchesNorm(next: seq<real>, prev: seq<real>, tolerance: real, dist: real)
    requires |next| == |prev|
    requires 0.0 <= dist && dist * dist == SqNorm(Sub(next, prev))
    ensures dist < tolerance <==> Converged(next, prev, tolerance)
  {
    if dist < tolerance {
      assert tolerance * tolerance - dist * dist == (tolerance - dist) * (tolerance + dist);
      MulPositive(tolerance - dist, tolerance + dist);
    } else if 0.0 < tolerance {
      MulMonotone(tolerance, tolerance, dist, dist);
    }
  }

  /** How the loop ended: after some iterations, with or without converging; or with a zero sum. */
  datatype Outcome =
    | Finished(vector: seq<real>, iterations: nat, converged: bool)
    | NonFinite(iterations: nat)

  function Remaining(ctx: Context, it: nat): nat
  {
    if it <= ctx.config.maxIterations then ctx.config.maxIterations - it else 0
  }

  /**
   * The loop from iteration `it` on with current vector `v`: stop when the
   * iteration budget is spent, when a step fails, or right after the first
   * step whose change is below the tolerance.
   */
  function Run(ctx: Context, v: seq<real>, it: nat): (r: Outcome)
    requires WellFormed(ctx) && |v| == |ctx.pageViews|
    ensures r.Finished? ==> |r.vector| == |v|
    decreases Remaining(ctx, it)
  {
    if it >= ctx.config.maxIterations then Finished(v, it, false)
    else match Step(ctx, v)
      case None => NonFinite(it + 1)
      case Some(next) =>
        if Converged(next, v, ctx.config.tolerance) then Finished(next, it + 1, true)
        else Run(ctx, next, it + 1)
  }

  function Max(a: int, b: int): int
  {
    if a < b then b else a
  }

  /**
   * At most `max_iterations` iterations run; the loop stops early only on
   * convergence (or a failed step), so an unconverged finish used them all.
   */
  lemma {:induction false} RunIterationBound(ctx: Context, v: seq<real>, it: nat)
    requires WellFormed(ctx) && |v| == |ctx.pageViews|
    ensures Run(ctx, v, it).Finished? ==> it <= Run(ctx, v, it).iterations <= Max(it, ctx.config.maxIterations)
    ensures Run(ctx, v, it).NonFinite? ==> it < Run(ctx, v, it).iterations <= Max(it, ctx.config.maxIterations)
    ensures Run(ctx, v, it).Finished? && !Run(ctx, v, it).converged ==> Run(ctx, v, it).iterations == Max(it, ctx.config.maxIterations)
    decreases Remaining(ctx, it)
  {
    if it < ctx.config.maxIterations {
      var s := Step(ctx, v);
      if s.Some? && !Converged(s.value, v, ctx.config.tolerance) {
        RunIterationBound(ctx, s.value, it + 1);
      }
    }
  }

  /** The k-th iterate from v: k steps one after another, or None once a step fails. */
  function Iterate(ctx: Context, v: seq<real>, k: nat): (r: Option<seq<real>>)
    requires WellFormed(ctx) && |v| == |ctx.pageViews|
    ensures r.Some? ==> |r.value| == |v|
  {
    if k == 0 then Some(v)
    else match Iterate(ctx, v, k - 1)
      case None => None
      case Some(w) => Step(ctx, w)
  }

  /** Iteration k (counting from 1) changed the vector by less than the tolerance. */
  predicate ConvergedAt(ctx: Context, v: seq<real>, k: nat)
    requires WellFormed(ctx) && |v| == |ctx.pageViews|
  {
    && 0 < k
    && Iterate(ctx, v, k).Some? && Iterate(ctx, v, k - 1).Some?
    && Converged(Iterate(ctx, v, k).value, Iterate(ctx, v, k - 1).value, ctx.config.tolerance)
  }

  /**
   * Outcome r of the loop resumed at iteration `it` follows the iterates of
   * v: it holds the iterate it stopped at, it reports convergence only at an
   * iteration that converged, a failure happened at its last iteration, and
   * no iteration it ran before its last converged.
   */
  predicate Follows(ctx: Context, v: seq<real>, it: nat, r: Outcome)
    requires WellFormed(ctx) && |v| == |ctx.pageViews|
  {
    && (r.Finished? ==> Iterate(ctx, v, r.iterations) == Some(r.vector))
    && (r.Finished? && r.converged ==> it < r.iterations && ConvergedAt(ctx, v, r.iterations))
    && (r.Finished? && !r.converged ==> forall j :: it < j <= r.iterations ==> !ConvergedAt(ctx, v, j))
    && (r.NonFinite? ==> Iterate(ctx, v, r.iterations).None?)
    && forall j :: it < j < r.iterations ==> !ConvergedAt(ctx, v, j)
  }

  /** An outcome that follows from iteration it + 1 on also follows from it, when iteration it + 1 did not converge. */
  lemma FollowsEarlier(ctx: Context, v: seq<real>, it: nat, r: Outcome)
    requires WellFormed(ctx) && |v| == |ctx.pageViews|
    requires Follows(ctx, v, it + 1, r) && !ConvergedAt(ctx, v, it + 1)
    ensures Follows(ctx, v, it, r)
  {
    if r.Finished? && !r.converged {
      forall j | it < j <= r.iterations ensures !ConvergedAt(ctx, v, j) {
        if j != it + 1 {
          assert it + 1 < j <= r.iterations;
        }
      }
    }
    forall j | it < j < r.iterations ensures !ConvergedAt(ctx, v, j) {
      if j != it + 1 {
        assert it + 1 < j < r.iterations;
      }
    }
  }

  /** The loop resumed at iteration `it` on the it-th iterate follows the iterates. */
  lemma {:induction false} RunFollowsIterates(ctx: Context, v: seq<real>, it: nat)
    requires WellFormed(ctx) && |v| == |ctx.pageViews|
    requires Iterate(ctx, v, it).Some?
    ensures Follows(ctx, v, it, Run(ctx, Iterate(ctx, v, it).value, it))
    decreases Remaining(ctx, it)
  {
    var w := Iterate(ctx, v, it).value;
    var r := Run(ctx, w, it);
    if it >= ctx.config.maxIterations {
      assert r == Finished(w, it, false);
    } else {
      var s := Step(ctx, w);
      IterateNext(ctx, v, it);
      if s.None? {
        assert r == NonFinite(it + 1);
      } else if Converged(s.value, w, ctx.config.tolerance) {
        assert r == Finished(s.value, it + 1, true);
        assert ConvergedAt(ctx, v, it + 1);
      } else {
        assert r == Run(ctx, s.value, it + 1);
        assert !ConvergedAt(ctx, v, it + 1);
        RunFollowsIterates(ctx, v, it + 1);
        FollowsEarlier(ctx, v, it, r);
      }
    }
  }

  /** The next iterate is one step from the current one. */
  lemma IterateNext(ctx: Context, v: seq<real>, k: nat)
    requires WellFormed(ctx) && |v| == |ctx.pageViews|
    requires Iterate(ctx, v, k).Some?
    ensures Iterate(ctx, v, k + 1) == Step(ctx, Iterate(ctx, v, k).value)
  {
  }

  /**
   * `break` on the first small change: a finished run returns the iterate of
   * its last iteration, it reports convergence exactly when that iteration
   * converged, a failed run failed at that iteration, and no earlier
   * iteration converged.
   */
  lemma RunStopsAtFirstConvergence(ctx: Context, v: seq<real>)
    requires WellFormed(ctx) && |v| == |ctx.pageViews|
    ensures var r := Run(ctx, v, 0);
            && (r.Finished? ==> Iterate(ctx, v, r.iterations) == Some(r.vector))
            && (r.Finished? ==> (r.converged <==> ConvergedAt(ctx, v, r.iterations)))
            && (r.NonFinite? ==> Iterate(ctx, v, r.iterations).None?)
            && forall j :: 0 < j < r.iterations ==> !ConvergedAt(ctx, v, j)
  {
    RunFollowsIterates(ctx, v, 0);
    assert Iterate(ctx, v, 0) == Some(v);
  }

  /** Starting from a distribution, the loop's vector remains a distribution. */
  lemma {:induction false} RunSumsToOne(ctx: Context, v: seq<real>, it: nat)
    requires WellFormed(ctx) && |v| == |ctx.pageViews| && Sum(v) == 1.0
    ensures Run(ctx, v, it).Finished? ==> Sum(Run(ctx, v, it).vector) == 1.0 && |Run(ctx, v, it).vector| == |v|
    decreases Remaining(ctx, it)
  {
    if it < ctx.config.maxIterations {
      var s := Step(ctx, v);
      if s.Some? {
        StepSumsToOne(ctx, v);
        if !Converged(s.value, v, ctx.config.tolerance) {
          RunSumsToOne(ctx, s.value, it + 1);
        }
      }
    }
  }

  /** Under sane inputs no step fails and every entry of the final vector is positive. */
  lemma {:induction false} RunPositive(ctx: Context, v: seq<real>, it: nat)
    requires Sane(ctx) && |v| == |ctx.pageViews| && AllPositive(v)
    ensures Run(ctx, v, it).Finished?
    ensures AllPositive(Run(ctx, v, it).vector)
    decreases Remaining(ctx, it)
  {
    if it < ctx.config.maxIterations {
      StepPositive(ctx, v);
      var next := Step(ctx, v).value;
      if !Converged(next, v, ctx.config.tolerance) {
        RunPositive(ctx, next, it + 1);
      }
    }
  }

  // ---------------------------------------------------------------------
  // Rescaling
  // ---------------------------------------------------------------------

  function MinOf(s: seq<real>): (r: real)
    requires |s| > 0
    ensures forall i :: 0 <= i < |s| ==> r <= s[i]
    ensures exists i :: 0 <= i < |s| && s[i] == r
  {
    if |s| == 1 then s[0]
    else
      var rest := MinOf(s[..|s| - 1]);
      assert forall i :: 0 <= i < |s| - 1 ==> s[..|s| - 1][i] == s[i];
      if s[|s| - 1] < rest then s[|s| - 1] else rest
  }

  function MaxOf(s: seq<real>): (r: real)
    requires |s| > 0
    ensures forall i :: 0 <= i < |s| ==> s[i] <= r
    ensures exists i :: 0 <= i < |s| && s[i] == r
  {
    if |s| == 1 then s[0]
    else
      var rest := MaxOf(s[..|s| - 1]);
      assert forall i :: 0 <= i < |s| - 1 ==> s[..|s| - 1][i] == s[i];
      if s[|s| - 1] > rest then s[|s| - 1] else rest
  }

  /** One scaled value: `lo + (x - min) * (hi - lo) / (max - min)`, or the midpoint when max == min. */
  function ScaleOne(x: real, mn: real, mx: real, lo: real, hi: real): real
  {
    if mx == mn then (lo + hi) / 2.0 else lo + (x - mn) * (hi - lo) / (mx - mn)
  }

  /** The linear map of the raw scores onto [min_score, max_score]. */
  function Rescale(raw: seq<real>, lo: real, hi: real): (r: seq<real>)
    requires |raw| > 0
    ensures |r| == |raw|
  {
    var mn, mx := MinOf(raw), MaxOf(raw);
    seq(|raw|, i requires 0 <= i < |raw| => ScaleOne(raw[i], mn, mx, lo, hi))
  }

  /** When every raw value is the same, every place gets the midpoint of the range. */
  lemma RescaleConstant(raw: seq<real>, lo: real, hi: real)
    requires |raw| > 0 && forall i :: 0 <= i < |raw| ==> raw[i] == raw[0]
    ensures forall i :: 0 <= i < |raw| ==> Rescale(raw, lo, hi)[i] == (lo + hi) / 2.0
  {
    assert MinOf(raw) == raw[0] == MaxOf(raw);
  }

  lemma CancelFactor(a: real, b: real)
    requires a != 0.0
    ensures a * b / a == b
  {
  }

  /** Otherwise the smallest raw value maps to min_score and the largest to max_score. */
  lemma RescaleEndpoints(raw: seq<real>, lo: real, hi: real, i: nat)
    requires i < |raw| && MinOf(raw) != MaxOf(raw)
    ensures raw[i] == MinOf(raw) ==> Rescale(raw, lo, hi)[i] == lo
    ensures raw[i] == MaxOf(raw) ==> Rescale(raw, lo, hi)[i] == hi
  {
    ScaleEndpoints(MinOf(raw), MaxOf(raw), lo, hi);
  }

  lemma ScaleEndpoints(mn: real, mx: real, lo: real, hi: real)
    requires mn != mx
    ensures ScaleOne(mn, mn, mx, lo, hi) == lo
    ensures ScaleOne(mx, mn, mx, lo, hi) == hi
  {
    CancelFactor(mx - mn, hi - lo);
  }

  lemma ScaleAsFraction(x: real, mn: real, mx: real, lo: real, hi: real)
    requires mn < mx
    ensures ScaleOne(x, mn, mx, lo, hi) == lo + (x - mn) / (mx - mn) * (hi - lo)
  {
  }

  /** The fraction of the raw range below x, as a number in [0, 1]. */
  lemma ScaleFraction(x: real, mn: real, mx: real, lo: real, hi: real)
    requires mn <= x <= mx && mn < mx && lo <= hi
    ensures lo <= ScaleOne(x, mn, mx, lo, hi) <= hi
  {
    var t := (x - mn) / (mx - mn);
    ScaleAsFraction(x, mn, mx, lo, hi);
    DivideAtMostOne(x - mn, mx - mn);
    MulNonNegative(t, hi - lo);
    MulMonotone(t, hi - lo, 1.0, hi - lo);
  }

  /** With min_score <= max_score every scaled value lies in [min_score, max_score]. */
  lemma RescaleBounds(raw: seq<real>, lo: real, hi: real)
    requires |raw| > 0 && lo <= hi
    ensures forall i :: 0 <= i < |raw| ==> lo <= Rescale(raw, lo, hi)[i] <= hi
  {
    var mn, mx := MinOf(raw), MaxOf(raw);
    forall i | 0 <= i < |raw| ensures lo <= Rescale(raw, lo, hi)[i] <= hi {
      if mn != mx {
        ScaleFraction(raw[i], mn, mx, lo, hi);
      }
    }
  }

  /** The scale map is monotone, strictly so when lo < hi. */
  lemma ScaleMonotone(x: real, y: real, mn: real, mx: real, lo: real, hi: real)
    requires mn < mx && lo <= hi && x <= y
    ensures ScaleOne(x, mn, mx, lo, hi) <= ScaleOne(y, mn, mx, lo, hi)
    ensures x < y && lo < hi ==> ScaleOne(x, mn, mx, lo, hi) < ScaleOne(y, mn, mx, lo, hi)
  {
    var k := (hi - lo) / (mx - mn);
    assert ScaleOne(x, mn, mx, lo, hi) == lo + (x - mn) * k;
    assert ScaleOne(y, mn, mx, lo, hi) == lo + (y - mn) * k;
    assert (y - mn) * k - (x - mn) * k == (y - x) * k;
    MulNonNegative(hi - lo, 1.0 / (mx - mn));
    MulNonNegative(y - x, k);
    if x < y && lo < hi {
      MulPositive(hi - lo, 1.0 / (mx - mn));
      MulPositive(y - x, k);
    }
  }

  /** The rescale keeps the order of the raw values, strictly when min_score < max_score. */
  lemma RescaleMonotone(raw: seq<real>, lo: real, hi: real, i: nat, j: nat)
    requires i < |raw| && j < |raw| && lo <= hi
    ensures raw[i] <= raw[j] ==> Rescale(raw, lo, hi)[i] <= Rescale(raw, lo, hi)[j]
    ensures raw[i] < raw[j] && lo < hi ==> Rescale(raw, lo, hi)[i] < Rescale(raw, lo, hi)[j]
  {
    var mn, mx := MinOf(raw), MaxOf(raw);
    if mn != mx && raw[i] <= raw[j] {
      ScaleMonotone(raw[i], raw[j], mn, mx, lo, hi);
    }
  }
}
