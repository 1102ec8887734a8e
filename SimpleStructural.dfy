/**
 * The simplified structural similarity command: a blend of "same city" and
 * "similar page views", emitted for every same-city pair and for other pairs
 * whose blend exceeds 0.3, saved as `structural` rows.
 *
 * The page-view normalisation is modelled exactly as written: the operand
 * is `page_views or (0 - min_views)`, so a place's value is its page views
 * when those are non-zero and `-min_views` otherwise, divided by the range.
 * `ViewsIntended` is the normalisation `(page_views - min_views) / range`
 * the surrounding comment describes; the lemmas below show where the two
 * agree.
 */
module SimpleStructural {
  import opened Numeric
  import opened Models
  import opened EdgeWriter

  /** The two blend weights. */
  datatype Weights = Weights(city: real, views: real)

  /**
   * The weights after the check on their sum: unchanged when they sum to 1,
   * otherwise both divided by their sum; no weights when that sum is 0
   * (the division fails).
   */
  function NormalisedWeights(city: real, views: real): Option<Weights>
  {
    if city + views == 1.0 then Some(Weights(city, views))
    else if city + views == 0.0 then None
    else Some(Weights(city / (city + views), views / (city + views)))
  }

  /** The normalised weights sum to 1 and keep the ratio of the given ones. */
  lemma NormalisedWeightsFacts(city: real, views: real)
    ensures NormalisedWeights(city, views).None? <==> city + views == 0.0
    ensures NormalisedWeights(city, views).Some? ==>
      var w := NormalisedWeights(city, views).value;
      && w.city + w.views == 1.0
      && w.city * (city + views) == city
      && w.views * (city + views) == views
  {
    var total := city + views;
    if total != 1.0 && total != 0.0 {
      assert city / total + views / total == (city + views) / total;
    }
  }

  /** `[place.page_views or 0 for place in places]` */
  function ViewsOf(places: seq<Place>): (v: seq<int>)
    ensures |v| == |places|
    ensures forall i :: 0 <= i < |places| ==> v[i] == ViewsOrZero(places[i])
  {
    seq(|places|, i requires 0 <= i < |places| => ViewsOrZero(places[i]))
  }

  /** The page-view bounds: `min_views` and `range_views` of the command. */
  datatype ViewStats = ViewStats(minViews: int, rangeViews: int)

  /** max and min of the page views (1 and 0 for no places), and their difference or 1 when that is 0. */
  function StatsOf(places: seq<Place>): (s: ViewStats)
    ensures 0 < s.rangeViews
    ensures forall i :: 0 <= i < |places| ==> s.minViews <= ViewsOrZero(places[i])
    ensures forall i :: 0 <= i < |places| ==> ViewsOrZero(places[i]) - s.minViews <= s.rangeViews
  {
    var views := ViewsOf(places);
    var maxViews := if |views| > 0 then MaxCount(views) else 1;
    var minViews := if |views| > 0 then MinCount(views) else 0;
    var diff := maxViews - minViews;
    ViewStats(minViews, if diff == 0 then 1 else diff)
  }

  /** Line-for-line: `(place.page_views or 0 - min_views) / range_views`. */
  function ViewsAsWritten(p: Place, s: ViewStats): real
    requires 0 < s.rangeViews
  {
    var operand := if p.pageViews.Some? && p.pageViews.value != 0 then p.pageViews.value else 0 - s.minViews;
    (operand as real) / (s.rangeViews as real)
  }

  /** The normalisation the comment promises: `((page_views or 0) - min_views) / range_views`. */
  function ViewsIntended(p: Place, s: ViewStats): real
    requires 0 < s.rangeViews
  {
    ((ViewsOrZero(p) - s.minViews) as real) / (s.rangeViews as real)
  }

  /** With `min_views == 0` the written and the intended normalisations coincide. */
  lemma AsWrittenAgreesWhenMinIsZero(p: Place, s: ViewStats)
    requires 0 < s.rangeViews && s.minViews == 0
    ensures ViewsAsWritten(p, s) == ViewsIntended(p, s)
  {
  }

  /** The intended values lie in [0, 1]. */
  lemma IntendedWithinUnit(places: seq<Place>, i: nat)
    requires i < |places|
    ensures 0.0 <= ViewsIntended(places[i], StatsOf(places)) <= 1.0
  {
    var s := StatsOf(places);
    assert 0 <= ViewsOrZero(places[i]) - s.minViews <= s.rangeViews;
    DivideAtMostOne((ViewsOrZero(places[i]) - s.minViews) as real, s.rangeViews as real);
  }

  /** Dividing a difference by a positive count divides each term. */
  lemma ShiftedFraction(x: int, m: int, r: int)
    requires 0 < r
    ensures ((x - m) as real) / (r as real) == (x as real) / (r as real) - (m as real) / (r as real)
  {
    var d := r as real;
    assert (x as real) / d * d == x as real;
    assert (m as real) / d * d == m as real;
    assert ((x - m) as real) / d * d == (x - m) as real;
    assert ((x as real) / d - (m as real) / d) * d == (x - m) as real;
  }

  /** `city_weight * [same city] + views_weight * (1 - |v1 - v2|)` for given view values. */
  function Blend(w: Weights, sameCity: bool, v1: real, v2: real): real
  {
    var citySimilarity := if sameCity then 1.0 else 0.0;
    var difference := if v1 - v2 < 0.0 then v2 - v1 else v1 - v2;
    w.city * citySimilarity + w.views * (1.0 - difference)
  }

  /** The combined score of the command, with the views normalised as written. */
  function Score(w: Weights, p1: Place, p2: Place, s: ViewStats): real
    requires 0 < s.rangeViews
  {
    Blend(w, p1.cityId == p2.cityId, ViewsAsWritten(p1, s), ViewsAsWritten(p2, s))
  }

  /** The same score with the intended normalisation. */
  function ScoreIntended(w: Weights, p1: Place, p2: Place, s: ViewStats): real
    requires 0 < s.rangeViews
  {
    Blend(w, p1.cityId == p2.cityId, ViewsIntended(p1, s), ViewsIntended(p2, s))
  }

  /**
   * When no page view is negative the written score equals the intended one:
   * either the minimum is 0 and the values agree, or every page view is
   * non-zero and the values are all shifted by the same amount.
   */
  lemma ScoreAgreesForNonNegativeViews(w: Weights, places: seq<Place>, i: nat, j: nat)
    requires i < |places| && j < |places|
    requires forall k :: 0 <= k < |places| ==> 0 <= ViewsOrZero(places[k])
    ensures Score(w, places[i], places[j], StatsOf(places)) == ScoreIntended(w, places[i], places[j], StatsOf(places))
  {
    var s := StatsOf(places);
    var sameCity := places[i].cityId == places[j].cityId;
    if s.minViews == 0 {
      AsWrittenAgreesWhenMinIsZero(places[i], s);
      AsWrittenAgreesWhenMinIsZero(places[j], s);
    } else {
      MinViewsNonNegative(places);
      var c := (s.minViews as real) / (s.rangeViews as real);
      ShiftedWhenViewed(places[i], s);
      ShiftedWhenViewed(places[j], s);
      BlendShift(w, sameCity, ViewsAsWritten(places[i], s), ViewsAsWritten(places[j], s), c);
    }
  }

  /** With no negative page views, `min_views` is not negative either. */
  lemma MinViewsNonNegative(places: seq<Place>)
    requires forall k :: 0 <= k < |places| ==> 0 <= ViewsOrZero(places[k])
    ensures 0 <= StatsOf(places).minViews
  {
    if |places| > 0 {
      var views := ViewsOf(places);
      var k :| 0 <= k < |views| && views[k] == MinCount(views);
    }
  }

  /** A place with positive page views is normalised as written to its intended value plus `min_views / range_views`. */
  lemma ShiftedWhenViewed(p: Place, s: ViewStats)
    requires 0 < s.rangeViews && 0 < s.minViews <= ViewsOrZero(p)
    ensures ViewsIntended(p, s) == ViewsAsWritten(p, s) - (s.minViews as real) / (s.rangeViews as real)
  {
    ShiftedFraction(ViewsOrZero(p), s.minViews, s.rangeViews);
  }

  /** Shifting both view values by the same amount leaves the blend unchanged. */
  lemma BlendShift(w: Weights, sameCity: bool, v1: real, v2: real, c: real)
    ensures Blend(w, sameCity, v1 - c, v2 - c) == Blend(w, sameCity, v1, v2)
  {
    assert (v1 - c) - (v2 - c) == v1 - v2;
  }

  /** Three places in different cities with page views 0, -1 and 4. */
  function NegativeViewsSample(): seq<Place>
  {
    [Place(1, "a", 1, Some(0), None, 0.0), Place(2, "b", 2, Some(-1), None, 0.0), Place(3, "c", 3, Some(4), None, 0.0)]
  }

  /** For the sample, `min_views` is -1 and `range_views` is 5. */
  lemma NegativeViewsSampleStats()
    ensures StatsOf(NegativeViewsSample()) == ViewStats(-1, 5)
  {
    var views := ViewsOf(NegativeViewsSample());
    assert views == [0, -1, 4];
    assert views[..2] == [0, -1] && [0, -1][..1] == [0];
  }

  /**
   * With negative page views the two differ, and so does the emission: for
   * the sample and weights 0.6 / 0.4, the pair (0, -1) scores 0.24 as
   * written but 0.32 as intended, so it is dropped although the intended
   * score passes the 0.3 threshold.
   */
  lemma NegativeViewsCounterexample()
    ensures var places, s, w := NegativeViewsSample(), StatsOf(NegativeViewsSample()), Weights(0.6, 0.4);
            && Score(w, places[0], places[1], s) == 0.24
            && ScoreIntended(w, places[0], places[1], s) == 0.32
            && PairEdges(w, places, s, 0, 1) == []
  {
    var places := NegativeViewsSample();
    NegativeViewsSampleStats();
    var s := StatsOf(places);
    assert ViewsAsWritten(places[0], s) == 0.2 && ViewsAsWritten(places[1], s) == -0.2;
    assert ViewsIntended(places[0], s) == 0.2 && ViewsIntended(places[1], s) == 0.0;
  }

  /** The score does not depend on which place is the main one. */
  lemma ScoreSymmetric(w: Weights, p1: Place, p2: Place, s: ViewStats)
    requires 0 < s.rangeViews
    ensures Score(w, p1, p2, s) == Score(w, p2, p1, s)
  {
  }

  /** A blend of two values in [0, 1] with non-negative weights summing to 1 lies in [0, 1]. */
  lemma BlendWithinUnit(w: Weights, sameCity: bool, v1: real, v2: real)
    requires 0.0 <= w.city && 0.0 <= w.views && w.city + w.views == 1.0
    requires 0.0 <= v1 <= 1.0 && 0.0 <= v2 <= 1.0
    ensures 0.0 <= Blend(w, sameCity, v1, v2) <= 1.0
  {
    var d := if v1 - v2 < 0.0 then v2 - v1 else v1 - v2;
    MulMonotone(w.views, 1.0 - d, w.views, 1.0);
    MulMonotone(0.0, 0.0, w.views, 1.0 - d);
  }

  /**
   * With non-negative weights summing to 1 and no negative page views, every
   * score lies in [0, 1].
   */
  lemma ScoreWithinUnit(w: Weights, places: seq<Place>, i: nat, j: nat)
    requires i < |places| && j < |places|
    requires 0.0 <= w.city && 0.0 <= w.views && w.city + w.views == 1.0
    requires forall k :: 0 <= k < |places| ==> 0 <= ViewsOrZero(places[k])
    ensures 0.0 <= Score(w, places[i], places[j], StatsOf(places)) <= 1.0
  {
    var s := StatsOf(places);
    ScoreAgreesForNonNegativeViews(w, places, i, j);
    IntendedWithinUnit(places, i);
    IntendedWithinUnit(places, j);
    BlendWithinUnit(w, places[i].cityId == places[j].cityId, ViewsIntended(places[i], s), ViewsIntended(places[j], s));
  }

  /** The edge, if any, that comparing place i with place j appends. */
  function PairEdges(w: Weights, places: seq<Place>, s: ViewStats, i: nat, j: nat): (r: seq<Edge>)
    requires i < |places| && j < |places| && 0 < s.rangeViews
    ensures |r| <= 1
  {
    if i == j then []
    else
      var score := Score(w, places[i], places[j], s);
      if score > 0.3 || places[i].cityId == places[j].cityId
      then [Edge(places[i].id, places[j].id, Structural, score)]
      else []
  }

  /** Every ordered pair of distinct same-city places gets an edge, whatever its score. */
  lemma SameCityAlwaysEmitted(w: Weights, places: seq<Place>, s: ViewStats, i: nat, j: nat)
    requires i < |places| && j < |places| && 0 < s.rangeViews
    requires i != j && places[i].cityId == places[j].cityId
    ensures PairEdges(w, places, s, i, j) == [Edge(places[i].id, places[j].id, Structural, Score(w, places[i], places[j], s))]
  {
  }

  /** A cross-city pair gets an edge exactly when `views_weight * (1 - |v1 - v2|)` exceeds 0.3. */
  lemma CrossCityRule(w: Weights, places: seq<Place>, s: ViewStats, i: nat, j: nat)
    requires i < |places| && j < |places| && 0 < s.rangeViews
    requires places[i].cityId != places[j].cityId
    ensures var v1, v2 := ViewsAsWritten(places[i], s), ViewsAsWritten(places[j], s);
            PairEdges(w, places, s, i, j) != [] <==> w.views * (1.0 - (if v1 - v2 < 0.0 then v2 - v1 else v1 - v2)) > 0.3
  {
  }

  /** What comparing place i with each of the first k places appends, pair by pair. */
  function PairsOf(w: Weights, places: seq<Place>, s: ViewStats, i: nat, k: nat): (r: seq<seq<Edge>>)
    requires i < |places| && k <= |places| && 0 < s.rangeViews
    ensures |r| == k && forall j :: 0 <= j < k ==> r[j] == PairEdges(w, places, s, i, j)
  {
    seq(k, j requires 0 <= j < k => PairEdges(w, places, s, i, j))
  }

  /** Place i compared with the first k places. */
  function RowEdges(w: Weights, places: seq<Place>, s: ViewStats, i: nat, k: nat): seq<Edge>
    requires i < |places| && k <= |places| && 0 < s.rangeViews
  {
    Flatten(PairsOf(w, places, s, i, k))
  }

  /** The rows of the first i places, each compared with every place. */
  function RowsOf(w: Weights, places: seq<Place>, s: ViewStats, i: nat): (r: seq<seq<Edge>>)
    requires i <= |places| && 0 < s.rangeViews
    ensures |r| == i && forall a :: 0 <= a < i ==> r[a] == RowEdges(w, places, s, a, |places|)
  {
    seq(i, a requires 0 <= a < i => RowEdges(w, places, s, a, |places|))
  }

  /** The first i places each compared with every place: the `similarities` list. */
  function AllEdges(w: Weights, places: seq<Place>, s: ViewStats, i: nat): seq<Edge>
    requires i <= |places| && 0 < s.rangeViews
  {
    Flatten(RowsOf(w, places, s, i))
  }

  /** One more comparison appends that pair's edge, if any, to the row. */
  lemma RowEdgesStep(w: Weights, places: seq<Place>, s: ViewStats, i: nat, k: nat)
    requires i < |places| && k < |places| && 0 < s.rangeViews
    ensures RowEdges(w, places, s, i, k + 1) == RowEdges(w, places, s, i, k) + PairEdges(w, places, s, i, k)
  {
    var longer := PairsOf(w, places, s, i, k + 1);
    assert longer[..k] == PairsOf(w, places, s, i, k);
  }

  /** One more place appends its whole row to the list. */
  lemma AllEdgesStep(w: Weights, places: seq<Place>, s: ViewStats, i: nat)
    requires i < |places| && 0 < s.rangeViews
    ensures AllEdges(w, places, s, i + 1) == AllEdges(w, places, s, i) + RowEdges(w, places, s, i, |places|)
  {
    var longer := RowsOf(w, places, s, i + 1);
    assert longer[..i] == RowsOf(w, places, s, i);
  }

  /** An edge is in row i exactly when comparing place i with one of the first k places produced it. */
  lemma RowMembership(w: Weights, places: seq<Place>, s: ViewStats, i: nat, k: nat, e: Edge)
    requires i < |places| && k <= |places| && 0 < s.rangeViews
    ensures e in RowEdges(w, places, s, i, k) <==> exists j :: 0 <= j < k && e in PairEdges(w, places, s, i, j)
  {
    FlattenMembership(PairsOf(w, places, s, i, k), e);
  }

  /** An edge is in the list exactly when one of the first i rows holds it. */
  lemma RowOfEdge(w: Weights, places: seq<Place>, s: ViewStats, i: nat, e: Edge)
    requires i <= |places| && 0 < s.rangeViews
    ensures e in AllEdges(w, places, s, i) <==> exists a :: 0 <= a < i && e in RowEdges(w, places, s, a, |places|)
  {
    FlattenMembership(RowsOf(w, places, s, i), e);
  }

  /** An edge is in the list exactly when some ordered pair of distinct indices produced it. */
  lemma AllMembership(w: Weights, places: seq<Place>, s: ViewStats, i: nat, e: Edge)
    requires i <= |places| && 0 < s.rangeViews
    ensures e in AllEdges(w, places, s, i) <==>
            exists a, b :: 0 <= a < i && 0 <= b < |places| && e in PairEdges(w, places, s, a, b)
  {
    RowOfEdge(w, places, s, i, e);
    if e in AllEdges(w, places, s, i) {
      var a :| 0 <= a < i && e in RowEdges(w, places, s, a, |places|);
      RowMembership(w, places, s, a, |places|, e);
    }
    if exists a, b :: 0 <= a < i && 0 <= b < |places| && e in PairEdges(w, places, s, a, b) {
      var a, b :| 0 <= a < i && 0 <= b < |places| && e in PairEdges(w, places, s, a, b);
      RowMembership(w, places, s, a, |places|, e);
    }
  }

  /** Edges come in pairs: whenever (a, b) is emitted with some score, so is (b, a) with the same score. */
  lemma EdgesComeInPairs(w: Weights, places: seq<Place>, e: Edge)
    requires e in AllEdges(w, places, StatsOf(places), |places|)
    ensures Edge(e.similar, e.main, Structural, e.score) in AllEdges(w, places, StatsOf(places), |places|)
  {
    var s := StatsOf(places);
    AllMembership(w, places, s, |places|, e);
    var a, b :| 0 <= a < |places| && 0 <= b < |places| && e in PairEdges(w, places, s, a, b);
    ScoreSymmetric(w, places[a], places[b], s);
    assert Edge(e.similar, e.main, Structural, e.score) in PairEdges(w, places, s, b, a);
    AllMembership(w, places, s, |places|, Edge(e.similar, e.main, Structural, e.score));
  }

  /** Every emitted edge is a `structural` row between two different list positions. */
  lemma EdgesAreStructural(w: Weights, places: seq<Place>, e: Edge)
    requires e in AllEdges(w, places, StatsOf(places), |places|)
    ensures e.channel == Structural
    ensures exists a, b :: 0 <= a < |places| && 0 <= b < |places| && a != b && e.main == places[a].id && e.similar == places[b].id
  {
    AllMembership(w, places, StatsOf(places), |places|, e);
  }

  /** The inner loop: place i compared with every other place, in list order. */
  method CompareWithAll(w: Weights, places: seq<Place>, s: ViewStats, i: nat) returns (row: seq<Edge>)
    requires i < |places| && 0 < s.rangeViews
    ensures row == RowEdges(w, places, s, i, |places|)
  {
    var place1 := places[i];
    var views1 := ViewsAsWritten(place1, s);
    row := [];
    var j := 0;
    while j < |places|
      invariant 0 <= j <= |places|
      invariant row == RowEdges(w, places, s, i, j)
    {
      RowEdgesStep(w, places, s, i, j);
      if i != j {
        var place2 := places[j];
        var citySimilarity := if place1.cityId == place2.cityId then 1.0 else 0.0;
        var views2 := ViewsAsWritten(place2, s);
        var viewsDifference := if views1 - views2 < 0.0 then views2 - views1 else views1 - views2;
        var viewsSimilarity := 1.0 - viewsDifference;
        var combined := w.city * citySimilarity + w.views * viewsSimilarity;
        assert combined == Score(w, place1, place2, s);
        if combined > 0.3 || citySimilarity == 1.0 {
          row := row + [Edge(place1.id, place2.id, Structural, combined)];
        }
      }
      j := j + 1;
    }
  }

  /** `city_weight` and `views_weight` reassigned in place when they do not sum to 1. */
  method ReconcileWeights(cityWeight: real, viewsWeight: real) returns (w: Option<Weights>)
    ensures w == NormalisedWeights(cityWeight, viewsWeight)
  {
    var city, views := cityWeight, viewsWeight;
    if city + views != 1.0 {
      var total := city + views;
      if total == 0.0 {
        return None;
      }
      city := city / total;
      views := views / total;
    }
    w := Some(Weights(city, views));
  }

  /** The outer loop: every place compared with every other place, in list order. */
  method CompareAll(w: Weights, places: seq<Place>, s: ViewStats) returns (edges: seq<Edge>)
    requires 0 < s.rangeViews
    ensures edges == AllEdges(w, places, s, |places|)
  {
    edges := [];
    var i := 0;
    while i < |places|
      invariant 0 <= i <= |places|
      invariant edges == AllEdges(w, places, s, i)
    {
      AllEdgesStep(w, places, s, i);
      var row := CompareWithAll(w, places, s, i);
      edges := edges + row;
      i := i + 1;
    }
  }

  /**
   * The whole command: weight check, optional clear of the `structural`
   * rows, page-view statistics, the nested comparison loops and the batched
   * insert. No weights (a zero sum) ends the command before it touches the table.
   */
  method SimpleStructuralCommand(table: SimilarPlaceTable, clear: bool, cityWeight: real, viewsWeight: real, places: seq<Place>)
    returns (similarities: Option<seq<Edge>>)
    modifies table
    ensures similarities.None? <==> NormalisedWeights(cityWeight, viewsWeight).None?
    ensures similarities.None? ==> table.rows == old(table.rows)
    ensures similarities.Some? ==>
      && similarities.value == AllEdges(NormalisedWeights(cityWeight, viewsWeight).value, places, StatsOf(places), |places|)
      && table.rows == InsertAll(if clear then ClearChannels(old(table.rows), {Structural}) else old(table.rows), similarities.value)
  {
    var weights := ReconcileWeights(cityWeight, viewsWeight);
    if weights.None? {
      return None;
    }
    var w := weights.value;

    if clear {
      table.DeleteChannels({Structural});
    }

    var s := StatsOf(places);
    var edges := CompareAll(w, places, s);
    var sent := SaveInBatches(table, edges, BatchSize);
    similarities := Some(edges);
  }
}
