/**
 * What `calculate_similarities` emits for one ordered pair of places, for one
 * place against the whole list, and for a shard of places; and the
 * round-robin split of the place list into shards.
 */
module SimilarityRules {
  import opened Numeric
  import opened Models
  import opened Snapshot

  /** The feature data every shard reads: category sets and colour vectors. */
  datatype Features = Features(categories: CategoryMap, colours: map<int, Colour>)

  /**
   * Structural score: Jaccard overlap of the two category sets, boosted to
   * 0.7 J + 0.3 when the places share a city.
   */
  function StructuralScore(p: Place, o: Place, cats: CategoryMap): (r: real)
    ensures 0.0 <= r <= 1.0
    ensures p.cityId == o.cityId ==> 0.3 <= r
  {
    var j := Jaccard(CategorySet(cats, p.id), CategorySet(cats, o.id));
    if p.cityId == o.cityId then j * 0.7 + 0.3 else j
  }

  /** A structural edge needs two distinct places with categories and a score above 0.1. */
  predicate EmitsStructural(p: Place, o: Place, cats: CategoryMap)
  {
    && p.id != o.id
    && CategorySet(cats, p.id) != {}
    && CategorySet(cats, o.id) != {}
    && StructuralScore(p, o, cats) > 0.1
  }

  /** Length of the common prefix the colour comparison uses. */
  function CommonLength(a: seq<real>, b: seq<real>): nat
  {
    if |a| <= |b| then |a| else |b|
  }

  /**
   * Image score: the cosine of the truncated vectors, dot product over the
   * common prefix and norms over the full vectors, remapped from [-1, 1] to [0, 1].
   */
  function CosineScore(c1: Colour, c2: Colour): real
    requires c1.norm != 0.0 && c2.norm != 0.0
  {
    var m := CommonLength(c1.values, c2.values);
    (Dot(c1.values[..m], c2.values[..m]) / NormProduct(c1, c2) + 1.0) / 2.0
  }

  /** The denominator of the cosine: `np.linalg.norm(vec1) * np.linalg.norm(vec2)`. */
  function NormProduct(c1: Colour, c2: Colour): real
  {
    c1.norm * c2.norm
  }

  /** Two distinct places both with colour vectors of non-zero norm. */
  predicate ComparableColours(p: Place, o: Place, colours: map<int, Colour>)
  {
    && p.id != o.id
    && p.id in colours && o.id in colours
    && colours[p.id].norm != 0.0 && colours[o.id].norm != 0.0
  }

  /** The image channel a pair is routed to. */
  function ImageChannel(p: Place, o: Place): (ch: Channel)
    ensures ch != Structural
    ensures ch == ImageSameCity <==> p.cityId == o.cityId
  {
    if p.cityId == o.cityId then ImageSameCity else ImageDiffCity
  }

  /** The edge of channel `ch` that comparing `p` with `o` appends, if any. */
  function PairEdges(ch: Channel, p: Place, o: Place, f: Features): (r: seq<Edge>)
    ensures |r| <= 1
    ensures forall e :: e in r ==> e.main == p.id && e.similar == o.id && e.channel == ch
  {
    match ch
    case Structural =>
      if EmitsStructural(p, o, f.categories)
      then [Edge(p.id, o.id, Structural, StructuralScore(p, o, f.categories))]
      else []
    case _ =>
      if ComparableColours(p, o, f.colours) && ImageChannel(p, o) == ch
      then [Edge(p.id, o.id, ch, CosineScore(f.colours[p.id], f.colours[o.id]))]
      else []
  }

  /** The edges of channel `ch` from one place against the given places, in order. */
  function RowEdges(ch: Channel, p: Place, others: seq<Place>, f: Features): seq<Edge>
  {
    if others == [] then []
    else RowEdges(ch, p, others[..|others| - 1], f) + PairEdges(ch, p, others[|others| - 1], f)
  }

  /** The edges of channel `ch` a worker produces for its places against all places. */
  function ShardEdges(ch: Channel, mine: seq<Place>, all: seq<Place>, f: Features): seq<Edge>
  {
    if mine == [] then []
    else ShardEdges(ch, mine[..|mine| - 1], all, f) + RowEdges(ch, mine[|mine| - 1], all, f)
  }

  // ---------------------------------------------------------------------
  // Emission rules for one pair
  // ---------------------------------------------------------------------

  /** A structural edge is emitted for every pair of distinct same-city places that both have categories. */
  lemma SameCityStructuralAlwaysEmitted(p: Place, o: Place, f: Features)
    requires p.id != o.id && p.cityId == o.cityId
    requires CategorySet(f.categories, p.id) != {} && CategorySet(f.categories, o.id) != {}
    ensures PairEdges(Structural, p, o, f) == [Edge(p.id, o.id, Structural, StructuralScore(p, o, f.categories))]
  {
  }

  /** Structural scores and emission do not depend on which place is the main one. */
  lemma StructuralSymmetric(p: Place, o: Place, cats: CategoryMap)
    ensures StructuralScore(p, o, cats) == StructuralScore(o, p, cats)
    ensures EmitsStructural(p, o, cats) <==> EmitsStructural(o, p, cats)
  {
    JaccardSymmetric(CategorySet(cats, p.id), CategorySet(cats, o.id));
  }

  /** Cross-city places with no category in common get no structural edge. */
  lemma CrossCityDisjointNotEmitted(p: Place, o: Place, cats: CategoryMap)
    requires p.cityId != o.cityId && CategorySet(cats, p.id) !! CategorySet(cats, o.id)
    ensures !EmitsStructural(p, o, cats)
  {
    JaccardZeroIffDisjoint(CategorySet(cats, p.id), CategorySet(cats, o.id));
  }

  /** Identical non-empty category sets score 1 whatever the cities. */
  lemma IdenticalCategoriesScoreOne(p: Place, o: Place, cats: CategoryMap)
    requires CategorySet(cats, p.id) == CategorySet(cats, o.id) != {}
    ensures StructuralScore(p, o, cats) == 1.0
  {
    JaccardOneIffEqual(CategorySet(cats, p.id), CategorySet(cats, o.id));
  }

  /**
   * Worked example: same city, categories {1, 2} and {1, 3}: Jaccard 1/3,
   * boosted to 0.7/3 + 0.3, above the threshold.
   */
  lemma SameCityExample(p: Place, o: Place, cats: CategoryMap)
    requires p.id != o.id && p.cityId == o.cityId
    requires CategorySet(cats, p.id) == {1, 2} && CategorySet(cats, o.id) == {1, 3}
    ensures StructuralScore(p, o, cats) == 0.7 / 3.0 + 0.3
    ensures EmitsStructural(p, o, cats)
  {
    var a, b := CategorySet(cats, p.id), CategorySet(cats, o.id);
    assert a * b == {1};
    assert a + b == {1, 2, 3};
    assert |a + b| == 3;
  }

  /** The image score lies in [0, 1] whenever the norms are the vectors' Euclidean norms. */
  lemma CosineScoreBounds(c1: Colour, c2: Colour)
    requires NormMatches(c1) && NormMatches(c2)
    requires c1.norm != 0.0 && c2.norm != 0.0
    ensures 0.0 <= CosineScore(c1, c2) <= 1.0
  {
    var m := CommonLength(c1.values, c2.values);
    var d := Dot(c1.values[..m], c2.values[..m]);
    var n := NormProduct(c1, c2);
    TruncatedDotWithinNorms(c1, c2);
    RemapWithinUnit(d, n);
  }

  /** The dot product of the truncated vectors is bounded by the product of the full norms. */
  lemma TruncatedDotWithinNorms(c1: Colour, c2: Colour)
    requires NormMatches(c1) && NormMatches(c2)
    requires c1.norm != 0.0 && c2.norm != 0.0
    ensures var m := CommonLength(c1.values, c2.values);
            var d, n := Dot(c1.values[..m], c2.values[..m]), NormProduct(c1, c2);
            0.0 < n && d * d <= n * n
  {
    var m := CommonLength(c1.values, c2.values);
    var a, b := c1.values[..m], c2.values[..m];
    CauchySchwarz(a, b);
    SqNormPrefix(c1.values, m);
    SqNormPrefix(c2.values, m);
    SqNormNonNegative(a);
    SqNormNonNegative(b);
    MulMonotone(SqNorm(a), SqNorm(b), SqNorm(c1.values), SqNorm(c2.values));
    MulPositive(c1.norm, c2.norm);
    SquareOfProduct(c1.norm, c2.norm);
  }

  lemma SquareOfProduct(x: real, y: real)
    ensures (x * y) * (x * y) == (x * x) * (y * y)
  {
  }

  /** A ratio whose square is at most 1, remapped from [-1, 1] to [0, 1]. */
  lemma RemapWithinUnit(d: real, n: real)
    requires 0.0 < n && d * d <= n * n
    ensures 0.0 <= (d / n + 1.0) / 2.0 <= 1.0
  {
    AbsFromSquares(d, n);
    QuotientWithinOne(d, n);
  }

  /** The image score does not depend on which place is the main one. */
  lemma CosineScoreSymmetric(c1: Colour, c2: Colour)
    requires c1.norm != 0.0 && c2.norm != 0.0
    ensures CosineScore(c1, c2) == CosineScore(c2, c1)
  {
    var m := CommonLength(c1.values, c2.values);
    DotSymmetric(c1.values[..m], c2.values[..m]);
    assert NormProduct(c1, c2) == NormProduct(c2, c1);
  }

  /**
   * Channel routing: a comparable pair lands in exactly one image channel,
   * `image_same_city` iff the cities match; no score threshold applies.
   */
  lemma ImageRouting(p: Place, o: Place, f: Features)
    ensures PairEdges(ImageSameCity, p, o, f) != [] <==> ComparableColours(p, o, f.colours) && p.cityId == o.cityId
    ensures PairEdges(ImageDiffCity, p, o, f) != [] <==> ComparableColours(p, o, f.colours) && p.cityId != o.cityId
  {
  }

  // ---------------------------------------------------------------------
  // Rows and shards
  // ---------------------------------------------------------------------

  /** The pair comparison of one place against another, as a function of the other place. */
  function PairOf(ch: Channel, p: Place, f: Features): Place -> seq<Edge>
  {
    o => PairEdges(ch, p, o, f)
  }

  /** A row is its pair comparisons concatenated. */
  lemma {:induction false} RowEdgesAsPairs(ch: Channel, p: Place, others: seq<Place>, f: Features)
    ensures RowEdges(ch, p, others, f) == Flatten(MapSeq(PairOf(ch, p, f), others))
  {
    if others != [] {
      var n := |others|;
      var init := others[..n - 1];
      var pairs := MapSeq(PairOf(ch, p, f), others);
      assert pairs[..n - 1] == MapSeq(PairOf(ch, p, f), init);
      RowEdgesAsPairs(ch, p, init, f);
    }
  }

  /** An edge is in a place's row exactly when comparing with one of the given places produced it. */
  lemma RowMembership(ch: Channel, p: Place, others: seq<Place>, f: Features, e: Edge)
    ensures e in RowEdges(ch, p, others, f) <==> exists k :: 0 <= k < |others| && e in PairEdges(ch, p, others[k], f)
  {
    var pairs := MapSeq(PairOf(ch, p, f), others);
    RowEdgesAsPairs(ch, p, others, f);
    FlattenMembership(pairs, e);
    if e in RowEdges(ch, p, others, f) {
      var k :| 0 <= k < |pairs| && e in pairs[k];
      assert e in PairEdges(ch, p, others[k], f);
    }
    if exists k :: 0 <= k < |others| && e in PairEdges(ch, p, others[k], f) {
      var k :| 0 <= k < |others| && e in PairEdges(ch, p, others[k], f);
      assert e in pairs[k];
    }
  }

  /** `g` applied to every element, in order. */
  function MapSeq<A, B>(g: A -> B, xs: seq<A>): (r: seq<B>)
    ensures |r| == |xs| && forall i :: 0 <= i < |xs| ==> r[i] == g(xs[i])
  {
    seq(|xs|, i requires 0 <= i < |xs| => g(xs[i]))
  }

  lemma MapSeqConcat<A, B>(g: A -> B, a: seq<A>, b: seq<A>)
    ensures MapSeq(g, a + b) == MapSeq(g, a) + MapSeq(g, b)
  {
    forall i | 0 <= i < |a| + |b|
      ensures MapSeq(g, a + b)[i] == (MapSeq(g, a) + MapSeq(g, b))[i]
    {
      if i < |a| {
        assert (a + b)[i] == a[i];
      } else {
        assert (a + b)[i] == b[i - |a|];
      }
    }
  }

  /** The row of one place against all places, as a function of the place. */
  function RowOf(ch: Channel, all: seq<Place>, f: Features): Place -> seq<Edge>
  {
    p => RowEdges(ch, p, all, f)
  }

  /** The rows a shard produces, one per place of the shard. */
  function ShardRows(ch: Channel, mine: seq<Place>, all: seq<Place>, f: Features): (r: seq<seq<Edge>>)
    ensures |r| == |mine| && forall i :: 0 <= i < |mine| ==> r[i] == RowEdges(ch, mine[i], all, f)
  {
    MapSeq(RowOf(ch, all, f), mine)
  }

  /** A shard's edges are its rows concatenated. */
  lemma {:induction false} ShardEdgesAsRows(ch: Channel, mine: seq<Place>, all: seq<Place>, f: Features)
    ensures ShardEdges(ch, mine, all, f) == Flatten(ShardRows(ch, mine, all, f))
  {
    if mine != [] {
      var n := |mine|;
      var init := mine[..n - 1];
      var rows := ShardRows(ch, mine, all, f);
      assert rows[..n - 1] == ShardRows(ch, init, all, f);
      ShardEdgesAsRows(ch, init, all, f);
    }
  }

  lemma ShardEdgesConcat(ch: Channel, a: seq<Place>, b: seq<Place>, all: seq<Place>, f: Features)
    ensures ShardEdges(ch, a + b, all, f) == ShardEdges(ch, a, all, f) + ShardEdges(ch, b, all, f)
  {
    ShardEdgesAsRows(ch, a + b, all, f);
    ShardEdgesAsRows(ch, a, all, f);
    ShardEdgesAsRows(ch, b, all, f);
    MapSeqConcat(RowOf(ch, all, f), a, b);
    FlattenConcat(ShardRows(ch, a, all, f), ShardRows(ch, b, all, f));
  }

  /** An edge is in a shard's output exactly when one of its places produced it against one of all places. */
  lemma ShardMembership(ch: Channel, mine: seq<Place>, all: seq<Place>, f: Features, e: Edge)
    ensures e in ShardEdges(ch, mine, all, f) <==>
            exists i, k :: 0 <= i < |mine| && 0 <= k < |all| && e in PairEdges(ch, mine[i], all[k], f)
  {
    ShardEdgesAsRows(ch, mine, all, f);
    FlattenMembership(ShardRows(ch, mine, all, f), e);
    if e in ShardEdges(ch, mine, all, f) {
      var i :| 0 <= i < |mine| && e in RowEdges(ch, mine[i], all, f);
      RowMembership(ch, mine[i], all, f, e);
    }
    if exists i, k :: 0 <= i < |mine| && 0 <= k < |all| && e in PairEdges(ch, mine[i], all[k], f) {
      var i, k :| 0 <= i < |mine| && 0 <= k < |all| && e in PairEdges(ch, mine[i], all[k], f);
      RowMembership(ch, mine[i], all, f, e);
    }
  }

  /**
   * A place without categories never appears in a structural edge, and a
   * place without a colour vector never appears in an image edge.
   */
  lemma ExcludedPlacesNeverAppear(ch: Channel, mine: seq<Place>, all: seq<Place>, f: Features, e: Edge, id: int)
    requires e in ShardEdges(ch, mine, all, f)
    requires ch == Structural ==> CategorySet(f.categories, id) == {}
    requires ch != Structural ==> id !in f.colours
    ensures e.main != id && e.similar != id
  {
    ShardMembership(ch, mine, all, f, e);
  }

  /** A shard's edges split around any one of its places. */
  lemma ShardEdgesSplit(ch: Channel, b: seq<Place>, k: nat, all: seq<Place>, f: Features)
    requires k < |b|
    ensures ShardEdges(ch, b, all, f)
            == ShardEdges(ch, b[..k], all, f) + RowEdges(ch, b[k], all, f) + ShardEdges(ch, b[k + 1..], all, f)
  {
    assert b == b[..k] + [b[k]] + b[k + 1..];
    ShardEdgesConcat(ch, b[..k] + [b[k]], b[k + 1..], all, f);
    ShardEdgesConcat(ch, b[..k], [b[k]], all, f);
    assert ShardEdges(ch, [b[k]], all, f) == RowEdges(ch, b[k], all, f) by {
      assert [b[k]][..0] == [];
    }
  }

  /** Removing the last element of a and a matching element of b keeps a permutation a permutation. */
  lemma RemoveMatching<T>(a: seq<T>, b: seq<T>, k: nat)
    requires multiset(a) == multiset(b) && a != [] && k < |b| && b[k] == a[|a| - 1]
    ensures multiset(a[..|a| - 1]) == multiset(b[..k] + b[k + 1..])
  {
    var x := a[|a| - 1];
    assert a == a[..|a| - 1] + [x];
    assert b == b[..k] + [x] + b[k + 1..];
    assert multiset(a) == multiset(a[..|a| - 1]) + multiset{x};
    assert multiset(b) == multiset(b[..k]) + multiset{x} + multiset(b[k + 1..]);
    assert multiset(b[..k] + b[k + 1..]) == multiset(b[..k]) + multiset(b[k + 1..]);
    calc {
      multiset(a[..|a| - 1]);
      multiset(a) - multiset{x};
      multiset(b) - multiset{x};
      multiset(b[..k]) + multiset(b[k + 1..]);
    }
  }

  /** Putting one more list in the same place on both sides keeps two lists permutations of each other. */
  lemma InsertMatching<T>(rest: seq<T>, row: seq<T>, e1: seq<T>, e2: seq<T>)
    requires multiset(rest) == multiset(e1 + e2)
    ensures multiset(rest + row) == multiset(e1 + row + e2)
  {
    calc {
      multiset(rest + row);
      multiset(rest) + multiset(row);
      multiset(e1) + multiset(e2) + multiset(row);
      multiset(e1 + row + e2);
    }
  }

  /** Processing a permutation of the places yields a permutation of the edges. */
  lemma {:induction false} ShardEdgesPermutation(ch: Channel, a: seq<Place>, b: seq<Place>, all: seq<Place>, f: Features)
    requires multiset(a) == multiset(b)
    ensures multiset(ShardEdges(ch, a, all, f)) == multiset(ShardEdges(ch, b, all, f))
    decreases |a|
  {
    if a != [] {
      var n := |a|;
      var x := a[n - 1];
      assert x in multiset(b);
      var k :| 0 <= k < |b| && b[k] == x;
      RemoveMatching(a, b, k);
      ShardEdgesPermutation(ch, a[..n - 1], b[..k] + b[k + 1..], all, f);
      ShardEdgesConcat(ch, b[..k], b[k + 1..], all, f);
      ShardEdgesSplit(ch, b, k, all, f);
      InsertMatching(ShardEdges(ch, a[..n - 1], all, f), RowEdges(ch, x, all, f),
                     ShardEdges(ch, b[..k], all, f), ShardEdges(ch, b[k + 1..], all, f));
    }
  }

  /** With unique place ids, no two different edges of one pass share a key. */
  lemma UnshardedKeyFunctional(ch: Channel, places: seq<Place>, f: Features)
    requires UniqueIds(places)
    ensures KeyFunctional(ShardEdges(ch, places, places, f))
  {
    var es := ShardEdges(ch, places, places, f);
    forall e1, e2 | e1 in es && e2 in es && Key(e1) == Key(e2)
      ensures e1 == e2
    {
      ShardMembership(ch, places, places, f, e1);
      ShardMembership(ch, places, places, f, e2);
      var i1, k1 :| 0 <= i1 < |places| && 0 <= k1 < |places| && e1 in PairEdges(ch, places[i1], places[k1], f);
      var i2, k2 :| 0 <= i2 < |places| && 0 <= k2 < |places| && e2 in PairEdges(ch, places[i2], places[k2], f);
      SameKeySamePair(ch, places, f, i1, k1, i2, k2, e1, e2);
    }
  }

  /** Two edges with one key from the pair comparisons of a list with unique ids are the same edge. */
  lemma SameKeySamePair(ch: Channel, places: seq<Place>, f: Features, i1: nat, k1: nat, i2: nat, k2: nat, e1: Edge, e2: Edge)
    requires UniqueIds(places)
    requires i1 < |places| && k1 < |places| && i2 < |places| && k2 < |places|
    requires e1 in PairEdges(ch, places[i1], places[k1], f) && e2 in PairEdges(ch, places[i2], places[k2], f)
    requires Key(e1) == Key(e2)
    ensures e1 == e2
  {
    assert places[i1].id == places[i2].id && places[k1].id == places[k2].id;
    assert i1 == i2 && k1 == k2;
  }

  // ---------------------------------------------------------------------
  // Round-robin sharding
  // ---------------------------------------------------------------------

  /** `chunks[i % size].append(place)` for every place in order. */
  function RoundRobin<T>(xs: seq<T>, size: nat): (chunks: seq<seq<T>>)
    requires size > 0
    ensures |chunks| == size
  {
    if xs == [] then Empties(size)
    else
      var n := |xs| - 1;
      var before := RoundRobin(xs[..n], size);
      before[n % size := before[n % size] + [xs[n]]]
  }

  function Empties<T>(size: nat): (r: seq<seq<T>>)
    ensures |r| == size && forall j :: 0 <= j < size ==> r[j] == []
  {
    seq(size, _ => [])
  }

  lemma {:induction false} FlattenAppendAt<T>(lists: seq<seq<T>>, j: nat, x: T)
    requires j < |lists|
    ensures multiset(Flatten(lists[j := lists[j] + [x]])) == multiset(Flatten(lists)) + multiset{x}
  {
    var updated := lists[j := lists[j] + [x]];
    assert lists == lists[..j] + [lists[j]] + lists[j + 1..];
    assert updated == lists[..j] + [lists[j] + [x]] + lists[j + 1..];
    FlattenConcat(lists[..j] + [lists[j]], lists[j + 1..]);
    FlattenConcat(lists[..j], [lists[j]]);
    FlattenConcat(lists[..j] + [lists[j] + [x]], lists[j + 1..]);
    FlattenConcat(lists[..j], [lists[j] + [x]]);
    assert Flatten([lists[j]]) == lists[j] by { assert [lists[j]][..0] == []; }
    assert Flatten([lists[j] + [x]]) == lists[j] + [x] by { assert [lists[j] + [x]][..0] == []; }
  }

  lemma {:induction false} FlattenEmpties<T>(size: nat)
    ensures Flatten(Empties<T>(size)) == []
  {
    if size > 0 {
      var e := Empties<T>(size);
      assert e[..size - 1] == Empties<T>(size - 1);
      FlattenEmpties<T>(size - 1);
    }
  }

  /** The shards together hold every place exactly as often as the list does. */
  lemma {:induction false} RoundRobinPermutation<T>(xs: seq<T>, size: nat)
    requires size > 0
    ensures multiset(Flatten(RoundRobin(xs, size))) == multiset(xs)
  {
    if xs == [] {
      FlattenEmpties<T>(size);
    } else {
      var n := |xs| - 1;
      var before, x := RoundRobin(xs[..n], size), xs[n];
      calc {
        multiset(Flatten(RoundRobin(xs, size)));
        multiset(Flatten(before[n % size := before[n % size] + [x]]));
        { FlattenAppendAt(before, n % size, x); }
        multiset(Flatten(before)) + multiset{x};
        { RoundRobinPermutation(xs[..n], size); }
        multiset(xs[..n]) + multiset{x};
        { assert xs == xs[..n] + [x]; }
        multiset(xs);
      }
    }
  }

  lemma DivUnique(a: int, s: int, q: int)
    requires 0 < s && q * s <= a < q * s + s
    ensures a / s == q
  {
    var d, r := a / s, a % s;
    assert a == d * s + r && 0 <= r < s;
    if d > q {
      MulMonotoneInt(q + 1, d, s);
    } else if d < q {
      MulMonotoneInt(d + 1, q, s);
    }
  }

  /**
   * Appending index n to chunk n % size grows that chunk by one and leaves the
   * others' lengths as the closed form predicts.
   */
  lemma ChunkLengthStep(n: nat, size: nat, j: nat)
    requires 0 < size && j < size
    ensures (n + size - j) / size == (n + size - 1 - j) / size + (if j == n % size then 1 else 0)
    ensures j == n % size ==> (n + size - 1 - j) / size == n / size
  {
    ChunkQuotients(n, size, j, n / size, n % size);
  }

  /** ChunkLengthStep with the quotient and remainder of n named. */
  lemma ChunkQuotients(n: nat, size: nat, j: nat, q: int, r: int)
    requires 0 < size && j < size && 0 <= r < size && n == q * size + r
    ensures (n + size - j) / size == (n + size - 1 - j) / size + (if j == r then 1 else 0)
    ensures j == r ==> (n + size - 1 - j) / size == q
  {
    assert (q + 1) * size == q * size + size;
    assert (q + 2) * size == q * size + size + size;
    if j == r {
      DivUnique(n + size - 1 - j, size, q);
      DivUnique(n + size - j, size, q + 1);
    } else if j < r {
      DivUnique(n + size - 1 - j, size, q + 1);
      DivUnique(n + size - j, size, q + 1);
    } else {
      DivUnique(n + size - 1 - j, size, q);
      DivUnique(n + size - j, size, q);
    }
  }

  /** Chunk j receives the indices j, j + size, j + 2 size, ...: ceil((|xs| - j) / size) places. */
  lemma {:induction false} RoundRobinLength<T>(xs: seq<T>, size: nat, j: nat)
    requires 0 < size && j < size
    ensures |RoundRobin(xs, size)[j]| == (|xs| + size - 1 - j) / size
  {
    if xs == [] {
      DivUnique(size - 1 - j, size, 0);
    } else {
      var n := |xs| - 1;
      RoundRobinLength(xs[..n], size, j);
      ChunkLengthStep(n, size, j);
    }
  }

  /** The place at index i sits in chunk i % size at position i / size. */
  lemma {:induction false} RoundRobinPlacement<T>(xs: seq<T>, size: nat, i: nat)
    requires 0 < size && i < |xs|
    ensures i / size < |RoundRobin(xs, size)[i % size]|
    ensures RoundRobin(xs, size)[i % size][i / size] == xs[i]
  {
    var n := |xs| - 1;
    var before := RoundRobin(xs[..n], size);
    var r := n % size;
    RoundRobinLength(xs[..n], size, r);
    ChunkLengthStep(n, size, r);
    if i < n {
      RoundRobinPlacement(xs[..n], size, i);
      assert xs[..n][i] == xs[i];
    }
  }

  /** The per-shard edge lists, in worker order, as the root gathers them. */
  function Gathered(ch: Channel, chunks: seq<seq<Place>>, all: seq<Place>, f: Features): (r: seq<seq<Edge>>)
    ensures |r| == |chunks|
    ensures forall w :: 0 <= w < |chunks| ==> r[w] == ShardEdges(ch, chunks[w], all, f)
  {
    seq(|chunks|, w requires 0 <= w < |chunks| => ShardEdges(ch, chunks[w], all, f))
  }

  lemma {:induction false} FlattenGathered(ch: Channel, chunks: seq<seq<Place>>, all: seq<Place>, f: Features)
    ensures Flatten(Gathered(ch, chunks, all, f)) == ShardEdges(ch, Flatten(chunks), all, f)
  {
    if chunks != [] {
      var n := |chunks|;
      var g, init, last := Gathered(ch, chunks, all, f), chunks[..n - 1], chunks[n - 1];
      assert g[..n - 1] == Gathered(ch, init, all, f);
      FlattenGathered(ch, init, all, f);
      ShardEdgesConcat(ch, Flatten(init), last, all, f);
      calc {
        Flatten(g);
        Flatten(g[..n - 1]) + g[n - 1];
        ShardEdges(ch, Flatten(init), all, f) + ShardEdges(ch, last, all, f);
        ShardEdges(ch, Flatten(init) + last, all, f);
        ShardEdges(ch, Flatten(chunks), all, f);
      }
    }
  }

  /**
   * Splitting the places round-robin, letting every shard compare its places
   * with all places, and concatenating the shard results yields the edges of
   * one unsharded pass, up to order.
   */
  lemma ShardingPreservesEdges(ch: Channel, places: seq<Place>, size: nat, f: Features)
    requires size > 0
    ensures multiset(Flatten(Gathered(ch, RoundRobin(places, size), places, f)))
            == multiset(ShardEdges(ch, places, places, f))
  {
    var chunks := RoundRobin(places, size);
    FlattenGathered(ch, chunks, places, f);
    RoundRobinPermutation(places, size);
    ShardEdgesPermutation(ch, Flatten(chunks), places, places, f);
  }
}
