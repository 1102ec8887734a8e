/**
 * The data model the three batch commands read and write: places, their
 * category links and images, and the similarity edge table keyed by
 * (main place, similar place, similarity type).
 */
module Models {
  import opened Numeric

  datatype Option<T> = None | Some(value: T)

  /** The three values `SimilarPlace.similarity_type` may take. */
  datatype Channel = Structural | ImageSameCity | ImageDiffCity
  {
    /** The tag stored in the database column (at most 20 characters). */
    function Tag(): (s: string)
      ensures 0 < |s| <= 20
    {
      match this
      case Structural => "structural"
      case ImageSameCity => "image_same_city"
      case ImageDiffCity => "image_diff_city"
    }
  }

  /** Validation of a stored tag against the declared choices. */
  function ParseChannel(s: string): (r: Option<Channel>)
    ensures r.Some? <==> s in {"structural", "image_same_city", "image_diff_city"}
    ensures r.Some? ==> r.value.Tag() == s
  {
    if s == "structural" then Some(Structural)
    else if s == "image_same_city" then Some(ImageSameCity)
    else if s == "image_diff_city" then Some(ImageDiffCity)
    else None
  }

  /** Every channel's tag parses back to that channel. */
  lemma ChannelTagRoundTrip(c: Channel)
    ensures ParseChannel(c.Tag()) == Some(c)
  {
  }

  /**
   * A place as the commands see it. `page_views` and `number_of_languages`
   * may be null; `relevance_score` defaults to 0.
   */
  datatype Place = Place(
    id: int,
    name: string,
    cityId: int,
    pageViews: Option<int>,
    numberOfLanguages: Option<int>,
    relevanceScore: real)

  /** A freshly created place: `relevance_score` takes its default. */
  function NewPlace(id: int, name: string, cityId: int, pageViews: Option<int>, languages: Option<int>): (p: Place)
    ensures p.relevanceScore == 0.0
    ensures p.id == id && p.cityId == cityId && p.pageViews == pageViews && p.numberOfLanguages == languages
  {
    Place(id, name, cityId, pageViews, languages, 0.0)
  }

  /** `place.page_views or 0` */
  function ViewsOrZero(p: Place): int
  {
    match p.pageViews
    case None => 0
    case Some(v) => v
  }

  /** `place.number_of_languages or 0` */
  function LanguagesOrZero(p: Place): int
  {
    match p.numberOfLanguages
    case None => 0
    case Some(v) => v
  }

  /** Place ids are primary keys. */
  predicate UniqueIds(places: seq<Place>)
  {
    forall i, j :: 0 <= i < |places| && 0 <= j < |places| && places[i].id == places[j].id ==> i == j
  }

  /** A row of the `PlaceCategory` junction table. */
  datatype CategoryLink = CategoryLink(placeId: int, categoryId: int)

  /** `unique_together = ('place', 'category')` */
  predicate LinksUnique(links: seq<CategoryLink>)
  {
    forall i, j :: 0 <= i < |links| && 0 <= j < |links| && links[i] == links[j] ==> i == j
  }

  /** The category set of one place, as collected from the junction table. */
  function CategoriesOf(links: seq<CategoryLink>, placeId: int): set<int>
  {
    if links == [] then {}
    else
      var last := links[|links| - 1];
      CategoriesOf(links[..|links| - 1], placeId) + (if last.placeId == placeId then {last.categoryId} else {})
  }

  /** A category belongs to a place's set exactly when a link row joins them. */
  lemma {:induction false} CategoriesOfMembership(links: seq<CategoryLink>, placeId: int, c: int)
    ensures c in CategoriesOf(links, placeId) <==> CategoryLink(placeId, c) in links
  {
    if links != [] {
      var n := |links|;
      CategoriesOfMembership(links[..n - 1], placeId, c);
      assert links == links[..n - 1] + [links[n - 1]];
    }
  }

  /** The positions of the link rows of one place. */
  function RowsOfPlace(links: seq<CategoryLink>, placeId: int): set<int>
  {
    set k | 0 <= k < |links| && links[k].placeId == placeId
  }

  /** The last row adds one position exactly when it belongs to the place. */
  lemma RowsOfPlaceStep(links: seq<CategoryLink>, placeId: int)
    requires links != []
    ensures |RowsOfPlace(links, placeId)|
            == |RowsOfPlace(links[..|links| - 1], placeId)| + (if links[|links| - 1].placeId == placeId then 1 else 0)
  {
    var n := |links|;
    var rows := RowsOfPlace(links[..n - 1], placeId);
    if links[n - 1].placeId == placeId {
      assert RowsOfPlace(links, placeId) == rows + {n - 1};
      assert n - 1 !in rows;
    } else {
      assert RowsOfPlace(links, placeId) == rows;
    }
  }

  /** With unique link rows, the last row adds one category exactly when it belongs to the place. */
  lemma CategoriesOfStep(links: seq<CategoryLink>, placeId: int)
    requires LinksUnique(links) && links != []
    ensures LinksUnique(links[..|links| - 1])
    ensures |CategoriesOf(links, placeId)|
            == |CategoriesOf(links[..|links| - 1], placeId)| + (if links[|links| - 1].placeId == placeId then 1 else 0)
  {
    var n := |links|;
    var prefix, last := links[..n - 1], links[n - 1];
    var cats := CategoriesOf(prefix, placeId);
    assert last !in prefix;
    if last.placeId == placeId {
      CategoriesOfMembership(prefix, placeId, last.categoryId);
      assert CategoriesOf(links, placeId) == cats + {last.categoryId};
    }
  }

  /** With unique link rows, a place has exactly as many categories as link rows. */
  lemma {:induction false} CategoriesOfCount(links: seq<CategoryLink>, placeId: int)
    requires LinksUnique(links)
    ensures |CategoriesOf(links, placeId)| == |RowsOfPlace(links, placeId)|
  {
    if links != [] {
      CategoriesOfStep(links, placeId);
      CategoriesOfCount(links[..|links| - 1], placeId);
      RowsOfPlaceStep(links, placeId);
    }
  }

  /**
   * A colour vector decoded from `PlaceImage.color_vector`, together with its
   * Euclidean norm (the value `np.linalg.norm` returns for it).
   */
  datatype Colour = Colour(values: seq<real>, norm: real)

  predicate NormMatches(c: Colour)
  {
    0.0 <= c.norm && c.norm * c.norm == SqNorm(c.values)
  }

  /** The stored `color_vector` text: null or empty, not decodable, or a decoded vector. */
  datatype ColourField = NoColour | Malformed | Decoded(colour: Colour)

  /** A row of `PlaceImage`. */
  datatype PlaceImage = PlaceImage(placeId: int, colourField: ColourField)

  /** A row of `SimilarPlace`. */
  datatype Edge = Edge(main: int, similar: int, channel: Channel, score: real)

  /** `unique_together = ('main_place', 'similar_place', 'similarity_type')` */
  type EdgeKey = (int, int, Channel)

  function Key(e: Edge): EdgeKey
  {
    (e.main, e.similar, e.channel)
  }

  /** The similarity table: at most one score per key. */
  type EdgeStore = map<EdgeKey, real>

  /** The table's rows; no two rows share a key. */
  function Rows(store: EdgeStore): (rows: set<Edge>)
    ensures forall e :: e in rows <==> Key(e) in store && store[Key(e)] == e.score
    ensures forall e1, e2 :: e1 in rows && e2 in rows && Key(e1) == Key(e2) ==> e1 == e2
  {
    set k | k in store :: Edge(k.0, k.1, k.2, store[k])
  }

  function KeySet(es: seq<Edge>): set<EdgeKey>
  {
    set e | e in es :: Key(e)
  }

  /** One row inserted with `ignore_conflicts`: an existing key keeps its row. */
  function InsertIfAbsent(store: EdgeStore, e: Edge): (r: EdgeStore)
    ensures r.Keys == store.Keys + {Key(e)}
    ensures forall k :: k in store ==> r[k] == store[k]
    ensures Key(e) !in store ==> r[Key(e)] == e.score
  {
    if Key(e) in store then store else store[Key(e) := e.score]
  }

  /**
   * `bulk_create(..., ignore_conflicts=True)`: rows inserted in order, each
   * skipped when its key is already present (also when an earlier row of the
   * same call holds it).
   */
  function InsertAll(store: EdgeStore, es: seq<Edge>): EdgeStore
    decreases |es|
  {
    if es == [] then store else InsertAll(InsertIfAbsent(store, es[0]), es[1..])
  }

  /**
   * After the insert the table holds exactly the old keys and the inserted
   * ones, and every row that was there keeps its score.
   */
  lemma {:induction false} InsertAllKeepsExisting(store: EdgeStore, es: seq<Edge>)
    ensures InsertAll(store, es).Keys == store.Keys + KeySet(es)
    ensures forall k :: k in store ==> InsertAll(store, es)[k] == store[k]
    decreases |es|
  {
    if es != [] {
      assert KeySet(es) == {Key(es[0])} + KeySet(es[1..]);
      InsertAllKeepsExisting(InsertIfAbsent(store, es[0]), es[1..]);
    }
  }

  /** A key new to the table takes the score of the first row that carries it. */
  lemma {:induction false} InsertAllFirstWins(store: EdgeStore, es: seq<Edge>, k: EdgeKey)
    requires k !in store && k in KeySet(es)
    ensures k in InsertAll(store, es)
    ensures exists i :: 0 <= i < |es| && Key(es[i]) == k && InsertAll(store, es)[k] == es[i].score
                        && forall j :: 0 <= j < i ==> Key(es[j]) != k
    decreases |es|
  {
    InsertAllKeepsExisting(store, es);
    if Key(es[0]) == k {
      InsertAllKeepsExisting(InsertIfAbsent(store, es[0]), es[1..]);
      assert InsertAll(store, es)[k] == InsertIfAbsent(store, es[0])[k];
    } else {
      assert k in KeySet(es[1..]);
      InsertAllFirstWins(InsertIfAbsent(store, es[0]), es[1..], k);
      var i :| 0 <= i < |es[1..]| && Key(es[1..][i]) == k && k in InsertAll(store, es) && InsertAll(store, es)[k] == es[1..][i].score
               && forall j :: 0 <= j < i ==> Key(es[1..][j]) != k;
      assert Key(es[i + 1]) == k;
      forall j | 0 <= j < i + 1 ensures Key(es[j]) != k {
        if j > 0 { assert es[j] == es[1..][j - 1]; }
      }
    }
  }

  /** Inserting a list in two consecutive parts is inserting it at once. */
  lemma {:induction false} InsertAllConcat(store: EdgeStore, a: seq<Edge>, b: seq<Edge>)
    ensures InsertAll(store, a + b) == InsertAll(InsertAll(store, a), b)
    decreases |a|
  {
    if a != [] {
      assert (a + b)[1..] == a[1..] + b;
      InsertAllConcat(InsertIfAbsent(store, a[0]), a[1..], b);
    } else {
      assert a + b == b;
    }
  }

  /** Rows whose keys are all present already change nothing. */
  lemma {:induction false} InsertAllPresent(store: EdgeStore, es: seq<Edge>)
    requires KeySet(es) <= store.Keys
    ensures InsertAll(store, es) == store
  {
    if es != [] {
      assert Key(es[0]) in KeySet(es);
      assert KeySet(es[1..]) <= KeySet(es);
      InsertAllPresent(store, es[1..]);
    }
  }

  /** Re-inserting the same rows is idempotent. */
  lemma InsertAllIdempotent(store: EdgeStore, es: seq<Edge>)
    ensures InsertAll(InsertAll(store, es), es) == InsertAll(store, es)
  {
    InsertAllKeepsExisting(store, es);
    InsertAllPresent(InsertAll(store, es), es);
  }

  /** No two rows of the set carry the same key with different data. */
  predicate KeyFunctional(es: seq<Edge>)
  {
    forall e1, e2 :: e1 in es && e2 in es && Key(e1) == Key(e2) ==> e1 == e2
  }

  /** When no key is carried by two different rows, the inserted score is that row's. */
  lemma InsertAllKeyFunctional(store: EdgeStore, es: seq<Edge>, e: Edge)
    requires KeyFunctional(es) && e in es && Key(e) !in store
    ensures Key(e) in InsertAll(store, es) && InsertAll(store, es)[Key(e)] == e.score
  {
    InsertAllFirstWins(store, es, Key(e));
  }

  /**
   * The order of the inserted rows does not matter when no key is carried by
   * two different rows: two lists holding the same rows give the same table.
   */
  lemma InsertAllOrderIrrelevant(store: EdgeStore, a: seq<Edge>, b: seq<Edge>)
    requires multiset(a) == multiset(b) && KeyFunctional(a)
    ensures InsertAll(store, a) == InsertAll(store, b)
  {
    forall e ensures e in a <==> e in b {
      assert e in a <==> e in multiset(a);
      assert e in b <==> e in multiset(b);
    }
    assert KeySet(a) == KeySet(b);
    assert KeyFunctional(b);
    var ra, rb := InsertAll(store, a), InsertAll(store, b);
    InsertAllKeepsExisting(store, a);
    InsertAllKeepsExisting(store, b);
    forall k | k in ra.Keys
      ensures ra[k] == rb[k]
    {
      if k !in store {
        var e :| e in a && Key(e) == k;
        InsertAllKeyFunctional(store, a, e);
        InsertAllKeyFunctional(store, b, e);
      }
    }
  }

  /** The table after deleting every row whose type is in `channels`. */
  function ClearChannels(store: EdgeStore, channels: set<Channel>): (r: EdgeStore)
    ensures forall k :: k in r <==> k in store && k.2 !in channels
    ensures forall k :: k in r ==> r[k] == store[k]
  {
    map k | k in store && k.2 !in channels :: store[k]
  }

  predicate ChannelsWithin(es: seq<Edge>, channels: set<Channel>)
  {
    forall e :: e in es ==> e.channel in channels
  }

  /**
   * Clearing the recomputed channels and inserting the same rows again gives
   * the table the first clear-and-insert produced.
   */
  lemma RerunWithClearIsIdempotent(store: EdgeStore, channels: set<Channel>, es: seq<Edge>)
    requires ChannelsWithin(es, channels)
    ensures var once := InsertAll(ClearChannels(store, channels), es);
            InsertAll(ClearChannels(once, channels), es) == once
  {
    var cleared := ClearChannels(store, channels);
    var once := InsertAll(cleared, es);
    InsertAllKeepsExisting(cleared, es);
    forall k | k in KeySet(es) ensures k.2 in channels {
      var e :| e in es && Key(e) == k;
    }
    assert ClearChannels(once, channels) == cleared;
  }

  /** Keep the elements `keep` accepts, in order. */
  function Filter<T(!new)>(s: seq<T>, keep: T -> bool): (r: seq<T>)
    ensures forall x :: x in r <==> x in s && keep(x)
    ensures |r| <= |s|
  {
    if s == [] then []
    else
      assert forall x :: x in s <==> x == s[0] || x in s[1..];
      (if keep(s[0]) then [s[0]] else []) + Filter(s[1..], keep)
  }

  /** The concatenation of a list of lists (`[item for sub in lists for item in sub]`). */
  function Flatten<T>(lists: seq<seq<T>>): (r: seq<T>)
  {
    if lists == [] then [] else Flatten(lists[..|lists| - 1]) + lists[|lists| - 1]
  }

  lemma {:induction false} FlattenConcat<T>(a: seq<seq<T>>, b: seq<seq<T>>)
    ensures Flatten(a + b) == Flatten(a) + Flatten(b)
    decreases |b|
  {
    if b == [] {
      assert a + b == a;
    } else {
      var n := |b|;
      var init, last := b[..n - 1], b[n - 1];
      assert (a + b)[..|a + b| - 1] == a + init;
      assert (a + b)[|a + b| - 1] == last;
      FlattenConcat(a, init);
      calc {
        Flatten(a + b);
        Flatten(a + init) + last;
        (Flatten(a) + Flatten(init)) + last;
        Flatten(a) + (Flatten(init) + last);
        Flatten(a) + Flatten(b);
      }
    }
  }

  /** An element is in the concatenation exactly when it is in one of the lists. */
  lemma {:induction false} FlattenMembership<T>(lists: seq<seq<T>>, x: T)
    ensures x in Flatten(lists) <==> exists r :: 0 <= r < |lists| && x in lists[r]
  {
    if lists != [] {
      var n := |lists|;
      var init := lists[..n - 1];
      FlattenMembership(init, x);
      assert Flatten(lists) == Flatten(init) + lists[n - 1];
      if exists r :: 0 <= r < n && x in lists[r] {
        var r :| 0 <= r < n && x in lists[r];
        if r < n - 1 {
          assert init[r] == lists[r];
        }
      }
      if exists r :: 0 <= r < n - 1 && x in init[r] {
        var r :| 0 <= r < n - 1 && x in init[r];
        assert init[r] == lists[r];
      }
    }
  }

  /** The tables the commands touch. */
  datatype Db = Db(places: seq<Place>, images: seq<PlaceImage>, links: seq<CategoryLink>, edges: EdgeStore)

  predicate HasPlace(db: Db, id: int)
  {
    exists p :: p in db.places && p.id == id
  }

  /** Every foreign key refers to an existing place. */
  predicate ReferentiallyIntact(db: Db)
  {
    && (forall img :: img in db.images ==> HasPlace(db, img.placeId))
    && (forall l :: l in db.links ==> HasPlace(db, l.placeId))
    && (forall k :: k in db.edges ==> HasPlace(db, k.0) && HasPlace(db, k.1))
  }

  /**
   * Deleting a place: `on_delete=CASCADE` removes its images, its category
   * links and every similarity row naming it as main or as similar place.
   */
  function DeletePlace(db: Db, id: int): (r: Db)
    ensures forall p :: p in r.places <==> p in db.places && p.id != id
    ensures forall img :: img in r.images <==> img in db.images && img.placeId != id
    ensures forall l :: l in r.links <==> l in db.links && l.placeId != id
    ensures forall k :: k in r.edges <==> k in db.edges && k.0 != id && k.1 != id
    ensures forall k :: k in r.edges ==> r.edges[k] == db.edges[k]
  {
    Db(Filter(db.places, (p: Place) => p.id != id),
       Filter(db.images, (img: PlaceImage) => img.placeId != id),
       Filter(db.links, (l: CategoryLink) => l.placeId != id),
       map k | k in db.edges && k.0 != id && k.1 != id :: db.edges[k])
  }

  /** Deleting a place keeps every remaining foreign key valid, when ids are unique. */
  lemma DeletePlaceKeepsIntegrity(db: Db, id: int)
    requires ReferentiallyIntact(db) && UniqueIds(db.places)
    ensures ReferentiallyIntact(DeletePlace(db, id))
    ensures !HasPlace(DeletePlace(db, id), id)
  {
    var r := DeletePlace(db, id);
    forall other | other != id && HasPlace(db, other)
      ensures HasPlace(r, other)
    {
      var p :| p in db.places && p.id == other;
      assert p in r.places;
    }
  }

  /** Model `ordering = ['-relevance_score']`: descending relevance. */
  predicate ByDescendingRelevance(ps: seq<Place>)
  {
    forall i, j :: 0 <= i < j < |ps| ==> ps[i].relevanceScore >= ps[j].relevanceScore
  }

  /** Insert one place before the first place with a lower score. */
  function InsertByRelevance(p: Place, sorted: seq<Place>): (r: seq<Place>)
    ensures multiset(r) == multiset(sorted) + multiset{p}
  {
    if sorted == [] || sorted[0].relevanceScore <= p.relevanceScore then [p] + sorted
    else
      assert sorted == [sorted[0]] + sorted[1..];
      [sorted[0]] + InsertByRelevance(p, sorted[1..])
  }

  lemma {:induction false} InsertByRelevanceOrdered(p: Place, sorted: seq<Place>)
    requires ByDescendingRelevance(sorted)
    ensures ByDescendingRelevance(InsertByRelevance(p, sorted))
  {
    var r := InsertByRelevance(p, sorted);
    if sorted == [] || sorted[0].relevanceScore <= p.relevanceScore {
      forall i, j | 0 <= i < j < |r| ensures r[i].relevanceScore >= r[j].relevanceScore {
        if i == 0 {
          assert r[j] == sorted[j - 1];
          if j > 1 { assert sorted[0].relevanceScore >= sorted[j - 1].relevanceScore; }
        } else {
          assert r[i] == sorted[i - 1] && r[j] == sorted[j - 1];
        }
      }
    } else {
      var head, rest := sorted[0], sorted[1..];
      assert ByDescendingRelevance(rest);
      InsertByRelevanceOrdered(p, rest);
      var tail := InsertByRelevance(p, rest);
      assert r == [head] + tail;
      forall i, j | 0 <= i < j < |r| ensures r[i].relevanceScore >= r[j].relevanceScore {
        if i == 0 {
          var q := r[j];
          assert q in multiset(tail);
          assert q in multiset(rest) || q == p;
          if q != p {
            var k :| 0 <= k < |rest| && rest[k] == q;
            assert sorted[k + 1] == q;
          }
        } else {
          assert r[i] == tail[i - 1] && r[j] == tail[j - 1];
        }
      }
    }
  }

  /** The default query order of `Place.objects.all()`: every place, highest score first. */
  function OrderByRelevance(ps: seq<Place>): (r: seq<Place>)
    ensures ByDescendingRelevance(r)
    ensures multiset(r) == multiset(ps)
  {
    if ps == [] then []
    else
      assert ps == [ps[0]] + ps[1..];
      var rest := OrderByRelevance(ps[1..]);
      InsertByRelevanceOrdered(ps[0], rest);
      InsertByRelevance(ps[0], rest)
  }
}
