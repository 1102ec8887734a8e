/**
 * The `calculate_similarities` management command: option handling, the
 * round-robin partition, each worker's scoring loops, the gather at the
 * root and the batched save.
 *
 * The workers run one after another here; each one reads only its own
 * chunk, the full place list and the feature maps, so the order in which
 * they run does not change what they return.
 */
module SimilarityCommand {
  import opened Models
  import opened Snapshot
  import opened SimilarityRules
  import opened EdgeWriter

  /** The command-line flags `--clear`, `--structural-only`, `--image-only`. */
  datatype Options = Options(clear: bool, structuralOnly: bool, imageOnly: bool)

  /** Which families of similarity one run computes. */
  datatype Mode = Mode(structural: bool, image: bool)

  /** With neither `--structural-only` nor `--image-only`, both families are computed. */
  function ResolveMode(o: Options): (m: Mode)
    ensures m.structural || m.image
    ensures m.structural <==> o.structuralOnly || !o.imageOnly
    ensures m.image <==> o.imageOnly || !o.structuralOnly
  {
    if !o.structuralOnly && !o.imageOnly then Mode(true, true)
    else Mode(o.structuralOnly, o.imageOnly)
  }

  /** `types_to_clear`: the channels a `--clear` run deletes first. */
  function ChannelsToClear(m: Mode): (cs: set<Channel>)
    ensures Structural in cs <==> m.structural
    ensures ImageSameCity in cs <==> m.image
    ensures ImageDiffCity in cs <==> m.image
  {
    (if m.structural then {Structural} else {}) + (if m.image then {ImageSameCity, ImageDiffCity} else {})
  }

  /** The table the scoring starts from: the old table, minus the recomputed channels under `--clear`. */
  function StartingTable(store: EdgeStore, o: Options): (r: EdgeStore)
    ensures forall k :: k in r <==> k in store && !(o.clear && k.2 in ChannelsToClear(ResolveMode(o)))
    ensures forall k :: k in r ==> r[k] == store[k]
  {
    if o.clear then ClearChannels(store, ChannelsToClear(ResolveMode(o))) else store
  }

  /**
   * The feature maps every worker loads: the category map only when
   * structural scores are computed, the colour map only when image scores are.
   */
  function LoadedFeatures(m: Mode, links: seq<CategoryLink>, images: seq<PlaceImage>): Features
  {
    Features(if m.structural then CategoryMapOf(links, None) else map[],
             if m.image then ColoursOf(images) else map[])
  }

  /** Whether a run in mode m computes channel ch. */
  predicate Computes(m: Mode, ch: Channel)
  {
    if ch == Structural then m.structural else m.image
  }

  /** The edges of channel ch that `mine` yields against `all`, or none when the family is off. */
  function Expected(m: Mode, ch: Channel, mine: seq<Place>, all: seq<Place>, f: Features): seq<Edge>
  {
    if Computes(m, ch) then ShardEdges(ch, mine, all, f) else []
  }

  /** The partition at the root: `chunks[i % size].append(place)`. */
  method Partition(places: seq<Place>, size: nat) returns (chunks: seq<seq<Place>>)
    requires size > 0
    ensures chunks == RoundRobin(places, size)
    ensures multiset(Flatten(chunks)) == multiset(places)
  {
    chunks := Empties(size);
    var i := 0;
    while i < |places|
      invariant 0 <= i <= |places|
      invariant chunks == RoundRobin(places[..i], size)
    {
      assert places[..i + 1][..i] == places[..i];
      chunks := chunks[i % size := chunks[i % size] + [places[i]]];
      i := i + 1;
    }
    assert places[..i] == places;
    RoundRobinPermutation(places, size);
  }

  /** A place without a colour vector contributes no image edge. */
  lemma {:induction false} NoColourNoRow(ch: Channel, p: Place, others: seq<Place>, f: Features)
    requires ch != Structural && p.id !in f.colours
    ensures RowEdges(ch, p, others, f) == []
  {
    if others != [] {
      NoColourNoRow(ch, p, others[..|others| - 1], f);
    }
  }

  /** The structural comparison of one place against every place (the inner loop for `place_cats`). */
  method StructuralRow(place: Place, all: seq<Place>, f: Features) returns (row: seq<Edge>)
    ensures row == RowEdges(Structural, place, all, f)
  {
    row := [];
    var placeCats := CategorySet(f.categories, place.id);
    var k := 0;
    while k < |all|
      invariant 0 <= k <= |all|
      invariant row == RowEdges(Structural, place, all[..k], f)
    {
      var other := all[k];
      assert all[..k + 1][..k] == all[..k];
      if place.id != other.id {
        var otherCats := CategorySet(f.categories, other.id);
        if placeCats != {} && otherCats != {} {
          var union := |placeCats + otherCats|;
          var similarity := if union > 0 then (|placeCats * otherCats| as real) / (union as real) else 0.0;
          if place.cityId == other.cityId {
            similarity := similarity * 0.7 + 0.3;
          }
          if similarity > 0.1 {
            row := row + [Edge(place.id, other.id, Structural, similarity)];
          }
        }
      }
      k := k + 1;
    }
    assert all[..k] == all;
  }

  /** Extending the compared prefix by one place appends that pair's edges. */
  lemma RowStep(ch: Channel, p: Place, all: seq<Place>, k: nat, f: Features)
    requires k < |all|
    ensures RowEdges(ch, p, all[..k + 1], f) == RowEdges(ch, p, all[..k], f) + PairEdges(ch, p, all[k], f)
  {
    assert all[..k + 1][..k] == all[..k];
  }

  /** Both image channels' edges for one pair, side by side. */
  lemma ImagePair(p: Place, o: Place, f: Features)
    ensures var score := if ComparableColours(p, o, f.colours) then CosineScore(f.colours[p.id], f.colours[o.id]) else 0.0;
            && PairEdges(ImageSameCity, p, o, f)
               == (if ComparableColours(p, o, f.colours) && p.cityId == o.cityId then [Edge(p.id, o.id, ImageSameCity, score)] else [])
            && PairEdges(ImageDiffCity, p, o, f)
               == (if ComparableColours(p, o, f.colours) && p.cityId != o.cityId then [Edge(p.id, o.id, ImageDiffCity, score)] else [])
  {
  }

  /**
   * The image comparison of one place against every place: nothing when the
   * place has no colour vector; otherwise every other place with a colour
   * vector and both norms non-zero, routed by city.
   */
  method ImageRows(place: Place, all: seq<Place>, f: Features) returns (sameCity: seq<Edge>, diffCity: seq<Edge>)
    ensures sameCity == RowEdges(ImageSameCity, place, all, f)
    ensures diffCity == RowEdges(ImageDiffCity, place, all, f)
  {
    sameCity, diffCity := [], [];
    if place.id !in f.colours {
      NoColourNoRow(ImageSameCity, place, all, f);
      NoColourNoRow(ImageDiffCity, place, all, f);
      return;
    }
    var placeColour := f.colours[place.id];
    var k := 0;
    while k < |all|
      invariant 0 <= k <= |all|
      invariant sameCity == RowEdges(ImageSameCity, place, all[..k], f)
      invariant diffCity == RowEdges(ImageDiffCity, place, all[..k], f)
    {
      var other := all[k];
      RowStep(ImageSameCity, place, all, k, f);
      RowStep(ImageDiffCity, place, all, k, f);
      ImagePair(place, other, f);
      if place.id != other.id && other.id in f.colours {
        var otherColour := f.colours[other.id];
        var norm1, norm2 := placeColour.norm, otherColour.norm;
        if norm1 != 0.0 && norm2 != 0.0 {
          var similarity := CosineScore(placeColour, otherColour);
          if place.cityId == other.cityId {
            sameCity := sameCity + [Edge(place.id, other.id, ImageSameCity, similarity)];
          } else {
            diffCity := diffCity + [Edge(place.id, other.id, ImageDiffCity, similarity)];
          }
        }
      }
      k := k + 1;
    }
    assert all[..k] == all;
  }

  /** One worker's loop over its chunk, producing its three result lists. */
  method ComputeShard(m: Mode, mine: seq<Place>, all: seq<Place>, f: Features)
    returns (structural: seq<Edge>, sameCity: seq<Edge>, diffCity: seq<Edge>)
    ensures structural == Expected(m, Structural, mine, all, f)
    ensures sameCity == Expected(m, ImageSameCity, mine, all, f)
    ensures diffCity == Expected(m, ImageDiffCity, mine, all, f)
  {
    structural, sameCity, diffCity := [], [], [];
    var i := 0;
    while i < |mine|
      invariant 0 <= i <= |mine|
      invariant structural == Expected(m, Structural, mine[..i], all, f)
      invariant sameCity == Expected(m, ImageSameCity, mine[..i], all, f)
      invariant diffCity == Expected(m, ImageDiffCity, mine[..i], all, f)
    {
      var place := mine[i];
      assert mine[..i + 1][..i] == mine[..i];
      if m.structural {
        var row := StructuralRow(place, all, f);
        structural := structural + row;
      }
      if m.image {
        var same, diff := ImageRows(place, all, f);
        sameCity := sameCity + same;
        diffCity := diffCity + diff;
      }
      i := i + 1;
    }
    assert mine[..i] == mine;
  }

  /** `[item for sublist in gathered for item in sublist]` of the gathered lists matches one unsharded pass. */
  lemma GatherMatchesUnsharded(m: Mode, ch: Channel, gathered: seq<seq<Edge>>, chunks: seq<seq<Place>>, places: seq<Place>, f: Features)
    requires |gathered| == |chunks|
    requires multiset(Flatten(chunks)) == multiset(places)
    requires forall w :: 0 <= w < |chunks| ==> gathered[w] == Expected(m, ch, chunks[w], places, f)
    ensures multiset(Flatten(gathered)) == multiset(Expected(m, ch, places, places, f))
  {
    if Computes(m, ch) {
      assert gathered == Gathered(ch, chunks, places, f);
      FlattenGathered(ch, chunks, places, f);
      ShardEdgesPermutation(ch, Flatten(chunks), places, places, f);
    } else {
      assert gathered == Empties(|chunks|);
      FlattenEmpties<Edge>(|chunks|);
    }
  }

  /** Every rank runs its shard; `comm.gather` collects the lists in rank order. */
  method RunWorkers(m: Mode, chunks: seq<seq<Place>>, places: seq<Place>, f: Features)
    returns (allStructural: seq<seq<Edge>>, allSameCity: seq<seq<Edge>>, allDiffCity: seq<seq<Edge>>)
    ensures |allStructural| == |allSameCity| == |allDiffCity| == |chunks|
    ensures forall w :: 0 <= w < |chunks| ==> allStructural[w] == Expected(m, Structural, chunks[w], places, f)
    ensures forall w :: 0 <= w < |chunks| ==> allSameCity[w] == Expected(m, ImageSameCity, chunks[w], places, f)
    ensures forall w :: 0 <= w < |chunks| ==> allDiffCity[w] == Expected(m, ImageDiffCity, chunks[w], places, f)
  {
    allStructural, allSameCity, allDiffCity := [], [], [];
    var rank := 0;
    while rank < |chunks|
      invariant 0 <= rank <= |chunks|
      invariant |allStructural| == |allSameCity| == |allDiffCity| == rank
      invariant forall w :: 0 <= w < rank ==> allStructural[w] == Expected(m, Structural, chunks[w], places, f)
      invariant forall w :: 0 <= w < rank ==> allSameCity[w] == Expected(m, ImageSameCity, chunks[w], places, f)
      invariant forall w :: 0 <= w < rank ==> allDiffCity[w] == Expected(m, ImageDiffCity, chunks[w], places, f)
    {
      var s, a, d := ComputeShard(m, chunks[rank], places, f);
      allStructural := allStructural + [s];
      allSameCity := allSameCity + [a];
      allDiffCity := allDiffCity + [d];
      rank := rank + 1;
    }
  }

  /**
   * The whole command for a world of `size` processes over the given table
   * contents. It returns the three flattened lists the root saves.
   */
  method CalculateSimilarities(table: SimilarPlaceTable, opts: Options, size: nat,
                               places: seq<Place>, links: seq<CategoryLink>, images: seq<PlaceImage>)
    returns (structural: seq<Edge>, sameCity: seq<Edge>, diffCity: seq<Edge>)
    requires size > 0
    modifies table
    ensures var m := ResolveMode(opts);
            var f := LoadedFeatures(m, links, images);
            && multiset(structural) == multiset(Expected(m, Structural, places, places, f))
            && multiset(sameCity) == multiset(Expected(m, ImageSameCity, places, places, f))
            && multiset(diffCity) == multiset(Expected(m, ImageDiffCity, places, places, f))
    ensures table.rows == InsertAll(InsertAll(InsertAll(StartingTable(old(table.rows), opts), structural), sameCity), diffCity)
  {
    var m := ResolveMode(opts);
    if opts.clear {
      var typesToClear := ChannelsToClear(m);
      if typesToClear != {} {
        table.DeleteChannels(typesToClear);
      }
    }
    var chunks := Partition(places, size);

    var cats: CategoryMap := map[];
    if m.structural {
      cats := CollectCategories(links, None);
    }
    var colours: map<int, Colour> := map[];
    if m.image {
      colours := CollectColours(images);
    }
    var f := Features(cats, colours);
    assert f == LoadedFeatures(m, links, images);

    var allStructural, allSameCity, allDiffCity := RunWorkers(m, chunks, places, f);
    GatherMatchesUnsharded(m, Structural, allStructural, chunks, places, f);
    GatherMatchesUnsharded(m, ImageSameCity, allSameCity, chunks, places, f);
    GatherMatchesUnsharded(m, ImageDiffCity, allDiffCity, chunks, places, f);
    structural := Flatten(allStructural);
    sameCity := Flatten(allSameCity);
    diffCity := Flatten(allDiffCity);

    var sent: seq<seq<Edge>>;
    sent := SaveInBatches(table, structural, BatchSize);
    sent := SaveInBatches(table, sameCity, BatchSize);
    sent := SaveInBatches(table, diffCity, BatchSize);
  }

  /**
   * With unique place ids, saving the gathered rows of a channel leaves the
   * same table as saving the rows of one unsharded pass: the number of
   * workers does not change the result.
   */
  lemma SavedRowsIndependentOfWorkers(store: EdgeStore, m: Mode, ch: Channel, saved: seq<Edge>, places: seq<Place>, f: Features)
    requires UniqueIds(places)
    requires multiset(saved) == multiset(Expected(m, ch, places, places, f))
    ensures InsertAll(store, saved) == InsertAll(store, Expected(m, ch, places, places, f))
  {
    var expected := Expected(m, ch, places, places, f);
    if Computes(m, ch) {
      UnshardedKeyFunctional(ch, places, f);
    }
    InsertAllOrderIrrelevant(store, expected, saved);
  }
}
