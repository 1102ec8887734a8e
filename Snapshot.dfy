/**
 * The read-only feature snapshot a command loads before scoring: each
 * place's category set (from the `PlaceCategory` rows) and each place's
 * decoded colour vector (from the `PlaceImage` rows).
 */
module Snapshot {
  import opened Models

  /** place id -> category ids; only places with at least one link are keys. */
  type CategoryMap = map<int, set<int>>

  /** `place_categories.get(place_id, set())` */
  function CategorySet(m: CategoryMap, id: int): set<int>
  {
    if id in m then m[id] else {}
  }

  function LinkedPlaces(links: seq<CategoryLink>): set<int>
  {
    set l | l in links :: l.placeId
  }

  /** The dict of sets built from the link rows, optionally only for the given place ids. */
  function CategoryMapOf(links: seq<CategoryLink>, restrictTo: Option<set<int>>): CategoryMap
  {
    map id | id in LinkedPlaces(links) && (restrictTo.None? || id in restrictTo.value) :: CategoriesOf(links, id)
  }

  /** Looking a place up in the collected map yields exactly its linked categories. */
  lemma CategoryMapLookup(links: seq<CategoryLink>, restrictTo: Option<set<int>>, id: int)
    requires restrictTo.None? || id in restrictTo.value
    ensures CategorySet(CategoryMapOf(links, restrictTo), id) == CategoriesOf(links, id)
  {
    if id !in LinkedPlaces(links) {
      forall c ensures c !in CategoriesOf(links, id) {
        CategoriesOfMembership(links, id, c);
      }
    }
  }

  /** One more link row adds its place to the linked places. */
  lemma LinkedPlacesAppend(prev: seq<CategoryLink>, link: CategoryLink)
    ensures LinkedPlaces(prev + [link]) == LinkedPlaces(prev) + {link.placeId}
  {
    var next := prev + [link];
    forall id ensures id in LinkedPlaces(next) <==> id in LinkedPlaces(prev) || id == link.placeId {
      if id in LinkedPlaces(next) {
        var l :| l in next && l.placeId == id;
      }
      if id in LinkedPlaces(prev) {
        var l :| l in prev && l.placeId == id;
        assert l in next;
      }
      assert link in next;
    }
  }

  /** One more link row adds its category to its own place's categories only. */
  lemma CategoriesOfAppend(prev: seq<CategoryLink>, link: CategoryLink, id: int)
    ensures CategoriesOf(prev + [link], id)
            == CategoriesOf(prev, id) + (if link.placeId == id then {link.categoryId} else {})
  {
    var next := prev + [link];
    assert next[..|next| - 1] == prev;
  }

  /** Adding one link row adds its category to its place's set (when the place is kept). */
  lemma CategoryMapStep(prev: seq<CategoryLink>, link: CategoryLink, restrictTo: Option<set<int>>)
    ensures var before := CategoryMapOf(prev, restrictTo);
            CategoryMapOf(prev + [link], restrictTo)
            == if restrictTo.None? || link.placeId in restrictTo.value
               then before[link.placeId := CategorySet(before, link.placeId) + {link.categoryId}]
               else before
  {
    var next := prev + [link];
    var before := CategoryMapOf(prev, restrictTo);
    var now := CategoryMapOf(next, restrictTo);
    LinkedPlacesAppend(prev, link);
    if restrictTo.None? || link.placeId in restrictTo.value {
      CategoryMapLookup(prev, restrictTo, link.placeId);
      var after := before[link.placeId := CategorySet(before, link.placeId) + {link.categoryId}];
      assert now.Keys == after.Keys;
      forall id | id in after ensures after[id] == now[id] {
        CategoriesOfAppend(prev, link, id);
      }
    } else {
      assert now.Keys == before.Keys;
      forall id | id in before ensures before[id] == now[id] {
        CategoriesOfAppend(prev, link, id);
      }
    }
  }

  /**
   * The loop over `PlaceCategory.objects.all()` that creates an empty set for
   * a new place id and adds the category to it; rows of places outside
   * `restrictTo` are skipped.
   */
  method CollectCategories(links: seq<CategoryLink>, restrictTo: Option<set<int>>) returns (m: CategoryMap)
    ensures m == CategoryMapOf(links, restrictTo)
  {
    m := map[];
    var i := 0;
    while i < |links|
      invariant 0 <= i <= |links|
      invariant m == CategoryMapOf(links[..i], restrictTo)
    {
      var link := links[i];
      assert links[..i + 1] == links[..i] + [link];
      CategoryMapStep(links[..i], link, restrictTo);
      if restrictTo.None? || link.placeId in restrictTo.value {
        if link.placeId !in m {
          m := m[link.placeId := {}];
        }
        m := m[link.placeId := m[link.placeId] + {link.categoryId}];
      }
      i := i + 1;
    }
    assert links[..i] == links;
  }

  /**
   * An image's colour vector is used when the column is set, decodes, and the
   * decoded list is non-empty.
   */
  predicate Usable(img: PlaceImage)
  {
    img.colourField.Decoded? && |img.colourField.colour.values| > 0
  }

  /** place id -> colour vector; a later usable image of the same place replaces an earlier one. */
  function ColoursOf(images: seq<PlaceImage>): map<int, Colour>
  {
    if images == [] then map[]
    else
      var last := images[|images| - 1];
      var before := ColoursOf(images[..|images| - 1]);
      if Usable(last) then before[last.placeId := last.colourField.colour] else before
  }

  /**
   * A place has a colour vector exactly when one of its images is usable, and
   * the vector is that of its last usable image.
   */
  lemma {:induction false} ColoursOfLastWins(images: seq<PlaceImage>, id: int)
    ensures id in ColoursOf(images) <==> exists k :: 0 <= k < |images| && Usable(images[k]) && images[k].placeId == id
    ensures id in ColoursOf(images) ==>
      exists k :: 0 <= k < |images| && Usable(images[k]) && images[k].placeId == id
        && ColoursOf(images)[id] == images[k].colourField.colour
        && forall k' :: k < k' < |images| ==> !(Usable(images[k']) && images[k'].placeId == id)
  {
    if images != [] {
      var n := |images|;
      var prefix := images[..n - 1];
      ColoursOfLastWins(prefix, id);
      var last := images[n - 1];
      if Usable(last) && last.placeId == id {
        assert ColoursOf(images)[id] == last.colourField.colour;
      } else {
        assert ColoursOf(images) == ColoursOf(prefix) || (Usable(last) && last.placeId != id);
        if id in ColoursOf(images) {
          var k :| 0 <= k < |prefix| && Usable(prefix[k]) && prefix[k].placeId == id
            && ColoursOf(prefix)[id] == prefix[k].colourField.colour
            && forall k' :: k < k' < |prefix| ==> !(Usable(prefix[k']) && prefix[k'].placeId == id);
          assert images[k] == prefix[k];
          assert forall k' :: k < k' < n ==> !(Usable(images[k']) && images[k'].placeId == id) by {
            forall k' | k < k' < n ensures !(Usable(images[k']) && images[k'].placeId == id) {
              if k' < n - 1 { assert images[k'] == prefix[k']; }
            }
          }
        }
        if exists k :: 0 <= k < n && Usable(images[k]) && images[k].placeId == id {
          var k :| 0 <= k < n && Usable(images[k]) && images[k].placeId == id;
          assert k < n - 1 && prefix[k] == images[k];
        }
      }
    }
  }

  /**
   * The loop over the images with a non-empty `color_vector`: a row that does
   * not decode, or decodes to an empty list, is skipped.
   */
  method CollectColours(images: seq<PlaceImage>) returns (m: map<int, Colour>)
    ensures m == ColoursOf(images)
  {
    m := map[];
    var i := 0;
    while i < |images|
      invariant 0 <= i <= |images|
      invariant m == ColoursOf(images[..i])
    {
      var img := images[i];
      assert images[..i + 1][..i] == images[..i];
      if Usable(img) {
        m := m[img.placeId := img.colourField.colour];
      }
      i := i + 1;
    }
    assert images[..i] == images;
  }
}
