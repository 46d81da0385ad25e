/** The places of one sub-category (screens/SubCategoryDetailScreen.tsx): the sub-category lookup,
    the place filter on `subCategoryId` and what the screen renders from them. */
module SubCategoryDetailScreen {
  import opened JsValues
  import opened JsArrays
  import opened Types
  import Navigation

  /** `subCategories.find(s => s.id === subCategoryId)`: the first sub-category with that id; a
      null id matches nothing. */
  function FindSubCategory(subCategories: seq<SubCategoryData>, subCategoryId: Option<string>): (r: Option<SubCategoryData>)
    ensures subCategoryId.None? ==> r.None?
    ensures r.None? <==> forall i :: 0 <= i < |subCategories| ==> !StringEqualsNullable(subCategories[i].id, subCategoryId)
    ensures r.Some? ==>
      exists i :: && 0 <= i < |subCategories| && subCategories[i] == r.value
                  && Some(r.value.id) == subCategoryId
                  && forall j :: 0 <= j < i ==> Some(subCategories[j].id) != subCategoryId
  {
    Find(subCategories, (s: SubCategoryData) => StringEqualsNullable(s.id, subCategoryId))
  }

  /** `places.filter(p => p.subCategoryId === subCategoryId)`: the places filed under that
      sub-category, each as often as it is listed, in order. A place without a sub-category is
      `undefined`, which is never `===` null, so a null id selects no place at all. */
  function PlacesOf(places: seq<Place>, subCategoryId: Option<string>): (r: seq<Place>)
    ensures subCategoryId.None? ==> r == []
    ensures forall p :: p in r <==> p in places && subCategoryId.Some? && p.subCategoryId == subCategoryId
    ensures IsSubsequence(r, places)
    ensures forall p | p in places ::
      multiset(r)[p] == if subCategoryId.Some? && p.subCategoryId == subCategoryId then multiset(places)[p] else 0
  {
    Filter(places, (p: Place) => StrictEqualsNullable(p.subCategoryId, subCategoryId))
  }

  /** What the component returns: nothing when the lookup misses, otherwise the header with the
      sub-category, the count "N Mekan Listeleniyor", and the place cards or the placeholder. */
  datatype Render =
    | RendersNothing
    | Rendered(subCategory: SubCategoryData, count: nat, places: seq<Place>, showsPlaceholder: bool)

  function RenderOf(subCategories: seq<SubCategoryData>, places: seq<Place>, subCategoryId: Option<string>): Render {
    var found := FindSubCategory(subCategories, subCategoryId);
    var filtered := PlacesOf(places, subCategoryId);
    if found.None? then RendersNothing
    else Rendered(found.value, |filtered|, filtered, |filtered| == 0)
  }

  /** The handler call of the card at each position: `onPlaceSelect(place.id)`. */
  function CardEvents(r: Render): (events: seq<Navigation.Event>)
    ensures r.Rendered? ==> |events| == |r.places|
    ensures r.RendersNothing? ==> events == []
  {
    if r.RendersNothing? then []
    else seq(|r.places|, i requires 0 <= i < |r.places| => Navigation.SelectPlace(r.places[i].id))
  }

  /** The screen renders exactly when a sub-category has the id; the header is that sub-category,
      the count is the number of cards, and the placeholder shows exactly when there is none. */
  lemma RenderMatchesLookup(subCategories: seq<SubCategoryData>, places: seq<Place>, subCategoryId: Option<string>)
    ensures var r := RenderOf(subCategories, places, subCategoryId);
      && (r.RendersNothing? <==> forall i :: 0 <= i < |subCategories| ==> Some(subCategories[i].id) != subCategoryId)
      && (r.Rendered? ==> r.subCategory in subCategories && Some(r.subCategory.id) == subCategoryId
                          && r.count == |r.places| && (r.showsPlaceholder <==> r.places == [])
                          && forall p :: p in r.places <==> p in places && p.subCategoryId == subCategoryId)
  {
    var r := RenderOf(subCategories, places, subCategoryId);
    if r.Rendered? {
      var found := FindSubCategory(subCategories, subCategoryId);
      var i :| 0 <= i < |subCategories| && subCategories[i] == found.value && Some(found.value.id) == subCategoryId
        && forall j :: 0 <= j < i ==> Some(subCategories[j].id) != subCategoryId;
      assert r.subCategory == subCategories[i];
    }
  }

  /** On any page this screen renders, every card selects its own place, through a callback this
      screen is given, and opens detail with that place while the sub-category is remembered for
      the way back. */
  lemma CardsSelectTheirPlace(r: Render, s: Navigation.NavState, i: nat)
    requires s.screen == SubCategoryDetail
    requires r.Rendered? && i < |r.places|
    ensures var e := CardEvents(r)[i];
      && e == Navigation.SelectPlace(r.places[i].id)
      && Navigation.Enabled(s, e)
      && Navigation.Apply(s, e) == s.(screen := Detail, placeId := Some(r.places[i].id))
  {
  }
}
