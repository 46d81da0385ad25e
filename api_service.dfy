/** The mock data provider (services/api.ts): its five queries over the fixed collections, without
    the delays that wrap them. */
module ApiService {
  import opened JsValues
  import opened JsArrays
  import opened Types
  import HomeScreen
  import DetailScreen

  /** The three collections the provider serves. */
  datatype Catalog = Catalog(categories: seq<CategoryData>, subCategories: seq<SubCategoryData>, places: seq<Place>)

  /** `getCategories()`. */
  function GetCategories(c: Catalog): (r: seq<CategoryData>)
    ensures r == c.categories
  {
    c.categories
  }

  /** `getSubCategories()`. */
  function GetSubCategories(c: Catalog): (r: seq<SubCategoryData>)
    ensures r == c.subCategories
  {
    c.subCategories
  }

  /** `getPlaces()`. */
  function GetPlaces(c: Catalog): (r: seq<Place>)
    ensures r == c.places
  {
    c.places
  }

  /** `getPlacesByCategory(categoryId)`: exactly the places of that category, every one of them, in
      their original order. */
  function GetPlacesByCategory(c: Catalog, categoryId: string): (r: seq<Place>)
    ensures forall p :: p in r <==> p in c.places && p.category == categoryId
    ensures forall p | p in c.places :: multiset(r)[p] == if p.category == categoryId then multiset(c.places)[p] else 0
    ensures IsSubsequence(r, c.places)
  {
    Filter(c.places, (p: Place) => p.category == categoryId)
  }

  /** `getPlaceDetail(placeId)`: the first place with that id, or `undefined`. */
  function GetPlaceDetail(c: Catalog, placeId: string): (r: Option<Place>)
    ensures r.None? <==> forall i :: 0 <= i < |c.places| ==> c.places[i].id != placeId
    ensures r.Some? ==>
      exists i :: && 0 <= i < |c.places| && c.places[i] == r.value && r.value.id == placeId
                  && forall j :: 0 <= j < i ==> c.places[j].id != placeId
  {
    DetailScreen.FindPlace(c.places, Some(placeId))
  }

  /** The provider's category query lists what the home screen lists for a non-empty category
      before sorting. */
  lemma PlacesByCategoryIsHomeFilter(c: Catalog, categoryId: string)
    requires categoryId != ""
    ensures GetPlacesByCategory(c, categoryId) == HomeScreen.FilteredPlaces(c.places, Some(categoryId))
  {
    FilterExtensional(c.places, (p: Place) => p.category == categoryId, (p: Place) => p.category == Some(categoryId).value);
  }

  /** With unique ids, the detail query finds every place that the category query lists. */
  lemma ListedPlacesHaveDetails(c: Catalog, categoryId: string, p: Place)
    requires DetailScreen.UniqueIds(c.places) && p in GetPlacesByCategory(c, categoryId)
    ensures GetPlaceDetail(c, p.id) == Some(p)
  {
    DetailScreen.FindPlaceOfListedPlace(c.places, p);
  }
}
