/** The home screen (screens/HomeScreen.tsx): the category toggle, the choice between a
    sub-category list and a place list, the filters, the rating sort and the hero slideshow index. */
module HomeScreen {
  import opened JsValues
  import opened JsArrays
  import opened Types
  import Navigation

  /** `HERO_IMAGES.length`. */
  const HeroImageCount: nat := 3

  /** The new `activeCategory` after a click on `catId`: clicking the active category clears it,
      clicking any other category (or any category while none is active) selects it. */
  function ToggleCategory(active: Option<string>, catId: string): (r: Option<string>)
    ensures r.None? <==> active == Some(catId)
    ensures r.Some? ==> r.value == catId
  {
    if active == Some(catId) then None else Some(catId)
  }

  /** Two clicks on the same category: back to where it started only from "none" or from that
      same category; from another active category the two clicks end with none active. */
  lemma ToggleTwice(active: Option<string>, catId: string)
    ensures ToggleCategory(ToggleCategory(active, catId), catId) == if active == Some(catId) then active else None
    ensures ToggleCategory(ToggleCategory(active, catId), catId) == active <==> active.None? || active == Some(catId)
  {
  }

  /** `shouldShowSubCategories`. */
  predicate ShowsSubCategories(active: Option<string>) {
    active == Some(Sightseeing) || active == Some(FoodAndDrink)
  }

  /** `filteredPlaces`: every place while no category (or an empty one) is active, otherwise the
      places of the active category, each as often as it is listed, in their original order. */
  function FilteredPlaces(places: seq<Place>, active: Option<string>): (r: seq<Place>)
    ensures !IsTruthy(active) ==> r == places
    ensures IsTruthy(active) ==> forall p :: p in r <==> p in places && p.category == active.value
    ensures IsTruthy(active) ==> IsSubsequence(r, places)
    ensures IsTruthy(active) ==>
      forall p | p in places :: multiset(r)[p] == if p.category == active.value then multiset(places)[p] else 0
  {
    if !IsTruthy(active) then places else Filter(places, (p: Place) => p.category == active.value)
  }

  /** When every place belongs to the active category, the filter keeps them all. */
  lemma FilterOfOneCategoryKeepsAll(places: seq<Place>, c: string)
    requires c != "" && forall i :: 0 <= i < |places| ==> places[i].category == c
    ensures FilteredPlaces(places, Some(c)) == places
  {
    FilterKeepsAll(places, (p: Place) => p.category == Some(c).value);
  }

  /** `sortedPlaces`: a sorted copy of `filteredPlaces`, highest rating first, ties in their
      original order. */
  function SortedPlaces(places: seq<Place>, active: Option<string>): (r: seq<Place>)
    ensures multiset(r) == multiset(FilteredPlaces(places, active))
    ensures NonIncreasing(r, Rating)
    ensures StableWith(r, FilteredPlaces(places, active), Rating)
  {
    SortDescending(FilteredPlaces(places, active), Rating)
  }

  /** `filteredSubCategories`: the sub-categories of the active category, each as often as it is
      listed, in order; none while no category is active. */
  function FilteredSubCategories(subCategories: seq<SubCategoryData>, active: Option<string>): (r: seq<SubCategoryData>)
    ensures !IsTruthy(active) ==> r == []
    ensures IsTruthy(active) ==> forall s :: s in r <==> s in subCategories && s.parentCategoryId == active.value
    ensures IsTruthy(active) ==> IsSubsequence(r, subCategories)
    ensures IsTruthy(active) ==>
      forall s | s in subCategories :: multiset(r)[s] == if s.parentCategoryId == active.value then multiset(subCategories)[s] else 0
  {
    if IsTruthy(active) then Filter(subCategories, (s: SubCategoryData) => s.parentCategoryId == active.value) else []
  }

  /** What the list section shows: cards, or the placeholder of an empty list. */
  datatype Listing =
    | SubCategoryCards(subCategories: seq<SubCategoryData>)
    | NoSubCategoriesYet
    | PlaceCards(places: seq<Place>)
    | NoPlacesFound

  function ListingOf(places: seq<Place>, subCategories: seq<SubCategoryData>, active: Option<string>): Listing {
    if ShowsSubCategories(active) then
      var subs := FilteredSubCategories(subCategories, active);
      if |subs| > 0 then SubCategoryCards(subs) else NoSubCategoriesYet
    else
      var sorted := SortedPlaces(places, active);
      if |sorted| > 0 then PlaceCards(sorted) else NoPlacesFound
  }

  /** The line under the heading: a number and what it counts ("Kategori" or "Mekan Listelendi"). */
  datatype CountLabel = CountLabel(count: nat, noun: string)

  function CountLabelOf(places: seq<Place>, subCategories: seq<SubCategoryData>, active: Option<string>): CountLabel {
    if ShowsSubCategories(active) then CountLabel(|FilteredSubCategories(subCategories, active)|, "Kategori")
    else CountLabel(|SortedPlaces(places, active)|, "Mekan Listelendi")
  }

  /** The heading: the active category, or "Popüler Mekanlar" while none is active. */
  function Heading(active: Option<string>): (h: string)
    ensures IsTruthy(active) ==> h == active.value
    ensures !IsTruthy(active) ==> h == "Popüler Mekanlar"
  {
    OrDefault(active, "Popüler Mekanlar")
  }

  /** The number of cards the list shows (a placeholder is no card). */
  function CardCount(l: Listing): nat {
    match l
    case SubCategoryCards(subs) => |subs|
    case PlaceCards(ps) => |ps|
    case _ => 0
  }

  /** The handler call a click on each card makes: `onSubCategorySelect(sub.id)` or `onPlaceSelect(place.id)`. */
  function CardEvents(l: Listing): (events: seq<Navigation.Event>)
    ensures |events| == CardCount(l)
    ensures l.SubCategoryCards? ==> forall i :: 0 <= i < |events| ==> events[i] == Navigation.SelectSubCategory(l.subCategories[i].id)
    ensures l.PlaceCards? ==> forall i :: 0 <= i < |events| ==> events[i] == Navigation.SelectPlace(l.places[i].id)
  {
    match l
    case SubCategoryCards(subs) => seq(|subs|, i requires 0 <= i < |subs| => Navigation.SelectSubCategory(subs[i].id))
    case PlaceCards(ps) => seq(|ps|, i requires 0 <= i < |ps| => Navigation.SelectPlace(ps[i].id))
    case _ => []
  }

  /** The count under the heading is the number of cards below it, and the matching placeholder is
      shown exactly when that count is zero. */
  lemma CountLabelMatchesListing(places: seq<Place>, subCategories: seq<SubCategoryData>, active: Option<string>)
    ensures CountLabelOf(places, subCategories, active).count == CardCount(ListingOf(places, subCategories, active))
    ensures ShowsSubCategories(active) ==>
      (ListingOf(places, subCategories, active) == NoSubCategoriesYet <==> CountLabelOf(places, subCategories, active).count == 0)
    ensures !ShowsSubCategories(active) ==>
      (ListingOf(places, subCategories, active) == NoPlacesFound <==> CountLabelOf(places, subCategories, active).count == 0)
  {
  }

  /** With a category active that has no sub-category step, the list is exactly that category's
      places, highest rating first and stable on ties, or the placeholder when there are none. */
  lemma PlainCategoryListsItsPlacesByRating(places: seq<Place>, subCategories: seq<SubCategoryData>, c: string)
    requires c != "" && c != Sightseeing && c != FoodAndDrink
    ensures var l := ListingOf(places, subCategories, Some(c));
      && (l.PlaceCards? || l == NoPlacesFound)
      && (l.PlaceCards? ==> (forall p :: p in l.places <==> p in places && p.category == c)
                            && NonIncreasing(l.places, Rating)
                            && StableWith(l.places, FilteredPlaces(places, Some(c)), Rating))
      && (l == NoPlacesFound <==> forall i :: 0 <= i < |places| ==> places[i].category != c)
  {
    var l := ListingOf(places, subCategories, Some(c));
    var filtered := FilteredPlaces(places, Some(c));
    assert ShowsSubCategories(Some(c)) == false;
    if l != NoPlacesFound {
      forall p ensures p in l.places <==> p in filtered {
        assert p in l.places <==> p in multiset(l.places);
      }
    }
  }

  /** Every card on the home screen calls a handler the home screen is given. */
  lemma HomeCardsRaiseOfferedEvents(places: seq<Place>, subCategories: seq<SubCategoryData>, active: Option<string>, i: nat)
    requires i < CardCount(ListingOf(places, subCategories, active))
    ensures Navigation.Offers(Navigation.HomeView, CardEvents(ListingOf(places, subCategories, active))[i])
  {
  }

  /** On any listing the home screen shows, card `i` selects its own sub-category or place, through a
      callback home is given, and the controller opens that sub-category's page or that place's
      detail page, keeping the other selection. */
  lemma HomeCardsSelectTheirItem(l: Listing, s: Navigation.NavState, i: nat)
    requires s.screen == Home
    requires i < CardCount(l)
    ensures var e := CardEvents(l)[i];
      && Navigation.Enabled(s, e)
      && (l.SubCategoryCards? ==>
            Navigation.Apply(s, e) == s.(screen := SubCategoryDetail, subCategoryId := Some(l.subCategories[i].id)))
      && (l.PlaceCards? ==>
            Navigation.Apply(s, e) == s.(screen := Detail, placeId := Some(l.places[i].id)))
  {
  }

  /** `(prev + 1) % HERO_IMAGES.length`: the next slideshow index, always a valid image index. */
  function NextHeroIndex(i: nat): (j: nat)
    ensures j < HeroImageCount
    ensures i + 1 < HeroImageCount ==> j == i + 1
    ensures i + 1 == HeroImageCount ==> j == 0
  {
    (i + 1) % HeroImageCount
  }

  /** The index after `k` ticks of the interval. */
  function HeroIndexAfter(i: nat, k: nat): nat
    decreases k
  {
    if k == 0 then i else NextHeroIndex(HeroIndexAfter(i, k - 1))
  }

  lemma {:induction false} HeroIndexAfterTicks(i: nat, k: nat)
    requires i < HeroImageCount
    ensures HeroIndexAfter(i, k) == (i + k) % HeroImageCount
    decreases k
  {
    if k > 0 {
      HeroIndexAfterTicks(i, k - 1);
    }
  }

  /** The slideshow returns to its image after three ticks and shows every image within three ticks. */
  lemma HeroRotationCycles(i: nat, j: nat)
    requires i < HeroImageCount && j < HeroImageCount
    ensures HeroIndexAfter(i, HeroImageCount) == i
    ensures HeroIndexAfter(i, (j + HeroImageCount - i) % HeroImageCount) == j
  {
    HeroIndexAfterTicks(i, HeroImageCount);
    HeroIndexAfterTicks(i, (j + HeroImageCount - i) % HeroImageCount);
  }

  /** The screen's own state: the active category, the side menu, and the slideshow index. */
  class HomeScreenState {
    var activeCategory: Option<string>
    var isMenuOpen: bool
    var currentImageIndex: nat

    ghost predicate Valid()
      reads this
    {
      currentImageIndex < HeroImageCount
    }

    constructor ()
      ensures Valid()
      ensures activeCategory == None && !isMenuOpen && currentImageIndex == 0
    {
      activeCategory := None;
      isMenuOpen := false;
      currentImageIndex := 0;
    }

    /** `handleCategoryClick(e, catId)`: toggles the category and always closes the menu. */
    method HandleCategoryClick(catId: string)
      requires Valid()
      modifies this
      ensures Valid()
      ensures activeCategory == ToggleCategory(old(activeCategory), catId)
      ensures !isMenuOpen && currentImageIndex == old(currentImageIndex)
    {
      activeCategory := if activeCategory == Some(catId) then None else Some(catId);
      isMenuOpen := false;
    }

    /** The menu button. */
    method OpenMenu()
      modifies this`isMenuOpen
      ensures isMenuOpen
    {
      isMenuOpen := true;
    }

    /** The backdrop and the close button of the menu. */
    method CloseMenu()
      modifies this`isMenuOpen
      ensures !isMenuOpen
    {
      isMenuOpen := false;
    }

    /** One tick of the slideshow interval. */
    method AdvanceHero()
      modifies this`currentImageIndex
      ensures Valid()
      ensures currentImageIndex == NextHeroIndex(old(currentImageIndex))
    {
      currentImageIndex := (currentImageIndex + 1) % HeroImageCount;
    }

    /** The list the screen renders in its current state. */
    function CurrentListing(places: seq<Place>, subCategories: seq<SubCategoryData>): Listing
      reads this
    {
      ListingOf(places, subCategories, activeCategory)
    }
  }
}
