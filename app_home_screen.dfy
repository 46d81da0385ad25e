/** The older home screen that App.tsx still defines inline: only the sightseeing category has a
    sub-category step, that step lists every sub-category unfiltered, and places are not sorted. */
module AppHomeScreen {
  import opened JsValues
  import opened JsArrays
  import opened Types
  import opened HomeScreen

  /** `isSightseeing`. */
  predicate LegacyShowsSubCategories(active: Option<string>) {
    active == Some(Sightseeing)
  }

  /** The list section: every sub-category when sightseeing is active (an empty list shows no
      placeholder), otherwise `filteredPlaces` in their original order or the placeholder. */
  function LegacyListingOf(places: seq<Place>, subCategories: seq<SubCategoryData>, active: Option<string>): Listing {
    if LegacyShowsSubCategories(active) then SubCategoryCards(subCategories)
    else
      var filtered := FilteredPlaces(places, active);
      if |filtered| > 0 then PlaceCards(filtered) else NoPlacesFound
  }

  /** `${SUB_CATEGORIES.length} Kategori` or `${filteredPlaces.length} Mekan Listelendi`. */
  function LegacyCountLabelOf(places: seq<Place>, subCategories: seq<SubCategoryData>, active: Option<string>): CountLabel {
    if LegacyShowsSubCategories(active) then CountLabel(|subCategories|, "Kategori")
    else CountLabel(|FilteredPlaces(places, active)|, "Mekan Listelendi")
  }

  /** The older count also equals the number of cards, and its place placeholder appears exactly
      when no place matches; the sub-category step never shows a placeholder. */
  lemma LegacyCountLabelMatchesListing(places: seq<Place>, subCategories: seq<SubCategoryData>, active: Option<string>)
    ensures LegacyCountLabelOf(places, subCategories, active).count == CardCount(LegacyListingOf(places, subCategories, active))
    ensures LegacyListingOf(places, subCategories, active) != NoSubCategoriesYet
    ensures LegacyListingOf(places, subCategories, active) == NoPlacesFound <==>
      !LegacyShowsSubCategories(active) && LegacyCountLabelOf(places, subCategories, active).count == 0
  {
  }

  /** Sightseeing: the newer screen shows only the sub-categories whose parent is sightseeing, the
      older one shows all of them, whatever their parent. The two agree exactly when there is at
      least one sub-category and every one is a sightseeing one; with no sub-categories only the
      newer screen shows its placeholder. */
  lemma SightseeingStepDiffers(places: seq<Place>, subCategories: seq<SubCategoryData>)
    ensures LegacyListingOf(places, subCategories, Some(Sightseeing)) == SubCategoryCards(subCategories)
    ensures ListingOf(places, subCategories, Some(Sightseeing)) == LegacyListingOf(places, subCategories, Some(Sightseeing)) <==>
      subCategories != [] && forall i :: 0 <= i < |subCategories| ==> subCategories[i].parentCategoryId == Sightseeing
    ensures subCategories == [] ==> ListingOf(places, subCategories, Some(Sightseeing)) == NoSubCategoriesYet
  {
    if forall i :: 0 <= i < |subCategories| ==> subCategories[i].parentCategoryId == Sightseeing {
      FilterKeepsAll(subCategories, (s: SubCategoryData) => s.parentCategoryId == Sightseeing);
    } else {
      var i :| 0 <= i < |subCategories| && subCategories[i].parentCategoryId != Sightseeing;
      assert subCategories[i] in subCategories;
      assert subCategories[i] !in FilteredSubCategories(subCategories, Some(Sightseeing));
    }
  }

  /** Food and drink: the newer screen opens the sub-category step, the older one lists the
      category's places directly. */
  lemma FoodAndDrinkStepDiffers(places: seq<Place>, subCategories: seq<SubCategoryData>)
    ensures !LegacyListingOf(places, subCategories, Some(FoodAndDrink)).SubCategoryCards?
    ensures ListingOf(places, subCategories, Some(FoodAndDrink)).SubCategoryCards? ||
            ListingOf(places, subCategories, Some(FoodAndDrink)) == NoSubCategoriesYet
  {
  }

  /** Elsewhere the two screens list the same places; the newer one is the stable rating sort of
      the older one's list. */
  lemma PlaceListsAgreeUpToSort(places: seq<Place>, subCategories: seq<SubCategoryData>, active: Option<string>)
    requires !ShowsSubCategories(active)
    ensures LegacyListingOf(places, subCategories, active) == NoPlacesFound <==>
            ListingOf(places, subCategories, active) == NoPlacesFound
    ensures LegacyListingOf(places, subCategories, active).PlaceCards? ==>
            ListingOf(places, subCategories, active).PlaceCards? &&
            ListingOf(places, subCategories, active).places ==
              SortDescending(LegacyListingOf(places, subCategories, active).places, Rating)
  {
    assert !LegacyShowsSubCategories(active);
    var filtered := FilteredPlaces(places, active);
    assert |SortedPlaces(places, active)| == |filtered| by {
      assert |multiset(SortedPlaces(places, active))| == |multiset(filtered)|;
    }
  }
}
