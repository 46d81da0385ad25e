/** A few records of constants.ts, cut down to the fields the rules read (long texts are left
    empty), and what the screens make of them. Ratings are in tenths. */
module Fixtures {
  import opened JsValues
  import opened JsArrays
  import opened Types
  import HomeScreen
  import SubCategoryDetailScreen
  import DetailScreen
  import Navigation

  function FoodPlace(id: string, title: string, sub: string, rating: int, hours: string, atmosphere: string, specialty: string): Place {
    Place(id, title, FoodAndDrink, Some(sub), "", rating, "", "", None, None, None,
          None, None, None, Some(hours), None, None, Some(specialty), Some(atmosphere))
  }

  const C1: Place := FoodPlace("c1", "Ciğerci Niyazi Usta", "ciger", 48, "11:00 - 21:00", "Tarihi Esnaf Lokantası", "Tava Ciğer, Kara Biber Sosu, Piyaz, Cacık")
  const C2: Place := FoodPlace("c2", "Aydın Tava Ciğer", "ciger", 47, "11:00 - 20:00", "Salaş & Samimi", "Yaprak Ciğer, Acı Biber Turşusu, Ayran")
  const T1: Place := FoodPlace("t1", "Keçecizade", "tatli", 49, "09:00 - 21:00", "Nostaljik Pastane", "Badem Ezmesi, Kavala Kurabiyesi, Deva-i Misk Helvası, Lokum Çeşitleri")
  const K1: Place := FoodPlace("k1", "Protokol Evi", "mekan", 46, "08:00 - 00:00", "Nehir Manzaralı & Tarihi", "Serpme Kahvaltı, Semaver Çay, Gözleme, Tost")

  const FoodPlaces: seq<Place> := [C1, C2, T1, K1]


  lemma SortTail()
    ensures SortDescending([C2, T1, K1], Rating) == [T1, C2, K1]
  {
    assert [C2, T1, K1][1..] == [T1, K1];
    assert [T1, K1][1..] == [K1];
    assert SortDescending([K1], Rating) == [K1];
    assert SortDescending([T1, K1], Rating) == [T1, K1];
  }

  lemma InsertFirst()
    ensures Insert(C1, [T1, C2, K1], Rating) == [T1, C1, C2, K1]
  {
    assert [T1, C2, K1][1..] == [C2, K1];
  }

  /** The food and drink places, highest rating first: Keçecizade, Niyazi Usta, Aydın, Protokol Evi. */
  lemma FoodPlacesByRating()
    ensures HomeScreen.SortedPlaces(FoodPlaces, Some(FoodAndDrink)) == [T1, C1, C2, K1]
  {
    HomeScreen.FilterOfOneCategoryKeepsAll(FoodPlaces, FoodAndDrink);
    SortTail();
    InsertFirst();
    assert FoodPlaces[1..] == [C2, T1, K1];
  }

  /** Into the liver sub-category, open a restaurant, read more, and back out three times: every
      step is a callback of the screen then shown, and the end is the start. */
  lemma BrowseAndReturn()
    ensures var events := [Navigation.SelectSubCategory("ciger"), Navigation.SelectPlace("c1"),
                           Navigation.MoreInfo, Navigation.Back, Navigation.Back, Navigation.Back];
      && Navigation.AllEnabled(Navigation.Initial, events)
      && Navigation.Run(Navigation.Initial, events) == Navigation.Initial
  {
  }

  /** The sub-category test of the "ciger" screen, and the filter unfolded one record at a time. */
  function IsLiver(): Place -> bool {
    (p: Place) => StrictEqualsNullable(p.subCategoryId, Some("ciger"))
  }

  lemma LiverFilterFromK1()
    ensures Filter([K1], IsLiver()) == []
  {
    FilterCons(K1, [], IsLiver());
  }

  lemma LiverFilterFromT1()
    ensures Filter([T1, K1], IsLiver()) == []
  {
    LiverFilterFromK1();
    FilterCons(T1, [K1], IsLiver());
  }

  lemma LiverFilterFromC2()
    ensures Filter([C2, T1, K1], IsLiver()) == [C2]
  {
    LiverFilterFromT1();
    FilterCons(C2, [T1, K1], IsLiver());
  }

  /** The "ciger" sub-category lists the two liver restaurants, in their fixture order. */
  lemma LiverSubCategory()
    ensures SubCategoryDetailScreen.PlacesOf(FoodPlaces, Some("ciger")) == [C1, C2]
  {
    LiverFilterFromC2();
    FilterCons(C1, [C2, T1, K1], IsLiver());
  }
}
