/** The records the guide works on (types.ts), with the fields the screens read. */
module Types {
  import opened JsValues

  /** A point of interest. Ratings are kept in tenths (4.9 is 49): the modelled rules only compare
      them, and the number the cards display is not modelled.
      `cuisine`, `specialty` and `atmosphere` are read by the screens and set by the fixtures although
      the `Place` interface does not declare them. */
  datatype Place = Place(
    id: string,
    title: string,
    category: string,
    subCategoryId: Option<string>,
    image: string,
    rating: int,
    location: string,
    description: string,
    architect: Option<string>,
    year: Option<string>,
    tags: Option<seq<string>>,
    history: Option<string>,
    architecture: Option<string>,
    legends: Option<string>,
    visitingHours: Option<string>,
    entranceFee: Option<string>,
    cuisine: Option<string>,
    specialty: Option<string>,
    atmosphere: Option<string>)

  /** A top-level category; its `id` is also the key that places carry in `category`; `labelText` is the `label` shown under the icon, which is not modelled. */
  datatype CategoryData = CategoryData(id: string, labelText: string)

  /** A second-level category under the category `parentCategoryId`. */
  datatype SubCategoryData = SubCategoryData(
    id: string,
    parentCategoryId: string,
    title: string,
    description: string,
    image: string)

  datatype UserStats = UserStats(reviews: nat, favorites: nat, visited: nat)

  /** The signed-in user the auth service builds. */
  datatype User = User(id: string, name: string, email: string, avatar: Option<string>, stats: UserStats)

  /** The screen identifiers of the navigation state. `SubCategory` is declared but no handler ever sets it. */
  datatype Screen = Home | Detail | SubCategory | SubCategoryDetail | ExtendedDetail

  /** The category whose places are food and drink venues rather than landmarks. */
  const FoodAndDrink: string := "Yeme & İçme"

  /** The sightseeing category. */
  const Sightseeing: string := "Gezilecek Yerler"

  /** The rating as the sort key. */
  function Rating(p: Place): int {
    p.rating
  }

  /** `place.category === 'Yeme & İçme'`, which selects the food layout on both detail screens. */
  predicate IsFoodPlace(p: Place)
    ensures IsFoodPlace(p) <==> p.category == "Yeme & İçme"
    ensures IsFoodPlace(p) ==> p.category != Sightseeing
  {
    p.category == FoodAndDrink
  }
}
