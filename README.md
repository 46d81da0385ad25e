# Edirne city guide: a Dafny model of its navigation and display rules, with proofs

The guide is a React single-page app for visitors to Edirne. It has a home screen of categories and places, a page per sub-category, a detail page per place, a long-form page that can read itself aloud, a three-page onboarding carousel, and a mock authentication and data service. This project models the logic behind those screens in Dafny:

- **App controller** (`Navigation`). It holds the current screen and the selected place and sub-category. It has four handlers that change them. `goBack` looks at the selection instead of popping a stack.
  - The class `Navigator` keeps the three fields. A pure transition function `Apply` specifies each method.
  - The callbacks each rendered screen receives decide which handler calls are possible. Under that wiring, every reachable state has consistent selections.
- **Home screen** (`HomeScreen`). It covers:
  - the category toggle and the choice between a sub-category step and a place list;
  - the category filters and the rating sort;
  - the count line, the placeholders and the hero slideshow index.

  `AppHomeScreen` is the older inline variant in App.tsx, with contrast lemmas.

  App.tsx does not import the files under screens/. It defines and renders its own inline copies of the home, sub-category, detail and long-form screens (App.tsx:203, App.tsx:610, App.tsx:699, App.tsx:845).
  - The modules above follow the screens/ files.
  - The inline home differs in its listing, so `AppHomeScreen` models it separately.
  - The other three inline copies look up their record the same way, and render nothing on a miss (App.tsx:622, App.tsx:702, App.tsx:847).
- **Sub-category page, detail page, long-form page** (`SubCategoryDetailScreen`, `DetailScreen`, `ExtendedDetailScreen`). They look things up by id and decide what is rendered: stat cards, the specialty text, the "more info" button and the section headings. The long-form page also models the text read aloud, the voice choice and the speaking flag.
- **Onboarding carousel** (`OnboardingScreen`). A step counter that advances or finishes.
- **Services** (`AuthService`, `ApiService`). The results of login, signup and the five data queries, without their delays.
- **JavaScript semantics** (`JsValues`, `JsArrays`, `JsStrings`):
  - `Option` stands for `null` and `undefined`;
  - truthiness treats `""` as falsy;
  - `===` between `undefined` and `null` never matches;
  - `filter`, `find` and a stable `sort` on arrays;
  - `includes`, `split` and `join` on strings.
- **`Types`** holds the records. **`Fixtures`** holds a few cut-down records of the fixture data, with concrete scenarios.

Ratings are integers in tenths (4.9 is 49). The modelled rules only compare ratings, so this scaling keeps their order. The rating number the cards display is not modelled.

The sort is `[...xs].sort((a, b) => b.rating - a.rating)`, and ECMAScript 2019 requires `Array.prototype.sort` to be stable. It is modelled as a stable insertion sort. `JsArrays.SortDescendingIsTheStableSort` proves that every non-increasing arrangement that keeps each group of equal ratings in order equals the model's result. So the model agrees with whatever stable sort the engine uses.

Three behaviours of the code are worth knowing:

- **Back navigation.** `goBack` tests the sub-category id for truthiness. So back from a place returns to its sub-category only when the id is non-empty, and an empty id goes back home (`Navigation.EmptySubCategoryIdIsForgottenOnBack`).
- **Clicking a category twice.** This restores the previous selection only from none or from that same category. From any other category it ends with none (`HomeScreen.ToggleTwice`).
- **Record fields.** The `Place` interface in types.ts declares neither `cuisine`, `specialty` and `atmosphere`, nor the `User`, `CategoryData` and `SubCategoryData` records. The screens and services use all of them, so the model has them.

## Model

| member | source | states |
|---|---|---|
| Navigation.Navigator.constructor | App.tsx:39-41 | the controller starts on `home` with no place and no sub-category selected |
| Navigation.Navigator.NavigateToDetail | App.tsx:88-91 | screen becomes `detail`, the place id becomes the argument, the sub-category selection is kept; the new state is `Apply(old, SelectPlace(id))` |
| Navigation.Navigator.NavigateToExtendedDetail | App.tsx:93-95 | from any screen: screen becomes `extendedDetail`, both selections kept |
| Navigation.Navigator.NavigateToSubCategoryDetail | App.tsx:97-100 | screen becomes `subCategoryDetail`, the sub-category id becomes the argument, the place selection is kept |
| Navigation.Navigator.GoBack | App.tsx:102-116 | extendedDetail→detail with selections kept; detail→subCategoryDetail when the sub-category id is truthy, else home, clearing the place; subCategoryDetail→home clearing the sub-category; home and `subCategory` unchanged |
| Navigation.ViewOf | App.tsx:144-167 | the component rendered per screen: each of home, subCategoryDetail, detail is rendered exactly on its screen, and the extended page exactly on `extendedDetail` or `subCategory` |
| Navigation.Offers | App.tsx:144-167 | the callbacks each component is given: back on every view except home, "more info" exactly on detail, place selection exactly on home and the sub-category page, sub-category selection exactly on home; an over-approximation of what a page can raise, see "## Left out" |
| Navigation.Enabled | App.tsx:144-167 | the same wiring per screen: back on every screen except `home`, "more info" exactly on `detail`, place selection exactly on `home` and `subCategoryDetail`, sub-category selection exactly on `home` |
| Navigation.Apply | App.tsx:88-116 | the state each handler leaves; the `Navigator` methods are proved to produce it, and the consistency and round-trip lemmas above are stated over it |
| Navigation.StepPreservesConsistency | App.tsx:88-116 | every callback that the shown screen offers keeps the selection invariant |
| Navigation.RunPreservesConsistency | App.tsx:88-116 | the invariant holds after any sequence of offered callbacks |
| Navigation.ReachableStatesAreConsistent | App.tsx:144-167 | from the start, through offered callbacks only: no place on home or the sub-category screen, a place on both detail screens, a null or empty sub-category id on home, never the `subCategory` screen |
| Navigation.InitialIsConsistent | App.tsx:39-41 | the initial state satisfies the invariant |
| Navigation.ExtendedDetailIsEnteredFromDetail | App.tsx:156-161 | the extended page is entered only from detail, by "more info", keeping the place |
| Navigation.MoreInfoThenBackRestores | App.tsx:93-95 | "more info" then back returns to the same detail state |
| Navigation.PlaceFromHomeThenBackRestores | App.tsx:105-111 | opening a place from home and going back restores the home state |
| Navigation.PlaceFromSubCategoryThenBackRestores | App.tsx:105-111 | opening a place from a sub-category with a non-empty id and going back restores that sub-category screen |
| Navigation.EmptySubCategoryIdIsForgottenOnBack | App.tsx:106 | with an empty sub-category id, back from its place leads home |
| Navigation.SubCategoryFromHomeThenBackClears | App.tsx:112-114 | opening a sub-category from home and going back clears both selections |
| HomeScreen.ToggleCategory | screens/HomeScreen.tsx:52 | the result is null exactly when the clicked category was active, and is the clicked category otherwise |
| HomeScreen.ToggleTwice | screens/HomeScreen.tsx:52 | two clicks on a category give back the previous value exactly when it was null or that category, and null otherwise |
| HomeScreen.HomeScreenState.HandleCategoryClick | screens/HomeScreen.tsx:50-54 | the active category is toggled, the menu is closed, the slideshow index is kept |
| HomeScreen.HomeScreenState.OpenMenu | screens/HomeScreen.tsx:208 | the menu is open |
| HomeScreen.HomeScreenState.CloseMenu | screens/HomeScreen.tsx:88-116 | the menu is closed |
| HomeScreen.HomeScreenState.AdvanceHero | screens/HomeScreen.tsx:43-48 | one tick sets the index to `(prev + 1) % 3`, always a valid image index |
| HomeScreen.HomeScreenState.constructor | screens/HomeScreen.tsx:30-33 | no category, menu closed, first image |
| HomeScreen.FilteredPlaces | screens/HomeScreen.tsx:60-62 | every place while no (or an empty) category is active; otherwise exactly the places of that category, each as often as listed, in original order |
| HomeScreen.SortedPlaces | screens/HomeScreen.tsx:65 | a permutation of the filtered places, non-increasing by rating, with every group of equal ratings in original order |
| HomeScreen.FilteredSubCategories | screens/HomeScreen.tsx:68-70 | exactly the sub-categories of the active category, each as often as listed, in original order; none while no category is active |
| HomeScreen.Heading | screens/HomeScreen.tsx:278 | the active category, or "Popüler Mekanlar" when none is truthy |
| HomeScreen.ShowsSubCategories | screens/HomeScreen.tsx:57 | the sub-category step is shown for sightseeing and for food and drink; `ListingOf`, `FoodAndDrinkStepDiffers` and `PlainCategoryListsItsPlacesByRating` rely on it |
| HomeScreen.ListingOf | screens/HomeScreen.tsx:289-375 | the list section: sub-category cards or their placeholder on the sub-category step, otherwise the sorted place cards or their placeholder; `CountLabelMatchesListing` and `PlainCategoryListsItsPlacesByRating` state its properties |
| HomeScreen.CountLabelOf | screens/HomeScreen.tsx:281-284 | "N Kategori" on the sub-category step, "N Mekan Listelendi" otherwise; `CountLabelMatchesListing` proves N is the number of cards |
| HomeScreen.CardEvents | screens/HomeScreen.tsx:297-336 | one handler call per card shown; card `i` of a sub-category list selects that sub-category's id, card `i` of a place list that place's id |
| HomeScreen.CountLabelMatchesListing | screens/HomeScreen.tsx:281-372 | the number in the count line is the number of cards; the placeholder of the shown list appears exactly when it is zero |
| HomeScreen.PlainCategoryListsItsPlacesByRating | screens/HomeScreen.tsx:57-65 | for a category without a sub-category step, the list is exactly its places sorted stably by rating, or the placeholder exactly when there are none |
| HomeScreen.HomeCardsSelectTheirItem | App.tsx:88-100 | from the home screen, card `i`'s handler call is enabled and opens the page of its own sub-category or the detail page of its own place, the other selection kept |
| HomeScreen.HomeCardsRaiseOfferedEvents | App.tsx:145-147 | every card of the home screen calls a handler the controller gives the home screen |
| HomeScreen.FilterOfOneCategoryKeepsAll | screens/HomeScreen.tsx:62 | when all places are of the active category, the filter keeps them all |
| HomeScreen.NextHeroIndex | screens/HomeScreen.tsx:45 | the next index is below 3, the successor below the last image, and 0 after it |
| HomeScreen.HeroIndexAfterTicks | screens/HomeScreen.tsx:43-46 | after `k` ticks the index is `(i + k) % 3` |
| HomeScreen.HeroRotationCycles | screens/HomeScreen.tsx:45 | the slideshow returns to its image after three ticks and reaches every image within three ticks |
| AppHomeScreen.LegacyCountLabelMatchesListing | App.tsx:441-531 | in the older screen the count equals the cards; the sub-category step has no placeholder; the place placeholder shows exactly when no place matches |
| AppHomeScreen.LegacyShowsSubCategories | App.tsx:238 | the older screen has a sub-category step for sightseeing only; `FoodAndDrinkStepDiffers` contrasts it with the newer one |
| AppHomeScreen.LegacyListingOf | App.tsx:451-534 | every sub-category unfiltered on sightseeing, otherwise the unsorted filtered places or the placeholder; `PlaceListsAgreeUpToSort` and `SightseeingStepDiffers` relate it to the newer list |
| AppHomeScreen.LegacyCountLabelOf | App.tsx:441-445 | the count of all sub-categories or of the filtered places; `LegacyCountLabelMatchesListing` proves it is the number of cards |
| AppHomeScreen.SightseeingStepDiffers | App.tsx:451-453 | the older screen lists every sub-category for sightseeing; both screens show the same list exactly when there is at least one sub-category and all are sightseeing ones; with none, only the newer screen shows its placeholder |
| AppHomeScreen.FoodAndDrinkStepDiffers | App.tsx:238 | food and drink has a sub-category step only in the newer screen |
| AppHomeScreen.PlaceListsAgreeUpToSort | App.tsx:240-242 | elsewhere both screens list the same places, the newer one sorted stably by rating |
| SubCategoryDetailScreen.FindSubCategory | screens/SubCategoryDetailScreen.tsx:21 | the first sub-category whose id equals the selection; none for a null selection or a miss |
| SubCategoryDetailScreen.PlacesOf | screens/SubCategoryDetailScreen.tsx:22 | exactly the places filed under that sub-category, each as often as listed, in original order; no place at all for a null id |
| SubCategoryDetailScreen.CardEvents | screens/SubCategoryDetailScreen.tsx:56-60 | one handler call per card shown, none when nothing is rendered |
| SubCategoryDetailScreen.RenderMatchesLookup | screens/SubCategoryDetailScreen.tsx:21-94 | renders nothing exactly on a miss; otherwise the header is that sub-category, the count equals the places listed, and the placeholder shows exactly when there are none |
| SubCategoryDetailScreen.RenderOf | screens/SubCategoryDetailScreen.tsx:21-94 | nothing on a lookup miss, otherwise header, count, cards and placeholder; `RenderMatchesLookup` states its properties |
| SubCategoryDetailScreen.CardsSelectTheirPlace | screens/SubCategoryDetailScreen.tsx:60 | on any rendered page, every card selects its own place through a callback this screen receives and opens detail keeping the sub-category |
| DetailScreen.FindPlace | screens/DetailScreen.tsx:20 | the first place with the selected id; none for a null selection or a miss |
| DetailScreen.FindPlaceOfListedPlace | screens/DetailScreen.tsx:20 | with unique ids, the lookup of a listed place's id finds that place |
| DetailScreen.CardIfTruthy | components/InfoCard.tsx:11 | a card exactly for a truthy value, showing that value |
| DetailScreen.StatCards | screens/DetailScreen.tsx:75-104 | the stat cards are exactly the layout's labels whose field is truthy, each with its field's value, each label at most once, in grid order: atmosphere and hours for food; architect, year, hours and fee for landmarks |
| DetailScreen.LayoutLabels | screens/DetailScreen.tsx:75-104 | the card labels of the food and the landmark grid, in grid order; `StatCards` is stated over them |
| DetailScreen.SpecialtyText | screens/DetailScreen.tsx:92 | a truthy specialty with every comma replaced by comma and space; "Belirtilmemiş" otherwise |
| DetailScreen.ReplacedCommasAreSpaced | screens/DetailScreen.tsx:92 | after reformatting every comma is followed by a space |
| DetailScreen.SpecialtyWithoutCommaIsUnchanged | screens/DetailScreen.tsx:92 | a specialty without commas is shown as it is |
| DetailScreen.SpacedItemsGetTwoSpaces | screens/DetailScreen.tsx:92 | items already separated by comma and space are shown with two spaces |
| DetailScreen.MoreInfoSubtitle | screens/DetailScreen.tsx:127 | the food subtitle exactly for food places, the landmark subtitle exactly otherwise |
| DetailScreen.ShowsMoreInfo | screens/DetailScreen.tsx:116 | the "more info" button shows when history or architecture is truthy; `RenderMatchesPlace` proves the page carries the button exactly then |
| DetailScreen.RenderOf | screens/DetailScreen.tsx:20-127 | nothing on a lookup miss, otherwise the page's layout decisions; `RenderMatchesPlace` states its properties |
| DetailScreen.PageRaises | screens/DetailScreen.tsx:22-122 | a rendered page raises back and "more info" only, both in the detail view's wiring; a page that renders nothing raises nothing, and without the button there is no "more info" |
| DetailScreen.RenderMatchesPlace | screens/DetailScreen.tsx:20-127 | renders nothing exactly on a miss; otherwise shows that place, food layout exactly for "Yeme & İçme", the specialty card exactly on food places, the button exactly when history or architecture is truthy; it only raises back and "more info" |
| ExtendedDetailScreen.RenderOf | screens/ExtendedDetailScreen.tsx:18-30 | renders nothing exactly when the lookup misses, otherwise the place found |
| ExtendedDetailScreen.SameLookupAsDetail | screens/ExtendedDetailScreen.tsx:18 | the long-form page and the detail page render for the same ids and show the same place |
| ExtendedDetailScreen.SectionsOf | screens/ExtendedDetailScreen.tsx:132-172 | a history, architecture or legends section exactly when that field is truthy, under its layout's heading; nothing else, each heading at most once, in page order |
| ExtendedDetailScreen.VisitingLabel | screens/ExtendedDetailScreen.tsx:113 | "Açık" exactly for food places, "Ziyaret" exactly otherwise |
| ExtendedDetailScreen.HistoryHeading | screens/ExtendedDetailScreen.tsx:133-136 | "Hikayemiz" for food places, "Tarihçe" otherwise; `SpokenPrefixesFollowHeadings` relates it to the spoken prefix |
| ExtendedDetailScreen.ArchitectureHeading | screens/ExtendedDetailScreen.tsx:146-149 | "Lezzet Sırları" for food places, "Mimari Özellikler" otherwise |
| ExtendedDetailScreen.LegendsHeading | screens/ExtendedDetailScreen.tsx:161-164 | "Menüden Seçmeler" for food places, "Efsaneler & Hikayeler" otherwise |
| ExtendedDetailScreen.VisitingChips | screens/ExtendedDetailScreen.tsx:116-127 | the chips are exactly the truthy hours and fee, one chip per truthy field, hours first |
| ExtendedDetailScreen.SpokenPart | screens/ExtendedDetailScreen.tsx:44-46 | the prefixed field when it is truthy, empty otherwise |
| ExtendedDetailScreen.SpokenLines | screens/ExtendedDetailScreen.tsx:42-47 | six lines, the first empty |
| ExtendedDetailScreen.HistoryPrefix | screens/ExtendedDetailScreen.tsx:44 | the spoken history prefix of each layout; `SpokenPrefixesFollowHeadings` proves it is the heading and a full stop |
| ExtendedDetailScreen.ArchitecturePrefix | screens/ExtendedDetailScreen.tsx:45 | the spoken architecture prefix of each layout, also its heading and a full stop |
| ExtendedDetailScreen.LegendsPrefix | screens/ExtendedDetailScreen.tsx:46 | the spoken legends prefix; it matches its heading only for food places |
| ExtendedDetailScreen.SpokenText | screens/ExtendedDetailScreen.tsx:42-47 | the template literal as its lines joined by line breaks; `SpokenTextLines` and `SpokenTextContainsTitle` state its content |
| ExtendedDetailScreen.SpokenTextContainsTitle | screens/ExtendedDetailScreen.tsx:43 | the text read aloud contains the title |
| ExtendedDetailScreen.SpokenTextLines | screens/ExtendedDetailScreen.tsx:42-47 | for single-line texts, the text's lines are the title line and one line per part: the prefixed field exactly when truthy, bare indentation otherwise |
| ExtendedDetailScreen.SpokenPrefixesFollowHeadings | screens/ExtendedDetailScreen.tsx:44-164 | the spoken history and architecture prefixes are their headings; the legends prefix is its heading only for food places |
| ExtendedDetailScreen.ChooseVoice | screens/ExtendedDetailScreen.tsx:54-55 | the first Turkish voice named Female, Kadın or Yelda; failing that the first Turkish voice; none exactly when no voice is Turkish |
| ExtendedDetailScreen.UtteranceFor | screens/ExtendedDetailScreen.tsx:49-62 | the utterance carries the spoken text, the chosen voice, language "tr-TR" and rate 0.9 |
| ExtendedDetailScreen.TwoPressesRestoreTheFlag | screens/ExtendedDetailScreen.tsx:36-68 | two presses with speech support restore the flag; without support it never moves |
| ExtendedDetailScreen.SpeakingAfterPress | screens/ExtendedDetailScreen.tsx:36-68 | the speaking flag after a press: flipped with support, kept without; `TwoPressesRestoreTheFlag` proves two presses restore it |
| ExtendedDetailScreen.SpeechControl.constructor | screens/ExtendedDetailScreen.tsx:17 | not speaking at first |
| ExtendedDetailScreen.SpeechControl.HandleSpeak | screens/ExtendedDetailScreen.tsx:35-73 | without support: alert, flag kept; speaking: cancel and stop; otherwise speak the page's utterance and set the flag |
| ExtendedDetailScreen.SpeechControl.OnEnd | screens/ExtendedDetailScreen.tsx:64 | the flag is reset |
| ExtendedDetailScreen.SpeechControl.OnError | screens/ExtendedDetailScreen.tsx:65 | the flag is reset |
| ExtendedDetailScreen.SpeechControl.ButtonLabel | screens/ExtendedDetailScreen.tsx:98 | "Durdur" exactly while speaking, "Sesli Dinle" exactly otherwise |
| OnboardingScreen.NextStep | screens/OnboardingScreen.tsx:30-36 | below the last page the step advances by one; on the last page it stays |
| OnboardingScreen.StepAfterPresses | screens/OnboardingScreen.tsx:30-36 | after `k` presses from the start the step is `min(k, 2)`, always a page index |
| OnboardingScreen.FinishesFromTheThirdPress | screens/OnboardingScreen.tsx:31-35 | a press finishes exactly when at least two presses came before it |
| OnboardingScreen.ButtonLabel | screens/OnboardingScreen.tsx:89 | "Başlayalım" exactly on the last page, "Devam Et" exactly elsewhere |
| OnboardingScreen.Indicators | screens/OnboardingScreen.tsx:76-79 | one indicator per page title; the current page's is highlighted and no other |
| OnboardingScreen.ExactlyOneIndicator | screens/OnboardingScreen.tsx:76-79 | among the drawn indicators exactly one is highlighted on every page, counted as the multiplicity of "highlighted" in the list |
| OnboardingScreen.Onboarding.constructor | screens/OnboardingScreen.tsx:10 | the carousel starts on page 0 |
| OnboardingScreen.Onboarding.HandleNext | screens/OnboardingScreen.tsx:30-36 | finishes exactly on the last page, otherwise advances; the step stays a page index |
| OnboardingScreen.Onboarding.Skip | screens/OnboardingScreen.tsx:54 | skip finishes from any page |
| OnboardingScreen.Onboarding.CurrentTitle | screens/OnboardingScreen.tsx:67 | the title shown is one of the three page titles |
| AuthService.Login | services/auth.ts:5-24 | resolves exactly when email and password are both non-empty, with user u1 "Mert Yılmaz", the given email, the demo avatar and stats 12/5/8; otherwise rejects with "Giriş başarısız" |
| AuthService.Signup | services/auth.ts:26-37 | always resolves with user u2 under the given name and email, no avatar, stats all zero |
| AuthService.PasswordIsOnlyChecked | services/auth.ts:5-27 | login depends on the password only through it being non-empty; signup ignores it |
| AuthService.LoginAndSignupUsersDiffer | services/auth.ts:10-30 | a logged-in user and a signed-up user have different ids |
| ApiService.GetCategories | services/api.ts:13-17 | the category collection, unchanged |
| ApiService.GetSubCategories | services/api.ts:22-26 | the sub-category collection, unchanged |
| ApiService.GetPlaces | services/api.ts:31-35 | the place collection, unchanged |
| ApiService.GetPlacesByCategory | services/api.ts:40-46 | exactly the places of that category, each as often as in the collection, as a subsequence |
| ApiService.GetPlaceDetail | services/api.ts:50-56 | the first place with the id, or undefined exactly when none has it |
| ApiService.PlacesByCategoryIsHomeFilter | services/api.ts:43 | for a non-empty category the service's filter equals the home screen's |
| ApiService.ListedPlacesHaveDetails | services/api.ts:43-53 | with unique ids, every place the category query lists is found by the detail query |
| Types.IsFoodPlace | screens/DetailScreen.tsx:25 | the food layout is chosen exactly for the category "Yeme & İçme" (also ExtendedDetailScreen.tsx:32), never for sightseeing |
| JsValues.Option.OrElse | screens/ExtendedDetailScreen.tsx:54-55 | `a \|\| b` on object-or-undefined: the first when present, else the second |
| JsValues.OrDefault | screens/HomeScreen.tsx:278 | `s ? s : fallback`: the value when truthy, the fallback otherwise |
| JsArrays.Filter | screens/HomeScreen.tsx:62 | `filter`: only elements that pass, every element that passes with all its occurrences, in original order |
| JsArrays.FilterCons | screens/HomeScreen.tsx:62 | unfolding the filter on a known first element |
| JsArrays.FilterKeepsAll | screens/HomeScreen.tsx:62 | a filter every element passes keeps the sequence |
| JsArrays.FilterExtensional | services/api.ts:43 | filters with agreeing tests agree |
| JsArrays.Find | screens/DetailScreen.tsx:20 | `find`: undefined exactly when nothing passes, otherwise the first element that passes |
| JsArrays.WithKeyMembers | screens/HomeScreen.tsx:65 | the group of a key holds only elements of that key |
| JsArrays.WithKeyIsFilter | screens/HomeScreen.tsx:65 | the group of a key is the filter by that key |
| JsArrays.Insert | screens/HomeScreen.tsx:65 | insertion keeps the elements, adds one, and keeps the order non-increasing |
| JsArrays.InsertIsStable | screens/HomeScreen.tsx:65 | the inserted element goes before the others of its key |
| JsArrays.SortDescending | screens/HomeScreen.tsx:65 | a permutation, non-increasing by key, with every group of equal keys in original order |
| JsArrays.StableSortIsUnique | screens/HomeScreen.tsx:65 | two non-increasing arrangements with the same groups are equal |
| JsArrays.SortDescendingIsTheStableSort | screens/HomeScreen.tsx:65 | every stable non-increasing arrangement of the input is the model's result |
| JsStrings.Includes | screens/ExtendedDetailScreen.tsx:54-55 | `includes`: true exactly when the needle occurs at some index |
| JsStrings.IncludesItself | screens/ExtendedDetailScreen.tsx:43 | a string occurs in any string built around it |
| JsStrings.Split | screens/DetailScreen.tsx:92 | `split` on one character: at least one piece, none containing the separator |
| JsStrings.JoinSplitReplaces | screens/DetailScreen.tsx:92 | split then join with a delimiter replaces every separator by the delimiter |
| JsStrings.JoinSplitRoundTrip | screens/DetailScreen.tsx:92 | joining the pieces with the separator gives back the string |
| JsStrings.SplitJoinRoundTrip | screens/ExtendedDetailScreen.tsx:42-47 | splitting a join of separator-free pieces gives the pieces back |
| JsStrings.SplitAtSeparator | screens/ExtendedDetailScreen.tsx:42-47 | splitting at a separator splits both sides independently |
| JsStrings.SplitWithoutSeparator | screens/DetailScreen.tsx:92 | a string without the separator splits into itself |
| JsStrings.ReplaceAllAppend | screens/DetailScreen.tsx:92 | replacing in a concatenation replaces in each side |
| JsStrings.ReplaceAllAbsent | screens/DetailScreen.tsx:92 | a string without the character is left alone |
| Fixtures.FoodPlacesByRating | screens/HomeScreen.tsx:60-65 | the rating sort orders the food and drink fixtures as Keçecizade, Niyazi Usta, Aydın, Protokol Evi |
| Fixtures.LiverSubCategory | screens/SubCategoryDetailScreen.tsx:22 | the "ciger" sub-category lists the two liver restaurants in fixture order |
| Fixtures.BrowseAndReturn | App.tsx:88-167 | sub-category, place, more info and three backs: every step offered, ending at the start |

## Left out

- Drag-to-scroll (App.tsx, components/HorizontalScrollSlider.tsx): mouse input with a fractional multiplier. The slider's click guard while dragging is not modelled either.
- Collapsing-header height and opacity: floating-point and cosmetic only.
- The effect that scrolls back to the top on every screen change: a DOM side effect.
- Timers and promises. The delays of services/api.ts and services/auth.ts, and the slideshow's 8-second period, are left out. Each service call is modelled by the value it settles with, and the slideshow by one tick.
- `window.speechSynthesis`:
  - Its presence is the `supported` parameter of `HandleSpeak`.
  - The available voices are the `voices` parameter.
  - `speak` and `cancel` are the `SpeakOutcome` that `HandleSpeak` returns.
  - Loading voices on mount and cancelling on unmount or on back are not modelled.
  - The alert text is not modelled.
- The search field's open and closed state: it has no effect on the lists.
- The login, signup and profile screens: form glue around the auth service, with a loading flag, alerts and a mock Google user. The routing to them and to logout is not part of App.tsx, so it is not part of this model.
- Pure markup components: the bottom navigation bar, NavIcon, CodeBlock, FileTree, and the layout of every screen.
- ExtendedDetailScreen.SpokenTextLines: stated for titles and texts without line breaks, because a line break inside a field would split its line. The text itself is modelled for every input.
- Fixtures: the records keep only id, title, category, sub-category, rating, hours, atmosphere and specialty. Their long texts are left empty.
- Ratings are integers in tenths rather than JavaScript numbers. The comparator only needs their order.
- The rating number shown on the place cards and the detail page (screens/HomeScreen.tsx, screens/SubCategoryDetailScreen.tsx, screens/DetailScreen.tsx) is display markup and is not modelled.
- The inline sub-category, detail and long-form screens of App.tsx (App.tsx:610-934): only their lookups and their null render are modelled, through the screens/ modules. Their markup differs from the screens/ files and is not modelled.
- Navigation.Offers: over-approximates what a page raises. The detail, extended detail and sub-category pages return `null` when their lookup misses (screens/DetailScreen.tsx:22, screens/ExtendedDetailScreen.tsx:30, screens/SubCategoryDetailScreen.tsx:24, and the inline copies that App.tsx renders at App.tsx:702, App.tsx:847, App.tsx:622), so there is no back button and the user stays on a blank screen. The detail page has no "more info" button when history and architecture are both falsy. The model still offers back and "more info" on those views. The consistency invariants hold for the larger set, so they also hold for the events really raised. `DetailScreen.PageRaises` states which events the detail page really raises. The blank screen with no way back is not recorded.
- None of the modelled queries changes a collection. All data is immutable values in the model, so this holds trivially rather than by proof.
