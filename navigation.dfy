/** The navigation controller of App.tsx: the current screen and the two selections, the four
    handlers that change them, and the callbacks each rendered screen wires to those handlers. */
module Navigation {
  import opened JsValues
  import opened Types

  /** The controller's three pieces of state, as a value. */
  datatype NavState = NavState(screen: Screen, placeId: Option<string>, subCategoryId: Option<string>)

  /** `useState('home')`, `useState(null)`, `useState(null)`. */
  const Initial: NavState := NavState(Home, None, None)

  /** A call of one of the four handlers. */
  datatype Event =
    | SelectPlace(id: string)          // navigateToDetail(id)
    | MoreInfo                         // navigateToExtendedDetail()
    | SelectSubCategory(id: string)    // navigateToSubCategoryDetail(id)
    | Back                             // goBack()

  /** The state after a handler runs. `goBack` is not a stack pop: from `detail` it looks at the
      sub-category selection, and on `home` or `subCategory` it does nothing. */
  function Apply(s: NavState, e: Event): NavState {
    match e
    case SelectPlace(id) => s.(screen := Detail, placeId := Some(id))
    case MoreInfo => s.(screen := ExtendedDetail)
    case SelectSubCategory(id) => s.(screen := SubCategoryDetail, subCategoryId := Some(id))
    case Back =>
      match s.screen
      case ExtendedDetail => s.(screen := Detail)
      case Detail => s.(screen := if IsTruthy(s.subCategoryId) then SubCategoryDetail else Home, placeId := None)
      case SubCategoryDetail => s.(screen := Home, subCategoryId := None)
      case _ => s
  }

  /** The screen component App renders. */
  datatype View = HomeView | SubCategoryDetailView | DetailView | ExtendedDetailView

  /** The chain of comparisons that picks the component: anything that is not `home`,
      `subCategoryDetail` or `detail`, including `subCategory`, renders the extended detail screen. */
  function ViewOf(screen: Screen): (v: View)
    ensures v == HomeView <==> screen == Home
    ensures v == SubCategoryDetailView <==> screen == SubCategoryDetail
    ensures v == DetailView <==> screen == Detail
    ensures v == ExtendedDetailView <==> (screen == ExtendedDetail || screen == SubCategory)
  {
    match screen
    case Home => HomeView
    case SubCategoryDetail => SubCategoryDetailView
    case Detail => DetailView
    case _ => ExtendedDetailView
  }

  /** The callbacks a rendered component is given: home gets place and sub-category selection,
      the sub-category screen gets back and place selection, detail gets back and "more info",
      extended detail gets back. */
  predicate Offers(v: View, e: Event)
    ensures e == Back ==> (Offers(v, e) <==> v != HomeView)
    ensures e == MoreInfo ==> (Offers(v, e) <==> v == DetailView)
    ensures e.SelectPlace? ==> (Offers(v, e) <==> v == HomeView || v == SubCategoryDetailView)
    ensures e.SelectSubCategory? ==> (Offers(v, e) <==> v == HomeView)
  {
    match v
    case HomeView => e.SelectPlace? || e.SelectSubCategory?
    case SubCategoryDetailView => e.Back? || e.SelectPlace?
    case DetailView => e.Back? || e.MoreInfo?
    case ExtendedDetailView => e.Back?
  }

  /** The event can be raised from the screen currently shown. */
  predicate Enabled(s: NavState, e: Event)
    ensures e == Back ==> (Enabled(s, e) <==> s.screen != Home)
    ensures e == MoreInfo ==> (Enabled(s, e) <==> s.screen == Detail)
    ensures e.SelectPlace? ==> (Enabled(s, e) <==> s.screen == Home || s.screen == SubCategoryDetail)
    ensures e.SelectSubCategory? ==> (Enabled(s, e) <==> s.screen == Home)
  {
    Offers(ViewOf(s.screen), e)
  }

  /** The state after a sequence of handler calls. */
  function Run(s: NavState, events: seq<Event>): NavState
    decreases |events|
  {
    if events == [] then s else Run(Apply(s, events[0]), events[1..])
  }

  /** Every event of the sequence is offered by the screen shown when it happens. */
  predicate AllEnabled(s: NavState, events: seq<Event>)
    decreases |events|
  {
    events == [] || (Enabled(s, events[0]) && AllEnabled(Apply(s, events[0]), events[1..]))
  }

  /** What the selections are on each screen the user can reach. */
  predicate SelectionConsistent(s: NavState) {
    && s.screen != SubCategory
    && (s.screen == Home ==> s.placeId.None? && !IsTruthy(s.subCategoryId))
    && (s.screen == SubCategoryDetail ==> s.placeId.None? && s.subCategoryId.Some?)
    && (s.screen == Detail || s.screen == ExtendedDetail ==> s.placeId.Some?)
  }

  lemma InitialIsConsistent()
    ensures SelectionConsistent(Initial)
  {
  }

  /** Each callback that the shown screen offers keeps the selections consistent. */
  lemma StepPreservesConsistency(s: NavState, e: Event)
    requires SelectionConsistent(s) && Enabled(s, e)
    ensures SelectionConsistent(Apply(s, e))
  {
    match e
    case SelectPlace(_) =>
    case MoreInfo =>
    case SelectSubCategory(_) =>
    case Back =>
  }

  lemma {:induction false} RunPreservesConsistency(s: NavState, events: seq<Event>)
    requires SelectionConsistent(s) && AllEnabled(s, events)
    ensures SelectionConsistent(Run(s, events))
    decreases |events|
  {
    if events != [] {
      StepPreservesConsistency(s, events[0]);
      RunPreservesConsistency(Apply(s, events[0]), events[1..]);
    }
  }

  /** On every state reachable from the start through offered callbacks: no place is selected on
      home or on the sub-category screen, a place is selected on both detail screens, the home
      screen's sub-category id is null or empty, and `subCategory` is never the current screen. */
  lemma ReachableStatesAreConsistent(events: seq<Event>)
    requires AllEnabled(Initial, events)
    ensures SelectionConsistent(Run(Initial, events))
  {
    InitialIsConsistent();
    RunPreservesConsistency(Initial, events);
  }

  /** The extended detail screen is entered only from detail, by "more info", and keeps the place. */
  lemma ExtendedDetailIsEnteredFromDetail(s: NavState, e: Event)
    requires SelectionConsistent(s) && Enabled(s, e)
    requires s.screen != ExtendedDetail && Apply(s, e).screen == ExtendedDetail
    ensures s.screen == Detail && e == MoreInfo && Apply(s, e).placeId == s.placeId
  {
  }

  /** "More info" then back returns to the very same detail state. */
  lemma MoreInfoThenBackRestores(s: NavState)
    requires s.screen == Detail
    ensures Apply(Apply(s, MoreInfo), Back) == s
  {
  }

  /** Opening a place from home and going back restores the home state. */
  lemma PlaceFromHomeThenBackRestores(s: NavState, id: string)
    requires SelectionConsistent(s) && s.screen == Home
    ensures Apply(Apply(s, SelectPlace(id)), Back) == s
  {
  }

  /** Opening a place from a sub-category with a non-empty id and going back returns to that
      sub-category screen with the same selections. */
  lemma PlaceFromSubCategoryThenBackRestores(s: NavState, id: string)
    requires SelectionConsistent(s) && s.screen == SubCategoryDetail && IsTruthy(s.subCategoryId)
    ensures Apply(Apply(s, SelectPlace(id)), Back) == s
  {
  }

  /** The back target is decided by truthiness: a sub-category whose id is the empty string is
      forgotten on the way back, and back from its places leads home. */
  lemma EmptySubCategoryIdIsForgottenOnBack(s: NavState, id: string)
    requires s.screen == SubCategoryDetail && s.subCategoryId == Some("")
    ensures Apply(Apply(s, SelectPlace(id)), Back).screen == Home
  {
  }

  /** Opening a sub-category from home and going back clears both selections. */
  lemma SubCategoryFromHomeThenBackClears(s: NavState, id: string)
    requires SelectionConsistent(s) && s.screen == Home
    ensures Apply(Apply(s, SelectSubCategory(id)), Back) == Initial
  {
  }

  /** The controller itself: three fields overwritten by the handlers. */
  class Navigator {
    var currentScreen: Screen
    var selectedPlaceId: Option<string>
    var selectedSubCategoryId: Option<string>

    function State(): NavState
      reads this
    {
      NavState(currentScreen, selectedPlaceId, selectedSubCategoryId)
    }

    /** The component that is rendered for the current screen. */
    function CurrentView(): View
      reads this
    {
      ViewOf(currentScreen)
    }

    constructor ()
      ensures currentScreen == Home && selectedPlaceId == None && selectedSubCategoryId == None
      ensures State() == Initial
    {
      currentScreen := Home;
      selectedPlaceId := None;
      selectedSubCategoryId := None;
    }

    /** `navigateToDetail(id)`: no check that a place with this id exists. */
    method NavigateToDetail(id: string)
      modifies this
      ensures currentScreen == Detail && selectedPlaceId == Some(id)
      ensures selectedSubCategoryId == old(selectedSubCategoryId)
      ensures State() == Apply(old(State()), SelectPlace(id))
    {
      selectedPlaceId := Some(id);
      currentScreen := Detail;
    }

    /** `navigateToExtendedDetail()`: from any screen, selections untouched. */
    method NavigateToExtendedDetail()
      modifies this
      ensures currentScreen == ExtendedDetail
      ensures selectedPlaceId == old(selectedPlaceId) && selectedSubCategoryId == old(selectedSubCategoryId)
      ensures State() == Apply(old(State()), MoreInfo)
    {
      currentScreen := ExtendedDetail;
    }

    /** `navigateToSubCategoryDetail(subCatId)`. */
    method NavigateToSubCategoryDetail(subCatId: string)
      modifies this
      ensures currentScreen == SubCategoryDetail && selectedSubCategoryId == Some(subCatId)
      ensures selectedPlaceId == old(selectedPlaceId)
      ensures State() == Apply(old(State()), SelectSubCategory(subCatId))
    {
      selectedSubCategoryId := Some(subCatId);
      currentScreen := SubCategoryDetail;
    }

    /** `goBack()`. */
    method GoBack()
      modifies this
      ensures old(currentScreen) == ExtendedDetail ==>
        currentScreen == Detail && unchanged(this`selectedPlaceId, this`selectedSubCategoryId)
      ensures old(currentScreen) == Detail ==>
        && currentScreen == (if IsTruthy(old(selectedSubCategoryId)) then SubCategoryDetail else Home)
        && selectedPlaceId == None && unchanged(this`selectedSubCategoryId)
      ensures old(currentScreen) == SubCategoryDetail ==>
        currentScreen == Home && selectedSubCategoryId == None && unchanged(this`selectedPlaceId)
      ensures old(currentScreen) == Home || old(currentScreen) == SubCategory ==> unchanged(this)
      ensures State() == Apply(old(State()), Back)
    {
      if currentScreen == ExtendedDetail {
        currentScreen := Detail;
      } else if currentScreen == Detail {
        if IsTruthy(selectedSubCategoryId) {
          currentScreen := SubCategoryDetail;
        } else {
          currentScreen := Home;
        }
        selectedPlaceId := None;
      } else if currentScreen == SubCategoryDetail {
        currentScreen := Home;
        selectedSubCategoryId := None;
      }
    }
  }
}
