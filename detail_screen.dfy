/** The detail page of one place (screens/DetailScreen.tsx, with the falsy guard of
    components/InfoCard.tsx): the lookup, the food-or-landmark layout, the stat cards, the specialty
    text and the "more info" button. */
module DetailScreen {
  import opened JsValues
  import opened JsArrays
  import opened JsStrings
  import opened Types
  import Navigation

  /** `places.find(p => p.id === placeId)`: the first place with that id; a null id matches nothing. */
  function FindPlace(places: seq<Place>, placeId: Option<string>): (r: Option<Place>)
    ensures placeId.None? ==> r.None?
    ensures r.None? <==> forall i :: 0 <= i < |places| ==> Some(places[i].id) != placeId
    ensures r.Some? ==>
      exists i :: && 0 <= i < |places| && places[i] == r.value
                  && Some(r.value.id) == placeId
                  && forall j :: 0 <= j < i ==> Some(places[j].id) != placeId
  {
    Find(places, (p: Place) => StringEqualsNullable(p.id, placeId))
  }

  /** No two places share an id, as in the fixture list. */
  ghost predicate UniqueIds(places: seq<Place>) {
    forall i, j :: 0 <= i < j < |places| ==> places[i].id != places[j].id
  }

  /** With unique ids, looking up the id of a listed place finds that very place. */
  lemma FindPlaceOfListedPlace(places: seq<Place>, p: Place)
    requires UniqueIds(places) && p in places
    ensures FindPlace(places, Some(p.id)) == Some(p)
  {
    var k :| 0 <= k < |places| && places[k] == p;
    var r := FindPlace(places, Some(p.id));
    var i :| && 0 <= i < |places| && places[i] == r.value
             && Some(r.value.id) == Some(p.id)
             && forall j :: 0 <= j < i ==> Some(places[j].id) != Some(p.id);
    assert i == k;
  }

  /** A stat card: the `InfoCard` with its label and the value it shows. */
  datatype InfoCard = InfoCard(caption: string, value: string)

  /** `<InfoCard label value />`: no card for a falsy value. */
  function CardIfTruthy(caption: string, value: Option<string>): (r: seq<InfoCard>)
    ensures |r| <= 1
    ensures r != [] <==> IsTruthy(value)
    ensures r != [] ==> r[0] == InfoCard(caption, value.value)
  {
    if IsTruthy(value) then [InfoCard(caption, value.value)] else []
  }

  /** The card labels of each layout, in the order the grid lists them. */
  function LayoutLabels(isFood: bool): seq<string> {
    if isFood then ["Ortam", "Saatler"] else ["Mimar", "Yapım Yılı", "Saatler", "Giriş"]
  }

  /** The field each label's card shows. */
  function CardField(p: Place, caption: string): Option<string> {
    if caption == "Ortam" then p.atmosphere
    else if caption == "Saatler" then p.visitingHours
    else if caption == "Mimar" then p.architect
    else if caption == "Yapım Yılı" then p.year
    else if caption == "Giriş" then p.entranceFee
    else None
  }

  /** Every card a layout can show, in grid order, with its field's text. */
  function LayoutCards(p: Place): seq<InfoCard> {
    if IsFoodPlace(p) then
      [InfoCard("Ortam", OrDefault(p.atmosphere, "")), InfoCard("Saatler", OrDefault(p.visitingHours, ""))]
    else
      [InfoCard("Mimar", OrDefault(p.architect, "")), InfoCard("Yapım Yılı", OrDefault(p.year, "")),
       InfoCard("Saatler", OrDefault(p.visitingHours, "")), InfoCard("Giriş", OrDefault(p.entranceFee, ""))]
  }

  /** A card shown only when truthy drops out of its one-card slot or fills it. */
  lemma CardIfTruthyFillsItsSlot(caption: string, value: Option<string>)
    ensures IsSubsequence(CardIfTruthy(caption, value), [InfoCard(caption, OrDefault(value, ""))])
  {
    var slot := [InfoCard(caption, OrDefault(value, ""))];
    if IsTruthy(value) {
      assert CardIfTruthy(caption, value) == slot;
      assert IsSubsequence(slot[1..], slot[1..]);
    }
  }

  /** The properties of the stat grid, given the cards it concatenates. */
  ghost predicate GridShowsTruthyFields(p: Place, r: seq<InfoCard>) {
    && |r| <= |LayoutLabels(IsFoodPlace(p))|
    && (forall c :: c in r <==>
         c.caption in LayoutLabels(IsFoodPlace(p)) && IsTruthy(CardField(p, c.caption)) && c.value == CardField(p, c.caption).value)
    && IsSubsequence(r, LayoutCards(p))
  }

  /** No label appears twice in a layout. */
  lemma LayoutCaptionsDistinct(p: Place)
    ensures forall i, j :: 0 <= i < j < |LayoutCards(p)| ==> LayoutCards(p)[i].caption != LayoutCards(p)[j].caption
  {
  }

  lemma FoodGrid(p: Place)
    requires IsFoodPlace(p)
    ensures GridShowsTruthyFields(p, CardIfTruthy("Ortam", p.atmosphere) + CardIfTruthy("Saatler", p.visitingHours))
  {
    var slots := LayoutCards(p);
    CardIfTruthyFillsItsSlot("Ortam", p.atmosphere);
    CardIfTruthyFillsItsSlot("Saatler", p.visitingHours);
    SubsequenceConcat(CardIfTruthy("Ortam", p.atmosphere), [slots[0]], CardIfTruthy("Saatler", p.visitingHours), [slots[1]]);
  }

  lemma LandmarkGrid(p: Place)
    requires !IsFoodPlace(p)
    ensures GridShowsTruthyFields(p, CardIfTruthy("Mimar", p.architect) + CardIfTruthy("Yapım Yılı", p.year)
                                     + CardIfTruthy("Saatler", p.visitingHours) + CardIfTruthy("Giriş", p.entranceFee))
  {
    var m, y := CardIfTruthy("Mimar", p.architect), CardIfTruthy("Yapım Yılı", p.year);
    var h, f := CardIfTruthy("Saatler", p.visitingHours), CardIfTruthy("Giriş", p.entranceFee);
    var r := m + y + h + f;
    LandmarkGridOrder(p);
    forall c: InfoCard ensures c in r <==> c.caption in LayoutLabels(false) && IsTruthy(CardField(p, c.caption)) && c.value == CardField(p, c.caption).value {
      assert c in r <==> c in m || c in y || c in h || c in f;
    }
  }

  lemma LandmarkGridOrder(p: Place)
    requires !IsFoodPlace(p)
    ensures IsSubsequence(CardIfTruthy("Mimar", p.architect) + CardIfTruthy("Yapım Yılı", p.year)
                          + CardIfTruthy("Saatler", p.visitingHours) + CardIfTruthy("Giriş", p.entranceFee), LayoutCards(p))
  {
    var m, y := CardIfTruthy("Mimar", p.architect), CardIfTruthy("Yapım Yılı", p.year);
    var h, f := CardIfTruthy("Saatler", p.visitingHours), CardIfTruthy("Giriş", p.entranceFee);
    var slots := LayoutCards(p);
    CardIfTruthyFillsItsSlot("Mimar", p.architect);
    CardIfTruthyFillsItsSlot("Yapım Yılı", p.year);
    CardIfTruthyFillsItsSlot("Saatler", p.visitingHours);
    CardIfTruthyFillsItsSlot("Giriş", p.entranceFee);
    SubsequenceConcat(m, [slots[0]], y, [slots[1]]);
    SubsequenceConcat(h, [slots[2]], f, [slots[3]]);
    SubsequenceConcat(m + y, [slots[0], slots[1]], h + f, [slots[2], slots[3]]);
    assert [slots[0], slots[1]] + [slots[2], slots[3]] == slots;
    assert m + y + h + f == (m + y) + (h + f);
  }

  /** The stat grid: a food place shows atmosphere and hours, a landmark shows architect, year,
      hours and fee; a card shows exactly when its field is truthy, with that field's value, at most
      once per label and in the grid's order. */
  function StatCards(p: Place): (r: seq<InfoCard>)
    ensures |r| <= |LayoutLabels(IsFoodPlace(p))|
    ensures forall c :: c in r <==>
      c.caption in LayoutLabels(IsFoodPlace(p)) && IsTruthy(CardField(p, c.caption)) && c.value == CardField(p, c.caption).value
    ensures IsSubsequence(r, LayoutCards(p))
    ensures forall i, j :: 0 <= i < j < |r| ==> r[i].caption != r[j].caption
  {
    LayoutCaptionsDistinct(p);
    if IsFoodPlace(p) then
      var r := CardIfTruthy("Ortam", p.atmosphere) + CardIfTruthy("Saatler", p.visitingHours);
      FoodGrid(p);
      SubsequenceKeepsDistinct(r, LayoutCards(p), (c: InfoCard) => c.caption);
      r
    else
      var r := CardIfTruthy("Mimar", p.architect) + CardIfTruthy("Yapım Yılı", p.year)
               + CardIfTruthy("Saatler", p.visitingHours) + CardIfTruthy("Giriş", p.entranceFee);
      LandmarkGrid(p);
      SubsequenceKeepsDistinct(r, LayoutCards(p), (c: InfoCard) => c.caption);
      r
  }

  /** The "Ne Yenir?" text: the specialty with `", "` between its comma-separated items, or
      "Belirtilmemiş" when it is missing or empty. */
  function SpecialtyText(specialty: Option<string>): (t: string)
    ensures IsTruthy(specialty) ==> t == ReplaceAll(specialty.value, ',', ", ")
    ensures !IsTruthy(specialty) ==> t == "Belirtilmemiş"
  {
    if IsTruthy(specialty) then
      JoinSplitReplaces(specialty.value, ',', ", ");
      Join(Split(specialty.value, ','), ", ")
    else "Belirtilmemiş"
  }

  /** Every comma of `t` is followed by a space. */
  ghost predicate CommasSpaced(t: string) {
    forall i :: 0 <= i < |t| && t[i] == ',' ==> i + 1 < |t| && t[i + 1] == ' '
  }

  /** After the reformatting every comma is followed by a space. */
  lemma {:induction false} ReplacedCommasAreSpaced(s: string)
    ensures CommasSpaced(ReplaceAll(s, ',', ", "))
    decreases |s|
  {
    if s != [] {
      ReplacedCommasAreSpaced(s[1..]);
      var head := if s[0] == ',' then ", " else [s[0]];
      var rest := ReplaceAll(s[1..], ',', ", ");
      assert ReplaceAll(s, ',', ", ") == head + rest;
      assert CommasSpaced(rest);
      forall i | 0 <= i < |head + rest| && (head + rest)[i] == ','
        ensures i + 1 < |head + rest| && (head + rest)[i + 1] == ' '
      {
        if i >= |head| {
          var k := i - |head|;
          assert rest[k] == ',';
          assert k + 1 < |rest| && rest[k + 1] == ' ';
          assert (head + rest)[i + 1] == rest[k + 1];
        }
      }
    }
  }

  /** A specialty without commas is shown as it is. */
  lemma SpecialtyWithoutCommaIsUnchanged(s: string)
    requires s != "" && ',' !in s
    ensures SpecialtyText(Some(s)) == s
  {
    SplitWithoutSeparator(s, ',');
  }

  /** A specialty already written with a space after its comma, like every specialty of the
      fixtures, is shown with two spaces there. */
  lemma SpacedItemsGetTwoSpaces(a: string, b: string)
    requires ',' !in a && ',' !in b
    ensures SpecialtyText(Some(a + ", " + b)) == a + ",  " + b
  {
    assert |a + ", " + b| > 0;
    CommaReplacedBetween(a, " " + b);
    assert a + [','] + (" " + b) == a + ", " + b;
    assert a + ", " + (" " + b) == a + ",  " + b;
  }

  lemma CommaReplacedBetween(a: string, b: string)
    requires ',' !in a && ',' !in b
    ensures ReplaceAll(a + [','] + b, ',', ", ") == a + ", " + b
  {
    ReplaceAllAppend(a + [','], b, ',', ", ");
    ReplaceAllAppend(a, [','], ',', ", ");
    ReplaceAllAbsent(a, ',', ", ");
    ReplaceAllAbsent(b, ',', ", ");
    assert ReplaceAll([','], ',', ", ") == ", " + ReplaceAll([], ',', ", ");
  }

  /** The "more info" button shows exactly when the place has a history or an architecture text. */
  predicate ShowsMoreInfo(p: Place) {
    IsTruthy(p.history) || IsTruthy(p.architecture)
  }

  /** The subtitle of the "more info" button, naming what the long-form page holds for this kind of place. */
  function MoreInfoSubtitle(p: Place): (s: string)
    ensures IsFoodPlace(p) <==> s == "Hikaye, lezzet sırları ve menü"
    ensures !IsFoodPlace(p) <==> s == "Tarihçe, mimari ve efsaneler"
  {
    if IsFoodPlace(p) then "Hikaye, lezzet sırları ve menü" else "Tarihçe, mimari ve efsaneler"
  }

  /** What the component returns: nothing for an unknown id, otherwise the page's decisions. The
      specialty card belongs to the food layout only; the button carries its subtitle. */
  datatype Page =
    | RendersNothing
    | Page(place: Place, isFood: bool, cards: seq<InfoCard>, specialty: Option<string>, moreInfo: Option<string>)

  function RenderOf(places: seq<Place>, placeId: Option<string>): Page {
    match FindPlace(places, placeId)
    case None => RendersNothing
    case Some(p) =>
      Page(p, IsFoodPlace(p), StatCards(p),
           if IsFoodPlace(p) then Some(SpecialtyText(p.specialty)) else None,
           if ShowsMoreInfo(p) then Some(MoreInfoSubtitle(p)) else None)
  }

  /** The handler calls the page offers: back, and "more info" when its button is shown. */
  predicate PageRaises(page: Page, e: Navigation.Event)
    ensures PageRaises(page, e) ==> Navigation.Offers(Navigation.DetailView, e)
    ensures page.RendersNothing? ==> !PageRaises(page, e)
    ensures e == Navigation.MoreInfo && page.Page? && page.moreInfo.None? ==> !PageRaises(page, e)
  {
    page.Page? && (e == Navigation.Back || (e == Navigation.MoreInfo && page.moreInfo.Some?))
  }

  /** The page renders exactly for a known id, shows the place with that id, the specialty card
      exactly on food places, and the button exactly when there is more to read; everything it
      raises is a callback the detail screen is given. */
  lemma RenderMatchesPlace(places: seq<Place>, placeId: Option<string>, e: Navigation.Event)
    ensures var page := RenderOf(places, placeId);
      && (page.RendersNothing? <==> forall i :: 0 <= i < |places| ==> Some(places[i].id) != placeId)
      && (page.Page? ==> && page.place in places && Some(page.place.id) == placeId
                         && (page.isFood <==> page.place.category == FoodAndDrink)
                         && (page.specialty.Some? <==> page.isFood)
                         && (page.moreInfo.Some? <==> IsTruthy(page.place.history) || IsTruthy(page.place.architecture)))
      && (PageRaises(page, e) ==> Navigation.Offers(Navigation.DetailView, e))
  {
    var page := RenderOf(places, placeId);
    if page.Page? {
      var r := FindPlace(places, placeId);
      var i :| && 0 <= i < |places| && places[i] == r.value
               && Some(r.value.id) == placeId
               && forall j :: 0 <= j < i ==> Some(places[j].id) != placeId;
      assert page.place == places[i];
    }
  }
}
