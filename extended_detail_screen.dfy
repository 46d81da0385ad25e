/** The long-form page of one place (screens/ExtendedDetailScreen.tsx): the lookup, the labels of
    the food and landmark layouts, the text read aloud, the choice of voice and the speaking flag. */
module ExtendedDetailScreen {
  import opened JsValues
  import opened JsArrays
  import opened JsStrings
  import opened Types
  import DetailScreen

  /** The caption of the opening-hours row: "Açık" (open) on a food place, "Ziyaret" (visit) on a landmark. */
  function VisitingLabel(isFood: bool): (s: string)
    ensures s == "Açık" <==> isFood
    ensures s == "Ziyaret" <==> !isFood
  {
    if isFood then "Açık" else "Ziyaret"
  }

  function HistoryHeading(isFood: bool): string {
    if isFood then "Hikayemiz" else "Tarihçe"
  }

  function ArchitectureHeading(isFood: bool): string {
    if isFood then "Lezzet Sırları" else "Mimari Özellikler"
  }

  function LegendsHeading(isFood: bool): string {
    if isFood then "Menüden Seçmeler" else "Efsaneler & Hikayeler"
  }

  /** A text section: its heading and the field it shows. */
  datatype Section = Section(heading: string, body: string)

  function SectionIfTruthy(heading: string, body: Option<string>): seq<Section> {
    if IsTruthy(body) then [Section(heading, body.value)] else []
  }

  /** Every section the layout can show, in page order, with its field's text. */
  function LayoutSections(p: Place): seq<Section> {
    var food := IsFoodPlace(p);
    [ Section(HistoryHeading(food), OrDefault(p.history, "")),
      Section(ArchitectureHeading(food), OrDefault(p.architecture, "")),
      Section(LegendsHeading(food), OrDefault(p.legends, "")) ]
  }

  /** A section shown only when truthy drops out of its slot or fills it. */
  lemma SectionIfTruthyFillsItsSlot(heading: string, body: Option<string>)
    ensures IsSubsequence(SectionIfTruthy(heading, body), [Section(heading, OrDefault(body, ""))])
  {
    var slot := [Section(heading, OrDefault(body, ""))];
    if IsTruthy(body) {
      assert SectionIfTruthy(heading, body) == slot;
      assert IsSubsequence(slot[1..], slot[1..]);
    }
  }

  /** The sections the page shows, in the order it shows them. */
  function ShownSections(p: Place): seq<Section> {
    var food := IsFoodPlace(p);
    SectionIfTruthy(HistoryHeading(food), p.history)
    + SectionIfTruthy(ArchitectureHeading(food), p.architecture)
    + SectionIfTruthy(LegendsHeading(food), p.legends)
  }

  lemma SectionsInPageOrder(p: Place)
    ensures IsSubsequence(ShownSections(p), LayoutSections(p))
  {
    var food := IsFoodPlace(p);
    var h := SectionIfTruthy(HistoryHeading(food), p.history);
    var a := SectionIfTruthy(ArchitectureHeading(food), p.architecture);
    var l := SectionIfTruthy(LegendsHeading(food), p.legends);
    var slots := LayoutSections(p);
    SectionIfTruthyFillsItsSlot(HistoryHeading(food), p.history);
    SectionIfTruthyFillsItsSlot(ArchitectureHeading(food), p.architecture);
    SectionIfTruthyFillsItsSlot(LegendsHeading(food), p.legends);
    SubsequenceConcat(h, [slots[0]], a, [slots[1]]);
    SubsequenceConcat(h + a, [slots[0], slots[1]], l, [slots[2]]);
    assert [slots[0], slots[1]] + [slots[2]] == slots;
  }

  lemma SectionsHaveDistinctHeadings(p: Place)
    ensures var r := ShownSections(p);
      forall i, j :: 0 <= i < j < |r| ==> r[i].heading != r[j].heading
  {
    SectionsInPageOrder(p);
    SubsequenceKeepsDistinct(ShownSections(p), LayoutSections(p), (s: Section) => s.heading);
  }

  lemma SectionsShowTruthyFields(p: Place)
    ensures var r := ShownSections(p);
      && |r| <= 3
      && (Section(HistoryHeading(IsFoodPlace(p)), OrDefault(p.history, "")) in r <==> IsTruthy(p.history))
      && (Section(ArchitectureHeading(IsFoodPlace(p)), OrDefault(p.architecture, "")) in r <==> IsTruthy(p.architecture))
      && (Section(LegendsHeading(IsFoodPlace(p)), OrDefault(p.legends, "")) in r <==> IsTruthy(p.legends))
      && forall s :: s in r ==> s.body != ""
  {
  }

  /** The history, architecture and legends sections, each shown exactly when its field is truthy,
      under the heading of the place's layout, at most once each and in page order. */
  function SectionsOf(p: Place): (r: seq<Section>)
    ensures |r| <= 3
    ensures Section(HistoryHeading(IsFoodPlace(p)), OrDefault(p.history, "")) in r <==> IsTruthy(p.history)
    ensures Section(ArchitectureHeading(IsFoodPlace(p)), OrDefault(p.architecture, "")) in r <==> IsTruthy(p.architecture)
    ensures Section(LegendsHeading(IsFoodPlace(p)), OrDefault(p.legends, "")) in r <==> IsTruthy(p.legends)
    ensures forall s :: s in r ==> s.body != ""
    ensures IsSubsequence(r, LayoutSections(p))
    ensures forall i, j :: 0 <= i < j < |r| ==> r[i].heading != r[j].heading
  {
    SectionsInPageOrder(p);
    SectionsHaveDistinctHeadings(p);
    SectionsShowTruthyFields(p);
    ShownSections(p)
  }

  /** The hours and fee chips of the visiting row, each shown when truthy, hours first. */
  function VisitingChips(p: Place): (r: seq<string>)
    ensures |r| <= 2
    ensures forall c :: c in r <==>
      (IsTruthy(p.visitingHours) && c == p.visitingHours.value) || (IsTruthy(p.entranceFee) && c == p.entranceFee.value)
    ensures IsTruthy(p.visitingHours) ==> |r| >= 1 && r[0] == p.visitingHours.value
    ensures |r| == 2 <==> IsTruthy(p.visitingHours) && IsTruthy(p.entranceFee)
    ensures r == [] <==> !IsTruthy(p.visitingHours) && !IsTruthy(p.entranceFee)
    ensures IsSubsequence(r, [OrDefault(p.visitingHours, ""), OrDefault(p.entranceFee, "")])
  {
    var hours := if IsTruthy(p.visitingHours) then [p.visitingHours.value] else [];
    var fee := if IsTruthy(p.entranceFee) then [p.entranceFee.value] else [];
    assert IsSubsequence(hours, [OrDefault(p.visitingHours, "")]) by {
      if hours != [] { assert IsSubsequence(hours[1..], [OrDefault(p.visitingHours, "")][1..]); }
    }
    assert IsSubsequence(fee, [OrDefault(p.entranceFee, "")]) by {
      if fee != [] { assert IsSubsequence(fee[1..], [OrDefault(p.entranceFee, "")][1..]); }
    }
    SubsequenceConcat(hours, [OrDefault(p.visitingHours, "")], fee, [OrDefault(p.entranceFee, "")]);
    hours + fee
  }

  /** What the component returns: nothing when the id is unknown, otherwise the page. */
  datatype Page =
    | RendersNothing
    | Page(place: Place, visitingLabel: string, chips: seq<string>, sections: seq<Section>)

  function RenderOf(places: seq<Place>, placeId: Option<string>): (page: Page)
    ensures page.RendersNothing? <==> DetailScreen.FindPlace(places, placeId).None?
    ensures page.Page? ==> Some(page.place) == DetailScreen.FindPlace(places, placeId)
  {
    match DetailScreen.FindPlace(places, placeId)
    case None => RendersNothing
    case Some(p) => Page(p, VisitingLabel(IsFoodPlace(p)), VisitingChips(p), SectionsOf(p))
  }

  /** The two screens for the same id: both render nothing or both show the same place. */
  lemma SameLookupAsDetail(places: seq<Place>, placeId: Option<string>)
    ensures RenderOf(places, placeId).RendersNothing? <==> DetailScreen.RenderOf(places, placeId).RendersNothing?
    ensures RenderOf(places, placeId).Page? ==> RenderOf(places, placeId).place == DetailScreen.RenderOf(places, placeId).place
  {
  }

  // ----- The text read aloud -----

  /** The indentation that the template literal carries into the spoken text. */
  const LineIndent: string := "          "
  const LastIndent: string := "        "

  function HistoryPrefix(isFood: bool): string {
    if isFood then "Hikayemiz. " else "Tarihçe. "
  }

  function ArchitecturePrefix(isFood: bool): string {
    if isFood then "Lezzet Sırları. " else "Mimari Özellikler. "
  }

  function LegendsPrefix(isFood: bool): string {
    if isFood then "Menüden Seçmeler. " else "Efsaneler. "
  }

  /** `field ? prefix + field : ''`. */
  function SpokenPart(prefix: string, field: Option<string>): (r: string)
    ensures IsTruthy(field) ==> r == prefix + field.value
    ensures !IsTruthy(field) ==> r == ""
  {
    if IsTruthy(field) then prefix + field.value else ""
  }

  /** The lines of `textToRead`: an empty one, the title with a full stop, the three optional
      parts, and the closing indentation. */
  function SpokenLines(p: Place): (lines: seq<string>)
    ensures |lines| == 6 && lines[0] == ""
  {
    var food := IsFoodPlace(p);
    [ "",
      LineIndent + p.title + ".",
      LineIndent + SpokenPart(HistoryPrefix(food), p.history),
      LineIndent + SpokenPart(ArchitecturePrefix(food), p.architecture),
      LineIndent + SpokenPart(LegendsPrefix(food), p.legends),
      LastIndent ]
  }

  /** `textToRead`, the template literal: its lines, each ended by a line break but the last. */
  function SpokenText(p: Place): string {
    Join(SpokenLines(p), "\n")
  }

  /** The spoken text always contains the title. */
  lemma SpokenTextContainsTitle(p: Place)
    ensures Includes(SpokenText(p), p.title)
  {
    var lines := SpokenLines(p);
    JoinFirstTwo(lines, "\n");
    TitleLineIncluded(lines[0], p.title, Join(lines[2..], "\n"));
  }

  lemma TitleLineIncluded(first: string, title: string, rest: string)
    ensures Includes(first + "\n" + (LineIndent + title + ".") + "\n" + rest, title)
  {
    assert first + "\n" + (LineIndent + title + ".") + "\n" + rest == (first + "\n" + LineIndent) + title + ("." + "\n" + rest);
    IncludesItself(title, first + "\n" + LineIndent, "." + "\n" + rest);
  }

  /** The place's texts, as far as the spoken text uses them, contain no line break. */
  predicate SingleLineTexts(p: Place) {
    && '\n' !in p.title
    && (p.history.Some? ==> '\n' !in p.history.value)
    && (p.architecture.Some? ==> '\n' !in p.architecture.value)
    && (p.legends.Some? ==> '\n' !in p.legends.value)
  }

  /** A part's line: the prefixed field after the indentation when the field is truthy, the bare
      indentation otherwise; it has no line break when neither its prefix nor its field has one. */
  lemma PartLine(indent: string, prefix: string, field: Option<string>)
    requires '\n' !in indent && '\n' !in prefix && (field.Some? ==> '\n' !in field.value)
    ensures '\n' !in indent + SpokenPart(prefix, field)
    ensures IsTruthy(field) ==> indent + SpokenPart(prefix, field) == indent + prefix + field.value
    ensures !IsTruthy(field) ==> indent + SpokenPart(prefix, field) == indent
  {
    if !IsTruthy(field) {
      assert indent + "" == indent;
    }
  }

  /** Read line by line, the spoken text is the title line and one line per optional part: the part
      is on its line, after its food or landmark prefix, exactly when the field is truthy, and the
      line is bare indentation otherwise. */
  lemma SpokenTextLines(p: Place)
    requires SingleLineTexts(p)
    ensures var food := IsFoodPlace(p);
      var lines := Split(SpokenText(p), '\n');
      && |lines| == 6
      && lines[1] == LineIndent + p.title + "."
      && (IsTruthy(p.history) ==> lines[2] == LineIndent + HistoryPrefix(food) + p.history.value)
      && (!IsTruthy(p.history) ==> lines[2] == LineIndent)
      && (IsTruthy(p.architecture) ==> lines[3] == LineIndent + ArchitecturePrefix(food) + p.architecture.value)
      && (!IsTruthy(p.architecture) ==> lines[3] == LineIndent)
      && (IsTruthy(p.legends) ==> lines[4] == LineIndent + LegendsPrefix(food) + p.legends.value)
      && (!IsTruthy(p.legends) ==> lines[4] == LineIndent)
  {
    var food := IsFoodPlace(p);
    SpokenTextSplitsIntoItsLines(p);
    PartLine(LineIndent, HistoryPrefix(food), p.history);
    PartLine(LineIndent, ArchitecturePrefix(food), p.architecture);
    PartLine(LineIndent, LegendsPrefix(food), p.legends);
  }

  lemma SpokenTextSplitsIntoItsLines(p: Place)
    requires SingleLineTexts(p)
    ensures Split(SpokenText(p), '\n') == SpokenLines(p)
  {
    var food := IsFoodPlace(p);
    var lines := SpokenLines(p);
    PartLine(LineIndent, HistoryPrefix(food), p.history);
    PartLine(LineIndent, ArchitecturePrefix(food), p.architecture);
    PartLine(LineIndent, LegendsPrefix(food), p.legends);
    assert '\n' !in lines[1] by {
      assert lines[1] == LineIndent + p.title + ".";
    }
    assert forall i :: 0 <= i < |lines| ==> '\n' !in lines[i];
    SplitJoinRoundTrip(lines, '\n');
  }

  /** The spoken history and architecture prefixes are the section headings of the same layout; the
      spoken legends prefix is its heading only for food places ("Efsaneler. " is read for a
      landmark's "Efsaneler & Hikayeler"). */
  lemma SpokenPrefixesFollowHeadings(isFood: bool)
    ensures HistoryPrefix(isFood) == HistoryHeading(isFood) + ". "
    ensures ArchitecturePrefix(isFood) == ArchitectureHeading(isFood) + ". "
    ensures LegendsPrefix(isFood) == LegendsHeading(isFood) + ". " <==> isFood
  {
    if !isFood {
      assert LegendsPrefix(isFood)[9] == '.' != LegendsHeading(isFood) [9];
    }
  }

  // ----- The voice -----

  /** A `SpeechSynthesisVoice`, as far as the choice of voice reads it. */
  datatype Voice = Voice(name: string, lang: string)

  /** `v.lang.includes('tr')`. */
  predicate IsTurkish(v: Voice) {
    Includes(v.lang, "tr")
  }

  /** A Turkish voice whose name says it is a female voice. */
  predicate IsPreferredTurkish(v: Voice) {
    IsTurkish(v) && (Includes(v.name, "Female") || Includes(v.name, "Kadın") || Includes(v.name, "Yelda"))
  }

  /** `trVoice`: the first preferred Turkish voice, else the first Turkish voice, else none (the
      utterance keeps the browser's default voice). */
  function ChooseVoice(voices: seq<Voice>): (r: Option<Voice>)
    ensures r.None? <==> forall i :: 0 <= i < |voices| ==> !IsTurkish(voices[i])
    ensures r.Some? ==> IsTurkish(r.value) && r.value in voices
    ensures (exists i :: 0 <= i < |voices| && IsPreferredTurkish(voices[i])) ==>
      exists i :: IsFirst(voices, i, IsPreferredTurkish) && r == Some(voices[i])
    ensures (forall i :: 0 <= i < |voices| ==> !IsPreferredTurkish(voices[i])) && r.Some? ==>
      exists i :: IsFirst(voices, i, IsTurkish) && r == Some(voices[i])
  {
    var preferred := Find(voices, IsPreferredTurkish);
    var turkish := Find(voices, IsTurkish);
    assert preferred.None? ==> forall i :: 0 <= i < |voices| ==> !IsPreferredTurkish(voices[i]);
    preferred.OrElse(turkish)
  }

  /** A `SpeechSynthesisUtterance` as configured: text, voice (none keeps the default), language,
      and the rate in hundredths (0.9 is 90). */
  datatype Utterance = Utterance(text: string, voice: Option<Voice>, lang: string, ratePercent: int)

  function UtteranceFor(p: Place, voices: seq<Voice>): (u: Utterance)
    ensures u.text == SpokenText(p) && u.voice == ChooseVoice(voices)
    ensures u.lang == "tr-TR" && u.ratePercent == 90
  {
    Utterance(SpokenText(p), ChooseVoice(voices), "tr-TR", 90)
  }

  /** What a press of the speak button does besides the flag. */
  datatype SpeakOutcome =
    | AlertUnsupported        // no `speechSynthesis` in `window`
    | CancelSpeech
    | Speak(utterance: Utterance)

  /** The speaking flag after a press of the button. */
  function SpeakingAfterPress(speaking: bool, supported: bool): bool {
    if !supported then speaking else !speaking
  }

  /** Two presses with speech support return to the flag before them; without support the flag never moves. */
  lemma TwoPressesRestoreTheFlag(speaking: bool, supported: bool)
    ensures SpeakingAfterPress(SpeakingAfterPress(speaking, supported), supported) == speaking
    ensures !supported ==> SpeakingAfterPress(speaking, supported) == speaking
  {
  }

  /** The component's `isSpeaking` state and the handlers that change it. */
  class SpeechControl {
    var isSpeaking: bool

    constructor ()
      ensures !isSpeaking
    {
      isSpeaking := false;
    }

    /** `handleSpeak`; `supported` stands for `'speechSynthesis' in window`. */
    method HandleSpeak(p: Place, voices: seq<Voice>, supported: bool) returns (outcome: SpeakOutcome)
      modifies this
      ensures isSpeaking == SpeakingAfterPress(old(isSpeaking), supported)
      ensures !supported ==> outcome == AlertUnsupported
      ensures supported && old(isSpeaking) ==> outcome == CancelSpeech
      ensures supported && !old(isSpeaking) ==> outcome == Speak(UtteranceFor(p, voices))
    {
      if supported {
        if isSpeaking {
          outcome := CancelSpeech;
          isSpeaking := false;
        } else {
          outcome := Speak(Utterance(SpokenText(p), ChooseVoice(voices), "tr-TR", 90));
          isSpeaking := true;
        }
      } else {
        outcome := AlertUnsupported;
      }
    }

    /** `utterance.onend`. */
    method OnEnd()
      modifies this
      ensures !isSpeaking
    {
      isSpeaking := false;
    }

    /** `utterance.onerror`. */
    method OnError()
      modifies this
      ensures !isSpeaking
    {
      isSpeaking := false;
    }

    /** The speak button's caption: "Durdur" (stop) while speaking, "Sesli Dinle" (listen) otherwise. */
    function ButtonLabel(): (s: string)
      reads this
      ensures isSpeaking <==> s == "Durdur"
      ensures !isSpeaking <==> s == "Sesli Dinle"
    {
      if isSpeaking then "Durdur" else "Sesli Dinle"
    }
  }
}
