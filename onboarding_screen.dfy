/** The three-page onboarding carousel (screens/OnboardingScreen.tsx): a step counter that the
    main button advances until the last page, where it finishes instead. */
module OnboardingScreen {

  /** `steps.length`. */
  const StepCount: nat := 3

  /** The step the main button leads to. */
  function NextStep(step: nat): (next: nat)
    ensures step < StepCount - 1 ==> next == step + 1
    ensures step >= StepCount - 1 ==> next == step
  {
    if step < StepCount - 1 then step + 1 else step
  }

  /** The main button calls `onFinish` instead of advancing. */
  predicate FinishesOnNext(step: nat) {
    !(step < StepCount - 1)
  }

  /** The step after `k` presses of the main button from the first page. */
  function StepAfter(k: nat): nat
    decreases k
  {
    if k == 0 then 0 else NextStep(StepAfter(k - 1))
  }

  /** The counter climbs one page per press and then stays on the last page, so it is always a page index. */
  lemma {:induction false} StepAfterPresses(k: nat)
    ensures StepAfter(k) == if k < StepCount - 1 then k else StepCount - 1
    ensures StepAfter(k) < StepCount
    decreases k
  {
    if k > 0 {
      StepAfterPresses(k - 1);
    }
  }

  /** From the first page, press number `k + 1` finishes exactly when `k` presses came before it
      that reached the last page, that is from the third press on. */
  lemma FinishesFromTheThirdPress(k: nat)
    ensures FinishesOnNext(StepAfter(k)) <==> k >= StepCount - 1
  {
    StepAfterPresses(k);
  }

  /** The main button's caption: "Devam Et" (continue) until the last page, "Başlayalım" (let's start) on it. */
  function ButtonLabel(step: nat): (s: string)
    ensures step == StepCount - 1 <==> s == "Başlayalım"
    ensures step != StepCount - 1 <==> s == "Devam Et"
  {
    if step == StepCount - 1 then "Başlayalım" else "Devam Et"
  }

  /** The progress indicators, one per page, each drawn highlighted or not (`index === step`). */
  function Indicators(step: nat): (r: seq<bool>)
    ensures |r| == |Titles|
    ensures step < |r| ==> r[step]
    ensures forall i :: 0 <= i < |r| && r[i] ==> i == step
  {
    seq(StepCount, i requires 0 <= i => i == step)
  }

  /** On every page exactly one of the drawn indicators is highlighted, and off the pages none is. */
  lemma ExactlyOneIndicator(step: nat)
    ensures step < StepCount ==> multiset(Indicators(step))[true] == 1
    ensures step >= StepCount ==> multiset(Indicators(step))[true] == 0
  {
    var r := Indicators(step);
    if step == 0 {
      assert r == [true, false, false];
    } else if step == 1 {
      assert r == [false, true, false];
    } else if step == 2 {
      assert r == [false, false, true];
    } else {
      assert r == [false, false, false];
    }
  }

  /** The page titles, in order. */
  const Titles: seq<string> := ["Tarihin Başkenti", "Eşsiz Lezzetler", "Keşfetmeye Başla"]

  /** The component's `step` state. */
  class Onboarding {
    var step: nat

    ghost predicate Valid()
      reads this
    {
      step < StepCount
    }

    constructor ()
      ensures Valid() && step == 0
    {
      step := 0;
    }

    /** `handleNext`: advances, or reports that `onFinish` is called and leaves the step alone. */
    method HandleNext() returns (finished: bool)
      requires Valid()
      modifies this
      ensures Valid()
      ensures finished <==> FinishesOnNext(old(step))
      ensures step == NextStep(old(step))
    {
      if step < StepCount - 1 {
        step := step + 1;
        finished := false;
      } else {
        finished := true;
      }
    }

    /** The skip button calls `onFinish` on every page and changes nothing. */
    method Skip() returns (finished: bool)
      ensures finished
    {
      finished := true;
    }

    /** `steps[step].title`. */
    function CurrentTitle(): (t: string)
      requires Valid()
      reads this
      ensures t in Titles
    {
      Titles[step]
    }
  }
}
