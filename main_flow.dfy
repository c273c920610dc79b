/** The step-by-step tutorial driven from the page script: the six steps with the control
    each one unlocks and the comparison that completes it, the loose JavaScript comparisons
    those conditions use, the enabling and disabling of the input controls, loading a step,
    the "next" and "save curve" clicks, and the completion check that unlocks "next". */
module MainFlow {
  import opened Common

  // ---------------------------------------------------------------------------------------
  // JavaScript values and comparisons

  /** A value a completion condition compares: a number, or a string together with what
      `Number(text)` makes of it (string-to-number parsing is not part of this model). */
  datatype JsValue = JsNumber(n: Num) | JsString(text: string, asNumber: Num)

  /** `ToNumber(v)` */
  function ToNumber(v: JsValue): Num {
    match v
    case JsNumber(n) => n
    case JsString(_, n) => n
  }

  /** `x < y` on two numbers that are not NaN, with the infinities at the ends. */
  predicate OrderedLess(x: Num, y: Num)
    requires !x.NaN? && !y.NaN?
  {
    match (x, y)
    case (Fin(a), Fin(b)) => a < b
    case (NegInf, _) => !y.NegInf?
    case (_, PosInf) => !x.PosInf?
    case _ => false
  }

  /** Lexicographic `<` on strings, character by character. Dafny characters are Unicode
      scalar values while JavaScript compares UTF-16 code units, so the two orders differ
      where a character in U+E000–U+FFFF meets an astral character: it sorts before the
      astral character here, and after it in JavaScript, where the astral character
      starts with a surrogate in U+D800–U+DBFF. */
  predicate StrLess(s: string, t: string) {
    if |t| == 0 then false
    else if |s| == 0 then true
    else if s[0] != t[0] then s[0] < t[0]
    else StrLess(s[1..], t[1..])
  }

  /** The abstract relational comparison `a < b`: strings compare lexicographically,
      anything else as numbers; `None` is `undefined`, the answer when a NaN is involved. */
  function LessThan(a: JsValue, b: JsValue): (r: Option<bool>)
    ensures r.None? <==> !(a.JsString? && b.JsString?) && (ToNumber(a).NaN? || ToNumber(b).NaN?)
  {
    if a.JsString? && b.JsString? then Some(StrLess(a.text, b.text))
    else
      var x, y := ToNumber(a), ToNumber(b);
      if x.NaN? || y.NaN? then None else Some(OrderedLess(x, y))
  }

  /** `a < b`, `a > b`, `a <= b` and `a >= b`: an undefined comparison makes each false. */
  predicate Lt(a: JsValue, b: JsValue) { LessThan(a, b) == Some(true) }
  predicate Gt(a: JsValue, b: JsValue) { LessThan(b, a) == Some(true) }
  predicate Le(a: JsValue, b: JsValue) { LessThan(b, a) == Some(false) }
  predicate Ge(a: JsValue, b: JsValue) { LessThan(a, b) == Some(false) }

  /** `a === b`: no coercion, and NaN equals nothing. */
  predicate StrictEquals(a: JsValue, b: JsValue) {
    match (a, b)
    case (JsNumber(x), JsNumber(y)) => !x.NaN? && x == y
    case (JsString(s, _), JsString(t, _)) => s == t
    case _ => false
  }

  /** `Math.abs(a - b) < 0.001`: the subtraction coerces both sides to numbers, and a NaN
      or infinite difference fails the test. */
  predicate Approx(a: JsValue, b: JsValue) {
    var x, y := ToNumber(a), ToNumber(b);
    x.Fin? && y.Fin? && AbsR(x.r - y.r) < 0.001
  }

  /** On numbers that are not NaN, `<` and `>=` are complements, as are `>` and `<=`; with a
      NaN on either side all four comparisons are false. */
  lemma RelationalComparisons(a: JsValue, b: JsValue)
    ensures LessThan(a, b).Some? ==> (Lt(a, b) <==> !Ge(a, b))
    ensures LessThan(b, a).Some? ==> (Gt(a, b) <==> !Le(a, b))
    ensures !(a.JsString? && b.JsString?) && (ToNumber(a).NaN? || ToNumber(b).NaN?) ==>
      !Lt(a, b) && !Gt(a, b) && !Le(a, b) && !Ge(a, b)
  {
  }

  /** On two finite numbers the loose comparisons are the comparisons of the reals. */
  lemma FiniteComparisons(x: real, y: real)
    ensures Lt(JsNumber(Fin(x)), JsNumber(Fin(y))) <==> x < y
    ensures Gt(JsNumber(Fin(x)), JsNumber(Fin(y))) <==> x > y
    ensures Le(JsNumber(Fin(x)), JsNumber(Fin(y))) <==> x <= y
    ensures Ge(JsNumber(Fin(x)), JsNumber(Fin(y))) <==> x >= y
    ensures StrictEquals(JsNumber(Fin(x)), JsNumber(Fin(y))) <==> x == y
  {
  }

  /** `Math.abs(a - b) < 0.001` is symmetric, holds for any finite number against itself,
      and never holds for a NaN or infinite operand. */
  lemma ApproxProperties(a: JsValue, b: JsValue)
    ensures Approx(a, b) <==> Approx(b, a)
    ensures ToNumber(a).Fin? ==> Approx(a, a)
    ensures !ToNumber(a).Fin? ==> !Approx(a, b)
  {
  }

  // ---------------------------------------------------------------------------------------
  // The tutorial steps

  const SAVE_CURVE_BTN: string := "save-curve-btn"

  /** `{controlId, targetValue, comparison}` */
  datatype CompletionCondition = CompletionCondition(controlId: string, targetValue: JsValue, comparison: string)

  /** A tutorial step; its title and guidance text are not part of this model. */
  datatype Step = Step(id: nat, enabledControls: seq<string>, completionCondition: Option<CompletionCondition>)

  /** The page's `tutorialSteps` table. */
  function TutorialSteps(): (steps: seq<Step>)
    ensures |steps| == 6
    ensures forall i :: 0 <= i < 6 ==> steps[i].id == i + 1
    ensures steps[0].completionCondition.None? && steps[5].completionCondition.None?
    ensures forall i :: 1 <= i < 5 ==> steps[i].completionCondition.Some?
    ensures steps[5].enabledControls == ["all"]
  {
    [ Step(1, [], None),
      Step(2, [SAVE_CURVE_BTN], Some(CompletionCondition(SAVE_CURVE_BTN, JsNumber(Fin(1.0)), "="))),
      Step(3, ["temperature-slider"], Some(CompletionCondition("temperature-slider", JsNumber(Fin(600.0)), ">="))),
      Step(4, [SAVE_CURVE_BTN], Some(CompletionCondition(SAVE_CURVE_BTN, JsNumber(Fin(1.0)), "="))),
      Step(5, ["gas-selector"], Some(CompletionCondition("gas-selector", JsString("4.0026", Fin(4.0026)), "="))),
      Step(6, ["all"], None) ]
  }

  // ---------------------------------------------------------------------------------------
  // The completion check

  /** An input control as the completion check reads it: a range input's `value` goes
      through `parseFloat`; a select's, like any other control's, stays a string. */
  datatype Control = Control(isRange: bool, text: string, parsedFloat: Num, asNumber: Num)

  function CurrentValue(c: Control): JsValue {
    if c.isRange then JsNumber(c.parsedFloat) else JsString(c.text, c.asNumber)
  }

  /** The save button's condition on its click count; an unknown operator behaves as `>=`. */
  predicate SaveConditionMet(comparison: string, clickCount: nat, target: JsValue) {
    var count := JsNumber(Fin(clickCount as real));
    if comparison == ">=" then Ge(count, target)
    else if comparison == "=" || comparison == "==" then StrictEquals(count, target)
    else if comparison == ">" then Gt(count, target)
    else Ge(count, target)
  }

  predicate KnownOperator(comparison: string) {
    comparison in {">=", "<=", "=", "==", ">", "<"}
  }

  /** Any other control's condition on its current value; `None` for an unknown operator.
      Equality is exact against a string target and within 0.001 against any other. */
  function ControlConditionMet(comparison: string, value: JsValue, target: JsValue): (met: Option<bool>)
    ensures met.Some? <==> KnownOperator(comparison)
  {
    if comparison == ">=" then Some(Ge(value, target))
    else if comparison == "<=" then Some(Le(value, target))
    else if comparison == "=" || comparison == "==" then
      Some(if target.JsString? then StrictEquals(value, target) else Approx(value, target))
    else if comparison == ">" then Some(Gt(value, target))
    else if comparison == "<" then Some(Lt(value, target))
    else None
  }

  /** What `checkCompletion` decides for the step at `stepIndex`: `Some(met)` when it sets
      the next button's `disabled` to `!met`, `None` when it returns without touching it. */
  function CompletionDecision(stepIndex: int, clickCount: nat, controls: map<string, Control>): (d: Option<bool>)
    ensures d.None? <==>
      || !(0 <= stepIndex < |TutorialSteps()|)
      || TutorialSteps()[stepIndex].completionCondition.None?
      || (var c := TutorialSteps()[stepIndex].completionCondition.value;
          c.controlId != SAVE_CURVE_BTN && (c.controlId !in controls || !KnownOperator(c.comparison)))
  {
    if !(0 <= stepIndex < |TutorialSteps()|) then None
    else
      var step := TutorialSteps()[stepIndex];
      if step.completionCondition.None? then None
      else
        var c := step.completionCondition.value;
        if c.controlId == SAVE_CURVE_BTN then Some(SaveConditionMet(c.comparison, clickCount, c.targetValue))
        else if c.controlId !in controls then None
        else ControlConditionMet(c.comparison, CurrentValue(controls[c.controlId]), c.targetValue)
  }

  /** Against a finite numeric target the save button's condition is the operator read on
      the click count: `>=`, strict `=`/`==`, `>`, and `>=` for anything else. */
  lemma SaveButtonTable(comparison: string, clickCount: nat, target: real)
    ensures var met, n := SaveConditionMet(comparison, clickCount, JsNumber(Fin(target))), clickCount as real;
      && (comparison == ">=" ==> (met <==> n >= target))
      && (comparison in {"=", "=="} ==> (met <==> n == target))
      && (comparison == ">" ==> (met <==> n > target))
      && (comparison !in {">=", "=", "==", ">"} ==> (met <==> n >= target))
  {
    FiniteComparisons(clickCount as real, target);
  }

  /** Equality against a string target holds exactly for a string with the same text;
      against a numeric target it holds exactly when both sides are finite numbers less than
      0.001 apart. */
  lemma EqualityRule(comparison: string, value: JsValue, target: JsValue)
    requires comparison in {"=", "=="}
    ensures target.JsString? ==>
      (ControlConditionMet(comparison, value, target) == Some(true) <==> value.JsString? && value.text == target.text)
    ensures target.JsNumber? ==>
      (ControlConditionMet(comparison, value, target) == Some(true) <==>
        ToNumber(value).Fin? && target.n.Fin? && -0.001 < ToNumber(value).r - target.n.r < 0.001)
  {
  }

  /** The tutorial's own conditions: steps 2 and 4 need exactly one save click, step 3 a
      range slider reading at least 600 (NaN never does), step 5 a non-range gas selector
      whose value is the text "4.0026". */
  lemma TutorialConditions(clickCount: nat, controls: map<string, Control>)
    ensures CompletionDecision(1, clickCount, controls) == Some(clickCount == 1)
    ensures CompletionDecision(3, clickCount, controls) == Some(clickCount == 1)
    ensures "temperature-slider" in controls && controls["temperature-slider"].isRange ==>
      var t := controls["temperature-slider"].parsedFloat;
      CompletionDecision(2, clickCount, controls) == Some(t.PosInf? || (t.Fin? && t.r >= 600.0))
    ensures "temperature-slider" !in controls ==> CompletionDecision(2, clickCount, controls).None?
    ensures "gas-selector" in controls ==>
      var g := controls["gas-selector"];
      CompletionDecision(4, clickCount, controls) == Some(!g.isRange && g.text == "4.0026")
    ensures "gas-selector" !in controls ==> CompletionDecision(4, clickCount, controls).None?
    ensures CompletionDecision(0, clickCount, controls).None? && CompletionDecision(5, clickCount, controls).None?
  {
    FiniteComparisons(clickCount as real, 1.0);
  }

  // ---------------------------------------------------------------------------------------
  // Control states

  const ALL_CONTROLS: seq<string> := ["temperature-slider", "gas-selector", "particles-slider"]
  const ALWAYS_ENABLED_CONTROLS: seq<string> := [SAVE_CURVE_BTN, "reset-btn"]

  /** The `disabled` flags after setting each listed element that exists to `v`. */
  function SetAll(disabled: map<string, bool>, ids: seq<string>, v: bool): (r: map<string, bool>)
    ensures r.Keys == disabled.Keys
  {
    map k | k in disabled :: if k in ids then v else disabled[k]
  }

  /** `updateControlStates(enabledControls)` as its three passes: disable the inputs, enable
      the always-on buttons, then enable all inputs for 'all' or else every listed id. */
  function ControlStates(disabled: map<string, bool>, enabledControls: seq<string>): map<string, bool> {
    var blocked := SetAll(SetAll(disabled, ALL_CONTROLS, true), ALWAYS_ENABLED_CONTROLS, false);
    SetAll(blocked, if "all" in enabledControls then ALL_CONTROLS else enabledControls, false)
  }

  /** The rule the passes implement, element by element: save and reset are enabled; an
      input is enabled exactly when 'all' or its id is listed; any other element is enabled
      when listed without 'all', and otherwise keeps its flag. No element appears or
      disappears. */
  lemma ControlStatesRule(disabled: map<string, bool>, enabledControls: seq<string>)
    ensures ControlStates(disabled, enabledControls).Keys == disabled.Keys
    ensures forall k :: k in disabled ==>
      ControlStates(disabled, enabledControls)[k] ==
        (if k in ALWAYS_ENABLED_CONTROLS then false
         else if k in ALL_CONTROLS then !("all" in enabledControls || k in enabledControls)
         else if "all" !in enabledControls && k in enabledControls then false
         else disabled[k])
  {
  }

  // ---------------------------------------------------------------------------------------
  // The page

  /** The tutorial state of the page: `window.currentStepIndex`,
      `window.saveCurveClickCount`, the next button, the step whose title and guidance are
      shown, and the `disabled` flag of every element of the page by id, at one moment. */
  datatype PageState = PageState(currentStepIndex: int, saveCurveClickCount: nat, nextDisabled: bool,
                                 nextHidden: bool, shownStep: nat, disabled: map<string, bool>)

  /** The page after `checkCompletion`: the next button is disabled exactly when a decided
      condition is not met, and nothing else changes. */
  function Checked(page: PageState, controls: map<string, Control>): PageState {
    var d := CompletionDecision(page.currentStepIndex, page.saveCurveClickCount, controls);
    if d.Some? then page.(nextDisabled := !d.value) else page
  }

  class TutorialPage {
    var currentStepIndex: int
    var saveCurveClickCount: nat
    var nextDisabled: bool
    var nextHidden: bool
    var shownStep: nat
    var disabled: map<string, bool>

    function Snapshot(): PageState
      reads this
    {
      PageState(currentStepIndex, saveCurveClickCount, nextDisabled, nextHidden, shownStep, disabled)
    }

    /** Page start-up: step 0 is loaded and the save click count is zero. */
    constructor (elements: map<string, bool>)
      ensures currentStepIndex == 0 && saveCurveClickCount == 0 && shownStep == 0
      ensures !nextDisabled && !nextHidden
      ensures disabled == ControlStates(elements, [])
    {
      currentStepIndex := 0;
      saveCurveClickCount := 0;
      nextDisabled := false;
      nextHidden := false;
      shownStep := 0;
      disabled := elements;
      new;
      LoadStep(0);
      saveCurveClickCount := 0;
    }

    /** One `forEach` pass setting each listed element that exists. */
    method SetDisabled(ids: seq<string>, v: bool)
      modifies this
      ensures disabled == SetAll(old(disabled), ids, v)
      ensures currentStepIndex == old(currentStepIndex) && saveCurveClickCount == old(saveCurveClickCount)
      ensures nextDisabled == old(nextDisabled) && nextHidden == old(nextHidden) && shownStep == old(shownStep)
    {
      var i := 0;
      while i < |ids|
        invariant 0 <= i <= |ids|
        invariant disabled == SetAll(old(disabled), ids[..i], v)
        invariant currentStepIndex == old(currentStepIndex) && saveCurveClickCount == old(saveCurveClickCount)
        invariant nextDisabled == old(nextDisabled) && nextHidden == old(nextHidden) && shownStep == old(shownStep)
      {
        if ids[i] in disabled {
          disabled := disabled[ids[i] := v];
        }
        assert ids[..i + 1] == ids[..i] + [ids[i]];
        i := i + 1;
      }
      assert ids[..i] == ids;
    }

    /** `updateControlStates(enabledControls)` */
    method UpdateControlStates(enabledControls: seq<string>)
      modifies this
      ensures disabled == ControlStates(old(disabled), enabledControls)
      ensures currentStepIndex == old(currentStepIndex) && saveCurveClickCount == old(saveCurveClickCount)
      ensures nextDisabled == old(nextDisabled) && nextHidden == old(nextHidden) && shownStep == old(shownStep)
    {
      SetDisabled(ALL_CONTROLS, true);
      SetDisabled(ALWAYS_ENABLED_CONTROLS, false);
      if "all" in enabledControls {
        SetDisabled(ALL_CONTROLS, false);
      } else {
        SetDisabled(enabledControls, false);
      }
    }

    /** `loadStep(stepIndex)`: an index outside the table changes nothing; otherwise the
        click count restarts, the step is shown, its controls are set, and next is locked
        exactly when the step has a completion condition. */
    method LoadStep(stepIndex: int)
      modifies this
      ensures !(0 <= stepIndex < |TutorialSteps()|) ==>
        && currentStepIndex == old(currentStepIndex) && saveCurveClickCount == old(saveCurveClickCount)
        && nextDisabled == old(nextDisabled) && shownStep == old(shownStep) && disabled == old(disabled)
      ensures 0 <= stepIndex < |TutorialSteps()| ==>
        var step := TutorialSteps()[stepIndex];
        && saveCurveClickCount == 0 && shownStep == stepIndex
        && disabled == ControlStates(old(disabled), step.enabledControls)
        && nextDisabled == step.completionCondition.Some?
        && currentStepIndex == old(currentStepIndex)
      ensures nextHidden == old(nextHidden)
    {
      if stepIndex < 0 || stepIndex >= |TutorialSteps()| {
        return;
      }
      var step := TutorialSteps()[stepIndex];
      saveCurveClickCount := 0;
      shownStep := stepIndex;
      UpdateControlStates(step.enabledControls);
      nextDisabled := step.completionCondition.Some?;
    }

    /** `enterFinalExplorationPhase()`, as far as the tutorial state goes: the last step is
        shown and the next button is hidden. */
    method EnterFinalExplorationPhase()
      modifies this
      ensures shownStep == |TutorialSteps()| - 1 && nextHidden
      ensures currentStepIndex == old(currentStepIndex) && saveCurveClickCount == old(saveCurveClickCount)
      ensures nextDisabled == old(nextDisabled) && disabled == old(disabled)
    {
      shownStep := |TutorialSteps()| - 1;
      nextHidden := true;
    }

    /** The next button's click handler: the index moves on by one; a step that exists is
        loaded, past the last one the final phase begins. */
    method ClickNext()
      modifies this
      ensures currentStepIndex == old(currentStepIndex) + 1
      ensures 0 <= currentStepIndex < |TutorialSteps()| ==>
        && saveCurveClickCount == 0 && shownStep == currentStepIndex
        && disabled == ControlStates(old(disabled), TutorialSteps()[currentStepIndex].enabledControls)
        && nextDisabled == TutorialSteps()[currentStepIndex].completionCondition.Some?
        && nextHidden == old(nextHidden)
      ensures currentStepIndex >= |TutorialSteps()| ==>
        && shownStep == |TutorialSteps()| - 1 && nextHidden
        && saveCurveClickCount == old(saveCurveClickCount) && nextDisabled == old(nextDisabled)
        && disabled == old(disabled)
    {
      currentStepIndex := currentStepIndex + 1;
      if currentStepIndex < |TutorialSteps()| {
        LoadStep(currentStepIndex);
      } else {
        EnterFinalExplorationPhase();
      }
    }

    /** `checkCompletion()` with the page's controls as they read now: the next button is
        disabled exactly when the decided condition is not met, and left alone when there is
        no decision. */
    method CheckCompletion(controls: map<string, Control>)
      modifies this
      ensures CompletionDecision(currentStepIndex, saveCurveClickCount, controls).Some? ==>
        nextDisabled == !CompletionDecision(currentStepIndex, saveCurveClickCount, controls).value
      ensures CompletionDecision(currentStepIndex, saveCurveClickCount, controls).None? ==>
        nextDisabled == old(nextDisabled)
      ensures currentStepIndex == old(currentStepIndex) && saveCurveClickCount == old(saveCurveClickCount)
      ensures nextHidden == old(nextHidden) && shownStep == old(shownStep) && disabled == old(disabled)
      ensures Snapshot() == Checked(old(Snapshot()), controls)
    {
      if !(0 <= currentStepIndex < |TutorialSteps()|) {
        return;
      }
      var step := TutorialSteps()[currentStepIndex];
      if step.completionCondition.None? {
        return;
      }
      var condition := step.completionCondition.value;
      if condition.controlId == SAVE_CURVE_BTN {
        var conditionMet := SaveConditionMet(condition.comparison, saveCurveClickCount, condition.targetValue);
        nextDisabled := !conditionMet;
        return;
      }
      if condition.controlId !in controls {
        return;
      }
      var currentValue := CurrentValue(controls[condition.controlId]);
      var conditionMet := ControlConditionMet(condition.comparison, currentValue, condition.targetValue);
      if conditionMet.None? {
        return;
      }
      nextDisabled := !conditionMet.value;
    }

    /** The save button's click handler, when the chart module can save: one more click is
        counted and the completion check runs. */
    method ClickSaveCurve(chartCanSave: bool, controls: map<string, Control>)
      modifies this
      ensures chartCanSave ==> saveCurveClickCount == old(saveCurveClickCount) + 1
      ensures !chartCanSave ==> saveCurveClickCount == old(saveCurveClickCount) && nextDisabled == old(nextDisabled)
      ensures chartCanSave && CompletionDecision(currentStepIndex, saveCurveClickCount, controls).Some? ==>
        nextDisabled == !CompletionDecision(currentStepIndex, saveCurveClickCount, controls).value
      ensures currentStepIndex == old(currentStepIndex) && nextHidden == old(nextHidden)
      ensures shownStep == old(shownStep) && disabled == old(disabled)
    {
      if chartCanSave {
        saveCurveClickCount := saveCurveClickCount + 1;
        CheckCompletion(controls);
      }
    }
  }

  /** Steps 2 and 4 ask for exactly one save: after loading the step the first save click
      unlocks next and a second one locks it again, since `=` is strict equality. */
  method SaveTwiceRelocks(page: TutorialPage, controls: map<string, Control>)
    returns (afterLoad: bool, afterFirst: bool, afterSecond: bool)
    modifies page
    ensures afterLoad && !afterFirst && afterSecond
  {
    page.currentStepIndex := 1;
    page.LoadStep(1);
    afterLoad := page.nextDisabled;
    page.ClickSaveCurve(true, controls);
    TutorialConditions(page.saveCurveClickCount, controls);
    afterFirst := page.nextDisabled;
    page.ClickSaveCurve(true, controls);
    TutorialConditions(page.saveCurveClickCount, controls);
    afterSecond := page.nextDisabled;
  }
}
