/** The tutorial flow: the six tutorial steps with their completion conditions, the view of
    the state those conditions read, the rule that unlocks the "next" button, and the reset
    of the completion flags when the learner moves on. */
module FlowManager {
  import opened Common
  import opened State

  /** JavaScript truthiness of a state value; `None` is undefined. */
  predicate Truthy(v: Option<Json>) {
    v.Some? &&
    match v.value
    case JNull => false
    case JBool(b) => b
    case JNum(n) => n != 0.0
    case JStr(s) => s != ""
    case JObject(_, _) => true
  }

  /** `v?.key` on a state value: the property of an object, undefined otherwise. */
  function Prop(v: Option<Json>, key: string): Option<Json> {
    if v.Some? && v.value.JObject? && key in v.value.fields then Some(v.value.fields[key]) else None
  }

  /** The key of a map, `None` when absent. */
  function Get(m: map<string, Json>, key: string): Option<Json> {
    if key in m then Some(m[key]) else None
  }

  /** `x || {}` */
  function OrEmptyObject(v: Option<Json>): Json {
    if Truthy(v) then v.value else JObject(map[], false)
  }

  /** `getStateForCompletion`: the raw state with `step1`..`step3` taken from
      `stepCompletion` (`{}` when absent) and `feedbackSubmitted` made a boolean. */
  function StateForCompletion(raw: map<string, Json>): (view: map<string, Json>)
    ensures view.Keys == raw.Keys + {"step1", "step2", "step3", "feedbackSubmitted"}
    ensures forall k :: k in raw && k !in {"step1", "step2", "step3", "feedbackSubmitted"} ==> view[k] == raw[k]
    ensures view["feedbackSubmitted"] == JBool(Truthy(Get(raw, "feedbackSubmitted")))
    ensures forall n :: n in {"step1", "step2", "step3"} ==>
      view[n] == (if Truthy(Prop(Some(OrEmptyObject(Get(raw, "stepCompletion"))), n))
                  then Prop(Some(OrEmptyObject(Get(raw, "stepCompletion"))), n).value
                  else JObject(map[], false))
  {
    var sc := Some(OrEmptyObject(Get(raw, "stepCompletion")));
    raw + map[
      "step1" := OrEmptyObject(Prop(sc, "step1")),
      "step2" := OrEmptyObject(Prop(sc, "step2")),
      "step3" := OrEmptyObject(Prop(sc, "step3")),
      "feedbackSubmitted" := JBool(Truthy(Get(raw, "feedbackSubmitted")))]
  }

  /** A step's `completionCondition`: none, one of the tutorial's three predicates, or any
      other callback, whose `None` result is a thrown exception. */
  datatype Condition =
    | NoCondition
    | VariablesExplored
    | EvolutionWatched
    | ReflectionSubmitted
    | Callback(eval: map<string, Json> -> Option<bool>)

  /** The condition's truth value on the view, `None` when it throws. */
  function Evaluate(c: Condition, view: map<string, Json>): Option<bool> {
    match c
    case NoCondition => Some(true)
    case VariablesExplored =>
      Some(Truthy(Prop(Get(view, "step1"), "tempAdjusted")) && Truthy(Prop(Get(view, "step1"), "gasSwitched"))
           && Truthy(Get(view, "feedbackSubmitted")))
    case EvolutionWatched =>
      Some(Truthy(Prop(Get(view, "step2"), "evolutionModeUsed")) && Truthy(Get(view, "feedbackSubmitted")))
    case ReflectionSubmitted => Some(Truthy(Get(view, "feedbackSubmitted")))
    case Callback(eval) => eval(view)
  }

  /** Whether the condition counts as met: a missing condition does, a throwing one does not. */
  function ConditionMet(c: Condition, view: map<string, Json>): (met: bool)
    ensures c.NoCondition? ==> met
    ensures Evaluate(c, view).None? ==> !met
    ensures Evaluate(c, view).Some? ==> met == Evaluate(c, view).value
  {
    match Evaluate(c, view)
    case Some(b) => b
    case None => false
  }

  datatype TutorialStep = TutorialStep(id: nat, enabledControls: seq<string>, completionCondition: Condition)

  /** The six steps (titles and guidance text left out). */
  function TutorialSteps(): (steps: seq<TutorialStep>)
    ensures |steps| == 6
    ensures forall i :: 0 <= i < 6 ==> steps[i].id == i + 1
  {
    [ TutorialStep(1, [], NoCondition),
      TutorialStep(2, [], NoCondition),
      TutorialStep(3, ["all"], VariablesExplored),
      TutorialStep(4, ["all"], EvolutionWatched),
      TutorialStep(5, ["all"], ReflectionSubmitted),
      TutorialStep(6, ["all"], NoCondition) ]
  }

  /** What each step demands, read on the raw state: step index 2 both experiments and the
      submitted feedback, index 3 the evolution mode and the feedback, index 4 the feedback
      alone; the introduction and the free-exploration steps demand nothing. */
  lemma StepPredicates(raw: map<string, Json>)
    ensures var view, steps := StateForCompletion(raw), TutorialSteps();
      var sc := Some(OrEmptyObject(Get(raw, "stepCompletion")));
      var fb := Truthy(Get(raw, "feedbackSubmitted"));
      && ConditionMet(steps[0].completionCondition, view)
      && ConditionMet(steps[1].completionCondition, view)
      && ConditionMet(steps[5].completionCondition, view)
      && (ConditionMet(steps[2].completionCondition, view) <==>
           Truthy(Prop(Prop(sc, "step1"), "tempAdjusted")) && Truthy(Prop(Prop(sc, "step1"), "gasSwitched")) && fb)
      && (ConditionMet(steps[3].completionCondition, view) <==> Truthy(Prop(Prop(sc, "step2"), "evolutionModeUsed")) && fb)
      && (ConditionMet(steps[4].completionCondition, view) <==> fb)
  {
    var view := StateForCompletion(raw);
    var sc := Some(OrEmptyObject(Get(raw, "stepCompletion")));
    assert Get(view, "step1") == Some(OrEmptyObject(Prop(sc, "step1")));
    assert Get(view, "step2") == Some(OrEmptyObject(Prop(sc, "step2")));
    assert Get(view, "feedbackSubmitted") == Some(JBool(Truthy(Get(raw, "feedbackSubmitted"))));
  }

  datatype ButtonFlags = ButtonFlags(hidden: bool, disabled: bool)

  /** The `next-step-btn` element, when the page has one. */
  class NextButton {
    var hidden: bool
    var disabled: bool

    constructor()
      ensures !hidden && !disabled
    {
      hidden, disabled := false, false;
    }

    function Flags(): ButtonFlags
      reads this
    {
      ButtonFlags(hidden, disabled)
    }
  }

  /** `Number.isFinite(stepIndex) ? stepIndex : (window.currentStepIndex || 0)` */
  function StepIndex(stepIndex: Num, current: Option<Num>): Num {
    if stepIndex.IsFinite() then stepIndex
    else if current.Some? && !(current.value.Fin? && current.value.r == 0.0) && !current.value.NaN? then current.value
    else Fin(0.0)
  }

  /** An index at or past the last step: `idx >= tutorialSteps.length - 1`. */
  predicate AtLastStep(idx: Num, count: nat) {
    idx.PosInf? || (idx.Fin? && idx.r >= (count as real) - 1.0)
  }

  /** An index that names a step. */
  predicate IsStepIndex(idx: Num, count: nat) {
    idx.Fin? && idx.r == (idx.r.Floor as real) && 0 <= idx.r.Floor < count
  }

  /** The flags `checkAndUnlockNextButton` leaves on a button that had `before`: hidden
      at or past the last step; otherwise shown, and disabled exactly when the condition
      of the step named is not met (kept as it was when the index names no step). */
  function Unlocked(steps: seq<TutorialStep>, raw: map<string, Json>, idx: Num, before: ButtonFlags): ButtonFlags {
    if AtLastStep(idx, |steps|) then ButtonFlags(true, before.disabled)
    else if IsStepIndex(idx, |steps|) then
      ButtonFlags(false, !ConditionMet(steps[idx.r.Floor].completionCondition, StateForCompletion(raw)))
    else ButtonFlags(false, before.disabled)
  }

  /** `checkAndUnlockNextButton(stepIndex)`. Without a button nothing happens and the
      result is false. At or past the last step the button is hidden and the result is
      true. Otherwise the button is shown and disabled exactly when the step's condition is
      not met, and the result is whether it is met. An index that names no step makes the
      lookup of its condition throw (`None`) after the button was shown. */
  method CheckAndUnlockNextButton(button: Option<NextButton>, steps: seq<TutorialStep>, raw: map<string, Json>,
                                  stepIndex: Num, current: Option<Num>) returns (met: Option<bool>)
    modifies if button.Some? then {button.value} else {}
    ensures button.None? ==> met == Some(false)
    ensures button.Some? ==>
      var idx := StepIndex(stepIndex, current);
      if AtLastStep(idx, |steps|) then
        met == Some(true) && button.value.hidden && button.value.disabled == old(button.value.disabled)
      else if IsStepIndex(idx, |steps|) then
        var c := steps[idx.r.Floor].completionCondition;
        && met == Some(ConditionMet(c, StateForCompletion(raw)))
        && !button.value.hidden
        && button.value.disabled == !ConditionMet(c, StateForCompletion(raw))
      else
        met.None? && !button.value.hidden && button.value.disabled == old(button.value.disabled)
    ensures button.Some? ==>
      button.value.Flags() == Unlocked(steps, raw, StepIndex(stepIndex, current), old(button.value.Flags()))
  {
    var idx := StepIndex(stepIndex, current);
    if button.None? {
      return Some(false);
    }
    var btn := button.value;
    if AtLastStep(idx, |steps|) {
      btn.hidden := true;
      return Some(true);
    }
    btn.hidden := false;
    if !IsStepIndex(idx, |steps|) {
      return None;
    }
    var conditionMet := ConditionMet(steps[idx.r.Floor].completionCondition, StateForCompletion(raw));
    btn.disabled := !conditionMet;
    met := Some(conditionMet);
  }

  /** With the tutorial's steps, every whole index below the last one names a step, so
      the lookup never throws there. */
  lemma WholeIndicesNameSteps(i: nat)
    requires i < |TutorialSteps()| - 1
    ensures !AtLastStep(Fin(i as real), |TutorialSteps()|) && IsStepIndex(Fin(i as real), |TutorialSteps()|)
  {
  }

  function Step1Patch(): Json {
    Obj(map["tempAdjusted" := Flag(false), "gasSwitched" := Flag(false)])
  }

  function Step2Patch(): Json {
    Obj(map["evolutionModeUsed" := Flag(false)])
  }

  function StepCompletionPatch(): Json {
    Obj(map["step1" := Step1Patch(), "step2" := Step2Patch(), "step3" := Obj(map[])])
  }

  /** The patch `advanceStep` writes: all completion flags and the feedback flag false. */
  function ResetPatch(): Json {
    Obj(map["stepCompletion" := StepCompletionPatch(), "feedbackSubmitted" := Flag(false)])
  }

  /** `advanceStep`: the reset patch deep-merged into the state. */
  method AdvanceStep(store: Store)
    modifies store
    ensures store.fields == DeepMerge(old(store.fields), ResetPatch())
    ensures store.appMode == old(store.appMode) && store.histogramHistory == old(store.histogramHistory)
    ensures store.operationLog == old(store.operationLog) && store.logEntries == old(store.logEntries)
  {
    store.UpdateState(Some(ResetPatch()));
  }

  /** A key of the patch ends with the merge of the patch's value into the target's. */
  lemma MergeAtKey(target: map<string, Json>, source: Json, k: string)
    requires source.JObject? && k in source.fields
    ensures Get(MergeInto(target, source), k) == Some(MergeValue(Get(target, k), source.fields[k]))
  {
  }

  /** Inside a merged plain object, a key of the patch ends with the merge of the patch's
      value into the old value's property. */
  lemma MergeValueAtKey(t: Option<Json>, sv: Json, k: string)
    requires IsPlainObject(sv) && k in sv.fields
    ensures Prop(Some(MergeValue(t, sv)), k) == Some(MergeValue(Prop(t, k), sv.fields[k]))
  {
    var base := if t.Some? && t.value.JObject? then t.value else JObject(map[], false);
    MergeAtKey(base.fields, sv, k);
    assert Get(base.fields, k) == Prop(t, k);
  }

  /** After the reset every flag the conditions read is false, so no step with a condition
      is complete until the learner acts again. */
  lemma AdvanceResetsFlags(fields: map<string, Json>)
    ensures var after := DeepMerge(fields, ResetPatch());
      var sc := Some(OrEmptyObject(Get(after, "stepCompletion")));
      && Get(after, "feedbackSubmitted") == Some(JBool(false))
      && Prop(Prop(sc, "step1"), "tempAdjusted") == Some(JBool(false))
      && Prop(Prop(sc, "step1"), "gasSwitched") == Some(JBool(false))
      && Prop(Prop(sc, "step2"), "evolutionModeUsed") == Some(JBool(false))
  {
    var after := DeepMerge(fields, ResetPatch());
    MergeAtKey(fields, ResetPatch(), "feedbackSubmitted");
    MergeAtKey(fields, ResetPatch(), "stepCompletion");
    var old_sc := Get(fields, "stepCompletion");
    var sc := MergeValue(old_sc, StepCompletionPatch());
    assert Get(after, "stepCompletion") == Some(sc);
    assert OrEmptyObject(Some(sc)) == sc;
    MergeValueAtKey(old_sc, StepCompletionPatch(), "step1");
    MergeValueAtKey(old_sc, StepCompletionPatch(), "step2");
    MergeValueAtKey(Prop(old_sc, "step1"), Step1Patch(), "tempAdjusted");
    MergeValueAtKey(Prop(old_sc, "step1"), Step1Patch(), "gasSwitched");
    MergeValueAtKey(Prop(old_sc, "step2"), Step2Patch(), "evolutionModeUsed");
  }

  /** The view's feedback flag is the raw flag's truthiness. */
  lemma ViewFeedback(raw: map<string, Json>)
    ensures Get(StateForCompletion(raw), "feedbackSubmitted") == Some(JBool(Truthy(Get(raw, "feedbackSubmitted"))))
  {
  }

  /** Without submitted feedback no step with a condition is complete. */
  lemma NoFeedbackLocks(view: map<string, Json>, i: nat)
    requires Get(view, "feedbackSubmitted") == Some(JBool(false)) && 2 <= i <= 4
    ensures !ConditionMet(TutorialSteps()[i].completionCondition, view)
  {
    var c := TutorialSteps()[i].completionCondition;
    assert c.VariablesExplored? || c.EvolutionWatched? || c.ReflectionSubmitted?;
  }

  /** Right after advancing, the next button stays locked on every step with a condition. */
  lemma AdvanceLocksConditionalSteps(fields: map<string, Json>, i: nat)
    requires 2 <= i <= 4
    ensures !ConditionMet(TutorialSteps()[i].completionCondition, StateForCompletion(DeepMerge(fields, ResetPatch())))
  {
    var after := DeepMerge(fields, ResetPatch());
    AdvanceResetsFlags(fields);
    ViewFeedback(after);
    NoFeedbackLocks(StateForCompletion(after), i);
  }
}
