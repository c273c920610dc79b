/** The page's user-interface rules: the operation-log lines, the five-star rendering of a
    ten-point score, the time-scale indicator, and the two ways controls are locked — by
    the current step's configuration and wholesale while the experiment is evaluated. */
module UiManager {
  import opened Common
  import opened Text
  import opened State
  import opened FlowManager

  // ---------------------------------------------------------------------------------------
  // Operation log lines

  /** What the log display reads of a log entry; the value is given as the text a template
      literal makes of it. */
  datatype LogLine = LogLine(event: string, valueText: string)

  /** The text of one log item, after the entry's time formatted for the locale. */
  function LogText(timeStr: string, e: LogLine): (text: string)
    ensures |text| >= |timeStr| + 3 && text[..|timeStr| + 3] == timeStr + " - "
    ensures e.event == "set_temperature" ==> text == timeStr + " - 设置温度: " + e.valueText + "K"
    ensures e.event == "change_gas" ==> text == timeStr + " - 切换气体: " + e.valueText
    ensures e.event == "save_curve" ==> text == timeStr + " - 保存对比曲线"
    ensures e.event == "reset_simulation" ==> text == timeStr + " - 重置模拟"
    ensures e.event !in {"set_temperature", "change_gas", "save_curve", "reset_simulation"} ==>
      text == timeStr + " - " + e.event + ": " + e.valueText
  {
    var head := timeStr + " - ";
    var body :=
      if e.event == "set_temperature" then "设置温度: " + e.valueText + "K"
      else if e.event == "change_gas" then "切换气体: " + e.valueText
      else if e.event == "save_curve" then "保存对比曲线"
      else if e.event == "reset_simulation" then "重置模拟"
      else e.event + ": " + e.valueText;
    assert (head + body)[..|head|] == head;
    head + body
  }

  /** Saving a curve and resetting show fixed texts whatever the value, while any other
      event shows both its name and its value. */
  lemma LogTextShowsUnknownEvents(timeStr: string, e: LogLine, otherValue: string)
    ensures e.event in {"save_curve", "reset_simulation"} ==>
      LogText(timeStr, e) == LogText(timeStr, LogLine(e.event, otherValue))
    ensures e.event !in {"set_temperature", "change_gas", "save_curve", "reset_simulation"} ==>
      Contains(LogText(timeStr, e), e.event) && Contains(LogText(timeStr, e), e.valueText)
  {
    if e.event !in {"set_temperature", "change_gas", "save_curve", "reset_simulation"} {
      var t := LogText(timeStr, e);
      var i := |timeStr| + 3;
      var j := i + |e.event| + 2;
      assert t[i..i + |e.event|] == e.event;
      assert t[j..j + |e.valueText|] == e.valueText;
      ContainsAt(t, e.event, i);
      ContainsAt(t, e.valueText, j);
    }
  }

  /** The log panel: its items, when the page has one. */
  class LogPanel {
    const present: bool
    var items: seq<string>

    constructor (present: bool)
      ensures this.present == present && items == []
    {
      this.present := present;
      items := [];
    }

    /** `updateLogDisplay(logEntry)`: one item appended, when the panel exists. */
    method UpdateLogDisplay(timeStr: string, e: LogLine)
      modifies this
      ensures present ==> items == old(items) + [LogText(timeStr, e)]
      ensures !present ==> items == old(items)
    {
      if !present {
        return;
      }
      items := items + [LogText(timeStr, e)];
    }
  }

  // ---------------------------------------------------------------------------------------
  // Star rating

  /** A score as the report holds it: a number, or a value of any other type. */
  datatype Score = NumberScore(n: Num) | OtherScore

  /** `typeof score === 'number' ? Math.max(0, Math.min(10, score)) : 0`, with `None` for NaN,
      which the clamping passes through. */
  function ClampedScore(score: Score): (s: Option<real>)
    ensures s.Some? ==> 0.0 <= s.value <= 10.0
    ensures s.None? <==> score.NumberScore? && score.n.NaN?
    ensures score.NumberScore? && score.n.Fin? && 0.0 <= score.n.r <= 10.0 ==> s == Some(score.n.r)
  {
    match score
    case OtherScore => Some(0.0)
    case NumberScore(n) =>
      match n
      case Fin(r) => Some(MaxR(0.0, MinR(10.0, r)))
      case PosInf => Some(10.0)
      case NegInf => Some(0.0)
      case NaN => None
  }

  /** `Math.round(x)` for x ≥ 0: halves round up. */
  function Round(x: real): int
    requires 0.0 <= x
  {
    (x + 0.5).Floor
  }

  /** `Math.round(s / 2)`: how many of the five stars are filled. */
  function FilledStars(s: real): (filled: nat)
    requires 0.0 <= s <= 10.0
    ensures filled <= 5
    ensures (filled as real) - 0.5 <= s / 2.0 < (filled as real) + 0.5
  {
    Round(s / 2.0)
  }

  /** `c.repeat(n)` */
  function Repeat(c: char, n: nat): (r: string)
    ensures |r| == n && forall i :: 0 <= i < n ==> r[i] == c
  {
    if n == 0 then [] else [c] + Repeat(c, n - 1)
  }

  const FULL_STAR: char := '★'
  const EMPTY_STAR: char := '☆'

  /** The stars of `renderStars(score)`, without the surrounding span. A NaN score makes
      both counts NaN, and `repeat(NaN)` repeats nothing. */
  function RenderStars(score: Score): string {
    match ClampedScore(score)
    case None => ""
    case Some(s) => Repeat(FULL_STAR, FilledStars(s)) + Repeat(EMPTY_STAR, 5 - FilledStars(s))
  }

  /** Every score that is not NaN shows exactly five stars: first the filled ones, as many
      as half the clamped score rounded, then the empty ones. */
  lemma FiveStars(score: Score)
    requires !(score.NumberScore? && score.n.NaN?)
    ensures var stars, filled := RenderStars(score), FilledStars(ClampedScore(score).value);
      && |stars| == 5
      && (forall i :: 0 <= i < filled ==> stars[i] == FULL_STAR)
      && (forall i :: filled <= i < 5 ==> stars[i] == EMPTY_STAR)
  {
  }

  /** A higher score never fills fewer stars; 0 fills none and 10 fills all five. */
  lemma StarsMonotone(s1: real, s2: real)
    requires 0.0 <= s1 <= s2 <= 10.0
    ensures FilledStars(s1) <= FilledStars(s2)
    ensures FilledStars(0.0) == 0 && FilledStars(10.0) == 5
  {
    assert s1 / 2.0 + 0.5 <= s2 / 2.0 + 0.5;
  }

  // ---------------------------------------------------------------------------------------
  // Time-scale indicator

  /** The factor `updateTimeScaleIndicator` shows: the state's `simulationTimeScale` when
      it is a number, 1 otherwise. */
  function TimeScaleShown(fields: map<string, Json>): (ts: real)
    ensures "simulationTimeScale" in fields && fields["simulationTimeScale"].JNum? ==>
      ts == fields["simulationTimeScale"].n
    ensures !("simulationTimeScale" in fields && fields["simulationTimeScale"].JNum?) ==> ts == 1.0
  {
    match Get(fields, "simulationTimeScale")
    case Some(JNum(n)) => n
    case _ => 1.0
  }

  /** The initial state shows its own time scale, 0.1. */
  lemma InitialTimeScale()
    ensures TimeScaleShown(DefaultAppState()) == 0.1
  {
  }

  // ---------------------------------------------------------------------------------------
  // Locking controls

  const ALWAYS_ON: set<string> := {"submit-conclusion-btn", "ask-ai-btn", "chat-input", "trace-particle-btn"}
  const LOCK_UI_IDS: seq<string> :=
    ["temperature-slider", "gas-selector", "particles-slider", "initial-dist-select", "reset-btn", "evaluate-btn", "next-step-btn"]
  const LOCK_CONTROLS_IDS: seq<string> :=
    [ "temperature-slider", "gas-selector", "particles-slider", "initial-dist-select",
      "reset-btn", "trace-particle-btn", "ask-ai-btn", "chat-input",
      "submit-conclusion-btn", "next-step-btn", "evaluate-btn" ]
  const EVALUATE_BTN: string := "evaluate-btn"

  /** What `lockControls` decides for one id it manages: always-on controls are enabled;
      the evaluate button is enabled on the final step or once locked; with 'all' the rest
      are enabled exactly when not locked, otherwise exactly when not locked and listed. A
      step list that is not an array lists nothing. */
  predicate LockControlsDisables(id: string, enabledControls: Option<seq<string>>, isLocked: bool, isFinalStep: bool) {
    if id in ALWAYS_ON then false
    else if id == EVALUATE_BTN then !(isFinalStep || isLocked)
    else if enabledControls.Some? && "all" in enabledControls.value then isLocked
    else !(!isLocked && enabledControls.Some? && id in enabledControls.value)
  }

  /** The `disabled` flags after `lockControls`; elements it does not manage keep theirs. */
  function LockControlsState(disabled: map<string, bool>, enabledControls: Option<seq<string>>,
                             isLocked: bool, isFinalStep: bool): (r: map<string, bool>)
    ensures r.Keys == disabled.Keys
  {
    map k | k in disabled ::
      if k in LOCK_CONTROLS_IDS then LockControlsDisables(k, enabledControls, isLocked, isFinalStep) else disabled[k]
  }

  /** Once the experiment is locked every managed control except the always-on ones is
      disabled, whatever the step lists, and the evaluate button is enabled; unlocked with
      'all', every managed control except the evaluate button before the final step is
      enabled. */
  lemma LockedExperiment(disabled: map<string, bool>, enabledControls: Option<seq<string>>, isFinalStep: bool)
    ensures forall k :: k in disabled && k in LOCK_CONTROLS_IDS && k !in ALWAYS_ON && k != EVALUATE_BTN ==>
      LockControlsState(disabled, enabledControls, true, isFinalStep)[k]
    ensures EVALUATE_BTN in disabled ==> !LockControlsState(disabled, enabledControls, true, isFinalStep)[EVALUATE_BTN]
    ensures forall k :: k in disabled && k in ALWAYS_ON ==> !LockControlsState(disabled, enabledControls, true, isFinalStep)[k]
    ensures enabledControls.Some? && "all" in enabledControls.value ==>
      forall k :: k in disabled && k in LOCK_CONTROLS_IDS && k != EVALUATE_BTN ==>
        !LockControlsState(disabled, enabledControls, false, isFinalStep)[k]
  {
  }

  /** Unlocked and without 'all', a managed control other than the evaluate button is
      enabled exactly when it is always-on or listed. */
  lemma ListedControlsOnly(disabled: map<string, bool>, enabledControls: seq<string>, isFinalStep: bool, k: string)
    requires "all" !in enabledControls && k in disabled && k in LOCK_CONTROLS_IDS && k != EVALUATE_BTN
    ensures !LockControlsState(disabled, Some(enabledControls), false, isFinalStep)[k] <==>
      k in ALWAYS_ON || k in enabledControls
  {
  }

  /** `currentIdx >= totalSteps - 1`, where a missing or empty step table counts as six
      steps. */
  predicate IsFinalStep(currentIdx: int, tutorialStepsLength: Option<nat>) {
    var total := if tutorialStepsLength.Some? && tutorialStepsLength.value != 0 then tutorialStepsLength.value else 6;
    currentIdx >= total - 1
  }

  /** What `lockUI(forceLock)` leaves: every listed element that is not always-on takes
      `forceLock` as its `disabled` flag; none of the listed ids is always-on. */
  function LockUIState(disabled: map<string, bool>, forceLock: bool): (r: map<string, bool>)
    ensures r.Keys == disabled.Keys
  {
    map k | k in disabled :: if k in LOCK_UI_IDS && k !in ALWAYS_ON then forceLock else disabled[k]
  }

  /** Locking and then unlocking the interface enables every listed control and leaves
      every other element as it was, the always-on ones included. */
  lemma LockUIRoundTrip(disabled: map<string, bool>)
    ensures forall k :: k in disabled && k in LOCK_UI_IDS ==> LockUIState(disabled, true)[k]
    ensures forall k :: k in disabled && k in LOCK_UI_IDS ==> !LockUIState(LockUIState(disabled, true), false)[k]
    ensures forall k :: k in disabled && k !in LOCK_UI_IDS ==> LockUIState(LockUIState(disabled, true), false)[k] == disabled[k]
    ensures forall k :: k in disabled && k in ALWAYS_ON ==> LockUIState(disabled, true)[k] == disabled[k]
  {
  }

  /** The `disabled` flags of the page's elements by id; cursor, opacity and pointer
      events follow from them and are not part of this model. */
  class ControlPanel {
    var disabled: map<string, bool>

    constructor (elements: map<string, bool>)
      ensures disabled == elements
    {
      disabled := elements;
    }

    /** `lockUI(forceLock)` */
    method LockUI(forceLock: bool)
      modifies this
      ensures disabled == LockUIState(old(disabled), forceLock)
    {
      var i := 0;
      while i < |LOCK_UI_IDS|
        invariant 0 <= i <= |LOCK_UI_IDS|
        invariant disabled.Keys == old(disabled).Keys
        invariant forall k :: k in disabled ==>
          disabled[k] == if k in LOCK_UI_IDS[..i] && k !in ALWAYS_ON then forceLock else old(disabled)[k]
      {
        var id := LOCK_UI_IDS[i];
        if id in disabled && id !in ALWAYS_ON {
          disabled := disabled[id := forceLock];
        }
        assert LOCK_UI_IDS[..i + 1] == LOCK_UI_IDS[..i] + [id];
        i := i + 1;
      }
      assert LOCK_UI_IDS[..i] == LOCK_UI_IDS;
    }

    /** `lockControls(enabledControls)` with the state's `isFinalized`, the global
        `isExperimentLocked`, the current step index and the length of the global step
        table. */
    method LockControls(store: Store, experimentLocked: bool, enabledControls: Option<seq<string>>,
                        currentStepIndex: int, tutorialStepsLength: Option<nat>)
      modifies this
      ensures disabled == LockControlsState(old(disabled), enabledControls,
        experimentLocked || Truthy(Get(store.fields, "isFinalized")), IsFinalStep(currentStepIndex, tutorialStepsLength))
    {
      var isLocked := experimentLocked || Truthy(Get(store.fields, "isFinalized"));
      var isFinalStep := IsFinalStep(currentStepIndex, tutorialStepsLength);
      var i := 0;
      while i < |LOCK_CONTROLS_IDS|
        invariant 0 <= i <= |LOCK_CONTROLS_IDS|
        invariant disabled.Keys == old(disabled).Keys
        invariant forall k :: k in disabled ==>
          disabled[k] == if k in LOCK_CONTROLS_IDS[..i] then LockControlsDisables(k, enabledControls, isLocked, isFinalStep)
                         else old(disabled)[k]
      {
        var id := LOCK_CONTROLS_IDS[i];
        LockOne(id, enabledControls, isLocked, isFinalStep);
        assert LOCK_CONTROLS_IDS[..i + 1] == LOCK_CONTROLS_IDS[..i] + [id];
        i := i + 1;
      }
      assert LOCK_CONTROLS_IDS[..i] == LOCK_CONTROLS_IDS;
    }

    /** One pass of the `lockControls` loop: an id present on the page gets the decision
        for it; every other flag is unchanged. */
    method LockOne(id: string, enabledControls: Option<seq<string>>, isLocked: bool, isFinalStep: bool)
      modifies this
      ensures disabled == if id in old(disabled)
        then old(disabled)[id := LockControlsDisables(id, enabledControls, isLocked, isFinalStep)]
        else old(disabled)
    {
      if id in disabled {
        var shouldDisable: bool;
        if id in ALWAYS_ON {
          shouldDisable := false;
        } else if id == EVALUATE_BTN {
          shouldDisable := !(isFinalStep || isLocked);
        } else if enabledControls.Some? && "all" in enabledControls.value {
          shouldDisable := !(!isLocked);
        } else {
          shouldDisable := !(!isLocked && enabledControls.Some? && id in enabledControls.value);
        }
        disabled := disabled[id := shouldDisable];
      }
    }
  }
}
