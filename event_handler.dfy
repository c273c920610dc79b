/** The page's event handlers: the single-particle tracer's mode machine (inactive →
    selecting → active) driven by the trace button and canvas clicks, the guidance text
    areas that record whether a step's text is filled, and the chat and conclusion
    submissions. */
module EventHandler {
  import opened Common
  import opened MathLib
  import opened Text
  import opened State
  import opened FlowManager
  import Simulation
  import MainFlow
  import opened ApiClient

  // ---------------------------------------------------------------------------------------
  // Tracer mode

  /** `st.tracerMode || 'inactive'` */
  function ModeOf(fields: map<string, Json>): Json {
    if Truthy(Get(fields, "tracerMode")) then Get(fields, "tracerMode").value else JStr("inactive")
  }

  function SelectingPatch(): Json {
    Obj(map["tracerMode" := JStr("selecting"), "tracedParticleId" := JNull])
  }

  function InactivePatch(): Json {
    Obj(map["tracerMode" := JStr("inactive"), "tracedParticleId" := JNull])
  }

  function ActivePatch(id: nat): Json {
    Obj(map["tracedParticleId" := JNum(id as real), "tracerMode" := JStr("active")])
  }

  /** The three patches the handlers write set the mode and the traced id they name and
      leave every other key of the state alone. */
  lemma ModePatches(fields: map<string, Json>, id: nat)
    ensures ModeOf(DeepMerge(fields, SelectingPatch())) == JStr("selecting")
    ensures Get(DeepMerge(fields, SelectingPatch()), "tracedParticleId") == Some(JNull)
    ensures ModeOf(DeepMerge(fields, InactivePatch())) == JStr("inactive")
    ensures Get(DeepMerge(fields, InactivePatch()), "tracedParticleId") == Some(JNull)
    ensures ModeOf(DeepMerge(fields, ActivePatch(id))) == JStr("active")
    ensures Get(DeepMerge(fields, ActivePatch(id)), "tracedParticleId") == Some(JNum(id as real))
    ensures forall k :: k in fields && k !in {"tracerMode", "tracedParticleId"} ==>
      DeepMerge(fields, SelectingPatch())[k] == fields[k] && DeepMerge(fields, InactivePatch())[k] == fields[k]
      && DeepMerge(fields, ActivePatch(id))[k] == fields[k]
  {
  }

  /** The trace button's patch: from inactive to selecting, from any other mode back to
      inactive. */
  function TogglePatch(fields: map<string, Json>): Json {
    if ModeOf(fields) == JStr("inactive") then SelectingPatch() else InactivePatch()
  }

  /** The trace button cycles the mode: inactive becomes selecting, and selecting, active
      or any other stored mode becomes inactive, so two presses from inactive come back to
      inactive with no particle traced. */
  lemma ToggleCycle(fields: map<string, Json>)
    ensures var once := DeepMerge(fields, TogglePatch(fields));
      && ModeOf(once) == (if ModeOf(fields) == JStr("inactive") then JStr("selecting") else JStr("inactive"))
      && Get(once, "tracedParticleId") == Some(JNull)
    ensures var once := DeepMerge(fields, TogglePatch(fields));
      ModeOf(fields) == JStr("inactive") ==>
        var twice := DeepMerge(once, TogglePatch(once));
        ModeOf(twice) == JStr("inactive") && Get(twice, "tracedParticleId") == Some(JNull)
  {
    var once := DeepMerge(fields, TogglePatch(fields));
    ModePatches(fields, 0);
    ModePatches(once, 0);
  }

  /** A particle of the running simulation as the click handler reads it; a zero
      `circleRadius` is a missing one. */
  datatype SimBody = SimBody(id: nat, position: Point, circleRadius: real)

  /** `tracerData` of the simulation state. */
  datatype TracerData = TracerData(totalDistance: real, collisionCount: nat, lastPosition: Option<Point>)

  /** `(config && config.particleRadius) || sim.particleRadius || 5`: the first radius that
      is present and not zero. */
  function ClickRadius(configRadius: Option<real>, simRadius: Option<real>): (r: real)
    ensures configRadius.Some? && configRadius.value != 0.0 ==> r == configRadius.value
    ensures (configRadius.None? || configRadius.value == 0.0) && simRadius.Some? && simRadius.value != 0.0 ==> r == simRadius.value
    ensures (configRadius.None? || configRadius.value == 0.0) && (simRadius.None? || simRadius.value == 0.0) ==> r == 5.0
  {
    if configRadius.Some? && configRadius.value != 0.0 then configRadius.value
    else if simRadius.Some? && simRadius.value != 0.0 then simRadius.value
    else 5.0
  }

  /** The click at (x, y) lies within the body's own radius, or the fallback radius when
      the body has none. */
  predicate Hit(mth: Transcendentals, b: SimBody, x: real, y: real, radius: real) {
    Sqrt(mth, SquaredDistance(b.position, x, y)) <= HitRadius(b, radius)
  }

  /** dx² + dy² between a body's centre and the click. */
  function SquaredDistance(p: Point, x: real, y: real): real {
    (p.x - x) * (p.x - x) + (p.y - y) * (p.y - y)
  }

  /** `p.circleRadius || radius` */
  function HitRadius(b: SimBody, radius: real): real {
    if b.circleRadius != 0.0 then b.circleRadius else radius
  }

  /** `particles.find(hit)`, as the index of the first body hit. */
  function FindClicked(mth: Transcendentals, bodies: seq<SimBody>, x: real, y: real, radius: real): (r: Option<nat>)
    ensures r.Some? ==> r.value < |bodies| && Hit(mth, bodies[r.value], x, y, radius)
    ensures r.Some? ==> forall j :: 0 <= j < r.value ==> !Hit(mth, bodies[j], x, y, radius)
    ensures r.None? ==> forall j :: 0 <= j < |bodies| ==> !Hit(mth, bodies[j], x, y, radius)
  {
    if |bodies| == 0 then None
    else if Hit(mth, bodies[0], x, y, radius) then Some(0)
    else
      match FindClicked(mth, bodies[1..], x, y, radius)
      case None => None
      case Some(i) => Some(i + 1)
  }

  /** With a lawful square root and a non-negative radius, a hit is a click inside the
      closed disc: dx² + dy² ≤ r². */
  lemma HitIsInsideDisc(mth: Transcendentals, b: SimBody, x: real, y: real, radius: real)
    requires Lawful(mth) && 0.0 <= HitRadius(b, radius)
    ensures Hit(mth, b, x, y, radius) <==> SquaredDistance(b.position, x, y) <= HitRadius(b, radius) * HitRadius(b, radius)
  {
    var dx, dy := b.position.x - x, b.position.y - y;
    var r, d := HitRadius(b, radius), SquaredDistance(b.position, x, y);
    assert 0.0 <= dx * dx && 0.0 <= dy * dy;
    SqrtSquared(mth, d);
    var s := Sqrt(mth, d);
    if s <= r {
      MulLeft(s, r, s);
      MulLeft(s, r, r);
      assert r * s == s * r;
    } else {
      SquareStrict(r, s);
    }
  }

  /** The simulation state the click handler reaches (`SimulationModule.state`). */
  class TracedSim {
    var particles: seq<SimBody>
    /** `sim.particleRadius`; `None` when it is undefined. */
    var particleRadius: Option<real>
    var tracedParticleId: Option<nat>
    var tracerData: Option<TracerData>
    var tracerFrameCounter: nat

    constructor (particles: seq<SimBody>, particleRadius: Option<real>)
      ensures this.particles == particles && this.particleRadius == particleRadius
      ensures tracedParticleId.None? && tracerData.None? && tracerFrameCounter == 0
    {
      this.particles := particles;
      this.particleRadius := particleRadius;
      tracedParticleId := None;
      tracerData := None;
      tracerFrameCounter := 0;
    }
  }

  /** The selection overlay over the simulation panel and the canvas cursor. The overlay
      can only be created inside the panel. */
  class TracerUi {
    const hasPanel: bool
    var overlayShown: bool
    var cursor: string

    constructor (hasPanel: bool)
      ensures this.hasPanel == hasPanel && !overlayShown && cursor == "default"
    {
      this.hasPanel := hasPanel;
      overlayShown := false;
      cursor := "default";
    }
  }

  /** The trace button's handler. From inactive the simulation is paused, the overlay shown
      and the cursor a crosshair; from any other mode the overlay goes, the cursor is reset
      and the simulation restarted (the `resetTracerStats` it then looks for is not offered
      by the simulation module, so that step does nothing). Either way the mode patch is
      written and the traced id cleared. */
  method HandleTraceToggle(store: Store, sim: Simulation.SimulationState, ui: TracerUi, now: real, frame: int)
    modifies store, sim, ui
    ensures store.fields == DeepMerge(old(store.fields), TogglePatch(old(store.fields)))
    ensures ModeOf(old(store.fields)) == JStr("inactive") ==>
      !sim.isRunning && (ui.hasPanel ==> ui.overlayShown) && ui.cursor == "crosshair"
    ensures ModeOf(old(store.fields)) != JStr("inactive") ==>
      sim.isRunning && !ui.overlayShown && ui.cursor == "default"
    ensures sim.particles == old(sim.particles)
    ensures store.appMode == old(store.appMode) && store.histogramHistory == old(store.histogramHistory)
    ensures store.operationLog == old(store.operationLog) && store.logEntries == old(store.logEntries)
  {
    var mode := ModeOf(store.fields);
    if mode == JStr("inactive") {
      sim.PauseSimulation();
      if ui.hasPanel {
        ui.overlayShown := true;
      }
      ui.cursor := "crosshair";
      store.UpdateState(Some(SelectingPatch()));
    } else {
      ui.overlayShown := false;
      ui.cursor := "default";
      sim.StartSimulation(now, frame);
      store.UpdateState(Some(InactivePatch()));
    }
  }

  /** The canvas click handler, with the click at (x, y) in canvas coordinates,
      `traced` the simulation state (`None` when the module does not expose one) and
      `configRadius` the configured particle radius; a body without a radius of its own is
      hit within `ClickRadius` of that and the state's radius. Outside
      selecting mode, without a simulation state, or when no particle is hit, nothing
      changes. Otherwise the first particle hit becomes the traced one: its tracer
      statistics restart at its position, the mode becomes active and the simulation runs. */
  method HandleCanvasClick(mth: Transcendentals, store: Store, sim: Simulation.SimulationState, ui: TracerUi,
                           traced: Option<TracedSim>, x: real, y: real, configRadius: Option<real>, now: real, frame: int)
    returns (picked: Option<nat>)
    modifies store, sim, ui, if traced.Some? then {traced.value} else {}
    ensures ModeOf(old(store.fields)) != JStr("selecting") || traced.None? ==> picked.None?
    ensures ModeOf(old(store.fields)) == JStr("selecting") && traced.Some? ==>
      picked == FindClicked(mth, old(traced.value.particles), x, y, ClickRadius(configRadius, old(traced.value.particleRadius)))
    ensures picked.None? ==>
      && store.fields == old(store.fields) && sim.isRunning == old(sim.isRunning)
      && ui.overlayShown == old(ui.overlayShown) && ui.cursor == old(ui.cursor)
      && (traced.Some? ==> traced.value.tracedParticleId == old(traced.value.tracedParticleId)
                           && traced.value.tracerData == old(traced.value.tracerData))
    ensures picked.Some? ==>
      && traced.Some? && picked.value < |traced.value.particles|
      && var b := traced.value.particles[picked.value];
      && traced.value.tracedParticleId == Some(b.id)
      && traced.value.tracerData == Some(TracerData(0.0, 0, Some(b.position)))
      && traced.value.tracerFrameCounter == 0
      && store.fields == DeepMerge(old(store.fields), ActivePatch(b.id))
      && sim.isRunning && !ui.overlayShown && ui.cursor == "default"
    ensures traced.Some? ==> traced.value.particles == old(traced.value.particles)
    ensures traced.Some? ==> traced.value.particleRadius == old(traced.value.particleRadius)
    ensures sim.particles == old(sim.particles)
    ensures store.appMode == old(store.appMode) && store.histogramHistory == old(store.histogramHistory)
    ensures store.operationLog == old(store.operationLog) && store.logEntries == old(store.logEntries)
  {
    picked := None;
    if ModeOf(store.fields) != JStr("selecting") {
      return;
    }
    if traced.None? {
      return;
    }
    var state := traced.value;
    var radius := ClickRadius(configRadius, state.particleRadius);
    picked := FindClicked(mth, state.particles, x, y, radius);
    if picked.None? {
      return;
    }
    var clicked := state.particles[picked.value];
    state.tracedParticleId := Some(clicked.id);
    state.tracerData := Some(TracerData(0.0, 0, Some(clicked.position)));
    state.tracerFrameCounter := 0;
    store.UpdateState(Some(ActivePatch(clicked.id)));
    ui.overlayShown := false;
    ui.cursor := "default";
    sim.StartSimulation(now, frame);
  }

  /** The simulation state the page's click handler finds: `simulation.js` exports nothing,
      and the `window.SimulationModule` object it sets up has no `state`, so
      `SimulationModule.state || window.SimulationModule?.state` is always undefined. */
  function ExposedSimulationState(): Option<TracedSim> {
    None
  }

  /** The canvas click handler as the page runs it, with the simulation state it finds: in
      every mode and wherever the click lands, no particle is picked and nothing changes. */
  method HandleCanvasClickAsWritten(mth: Transcendentals, store: Store, sim: Simulation.SimulationState, ui: TracerUi,
                                    x: real, y: real, configRadius: Option<real>, now: real, frame: int)
    returns (picked: Option<nat>)
    modifies store, sim, ui
    ensures picked.None?
    ensures store.fields == old(store.fields) && sim.isRunning == old(sim.isRunning) && sim.particles == old(sim.particles)
    ensures ui.overlayShown == old(ui.overlayShown) && ui.cursor == old(ui.cursor)
    ensures store.appMode == old(store.appMode) && store.histogramHistory == old(store.histogramHistory)
    ensures store.operationLog == old(store.operationLog) && store.logEntries == old(store.logEntries)
  {
    picked := HandleCanvasClick(mth, store, sim, ui, ExposedSimulationState(), x, y, configRadius, now, frame);
  }

  // ---------------------------------------------------------------------------------------
  // The next-step button

  /** What a handler re-decides once it has written the state: the `next-step-btn`
      element (`None` when the page has none), the tutorial page whose `checkCompletion`
      is global (`None` when no such function is defined), and the controls that check
      reads. */
  datatype Flow = Flow(button: Option<NextButton>, page: Option<MainFlow.TutorialPage>,
                       controls: map<string, MainFlow.Control>)
  {
    function Objects(): set<object> {
      var b: set<object> := if button.Some? then {button.value} else {};
      var p: set<object> := if page.Some? then {page.value} else {};
      b + p
    }
  }

  /** `checkAndUnlockNextButton(window.currentStepIndex || 0)` has run on the state `raw`. */
  twostate predicate ButtonRechecked(flow: Flow, raw: map<string, Json>, stepIndex: int)
    reads flow.Objects()
  {
    flow.button.Some? ==>
      flow.button.value.Flags() == Unlocked(TutorialSteps(), raw, Fin(stepIndex as real), old(flow.button.value.Flags()))
  }

  /** `window.checkCompletion()` has run, when the page defines it. */
  twostate predicate PageRechecked(flow: Flow)
    reads flow.Objects()
  {
    flow.page.Some? ==> flow.page.value.Snapshot() == MainFlow.Checked(old(flow.page.value.Snapshot()), flow.controls)
  }

  twostate predicate ButtonUnchanged(flow: Flow)
    reads flow.Objects()
  {
    flow.button.Some? ==> flow.button.value.Flags() == old(flow.button.value.Flags())
  }

  twostate predicate PageUnchanged(flow: Flow)
    reads flow.Objects()
  {
    flow.page.Some? ==> flow.page.value.Snapshot() == old(flow.page.value.Snapshot())
  }

  /** The guarded `window.checkAndUnlockNextButton(window.currentStepIndex || 0)`. */
  method UnlockNext(flow: Flow, raw: map<string, Json>, stepIndex: int)
    modifies flow.Objects()
    ensures ButtonRechecked(flow, raw, stepIndex) && PageUnchanged(flow)
  {
    var _ := CheckAndUnlockNextButton(flow.button, TutorialSteps(), raw, Fin(stepIndex as real), Some(Fin(stepIndex as real)));
  }

  /** The guarded `window.checkCompletion()`. */
  method CheckPage(flow: Flow)
    modifies flow.Objects()
    ensures PageRechecked(flow) && ButtonUnchanged(flow)
  {
    if flow.page.Some? {
      flow.page.value.CheckCompletion(flow.controls);
    }
  }

  // ---------------------------------------------------------------------------------------
  // Guidance text areas

  /** The text area of each guided step: steps 0 to 3 have one. */
  function GuidanceTextId(stepIndex: int): (id: Option<string>)
    ensures id.Some? <==> 0 <= stepIndex <= 3
  {
    if stepIndex == 0 then Some("guided1-text")
    else if stepIndex == 1 then Some("guided2-text")
    else if stepIndex == 2 then Some("guided3-text")
    else if stepIndex == 3 then Some("guided4-text")
    else None
  }

  /** A text counts as filled when it is not empty after trimming. */
  predicate Filled(value: string) {
    Trim(value) != ""
  }

  /** Filled means: some character is not white space. */
  lemma FilledIff(value: string)
    ensures Filled(value) <==> !AllWhitespace(value)
  {
    TrimEmptyIff(value);
  }

  /** The state key of the first three steps. */
  function StepKey(stepIndex: int): string
    requires 0 <= stepIndex <= 2
  {
    if stepIndex == 0 then "step1" else if stepIndex == 1 then "step2" else "step3"
  }

  /** The patch the input handler writes: `{stepN: {text_filled}}` for steps 0 to 2, none
      for step 3. */
  function GuidancePatch(stepIndex: int, filled: bool): (p: Option<Json>)
    ensures p.Some? <==> 0 <= stepIndex <= 2
  {
    if 0 <= stepIndex <= 2 then Some(Obj(map[StepKey(stepIndex) := Obj(map["text_filled" := Flag(filled)])]))
    else None
  }

  /** The input handler: writes whether the text is filled for steps 0 to 2, then runs
      the page's completion check. */
  method HandleGuidanceInput(store: Store, flow: Flow, stepIndex: int, value: string)
    modifies store, flow.Objects()
    ensures GuidancePatch(stepIndex, Filled(value)).Some? ==>
      store.fields == DeepMerge(old(store.fields), GuidancePatch(stepIndex, Filled(value)).value)
    ensures GuidancePatch(stepIndex, Filled(value)).None? ==> store.fields == old(store.fields)
    ensures PageRechecked(flow) && ButtonUnchanged(flow)
    ensures store.appMode == old(store.appMode) && store.histogramHistory == old(store.histogramHistory)
    ensures store.operationLog == old(store.operationLog) && store.logEntries == old(store.logEntries)
  {
    FillGuidance(store, stepIndex, value);
    CheckPage(flow);
  }

  /** The state update of the text-area handler: the step's `text_filled` flag, when the
      step has one. */
  method FillGuidance(store: Store, stepIndex: int, value: string)
    modifies store
    ensures GuidancePatch(stepIndex, Filled(value)).Some? ==>
      store.fields == DeepMerge(old(store.fields), GuidancePatch(stepIndex, Filled(value)).value)
    ensures GuidancePatch(stepIndex, Filled(value)).None? ==> store.fields == old(store.fields)
    ensures store.appMode == old(store.appMode) && store.histogramHistory == old(store.histogramHistory)
    ensures store.operationLog == old(store.operationLog) && store.logEntries == old(store.logEntries)
  {
    var patch := GuidancePatch(stepIndex, Filled(value));
    if patch.Some? {
      store.UpdateState(patch);
    }
  }

  /** `attachGuidanceInputListeners(stepIndex)` with the page's text areas by id: a step
      without a text area, or whose text area is missing, is ignored; otherwise the handler
      runs once straight away and the text area it is attached to is returned. */
  method AttachGuidanceInputListeners(store: Store, flow: Flow, stepIndex: int, textareas: map<string, string>)
    returns (attached: Option<string>)
    modifies store, flow.Objects()
    ensures attached.Some? <==> GuidanceTextId(stepIndex).Some? && GuidanceTextId(stepIndex).value in textareas
    ensures attached.Some? ==> attached == GuidanceTextId(stepIndex)
    ensures attached.Some? && 0 <= stepIndex <= 2 ==>
      store.fields == DeepMerge(old(store.fields), GuidancePatch(stepIndex, Filled(textareas[attached.value])).value)
    ensures attached.None? || stepIndex == 3 ==> store.fields == old(store.fields)
    ensures attached.Some? ==> PageRechecked(flow)
    ensures attached.None? ==> PageUnchanged(flow)
    ensures ButtonUnchanged(flow)
    ensures store.appMode == old(store.appMode) && store.histogramHistory == old(store.histogramHistory)
    ensures store.operationLog == old(store.operationLog) && store.logEntries == old(store.logEntries)
  {
    var textId := GuidanceTextId(stepIndex);
    if textId.None? || textId.value !in textareas {
      return None;
    }
    HandleGuidanceInput(store, flow, stepIndex, textareas[textId.value]);
    attached := textId;
  }

  /** The handler sets the step's `text_filled` and, the merge being deep, keeps every other
      flag of that step. */
  lemma GuidanceKeepsOtherFlags(fields: map<string, Json>, stepIndex: int, filled: bool, k: string)
    requires 0 <= stepIndex <= 2 && k != "text_filled"
    ensures var after := DeepMerge(fields, GuidancePatch(stepIndex, filled).value);
      && Prop(Get(after, StepKey(stepIndex)), "text_filled") == Some(JBool(filled))
      && (Get(fields, StepKey(stepIndex)).Some? && Get(fields, StepKey(stepIndex)).value.JObject? ==>
            Prop(Get(after, StepKey(stepIndex)), k) == Prop(Get(fields, StepKey(stepIndex)), k))
  {
    var key := StepKey(stepIndex);
    var patch := GuidancePatch(stepIndex, filled).value;
    var inner := Obj(map["text_filled" := Flag(filled)]);
    assert patch.fields[key] == inner;
    MergeAtKey(fields, patch, key);
    MergeValueAtKey(Get(fields, key), inner, "text_filled");
    var t := Get(fields, key);
    if t.Some? && t.value.JObject? {
      assert MergeValue(t, inner) == JObject(MergeInto(t.value.fields, inner), t.value.isArray);
    }
  }

  // ---------------------------------------------------------------------------------------
  // Chat and conclusions

  datatype QaEntry = QaEntry(timestamp: string, question: string)
  datatype FeedbackEntry = FeedbackEntry(stepId: int, content: string, timestamp: string)

  /** How the critique request ended: a response body whose `critique` may be missing, a
      response that is not ok, or a thrown error. */
  datatype CritiqueOutcome = Critique(critique: Option<string>) | Unavailable | NetworkError

  const APOLOGY: string := "抱歉，我现在无法回答您的问题。请稍后再试。"
  const CRITIQUE_DEFAULT: string := "批改已生成。"
  const CRITIQUE_UNAVAILABLE: string := "批改服务暂不可用，请稍后再试。"
  const CRITIQUE_NETWORK: string := "网络错误或服务不可用，请稍后再试。"
  const SUBMIT_LABEL: string := "提交实验结论"

  /** The assistant message a critique outcome shows. */
  function CritiqueReply(outcome: CritiqueOutcome): (text: string)
    ensures outcome.Critique? && outcome.critique.Some? && outcome.critique.value != "" ==> text == outcome.critique.value
    ensures outcome.Critique? && (outcome.critique.None? || outcome.critique.value == "") ==> text == CRITIQUE_DEFAULT
    ensures outcome.Unavailable? ==> text == CRITIQUE_UNAVAILABLE
    ensures outcome.NetworkError? ==> text == CRITIQUE_NETWORK
  {
    match outcome
    case Critique(c) => if c.Some? && c.value != "" then c.value else CRITIQUE_DEFAULT
    case Unavailable => CRITIQUE_UNAVAILABLE
    case NetworkError => CRITIQUE_NETWORK
  }

  function FeedbackPatch(): Json {
    Obj(map["feedbackSubmitted" := Flag(true)])
  }

  /** The state after a message is sent from step `stepIndex`: feedback is submitted, and
      for steps 0 to 2 that step's text counts as filled. */
  function SendPatched(fields: map<string, Json>, stepIndex: int): map<string, Json> {
    var f := DeepMerge(fields, FeedbackPatch());
    if 0 <= stepIndex <= 2 then DeepMerge(f, GuidancePatch(stepIndex, true).value) else f
  }

  /** The state updates of a sent message: feedback is recorded and the next button
      re-decided on that state, then the step's text is marked as filled and the page's
      completion check runs. */
  method RecordSend(store: Store, flow: Flow, stepIndex: int)
    modifies store, flow.Objects()
    ensures store.fields == SendPatched(old(store.fields), stepIndex)
    ensures ButtonRechecked(flow, DeepMerge(old(store.fields), FeedbackPatch()), stepIndex)
    ensures PageRechecked(flow)
    ensures store.appMode == old(store.appMode) && store.histogramHistory == old(store.histogramHistory)
    ensures store.operationLog == old(store.operationLog) && store.logEntries == old(store.logEntries)
  {
    store.UpdateState(Some(FeedbackPatch()));
    UnlockNext(flow, store.fields, stepIndex);
    if 0 <= stepIndex <= 2 {
      store.UpdateState(GuidancePatch(stepIndex, true));
    }
    CheckPage(flow);
  }

  /** The chat panel: the conversation sent to the model, the messages shown, whether a
      reply is pending, the input and the two buttons, and the question and feedback
      histories of the application state. */
  class ChatSession {
    var chatHistory: seq<ChatMessage>
    var chatLog: seq<ChatMessage>
    var isThinking: bool
    var inputValue: string
    var askDisabled: bool
    var submitDisabled: bool
    var submitText: string
    var qaHistory: seq<QaEntry>
    var feedbackHistory: seq<FeedbackEntry>

    constructor ()
      ensures chatHistory == [] && chatLog == [] && !isThinking && inputValue == ""
      ensures !askDisabled && submitDisabled && qaHistory == [] && feedbackHistory == []
    {
      chatHistory := [];
      chatLog := [];
      isThinking := false;
      inputValue := "";
      askDisabled := false;
      submitDisabled := true;
      submitText := SUBMIT_LABEL;
      qaHistory := [];
      feedbackHistory := [];
    }

    /** `handleSendMessage` up to the point where it waits for the reply. With the chat
        elements missing, an input that is empty after trimming, or a reply still pending,
        nothing changes. Otherwise the question is shown, added to the conversation and the
        question history, the state records the feedback (the next button being re-decided
        on that state) and the step's filled text (the page's completion check then running),
        the input is cleared and the ask button locked until the reply arrives.
        `requestAsWritten` is the message list the page sends: the conversation already
        ending with the question, followed by the question again. `request` is the list
        meant, built from the conversation before the question (`ApiClient.SendRequest`);
        it is the one the rest of the model uses. */
    method BeginSendMessage(store: Store, flow: Flow, elementsPresent: bool, stepIndex: int, timestamp: string)
      returns (sent: bool, request: seq<ChatMessage>, requestAsWritten: seq<ChatMessage>)
      modifies this, store, flow.Objects()
      ensures sent <==> elementsPresent && Trim(old(inputValue)) != "" && !old(isThinking)
      ensures !sent ==>
        && chatHistory == old(chatHistory) && chatLog == old(chatLog) && isThinking == old(isThinking)
        && inputValue == old(inputValue) && askDisabled == old(askDisabled) && qaHistory == old(qaHistory)
        && store.fields == old(store.fields) && request == [] && requestAsWritten == []
        && ButtonUnchanged(flow) && PageUnchanged(flow)
      ensures sent ==>
        var message := Trim(old(inputValue));
        && chatHistory == old(chatHistory) + [UserMessage(message)]
        && chatLog == old(chatLog) + [UserMessage(message)]
        && qaHistory == old(qaHistory) + [QaEntry(timestamp, message)]
        && store.fields == SendPatched(old(store.fields), stepIndex)
        && ButtonRechecked(flow, DeepMerge(old(store.fields), FeedbackPatch()), stepIndex) && PageRechecked(flow)
        && inputValue == "" && askDisabled && isThinking
      ensures sent ==> request == SendRequest(old(chatHistory), Trim(old(inputValue)))
      ensures sent ==> requestAsWritten == SendRequestAsWritten(old(chatHistory), Trim(old(inputValue)))
      ensures submitDisabled == old(submitDisabled) && feedbackHistory == old(feedbackHistory)
      ensures store.appMode == old(store.appMode) && store.histogramHistory == old(store.histogramHistory)
      ensures store.operationLog == old(store.operationLog) && store.logEntries == old(store.logEntries)
    {
      var message := Trim(inputValue);
      if !elementsPresent || message == "" || isThinking {
        return false, [], [];
      }
      request := SendRequest(chatHistory, message);
      ShowQuestion(store, flow, stepIndex, timestamp, message);
      requestAsWritten := RequestMessages(message, chatHistory);
      sent := true;
    }

    /** The updates of a question that is sent. */
    method ShowQuestion(store: Store, flow: Flow, stepIndex: int, timestamp: string, message: string)
      modifies this, store, flow.Objects()
      ensures chatHistory == old(chatHistory) + [UserMessage(message)]
      ensures chatLog == old(chatLog) + [UserMessage(message)]
      ensures qaHistory == old(qaHistory) + [QaEntry(timestamp, message)]
      ensures store.fields == SendPatched(old(store.fields), stepIndex)
      ensures ButtonRechecked(flow, DeepMerge(old(store.fields), FeedbackPatch()), stepIndex) && PageRechecked(flow)
      ensures inputValue == "" && askDisabled && isThinking
      ensures submitDisabled == old(submitDisabled) && feedbackHistory == old(feedbackHistory)
      ensures store.appMode == old(store.appMode) && store.histogramHistory == old(store.histogramHistory)
      ensures store.operationLog == old(store.operationLog) && store.logEntries == old(store.logEntries)
    {
      chatLog := chatLog + [UserMessage(message)];
      chatHistory := chatHistory + [UserMessage(message)];
      qaHistory := qaHistory + [QaEntry(timestamp, message)];
      RecordSend(store, flow, stepIndex);
      inputValue := "";
      askDisabled := true;
      isThinking := true;
    }

    /** The rest of `handleSendMessage` once the request has ended. `outcome` is `None`
        when the call itself rejected; otherwise the answer is the text the outcome turns
        into, which is shown and joins the conversation. After a rejection an apology is
        shown and the conversation is left as it was. Either way the ask button is
        unlocked and no reply is pending any more. */
    method CompleteSendMessage(outcome: Option<ChatOutcome>)
      modifies this
      ensures outcome.Some? ==> chatLog == old(chatLog) + [ChatMessage("assistant", AiReply(outcome.value))]
      ensures outcome.Some? ==> chatHistory == old(chatHistory) + [ChatMessage("assistant", AiReply(outcome.value))]
      ensures outcome.None? ==> chatLog == old(chatLog) + [ChatMessage("assistant", APOLOGY)]
      ensures outcome.None? ==> chatHistory == old(chatHistory)
      ensures !askDisabled && !isThinking
      ensures inputValue == old(inputValue) && qaHistory == old(qaHistory) && feedbackHistory == old(feedbackHistory)
      ensures submitDisabled == old(submitDisabled)
    {
      if outcome.Some? {
        var answer := AiReply(outcome.value);
        chatLog := chatLog + [ChatMessage("assistant", answer)];
        chatHistory := chatHistory + [ChatMessage("assistant", answer)];
      } else {
        chatLog := chatLog + [ChatMessage("assistant", APOLOGY)];
      }
      askDisabled := false;
      isThinking := false;
    }

    /** `handleConclusionSubmission` from step `stepIndex`, with the outcome of the critique
        request. An empty conclusion changes nothing. Otherwise the conclusion is shown,
        the input cleared, one feedback entry for step `stepIndex + 1` appended, the
        critique (or an error text) shown, the submit button enabled with its label restored,
        feedback recorded in the state and the next button re-decided on that state. */
    method HandleConclusionSubmission(store: Store, flow: Flow, stepIndex: int, timestamp: string, outcome: CritiqueOutcome)
      returns (submitted: bool)
      modifies this, store, flow.Objects()
      ensures submitted <==> Trim(old(inputValue)) != ""
      ensures !submitted ==>
        && chatLog == old(chatLog) && inputValue == old(inputValue) && feedbackHistory == old(feedbackHistory)
        && submitDisabled == old(submitDisabled) && submitText == old(submitText) && store.fields == old(store.fields)
        && ButtonUnchanged(flow)
      ensures submitted ==>
        var conclusion := Trim(old(inputValue));
        && feedbackHistory == old(feedbackHistory) + [FeedbackEntry(stepIndex + 1, conclusion, timestamp)]
        && chatLog == old(chatLog) + [ChatMessage("user", conclusion), ChatMessage("assistant", CritiqueReply(outcome))]
        && inputValue == "" && !submitDisabled && submitText == SUBMIT_LABEL
        && store.fields == DeepMerge(old(store.fields), FeedbackPatch())
        && ButtonRechecked(flow, store.fields, stepIndex)
      ensures PageUnchanged(flow)
      ensures chatHistory == old(chatHistory) && qaHistory == old(qaHistory)
      ensures isThinking == old(isThinking) && askDisabled == old(askDisabled)
      ensures store.appMode == old(store.appMode) && store.histogramHistory == old(store.histogramHistory)
      ensures store.operationLog == old(store.operationLog) && store.logEntries == old(store.logEntries)
    {
      var conclusion := Trim(inputValue);
      if conclusion == "" {
        return false;
      }
      ShowConclusion(store, flow, stepIndex, timestamp, outcome, conclusion);
      submitted := true;
    }

    /** The updates of a conclusion that is submitted. */
    method ShowConclusion(store: Store, flow: Flow, stepIndex: int, timestamp: string, outcome: CritiqueOutcome,
                          conclusion: string)
      modifies this, store, flow.Objects()
      ensures ButtonRechecked(flow, store.fields, stepIndex) && PageUnchanged(flow)
      ensures feedbackHistory == old(feedbackHistory) + [FeedbackEntry(stepIndex + 1, conclusion, timestamp)]
      ensures chatLog == old(chatLog) + [ChatMessage("user", conclusion), ChatMessage("assistant", CritiqueReply(outcome))]
      ensures inputValue == "" && !submitDisabled && submitText == SUBMIT_LABEL
      ensures store.fields == DeepMerge(old(store.fields), FeedbackPatch())
      ensures chatHistory == old(chatHistory) && qaHistory == old(qaHistory)
      ensures isThinking == old(isThinking) && askDisabled == old(askDisabled)
      ensures store.appMode == old(store.appMode) && store.histogramHistory == old(store.histogramHistory)
      ensures store.operationLog == old(store.operationLog) && store.logEntries == old(store.logEntries)
    {
      submitDisabled := true;
      submitText := "思考中...";
      chatLog := chatLog + [ChatMessage("user", conclusion)];
      inputValue := "";
      var stepId := stepIndex + 1;
      feedbackHistory := feedbackHistory + [FeedbackEntry(stepId, conclusion, timestamp)];
      chatLog := chatLog + [ChatMessage("assistant", CritiqueReply(outcome))];
      submitDisabled := false;
      submitText := SUBMIT_LABEL;
      RecordConclusion(store, flow, stepIndex);
    }
  }

  /** The state update of a submitted conclusion, then the next-button check on the new state. */
  method RecordConclusion(store: Store, flow: Flow, stepIndex: int)
    modifies store, flow.Objects()
    ensures store.fields == DeepMerge(old(store.fields), FeedbackPatch())
    ensures ButtonRechecked(flow, store.fields, stepIndex) && PageUnchanged(flow)
    ensures store.appMode == old(store.appMode) && store.histogramHistory == old(store.histogramHistory)
    ensures store.operationLog == old(store.operationLog) && store.logEntries == old(store.logEntries)
  {
    store.UpdateState(Some(FeedbackPatch()));
    UnlockNext(flow, store.fields, stepIndex);
  }

  /** Sending a message records the feedback, and for steps 0 to 2 marks the step's text
      as filled. */
  lemma SendMarksFeedback(fields: map<string, Json>, stepIndex: int)
    ensures Get(SendPatched(fields, stepIndex), "feedbackSubmitted") == Some(JBool(true))
    ensures 0 <= stepIndex <= 2 ==>
      Prop(Get(SendPatched(fields, stepIndex), StepKey(stepIndex)), "text_filled") == Some(JBool(true))
  {
    var f := DeepMerge(fields, FeedbackPatch());
    MergeAtKey(fields, FeedbackPatch(), "feedbackSubmitted");
    if 0 <= stepIndex <= 2 {
      var key := StepKey(stepIndex);
      var patch := GuidancePatch(stepIndex, true).value;
      assert key != "feedbackSubmitted";
      assert "feedbackSubmitted" !in patch.fields;
      GuidanceKeepsOtherFlags(f, stepIndex, true, "text_filled_unused");
    }
  }

  /** Once the feedback is recorded, the re-decided next button is shown and enabled on the
      two introduction steps and on the reflection step (index 4), and hidden on the last
      step; on the two experiment steps it is enabled exactly when their flags are set. */
  lemma FeedbackUnlocksNext(fields: map<string, Json>, i: nat, before: ButtonFlags)
    requires i < |TutorialSteps()|
    ensures var after := Unlocked(TutorialSteps(), DeepMerge(fields, FeedbackPatch()), Fin(i as real), before);
      var sc := Some(OrEmptyObject(Get(DeepMerge(fields, FeedbackPatch()), "stepCompletion")));
      && (i == 0 || i == 1 || i == 4 ==> after == ButtonFlags(false, false))
      && (i == 2 ==> after == ButtonFlags(false, !(Truthy(Prop(Prop(sc, "step1"), "tempAdjusted"))
                                                   && Truthy(Prop(Prop(sc, "step1"), "gasSwitched")))))
      && (i == 3 ==> after == ButtonFlags(false, !Truthy(Prop(Prop(sc, "step2"), "evolutionModeUsed"))))
      && (i == 5 ==> after == ButtonFlags(true, before.disabled))
  {
    var raw := DeepMerge(fields, FeedbackPatch());
    MergeAtKey(fields, FeedbackPatch(), "feedbackSubmitted");
    assert Truthy(Get(raw, "feedbackSubmitted"));
    StepPredicates(raw);
    if i < 5 {
      WholeIndicesNameSteps(i);
      assert (i as real).Floor == i;
    }
  }
}
