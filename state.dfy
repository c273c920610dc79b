/** The global application state: the app mode, the operation log shared between the page
    and the state object, the bounded histogram history and the remaining keys of the state
    object, patched by a recursive deep merge. */
module State {
  import opened Common

  /** A JavaScript value as the state holds it. An array is an object whose keys are its
      indices, marked by `isArray`, which is how `Object.keys` and `typeof` see it. */
  datatype Json =
    | JNull
    | JBool(b: bool)
    | JNum(n: real)
    | JStr(s: string)
    | JObject(fields: map<string, Json>, isArray: bool)

  /** `v && typeof v === 'object' && !Array.isArray(v)` */
  predicate IsPlainObject(v: Json) {
    v.JObject? && !v.isArray
  }

  const HISTOGRAM_SMOOTHING_FRAMES: real := 15.0
  const DEFAULT_APP_MODE: string := "NORMAL_CHAT"

  function Flag(b: bool): Json { JBool(b) }

  function Obj(fields: map<string, Json>): Json { JObject(fields, false) }

  /** The keys the state object starts with, besides the histogram history and the log. */
  function DefaultAppState(): map<string, Json> {
    map[
      "initialDistributionMode" := JStr("equilibrium"),
      "simulationTimeScale" := JNum(0.1),
      "stepCompletion" := Obj(map[
        "step1" := Obj(map["tempAdjusted" := Flag(false), "gasSwitched" := Flag(false)]),
        "step2" := Obj(map["evolutionModeUsed" := Flag(false)]),
        "step3" := Obj(map[])]),
      "feedbackSubmitted" := Flag(false),
      "step1" := Obj(map["temp_adjusted" := Flag(false), "gas_switched" := Flag(false), "text_filled" := Flag(false)]),
      "step2" := Obj(map["evolution_mode_selected" := Flag(false), "reset_clicked" := Flag(false), "text_filled" := Flag(false)]),
      "step3" := Obj(map["mode_back_to_equilibrium" := Flag(false), "text_filled" := Flag(false)]),
      "tracerMode" := JStr("inactive"),
      "tracedParticleId" := JNull,
      "isFinalized" := Flag(false),
      "isLoadingEvaluation" := Flag(false),
      "evaluationResult" := JNull,
      "feedbackHistory" := JObject(map[], true),
      "qaHistory" := JObject(map[], true)
    ]
  }

  /** `deepMerge(target, source)` for an object source: every key of the source is written
      into the target; a plain-object value is merged into the target's value (which is
      first replaced by `{}` when it is not an object), anything else overwrites. */
  function MergeInto(target: map<string, Json>, source: Json): (r: map<string, Json>)
    requires source.JObject?
    decreases source, 0
    ensures r.Keys == target.Keys + source.fields.Keys
    ensures forall k :: k in target && k !in source.fields ==> r[k] == target[k]
    ensures forall k :: k in source.fields && !IsPlainObject(source.fields[k]) ==> r[k] == source.fields[k]
  {
    map k | k in target.Keys + source.fields.Keys ::
      if k in source.fields then MergeValue(if k in target then Some(target[k]) else None, source.fields[k])
      else target[k]
  }

  /** The value a key ends with when the source value `sv` meets the target value `t`. */
  function MergeValue(t: Option<Json>, sv: Json): (r: Json)
    decreases sv, 1
    ensures !IsPlainObject(sv) ==> r == sv
    ensures IsPlainObject(sv) ==> r.JObject? && (t.Some? && t.value.JObject? ==> r.isArray == t.value.isArray)
  {
    if IsPlainObject(sv) then
      var base := if t.Some? && t.value.JObject? then t.value else JObject(map[], false);
      JObject(MergeInto(base.fields, sv), base.isArray)
    else sv
  }

  /** `deepMerge` at the top: a source that is not an object leaves the target as it is. */
  function DeepMerge(target: map<string, Json>, source: Json): (r: map<string, Json>)
    ensures !source.JObject? ==> r == target
  {
    if source.JObject? then MergeInto(target, source) else target
  }

  /** Merging a patch object into nothing gives back the patch: a plain object that meets a
      non-object target value ends up as a copy of itself. */
  lemma {:induction false} MergeIntoEmpty(source: Json)
    requires source.JObject?
    decreases source, 0
    ensures MergeInto(map[], source) == source.fields
  {
    forall k | k in source.fields
      ensures MergeInto(map[], source)[k] == source.fields[k]
    {
      MergeValueFresh(source.fields[k]);
    }
  }

  lemma {:induction false} MergeValueFresh(sv: Json)
    decreases sv, 1
    ensures MergeValue(None, sv) == sv
  {
    if IsPlainObject(sv) {
      MergeIntoEmpty(sv);
    }
  }

  /** A non-object target value met by a plain-object patch value is replaced by a copy of
      that value. */
  lemma ObjectPatchReplacesScalar(target: map<string, Json>, source: Json, k: string)
    requires source.JObject? && k in source.fields && IsPlainObject(source.fields[k])
    requires k !in target || !target[k].JObject?
    ensures MergeInto(target, source)[k] == source.fields[k]
  {
    MergeValueFresh(source.fields[k]);
  }

  /** Merging the same patch twice is the same as merging it once. */
  lemma {:induction false} MergeIntoIdempotent(target: map<string, Json>, source: Json)
    requires source.JObject?
    decreases source, 0
    ensures MergeInto(MergeInto(target, source), source) == MergeInto(target, source)
  {
    var once := MergeInto(target, source);
    forall k | k in source.fields
      ensures MergeInto(once, source)[k] == once[k]
    {
      MergeValueIdempotent(if k in target then Some(target[k]) else None, source.fields[k]);
    }
  }

  lemma {:induction false} MergeValueIdempotent(t: Option<Json>, sv: Json)
    decreases sv, 1
    ensures MergeValue(Some(MergeValue(t, sv)), sv) == MergeValue(t, sv)
  {
    if IsPlainObject(sv) {
      var base := if t.Some? && t.value.JObject? then t.value else JObject(map[], false);
      MergeIntoIdempotent(base.fields, sv);
    }
  }

  /** A log entry: `{timestamp, event, value, ...additionalData}`; the additional keys win. */
  function MakeEntry(timestamp: string, eventType: string, value: Json, additional: map<string, Json>): (e: map<string, Json>)
    ensures e.Keys == additional.Keys + {"timestamp", "event", "value"}
    ensures forall k :: k in additional ==> e[k] == additional[k]
    ensures "event" !in additional ==> e["event"] == JStr(eventType)
    ensures "value" !in additional ==> e["value"] == value
  {
    map["timestamp" := JStr(timestamp), "event" := JStr(eventType), "value" := value] + additional
  }

  /** A JavaScript array of log entries, shared by reference. */
  class LogArray {
    var entries: seq<map<string, Json>>

    constructor ()
      ensures entries == []
    {
      entries := [];
    }
  }

  /** The history window a limit keeps out of n frames: ⌊limit⌋ capped at n, and none for a
      negative limit. */
  function WindowSize(limit: real, n: nat): (w: nat)
    ensures w <= n
    ensures 0.0 <= limit ==> w as real <= limit && (w < n ==> limit < (w + 1) as real)
  {
    if limit < 0.0 then 0 else Min(n, limit.Floor)
  }

  /** The shift loop as written, run for at most `fuel` rounds on a history of length
      `len`: `Some` of the final length once `len > limit` fails, `None` if it still holds.
      `shift()` on an empty array leaves it empty. */
  function ShiftLoop(len: nat, limit: real, fuel: nat): Option<nat> {
    if !((len as real) > limit) then Some(len)
    else if fuel == 0 then None
    else ShiftLoop(if len == 0 then 0 else len - 1, limit, fuel - 1)
  }

  /** With a negative `maxFrames` the loop never stops: after the history is empty,
      0 > limit still holds. */
  lemma {:induction false} NegativeLimitNeverStops(len: nat, limit: real, fuel: nat)
    requires limit < 0.0
    ensures ShiftLoop(len, limit, fuel) == None
  {
    if fuel > 0 {
      NegativeLimitNeverStops(if len == 0 then 0 else len - 1, limit, fuel - 1);
    }
  }

  /** With a limit of at least 0 the loop stops within `len` rounds at the window size. */
  lemma {:induction false} NonNegativeLimitStops(len: nat, limit: real, fuel: nat)
    requires 0.0 <= limit && len <= fuel
    ensures ShiftLoop(len, limit, fuel) == Some(WindowSize(limit, len))
  {
    if (len as real) > limit {
      NonNegativeLimitStops(len - 1, limit, fuel - 1);
    }
  }

  /** The page-level state: `currentAppMode` and its window copy (`None` while
      `window.currentAppMode` is undefined), `window.operationLog`,
      `appState.logEntries` (`None` when it is not an array), `appState.histogramHistory`,
      and the other keys of `appState`. */
  class Store {
    var appMode: string
    var windowAppMode: Option<string>
    var operationLog: LogArray
    var logEntries: Option<LogArray>
    var histogramHistory: seq<seq<Point>>
    var fields: map<string, Json>

    /** Module initialisation on a fresh page: the module's mode falls back to its default
        while the window's copy stays undefined, and the state object's `logEntries` is the
        very array `window.operationLog`. */
    constructor ()
      ensures appMode == DEFAULT_APP_MODE && windowAppMode.None?
      ensures fresh(operationLog) && operationLog.entries == []
      ensures logEntries == Some(operationLog)
      ensures histogramHistory == [] && fields == DefaultAppState()
    {
      appMode := DEFAULT_APP_MODE;
      windowAppMode := None;
      var log := new LogArray();
      operationLog := log;
      logEntries := Some(log);
      histogramHistory := [];
      fields := DefaultAppState();
    }

    /** `setAppMode`: both copies of the mode take the new value. */
    method SetAppMode(mode: string)
      modifies this
      ensures appMode == mode && windowAppMode == Some(mode)
      ensures operationLog == old(operationLog) && logEntries == old(logEntries)
      ensures histogramHistory == old(histogramHistory) && fields == old(fields)
    {
      appMode := mode;
      windowAppMode := Some(mode);
    }

    /** `logOperation` as written: the entry is pushed onto `window.operationLog` and then
        onto `appState.logEntries` (a new array when that is not one). When the two are the
        same array, as they are from initialisation on, it receives the entry twice. */
    method LogOperation(timestamp: string, eventType: string, value: Json, additional: map<string, Json>)
      returns (entry: map<string, Json>)
      modifies this, operationLog, if logEntries.Some? then {logEntries.value} else {}
      ensures entry == MakeEntry(timestamp, eventType, value, additional)
      ensures operationLog == old(operationLog) && logEntries.Some?
      ensures appMode == old(appMode) && windowAppMode == old(windowAppMode)
      ensures histogramHistory == old(histogramHistory) && fields == old(fields)
      ensures old(logEntries) == Some(operationLog) ==>
        logEntries == old(logEntries) && operationLog.entries == old(operationLog.entries) + [entry, entry]
      ensures old(logEntries).Some? && old(logEntries).value != operationLog ==>
        logEntries == old(logEntries) && operationLog.entries == old(operationLog.entries) + [entry]
        && logEntries.value.entries == old(logEntries.value.entries) + [entry]
      ensures old(logEntries).None? ==>
        fresh(logEntries.value) && logEntries.value.entries == [entry]
        && operationLog.entries == old(operationLog.entries) + [entry]
    {
      entry := MakeEntry(timestamp, eventType, value, additional);
      operationLog.entries := operationLog.entries + [entry];
      if logEntries.None? {
        var created := new LogArray();
        logEntries := Some(created);
      }
      logEntries.value.entries := logEntries.value.entries + [entry];
    }

    /** `logOperation` as evidently intended: every entry recorded once in the shared log,
        and once in each of the two arrays when they differ. */
    method LogOperationOnce(timestamp: string, eventType: string, value: Json, additional: map<string, Json>)
      returns (entry: map<string, Json>)
      modifies this, operationLog, if logEntries.Some? then {logEntries.value} else {}
      ensures entry == MakeEntry(timestamp, eventType, value, additional)
      ensures operationLog == old(operationLog) && logEntries.Some?
      ensures appMode == old(appMode) && windowAppMode == old(windowAppMode)
      ensures histogramHistory == old(histogramHistory) && fields == old(fields)
      ensures operationLog.entries == old(operationLog.entries) + [entry]
      ensures old(logEntries).Some? ==> logEntries == old(logEntries)
      ensures old(logEntries).Some? && old(logEntries).value != operationLog ==>
        logEntries.value.entries == old(logEntries.value.entries) + [entry]
      ensures old(logEntries).None? ==> fresh(logEntries.value) && logEntries.value.entries == [entry]
    {
      entry := MakeEntry(timestamp, eventType, value, additional);
      operationLog.entries := operationLog.entries + [entry];
      if logEntries.None? {
        var created := new LogArray();
        logEntries := Some(created);
      }
      if logEntries.value != operationLog {
        logEntries.value.entries := logEntries.value.entries + [entry];
      }
    }

    /** `getOperationLogs`: a new array holding the log's entries, so writing to it never
        touches the log. */
    method GetOperationLogs() returns (copy: array<map<string, Json>>)
      ensures fresh(copy) && copy[..] == operationLog.entries
    {
      copy := new map<string, Json>[|operationLog.entries|](i requires 0 <= i < |operationLog.entries| reads this, operationLog => operationLog.entries[i]);
    }

    /** `updateState(patch)`: the patch deep-merged into the state's keys; a missing or
        non-object patch changes nothing. */
    method UpdateState(patch: Option<Json>)
      modifies this
      ensures fields == DeepMerge(old(fields), patch.GetOr(JObject(map[], false)))
      ensures appMode == old(appMode) && windowAppMode == old(windowAppMode)
      ensures operationLog == old(operationLog) && logEntries == old(logEntries)
      ensures histogramHistory == old(histogramHistory)
    {
      fields := DeepMerge(fields, patch.GetOr(JObject(map[], false)));
    }

    /** `appendHistogramFrame(frame, maxFrames)`, with the shift loop stopped once the
        history is empty: the frame is pushed, the oldest frames are shifted off while more
        than `limit` remain, and the new length is returned. A non-finite `maxFrames`
        means 15. */
    method AppendHistogramFrame(frame: seq<Point>, maxFrames: Num) returns (len: nat)
      modifies this
      ensures var full := old(histogramHistory) + [frame];
        histogramHistory == LastN(full, WindowSize(maxFrames.FiniteOr(HISTOGRAM_SMOOTHING_FRAMES), |full|))
      ensures len == |histogramHistory|
      ensures appMode == old(appMode) && windowAppMode == old(windowAppMode)
      ensures operationLog == old(operationLog) && logEntries == old(logEntries) && fields == old(fields)
    {
      histogramHistory := histogramHistory + [frame];
      ghost var full := histogramHistory;
      var limit := if maxFrames.IsFinite() then maxFrames.r else HISTOGRAM_SMOOTHING_FRAMES;
      ghost var w := WindowSize(limit, |full|);
      ghost var drop := 0;
      while |histogramHistory| > 0 && (|histogramHistory| as real) > limit
        invariant 0 <= drop <= |full| - w
        invariant histogramHistory == full[drop..]
        invariant appMode == old(appMode) && windowAppMode == old(windowAppMode)
        invariant operationLog == old(operationLog) && logEntries == old(logEntries) && fields == old(fields)
        decreases |histogramHistory|
      {
        histogramHistory := histogramHistory[1..];
        drop := drop + 1;
      }
      assert drop == |full| - w;
      return |histogramHistory|;
    }
  }

  /** On a fresh page every logged operation lands in the operation log twice. */
  method FreshPageLogsTwice(timestamp: string, eventType: string, value: Json) returns (count: nat, first: map<string, Json>, second: map<string, Json>)
    ensures count == 2 && first == second
  {
    var store := new Store();
    var entry := store.LogOperation(timestamp, eventType, value, map[]);
    count := |store.operationLog.entries|;
    first := store.operationLog.entries[0];
    second := store.operationLog.entries[1];
  }

  /** With the corrected push the fresh page records each operation once. */
  method FreshPageLogsOnce(timestamp: string, eventType: string, value: Json) returns (count: nat, entry: map<string, Json>)
    ensures count == 1 && entry == MakeEntry(timestamp, eventType, value, map[])
  {
    var store := new Store();
    var e := store.LogOperationOnce(timestamp, eventType, value, map[]);
    count := |store.operationLog.entries|;
    entry := store.operationLog.entries[0];
  }

  /** The window keeps at most `limit` frames and, for a limit of at least 1, ends with the
      new frame; the kept frames are the most recent ones in their original order. */
  lemma HistoryWindow(old_: seq<seq<Point>>, frame: seq<Point>, limit: real)
    ensures var full := old_ + [frame];
      var kept := LastN(full, WindowSize(limit, |full|));
      && (0.0 <= limit ==> |kept| as real <= limit)
      && (1.0 <= limit ==> |kept| > 0 && kept[|kept| - 1] == frame)
      && kept == full[|full| - |kept|..]
  {
    var full := old_ + [frame];
    var kept := LastN(full, WindowSize(limit, |full|));
    if 1.0 <= limit {
      assert WindowSize(limit, |full|) >= 1;
      assert kept[|kept| - 1] == full[|full| - 1];
    }
  }
}
