/** The endpoint that takes a student's final conclusion with the operation log of the
    experiment and answers with a summary of that log. The clock is a parameter; the
    report is only logged by the source, which is left out. */
module SubmitConclusion {
  import opened Common
  import opened Text
  import opened Http

  const DEFAULT_EXPERIMENT_TYPE: string := "maxwell_speed_distribution"
  const SUCCESS_MESSAGE: string := "实验报告提交成功"

  const SET_TEMPERATURE: string := "set_temperature"
  const CHANGE_GAS: string := "change_gas"
  const SAVE_CURVE: string := "save_curve"
  const RESET_SIMULATION: string := "reset_simulation"

  /** `log.event === event` for an entry that is not `null`. */
  predicate HasEvent(entry: Value, event: string) {
    Member(entry, "event") == Some(Str(event))
  }

  /** `log.filter(l => l.event === event).length` */
  function CountEvent(log: seq<Value>, event: string): (n: nat)
    ensures n <= |log|
    ensures n == 0 <==> forall i :: 0 <= i < |log| ==> !HasEvent(log[i], event)
    ensures n == |log| <==> forall i :: 0 <= i < |log| ==> HasEvent(log[i], event)
    decreases |log|
  {
    if log == [] then 0
    else
      var rest := CountEvent(log[1..], event);
      assert forall i :: 1 <= i < |log| ==> log[i] == log[1..][i - 1];
      (if HasEvent(log[0], event) then 1 else 0) + rest
  }

  /** Appending an entry adds one to the count of its own event and nothing to any other. */
  lemma {:induction false} CountEventAppend(log: seq<Value>, entry: Value, event: string)
    ensures CountEvent(log + [entry], event) == CountEvent(log, event) + (if HasEvent(entry, event) then 1 else 0)
    decreases |log|
  {
    if log != [] {
      assert (log + [entry])[1..] == log[1..] + [entry];
      CountEventAppend(log[1..], entry, event);
    }
  }

  /** An entry has at most one event, so the four category counts together never exceed
      the number of entries. */
  lemma {:induction false} CategoriesWithinTotal(log: seq<Value>)
    ensures CountEvent(log, SET_TEMPERATURE) + CountEvent(log, CHANGE_GAS)
          + CountEvent(log, SAVE_CURVE) + CountEvent(log, RESET_SIMULATION) <= |log|
    decreases |log|
  {
    if log != [] {
      CategoriesWithinTotal(log[1..]);
    }
  }

  datatype Summary = Summary(totalOperations: nat, temperatureChanges: nat, gasChanges: nat, curveSaves: nat, resets: nat)

  /** The `operationSummary` of a log. */
  function Summarize(log: seq<Value>): (s: Summary)
    ensures s.totalOperations == |log|
    ensures s.temperatureChanges + s.gasChanges + s.curveSaves + s.resets <= s.totalOperations
    ensures s.temperatureChanges == CountEvent(log, SET_TEMPERATURE) && s.gasChanges == CountEvent(log, CHANGE_GAS)
    ensures s.curveSaves == CountEvent(log, SAVE_CURVE) && s.resets == CountEvent(log, RESET_SIMULATION)
  {
    CategoriesWithinTotal(log);
    Summary(|log|, CountEvent(log, SET_TEMPERATURE), CountEvent(log, CHANGE_GAS),
            CountEvent(log, SAVE_CURVE), CountEvent(log, RESET_SIMULATION))
  }

  /** `operationLog || []` as far as the summary's `filter` calls get with it: `None` when
      they throw, because a truthy value that is not an array has no `filter`, or because
      an entry is `null` and its `event` cannot be read. */
  function LogEntries(operationLog: Option<Value>): (r: Option<seq<Value>>)
    ensures !Truthy(operationLog) ==> r == Some([])
    ensures Truthy(operationLog) && r.Some? ==> operationLog.value == Array(r.value)
    ensures r.Some? ==> Null !in r.value
  {
    if !Truthy(operationLog) then Some([])
    else if operationLog.value.Array? && Null !in operationLog.value.items then Some(operationLog.value.items)
    else None
  }

  datatype Report = Report(
    experimentType: Value,
    conclusion: Value,
    operationLog: seq<Value>,
    summary: Summary,
    timestamp: Value,
    submittedAt: string)

  /** How a request ends: a method other than POST, no conclusion, a report accepted
      under an id, or an error thrown while building the report. */
  datatype Outcome = MethodNotAllowed | MissingConclusion | Submitted(report: Report, submissionId: string) | InternalError

  /** The handler, for a POST whose body is not `null` (destructuring `null` throws before
      the handler's `try`; any other method is refused before the body is read). `now` is the ISO time at which the report is built and
      `nowMs` the millisecond clock when the answer is sent. */
  function Submit(httpMethod: string, body: Value, now: string, nowMs: nat): (o: Outcome)
    requires httpMethod == "POST" ==> !body.Null?
    ensures o.MethodNotAllowed? <==> httpMethod != "POST"
    ensures o.MissingConclusion? <==> httpMethod == "POST" && !Truthy(Member(body, "conclusion"))
    ensures o.InternalError? <==>
      httpMethod == "POST" && Truthy(Member(body, "conclusion")) && LogEntries(Member(body, "operationLog")).None?
    ensures o.Submitted? ==>
      && Some(o.report.conclusion) == Member(body, "conclusion")
      && LogEntries(Member(body, "operationLog")) == Some(o.report.operationLog)
      && o.report.summary == Summarize(o.report.operationLog)
      && o.report.summary.totalOperations == |o.report.operationLog|
      && (!Truthy(Member(body, "operationLog")) ==> o.report.operationLog == [])
      && (Truthy(Member(body, "experimentType")) ==> Some(o.report.experimentType) == Member(body, "experimentType"))
      && (!Truthy(Member(body, "experimentType")) ==> o.report.experimentType == Str(DEFAULT_EXPERIMENT_TYPE))
      && (Truthy(Member(body, "timestamp")) ==> Some(o.report.timestamp) == Member(body, "timestamp"))
      && (!Truthy(Member(body, "timestamp")) ==> o.report.timestamp == Str(now))
      && o.report.submittedAt == now
      && o.submissionId == "report_" + NatToString(nowMs)
  {
    if httpMethod != "POST" then MethodNotAllowed
    else if !Truthy(Member(body, "conclusion")) then MissingConclusion
    else match LogEntries(Member(body, "operationLog"))
      case None => InternalError
      case Some(log) =>
        var experimentType := Member(body, "experimentType");
        var timestamp := Member(body, "timestamp");
        var report := Report(
          if Truthy(experimentType) then experimentType.value else Str(DEFAULT_EXPERIMENT_TYPE),
          Member(body, "conclusion").value,
          log,
          Summarize(log),
          if Truthy(timestamp) then timestamp.value else Str(now),
          now);
        Submitted(report, "report_" + NatToString(nowMs))
  }

  function SummaryValue(s: Summary): Value {
    Object(map[
      "totalOperations" := Number(s.totalOperations as real),
      "temperatureChanges" := Number(s.temperatureChanges as real),
      "gasChanges" := Number(s.gasChanges as real),
      "curveSaves" := Number(s.curveSaves as real),
      "resets" := Number(s.resets as real)])
  }

  /** The response an outcome is sent as. An accepted report answers with its id, its
      submission time and its summary, whose operation count is the summary's total. */
  function Respond(o: Outcome): (r: Response)
    ensures r.status == 405 <==> o.MethodNotAllowed?
    ensures r.status == 400 <==> o.MissingConclusion?
    ensures r.status == 500 <==> o.InternalError?
    ensures r.status == 200 <==> o.Submitted?
    ensures o.Submitted? ==>
      && Path(r.body, ["success"]) == Some(Bool(true))
      && Path(r.body, ["data", "submissionId"]) == Some(Str(o.submissionId))
      && Path(r.body, ["data", "timestamp"]) == Some(Str(o.report.submittedAt))
      && Path(r.body, ["data", "operationCount"]) == Some(Number(o.report.summary.totalOperations as real))
      && Path(r.body, ["data", "summary", "totalOperations"]) == Path(r.body, ["data", "operationCount"])
  {
    match o
    case MethodNotAllowed => ErrorResponse(405, "Method Not Allowed")
    case MissingConclusion => ErrorResponse(400, "Bad Request: Missing conclusion")
    case InternalError =>
      Reply(500, map["error" := Str("Internal Server Error"), "message" := Str("结论提交失败，请稍后重试")])
    case Submitted(report, id) =>
      var data := Object(map[
        "submissionId" := Str(id),
        "timestamp" := Str(report.submittedAt),
        "operationCount" := Number(report.summary.totalOperations as real),
        "summary" := SummaryValue(report.summary)]);
      var r := Reply(200, map["success" := Bool(true), "message" := Str(SUCCESS_MESSAGE), "data" := data]);
      assert Path(r.body, ["data", "summary", "totalOperations"]) == Path(SummaryValue(report.summary), ["totalOperations"]);
      r
  }

  /** The status a request is answered with, from the request alone. */
  lemma HandlerStatus(httpMethod: string, body: Value, now: string, nowMs: nat)
    requires httpMethod == "POST" ==> !body.Null?
    ensures var status := Respond(Submit(httpMethod, body, now, nowMs)).status;
      && (httpMethod != "POST" ==> status == 405)
      && (httpMethod == "POST" && !Truthy(Member(body, "conclusion")) ==> status == 400)
      && (httpMethod == "POST" && Truthy(Member(body, "conclusion")) && Member(body, "operationLog").None? ==> status == 200)
  {
  }

  /** A summary counts one entry of each kind and skips entries it does not know. */
  lemma SummaryExample()
    ensures var log := [
        Object(map["event" := Str(SET_TEMPERATURE)]),
        Object(map["event" := Str(CHANGE_GAS)]),
        Object(map["event" := Str("toggle_tracer")]),
        Str("note")];
      Summarize(log) == Summary(4, 1, 1, 0, 0)
  {
    var tail := [Object(map["event" := Str("toggle_tracer")]), Str("note")];
    var log := [Object(map["event" := Str(SET_TEMPERATURE)]), Object(map["event" := Str(CHANGE_GAS)])] + tail;
    assert Member(tail[0], "event") == Some(Str("toggle_tracer"));
    assert Member(tail[1], "event") == None;
    assert log[1..][1..] == tail;
    assert HasEvent(log[0], SET_TEMPERATURE) && !HasEvent(log[0], CHANGE_GAS);
    assert HasEvent(log[1], CHANGE_GAS) && !HasEvent(log[1], SET_TEMPERATURE);
    assert CountEvent(log, SET_TEMPERATURE) == 1 + CountEvent(log[1..], SET_TEMPERATURE);
    assert CountEvent(log[1..], SET_TEMPERATURE) == CountEvent(tail, SET_TEMPERATURE);
    assert CountEvent(log, CHANGE_GAS) == CountEvent(log[1..], CHANGE_GAS);
    assert CountEvent(log[1..], CHANGE_GAS) == 1 + CountEvent(tail, CHANGE_GAS);
    forall e | e in {SET_TEMPERATURE, CHANGE_GAS, SAVE_CURVE, RESET_SIMULATION}
      ensures CountEvent(tail, e) == 0
    {
      assert !HasEvent(tail[0], e) && !HasEvent(tail[1], e);
    }
    assert CountEvent(log, SAVE_CURVE) == 0 && CountEvent(log, RESET_SIMULATION) == 0;
    assert Summarize(log) == Summary(4, 1, 1, 0, 0);
    assert log == [
        Object(map["event" := Str(SET_TEMPERATURE)]),
        Object(map["event" := Str(CHANGE_GAS)]),
        Object(map["event" := Str("toggle_tracer")]),
        Str("note")];
  }
}
