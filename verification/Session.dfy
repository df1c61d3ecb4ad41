/** The session recorder: a timeline that grows under the guard, plus the running outcome. */
module Session {
  import opened Common
  import opened SessionFsm
  import opened Statuses

  datatype Mode = Direct | Agent

  /** A security trace as the recorder sees it: its id, its digest and its step statuses. */
  datatype Trace = Trace(correlationId: string, digest: string, stepStatuses: seq<string>)

  /** Everything a session holds; `decisionState` and `outcome` are absent until first written. */
  datatype SessionState = SessionState(
    id: string,
    createdAt: string,
    correlationIds: seq<string>,
    timeline: seq<Item>,
    outcome: Option<Severity>,
    decisionState: Option<Json>,
    executionPlan: Option<Json>,
    lifecycle: Lifecycle,
    mode: Mode,
    strict: bool)

  datatype SessionError =
    | LifecycleViolation
    | TraceStatusInvalid
    | EventTypeInvalid
    | EventStatusInvalid
    | MissingPrerequisites
    | VerdictInvalid
    | Fsm(cause: FsmError)

  /** One call of a mutating method. */
  datatype Call =
    | LinkTrace(correlationId: string)
    | RecordTrace(kind: TraceKind, trace: Trace, traceStatus: string, meta: TraceMeta)
    | RecordEvent(eventType: string, payload: map<string, Json>, status: string)
    | RecordDecision(verdict: string, rationale: string, details: Json)
    | BindExecutionPlan(plan: Json)
    | Finalize(finalOutcome: string, notes: Json)

  function NewSession(id: string, createdAt: string, mode: Mode, workflowStrict: bool): SessionState {
    SessionState(id, createdAt, [], [], None, None, None, Open, mode, workflowStrict || mode == Agent)
  }

  function OutcomeOf(s: SessionState): Severity {
    if s.outcome.Some? then s.outcome.value else Info
  }

  predicate EventStatusAllowed(status: string) { status in {"ok", "rejected", "info"} }

  predicate TraceStatusAllowed(status: string) { status in {"ok", "rejected"} }

  predicate VerdictAllowed(verdict: string) { verdict in {"approved", "blocked", "info"} }

  function DecisionStatus(verdict: string): string {
    if verdict == "info" then "info" else if verdict == "approved" then "ok" else "rejected"
  }

  function FinalStatus(finalOutcome: string): string { if finalOutcome == "ok" then "ok" else "rejected" }

  function FinalizePayload(finalOutcome: string, notes: Json): map<string, Json> {
    map["outcome" := JString(finalOutcome), "notes" := notes]
  }

  function DecisionPayload(verdict: string, rationale: string, details: Json): map<string, Json> {
    map["verdict" := JString(verdict), "rationale" := JString(rationale), "details" := details]
  }

  function Verdict(payload: map<string, Json>): Json {
    if "verdict" in payload then payload["verdict"] else JNull
  }

  /** The state one recorded event leaves behind. */
  function WithEvent(s: SessionState, eventType: string, payload: map<string, Json>, status: string): SessionState {
    s.(timeline := s.timeline + [SessionEvent(eventType, status, payload)],
       decisionState := if eventType == "decision" && s.strict then Some(Verdict(payload)) else s.decisionState,
       outcome := Some(Worse(OutcomeOf(s), Classify(status))))
  }

  /** The state one recorded trace leaves behind. */
  function WithTrace(s: SessionState, kind: TraceKind, trace: Trace, status: string, meta: TraceMeta): SessionState {
    var overall := Aggregate(trace.stepStatuses);
    s.(timeline := s.timeline
         + [TraceRecord(kind, status, trace.correlationId, overall, meta.(traceDigest := trace.digest))],
       lifecycle := if s.lifecycle == Open then Running else s.lifecycle,
       outcome := Some(Worse(OutcomeOf(s), overall)))
  }

  /** Effect of `record_event`: the new state and the error raised, if any. */
  ghost function EventStep(s: SessionState, eventType: string, payload: map<string, Json>, status: string)
    : (SessionState, Option<SessionError>)
  {
    if !KnownEventType(eventType) then (s, Some(EventTypeInvalid))
    else if !EventStatusAllowed(status) then (s, Some(EventStatusInvalid))
    else
      var guard := Guard(s.lifecycle, s.timeline, Some(eventType), s.strict);
      if guard.Some? then (s, Some(Fsm(guard.value))) else (WithEvent(s, eventType, payload, status), None)
  }

  /** Effect of any mutating call. */
  ghost function Step(s: SessionState, call: Call): (SessionState, Option<SessionError>) {
    match call
    case LinkTrace(id) =>
      if s.lifecycle == Finalized then (s, Some(LifecycleViolation))
      else if id == "" || id in s.correlationIds then (s, None)
      else (s.(correlationIds := s.correlationIds + [id]), None)
    case RecordTrace(kind, trace, status, meta) =>
      if s.lifecycle == Finalized then (s, Some(LifecycleViolation))
      else if !TraceStatusAllowed(status) then (s, Some(TraceStatusInvalid))
      else (WithTrace(s, kind, trace, status, meta), None)
    case RecordEvent(eventType, payload, status) =>
      EventStep(s, eventType, payload, status)
    case RecordDecision(verdict, rationale, details) =>
      if s.strict && !(Happened(s.timeline, "plan") && Happened(s.timeline, "draft"))
        then (s, Some(MissingPrerequisites))
      else if !VerdictAllowed(verdict) then (s, Some(VerdictInvalid))
      else EventStep(s, "decision", DecisionPayload(verdict, rationale, details), DecisionStatus(verdict))
    case BindExecutionPlan(plan) =>
      if s.lifecycle == Finalized then (s, Some(LifecycleViolation))
      else EventStep(s.(executionPlan := Some(plan)), "plan", map["execution_plan" := plan], "info")
    case Finalize(finalOutcome, notes) =>
      if s.lifecycle == Finalized then (s, Some(LifecycleViolation))
      else
        var (next, error) :=
          EventStep(s, "finalize", FinalizePayload(finalOutcome, notes), FinalStatus(finalOutcome));
        if error.Some? then (s, error) else (next.(lifecycle := Finalized), None)
  }

  /** A whole run; a call that raises leaves its error behind and the run goes on. */
  ghost function Run(s: SessionState, calls: seq<Call>): SessionState
    decreases calls
  {
    if calls == [] then s else Run(Step(s, calls[0]).0, calls[1..])
  }

  class ValidationSession {
    const id: string
    const createdAt: string
    const mode: Mode
    const strict: bool
    var correlationIds: seq<string>
    var timeline: seq<Item>
    var outcome: Option<Severity>
    var decisionState: Option<Json>
    var executionPlan: Option<Json>
    var lifecycle: Lifecycle

    function View(): SessionState
      reads this
    {
      SessionState(id, createdAt, correlationIds, timeline, outcome, decisionState, executionPlan,
                   lifecycle, mode, strict)
    }

    constructor (id: string, createdAt: string, mode: Mode, workflowStrict: bool)
      ensures View() == NewSession(id, createdAt, mode, workflowStrict)
    {
      this.id, this.createdAt, this.mode := id, createdAt, mode;
      strict := workflowStrict || mode == Agent;
      correlationIds, timeline := [], [];
      outcome, decisionState, executionPlan := None, None, None;
      lifecycle := Open;
    }

    method LinkTrace(correlationId: string) returns (error: Option<SessionError>)
      modifies this
      ensures (View(), error) == Step(old(View()), Call.LinkTrace(correlationId))
    {
      if lifecycle == Finalized {
        return Some(LifecycleViolation);
      }
      if correlationId != "" && correlationId !in correlationIds {
        correlationIds := correlationIds + [correlationId];
      }
      return None;
    }

    /** Aggregate one more token into the session outcome. */
    method AddToOutcome(token: string)
      requires InTaxonomy(token)
      modifies this`outcome
      ensures outcome == Some(Worse(old(OutcomeOf(View())), Classify(token)))
    {
      var previous := OutcomeOf(View());
      AggregatePair(previous, token);
      var combined := AggregateStatuses([Name(previous), token]);
      outcome := Some(Classify(combined));
    }

    method RecordTrace(kind: TraceKind, trace: Trace, status: string, meta: TraceMeta)
      returns (error: Option<SessionError>)
      modifies this
      ensures (View(), error) == Step(old(View()), Call.RecordTrace(kind, trace, status, meta))
    {
      if lifecycle == Finalized {
        return Some(LifecycleViolation);
      }
      if !TraceStatusAllowed(status) {
        return Some(TraceStatusInvalid);
      }
      if lifecycle == Open {
        lifecycle := Running;
      }
      var overallName := AggregateStatuses(trace.stepStatuses);
      var overall := Classify(overallName);
      var broken := ValidateAppend(lifecycle, timeline, None, false);
      assert broken.None?;  // the guard restricts traces only after finalisation
      timeline := timeline
        + [TraceRecord(kind, status, trace.correlationId, overall, meta.(traceDigest := trace.digest))];
      AddToOutcome(overallName);
      return None;
    }

    method RecordEvent(eventType: string, payload: map<string, Json>, status: string)
      returns (error: Option<SessionError>)
      modifies this
      ensures (View(), error) == EventStep(old(View()), eventType, payload, status)
    {
      if !KnownEventType(eventType) {
        return Some(EventTypeInvalid);
      }
      if !EventStatusAllowed(status) {
        return Some(EventStatusInvalid);
      }
      var broken := ValidateAppend(lifecycle, timeline, Some(eventType), strict);
      if broken.Some? {
        return Some(Fsm(broken.value));
      }
      timeline := timeline + [SessionEvent(eventType, status, payload)];
      if eventType == "decision" && strict {
        decisionState := Some(Verdict(payload));
      }
      AddToOutcome(status);
      return None;
    }

    method RecordDecision(verdict: string, rationale: string, details: Json)
      returns (error: Option<SessionError>)
      modifies this
      ensures (View(), error) == Step(old(View()), Call.RecordDecision(verdict, rationale, details))
    {
      if strict {
        var seen := SessionWorkflowEventsSeen(timeline);
        SeenMeansHappened(timeline, "plan");
        SeenMeansHappened(timeline, "draft");
        if "plan" !in seen || "draft" !in seen {
          return Some(MissingPrerequisites);
        }
      }
      if !VerdictAllowed(verdict) {
        return Some(VerdictInvalid);
      }
      error := RecordEvent("decision", DecisionPayload(verdict, rationale, details), DecisionStatus(verdict));
    }

    method BindExecutionPlan(plan: Json) returns (error: Option<SessionError>)
      modifies this
      ensures (View(), error) == Step(old(View()), Call.BindExecutionPlan(plan))
    {
      if lifecycle == Finalized {
        return Some(LifecycleViolation);
      }
      executionPlan := Some(plan);
      error := RecordEvent("plan", map["execution_plan" := plan], "info");
    }

    method Finalize(finalOutcome: string, notes: Json) returns (error: Option<SessionError>)
      modifies this
      ensures (View(), error) == Step(old(View()), Call.Finalize(finalOutcome, notes))
    {
      if lifecycle == Finalized {
        return Some(LifecycleViolation);
      }
      error := RecordEvent("finalize", FinalizePayload(finalOutcome, notes), FinalStatus(finalOutcome));
      if error.None? {
        lifecycle := Finalized;
      }
    }
  }

  // ---------------------------------------------------------------- session outcome over runs

  /** The statuses a call adds to the session: all step statuses of a trace, or one event status. */
  ghost function StatusesAdded(s: SessionState, call: Call): seq<string> {
    if Step(s, call).1.Some? then []
    else match call
      case LinkTrace(_) => []
      case RecordTrace(_, trace, _, _) => trace.stepStatuses
      case RecordEvent(_, _, status) => [status]
      case RecordDecision(verdict, _, _) => [DecisionStatus(verdict)]
      case BindExecutionPlan(_) => ["info"]
      case Finalize(finalOutcome, _) => [FinalStatus(finalOutcome)]
  }

  ghost function AllStatuses(s: SessionState, calls: seq<Call>): seq<string>
    decreases calls
  {
    if calls == [] then [] else StatusesAdded(s, calls[0]) + AllStatuses(Step(s, calls[0]).0, calls[1..])
  }

  lemma StepOutcome(s: SessionState, call: Call)
    ensures OutcomeOf(Step(s, call).0) == Worse(OutcomeOf(s), Aggregate(StatusesAdded(s, call)))
  {
    var added := StatusesAdded(s, call);
    if |added| == 1 {
      AggregateOfOne(added[0]);
      if Step(s, call).1.None? && !call.RecordTrace? {
        TaxonomyIsStripped(added[0]);
      }
    }
  }

  /** After any run the session outcome is the aggregate of everything recorded, whatever the
      grouping of statuses into traces. */
  lemma {:induction false} OutcomeOverRuns(s: SessionState, calls: seq<Call>)
    ensures OutcomeOf(Run(s, calls)) == Worse(OutcomeOf(s), Aggregate(AllStatuses(s, calls)))
    decreases calls
  {
    if calls != [] {
      var next := Step(s, calls[0]).0;
      StepOutcome(s, calls[0]);
      OutcomeOverRuns(next, calls[1..]);
      AggregateConcat(StatusesAdded(s, calls[0]), AllStatuses(next, calls[1..]));
    }
  }

  /** A fresh session ends with the most severe status recorded, and never becomes less severe. */
  lemma OutcomeIsMostSevere(s: SessionState, calls: seq<Call>)
    ensures s.outcome.None? ==> IsMostSevere(AllStatuses(s, calls), OutcomeOf(Run(s, calls)))
    ensures Rank(OutcomeOf(s)) <= Rank(OutcomeOf(Run(s, calls)))
  {
    OutcomeOverRuns(s, calls);
    AggregateIsMostSevere(AllStatuses(s, calls));
  }

  /** Two runs that recorded the same statuses, in any order and grouping, end with one outcome. */
  lemma OutcomeIgnoresOrder(s: SessionState, first: seq<Call>, second: seq<Call>)
    requires multiset(AllStatuses(s, first)) == multiset(AllStatuses(s, second))
    ensures OutcomeOf(Run(s, first)) == OutcomeOf(Run(s, second))
  {
    OutcomeOverRuns(s, first);
    OutcomeOverRuns(s, second);
    AggregateIgnoresOrder(AllStatuses(s, first), AllStatuses(s, second));
  }

  // ---------------------------------------------------------------- after finalisation

  ghost predicate OnlyAnnotations(items: seq<Item>) {
    forall i :: 0 <= i < |items| ==> IsEvent(items[i], "annotation")
  }

  /** Once finalised, a session stays finalised and only annotations can still be appended. */
  lemma {:induction false} FinalizedOnlyAnnotates(s: SessionState, calls: seq<Call>)
    requires s.lifecycle == Finalized
    ensures Run(s, calls).lifecycle == Finalized
    ensures s.timeline <= Run(s, calls).timeline
    ensures OnlyAnnotations(Run(s, calls).timeline[|s.timeline|..])
    ensures Run(s, calls).correlationIds == s.correlationIds && Run(s, calls).executionPlan == s.executionPlan
    ensures Run(s, calls).decisionState == s.decisionState
    decreases calls
  {
    if calls != [] {
      var next := Step(s, calls[0]).0;
      FinalizedOnlyAnnotates(next, calls[1..]);
      var final := Run(s, calls).timeline;
      forall i | |s.timeline| <= i < |final| ensures IsEvent(final[i], "annotation") {
        if i < |next.timeline| {
          assert final[i] == next.timeline[i];
        } else {
          assert final[i] == final[|next.timeline|..][i - |next.timeline|];
        }
      }
    }
  }

  // ---------------------------------------------------------------- what each call records

  /** A trace is refused by a finalised session or for its status; otherwise it is appended under the
      trace's own digest and aggregated step status, and the session runs. */
  lemma TraceIsRecorded(s: SessionState, kind: TraceKind, trace: Trace, status: string, meta: TraceMeta)
    ensures var (t, e) := Step(s, RecordTrace(kind, trace, status, meta));
      && (e == Some(LifecycleViolation) <==> s.lifecycle == Finalized)
      && (e == Some(TraceStatusInvalid) <==> s.lifecycle != Finalized && status !in {"ok", "rejected"})
      && (e == None <==> s.lifecycle != Finalized && status in {"ok", "rejected"})
      && (e != None ==> t == s)
      && (e == None ==>
            && t == s.(timeline := t.timeline, outcome := t.outcome, lifecycle := Running)
            && t.timeline[..|t.timeline| - 1] == s.timeline && |t.timeline| == |s.timeline| + 1
            && var item := t.timeline[|s.timeline|];
               && item.TraceRecord? && item.kind == kind && item.traceStatus == status
               && item.correlationId == trace.correlationId && Name(item.overall) == WorstOf(trace.stepStatuses)
               && item.meta == TraceMeta(trace.digest, meta.migrationModes, meta.configFingerprint,
                                         meta.artifactDigests, meta.closureDigest, meta.replayProof))
  {
    AggregateByTokens(trace.stepStatuses);
  }

  /** An event is refused for its type, then for its status, then by the guard; otherwise it is appended as it
      is, and a decision of a strict session also becomes the session's decision. */
  lemma EventIsRecorded(s: SessionState, eventType: string, payload: map<string, Json>, status: string)
    ensures var (t, e) := Step(s, RecordEvent(eventType, payload, status));
      && (e == Some(EventTypeInvalid) <==>
            eventType !in {"plan", "draft", "tool_call", "decision", "finalize", "annotation"})
      && (e == Some(EventStatusInvalid) <==> e != Some(EventTypeInvalid) && status !in {"ok", "rejected", "info"})
      && (e != None ==> t == s)
      && (e == None ==>
            && t == s.(timeline := s.timeline + [SessionEvent(eventType, status, payload)], outcome := t.outcome,
                       decisionState := t.decisionState)
            && t.decisionState ==
               if eventType != "decision" || !s.strict then s.decisionState
               else if "verdict" in payload then Some(payload["verdict"]) else Some(JNull))
  {
  }

  /** A decision needs plan and draft in a strict session and one of three verdicts; it is recorded with its
      verdict, rationale and details under the status the verdict stands for. */
  lemma DecisionIsRecorded(s: SessionState, verdict: string, rationale: string, details: Json)
    ensures var (t, e) := Step(s, RecordDecision(verdict, rationale, details));
      && (e == Some(MissingPrerequisites) <==> s.strict && !(Happened(s.timeline, "plan") && Happened(s.timeline, "draft")))
      && (e == Some(VerdictInvalid) <==> e != Some(MissingPrerequisites) && verdict !in {"approved", "blocked", "info"})
      && (e == None ==>
            && |t.timeline| == |s.timeline| + 1 && t.timeline[..|s.timeline|] == s.timeline
            && IsEvent(t.timeline[|s.timeline|], "decision")
            && (verdict == "approved" ==> t.timeline[|s.timeline|].status == "ok")
            && (verdict == "blocked" ==> t.timeline[|s.timeline|].status == "rejected")
            && (verdict == "info" ==> t.timeline[|s.timeline|].status == "info")
            && t.timeline[|s.timeline|].payload ==
               map["verdict" := JString(verdict), "rationale" := JString(rationale), "details" := details]
            && (s.strict ==> t.decisionState == Some(JString(verdict)))
            && t.lifecycle == s.lifecycle)
      && (e != None ==> t == s)
  {
  }

  /** Finalising records the outcome and notes and ends the session; a refusal changes nothing. */
  lemma FinalizeIsRecorded(s: SessionState, finalOutcome: string, notes: Json)
    ensures var (t, e) := Step(s, Finalize(finalOutcome, notes));
      && (s.lifecycle == Finalized ==> e == Some(LifecycleViolation))
      && (e != None ==> t == s)
      && (e == None ==>
            && t.lifecycle == Finalized
            && t.timeline == s.timeline + [SessionEvent("finalize", if finalOutcome == "ok" then "ok" else "rejected",
                                                        map["outcome" := JString(finalOutcome), "notes" := notes])])
  {
  }

  /** Binding a plan keeps it even when its event is refused; linking adds a new, non-empty id once. */
  lemma PlanAndLinkAreRecorded(s: SessionState, plan: Json, id: string)
    ensures var (t, e) := Step(s, BindExecutionPlan(plan));
      if s.lifecycle == Finalized then t == s && e == Some(LifecycleViolation)
      else t.executionPlan == Some(plan) &&
           t.timeline == if e == None then s.timeline + [SessionEvent("plan", "info", map["execution_plan" := plan])]
                         else s.timeline
    ensures var (t, e) := Step(s, Call.LinkTrace(id));
      if s.lifecycle == Finalized then t == s && e == Some(LifecycleViolation)
      else e == None && t == s.(correlationIds := if id == "" || id in s.correlationIds then s.correlationIds
                                                  else s.correlationIds + [id])
  {
  }
}
