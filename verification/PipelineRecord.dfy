/** What every run of the full pipeline leaves in its session. */
module PipelineRecord {
  import opened Common
  import opened Statuses
  import opened SessionFsm
  import opened Session
  import opened Replay
  import opened ReplayGuarantees
  import opened Hooks
  import opened Pipeline

  // ---------------------------------------------------------------- the shape of the record

  /** The session a run without a given one starts from. */
  ghost function Linked(id: string, createdAt: string, l: Labels): SessionState {
    Step(NewSession(id, createdAt, Direct, false), Call.LinkTrace(l.correlationId)).0
  }

  /** Trace, decision and finalize, in that order, and nothing else. */
  ghost predicate ClosedRecord(s: SessionState, l: Labels, steps: seq<string>, status: string, verdict: string) {
    && s.lifecycle == Finalized
    && |s.timeline| == 3
    && s.timeline[0].TraceRecord? && s.timeline[0].kind == l.kind && s.timeline[0].traceStatus == status
    && s.timeline[0].overall == Aggregate(steps) && s.timeline[0].correlationId == l.correlationId
    && s.timeline[0].meta == (if status == "ok" then l.okMeta else l.blockedMeta).(traceDigest := l.digest(steps))
    && IsEvent(s.timeline[1], "decision") && s.timeline[1].status == status
    && s.timeline[1].payload ==
       map["verdict" := JString(verdict), "details" := l.details,
           "rationale" := JString(if verdict == "approved" then l.rationale else l.blockedRationale)]
    && IsEvent(s.timeline[2], "finalize") && s.timeline[2].status == status
    && s.timeline[2].payload == map["outcome" := JString(status),
                                    "notes" := if status == "ok" then l.okNotes else l.blockedNotes]
  }

  /** A session that has recorded nothing but `items`, none of them a finalize event. */
  ghost predicate Holds(s: SessionState, items: seq<Item>) {
    && s.timeline == items && s.lifecycle != Finalized && !s.strict && |items| <= 2
    && forall i :: 0 <= i < |items| ==> !IsEvent(items[i], "finalize")
  }

  lemma TraceStep(s: SessionState, l: Labels, steps: seq<string>, status: string, meta: TraceMeta)
    returns (next: SessionState, record: Item)
    requires Holds(s, []) && TraceStatusAllowed(status)
    ensures Step(s, RecordTrace(l.kind, TraceOf(l, steps), status, meta)) == (next, None) && Holds(next, [record])
    ensures record.TraceRecord? && record.kind == l.kind && record.traceStatus == status
    ensures record.overall == Aggregate(steps) && record.correlationId == l.correlationId
    ensures record.meta == meta.(traceDigest := l.digest(steps))
    ensures OutcomeOf(next) == Worse(OutcomeOf(s), Aggregate(steps))
  {
    next := WithTrace(s, l.kind, TraceOf(l, steps), status, meta);
    record := next.timeline[0];
  }

  lemma EventStepOn(s: SessionState, items: seq<Item>, eventType: string, payload: map<string, Json>, status: string)
    returns (next: SessionState)
    requires Holds(s, items) && KnownEventType(eventType) && EventStatusAllowed(status)
    ensures EventStep(s, eventType, payload, status) == (next, None)
    ensures next.timeline == items + [SessionEvent(eventType, status, payload)]
    ensures next.lifecycle == s.lifecycle && next.strict == s.strict
    ensures OutcomeOf(next) == Worse(OutcomeOf(s), Classify(status))
  {
    next := WithEvent(s, eventType, payload, status);
  }

  lemma DecisionStep(s: SessionState, record: Item, verdict: string, rationale: string, details: Json)
    returns (next: SessionState, decision: Item)
    requires Holds(s, [record]) && VerdictAllowed(verdict)
    ensures Step(s, RecordDecision(verdict, rationale, details)) == (next, None) && Holds(next, [record, decision])
    ensures IsEvent(decision, "decision") && decision.status == DecisionStatus(verdict)
    ensures decision.payload == DecisionPayload(verdict, rationale, details)
    ensures OutcomeOf(next) == Worse(OutcomeOf(s), Classify(DecisionStatus(verdict)))
  {
    var payload := DecisionPayload(verdict, rationale, details);
    next := EventStepOn(s, [record], "decision", payload, DecisionStatus(verdict));
    decision := SessionEvent("decision", DecisionStatus(verdict), payload);
  }

  lemma FinalizeStep(s: SessionState, record: Item, decision: Item, outcome: string, notes: Json)
    returns (next: SessionState, final: Item)
    requires Holds(s, [record, decision])
    ensures Step(s, Finalize(outcome, notes)) == (next, None)
    ensures next.timeline == [record, decision, final] && next.lifecycle == Finalized
    ensures IsEvent(final, "finalize") && final.status == FinalStatus(outcome)
    ensures final.payload == FinalizePayload(outcome, notes)
    ensures OutcomeOf(next) == Worse(OutcomeOf(s), Classify(FinalStatus(outcome)))
  {
    next := EventStepOn(s, [record, decision], "finalize", FinalizePayload(outcome, notes), FinalStatus(outcome));
    final := SessionEvent("finalize", FinalStatus(outcome), FinalizePayload(outcome, notes));
    next := next.(lifecycle := Finalized);
  }

  lemma CloseSteps(start: SessionState, l: Labels, steps: seq<string>, approved: bool)
    returns (traced: SessionState, decided: SessionState, closed: SessionState)
    requires Holds(start, []) && OutcomeOf(start) == Info
    ensures var status, meta := if approved then "ok" else "rejected", if approved then l.okMeta else l.blockedMeta;
      && Step(start, RecordTrace(l.kind, TraceOf(l, steps), status, meta)) == (traced, None)
      && Step(traced, if approved then RecordDecision("approved", l.rationale, l.details)
                      else RecordDecision("blocked", l.blockedRationale, l.details)) == (decided, None)
      && Step(decided, Finalize(status, if approved then l.okNotes else l.blockedNotes)) == (closed, None)
      && ClosedRecord(closed, l, steps, status, if approved then "approved" else "blocked")
      && OutcomeOf(closed) == Worse(Aggregate(steps), if approved then Okay else Rejected)
  {
    var record, decision, final;
    if approved {
      traced, record := TraceStep(start, l, steps, "ok", l.okMeta);
      decided, decision := DecisionStep(traced, record, "approved", l.rationale, l.details);
      closed, final := FinalizeStep(decided, record, decision, "ok", l.okNotes);
    } else {
      traced, record := TraceStep(start, l, steps, "rejected", l.blockedMeta);
      decided, decision := DecisionStep(traced, record, "blocked", l.blockedRationale, l.details);
      closed, final := FinalizeStep(decided, record, decision, "rejected", l.blockedNotes);
    }
  }

  lemma CloseFresh(id: string, createdAt: string, l: Labels, steps: seq<string>, approved: bool)
    ensures var (s, error) := Close(Linked(id, createdAt, l), l, steps, true, approved);
      && error == None
      && ClosedRecord(s, l, steps, if approved then "ok" else "rejected", if approved then "approved" else "blocked")
      && OutcomeOf(s) == Worse(Aggregate(steps), if approved then Okay else Rejected)
  {
    var traced, decided, closed := CloseSteps(Linked(id, createdAt, l), l, steps, approved);
  }

  /** A closed session of the run's own holds one trace, so its bundle can be produced. */
  lemma ClosedIsBundled(id: string, createdAt: string, l: Labels, steps: seq<string>, approved: bool)
    ensures var (s, error) := Close(Linked(id, createdAt, l), l, steps, true, approved);
      error == None && BundleOf(s, l.hash).Ok?
  {
    CloseFresh(id, createdAt, l, steps, approved);
    LastMetaOfThree(Close(Linked(id, createdAt, l), l, steps, true, approved).0.timeline);
  }

  lemma LastMetaOfThree(timeline: seq<Item>)
    requires |timeline| == 3 && timeline[0].TraceRecord? && timeline[1].SessionEvent? && timeline[2].SessionEvent?
    ensures LastMeta(timeline) == Some(timeline[0].meta)
    ensures ConsistentFingerprint(timeline) && ConsistentClosure(timeline)
  {
    assert LastMeta(timeline[..2]) == LastMeta(timeline[..1]) && timeline[..2][..1] == timeline[..1];
    forall j | 0 < j < 3 ensures !timeline[j].TraceRecord? {
    }
  }

  ghost predicate RunShaped(s: SessionState, r: RunResult, l: Labels, p: Progress) {
    && (r == Approved <==> p.failure == None)
    && (r == Blocked <==> p.failure.Some? && p.failure.value.Lirix? && Strip(p.failure.value.layer) != "")
    && (r == Approved ==> ClosedRecord(s, l, p.steps, "ok", "approved"))
    && (r == Blocked ==> ClosedRecord(s, l, p.steps + ["rejected"], "rejected", "blocked"))
    && (r != Approved && r != Blocked ==> s.timeline == [] && s.lifecycle == Open && OutcomeOf(s) == Info)
    && (r == Approved ==> OutcomeOf(s) == Worse(Aggregate(p.steps), Okay))
    && (r == Blocked ==> OutcomeOf(s) == Rejected)
  }

  lemma ApprovedShape(id: string, createdAt: string, l: Labels, p: Progress)
    requires p.failure == None
    ensures var c := Concluded(Linked(id, createdAt, l), l, p, true);
      RunShaped(c.0, c.1, l, p)
  {
    CloseFresh(id, createdAt, l, p.steps, true);
    ClosedIsBundled(id, createdAt, l, p.steps, true);
  }

  lemma BlockedShape(id: string, createdAt: string, l: Labels, p: Progress)
    requires p.failure.Some? && p.failure.value.Lirix?
    ensures var c := Concluded(Linked(id, createdAt, l), l, p, true);
      RunShaped(c.0, c.1, l, p)
  {
    CloseFresh(id, createdAt, l, p.steps + ["rejected"], false);
    ClosedIsBundled(id, createdAt, l, p.steps + ["rejected"], false);
  }

  /** A run on a session of its own that is approved, or fails with one of the library's exceptions
      under a non-blank layer, leaves exactly trace, decision, finalize, and a finalised session. Any
      other failure leaves the session open and empty. */
  lemma RunShape(id: string, createdAt: string, l: Labels, p: Progress)
    ensures var c := Concluded(Linked(id, createdAt, l), l, p, true);
      RunShaped(c.0, c.1, l, p)
  {
    if p.failure == None {
      ApprovedShape(id, createdAt, l, p);
    } else if p.failure.value.Lirix? {
      BlockedShape(id, createdAt, l, p);
    }
  }

  // ---------------------------------------------------------------- the session outcome tells the verdict

  /** No step of these is a rejection. */
  predicate Calm(steps: seq<string>) { Aggregate(steps) != Rejected }

  lemma CalmAppend(a: seq<string>, b: seq<string>)
    requires Calm(a) && Calm(b)
    ensures Calm(a + b)
  {
    AggregateConcat(a, b);
  }

  lemma CalmOk(steps: seq<string>)
    requires Calm(steps)
    ensures Calm(steps + ["ok"])
  {
    AggregateOfOne("ok");
    CalmAppend(steps, ["ok"]);
  }

  lemma CalmTokens(results: seq<HookResult>)
    ensures Calm([Name(Aggregate(TraceTokens(results)))])
  {
    var tokens := TraceTokens(results);
    AggregateIsMostSevere(tokens);
    forall i | 0 <= i < |tokens| ensures Classify(Strip(tokens[i])) != Rejected {
      TaxonomyIsStripped(tokens[i]);
    }
    var name := Name(Aggregate(tokens));
    TaxonomyIsStripped(name);
    AggregateOfOne(name);
  }

  lemma CalmHooked(e: Setup, point: HookPoint, p: Progress)
    requires Calm(p.steps)
    ensures Calm(Hooked(e, point, p).steps)
  {
    var round := RoundAt(e, point, p.draft);
    CalmTokens(round.results);
    CalmAppend(p.steps, [Name(Aggregate(TraceTokens(round.results)))]);
  }

  lemma CalmDo(e: Setup, stage: Stage, p: Progress)
    requires Calm(p.steps)
    ensures Calm(Do(e, stage, p).steps)
  {
    CalmOk(p.steps);
    if stage.HookAt? {
      CalmHooked(e, stage.point, p);
    }
  }

  lemma {:induction false} CalmThrough(e: Setup, stages: seq<Stage>, p: Progress)
    requires Calm(p.steps)
    ensures Calm(Through(e, stages, p).steps)
    decreases |stages|
  {
    if stages != [] {
      CalmDo(e, stages[0], p);
      CalmThrough(e, stages[1..], Do(e, stages[0], p));
    }
  }

  lemma CalmFullRun(e: Setup, payload: Draft)
    ensures Calm(FullRun(e, payload).steps)
  {
    CalmThrough(e, Opening(), Start(payload));
    CalmThrough(e, Pass(1), BeforeChecks(e, payload));
    CalmThrough(e, Consuming(), AfterChecks(e, payload));
  }

  /** No stage or hook round of a run records a rejection, so the outcome of an owned session is
      "rejected" exactly when the run was blocked, and "ok" or "degraded" exactly when it was approved. */
  lemma OutcomeTellsVerdict(e: Setup, payload: Draft, id: string, createdAt: string, l: Labels)
    ensures var (s, r) := Concluded(Linked(id, createdAt, l), l, FullRun(e, payload), true);
      && (r == Blocked <==> OutcomeOf(s) == Rejected)
      && (r == Approved <==> OutcomeOf(s) in {Okay, Degraded})
  {
    CalmFullRun(e, payload);
    RunShape(id, createdAt, l, FullRun(e, payload));
  }

  // ---------------------------------------------------------------- every recorded run can be replayed

  /** Everything a run asks of its session. */
  predicate AskedByRun(owned: bool, call: Call) {
    call.LinkTrace? || call.RecordTrace? || call.RecordDecision? || (owned && call.Finalize?)
  }

  ghost predicate HexDigests(l: Labels) { forall steps :: IsHexDigest(l.digest(steps)) }

  /** SHA-256 digests of any trace, and metadata the replay checker takes. */
  ghost predicate WellLabelled(l: Labels, proofStrict: bool) {
    HexDigests(l) && MetaOk(l.okMeta, proofStrict) && MetaOk(l.blockedMeta, proofStrict)
  }

  ghost predicate Fitting(proofStrict: bool, call: Call) {
    Disciplined(call) && (call.RecordTrace? ==> MetaOk(call.meta, proofStrict))
  }

  /** All of these are calls a run makes, with trace digests and metadata of the labels. */
  ghost predicate RunCalls(l: Labels, owned: bool, calls: seq<Call>) {
    forall i :: 0 <= i < |calls| ==> RunCall(l, owned, calls[i])
  }

  ghost predicate RunCall(l: Labels, owned: bool, call: Call) {
    && AskedByRun(owned, call)
    && (call.RecordTrace? ==> call.meta in {l.okMeta, l.blockedMeta} && exists steps :: call.trace == TraceOf(l, steps))
  }

  lemma {:induction false} RunConcat(s: SessionState, first: seq<Call>, second: seq<Call>)
    ensures Run(s, first + second) == Run(Run(s, first), second)
    decreases first
  {
    if first == [] {
      assert first + second == second;
    } else {
      assert (first + second)[0] == first[0] && (first + second)[1..] == first[1..] + second;
      RunConcat(Step(s, first[0]).0, first[1..], second);
    }
  }

  lemma RunOne(s: SessionState, call: Call)
    ensures Run(s, [call]) == Step(s, call).0
  {
    assert [call][1..] == [];
  }

  /** Closing is up to three calls; the first that is refused is the last. */
  lemma CloseIsRun(s: SessionState, l: Labels, steps: seq<string>, owned: bool, approved: bool) returns (calls: seq<Call>)
    ensures Close(s, l, steps, owned, approved).0 == Run(s, calls) && RunCalls(l, owned, calls)
  {
    var meta := if approved then l.okMeta else l.blockedMeta;
    var trace := RecordTrace(l.kind, TraceOf(l, steps), if approved then "ok" else "rejected", meta);
    var verdict := if approved then RecordDecision("approved", l.rationale, l.details)
                   else RecordDecision("blocked", l.blockedRationale, l.details);
    var finish := Finalize(if approved then "ok" else "rejected", if approved then l.okNotes else l.blockedNotes);
    var (traced, e1) := Step(s, trace);
    RunOne(s, trace);
    calls := [trace];
    if e1 == None {
      var (decided, e2) := Step(traced, verdict);
      RunConcat(s, calls, [verdict]);
      RunOne(traced, verdict);
      calls := calls + [verdict];
      if e2 == None && owned {
        RunConcat(s, calls, [finish]);
        RunOne(decided, finish);
        calls := calls + [finish];
      }
    }
  }

  lemma HandledIsRun(s: SessionState, l: Labels, steps: seq<string>, owned: bool, layer: string) returns (calls: seq<Call>)
    ensures Handled(s, l, steps, owned, layer).0 == Run(s, calls) && RunCalls(l, owned, calls)
  {
    if Strip(layer) == "" {
      calls := [];
    } else {
      calls := CloseIsRun(s, l, steps + ["rejected"], owned, false);
    }
  }

  lemma ConcludedIsRun(s: SessionState, l: Labels, p: Progress, owned: bool) returns (calls: seq<Call>)
    ensures Concluded(s, l, p, owned).0 == Run(s, calls) && RunCalls(l, owned, calls)
  {
    match p.failure
    case Some(Unexpected) => calls := [];
    case Some(Lirix(layer)) => calls := HandledIsRun(s, l, p.steps, owned, layer);
    case None =>
      calls := CloseIsRun(s, l, p.steps, owned, true);
      var (closed, error) := Close(s, l, p.steps, owned, true);
      if error.Some? || BundleOf(closed, l.hash).Err? {
        var more := HandledIsRun(closed, l, p.steps, owned, "unknown");
        RunConcat(s, calls, more);
        calls := calls + more;
      }
  }

  /** Whatever a run does to a session, it does by calls any user of the session could make. */
  lemma RecordIsRun(s: SessionState, l: Labels, p: Progress, owned: bool) returns (calls: seq<Call>)
    ensures RecordOn(s, l, p, owned).0 == Run(s, calls) && RunCalls(l, owned, calls)
  {
    var link := Call.LinkTrace(l.correlationId);
    var (linked, refused) := Step(s, link);
    RunOne(s, link);
    calls := [link];
    if refused == None {
      var more := ConcludedIsRun(linked, l, p, owned);
      RunConcat(s, calls, more);
      calls := calls + more;
    }
  }

  // ---------------------------------------------------------------- sessions given by the caller

  ghost predicate Appends(s: SessionState, t: SessionState) {
    && s.timeline <= t.timeline
    && (t.lifecycle == Finalized <==> s.lifecycle == Finalized)
    && forall i :: |s.timeline| <= i < |t.timeline| ==> t.timeline[i].TraceRecord? || IsEvent(t.timeline[i], "decision")
  }

  lemma AskedAppends(s: SessionState, call: Call)
    requires AskedByRun(false, call)
    ensures Appends(s, Step(s, call).0)
  {
  }

  lemma {:induction false} RunAppends(s: SessionState, calls: seq<Call>)
    requires forall i :: 0 <= i < |calls| ==> AskedByRun(false, calls[i])
    ensures Appends(s, Run(s, calls))
    decreases calls
  {
    if calls != [] {
      AskedAppends(s, calls[0]);
      RunAppends(Step(s, calls[0]).0, calls[1..]);
    }
  }

  /** On a session the caller gave, a run appends only trace and decision records and never finalises;
      on a finalised one it does nothing but refuse. The order the replay checker wants is kept. */
  lemma GivenSessionRun(s: SessionState, l: Labels, p: Progress)
    ensures var (t, r) := RecordOn(s, l, p, false);
      && Appends(s, t) && t.strict == s.strict && t.mode == s.mode
      && (r == Refused <==> s.lifecycle == Finalized) && (r == Refused ==> t == s)
      && (Recorded(s) && HexDigests(l) ==> Recorded(t))
  {
    var calls := RecordIsRun(s, l, p, false);
    RunAppends(s, calls);
    RunKeepsKind(s, calls);
    if Recorded(s) && HexDigests(l) {
      RunKeepsRecorded(s, calls);
    }
  }

  lemma {:induction false} RunKeepsKind(s: SessionState, calls: seq<Call>)
    ensures Run(s, calls).strict == s.strict && Run(s, calls).mode == s.mode
    decreases calls
  {
    if calls != [] {
      RunKeepsKind(Step(s, calls[0]).0, calls[1..]);
    }
  }

  /** A run that reports a verdict has recorded a trace, and its bundle can be produced. */
  lemma ReportedRunsBundle(s: SessionState, l: Labels, p: Progress, owned: bool, hash: Hash)
    ensures var (t, r) := RecordOn(s, l, p, owned);
      r in {Approved, Blocked} ==> Exports(t, hash)
  {
    var linked := Step(s, Call.LinkTrace(l.correlationId)).0;
    match p.failure
    case None =>
      var closed := Close(linked, l, p.steps, owned, true).0;
      ClosedHasTrace(linked, l, p.steps, owned, true);
      HandledBundles(closed, l, p.steps, owned, "unknown", hash);
      BundleWithAnyHash(closed, l.hash, hash);
    case Some(Lirix(layer)) => HandledBundles(linked, l, p.steps, owned, layer, hash);
    case Some(Unexpected) =>
  }

  lemma HandledBundles(s: SessionState, l: Labels, steps: seq<string>, owned: bool, layer: string, hash: Hash)
    ensures var (t, r) := Handled(s, l, steps, owned, layer);
      r != Approved && (r == Blocked ==> Exports(t, hash))
  {
    ClosedHasTrace(s, l, steps + ["rejected"], owned, false);
    BundleWithAnyHash(Close(s, l, steps + ["rejected"], owned, false).0, l.hash, hash);
  }

  lemma BundleWithAnyHash(s: SessionState, first: Hash, second: Hash)
    ensures BundleOf(s, first).Ok? ==> BundleOf(s, second).Ok?
  {
  }

  ghost predicate HasTrace(s: SessionState) { LastMeta(s.timeline).Some? }

  ghost predicate Exports(s: SessionState, hash: Hash) { BundleOf(s, hash).Ok? && HasTrace(s) }

  lemma StepHasTrace(s: SessionState, call: Call)
    ensures HasTrace(s) || (call.RecordTrace? && Step(s, call).1 == None) ==> HasTrace(Step(s, call).0)
  {
    var t := Step(s, call).0.timeline;
    assert t == s.timeline || (|t| == |s.timeline| + 1 && t[..|s.timeline|] == s.timeline);
  }

  lemma ClosedHasTrace(s: SessionState, l: Labels, steps: seq<string>, owned: bool, approved: bool)
    ensures Close(s, l, steps, owned, approved).1 == None ==> HasTrace(Close(s, l, steps, owned, approved).0)
  {
    var trace := RecordTrace(l.kind, TraceOf(l, steps), if approved then "ok" else "rejected",
                             if approved then l.okMeta else l.blockedMeta);
    var verdict := if approved then RecordDecision("approved", l.rationale, l.details)
                   else RecordDecision("blocked", l.blockedRationale, l.details);
    var finish := Finalize(if approved then "ok" else "rejected", if approved then l.okNotes else l.blockedNotes);
    StepHasTrace(s, trace);
    StepHasTrace(Step(s, trace).0, verdict);
    StepHasTrace(Step(Step(s, trace).0, verdict).0, finish);
  }

  /** The two records a verdict leaves on a given session, after whatever stood there. */
  ghost predicate ReportedAfter(s: SessionState, t: SessionState, l: Labels, steps: seq<string>, approved: bool) {
    && |t.timeline| == |s.timeline| + 2 && t.timeline[..|s.timeline|] == s.timeline
    && var trace, decision := t.timeline[|s.timeline|], t.timeline[|s.timeline| + 1];
       && trace.TraceRecord? && trace.kind == l.kind && trace.correlationId == l.correlationId
       && trace.traceStatus == (if approved then "ok" else "rejected")
       && trace.meta == (if approved then l.okMeta else l.blockedMeta).(traceDigest := l.digest(steps))
       && IsEvent(decision, "decision") && decision.status == (if approved then "ok" else "rejected")
       && decision.payload == map["verdict" := JString(if approved then "approved" else "blocked"), "details" := l.details,
                                  "rationale" := JString(if approved then l.rationale else l.blockedRationale)]
  }

  lemma CloseGiven(s: SessionState, l: Labels, steps: seq<string>, approved: bool)
    ensures Close(s, l, steps, false, approved).1 == None ==>
      ReportedAfter(s, Close(s, l, steps, false, approved).0, l, steps, approved)
  {
    var trace := RecordTrace(l.kind, TraceOf(l, steps), if approved then "ok" else "rejected",
                             if approved then l.okMeta else l.blockedMeta);
    var traced := Step(s, trace).0;
    TraceIsRecorded(s, l.kind, TraceOf(l, steps), if approved then "ok" else "rejected",
                    if approved then l.okMeta else l.blockedMeta);
    DecisionIsRecorded(traced, if approved then "approved" else "blocked",
                       if approved then l.rationale else l.blockedRationale, l.details);
  }

  /** The same, after what a failed attempt to record an approval may have left. */
  ghost predicate BlockedAfter(s: SessionState, t: SessionState, l: Labels, steps: seq<string>) {
    exists mid: SessionState :: s.timeline <= mid.timeline && ReportedAfter(mid, t, l, steps, false)
  }

  lemma HandledGiven(s: SessionState, mid: SessionState, l: Labels, steps: seq<string>, layer: string)
    requires s.timeline <= mid.timeline
    ensures var (t, r) := Handled(mid, l, steps, false, layer);
      r in {Blocked, HandlerFailed} && (r == Blocked ==> BlockedAfter(s, t, l, steps + ["rejected"]))
  {
    CloseGiven(mid, l, steps + ["rejected"], false);
  }

  lemma CloseExtends(s: SessionState, l: Labels, steps: seq<string>, approved: bool)
    ensures s.timeline <= Close(s, l, steps, false, approved).0.timeline
  {
    var calls := CloseIsRun(s, l, steps, false, approved);
    RunAppends(s, calls);
  }

  /** On a session given to it, an approved run leaves its trace and its decision, and so does a blocked one; a
      failure of a foreign kind leaves nothing. */
  lemma GivenVerdicts(s: SessionState, l: Labels, p: Progress)
    ensures var (t, r) := Concluded(s, l, p, false);
      && (r == Approved ==> p.failure == None && ReportedAfter(s, t, l, p.steps, true))
      && (r == Blocked ==> BlockedAfter(s, t, l, p.steps + ["rejected"]))
      && (r == Escaped <==> p.failure == Some(Unexpected)) && (r == Escaped ==> t == s)
  {
    match p.failure
    case Some(Unexpected) =>
    case Some(Lirix(layer)) => HandledGiven(s, s, l, p.steps, layer);
    case None =>
      CloseGiven(s, l, p.steps, true);
      CloseExtends(s, l, p.steps, true);
      HandledGiven(s, Close(s, l, p.steps, false, true).0, l, p.steps, "unknown");
  }

  lemma CloseLogsTrace(s: SessionState, l: Labels, steps: seq<string>, approved: bool)
    requires s.lifecycle != Finalized
    ensures var t := Close(s, l, steps, false, approved).0;
      && s.timeline <= t.timeline && |s.timeline| < |t.timeline| && t.lifecycle != Finalized
      && t.timeline[|s.timeline|].TraceRecord?
      && t.timeline[|s.timeline|].traceStatus == if approved then "ok" else "rejected"
  {
    var meta := if approved then l.okMeta else l.blockedMeta;
    TraceIsRecorded(s, l.kind, TraceOf(l, steps), if approved then "ok" else "rejected", meta);
    var traced := Step(s, RecordTrace(l.kind, TraceOf(l, steps), if approved then "ok" else "rejected", meta)).0;
    DecisionIsRecorded(traced, if approved then "approved" else "blocked",
                       if approved then l.rationale else l.blockedRationale, l.details);
  }

  ghost predicate RejectedTraceFrom(timeline: seq<Item>, from: nat) {
    exists k :: from <= k < |timeline| && timeline[k].TraceRecord? && timeline[k].traceStatus == "rejected"
  }

  /** A run that came through every stage but whose approval cannot be recorded or bundled is not reported as
      approved, and a rejected trace of it is left after the approving one. */
  lemma LostApprovalIsRejected(s: SessionState, l: Labels, p: Progress)
    requires s.lifecycle != Finalized && p.failure == None
    ensures var (t, r) := Concluded(s, l, p, false);
      r != Approved ==> RejectedTraceFrom(t.timeline, |s.timeline| + 1)
  {
    var closed := Close(s, l, p.steps, false, true).0;
    CloseLogsTrace(s, l, p.steps, true);
    CloseLogsTrace(closed, l, p.steps + ["rejected"], false);
    assert Strip("unknown") == "unknown";
  }

  // ---------------------------------------------------------------- series of runs on one session

  /** What befalls a session: a run of the pipeline on it, or a call of its owner's. */
  datatype Act = ByRun(labels: Labels, progress: Progress, owned: bool) | ByOwner(call: Call)

  ghost function Acted(s: SessionState, act: Act): SessionState {
    match act
    case ByRun(l, p, owned) => RecordOn(s, l, p, owned).0
    case ByOwner(call) => Step(s, call).0
  }

  ghost function Series(s: SessionState, acts: seq<Act>): SessionState {
    if acts == [] then s else Acted(Series(s, acts[..|acts| - 1]), acts[|acts| - 1])
  }

  ghost predicate WellFormed(act: Act, proofStrict: bool) {
    match act
    case ByRun(l, _, _) => WellLabelled(l, proofStrict)
    case ByOwner(call) => Fitting(proofStrict, call)
  }

  lemma ActIsRun(s: SessionState, act: Act, proofStrict: bool) returns (calls: seq<Call>)
    requires WellFormed(act, proofStrict)
    ensures Acted(s, act) == Run(s, calls) && forall i :: 0 <= i < |calls| ==> Fitting(proofStrict, calls[i])
  {
    match act
    case ByOwner(call) =>
      RunOne(s, call);
      calls := [call];
    case ByRun(l, p, owned) =>
      calls := RecordIsRun(s, l, p, owned);
      forall i | 0 <= i < |calls| ensures Fitting(proofStrict, calls[i]) {
        assert RunCall(l, owned, calls[i]);
      }
  }

  lemma {:induction false} SeriesIsRun(s: SessionState, acts: seq<Act>, proofStrict: bool) returns (calls: seq<Call>)
    requires forall i :: 0 <= i < |acts| ==> WellFormed(acts[i], proofStrict)
    ensures Series(s, acts) == Run(s, calls) && forall i :: 0 <= i < |calls| ==> Fitting(proofStrict, calls[i])
  {
    if acts == [] {
      calls := [];
    } else {
      var n := |acts| - 1;
      calls := SeriesIsRun(s, acts[..n], proofStrict);
      var more := ActIsRun(Series(s, acts[..n]), acts[n], proofStrict);
      RunConcat(s, calls, more);
      calls := calls + more;
    }
  }

  ghost predicate Replays(s: SessionState, hash: Hash, enforce: bool, proofStrict: bool) {
    BundleOf(s, hash).Ok? && Accepted(BundleOf(s, hash).value, hash, enforce, proofStrict)
  }

  /** Any series of runs and other disciplined calls on one session, failed runs and refusals included: if
      a bundle can be produced at its end, then the replay checker accepts it. */
  lemma SeriesReplays(id: string, createdAt: string, mode: Mode, workflowStrict: bool, acts: seq<Act>, hash: Hash,
                      enforce: bool, proofStrict: bool)
    returns (s: SessionState)
    requires forall i :: 0 <= i < |acts| ==> WellFormed(acts[i], proofStrict)
    requires enforce ==> mode == Agent || workflowStrict
    ensures s == Series(NewSession(id, createdAt, mode, workflowStrict), acts)
    ensures BundleOf(s, hash).Ok? && (proofStrict ==> HasTrace(s)) ==> Replays(s, hash, enforce, proofStrict)
  {
    s := Series(NewSession(id, createdAt, mode, workflowStrict), acts);
    var calls := SeriesIsRun(NewSession(id, createdAt, mode, workflowStrict), acts, proofStrict);
    WellFormedRunsAreAccepted(id, createdAt, mode, workflowStrict, calls, hash, enforce, proofStrict);
  }

  /** The run reported a verdict. */
  ghost predicate Reported(s: SessionState, act: Act) {
    act.ByRun? && RecordOn(s, act.labels, act.progress, act.owned).1 in {Approved, Blocked}
  }

  /** And a bundle can be produced whenever the last of them is a run that reported a verdict. */
  lemma ReportedExports(start: SessionState, acts: seq<Act>, last: Act, hash: Hash)
    ensures Reported(Series(start, acts), last) ==> Exports(Series(start, acts + [last]), hash)
  {
    assert (acts + [last])[..|acts|] == acts;
    if last.ByRun? {
      ReportedRunsBundle(Series(start, acts), last.labels, last.progress, last.owned, hash);
    }
  }

  /** So whatever a run on a session of its own recorded, approved or blocked, replays. */
  lemma RecordedRunsReplay(id: string, createdAt: string, l: Labels, p: Progress, hash: Hash, proofStrict: bool)
    requires WellLabelled(l, proofStrict)
    ensures var (s, r) := RecordOn(NewSession(id, createdAt, Direct, false), l, p, true);
      r in {Approved, Blocked} ==> Replays(s, hash, false, proofStrict)
  {
    var start := NewSession(id, createdAt, Direct, false);
    var s := SeriesReplays(id, createdAt, Direct, false, [ByRun(l, p, true)], hash, false, proofStrict);
    ReportedRunsBundle(start, l, p, true, hash);
    assert s == RecordOn(start, l, p, true).0 by {
      assert [ByRun(l, p, true)][..0] == [];
    }
  }

  // ---------------------------------------------------------------- a failure that leaves no record

  /** A callback that raises a security exception whose context names a blank layer. */
  const BLANK_LAYER: Callback := Callback(false, _ => Security(""), d => d)

  /** Registered first, it ends every run in the failure handler's own failure, and an owned session
      stays open and empty: a rejected run that left no decision. */
  lemma BlankLayerLeavesNoRecord(e: Setup, payload: Draft, id: string, createdAt: string, l: Labels)
    requires e.at(PreValidate) == [BLANK_LAYER]
    ensures FullRun(e, payload).failure == Some(Lirix(""))
    ensures Concluded(Linked(id, createdAt, l), l, FullRun(e, payload), true) == (Linked(id, createdAt, l), HandlerFailed)
    ensures Linked(id, createdAt, l).timeline == [] && Linked(id, createdAt, l).lifecycle == Open
  {
    var start := Start(payload);
    var q := Hooked(e, PreValidate, start);
    assert [BLANK_LAYER][..0] == [];
    assert Rounds(e.mode, PreValidate, true, true, Some(payload), [BLANK_LAYER][..0]) == Round([], Some(payload), None);
    assert RoundAt(e, PreValidate, payload).escaped == Some("");
    var rest := Pass(0) + [HookAt(PreSimulation)];
    assert Opening()[0] == HookAt(PreValidate) && Opening()[1..] == rest;
    FailedStays(e, rest, q);
    FailedStays(e, Pass(1), q);
    FailedStays(e, Consuming(), q);
  }
}
