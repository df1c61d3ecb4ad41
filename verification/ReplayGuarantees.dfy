/** What recording and checking promise each other, over every run of a session. */
module ReplayGuarantees {
  import opened Common
  import opened SessionFsm
  import opened Session
  import opened Replay
  import Statuses

  /** Holds of every session whose finalize events all came through `finalize`. */
  ghost predicate Recorded(s: SessionState) {
    && TimelineOk(s.timeline, s.strict)
    && (Happened(s.timeline, "finalize") <==> s.lifecycle == Finalized)
    && (s.mode == Agent ==> s.strict)
    && (forall i :: 0 <= i < |s.timeline| && s.timeline[i].TraceRecord? ==>
          IsHexDigest(s.timeline[i].meta.traceDigest))
  }

  /** The caller never records a bare finalize event, and trace digests are SHA-256 hex strings. */
  ghost predicate Disciplined(call: Call) {
    && (call.RecordEvent? ==> call.eventType != "finalize")
    && (call.RecordTrace? ==> IsHexDigest(call.trace.digest))
  }

  ghost predicate AllDisciplined(calls: seq<Call>) {
    forall i :: 0 <= i < |calls| ==> Disciplined(calls[i])
  }

  /** A recorded event keeps the timeline in order exactly when no finalize event is hidden from the
      guard, that is, lies further back than the tail the guard looks at. */
  lemma EventKeepsOrderIff(s: SessionState, eventType: string, payload: map<string, Json>, status: string)
    requires TimelineOk(s.timeline, s.strict)
    requires EventStep(s, eventType, payload, status).1.None?
    ensures TimelineOk(EventStep(s, eventType, payload, status).0.timeline, s.strict)
      <==> eventType == "annotation"
           || !Happened(s.timeline[..|s.timeline| - |Tail(s.timeline)|], "finalize")
  {
    var item := SessionEvent(eventType, status, payload);
    TimelineAppend(s.timeline, item);
    SplitHappened(s.timeline, |s.timeline| - |Tail(s.timeline)|, "finalize");
  }

  lemma SplitHappened(timeline: seq<Item>, k: nat, eventType: string)
    requires k <= |timeline|
    ensures Happened(timeline, eventType) <==> Happened(timeline[..k], eventType) || Happened(timeline[k..], eventType)
  {
    if Happened(timeline, eventType) {
      var i :| 0 <= i < |timeline| && IsEvent(timeline[i], eventType);
      assert if i < k then IsEvent(timeline[..k][i], eventType) else IsEvent(timeline[k..][i - k], eventType);
    }
    if Happened(timeline[..k], eventType) {
      var i :| 0 <= i < k && IsEvent(timeline[..k][i], eventType);
      assert IsEvent(timeline[i], eventType);
    }
    if Happened(timeline[k..], eventType) {
      var i :| 0 <= i < |timeline| - k && IsEvent(timeline[k..][i], eventType);
      assert IsEvent(timeline[k + i], eventType);
    }
  }

  /** While no finalize event stands outside a finalised lifecycle, every event keeps the order. */
  lemma EventKeepsRecorded(s: SessionState, eventType: string, payload: map<string, Json>, status: string)
    requires Recorded(s)
    ensures var (next, error) := EventStep(s, eventType, payload, status);
      && TimelineOk(next.timeline, s.strict)
      && (Happened(next.timeline, "finalize") <==>
            s.lifecycle == Finalized || (error.None? && eventType == "finalize"))
      && (forall i :: 0 <= i < |next.timeline| && next.timeline[i].TraceRecord? ==>
            IsHexDigest(next.timeline[i].meta.traceDigest))
  {
    var item := SessionEvent(eventType, status, payload);
    TimelineAppend(s.timeline, item);
    HappenedAppend(s.timeline, item, "finalize");
  }

  lemma StepKeepsRecorded(s: SessionState, call: Call)
    requires Recorded(s) && Disciplined(call)
    ensures Recorded(Step(s, call).0)
    ensures Step(s, call).0.strict == s.strict && Step(s, call).0.mode == s.mode
  {
    match call
    case LinkTrace(_) =>
    case RecordTrace(kind, trace, status, meta) =>
      var item := TraceRecord(kind, status, trace.correlationId,
                              Statuses.Aggregate(trace.stepStatuses), meta.(traceDigest := trace.digest));
      TimelineAppend(s.timeline, item);
      HappenedAppend(s.timeline, item, "finalize");
    case RecordEvent(eventType, payload, status) => EventKeepsRecorded(s, eventType, payload, status);
    case RecordDecision(verdict, rationale, details) =>
      EventKeepsRecorded(s, "decision", DecisionPayload(verdict, rationale, details), DecisionStatus(verdict));
    case BindExecutionPlan(plan) =>
      EventKeepsRecorded(s.(executionPlan := Some(plan)), "plan", map["execution_plan" := plan], "info");
    case Finalize(finalOutcome, notes) =>
      EventKeepsRecorded(s, "finalize", FinalizePayload(finalOutcome, notes), FinalStatus(finalOutcome));
  }

  lemma {:induction false} RunKeepsRecorded(s: SessionState, calls: seq<Call>)
    requires Recorded(s) && AllDisciplined(calls)
    ensures Recorded(Run(s, calls))
    ensures Run(s, calls).strict == s.strict && Run(s, calls).mode == s.mode
    decreases calls
  {
    if calls != [] {
      StepKeepsRecorded(s, calls[0]);
      RunKeepsRecorded(Step(s, calls[0]).0, calls[1..]);
    }
  }

  // ---------------------------------------------------------------- completeness

  /** Record then verify: after any disciplined run, whatever bundle the session exports is accepted
      exactly when the metadata digests of the last trace are well formed and, if the checker enforces
      the strict workflow on a session that did not, the strict order happens to hold. */
  lemma RecordThenVerify(id: string, createdAt: string, mode: Mode, workflowStrict: bool, calls: seq<Call>,
                         hash: Hash, enforce: bool, proofStrict: bool)
    requires AllDisciplined(calls)
    ensures var s := Run(NewSession(id, createdAt, mode, workflowStrict), calls);
      BundleOf(s, hash).Ok? ==>
        (Accepted(BundleOf(s, hash).value, hash, enforce, proofStrict) <==>
           DigestsOk(DigestedOf(s), proofStrict) && (enforce && !s.strict ==> PrerequisitesMet(s.timeline)))
  {
    var s := Run(NewSession(id, createdAt, mode, workflowStrict), calls);
    RunKeepsRecorded(NewSession(id, createdAt, mode, workflowStrict), calls);
    if BundleOf(s, hash).Ok? {
      var b := BundleOf(s, hash).value;
      assert Recomputed(b) == DigestedOf(s);
      assert b.payload.value.timeline == s.timeline;
    }
  }

  ghost predicate MetaOk(meta: TraceMeta, proofStrict: bool) {
    && OptionalHexOk(meta.configFingerprint)
    && OptionalHexOk(meta.closureDigest)
    && ArtifactsOk(OrEmpty(meta.artifactDigests))
    && ProofOk(OrEmpty(meta.replayProof), proofStrict)
  }

  ghost predicate MetasOk(timeline: seq<Item>, proofStrict: bool) {
    forall i :: 0 <= i < |timeline| && timeline[i].TraceRecord? ==> MetaOk(timeline[i].meta, proofStrict)
  }

  lemma {:induction false} RunKeepsMetas(s: SessionState, calls: seq<Call>, proofStrict: bool)
    requires MetasOk(s.timeline, proofStrict)
    requires forall i :: 0 <= i < |calls| && calls[i].RecordTrace? ==> MetaOk(calls[i].meta, proofStrict)
    ensures MetasOk(Run(s, calls).timeline, proofStrict)
    decreases calls
  {
    if calls != [] {
      RunKeepsMetas(Step(s, calls[0]).0, calls[1..], proofStrict);
    }
  }

  lemma {:induction false} LastMetaIsRecorded(timeline: seq<Item>)
    requires LastMeta(timeline).Some?
    ensures exists i :: 0 <= i < |timeline| && timeline[i].TraceRecord? && timeline[i].meta == LastMeta(timeline).value
  {
    var n := |timeline| - 1;
    if !timeline[n].TraceRecord? {
      LastMetaIsRecorded(timeline[..n]);
      var i :| 0 <= i < n && timeline[..n][i].TraceRecord? && timeline[..n][i].meta == LastMeta(timeline).value;
      assert timeline[i].TraceRecord?;
    }
  }

  lemma MetasGiveDigests(s: SessionState, proofStrict: bool)
    requires Recorded(s) && MetasOk(s.timeline, proofStrict)
    requires proofStrict ==> LastMeta(s.timeline).Some?
    ensures DigestsOk(DigestedOf(s), proofStrict)
  {
    if LastMeta(s.timeline).Some? {
      LastMetaIsRecorded(s.timeline);
    }
  }

  /** A session fed only well-formed metadata exports bundles its own checker accepts; an agent
      session's bundle is accepted even when the strict workflow is enforced. */
  lemma WellFormedRunsAreAccepted(id: string, createdAt: string, mode: Mode, workflowStrict: bool, calls: seq<Call>,
                                  hash: Hash, enforce: bool, proofStrict: bool)
    requires AllDisciplined(calls)
    requires forall i :: 0 <= i < |calls| && calls[i].RecordTrace? ==> MetaOk(calls[i].meta, proofStrict)
    requires enforce ==> mode == Agent || workflowStrict
    ensures var s := Run(NewSession(id, createdAt, mode, workflowStrict), calls);
      BundleOf(s, hash).Ok? && (proofStrict ==> LastMeta(s.timeline).Some?) ==>
        Accepted(BundleOf(s, hash).value, hash, enforce, proofStrict)
  {
    var start := NewSession(id, createdAt, mode, workflowStrict);
    var s := Run(start, calls);
    RunKeepsRecorded(start, calls);
    RunKeepsMetas(start, calls, proofStrict);
    RecordThenVerify(id, createdAt, mode, workflowStrict, calls, hash, enforce, proofStrict);
    if BundleOf(s, hash).Ok? && (proofStrict ==> LastMeta(s.timeline).Some?) {
      MetasGiveDigests(s, proofStrict);
    }
  }

  // ---------------------------------------------------------------- soundness of the strict checker

  /** `eventType` at position `at` is preceded by its whole chain of prerequisites, in order. */
  ghost predicate ChainBefore(timeline: seq<Item>, at: nat, eventType: string)
    requires at <= |timeline|
    decreases at
  {
    match Prerequisite(eventType)
    case None => true
    case Some(need) => exists i :: 0 <= i < at && IsEvent(timeline[i], need) && ChainBefore(timeline, i, need)
  }

  lemma {:induction false} PrerequisitesGiveChains(timeline: seq<Item>, at: nat)
    requires PrerequisitesMet(timeline) && at < |timeline| && timeline[at].SessionEvent?
    ensures ChainBefore(timeline, at, timeline[at].eventType)
    decreases at
  {
    var eventType := timeline[at].eventType;
    if Prerequisite(eventType).Some? {
      var need := Prerequisite(eventType).value;
      var i :| 0 <= i < at && IsEvent(timeline[..at][i], need);
      PrerequisitesGiveChains(timeline, i);
      assert IsEvent(timeline[i], need) && ChainBefore(timeline, i, need);
    }
  }

  /** Anything the strict checker accepts obeys the workflow: each event has its full chain
      plan, draft, tool_call, decision before it, finalize happens at most once, and no other
      kind of session event than an annotation follows it. */
  lemma StrictAcceptanceIsSound(b: Bundle, hash: Hash, proofStrict: bool)
    requires Accepted(b, hash, true, proofStrict)
    ensures var tl := b.payload.value.timeline;
      && (forall i :: 0 <= i < |tl| && tl[i].SessionEvent? ==> ChainBefore(tl, i, tl[i].eventType))
      && (forall i, j :: 0 <= i < |tl| && 0 <= j < |tl| && IsEvent(tl[i], "finalize") && IsEvent(tl[j], "finalize")
            ==> i == j)
      && (forall i, j :: 0 <= i < j < |tl| && IsEvent(tl[i], "finalize") && tl[j].SessionEvent?
            ==> IsEvent(tl[j], "annotation"))
  {
    var tl := b.payload.value.timeline;
    forall i | 0 <= i < |tl| && tl[i].SessionEvent? ensures ChainBefore(tl, i, tl[i].eventType) {
      PrerequisitesGiveChains(tl, i);
    }
  }

  // ---------------------------------------------------------------- tamper evidence

  ghost predicate CollisionFree(hash: Hash) {
    forall a, b :: hash(a) == hash(b) ==> a == b
  }

  /** Accepted bundles with one digest agree on every digested field, and on the two counters
      that the digest does not cover. */
  lemma EqualDigestsEqualBundles(a: Bundle, b: Bundle, hash: Hash, strictA: bool, strictB: bool,
                                 proofA: bool, proofB: bool)
    requires CollisionFree(hash)
    requires Accepted(a, hash, strictA, proofA) && Accepted(b, hash, strictB, proofB)
    requires a.bundleDigest == b.bundleDigest
    ensures Recomputed(a) == Recomputed(b)
    ensures a.timelineSize.Some? && b.timelineSize.Some? ==> a.timelineSize == b.timelineSize
    ensures a.decisionCount.Some? && b.decisionCount.Some? ==> a.decisionCount == b.decisionCount
  {
    assert hash(Recomputed(a)) == hash(Recomputed(b));
  }

  // ---------------------------------------------------------------- the gap left by bare finalize events

  predicate IsAnnotation(call: Call) {
    call.RecordEvent? && call.eventType == "annotation" && EventStatusAllowed(call.status)
  }

  predicate AreAnnotations(calls: seq<Call>) {
    forall i :: 0 <= i < |calls| ==> IsAnnotation(calls[i])
  }

  /** Annotations are always recorded, and change neither lifecycle nor mode. */
  lemma {:induction false} AnnotationsAppend(s: SessionState, notes: seq<Call>, rest: seq<Call>)
    returns (t: SessionState)
    requires AreAnnotations(notes)
    ensures Run(s, notes + rest) == Run(t, rest)
    ensures |t.timeline| == |s.timeline| + |notes| && s.timeline <= t.timeline
    ensures OnlyAnnotations(t.timeline[|s.timeline|..])
    ensures t.lifecycle == s.lifecycle && t.strict == s.strict
    decreases notes
  {
    if notes == [] {
      assert notes + rest == rest;
      t := s;
    } else {
      var next := AnnotationStep(s, notes[0]);
      assert (notes + rest)[0] == notes[0] && (notes + rest)[1..] == notes[1..] + rest;
      t := AnnotationsAppend(next, notes[1..], rest);
      forall i | 0 <= i < |t.timeline| - |s.timeline|
        ensures IsEvent(t.timeline[|s.timeline|..][i], "annotation") {
        if i == 0 {
          assert t.timeline[|s.timeline|] == next.timeline[|s.timeline|];
        } else {
          assert t.timeline[|s.timeline|..][i] == t.timeline[|next.timeline|..][i - 1];
        }
      }
    }
  }

  lemma AnnotationStep(s: SessionState, note: Call) returns (next: SessionState)
    requires IsAnnotation(note)
    ensures next == Step(s, note).0 && Step(s, note).1.None?
    ensures next.timeline == s.timeline + [SessionEvent("annotation", note.status, note.payload)]
    ensures next.lifecycle == s.lifecycle && next.strict == s.strict
  {
    next := Step(s, note).0;
  }

  predicate IsBareFinalize(call: Call) {
    call.RecordEvent? && call.eventType == "finalize" && EventStatusAllowed(call.status)
  }

  /** Runs whose bundle is refused: two bare finalize events with enough annotations in between
      to push the first one out of the guard's sight. */
  lemma BareFinalizeEscapesTheGuard(id: string, createdAt: string, first: Call, notes: seq<Call>, second: Call,
                                    hash: Hash)
    requires IsBareFinalize(first) && AreAnnotations(notes) && IsBareFinalize(second)
    requires |notes| >= TAIL_LIMIT
    ensures var s := Run(NewSession(id, createdAt, Direct, false), [first] + notes + [second]);
      BundleOf(s, hash).Ok? && !Accepted(BundleOf(s, hash).value, hash, false, false)
  {
    var start := NewSession(id, createdAt, Direct, false);
    var once := FirstFinalize(start, first);
    RunCons(start, first, notes + [second]);
    assert [first] + notes + [second] == [first] + (notes + [second]);
    var t := AnnotationsAppend(once, notes, [second]);
    assert t.timeline[0] == once.timeline[0];
    RunCons(t, second, []);
    assert [second] + [] == [second];
    SecondFinalizeSlipsThrough(t, second, hash);
  }

  lemma RunCons(s: SessionState, call: Call, rest: seq<Call>)
    ensures Run(s, [call] + rest) == Run(Step(s, call).0, rest)
  {
    assert ([call] + rest)[0] == call && ([call] + rest)[1..] == rest;
  }

  lemma FirstFinalize(start: SessionState, first: Call) returns (once: SessionState)
    requires start.timeline == [] && start.lifecycle == Open && !start.strict && IsBareFinalize(first)
    ensures once == Step(start, first).0
    ensures once.timeline == [SessionEvent("finalize", first.status, first.payload)]
    ensures once.lifecycle == Open && !once.strict
  {
    once := Step(start, first).0;
  }

  lemma SecondFinalizeSlipsThrough(t: SessionState, second: Call, hash: Hash)
    requires IsBareFinalize(second)
    requires |t.timeline| > TAIL_LIMIT && IsEvent(t.timeline[0], "finalize")
    requires OnlyAnnotations(t.timeline[1..]) && t.lifecycle == Open && !t.strict
    ensures var s := Step(t, second).0;
      BundleOf(s, hash).Ok? && !Accepted(BundleOf(s, hash).value, hash, false, false)
  {
    var item := SessionEvent("finalize", second.status, second.payload);
    FinalizeOutOfSight(t.timeline);
    var s := Step(t, second).0;
    assert s.timeline == t.timeline + [item];
    assert IsEvent(t.timeline[0], "finalize");
    TimelineAppend(t.timeline, item);
    forall i | 0 <= i < |s.timeline| ensures s.timeline[i].SessionEvent? {
      assert 0 < i < |t.timeline| ==> s.timeline[i] == t.timeline[1..][i - 1];
    }
    EventsOnlyBundle(s, hash);
  }

  lemma FinalizeOutOfSight(timeline: seq<Item>)
    requires |timeline| > TAIL_LIMIT && OnlyAnnotations(timeline[1..])
    ensures !Happened(Tail(timeline), "finalize")
  {
    forall i | 0 <= i < TAIL_LIMIT ensures !IsEvent(Tail(timeline)[i], "finalize") {
      assert Tail(timeline)[i] == timeline[1..][|timeline| - TAIL_LIMIT + i - 1];
    }
  }

  lemma EventsOnlyBundle(s: SessionState, hash: Hash)
    requires forall i :: 0 <= i < |s.timeline| ==> s.timeline[i].SessionEvent?
    ensures BundleOf(s, hash).Ok?
    ensures Accepted(BundleOf(s, hash).value, hash, false, false) ==> FinalizeLast(s.timeline)
  {
  }
}
