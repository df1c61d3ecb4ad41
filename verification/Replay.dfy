/** Replay bundles: what a session exports, and the independent checker that judges a bundle. */
module Replay {
  import opened Common
  import opened SessionFsm
  import opened Session
  import opened Statuses

  const BUNDLE_VERSION: string := "2.0"

  /** The part of a bundle that carries the session itself. */
  datatype Payload = Payload(
    sessionId: string,
    createdAt: string,
    correlationIds: seq<string>,
    timeline: seq<Item>,
    outcome: Option<Severity>,
    decisionState: Option<Json>,
    executionPlan: Option<Json>,
    workflowMode: string,
    workflowStrict: bool)

  /** The fields the bundle digest is computed from. */
  datatype Digested = Digested(
    migrationModes: map<string, string>,
    configFingerprint: Option<string>,
    lastTraceDigest: Option<string>,
    artifactDigests: map<string, string>,
    replayProof: map<string, ProofValue>,
    payload: Payload,
    closureDigest: Option<string>)

  /** The digest function, SHA-256 over canonical JSON in the source, is a parameter. */
  type Hash = Digested -> string

  /** A bundle as received: a field that is missing or has the wrong type is None. */
  datatype Bundle = Bundle(
    version: Option<string>,
    bundleDigest: Option<string>,
    migrationModes: map<string, string>,
    configFingerprint: Option<string>,
    lastTraceDigest: Option<string>,
    artifactDigests: map<string, string>,
    replayProof: map<string, ProofValue>,
    timelineSize: Option<int>,
    decisionCount: Option<int>,
    payload: Option<Payload>,
    closureDigest: Option<string>)

  datatype BundleError =
    | FingerprintDrift | ClosureDrift
    | BadVersion | Malformed | BadMode | BadEventType | BadStatus | OrderBroken(cause: FsmError)
    | MutationAfterFinalize | DuplicateFinalize | SizeMismatch | DecisionCountMismatch
    | BadClosureDigest | BadFingerprint | BadTraceDigest | BadArtifacts | BadProof | IntegrityBroken

  function ModeName(mode: Mode): string { if mode == Agent then "agent" else "direct" }

  predicate IsHexChar(c: char) { '0' <= c <= '9' || 'a' <= c <= 'f' || 'A' <= c <= 'F' }

  predicate IsHexDigest(value: string) {
    var token := Strip(value);
    |token| == 64 && forall i :: 0 <= i < |token| ==> IsHexChar(token[i])
  }

  // ---------------------------------------------------------------- producing a bundle

  /** Metadata of the most recent trace record. */
  function LastMeta(timeline: seq<Item>): Option<TraceMeta> {
    if timeline == [] then None
    else if timeline[|timeline| - 1].TraceRecord? then Some(timeline[|timeline| - 1].meta)
    else LastMeta(timeline[..|timeline| - 1])
  }

  ghost predicate ConsistentFingerprint(timeline: seq<Item>) {
    forall i, j :: 0 <= i < j < |timeline| && timeline[i].TraceRecord? && timeline[j].TraceRecord?
      && timeline[i].meta.configFingerprint.Some? && timeline[j].meta.configFingerprint.Some?
      ==> timeline[i].meta.configFingerprint == timeline[j].meta.configFingerprint
  }

  ghost predicate ConsistentClosure(timeline: seq<Item>) {
    forall i, j :: 0 <= i < j < |timeline| && timeline[i].TraceRecord? && timeline[j].TraceRecord?
      && timeline[i].meta.closureDigest.Some? && timeline[j].meta.closureDigest.Some?
      ==> timeline[i].meta.closureDigest == timeline[j].meta.closureDigest
  }

  function PayloadOf(s: SessionState): Payload {
    Payload(s.id, s.createdAt, s.correlationIds, s.timeline, s.outcome, s.decisionState, s.executionPlan,
            ModeName(s.mode), s.strict)
  }

  function OrEmpty<K, V>(m: Option<map<K, V>>): map<K, V> { if m.Some? then m.value else map[] }

  function DigestedOf(s: SessionState): Digested {
    match LastMeta(s.timeline)
    case None => Digested(map[], None, None, map[], map[], PayloadOf(s), None)
    case Some(meta) =>
      Digested(OrEmpty(meta.migrationModes), meta.configFingerprint, Some(meta.traceDigest),
               OrEmpty(meta.artifactDigests), OrEmpty(meta.replayProof), PayloadOf(s), meta.closureDigest)
  }

  function IsDecision(item: Item): bool { IsEvent(item, "decision") }

  function DecisionLog(timeline: seq<Item>): seq<Item> {
    if timeline == [] then []
    else (if IsDecision(timeline[0]) then [timeline[0]] else []) + DecisionLog(timeline[1..])
  }

  ghost function BundleOf(s: SessionState, hash: Hash): Result<Bundle, BundleError> {
    if !ConsistentFingerprint(s.timeline) then Err(FingerprintDrift)
    else if !ConsistentClosure(s.timeline) then Err(ClosureDrift)
    else
      var d := DigestedOf(s);
      Ok(Bundle(Some(BUNDLE_VERSION), Some(hash(d)), d.migrationModes, d.configFingerprint, d.lastTraceDigest,
                d.artifactDigests, d.replayProof, Some(|s.timeline|), Some(|DecisionLog(s.timeline)|),
                Some(d.payload), d.closureDigest))
  }

  /** `replay_bundle`: collect the metadata values of all traces, refuse drift, then assemble. */
  method ReplayBundle(s: SessionState, hash: Hash) returns (r: Result<Bundle, BundleError>)
    ensures r == BundleOf(s, hash)
  {
    var tl := s.timeline;
    var fingerprints := set i | 0 <= i < |tl| && tl[i].TraceRecord? && tl[i].meta.configFingerprint.Some?
      :: tl[i].meta.configFingerprint;
    var closures := set i | 0 <= i < |tl| && tl[i].TraceRecord? && tl[i].meta.closureDigest.Some?
      :: tl[i].meta.closureDigest;
    if |fingerprints| > 1 {
      SeveralDiffer(fingerprints);
      return Err(FingerprintDrift);
    }
    assert ConsistentFingerprint(tl) by {
      forall i, j | 0 <= i < j < |tl| && tl[i].TraceRecord? && tl[j].TraceRecord?
          && tl[i].meta.configFingerprint.Some? && tl[j].meta.configFingerprint.Some?
        ensures tl[i].meta.configFingerprint == tl[j].meta.configFingerprint {
        AtMostOne(fingerprints, tl[i].meta.configFingerprint, tl[j].meta.configFingerprint);
      }
    }
    if |closures| > 1 {
      SeveralDiffer(closures);
      return Err(ClosureDrift);
    }
    assert ConsistentClosure(tl) by {
      forall i, j | 0 <= i < j < |tl| && tl[i].TraceRecord? && tl[j].TraceRecord?
          && tl[i].meta.closureDigest.Some? && tl[j].meta.closureDigest.Some?
        ensures tl[i].meta.closureDigest == tl[j].meta.closureDigest {
        AtMostOne(closures, tl[i].meta.closureDigest, tl[j].meta.closureDigest);
      }
    }
    var d := DigestedOf(s);
    r := Ok(Bundle(Some(BUNDLE_VERSION), Some(hash(d)), d.migrationModes, d.configFingerprint, d.lastTraceDigest,
                   d.artifactDigests, d.replayProof, Some(|tl|), Some(|DecisionLog(tl)|),
                   Some(d.payload), d.closureDigest));
  }

  // ---------------------------------------------------------------- what a bundle carries

  /** The greatest index of a trace record. */
  ghost predicate LastTraceAt(timeline: seq<Item>, i: int) {
    0 <= i < |timeline| && timeline[i].TraceRecord? && forall k :: i < k < |timeline| ==> !timeline[k].TraceRecord?
  }

  ghost predicate NoTrace(timeline: seq<Item>) { forall k :: 0 <= k < |timeline| ==> !timeline[k].TraceRecord? }

  /** The metadata of a bundle is that of the last trace recorded, absent maps read as empty; without a trace
      there is none. */
  ghost predicate CarriesLastTrace(timeline: seq<Item>, b: Bundle) {
    && (forall i :: LastTraceAt(timeline, i) ==> CarriesMeta(timeline[i].meta, b))
    && (NoTrace(timeline) ==>
          && b.lastTraceDigest == None && b.configFingerprint == None && b.closureDigest == None
          && b.migrationModes == map[] && b.artifactDigests == map[] && b.replayProof == map[])
  }

  ghost predicate CarriesMeta(meta: TraceMeta, b: Bundle) {
    && b.lastTraceDigest == Some(meta.traceDigest)
    && b.configFingerprint == meta.configFingerprint && b.closureDigest == meta.closureDigest
    && b.migrationModes == (if meta.migrationModes.Some? then meta.migrationModes.value else map[])
    && b.artifactDigests == (if meta.artifactDigests.Some? then meta.artifactDigests.value else map[])
    && b.replayProof == if meta.replayProof.Some? then meta.replayProof.value else map[]
  }

  /** Positions of the decision events. */
  function Decisions(timeline: seq<Item>): set<int> {
    set i | 0 <= i < |timeline| && IsEvent(timeline[i], "decision")
  }

  /** The rest of a bundle: the session itself, and the two counters. */
  ghost predicate CarriesSession(s: SessionState, b: Bundle) {
    && b.version == Some("2.0")
    && b.timelineSize == Some(|s.timeline|) && b.decisionCount == Some(|Decisions(s.timeline)|)
    && b.payload.Some?
    && var p := b.payload.value;
       && p.sessionId == s.id && p.createdAt == s.createdAt && p.correlationIds == s.correlationIds
       && p.timeline == s.timeline && p.outcome == s.outcome && p.decisionState == s.decisionState
       && p.executionPlan == s.executionPlan && p.workflowStrict == s.strict
       && p.workflowMode == if s.mode.Agent? then "agent" else "direct"
  }

  lemma {:induction false} LastMetaAt(timeline: seq<Item>)
    ensures forall i :: LastTraceAt(timeline, i) ==> LastMeta(timeline) == Some(timeline[i].meta)
    ensures NoTrace(timeline) ==> LastMeta(timeline) == None
  {
    if timeline != [] && !timeline[|timeline| - 1].TraceRecord? {
      var init := timeline[..|timeline| - 1];
      LastMetaAt(init);
      forall i | LastTraceAt(timeline, i) ensures LastMeta(timeline) == Some(timeline[i].meta) {
        assert LastTraceAt(init, i);
      }
    }
  }

  lemma {:induction false} DecisionLogAppend(timeline: seq<Item>, item: Item)
    ensures DecisionLog(timeline + [item]) == DecisionLog(timeline) + if IsDecision(item) then [item] else []
  {
    var longer := timeline + [item];
    if timeline == [] {
      assert longer == [item] && longer[1..] == [];
    } else {
      var rest := timeline[1..];
      assert longer[0] == timeline[0] && longer[1..] == rest + [item];
      DecisionLogAppend(rest, item);
      DecisionLogFrom(longer);
      DecisionLogFrom(timeline);
    }
  }

  lemma DecisionLogFrom(timeline: seq<Item>)
    requires timeline != []
    ensures DecisionLog(timeline) == (if IsDecision(timeline[0]) then [timeline[0]] else []) + DecisionLog(timeline[1..])
  {
  }

  lemma {:induction false} DecisionsCounted(timeline: seq<Item>)
    ensures |DecisionLog(timeline)| == |Decisions(timeline)|
  {
    if timeline != [] {
      var n := |timeline| - 1;
      var init := timeline[..n];
      assert timeline == init + [timeline[n]];
      DecisionsCounted(init);
      DecisionLogAppend(init, timeline[n]);
      assert Decisions(timeline) == Decisions(init) + if IsDecision(timeline[n]) then {n} else {};
    }
  }

  /** So a bundle carries the metadata of the last trace, the session and its counters, under their digest. */
  lemma BundleCarries(s: SessionState, hash: Hash)
    ensures var r := BundleOf(s, hash);
      r.Ok? ==> CarriesLastTrace(s.timeline, r.value) && CarriesSession(s, r.value)
                && r.value.bundleDigest == Some(hash(Recomputed(r.value)))
  {
    LastMetaAt(s.timeline);
    DecisionsCounted(s.timeline);
  }

  lemma AtMostOne<T>(s: set<T>, a: T, b: T)
    requires |s| <= 1 && a in s && b in s
    ensures a == b
  {
    if a != b {
      assert {a, b} <= s && |{a, b}| == 2;
      SubsetSize({a, b}, s);
    }
  }

  lemma SeveralDiffer<T>(s: set<T>)
    requires |s| > 1
    ensures exists a, b :: a in s && b in s && a != b
  {
    var a :| a in s;
    assert |s - {a}| > 0;
    var b :| b in s - {a};
  }

  // ---------------------------------------------------------------- what the checker promises

  /** Every entry is an object, and every session event has a known type and status. */
  ghost predicate WellTyped(timeline: seq<Item>) {
    forall i :: 0 <= i < |timeline| ==>
      && !timeline[i].Malformed?
      && (timeline[i].SessionEvent? ==> KnownEventType(timeline[i].eventType) && EventStatusAllowed(timeline[i].status))
  }

  /** At most one finalize, and nothing but annotations among the session events after it. */
  ghost predicate FinalizeLast(timeline: seq<Item>) {
    forall i, j :: 0 <= i < j < |timeline| && IsEvent(timeline[i], "finalize") && timeline[j].SessionEvent?
      ==> timeline[j].eventType == "annotation"
  }

  /** Every workflow event comes after the event it needs. */
  ghost predicate PrerequisitesMet(timeline: seq<Item>) {
    forall i :: 0 <= i < |timeline| && timeline[i].SessionEvent? && Prerequisite(timeline[i].eventType).Some?
      ==> Happened(timeline[..i], Prerequisite(timeline[i].eventType).value)
  }

  ghost predicate TimelineOk(timeline: seq<Item>, strict: bool) {
    WellTyped(timeline) && FinalizeLast(timeline) && (strict ==> PrerequisitesMet(timeline))
  }

  predicate ArtifactKeyAllowed(key: string) {
    || key in {"config_snapshot_digest", "rpc_evidence_digest", "policy_decision_digest", "chain_profile_digest"}
    || "ext_" <= key
  }

  predicate ProofHexOk(value: ProofValue) {
    match value
    case ProofNull => true
    case ProofText(s) => IsHexDigest(s)
    case ProofOther(rendered) => IsHexDigest(rendered)
  }

  predicate ProofTextOk(value: ProofValue) { !value.ProofOther? }

  predicate ProofOk(proof: map<string, ProofValue>, proofStrict: bool) {
    && (proofStrict ==> "chain_registry_digest" in proof && "decoder_registry_digest" in proof
                        && "registry_version" in proof && "registry_source" in proof)
    && ("chain_registry_digest" in proof ==> ProofHexOk(proof["chain_registry_digest"]))
    && ("decoder_registry_digest" in proof ==> ProofHexOk(proof["decoder_registry_digest"]))
    && ("registry_version" in proof ==> ProofTextOk(proof["registry_version"]))
    && ("registry_source" in proof ==> ProofTextOk(proof["registry_source"]))
  }

  predicate OptionalHexOk(value: Option<string>) { value.Some? ==> IsHexDigest(value.value) }

  predicate ArtifactsOk(artifacts: map<string, string>) {
    forall key :: key in artifacts ==> key != "" && ArtifactKeyAllowed(key) && IsHexDigest(artifacts[key])
  }

  /** The digests a bundle is checked for are well formed. */
  predicate DigestsOk(d: Digested, proofStrict: bool) {
    && OptionalHexOk(d.closureDigest)
    && OptionalHexOk(d.configFingerprint)
    && OptionalHexOk(d.lastTraceDigest)
    && ArtifactsOk(d.artifactDigests)
    && ProofOk(d.replayProof, proofStrict)
  }

  function Recomputed(b: Bundle): Digested
    requires b.payload.Some?
  {
    Digested(b.migrationModes, b.configFingerprint, b.lastTraceDigest, b.artifactDigests, b.replayProof,
             b.payload.value, b.closureDigest)
  }

  /** What an accepted bundle guarantees, stated without reference to how it is scanned. */
  ghost predicate Accepted(b: Bundle, hash: Hash, strict: bool, proofStrict: bool) {
    && b.version == Some(BUNDLE_VERSION)
    && b.payload.Some?
    && b.payload.value.workflowMode in {"agent", "direct"}
    && TimelineOk(b.payload.value.timeline, strict)
    && (b.timelineSize.Some? ==> b.timelineSize.value == |b.payload.value.timeline|)
    && (b.decisionCount.Some? ==> b.decisionCount.value == |DecisionLog(b.payload.value.timeline)|)
    && DigestsOk(Recomputed(b), proofStrict)
    && b.bundleDigest == Some(hash(Recomputed(b)))
  }

  // ---------------------------------------------------------------- appending one entry

  function EventsOf(timeline: seq<Item>): seq<Item> {
    if timeline == [] then []
    else
      var n := |timeline| - 1;
      EventsOf(timeline[..n]) + (if timeline[n].SessionEvent? then [timeline[n]] else [])
  }

  lemma HappenedAppend(before: seq<Item>, item: Item, eventType: string)
    ensures Happened(before + [item], eventType) <==> Happened(before, eventType) || IsEvent(item, eventType)
  {
    var after := before + [item];
    if IsEvent(item, eventType) {
      assert IsEvent(after[|before|], eventType);
    }
    if Happened(before, eventType) {
      var i :| 0 <= i < |before| && IsEvent(before[i], eventType);
      assert IsEvent(after[i], eventType);
    }
  }

  /** Dropping everything but session events keeps the history. */
  lemma {:induction false} SameHistory(timeline: seq<Item>, eventType: string)
    ensures Happened(EventsOf(timeline), eventType) <==> Happened(timeline, eventType)
  {
    if timeline != [] {
      var n := |timeline| - 1;
      var init, last := timeline[..n], timeline[n];
      SameHistory(init, eventType);
      assert timeline == init + [last];
      HappenedAppend(init, last, eventType);
      if last.SessionEvent? {
        HappenedAppend(EventsOf(init), last, eventType);
      } else {
        assert EventsOf(init) + [] == EventsOf(init);
      }
    }
  }

  ghost predicate ItemWellTyped(item: Item) {
    && !item.Malformed?
    && (item.SessionEvent? ==> KnownEventType(item.eventType) && EventStatusAllowed(item.status))
  }

  ghost predicate KeepsFinalizeLast(before: seq<Item>, item: Item) {
    item.SessionEvent? && item.eventType != "annotation" ==> !Happened(before, "finalize")
  }

  ghost predicate HasPrerequisite(before: seq<Item>, item: Item) {
    item.SessionEvent? && Prerequisite(item.eventType).Some? ==> Happened(before, Prerequisite(item.eventType).value)
  }

  lemma FinalizeLastAppend(before: seq<Item>, item: Item)
    ensures FinalizeLast(before + [item]) <==> FinalizeLast(before) && KeepsFinalizeLast(before, item)
  {
    var after := before + [item];
    var n := |before|;
    assert after[n] == item && forall i :: 0 <= i < n ==> after[i] == before[i];
    if FinalizeLast(after) {
      forall i, j | 0 <= i < j < n && IsEvent(before[i], "finalize") && before[j].SessionEvent?
        ensures before[j].eventType == "annotation" {
        assert IsEvent(after[i], "finalize") && after[j].SessionEvent?;
      }
      if item.SessionEvent? && Happened(before, "finalize") {
        var i :| 0 <= i < n && IsEvent(before[i], "finalize");
        assert IsEvent(after[i], "finalize") && after[n].SessionEvent?;
      }
    }
  }

  lemma PrerequisitesAppend(before: seq<Item>, item: Item)
    ensures PrerequisitesMet(before + [item]) <==> PrerequisitesMet(before) && HasPrerequisite(before, item)
  {
    var after := before + [item];
    var n := |before|;
    assert after[n] == item && forall i :: 0 <= i < n ==> after[i] == before[i];
    assert forall i :: 0 <= i <= n ==> after[..i] == before[..i];
    assert before[..n] == before;
    if PrerequisitesMet(after) {
      forall i | 0 <= i < n && before[i].SessionEvent? && Prerequisite(before[i].eventType).Some?
        ensures Happened(before[..i], Prerequisite(before[i].eventType).value) {
        assert after[i].SessionEvent?;
      }
    }
  }

  lemma WellTypedAppend(before: seq<Item>, item: Item)
    ensures WellTyped(before + [item]) <==> WellTyped(before) && ItemWellTyped(item)
  {
    var after := before + [item];
    assert after[|before|] == item && forall i :: 0 <= i < |before| ==> after[i] == before[i];
    if WellTyped(after) {
      forall i | 0 <= i < |before| ensures ItemWellTyped(before[i]) {
        assert ItemWellTyped(after[i]);
      }
    }
  }

  /** Each part of the order, decided one entry at a time. */
  lemma TimelineAppend(before: seq<Item>, item: Item)
    ensures WellTyped(before + [item]) <==> WellTyped(before) && ItemWellTyped(item)
    ensures FinalizeLast(before + [item]) <==> FinalizeLast(before) && KeepsFinalizeLast(before, item)
    ensures PrerequisitesMet(before + [item]) <==> PrerequisitesMet(before) && HasPrerequisite(before, item)
  {
    WellTypedAppend(before, item);
    FinalizeLastAppend(before, item);
    PrerequisitesAppend(before, item);
  }

  /** A timeline with a broken prefix is broken. */
  lemma PrefixBroken(timeline: seq<Item>, k: nat, strict: bool)
    requires k <= |timeline| && !TimelineOk(timeline[..k], strict)
    ensures !TimelineOk(timeline, strict)
  {
    var prefix := timeline[..k];
    if TimelineOk(timeline, strict) {
      assert forall i :: 0 <= i < k ==> prefix[i] == timeline[i] && prefix[..i] == timeline[..i];
      assert WellTyped(prefix) && FinalizeLast(prefix) && (strict ==> PrerequisitesMet(prefix));
    }
  }

  /** What the guard says about the replayed events, in terms of the full timeline. */
  lemma GuardOnReplay(before: seq<Item>, item: Item)
    requires item.SessionEvent? && KnownEventType(item.eventType)
    ensures var g := Guard(Running, EventsOf(before), Some(item.eventType), true);
      && (g == Some(WorkflowOrder) <==> !HasPrerequisite(before, item))
      && (g.Some? && g != Some(WorkflowOrder) ==> !KeepsFinalizeLast(before, item))
  {
    var events := EventsOf(before);
    if Prerequisite(item.eventType).Some? {
      SameHistory(before, Prerequisite(item.eventType).value);
    }
    SameHistory(before, "finalize");
    if Happened(Tail(events), "finalize") {
      TailHappened(events, "finalize");
    }
  }

  lemma TailHappened(timeline: seq<Item>, eventType: string)
    requires Happened(Tail(timeline), eventType)
    ensures Happened(timeline, eventType)
  {
    var tail := Tail(timeline);
    var i :| 0 <= i < |tail| && IsEvent(tail[i], eventType);
    assert timeline[|timeline| - |tail| + i] == tail[i];
  }

  /** Everything one step of the scan relies on. */
  lemma ScanStep(timeline: seq<Item>, n: nat, strict: bool)
    requires n < |timeline|
    ensures var before, after, item := timeline[..n], timeline[..n + 1], timeline[n];
      && EventsOf(after) == EventsOf(before) + (if item.SessionEvent? then [item] else [])
      && (Happened(after, "finalize") <==> Happened(before, "finalize") || IsEvent(item, "finalize"))
      && (WellTyped(after) <==> WellTyped(before) && ItemWellTyped(item))
      && (FinalizeLast(after) <==> FinalizeLast(before) && KeepsFinalizeLast(before, item))
      && (PrerequisitesMet(after) <==> PrerequisitesMet(before) && HasPrerequisite(before, item))
      && (!TimelineOk(after, strict) ==> !TimelineOk(timeline, strict))
      && (item.SessionEvent? && KnownEventType(item.eventType) ==>
            var g := Guard(Running, EventsOf(before), Some(item.eventType), true);
            && (g == Some(WorkflowOrder) <==> !HasPrerequisite(before, item))
            && (g.Some? && g != Some(WorkflowOrder) ==> !KeepsFinalizeLast(before, item)))
  {
    var before, after, item := timeline[..n], timeline[..n + 1], timeline[n];
    assert after == before + [item] && after[..n] == before;
    HappenedAppend(before, item, "finalize");
    TimelineAppend(before, item);
    if !TimelineOk(after, strict) {
      PrefixBroken(timeline, n + 1, strict);
    }
    if item.SessionEvent? && KnownEventType(item.eventType) {
      GuardOnReplay(before, item);
    }
  }

  // ---------------------------------------------------------------- the checker

  /** The timeline scan: session events are re-validated against the events already replayed. */
  method CheckTimeline(timeline: seq<Item>, strict: bool) returns (error: Option<BundleError>)
    ensures error.None? <==> TimelineOk(timeline, strict)
  {
    var sawFinalize := false;
    var finalizeCount := 0;
    var replayed: seq<Item> := [];
    for n := 0 to |timeline|
      invariant replayed == EventsOf(timeline[..n])
      invariant WellTyped(timeline[..n])
      invariant strict ==> PrerequisitesMet(timeline[..n])
      invariant sawFinalize == Happened(timeline[..n], "finalize") == (finalizeCount > 0)
      invariant finalizeCount <= 1 <==> FinalizeLast(timeline[..n])
    {
      var item := timeline[n];
      ghost var before := timeline[..n];
      ScanStep(timeline, n, strict);
      if item.Malformed? {
        return Some(BundleError.Malformed);
      }
      if !item.SessionEvent? {
        continue;
      }
      if !KnownEventType(item.eventType) {
        return Some(BadEventType);
      }
      if !EventStatusAllowed(item.status) {
        return Some(BadStatus);
      }
      if strict {
        var broken := ValidateAppend(Running, replayed, Some(item.eventType), true);
        if broken.Some? {
          return Some(OrderBroken(broken.value));
        }
      }
      replayed := replayed + [item];
      if item.eventType == "finalize" {
        sawFinalize := true;
        finalizeCount := finalizeCount + 1;
        continue;
      }
      if sawFinalize && MutatesWorkflow(item.eventType) {
        return Some(MutationAfterFinalize);
      }
    }
    assert timeline[..|timeline|] == timeline;
    if finalizeCount > 1 {
      return Some(DuplicateFinalize);
    }
    return None;
  }

  /** `verify_replay_bundle`. */
  method VerifyReplayBundle(b: Bundle, hash: Hash, enforceWorkflowStrict: bool, proofStrict: bool)
    returns (error: Option<BundleError>)
    ensures error.None? <==> Accepted(b, hash, enforceWorkflowStrict, proofStrict)
  {
    if b.version != Some(BUNDLE_VERSION) {
      return Some(BadVersion);
    }
    if b.bundleDigest.None? || b.payload.None? {
      return Some(BundleError.Malformed);
    }
    var payload := b.payload.value;
    if payload.workflowMode !in {"agent", "direct"} {
      return Some(BadMode);
    }
    var scanned := CheckTimeline(payload.timeline, enforceWorkflowStrict);
    if scanned.Some? {
      return scanned;
    }
    if b.timelineSize.Some? && b.timelineSize.value != |payload.timeline| {
      return Some(SizeMismatch);
    }
    if b.decisionCount.Some? && b.decisionCount.value != |DecisionLog(payload.timeline)| {
      return Some(DecisionCountMismatch);
    }
    if !OptionalHexOk(b.closureDigest) {
      return Some(BadClosureDigest);
    }
    if !OptionalHexOk(b.configFingerprint) {
      return Some(BadFingerprint);
    }
    if !OptionalHexOk(b.lastTraceDigest) {
      return Some(BadTraceDigest);
    }
    if !ArtifactsOk(b.artifactDigests) {
      return Some(BadArtifacts);
    }
    if !ProofOk(b.replayProof, proofStrict) {
      return Some(BadProof);
    }
    if b.bundleDigest.value != hash(Recomputed(b)) {
      return Some(IntegrityBroken);
    }
    return None;
  }

  // ---------------------------------------------------------------- acceptance, name by name

  /** Sixty-four hexadecimal digits, white space around them aside. */
  ghost predicate SixtyFourDigits(text: string) {
    |Strip(text)| == 64 && forall i :: 0 <= i < 64 ==> Strip(text)[i] in "0123456789abcdefABCDEF"
  }

  lemma HexByDigits(text: string)
    ensures IsHexDigest(text) <==> SixtyFourDigits(text)
  {
    var digits := "0123456789abcdefABCDEF";
    forall c: char ensures IsHexChar(c) <==> c in digits {
      HexChar(c);
    }
  }

  lemma HexChar(c: char)
    ensures IsHexChar(c) <==> c in "0123456789abcdefABCDEF"
  {
    var digits := "0123456789abcdefABCDEF";
    var n := c as int;
    if '0' <= c <= '9' {
      assert digits[n - 48] == c;
    } else if 'a' <= c <= 'f' {
      assert digits[n - 87] == c;
    } else if 'A' <= c <= 'F' {
      assert digits[n - 49] == c;
    }
  }

  /** An artifact digest stands under one of four names or under one of the caller's own. */
  ghost predicate ArtifactFits(key: string, digest: string) {
    && (key in {"config_snapshot_digest", "rpc_evidence_digest", "policy_decision_digest", "chain_profile_digest"}
        || (|key| >= 4 && key[..4] == "ext_"))
    && SixtyFourDigits(digest)
  }

  ghost predicate RegistryDigestFits(v: ProofValue) {
    v.ProofNull? || (v.ProofText? && SixtyFourDigits(v.s)) || (v.ProofOther? && SixtyFourDigits(v.rendered))
  }

  /** The replay proof: the two registry digests and the two texts, all four of them when proofs are strict. */
  ghost predicate ProofFits(proof: map<string, ProofValue>, proofStrict: bool) {
    && (proofStrict ==>
          {"chain_registry_digest", "decoder_registry_digest", "registry_version", "registry_source"} <= proof.Keys)
    && (forall key :: key in proof && key in {"chain_registry_digest", "decoder_registry_digest"} ==>
          RegistryDigestFits(proof[key]))
    && (forall key :: key in proof && key in {"registry_version", "registry_source"} ==> !proof[key].ProofOther?)
  }

  lemma DigestsByNames(d: Digested, proofStrict: bool)
    ensures DigestsOk(d, proofStrict) <==>
      && (d.closureDigest.Some? ==> SixtyFourDigits(d.closureDigest.value))
      && (d.configFingerprint.Some? ==> SixtyFourDigits(d.configFingerprint.value))
      && (d.lastTraceDigest.Some? ==> SixtyFourDigits(d.lastTraceDigest.value))
      && (forall key :: key in d.artifactDigests ==> ArtifactFits(key, d.artifactDigests[key]))
      && ProofFits(d.replayProof, proofStrict)
  {
    forall text: string ensures IsHexDigest(text) <==> SixtyFourDigits(text) {
      HexByDigits(text);
    }
    forall key | key in d.artifactDigests
      ensures ArtifactFits(key, d.artifactDigests[key]) <==>
              key != "" && ArtifactKeyAllowed(key) && IsHexDigest(d.artifactDigests[key]) {
    }
    ProofByNames(d.replayProof, proofStrict);
  }

  lemma ProofByNames(proof: map<string, ProofValue>, proofStrict: bool)
    ensures ProofOk(proof, proofStrict) <==> ProofFits(proof, proofStrict)
  {
    forall v: ProofValue ensures ProofHexOk(v) <==> RegistryDigestFits(v) {
      if v.ProofText? {
        HexByDigits(v.s);
      } else if v.ProofOther? {
        HexByDigits(v.rendered);
      }
    }
  }

  /** The order a strict timeline keeps, in the names of the events. */
  lemma StrictOrderByNames(timeline: seq<Item>)
    ensures PrerequisitesMet(timeline) <==>
      forall i :: 0 <= i < |timeline| && timeline[i].SessionEvent? ==> !LacksStage(timeline[..i], timeline[i].eventType)
  {
  }
}
