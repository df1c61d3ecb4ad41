/** The timeline of a validation session and the guard that decides what may be appended to it. */
module SessionFsm {
  import opened Common
  import opened Statuses

  datatype Lifecycle = Open | Running | Finalized

  datatype TraceKind =
    | ValidateAndSimulate | AsyncValidateAndSimulate
    | ValidateOnly | AsyncValidateOnly
    | SimulateOnly | AsyncSimulateOnly

  /** A value inside a replay proof; `rendered` is what `str(value or "")` yields. */
  datatype ProofValue = ProofText(s: string) | ProofNull | ProofOther(rendered: string)

  /** Replay metadata attached to a trace record; an absent key is None. */
  datatype TraceMeta = TraceMeta(
    traceDigest: string,
    migrationModes: Option<map<string, string>>,
    configFingerprint: Option<string>,
    artifactDigests: Option<map<string, string>>,
    closureDigest: Option<string>,
    replayProof: Option<map<string, ProofValue>>)

  /** One timeline entry. Only a bundle from elsewhere can hold Foreign or Malformed entries. */
  datatype Item =
    | TraceRecord(kind: TraceKind, traceStatus: string, correlationId: string, overall: Severity, meta: TraceMeta)
    | SessionEvent(eventType: string, status: string, payload: map<string, Json>)
    | Foreign(otherKind: string)
    | Malformed

  datatype FsmError = AlreadyFinalized | WorkflowOrder | FinalizeOnce | AfterFinalize

  const TAIL_LIMIT: nat := 25

  predicate KnownEventType(eventType: string) {
    eventType in {"plan", "draft", "tool_call", "decision", "finalize", "annotation"}
  }

  /** The event each workflow stage requires to have happened before it. */
  function Prerequisite(eventType: string): Option<string> {
    if eventType == "draft" then Some("plan")
    else if eventType == "tool_call" then Some("draft")
    else if eventType == "decision" then Some("tool_call")
    else if eventType == "finalize" then Some("decision")
    else None
  }

  predicate IsEvent(item: Item, eventType: string) {
    item.SessionEvent? && item.eventType == eventType
  }

  ghost predicate Happened(timeline: seq<Item>, eventType: string) {
    exists i :: 0 <= i < |timeline| && IsEvent(timeline[i], eventType)
  }

  /** The known event types a timeline contains. */
  function EventsSeen(timeline: seq<Item>): set<string> {
    set i | 0 <= i < |timeline| && timeline[i].SessionEvent? && KnownEventType(timeline[i].eventType)
      :: timeline[i].eventType
  }

  method SessionWorkflowEventsSeen(timeline: seq<Item>) returns (seen: set<string>)
    ensures seen == EventsSeen(timeline)
  {
    seen := {};
    for i := 0 to |timeline|
      invariant seen == EventsSeen(timeline[..i])
    {
      assert timeline[..i + 1] == timeline[..i] + [timeline[i]];
      var item := timeline[i];
      if item.SessionEvent? && KnownEventType(item.eventType) {
        assert timeline[..i + 1][i].eventType in EventsSeen(timeline[..i + 1]);
        seen := seen + {item.eventType};
      }
      assert forall e :: e in EventsSeen(timeline[..i]) ==> e in EventsSeen(timeline[..i + 1]) by {
        forall e | e in EventsSeen(timeline[..i]) ensures e in EventsSeen(timeline[..i + 1]) {
          var k :| 0 <= k < i && timeline[..i][k].SessionEvent? && KnownEventType(timeline[..i][k].eventType)
                   && timeline[..i][k].eventType == e;
          assert timeline[..i + 1][k].eventType == e;
        }
      }
    }
    assert timeline[..|timeline|] == timeline;
  }

  /** Event types of a timeline, newest first. */
  function NewestFirst(timeline: seq<Item>): seq<string> {
    if timeline == [] then []
    else
      var last := timeline[|timeline| - 1];
      (if last.SessionEvent? then [last.eventType] else []) + NewestFirst(timeline[..|timeline| - 1])
  }

  function Tail(timeline: seq<Item>): seq<Item> {
    if |timeline| <= TAIL_LIMIT then timeline else timeline[|timeline| - TAIL_LIMIT..]
  }

  method TailEventTypes(timeline: seq<Item>) returns (out: seq<string>)
    ensures out == NewestFirst(Tail(timeline))
  {
    var tail := Tail(timeline);
    out := [];
    var i := |tail|;
    assert tail[..i] == tail;
    while i > 0
      invariant 0 <= i <= |tail|
      invariant out + NewestFirst(tail[..i]) == NewestFirst(tail)
    {
      i := i - 1;
      assert tail[..i + 1][..i] == tail[..i];
      if tail[i].SessionEvent? {
        out := out + [tail[i].eventType];
      }
    }
  }

  lemma {:induction false} NewestFirstMembers(timeline: seq<Item>, eventType: string)
    ensures eventType in NewestFirst(timeline) <==> Happened(timeline, eventType)
  {
    if timeline != [] {
      var n := |timeline| - 1;
      NewestFirstMembers(timeline[..n], eventType);
      if Happened(timeline, eventType) && !IsEvent(timeline[n], eventType) {
        var i :| 0 <= i < |timeline| && IsEvent(timeline[i], eventType);
        assert IsEvent(timeline[..n][i], eventType);
      }
      if Happened(timeline[..n], eventType) {
        var i :| 0 <= i < n && IsEvent(timeline[..n][i], eventType);
        assert IsEvent(timeline[i], eventType);
      }
    }
  }

  predicate MutatesWorkflow(eventType: string) {
    eventType in {"plan", "draft", "tool_call", "decision"}
  }

  /** What the guard promises: the first rule an append would break, if any.
      An incoming None stands for a trace record. */
  ghost function Guard(lifecycle: Lifecycle, timeline: seq<Item>, incoming: Option<string>, strict: bool)
    : Option<FsmError>
  {
    if lifecycle == Finalized && incoming != Some("annotation") then Some(AlreadyFinalized)
    else if incoming.None? then None
    else if strict && Prerequisite(incoming.value).Some? && !Happened(timeline, Prerequisite(incoming.value).value)
      then Some(WorkflowOrder)
    else if Happened(Tail(timeline), "finalize") then
      if incoming.value == "finalize" then Some(FinalizeOnce)
      else if MutatesWorkflow(incoming.value) then Some(AfterFinalize)
      else None
    else None
  }

  method ValidateAppend(lifecycle: Lifecycle, timeline: seq<Item>, incoming: Option<string>, strict: bool)
    returns (error: Option<FsmError>)
    ensures error == Guard(lifecycle, timeline, incoming, strict)
  {
    if lifecycle == Finalized && incoming != Some("annotation") {
      return Some(AlreadyFinalized);
    }
    if strict && incoming.Some? && Prerequisite(incoming.value).Some? {
      var need := Prerequisite(incoming.value).value;
      var seen := SessionWorkflowEventsSeen(timeline);
      SeenMeansHappened(timeline, need);
      if need !in seen {
        return Some(WorkflowOrder);
      }
    }
    var tail := TailEventTypes(timeline);
    NewestFirstMembers(Tail(timeline), "finalize");
    if incoming == Some("finalize") {
      return if "finalize" in tail then Some(FinalizeOnce) else None;
    }
    if incoming.Some? && MutatesWorkflow(incoming.value) && "finalize" in tail {
      return Some(AfterFinalize);
    }
    return None;
  }

  lemma SeenMeansHappened(timeline: seq<Item>, eventType: string)
    requires KnownEventType(eventType)
    ensures eventType in EventsSeen(timeline) <==> Happened(timeline, eventType)
  {
    if Happened(timeline, eventType) {
      var i :| 0 <= i < |timeline| && IsEvent(timeline[i], eventType);
      assert timeline[i].eventType in EventsSeen(timeline);
    }
  }

  // ---------------------------------------------------------------- the guard, event by event

  /** The event that must already stand on the timeline of a strict session, if it does not. */
  ghost predicate LacksStage(timeline: seq<Item>, incoming: string) {
    || (incoming == "draft" && !Happened(timeline, "plan"))
    || (incoming == "tool_call" && !Happened(timeline, "draft"))
    || (incoming == "decision" && !Happened(timeline, "tool_call"))
    || (incoming == "finalize" && !Happened(timeline, "decision"))
  }

  /** A finalize event among the last 25 items. */
  ghost predicate RecentlyFinalized(timeline: seq<Item>) {
    exists i :: 0 <= i < |timeline| && |timeline| - 25 <= i && IsEvent(timeline[i], "finalize")
  }

  lemma TailIsLast25(timeline: seq<Item>)
    ensures Happened(Tail(timeline), "finalize") <==> RecentlyFinalized(timeline)
  {
    var tail := Tail(timeline);
    var skipped := |timeline| - |tail|;
    assert forall i :: 0 <= i < |tail| ==> tail[i] == timeline[skipped + i];
    if i :| 0 <= i < |timeline| && |timeline| - 25 <= i && IsEvent(timeline[i], "finalize") {
      assert IsEvent(tail[i - skipped], "finalize");
    }
    if i :| 0 <= i < |tail| && IsEvent(tail[i], "finalize") {
      assert IsEvent(timeline[skipped + i], "finalize");
    }
  }

  /** The guard in the names of the events: a finalised session takes annotations only; a trace record is
      otherwise always taken; a strict session wants plan, draft, tool_call, decision, finalize in this order;
      and after a recent finalize event neither a second one nor a workflow event is taken. */
  lemma GuardByNames(lifecycle: Lifecycle, timeline: seq<Item>, incoming: Option<string>, strict: bool)
    ensures var e := Guard(lifecycle, timeline, incoming, strict);
      && (e == Some(AlreadyFinalized) <==> lifecycle == Finalized && incoming != Some("annotation"))
      && (lifecycle != Finalized && incoming == None ==> e == None)
      && (lifecycle != Finalized && incoming.Some? ==>
            && (e == Some(WorkflowOrder) <==> strict && LacksStage(timeline, incoming.value))
            && (e == Some(FinalizeOnce) <==>
                  incoming.value == "finalize" && RecentlyFinalized(timeline) && e != Some(WorkflowOrder))
            && (e == Some(AfterFinalize) <==>
                  incoming.value in {"plan", "draft", "tool_call", "decision"} && RecentlyFinalized(timeline)
                  && e != Some(WorkflowOrder)))
  {
    TailIsLast25(timeline);
  }
}
