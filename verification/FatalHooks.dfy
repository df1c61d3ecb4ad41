/** Which hook results end a run of the pipeline, and which change nothing but its log. */
module FatalHooks {
  import opened Common
  import opened Hooks
  import opened HookFold
  import opened Pipeline
  import opened PipelineGuarantees

  // ---------------------------------------------------------------- which results end a run

  /** Some callback of the point offends against the contract, given the draft. */
  ghost predicate SomeoneOffends(e: Setup, point: HookPoint, draft: Draft) {
    exists i :: 0 <= i < |e.at(point)| && Offends(point, Awaits(point), EntryAt(point, draft), e.at(point)[i])
  }

  /** A round nobody escapes from has a fatal result exactly when the mode is enforce and a callback
      offends: a stray patch, a fatal rejection or a value of foreign type. */
  lemma FatalResults(e: Setup, point: HookPoint, draft: Draft)
    requires RoundAt(e, point, draft).escaped == None
    ensures AnyBlocking(RoundAt(e, point, draft).results) <==> e.mode == Enforce && SomeoneOffends(e, point, draft)
  {
    var awaits, entry, cbs := Awaits(point), EntryAt(point, draft), e.at(point);
    PointsMeetTheirContract(point);
    if e.mode == Enforce {
      NoEscapeRunsAll(Enforce, point, true, awaits, entry, cbs);
      FullRound(Enforce, point, true, awaits, entry, cbs);
      forall i | 0 <= i < |cbs|
        ensures Blocking(RoundAt(e, point, draft).results[i]) <==> Offends(point, awaits, entry, cbs[i]) {
        FatalExactlyWhere(point, awaits, entry, cbs, i);
      }
    } else {
      OnlyEnforcementBlocks(e.mode, point, true, awaits, entry, cbs);
    }
  }

  /** A round nobody escapes from ends the run if and only if the mode is enforce, a callback offends,
      and the point is one of the four of the pipeline or the intent check's. */
  lemma FatalResultEndsRun(e: Setup, point: HookPoint, p: Progress)
    requires p.failure == None && RoundAt(e, point, p.draft).escaped == None
    ensures Hooked(e, point, p).failure.Some? <==>
      e.mode == Enforce && SomeoneOffends(e, point, p.draft) && ReadsResults(point)
    ensures Hooked(e, point, p).fatalAt ==
      if e.mode == Enforce && SomeoneOffends(e, point, p.draft) then p.fatalAt + [point] else p.fatalAt
  {
    FatalResults(e, point, p.draft);
  }

  /** Fatal results so far were all at points nobody reads, unless the last one ended the run. */
  ghost predicate FatalsInOrder(e: Setup, p: Progress) {
    && (p.fatalAt != [] ==> e.mode == Enforce)
    && (p.failure == None ==> forall i :: 0 <= i < |p.fatalAt| ==> !ReadsResults(p.fatalAt[i]))
    && (forall i :: 0 <= i < |p.fatalAt| && ReadsResults(p.fatalAt[i]) ==>
          i == |p.fatalAt| - 1 && p.failure == Some(Lirix("hooks")))
  }

  lemma DoFatals(e: Setup, stage: Stage, p: Progress)
    requires FatalsInOrder(e, p)
    ensures FatalsInOrder(e, Do(e, stage, p))
  {
    if p.failure == None && stage.HookAt? && RoundAt(e, stage.point, p.draft).escaped == None {
      FatalResultEndsRun(e, stage.point, p);
    }
  }

  /** Over a whole run: a fatal result at a point somebody reads is the last one and ends the run. */
  lemma {:induction false} RunFatals(e: Setup, stages: seq<Stage>, p: Progress)
    requires FatalsInOrder(e, p)
    ensures FatalsInOrder(e, Through(e, stages, p))
    decreases |stages|
  {
    if stages != [] {
      DoFatals(e, stages[0], p);
      RunFatals(e, stages[1..], Do(e, stages[0], p));
    }
  }

  /** Every run keeps that order. */
  lemma FullRunFatals(e: Setup, payload: Draft)
    ensures FatalsInOrder(e, FullRun(e, payload))
  {
    RunFatals(e, Opening(), Start(payload));
    RunFatals(e, Pass(1), BeforeChecks(e, payload));
    RunFatals(e, Consuming(), AfterChecks(e, payload));
  }

  // ---------------------------------------------------------------- results nobody reads

  /** Everything about a run but its trace and the note of its fatal results. */
  function Course(p: Progress): Progress { p.(steps := [], fatalAt := []) }

  /** The setups differ at most in what the callbacks return where nobody reads it. */
  ghost predicate DifferUnread(e: Setup, f: Setup) {
    && e.mode == f.mode && e.stages == f.stages
    && (forall point :: ReadsResults(point) ==> e.at(point) == f.at(point))
    && (forall point, d :: !ReadsResults(point) ==> SameEffect(RoundAt(e, point, d), RoundAt(f, point, d)))
  }

  predicate SameEffect(a: Round, b: Round) { a.payload == b.payload && a.escaped == b.escaped }

  lemma DoUnread(e: Setup, f: Setup, stage: Stage, p: Progress, q: Progress)
    requires DifferUnread(e, f) && Course(p) == Course(q)
    ensures Course(Do(e, stage, p)) == Course(Do(f, stage, q))
  {
    if stage.HookAt? && p.failure == None {
      var point := stage.point;
      assert ReadsResults(point) ==> RoundAt(e, point, p.draft) == RoundAt(f, point, p.draft);
      assert SameEffect(RoundAt(e, point, p.draft), RoundAt(f, point, p.draft));
    }
  }

  lemma {:induction false} ThroughUnread(e: Setup, f: Setup, stages: seq<Stage>, p: Progress, q: Progress)
    requires DifferUnread(e, f) && Course(p) == Course(q)
    ensures Course(Through(e, stages, p)) == Course(Through(f, stages, q))
    decreases |stages|
  {
    if stages != [] {
      DoUnread(e, f, stages[0], p, q);
      ThroughUnread(e, f, stages[1..], Do(e, stages[0], p), Do(f, stages[0], q));
    }
  }

  /** Results at the points of the schema and calldata checks, the reconciliation and the simulator, fatal or
      not, decide nothing: two runs that differ in them alone check, simulate, audit and end alike. */
  lemma UnreadResultsDecideNothing(e: Setup, f: Setup, payload: Draft)
    requires DifferUnread(e, f)
    ensures Course(FullRun(e, payload)) == Course(FullRun(f, payload))
  {
    ThroughUnread(e, f, Opening(), Start(payload), Start(payload));
    ThroughUnread(e, f, Pass(1), BeforeChecks(e, payload), BeforeChecks(f, payload));
    ThroughUnread(e, f, Consuming(), AfterChecks(e, payload), AfterChecks(f, payload));
  }

  /** No exception escapes where results are not read. */
  ghost predicate StaysQuiet(e: Setup) {
    forall point, d :: !ReadsResults(point) ==> RoundAt(e, point, d).escaped == None
  }

  /** The same setup without the callbacks whose results are not read. */
  function Silenced(e: Setup): Setup { e.(at := point => if ReadsResults(point) then e.at(point) else []) }

  /** Under a contract such callbacks might as well not be there. */
  lemma SilencedRunsAlike(e: Setup, payload: Draft)
    requires e.mode != Legacy && StaysQuiet(e)
    ensures Course(FullRun(e, payload)) == Course(FullRun(Silenced(e), payload))
  {
    forall point, d | !ReadsResults(point)
      ensures SameEffect(RoundAt(e, point, d), RoundAt(Silenced(e), point, d)) {
      var ok := RequiredFields(point) <= NamesAt(point);
      PayloadUnchanged(e.mode, point, ok, Awaits(point), EntryAt(point, d), e.at(point));
      assert RoundAt(e, point, d).escaped == None;
    }
    UnreadResultsDecideNothing(e, Silenced(e), payload);
  }

  // ---------------------------------------------------------------- a rejection that ends nothing

  /** Whatever the draft, somebody offends at the point. */
  ghost predicate AlwaysOffends(e: Setup, point: HookPoint) { forall d :: SomeoneOffends(e, point, d) }

  lemma DoNotes(e: Setup, stage: Stage, p: Progress, point: HookPoint)
    requires e.mode == Enforce && AlwaysOffends(e, point) && Do(e, stage, p).failure == None
    ensures p.failure == None && p.fatalAt <= Do(e, stage, p).fatalAt
    ensures stage == HookAt(point) ==> point in Do(e, stage, p).fatalAt
  {
    if stage == HookAt(point) {
      FatalResultEndsRun(e, point, p);
      assert SomeoneOffends(e, point, p.draft);
    }
  }

  lemma {:induction false} ThroughNotes(e: Setup, stages: seq<Stage>, p: Progress, point: HookPoint)
    requires e.mode == Enforce && AlwaysOffends(e, point) && Through(e, stages, p).failure == None
    ensures p.failure == None && p.fatalAt <= Through(e, stages, p).fatalAt
    ensures HookAt(point) in stages ==> point in Through(e, stages, p).fatalAt
    decreases |stages|
  {
    if stages != [] {
      var next := Do(e, stages[0], p);
      ThroughNotes(e, stages[1..], next, point);
      DoNotes(e, stages[0], p, point);
      assert stages == [stages[0]] + stages[1..];
      if stages[0] == HookAt(point) {
        var i :| 0 <= i < |next.fatalAt| && next.fatalAt[i] == point;
        assert Through(e, stages, p).fatalAt[i] == point;
      }
    }
  }

  lemma NotedWhenApproved(e: Setup, point: HookPoint, payload: Draft)
    requires e.mode == Enforce && AlwaysOffends(e, point) && HookAt(point) in Pass(1)
    ensures FullRun(e, payload).failure == None ==> point in FullRun(e, payload).fatalAt
  {
    if FullRun(e, payload).failure == None {
      var before, after := BeforeChecks(e, payload), AfterChecks(e, payload);
      ThroughNotes(e, Consuming(), after, point);
      ThroughNotes(e, Pass(1), before, point);
      var i :| 0 <= i < |after.fatalAt| && after.fatalAt[i] == point;
      assert FullRun(e, payload).fatalAt[i] == point;
    }
  }

  /** A callback that rejects every draft. */
  const REJECTS: Callback := Callback(false, _ => Value(Decision("rejected", "", "fatal")), d => d)

  /** An enforced setup with these stages whose only callback rejects at the schema check. */
  function RejectingAtSchema(stages: Stages): Setup {
    Setup(Enforce, point => if point == LayerL2 then [REJECTS] else [], stages)
  }

  /** Whatever the checks, such a callback changes nothing: the run it rejects fails or is approved as the
      same run without any callback does, and when it is approved the fatal rejection is on record. */
  lemma RejectionAtSchemaEndsNothing(stages: Stages, payload: Draft)
    ensures FullRun(RejectingAtSchema(stages), payload).failure == FullRun(Setup(Enforce, _ => [], stages), payload).failure
    ensures FullRun(RejectingAtSchema(stages), payload).failure == None ==>
      LayerL2 in FullRun(RejectingAtSchema(stages), payload).fatalAt
  {
    var e, plain := RejectingAtSchema(stages), Setup(Enforce, _ => [], stages);
    RejectsAlways(stages);
    NotedWhenApproved(e, LayerL2, payload);
    RejectingIsUnread(stages);
    UnreadResultsDecideNothing(e, plain, payload);
  }

  /** With stages that accept everything it is approved, fatal rejections and all. */
  lemma ApprovedDespiteRejection(payload: Draft)
    ensures FullRun(RejectingAtSchema(LENIENT), payload).failure == None
    ensures LayerL2 in FullRun(RejectingAtSchema(LENIENT), payload).fatalAt
  {
    RejectionAtSchemaEndsNothing(LENIENT, payload);
    var plain := Setup(Enforce, _ => [], LENIENT);
    NothingFails(plain, Opening(), Start(payload));
    NothingFails(plain, Pass(1), BeforeChecks(plain, payload));
    NothingFails(plain, Consuming(), AfterChecks(plain, payload));
  }

  lemma {:induction false} NothingFails(e: Setup, stages: seq<Stage>, p: Progress)
    requires e.stages == LENIENT && (forall point :: e.at(point) == []) && p.failure == None
    ensures Through(e, stages, p).failure == None
    decreases |stages|
  {
    if stages != [] {
      NothingFails(e, stages[1..], Do(e, stages[0], p));
    }
  }

  lemma RejectingIsUnread(stages: Stages)
    ensures DifferUnread(RejectingAtSchema(stages), Setup(Enforce, _ => [], stages))
  {
    var e, plain := RejectingAtSchema(stages), Setup(Enforce, _ => [], stages);
    RejectsAlways(stages);
    forall point, d | !ReadsResults(point) ensures SameEffect(RoundAt(e, point, d), RoundAt(plain, point, d)) {
      var ok := RequiredFields(point) <= NamesAt(point);
      PayloadUnchanged(Enforce, point, ok, Awaits(point), EntryAt(point, d), e.at(point));
      assert RoundAt(e, point, d).escaped == None;
    }
  }

  lemma RejectsAlways(stages: Stages)
    ensures StaysQuiet(RejectingAtSchema(stages)) && AlwaysOffends(RejectingAtSchema(stages), LayerL2)
    ensures HookAt(LayerL2) in Pass(1)
  {
    var e := RejectingAtSchema(stages);
    var word := "rejected";
    assert Lower(word) == word;
    assert Pass(1)[3] == HookAt(LayerL2);
    forall d ensures SomeoneOffends(e, LayerL2, d) && RoundAt(e, LayerL2, d).escaped == None {
      assert e.at(LayerL2)[0] == REJECTS && [REJECTS][..0] == [];
      assert Rounds(Enforce, LayerL2, true, false, Some(d), [REJECTS][..0]) == Round([], Some(d), None);
      assert Offends(LayerL2, Awaits(LayerL2), EntryAt(LayerL2, d), REJECTS);
    }
    forall point, d | !ReadsResults(point) ensures RoundAt(e, point, d).escaped == None {
      if point != LayerL2 {
        assert e.at(point) == [];
      }
    }
  }

  // ---------------------------------------------------------------- the points, one by one

  /** Whose results are read, who is shown the draft, and who may be a coroutine. */
  lemma PointsByName(point: HookPoint)
    ensures ReadsResults(point) <==> point in {PreValidate, PreSimulation, PostSimulation, PostValidate, LayerL1}
    ensures ShowsDraft(point) <==>
      point in {PreValidate, PreSimulation, PostSimulation, PostValidate, LayerL1, LayerL2, LayerL3}
    ensures Awaits(point) <==> point in {PreValidate, PreSimulation, PostSimulation, PostValidate, LayerL5}
    ensures AllowsPatch(point) <==> point in {PreValidate, PreSimulation}
    ensures RequiresTrace(point) <==> point !in {OnAuditLog, RpcFallback, MulticallPack}
  {
  }

  /** An escaping exception ends the run at once, under the layer it names, and the round leaves no step. */
  lemma EscapeEndsRun(e: Setup, point: HookPoint, p: Progress)
    requires p.failure == None && RoundAt(e, point, p.draft).escaped.Some?
    ensures Hooked(e, point, p).failure == Some(Lirix(RoundAt(e, point, p.draft).escaped.value))
    ensures Hooked(e, point, p).steps == p.steps && Hooked(e, point, p).fatalAt == p.fatalAt
  {
  }
}
