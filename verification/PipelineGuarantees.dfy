/** What every run of the full pipeline guarantees about the draft under a contract. */
module PipelineGuarantees {
  import opened Common
  import opened Hooks
  import opened HookFold
  import opened Pipeline

  // ---------------------------------------------------------------- hook rounds of a run

  /** Every point is called with the arguments its contract requires. */
  lemma PointsMeetTheirContract(point: HookPoint)
    ensures RequiredFields(point) <= NamesAt(point)
  {
  }

  /** Under a contract only the two patching points can change the draft, and none in shadow mode. */
  lemma HookedKeepsDraft(e: Setup, point: HookPoint, p: Progress)
    requires e.mode == Shadow || (e.mode != Legacy && !AllowsPatch(point))
    ensures Hooked(e, point, p).draft == p.draft
  {
    PayloadUnchanged(e.mode, point, RequiredFields(point) <= NamesAt(point), Awaits(point), EntryAt(point, p.draft),
                     e.at(point));
  }

  /** A point that is not shown the draft cannot change it, in any mode. */
  lemma {:induction false} NoPayloadNoChange(m: ContractMode, point: HookPoint, ok: bool, awaits: bool, cbs: seq<Callback>)
    ensures Rounds(m, point, ok, awaits, None, cbs).payload == None
  {
    if cbs != [] {
      NoPayloadNoChange(m, point, ok, awaits, cbs[..|cbs| - 1]);
    }
  }

  lemma HookedUnshown(e: Setup, point: HookPoint, p: Progress)
    requires !ShowsDraft(point)
    ensures Hooked(e, point, p).draft == p.draft
  {
    NoPayloadNoChange(e.mode, point, RequiredFields(point) <= NamesAt(point), Awaits(point), e.at(point));
  }

  lemma {:induction false} NoEscapeRunsAll(m: ContractMode, point: HookPoint, ok: bool, awaits: bool,
                                           entry: Option<Draft>, cbs: seq<Callback>)
    requires m != Legacy && Rounds(m, point, ok, awaits, entry, cbs).escaped == None
    ensures StopsAt(awaits, entry, cbs, |cbs|)
  {
    if cbs != [] {
      var n := |cbs| - 1;
      NoEscapeRunsAll(m, point, ok, awaits, entry, cbs[..n]);
      assert !Escapes(awaits, entry, cbs[n]);
      assert forall i :: 0 <= i < n ==> cbs[..n][i] == cbs[i];
    }
  }

  // ---------------------------------------------------------------- stages that leave the draft alone

  /** A stage that cannot change the draft: no hook point, one that is not shown it, one in shadow mode, or
      one that takes no patches and is not handed the live dictionary. */
  predicate Leaves(e: Setup, stage: Stage) {
    stage.HookAt? ==>
      !ShowsDraft(stage.point) || e.mode == Shadow || (e.mode != Legacy && !AllowsPatch(stage.point))
  }

  lemma DoKeepsDraft(e: Setup, stage: Stage, p: Progress)
    requires Leaves(e, stage)
    ensures Do(e, stage, p).draft == p.draft
  {
    if stage.HookAt? {
      if !ShowsDraft(stage.point) {
        HookedUnshown(e, stage.point, p);
      } else {
        HookedKeepsDraft(e, stage.point, p);
      }
    }
  }

  /** Whatever was checked, simulated or audited between `p` and `q` was the draft `d`. */
  ghost predicate GivenOnly(p: Progress, q: Progress, d: Draft) {
    && p.seen.checks <= q.seen.checks
    && (forall i :: |p.seen.checks| <= i < |q.seen.checks| ==> q.seen.checks[i].draft == d)
    && q.seen.simulated in {p.seen.simulated, Some(d)}
    && q.seen.audited in {p.seen.audited, Some(d)}
  }

  ghost predicate AllAccept(st: Stages, stages: seq<Stage>, d: Draft) {
    forall layer, turn :: CheckBy(layer, turn) in stages ==> st.check(layer, turn, d) == None
  }

  /** The checks among these stages were made, on this draft. */
  ghost predicate AllMade(checks: seq<Check>, stages: seq<Stage>, d: Draft) {
    forall layer, turn :: CheckBy(layer, turn) in stages ==> Check(turn, layer, d) in checks
  }

  /** What a run of such stages was given, and what it must have passed to get through. */
  ghost predicate RanOn(e: Setup, stages: seq<Stage>, p: Progress, q: Progress) {
    && q.draft == p.draft && GivenOnly(p, q, p.draft)
    && (p.failure.Some? ==> q == p)
    && (q.failure == None ==>
          p.failure == None && AllAccept(e.stages, stages, p.draft) && AllMade(q.seen.checks, stages, p.draft))
    && (q.failure == None && Simulate in stages ==> q.seen.simulated == Some(p.draft))
    && (q.failure == None && Audit in stages ==> q.seen.audited == Some(p.draft))
  }

  lemma {:induction false} LeavingStages(e: Setup, stages: seq<Stage>, p: Progress)
    requires forall i :: 0 <= i < |stages| ==> Leaves(e, stages[i])
    ensures RanOn(e, stages, p, Through(e, stages, p))
    decreases |stages|
  {
    if stages != [] {
      var next, rest := Do(e, stages[0], p), stages[1..];
      DoKeepsDraft(e, stages[0], p);
      LeavingStages(e, rest, next);
      assert forall s :: s in stages <==> s == stages[0] || s in rest by {
        assert stages == [stages[0]] + rest;
      }
      if stages[0].CheckBy? && p.failure == None {
        var n := |p.seen.checks|;
        assert next.seen.checks[n] == Check(stages[0].turn, stages[0].layer, p.draft);
        assert Through(e, stages, p).seen.checks[n] == next.seen.checks[n];
      }
    }
  }

  /** Nothing else is noted as simulated or audited. */
  lemma {:induction false} NotYetConsumed(e: Setup, stages: seq<Stage>, p: Progress)
    ensures Simulate !in stages ==> Through(e, stages, p).seen.simulated == p.seen.simulated
    ensures Audit !in stages ==> Through(e, stages, p).seen.audited == p.seen.audited
    decreases |stages|
  {
    if stages != [] {
      assert stages[0] in stages && forall s :: s in stages[1..] ==> s in stages;
      NotYetConsumed(e, stages[1..], Do(e, stages[0], p));
    }
  }

  /** The turn of a check is that of the pass that made it. */
  ghost predicate AllOfTurn(checks: seq<Check>, turn: nat) {
    forall i :: 0 <= i < |checks| ==> checks[i].turn == turn
  }

  lemma {:induction false} TurnOfChecks(e: Setup, stages: seq<Stage>, p: Progress, turn: nat)
    requires AllOfTurn(p.seen.checks, turn) && forall i :: 0 <= i < |stages| && stages[i].CheckBy? ==> stages[i].turn == turn
    ensures AllOfTurn(Through(e, stages, p).seen.checks, turn)
    decreases |stages|
  {
    if stages != [] {
      TurnOfChecks(e, stages[1..], Do(e, stages[0], p), turn);
    }
  }

  // ---------------------------------------------------------------- what was validated is what ran

  /** Nothing is simulated or audited before the second pass, and all checks are the first one's. */
  lemma OpeningStages()
    ensures Simulate !in Opening() && Audit !in Opening()
    ensures forall i :: 0 <= i < |Opening()| && Opening()[i].CheckBy? ==> Opening()[i].turn == 0
  {
    var list := Opening();
    assert list == [HookAt(PreValidate),
                    CheckBy(Intent, 0), HookAt(LayerL1), CheckBy(Schema, 0), HookAt(LayerL2), CheckBy(Defi, 0),
                    HookAt(LayerL3), HookAt(PreSimulation)];
  }

  lemma BeforeChecksIsClean(e: Setup, payload: Draft) returns (p: Progress)
    ensures p == BeforeChecks(e, payload)
    ensures p.seen.simulated == None && p.seen.audited == None && TurnGiven(p.seen.checks, 1, p.draft)
  {
    var list, start := Opening(), Start(payload);
    OpeningStages();
    NotYetConsumed(e, list, start);
    TurnOfChecks(e, list, start, 0);
    p := Through(e, list, start);
    assert AllOfTurn(p.seen.checks, 0);
  }

  /** The stages after the checks, up to the audit, and the two hook points that follow it. */
  function ToAudit(): seq<Stage> { ReconcileSteps() + SimulateSteps() + [Audit] }

  function FromAudit(): seq<Stage> { [HookAt(PostSimulation), HookAt(PostValidate)] }

  lemma ToAuditStages(e: Setup)
    ensures Simulate in ToAudit() && Audit in ToAudit()
    ensures forall i :: 0 <= i < |ToAudit()| ==> Leaves(e, ToAudit()[i]) && !ToAudit()[i].CheckBy?
  {
    var list := ToAudit();
    assert list == [Reconcile, HookAt(LayerL4), Connect, Simulate, HookAt(LayerL5), Audit];
    assert list[3] == Simulate && list[5] == Audit;
  }

  /** The stages up to the audit show the draft to nobody who could change it. */
  lemma AuditSeesDraft(e: Setup, p: Progress) returns (q: Progress)
    requires p.seen.simulated == None && p.seen.audited == None
    ensures q == Through(e, ToAudit(), p)
    ensures q.seen.checks == p.seen.checks && q.draft == p.draft
    ensures q.seen.simulated in {None, Some(p.draft)} && q.seen.audited in {None, Some(p.draft)}
    ensures p.failure.Some? ==> q == p
    ensures q.seen.audited.Some? ==> q.seen.simulated.Some?
    ensures q.failure == None ==> q.seen.simulated.Some? && q.seen.audited.Some?
  {
    var list := ToAudit();
    ToAuditStages(e);
    LeavingStages(e, list, p);
    NoChecks(e, list, p);
    q := Through(e, list, p);
    AuditFollowsSimulation(e, p);
  }

  lemma AuditFollowsSimulation(e: Setup, p: Progress)
    requires p.seen.simulated == None && p.seen.audited == None
    ensures Through(e, ToAudit(), p).seen.audited.Some? ==> Through(e, ToAudit(), p).seen.simulated.Some?
  {
    var list := ReconcileSteps() + SimulateSteps();
    ThroughConcat(e, list, [Audit], p);
    var simulated := Through(e, list, p);
    LeavingStages(e, list, p);
    NotYetConsumed(e, list, p);
    assert list[3] == Simulate && Audit !in list;
    NotYetConsumed(e, [Audit], simulated);
    if simulated.failure.Some? {
      FailedStays(e, [Audit], simulated);
    }
  }

  lemma ConsumersSeeDraft(e: Setup, p: Progress) returns (q: Progress)
    requires p.seen.simulated == None && p.seen.audited == None
    ensures q == Through(e, Consuming(), p)
    ensures q.seen.checks == p.seen.checks
    ensures q.seen.simulated in {None, Some(p.draft)} && q.seen.audited in {None, Some(p.draft)}
    ensures q.seen.simulated.Some? ==> p.failure == None
    ensures q.seen.audited.Some? ==> q.seen.simulated.Some?
    ensures q.failure == None ==> q.seen.simulated.Some? && q.seen.audited.Some?
    ensures e.mode != Legacy ==> q.draft == p.draft
  {
    assert Consuming() == ToAudit() + FromAudit();
    ThroughConcat(e, ToAudit(), FromAudit(), p);
    var audited := AuditSeesDraft(e, p);
    q := Through(e, FromAudit(), audited);
    NoChecks(e, FromAudit(), audited);
    NotYetConsumed(e, FromAudit(), audited);
    if e.mode != Legacy {
      LeavingStages(e, FromAudit(), audited);
    }
    if audited.failure.Some? {
      FailedStays(e, FromAudit(), audited);
    }
  }

  lemma {:induction false} NoChecks(e: Setup, stages: seq<Stage>, p: Progress)
    requires forall i :: 0 <= i < |stages| ==> !stages[i].CheckBy?
    ensures Through(e, stages, p).seen.checks == p.seen.checks
    decreases |stages|
  {
    if stages != [] {
      NoChecks(e, stages[1..], Do(e, stages[0], p));
    }
  }

  /** A pass accepts a draft. */
  predicate PassAccepts(st: Stages, turn: nat, d: Draft) {
    st.check(Intent, turn, d) == None && st.check(Schema, turn, d) == None && st.check(Defi, turn, d) == None
  }

  lemma AcceptedByPass(st: Stages, checks: seq<Check>, turn: nat, d: Draft)
    requires AllAccept(st, Pass(turn), d) && AllMade(checks, Pass(turn), d)
    ensures PassAccepts(st, turn, d) && PassMade(checks, turn, d)
  {
    var list := Pass(turn);
    assert list[0] == CheckBy(Intent, turn) && list[2] == CheckBy(Schema, turn) && list[4] == CheckBy(Defi, turn);
  }

  /** Every check made in this pass was given this draft. */
  ghost predicate TurnGiven(checks: seq<Check>, turn: nat, d: Draft) {
    forall i :: 0 <= i < |checks| && checks[i].turn == turn ==> checks[i].draft == d
  }

  /** All three checks of a pass were made on this draft. */
  ghost predicate PassMade(checks: seq<Check>, turn: nat, d: Draft) {
    Check(turn, Intent, d) in checks && Check(turn, Schema, d) in checks && Check(turn, Defi, d) in checks
  }

  /** Under a contract all three checks of a pass are given one draft, and leave it. */
  lemma PassKeepsDraft(e: Setup, turn: nat, p: Progress) returns (q: Progress)
    requires e.mode != Legacy
    ensures q == Through(e, Pass(turn), p)
    ensures q.draft == p.draft && q.seen.simulated == p.seen.simulated && q.seen.audited == p.seen.audited
    ensures TurnGiven(p.seen.checks, turn, p.draft) ==> TurnGiven(q.seen.checks, turn, p.draft)
    ensures q.failure == None ==> PassAccepts(e.stages, turn, p.draft) && PassMade(q.seen.checks, turn, p.draft)
  {
    var list := Pass(turn);
    LeavingStages(e, list, p);
    NotYetConsumed(e, list, p);
    q := Through(e, list, p);
    if q.failure == None {
      AcceptedByPass(e.stages, q.seen.checks, turn, p.draft);
    }
    GivenExtends(p, q, turn);
  }

  lemma GivenExtends(p: Progress, q: Progress, turn: nat)
    requires GivenOnly(p, q, p.draft)
    ensures TurnGiven(p.seen.checks, turn, p.draft) ==> TurnGiven(q.seen.checks, turn, p.draft)
  {
  }

  /** What was checked last, simulated and audited is one draft, and it was accepted before it ran. */
  ghost predicate OneDraft(st: Stages, p: Progress) {
    && TurnGiven(p.seen.checks, 1, p.draft)
    && p.seen.simulated in {None, Some(p.draft)} && p.seen.audited in {None, p.seen.simulated}
    && (p.seen.simulated.Some? ==> PassMade(p.seen.checks, 1, p.draft) && PassAccepts(st, 1, p.draft))
    && (p.failure == None ==> p.seen.simulated.Some? && p.seen.audited.Some?)
  }

  /** Under a contract the three checks of the second pass, the simulator and the audit are all given one
      draft, in runs that are approved and in runs that fail, although a hook round on the live draft
      stands after each check; and no draft is simulated that the second pass has not accepted. */
  lemma ValidatedIsSimulated(e: Setup, payload: Draft) returns (p: Progress)
    requires e.mode != Legacy
    ensures p == FullRun(e, payload) && OneDraft(e.stages, p)
    ensures p.draft == BeforeChecks(e, payload).draft
  {
    var before := BeforeChecksIsClean(e, payload);
    var after := PassKeepsDraft(e, 1, before);
    p := ConsumersSeeDraft(e, after);
  }

  /** A patching hook point that lets the run go on leaves the fold of the contributions. */
  lemma HookedFolds(e: Setup, point: HookPoint, p: Progress)
    requires e.mode != Legacy && AllowsPatch(point) && Hooked(e, point, p).failure == None
    ensures p.failure == None
    ensures Hooked(e, point, p).draft == Fold(p.draft, Contributions(e.mode, point, true, true, Some(p.draft), e.at(point)))
  {
    var cbs := e.at(point);
    NoEscapeRunsAll(e.mode, point, true, true, Some(p.draft), cbs);
    PayloadIsFold(e.mode, point, true, true, Some(p.draft), cbs, |cbs|);
    assert cbs[..|cbs|] == cbs;
  }

  /** What stands before the second pass: the two patching points, and the first pass between them. */
  lemma OpeningParts(e: Setup, payload: Draft)
    ensures BeforeChecks(e, payload) ==
      Do(e, HookAt(PreSimulation), Through(e, Pass(0), Do(e, HookAt(PreValidate), Start(payload))))
  {
    var start := Start(payload);
    ThroughConcat(e, [HookAt(PreValidate)], Pass(0), start);
    ThroughConcat(e, [HookAt(PreValidate)] + Pass(0), [HookAt(PreSimulation)], start);
    ThroughOne(e, HookAt(PreValidate), start);
    ThroughOne(e, HookAt(PreSimulation), Through(e, Pass(0), Do(e, HookAt(PreValidate), start)));
  }

  /** Under a contract, the draft that ran is the payload with the accepted patches of the two patching
      hook points folded in, and nothing else, whatever the layer hooks return. */
  lemma ApprovedDraftIsFold(e: Setup, payload: Draft)
    requires e.mode != Legacy
    ensures
      var first := Fold(payload, Contributions(e.mode, PreValidate, true, true, Some(payload), e.at(PreValidate)));
      var second := Fold(first, Contributions(e.mode, PreSimulation, true, true, Some(first), e.at(PreSimulation)));
      BeforeChecks(e, payload).failure == None ==> FullRun(e, payload).draft == second
  {
    var opening := Do(e, HookAt(PreValidate), Start(payload));
    var first := PassKeepsDraft(e, 0, opening);
    OpeningParts(e, payload);
    if BeforeChecks(e, payload).failure == None {
      HookedFolds(e, PreSimulation, first);
      HookedFolds(e, PreValidate, Start(payload));
    }
    var p := ValidatedIsSimulated(e, payload);
  }

  /** In shadow mode it is the payload itself. */
  lemma ShadowRunsThePayload(e: Setup, payload: Draft)
    requires e.mode == Shadow
    ensures FullRun(e, payload).draft == payload
  {
    LeavingStages(e, Opening(), Start(payload));
    var p := ValidatedIsSimulated(e, payload);
  }
}
