/** How a run of the pipeline ends, stage by stage, and what it logs. */
module RunVerdicts {
  import opened Common
  import opened Statuses
  import opened Hooks
  import opened Pipeline
  import opened PipelineGuarantees

  // ---------------------------------------------------------------- what the later stages are given

  /** Hook points that are not shown the draft, one after the other. */
  lemma {:induction false} UnshownRounds(e: Setup, points: seq<HookPoint>, p: Progress)
    requires forall i :: 0 <= i < |points| ==> !ShowsDraft(points[i])
    ensures var q := Rounded(e, points, p);
      && q.draft == p.draft && q.seen == p.seen && q.height == p.height && q.simulation == p.simulation
      && (p.failure.Some? ==> q == p)
    decreases |points|
  {
    if points != [] {
      HookedUnshown(e, points[0], p);
      UnshownRounds(e, points[1..], Do(e, HookAt(points[0]), p));
    }
  }

  function Rounded(e: Setup, points: seq<HookPoint>, p: Progress): Progress
    decreases |points|
  {
    if points == [] then p else Rounded(e, points[1..], Do(e, HookAt(points[0]), p))
  }

  lemma {:induction false} RoundsKeep(e: Setup, points: seq<HookPoint>, p: Progress)
    ensures var q := Rounded(e, points, p);
      && q.seen == p.seen && q.height == p.height && q.simulation == p.simulation && (p.failure.Some? ==> q == p)
    decreases |points|
  {
    if points != [] {
      RoundsKeep(e, points[1..], Do(e, HookAt(points[0]), p));
    }
  }

  /** The stages after the checks: five stages with their hook rounds between them. */
  lemma ConsumingParts(e: Setup, p: Progress) returns (a: Progress, b: Progress, c: Progress, d: Progress, q: Progress)
    ensures a == Rounded(e, [LayerL4], Do(e, Reconcile, p))
    ensures b == Do(e, Connect, a)
    ensures c == Rounded(e, [LayerL5], Do(e, Simulate, b))
    ensures d == Do(e, Audit, c)
    ensures q == Rounded(e, [PostSimulation, PostValidate], d) && q == Through(e, Consuming(), p)
  {
    a := Do(e, HookAt(LayerL4), Do(e, Reconcile, p));
    b := Do(e, Connect, a);
    c := Do(e, HookAt(LayerL5), Do(e, Simulate, b));
    d := Do(e, Audit, c);
    q := Do(e, HookAt(PostValidate), Do(e, HookAt(PostSimulation), d));
    ThroughSix(e, Reconcile, HookAt(LayerL4), Connect, Simulate, HookAt(LayerL5), Audit, p);
    ThroughTwo(e, HookAt(PostSimulation), HookAt(PostValidate), d);
    assert Consuming() == ToAudit() + FromAudit();
    assert ToAudit() == [Reconcile, HookAt(LayerL4), Connect, Simulate, HookAt(LayerL5), Audit];
    ThroughConcat(e, ToAudit(), FromAudit(), p);
    RoundedOne(e, LayerL4, Do(e, Reconcile, p));
    RoundedOne(e, LayerL5, Do(e, Simulate, b));
    RoundedTwo(e, PostSimulation, PostValidate, d);
  }

  lemma RoundedOne(e: Setup, point: HookPoint, p: Progress)
    ensures Rounded(e, [point], p) == Do(e, HookAt(point), p)
  {
    assert [point][1..] == [];
  }

  lemma RoundedTwo(e: Setup, first: HookPoint, second: HookPoint, p: Progress)
    ensures Rounded(e, [first, second], p) == Do(e, HookAt(second), Do(e, HookAt(first), p))
  {
    assert [first, second][1..] == [second];
    RoundedOne(e, second, Do(e, HookAt(first), p));
  }

  lemma ThroughTwo(e: Setup, s1: Stage, s2: Stage, p: Progress)
    ensures Through(e, [s1, s2], p) == Do(e, s2, Do(e, s1, p))
  {
    assert [s1, s2][1..] == [s2];
    ThroughOne(e, s2, Do(e, s1, p));
  }

  lemma ThroughSix(e: Setup, s1: Stage, s2: Stage, s3: Stage, s4: Stage, s5: Stage, s6: Stage, p: Progress)
    ensures Through(e, [s1, s2, s3, s4, s5, s6], p) == Do(e, s6, Do(e, s5, Do(e, s4, Do(e, s3, Do(e, s2, Do(e, s1, p))))))
  {
    var list := [s1, s2, s3, s4, s5, s6];
    assert list == [s1, s2] + ([s3, s4] + [s5, s6]);
    ThroughConcat(e, [s1, s2], [s3, s4] + [s5, s6], p);
    var two := Through(e, [s1, s2], p);
    ThroughTwo(e, s1, s2, p);
    ThroughConcat(e, [s3, s4], [s5, s6], two);
    ThroughTwo(e, s3, s4, two);
    ThroughTwo(e, s5, s6, Through(e, [s3, s4], two));
  }

  // ---------------------------------------------------------------- verdicts

  /** `h` is the reconciled height, and simulating the draft at it gives `out`. */
  predicate Audited(st: Stages, d: Draft, h: int, out: Json) {
    st.reconcile == Ok(h) && st.connect == None && st.simulate(d, h) == Ok(out)
  }

  /** What is known of a run that has been through the stages after the checks. */
  ghost predicate StagesCount(st: Stages, q: Progress) {
    // An approved run was reconciled, connected, simulated and audited, and every verdict was favourable.
    && (q.failure == None ==> q.seen.audited.Some? && q.seen.simulated.Some?)
    // Whatever was simulated was simulated at the reconciled height; a simulation error ends the run.
    && (q.seen.simulated.Some? ==>
          && st.reconcile.Ok? && st.connect == None
          && var result := st.simulate(q.seen.simulated.value, st.reconcile.value);
             result.Err? ==> q.failure == Some(result.error) && q.seen.audited == None)
    // Whatever was audited was audited with that result; what the audit says against it ends the run.
    && (q.seen.audited.Some? ==>
          && q.seen.simulated == q.seen.audited && st.reconcile.Ok? && st.connect == None
          && var result := st.simulate(q.seen.audited.value, st.reconcile.value);
             && result.Ok?
             && (st.audit(q.seen.audited.value, result.value).Some? ==>
                   q.failure == st.audit(q.seen.audited.value, result.value)))
    && (q.failure == None ==>
          st.audit(q.seen.audited.value, st.simulate(q.seen.audited.value, st.reconcile.value).value) == None)
  }

  lemma UpToSimulation(e: Setup, p: Progress, a: Progress, b: Progress)
    requires p.seen.simulated == None && p.seen.audited == None
    requires a == Rounded(e, [LayerL4], Do(e, Reconcile, p)) && b == Do(e, Connect, a)
    ensures b.draft == p.draft && b.seen == p.seen
    ensures b.failure == None ==> e.stages.reconcile.Ok? && b.height == e.stages.reconcile.value && e.stages.connect == None
  {
    UnshownRounds(e, [LayerL4], Do(e, Reconcile, p));
  }

  lemma FromSimulation(e: Setup, b: Progress, c: Progress, d: Progress)
    requires b.seen.simulated == None && b.seen.audited == None
    requires b.failure == None ==> e.stages.reconcile.Ok? && b.height == e.stages.reconcile.value && e.stages.connect == None
    requires c == Rounded(e, [LayerL5], Do(e, Simulate, b)) && d == Do(e, Audit, c)
    ensures StagesCount(e.stages, d)
  {
    UnshownRounds(e, [LayerL5], Do(e, Simulate, b));
  }

  lemma ConsumingVerdict(e: Setup, p: Progress) returns (q: Progress)
    requires p.seen.simulated == None && p.seen.audited == None
    ensures q == Through(e, Consuming(), p) && StagesCount(e.stages, q)
  {
    var a, b, c, d;
    a, b, c, d, q := ConsumingParts(e, p);
    UpToSimulation(e, p, a, b);
    FromSimulation(e, b, c, d);
    RoundsKeep(e, [PostSimulation, PostValidate], d);
  }

  /** Every run, whatever the setup and the mode: approval means a reconciled height, a client, a simulation of
      the draft at that height and a favourable audit of it with that result; a simulation error and an
      unfavourable audit are what the run fails with. */
  lemma StagesDecide(e: Setup, payload: Draft) returns (p: Progress)
    ensures p == FullRun(e, payload) && StagesCount(e.stages, p)
  {
    var before := BeforeChecksIsClean(e, payload);
    var after := PassIsClean(e, before);
    p := ConsumingVerdict(e, after);
  }

  lemma PassIsClean(e: Setup, p: Progress) returns (q: Progress)
    requires p.seen.simulated == None && p.seen.audited == None
    ensures q == Through(e, Pass(1), p) && q.seen.simulated == None && q.seen.audited == None
  {
    NotYetConsumed(e, Pass(1), p);
    q := Through(e, Pass(1), p);
  }

  lemma ApprovedRunsWereAudited(e: Setup, payload: Draft)
    ensures FullRun(e, payload).failure == None ==>
      exists d, h, out :: Audited(e.stages, d, h, out) && e.stages.audit(d, out) == None
                          && FullRun(e, payload).seen.simulated == FullRun(e, payload).seen.audited == Some(d)
  {
    var p := StagesDecide(e, payload);
    if p.failure == None {
      var d, h := p.seen.audited.value, e.stages.reconcile.value;
      assert Audited(e.stages, d, h, e.stages.simulate(d, h).value);
    }
  }

  lemma RefusedAuditEndsRun(e: Setup, payload: Draft, d: Draft, h: int, out: Json)
    requires Audited(e.stages, d, h, out)
    ensures FullRun(e, payload).seen.audited == Some(d) && e.stages.audit(d, out).Some? ==>
      FullRun(e, payload).failure == e.stages.audit(d, out)
  {
    var p := StagesDecide(e, payload);
  }

  // ---------------------------------------------------------------- runs without callbacks

  /** The first failure of a list of verdicts. */
  function FirstOf(verdicts: seq<Option<Failure>>): Option<Failure> {
    if verdicts == [] then None else if verdicts[0].Some? then verdicts[0] else FirstOf(verdicts[1..])
  }

  function FailureOf<T>(r: Result<T, Failure>): Option<Failure> { match r case Ok(_) => None case Err(f) => Some(f) }

  function SimulationFailure(st: Stages, d: Draft): Option<Failure> {
    if st.reconcile.Ok? then FailureOf(st.simulate(d, st.reconcile.value)) else None
  }

  function AuditFailure(st: Stages, d: Draft): Option<Failure> {
    if st.reconcile.Ok? && st.simulate(d, st.reconcile.value).Ok?
    then st.audit(d, st.simulate(d, st.reconcile.value).value) else None
  }

  function PassVerdicts(st: Stages, turn: nat, d: Draft): seq<Option<Failure>> {
    [st.check(Intent, turn, d), st.check(Schema, turn, d), st.check(Defi, turn, d)]
  }

  function LaterVerdicts(st: Stages, d: Draft): seq<Option<Failure>> {
    [FailureOf(st.reconcile), st.connect, SimulationFailure(st, d), AuditFailure(st, d)]
  }

  /** The ten verdicts on a draft, in the order in which they are asked for. */
  function Verdicts(st: Stages, d: Draft): seq<Option<Failure>> {
    PassVerdicts(st, 0, d) + PassVerdicts(st, 1, d) + LaterVerdicts(st, d)
  }

  ghost predicate NoCallbacks(e: Setup) { forall point :: e.at(point) == [] }

  /** A hook round without callbacks leaves one step of trace. */
  lemma EmptyRound(e: Setup, point: HookPoint, p: Progress)
    requires NoCallbacks(e)
    ensures Do(e, HookAt(point), p) == if p.failure.Some? then p else p.(steps := p.steps + ["info"])
  {
    assert TraceTokens([]) == [];
  }

  lemma PassVerdict(e: Setup, turn: nat, p: Progress) returns (q: Progress)
    requires NoCallbacks(e)
    ensures q == Through(e, Pass(turn), p)
    ensures q.draft == p.draft
    ensures q.failure == if p.failure.Some? then p.failure else FirstOf(PassVerdicts(e.stages, turn, p.draft))
  {
    var a := Do(e, HookAt(LayerL1), Do(e, CheckBy(Intent, turn), p));
    var b := Do(e, HookAt(LayerL2), Do(e, CheckBy(Schema, turn), a));
    q := Do(e, HookAt(LayerL3), Do(e, CheckBy(Defi, turn), b));
    assert Pass(turn) == [CheckBy(Intent, turn), HookAt(LayerL1), CheckBy(Schema, turn), HookAt(LayerL2),
                          CheckBy(Defi, turn), HookAt(LayerL3)];
    ThroughSix(e, CheckBy(Intent, turn), HookAt(LayerL1), CheckBy(Schema, turn), HookAt(LayerL2),
               CheckBy(Defi, turn), HookAt(LayerL3), p);
    EmptyRound(e, LayerL1, Do(e, CheckBy(Intent, turn), p));
    EmptyRound(e, LayerL2, Do(e, CheckBy(Schema, turn), a));
    EmptyRound(e, LayerL3, Do(e, CheckBy(Defi, turn), b));
    FirstOfThree(e.stages.check(Intent, turn, p.draft), e.stages.check(Schema, turn, p.draft),
                 e.stages.check(Defi, turn, p.draft));
  }

  lemma FirstOfThree(a: Option<Failure>, b: Option<Failure>, c: Option<Failure>)
    ensures FirstOf([a, b, c]) == if a.Some? then a else if b.Some? then b else c
  {
    assert [a, b, c][1..] == [b, c] && [b, c][1..] == [c];
    assert FirstOf([c]) == c;
    assert FirstOf([b, c]) == if b.Some? then b else c;
  }

  lemma FirstOfFour(a: Option<Failure>, b: Option<Failure>, c: Option<Failure>, d: Option<Failure>)
    ensures FirstOf([a, b, c, d]) == if a.Some? then a else if b.Some? then b else if c.Some? then c else d
  {
    assert [a, b, c, d][1..] == [b, c, d];
    FirstOfThree(b, c, d);
  }

  lemma ConnectedPlainly(e: Setup, p: Progress, a: Progress, b: Progress)
    requires NoCallbacks(e)
    requires a == Rounded(e, [LayerL4], Do(e, Reconcile, p)) && b == Do(e, Connect, a)
    ensures b.draft == p.draft
    ensures b.failure == None ==> e.stages.reconcile.Ok? && b.height == e.stages.reconcile.value
    ensures b.failure ==
      if p.failure.Some? then p.failure
      else if e.stages.reconcile.Err? then FailureOf(e.stages.reconcile) else e.stages.connect
  {
    RoundedOne(e, LayerL4, Do(e, Reconcile, p));
    EmptyRound(e, LayerL4, Do(e, Reconcile, p));
  }

  lemma AuditedPlainly(e: Setup, b: Progress, c: Progress, d: Progress)
    requires NoCallbacks(e) && (b.failure == None ==> e.stages.reconcile == Ok(b.height))
    requires c == Rounded(e, [LayerL5], Do(e, Simulate, b)) && d == Do(e, Audit, c)
    ensures d.failure ==
      if b.failure.Some? then b.failure
      else if SimulationFailure(e.stages, b.draft).Some? then SimulationFailure(e.stages, b.draft)
      else AuditFailure(e.stages, b.draft)
  {
    RoundedOne(e, LayerL5, Do(e, Simulate, b));
    EmptyRound(e, LayerL5, Do(e, Simulate, b));
  }

  lemma ConsumingFailure(e: Setup, p: Progress) returns (q: Progress)
    requires NoCallbacks(e)
    ensures q == Through(e, Consuming(), p)
    ensures q.failure == if p.failure.Some? then p.failure else FirstOf(LaterVerdicts(e.stages, p.draft))
  {
    var a, b, c, d;
    a, b, c, d, q := ConsumingParts(e, p);
    ConnectedPlainly(e, p, a, b);
    AuditedPlainly(e, b, c, d);
    RoundedTwo(e, PostSimulation, PostValidate, d);
    EmptyRound(e, PostSimulation, d);
    EmptyRound(e, PostValidate, Do(e, HookAt(PostSimulation), d));
    FirstOfFour(FailureOf(e.stages.reconcile), e.stages.connect, SimulationFailure(e.stages, p.draft),
                AuditFailure(e.stages, p.draft));
  }

  /** A run without callbacks fails with the first unfavourable verdict, and is approved if there is none. */
  lemma FirstVerdictDecides(e: Setup, payload: Draft) returns (p: Progress)
    requires NoCallbacks(e)
    ensures p == FullRun(e, payload) && p.failure == FirstOf(Verdicts(e.stages, payload))
  {
    var before := OpeningFailure(e, payload);
    var after := PassVerdict(e, 1, before);
    p := ConsumingFailure(e, after);
    FirstOfConcat(PassVerdicts(e.stages, 0, payload), PassVerdicts(e.stages, 1, payload));
    FirstOfConcat(PassVerdicts(e.stages, 0, payload) + PassVerdicts(e.stages, 1, payload), LaterVerdicts(e.stages, payload));
  }

  lemma OpeningFailure(e: Setup, payload: Draft) returns (p: Progress)
    requires NoCallbacks(e)
    ensures p == BeforeChecks(e, payload) && p.draft == payload
    ensures p.failure == FirstOf(PassVerdicts(e.stages, 0, payload))
  {
    var start := Start(payload);
    OpeningParts(e, payload);
    EmptyRound(e, PreValidate, start);
    var first := PassVerdict(e, 0, Do(e, HookAt(PreValidate), start));
    EmptyRound(e, PreSimulation, first);
    p := Do(e, HookAt(PreSimulation), first);
  }

  lemma {:induction false} FirstOfConcat(a: seq<Option<Failure>>, b: seq<Option<Failure>>)
    ensures FirstOf(a + b) == if FirstOf(a).Some? then FirstOf(a) else FirstOf(b)
    decreases |a|
  {
    if a == [] {
      assert a + b == b;
    } else {
      assert (a + b)[1..] == a[1..] + b;
      FirstOfConcat(a[1..], b);
    }
  }

  // ---------------------------------------------------------------- what a run logs

  /** The step a hook round leaves: "info" without callbacks, "degraded" if any of them went wrong, else "ok". */
  lemma RoundLogs(results: seq<HookResult>)
    ensures Name(Aggregate(TraceTokens(results))) ==
      if results == [] then "info" else if exists i :: 0 <= i < |results| && !results[i].ok then "degraded" else "ok"
  {
    var tokens := TraceTokens(results);
    AggregateByTokens(tokens);
    TaxonomyIsStripped("ok");
    TaxonomyIsStripped("degraded");
    forall i | 0 <= i < |tokens| ensures Strip(tokens[i]) == if results[i].ok then "ok" else "degraded" {
      TaxonomyIsStripped(tokens[i]);
    }
    if results != [] {
      assert Strip(tokens[0]) in {"ok", "degraded"};
    }
  }

  /** Every stage but a check, the reconciliation and the simulation logs one step. */
  function Logging(stages: seq<Stage>): nat {
    if stages == [] then 0
    else (if stages[0].HookAt? || stages[0] == Connect || stages[0] == Audit then 1 else 0) + Logging(stages[1..])
  }

  lemma {:induction false} StepsLogged(e: Setup, stages: seq<Stage>, p: Progress)
    requires Through(e, stages, p).failure == None
    ensures p.failure == None && |Through(e, stages, p).steps| == |p.steps| + Logging(stages)
    ensures p.steps <= Through(e, stages, p).steps
    decreases |stages|
  {
    if stages != [] {
      StepsLogged(e, stages[1..], Do(e, stages[0], p));
    }
  }

  /** An approved run has logged fourteen steps: twelve hook rounds, the reconciliation and the simulation. */
  lemma ApprovedRunLogs(e: Setup, payload: Draft)
    ensures FullRun(e, payload).failure == None ==> |FullRun(e, payload).steps| == 14
  {
    if FullRun(e, payload).failure == None {
      StepsLogged(e, Consuming(), AfterChecks(e, payload));
      StepsLogged(e, Pass(1), BeforeChecks(e, payload));
      StepsLogged(e, Opening(), Start(payload));
      LoggingCounts();
    }
  }

  lemma LoggingCounts()
    ensures Logging(Opening()) == 5 && Logging(Pass(1)) == 3 && Logging(Consuming()) == 6
  {
    LoggingConcat([HookAt(PreValidate)], Pass(0));
    LoggingConcat([HookAt(PreValidate)] + Pass(0), [HookAt(PreSimulation)]);
    forall turn: nat ensures Logging(Pass(turn)) == 3 {
      LoggingConcat(LayerSteps(Intent, turn), LayerSteps(Schema, turn));
      LoggingConcat(LayerSteps(Intent, turn) + LayerSteps(Schema, turn), LayerSteps(Defi, turn));
      forall layer ensures Logging(LayerSteps(layer, turn)) == 1 {
        LoggingTwo(CheckBy(layer, turn), HookAt(PointOf(layer)));
      }
    }
    LoggingConcat(ReconcileSteps(), SimulateSteps());
    LoggingConcat(ReconcileSteps() + SimulateSteps(), AuditSteps());
    LoggingTwo(Simulate, HookAt(LayerL5));
    LoggingConcat([Reconcile], [HookAt(LayerL4), Connect]);
    LoggingTwo(HookAt(LayerL4), Connect);
    LoggingConcat([Audit], [HookAt(PostSimulation), HookAt(PostValidate)]);
    LoggingTwo(HookAt(PostSimulation), HookAt(PostValidate));
    assert ReconcileSteps() == [Reconcile] + [HookAt(LayerL4), Connect];
    assert AuditSteps() == [Audit] + [HookAt(PostSimulation), HookAt(PostValidate)];
  }

  lemma LoggingTwo(a: Stage, b: Stage)
    ensures Logging([a, b]) == Logging([a]) + Logging([b])
  {
    assert [a, b] == [a] + [b];
    LoggingConcat([a], [b]);
  }

  lemma {:induction false} LoggingConcat(a: seq<Stage>, b: seq<Stage>)
    ensures Logging(a + b) == Logging(a) + Logging(b)
  {
    if a == [] {
      assert a + b == b;
    } else {
      assert (a + b)[1..] == a[1..] + b;
      LoggingConcat(a[1..], b);
    }
  }
}
