/** Legacy mode, where the callbacks after a check are handed the live draft. */
module LegacyGuarantees {
  import opened Common
  import opened Hooks
  import opened HookFold
  import opened Pipeline
  import opened PipelineGuarantees

  /** What the callbacks of a check make of a draft they are handed live. */
  function LeftBy(e: Setup, layer: Layer, d: Draft): Draft { Left(false, d, e.at(PointOf(layer))) }

  /** No callback of a check escapes, given the draft. */
  predicate Lets(e: Setup, layer: Layer, d: Draft) { RoundAt(e, PointOf(layer), d).escaped == None }

  /** In legacy mode no result is fatal: a round ends the run only by an escaping exception. */
  lemma LegacyHooked(e: Setup, layer: Layer, p: Progress)
    requires e.mode == Legacy && p.failure == None
    ensures var q := Hooked(e, PointOf(layer), p);
      && (q.failure == None <==> Lets(e, layer, p.draft)) && q.seen == p.seen
      && (q.failure == None ==> q.draft == LeftBy(e, layer, p.draft))
  {
    var point := PointOf(layer);
    OnlyEnforcementBlocks(Legacy, point, true, false, Some(p.draft), e.at(point));
    if Lets(e, layer, p.draft) {
      LegacyRoundLeaves(point, true, false, p.draft, e.at(point));
    }
  }

  /** One check of a legacy pass and its hook round: the check is given the live draft, and the round
      leaves what its callbacks write. */
  lemma LegacyLayer(e: Setup, layer: Layer, turn: nat, p: Progress) returns (q: Progress)
    requires e.mode == Legacy
    ensures q == Through(e, LayerSteps(layer, turn), p)
    ensures q.failure == None <==>
      p.failure == None && e.stages.check(layer, turn, p.draft) == None && Lets(e, layer, p.draft)
    ensures q.failure == None ==>
      q.seen == p.seen.(checks := p.seen.checks + [Check(turn, layer, p.draft)]) && q.draft == LeftBy(e, layer, p.draft)
  {
    var checked := Do(e, CheckBy(layer, turn), p);
    q := Do(e, HookAt(PointOf(layer)), checked);
    var list := LayerSteps(layer, turn);
    assert list[1..] == [HookAt(PointOf(layer))];
    ThroughOne(e, HookAt(PointOf(layer)), checked);
    if checked.failure == None {
      LegacyHooked(e, layer, checked);
    }
  }

  /** What the three checks of a legacy pass that starts from `d` are given. */
  function Given(e: Setup, d: Draft): (Draft, Draft, Draft) {
    var d2 := LeftBy(e, Intent, d);
    (d, d2, LeftBy(e, Schema, d2))
  }

  function LeftByPass(e: Setup, d: Draft): Draft { LeftBy(e, Defi, Given(e, d).2) }

  predicate LetsPass(e: Setup, d: Draft) {
    var (d1, d2, d3) := Given(e, d);
    Lets(e, Intent, d1) && Lets(e, Schema, d2) && Lets(e, Defi, d3)
  }

  predicate Accepts(e: Setup, turn: nat, d: Draft) {
    var (d1, d2, d3) := Given(e, d);
    && e.stages.check(Intent, turn, d1) == None && e.stages.check(Schema, turn, d2) == None
    && e.stages.check(Defi, turn, d3) == None
  }

  function ChecksOf(e: Setup, turn: nat, d: Draft): seq<Check> {
    var (d1, d2, d3) := Given(e, d);
    [Check(turn, Intent, d1), Check(turn, Schema, d2), Check(turn, Defi, d3)]
  }

  lemma PassParts(e: Setup, turn: nat, p: Progress)
    ensures Through(e, Pass(turn), p) ==
      Through(e, LayerSteps(Defi, turn), Through(e, LayerSteps(Schema, turn), Through(e, LayerSteps(Intent, turn), p)))
  {
    ThroughConcat(e, LayerSteps(Intent, turn), LayerSteps(Schema, turn), p);
    ThroughConcat(e, LayerSteps(Intent, turn) + LayerSteps(Schema, turn), LayerSteps(Defi, turn), p);
  }

  /** In legacy mode each check is given what the callbacks of the one before it left. */
  lemma LegacyPass(e: Setup, turn: nat, p: Progress) returns (q: Progress)
    requires e.mode == Legacy
    ensures q == Through(e, Pass(turn), p)
    ensures q.failure == None <==> p.failure == None && LetsPass(e, p.draft) && Accepts(e, turn, p.draft)
    ensures q.failure == None ==> q.draft == LeftByPass(e, p.draft)
    ensures q.failure == None ==> q.seen == p.seen.(checks := p.seen.checks + ChecksOf(e, turn, p.draft))
  {
    PassParts(e, turn, p);
    var a := LegacyLayer(e, Intent, turn, p);
    var b := LegacyLayer(e, Schema, turn, a);
    q := LegacyLayer(e, Defi, turn, b);
  }

  /** The six checks of a legacy run, and what it was given to simulate. */
  ghost predicate Chained(e: Setup, p: Progress, first: Draft, second: Draft) {
    && p.seen.checks == ChecksOf(e, 0, first) + ChecksOf(e, 1, second)
    && LetsPass(e, first) && Accepts(e, 0, first) && LetsPass(e, second) && Accepts(e, 1, second)
    && p.seen.simulated == Some(LeftByPass(e, second)) && p.seen.audited in {None, p.seen.simulated}
  }

  /** Up to the second pass: the first one ran from some draft and noted its checks. */
  lemma LegacyOpening(e: Setup, payload: Draft) returns (start: Draft, before: Progress)
    requires e.mode == Legacy
    ensures before == BeforeChecks(e, payload)
    ensures before.failure == None ==>
      before.seen == Seen(ChecksOf(e, 0, start), None, None) && LetsPass(e, start) && Accepts(e, 0, start)
  {
    var opening := Do(e, HookAt(PreValidate), Start(payload));
    var first := LegacyPass(e, 0, opening);
    before := Do(e, HookAt(PreSimulation), first);
    start := opening.draft;
    OpeningParts(e, payload);
  }

  /** A legacy run that reaches the simulator made all six checks; each of the second pass was given what
      the callbacks of the check before it left, and the simulator what those of the last one left. */
  lemma LegacyChain(e: Setup, payload: Draft) returns (p: Progress, first: Draft, second: Draft)
    requires e.mode == Legacy
    ensures p == FullRun(e, payload) && second == BeforeChecks(e, payload).draft
    ensures p.seen.simulated.Some? ==> Chained(e, p, first, second)
    ensures p.seen.audited.Some? ==> p.seen.simulated.Some?
  {
    var before;
    first, before := LegacyOpening(e, payload);
    second := before.draft;
    var clean := BeforeChecksIsClean(e, payload);
    var after := LegacyPass(e, 1, before);
    NotYetConsumed(e, Pass(1), before);
    p := ConsumersSeeDraft(e, after);
  }

  // ---------------------------------------------------------------- reaching the simulator

  lemma {:induction false} SimulatedStays(e: Setup, stages: seq<Stage>, p: Progress)
    requires p.seen.simulated.Some?
    ensures Through(e, stages, p).seen.simulated.Some?
    decreases |stages|
  {
    if stages != [] {
      SimulatedStays(e, stages[1..], Do(e, stages[0], p));
    }
  }

  lemma SimulatesNext(e: Setup, rest: seq<Stage>, p: Progress)
    requires p.seen.simulated == None
    ensures Through(e, [Simulate] + rest, p).seen.simulated.Some? <==> p.failure == None
  {
    ThroughConcat(e, [Simulate], rest, p);
    ThroughOne(e, Simulate, p);
    if p.failure == None {
      SimulatedStays(e, rest, Do(e, Simulate, p));
    } else {
      FailedStays(e, rest, p);
    }
  }

  /** The simulator is reached exactly when the reconciliation, its hook round and the client come through. */
  lemma SimulatesExactlyWhen(e: Setup, p: Progress)
    requires p.seen.simulated == None
    ensures Through(e, Consuming(), p).seen.simulated.Some? <==> Through(e, ReconcileSteps(), p).failure == None
  {
    var list, rest := ReconcileSteps(), [HookAt(LayerL5)] + AuditSteps();
    assert Consuming() == list + ([Simulate] + rest);
    ThroughConcat(e, list, [Simulate] + rest, p);
    NotYetConsumed(e, list, p);
    SimulatesNext(e, rest, Through(e, list, p));
  }

  /** Stages that can get a run to its simulator. */
  predicate Connects(st: Stages) { st.reconcile.Ok? && st.connect == None }

  lemma ReconcileOutcome(e: Setup, p: Progress)
    ensures var q := Through(e, ReconcileSteps(), p);
      && (q.failure == None ==> p.failure == None && Connects(e.stages))
      && (p.failure == None && Connects(e.stages) && e.at(LayerL4) == [] ==> q.failure == None)
  {
    var list := ReconcileSteps();
    var a := Do(e, Reconcile, p);
    var b := Do(e, HookAt(LayerL4), a);
    assert list[1..] == [HookAt(LayerL4), Connect] && list[1..][1..] == [Connect];
    ThroughOne(e, Connect, b);
    if e.at(LayerL4) == [] {
      NoCallbacks(e, LayerL4, a);
    }
  }

  lemma NoCallbacks(e: Setup, point: HookPoint, p: Progress)
    requires e.at(point) == []
    ensures Do(e, HookAt(point), p).failure == p.failure && Do(e, HookAt(point), p).draft == p.draft
    ensures Do(e, HookAt(point), p).seen == p.seen
  {
  }

  // ---------------------------------------------------------------- safe runs

  /** If the run reaches the simulator, all three checks of its second pass were given the draft it simulates. */
  ghost predicate SafeRun(e: Setup, payload: Draft) {
    var seen := FullRun(e, payload).seen;
    seen.simulated.Some? ==> |seen.checks| == 6 && forall i :: 3 <= i < 6 ==> seen.simulated == Some(seen.checks[i].draft)
  }

  /** The callbacks of the three checks, if none of them escapes, leave this draft alone. */
  predicate QuietOn(e: Setup, d: Draft) { LetsPass(e, d) ==> Given(e, d) == (d, d, d) && LeftByPass(e, d) == d }

  /** A legacy run that reaches the simulator is safe if and only if the callbacks of the checks leave alone
      the draft its second pass starts from. */
  lemma LegacyRunIsSafeExactlyWhen(e: Setup, payload: Draft)
    requires e.mode == Legacy
    ensures FullRun(e, payload).seen.simulated.Some? ==>
      (SafeRun(e, payload) <==> QuietOn(e, BeforeChecks(e, payload).draft))
  {
    var p, first, second := LegacyChain(e, payload);
    if p.seen.simulated.Some? {
      ChainedSafely(e, p, first, second);
    }
  }

  lemma ChainedSafely(e: Setup, p: Progress, first: Draft, second: Draft)
    requires Chained(e, p, first, second)
    ensures |p.seen.checks| == 6
    ensures (forall i :: 3 <= i < 6 ==> p.seen.simulated == Some(p.seen.checks[i].draft)) <==> QuietOn(e, second)
  {
    var (d1, d2, d3) := Given(e, second);
    assert p.seen.checks[3..] == ChecksOf(e, 1, second);
    assert p.seen.checks[3].draft == d1 && p.seen.checks[4].draft == d2 && p.seen.checks[5].draft == d3;
  }

  /** The same contract mode and the same callbacks at the three checks; all else may differ. */
  ghost predicate SameLayers(e: Setup, f: Setup) {
    f.mode == e.mode && f.at(LayerL1) == e.at(LayerL1) && f.at(LayerL2) == e.at(LayerL2) && f.at(LayerL3) == e.at(LayerL3)
  }

  lemma SameLayersQuiet(e: Setup, f: Setup, d: Draft)
    requires SameLayers(e, f)
    ensures QuietOn(e, d) == QuietOn(f, d) && LetsPass(e, d) == LetsPass(f, d)
    ensures f.stages == e.stages ==> forall turn :: Accepts(e, turn, d) == Accepts(f, turn, d)
  {
    assert forall layer, g :: Lets(e, layer, g) == Lets(f, layer, g) && LeftBy(e, layer, g) == LeftBy(f, layer, g) by {
      assert forall layer :: e.at(PointOf(layer)) == f.at(PointOf(layer));
    }
  }

  // ---------------------------------------------------------------- runs nothing else disturbs

  /** A legacy run with stages that can get it to the simulator, and without callbacks but those of the
      checks and one that rewrites the draft before the second pass. */
  ghost predicate Undisturbed(f: Setup, rewrite: Draft -> Draft) {
    && f.mode == Legacy && Connects(f.stages)
    && f.at(PreValidate) == [] && f.at(LayerL4) == []
    && f.at(PreSimulation) == [Callback(false, _ => Value(Nothing), rewrite)]
  }

  lemma Rewrites(f: Setup, rewrite: Draft -> Draft, p: Progress)
    requires Undisturbed(f, rewrite) && p.failure == None
    ensures var q := Do(f, HookAt(PreSimulation), p);
      q.failure == None && q.draft == rewrite(p.draft) && q.seen == p.seen
  {
    var cbs := f.at(PreSimulation);
    var entry := Some(p.draft);
    assert cbs[..0] == [];
    assert Rounds(Legacy, PreSimulation, true, true, entry, cbs[..0]) == Round([], entry, None);
    assert Rounds(Legacy, PreSimulation, true, true, entry, cbs).escaped == None;
    OnlyEnforcementBlocks(Legacy, PreSimulation, true, true, entry, cbs);
  }

  /** The checks of a pass accept what they are given, and no callback of it escapes. */
  predicate Passes(e: Setup, turn: nat, d: Draft) { LetsPass(e, d) && Accepts(e, turn, d) }

  /** Such a run reaches the simulator whenever the two passes let both drafts through. */
  lemma UndisturbedRun(f: Setup, rewrite: Draft -> Draft, payload: Draft) returns (p: Progress)
    requires Undisturbed(f, rewrite)
    requires Passes(f, 0, payload) && Passes(f, 1, rewrite(LeftByPass(f, payload)))
    ensures p == FullRun(f, payload)
    ensures Chained(f, p, payload, rewrite(LeftByPass(f, payload)))
  {
    var before := UndisturbedOpening(f, rewrite, payload);
    var after := LegacyPass(f, 1, before);
    ReconcileOutcome(f, after);
    SimulatesExactlyWhen(f, after);
    p := ConsumersSeeDraft(f, after);
  }

  lemma UndisturbedOpening(f: Setup, rewrite: Draft -> Draft, payload: Draft) returns (before: Progress)
    requires Undisturbed(f, rewrite) && Passes(f, 0, payload)
    ensures before == BeforeChecks(f, payload) && before.failure == None
    ensures before.seen == Seen(ChecksOf(f, 0, payload), None, None)
    ensures before.draft == rewrite(LeftByPass(f, payload))
  {
    var opening := Do(f, HookAt(PreValidate), Start(payload));
    NoCallbacks(f, PreValidate, Start(payload));
    var first := LegacyPass(f, 0, opening);
    Rewrites(f, rewrite, first);
    OpeningParts(f, payload);
    before := Do(f, HookAt(PreSimulation), first);
  }

  /** The callbacks of the checks of `e`, with these stages and otherwise undisturbed. */
  function Isolated(e: Setup, stages: Stages, rewrite: Draft -> Draft): Setup {
    Setup(Legacy,
          point =>
            if point in {LayerL1, LayerL2, LayerL3} then e.at(point)
            else if point == PreSimulation then [Callback(false, _ => Value(Nothing), rewrite)]
            else [],
          stages)
  }

  /** A pass can let `d0` through first and `d`, which the callbacks do not leave alone, then. */
  lemma UnsafeRun(e: Setup, stages: Stages, d0: Draft, d: Draft) returns (f: Setup)
    requires e.mode == Legacy && Connects(stages)
    requires Passes(e.(stages := stages), 0, d0) && Accepts(e.(stages := stages), 1, d) && !QuietOn(e, d)
    ensures SameLayers(e, f) && f.stages == stages && !SafeRun(f, d0)
  {
    f := Isolated(e, stages, _ => d);
    SameLayersQuiet(e, f, d);
    SameLayersQuiet(e.(stages := stages), f, d);
    SameLayersQuiet(e.(stages := stages), f, d0);
    UnquietIsUnsafe(f, _ => d, d0, d);
  }

  lemma UnquietIsUnsafe(f: Setup, rewrite: Draft -> Draft, d0: Draft, d: Draft)
    requires Undisturbed(f, rewrite) && forall any :: rewrite(any) == d
    requires Passes(f, 0, d0) && Accepts(f, 1, d) && !QuietOn(f, d)
    ensures !SafeRun(f, d0)
  {
    var p := UndisturbedRun(f, rewrite, d0);
    ChainedSafely(f, p, d0, d);
  }

  // ---------------------------------------------------------------- which callbacks are safe

  /** Some draft gets through the first pass, and nothing stands between the second and the simulator. */
  ghost predicate Reachable(e: Setup) { Connects(e.stages) && exists d :: Passes(e, 0, d) }

  /** No run with these stages and these callbacks at the checks simulates a draft its second pass was not given. */
  ghost predicate AlwaysSafe(e: Setup) {
    forall f: Setup, payload :: SameLayers(e, f) && f.stages == e.stages ==> SafeRun(f, payload)
  }

  /** The exact condition for the checks as they are: whatever the payload and the other callbacks, no run
      simulates a draft its second pass was not given, if and only if the callbacks of the checks leave alone
      every draft that the second pass accepts and they let through; or nothing can be simulated at all. */
  lemma LegacyIsSafeExactlyWhen(e: Setup)
    requires e.mode == Legacy
    ensures AlwaysSafe(e) <==> (Reachable(e) ==> forall d :: Accepts(e, 1, d) ==> QuietOn(e, d))
  {
    if Reachable(e) ==> forall d :: Accepts(e, 1, d) ==> QuietOn(e, d) {
      forall f: Setup, payload | SameLayers(e, f) && f.stages == e.stages ensures SafeRun(f, payload) {
        SafeWhenReachableAreQuiet(e, f, payload);
      }
    } else {
      var d0 :| Passes(e, 0, d0);
      var d :| Accepts(e, 1, d) && !QuietOn(e, d);
      var f := UnsafeRun(e, e.stages, d0, d);
    }
  }

  lemma SafeWhenReachableAreQuiet(e: Setup, f: Setup, payload: Draft)
    requires e.mode == Legacy && SameLayers(e, f) && f.stages == e.stages
    requires Reachable(e) ==> forall d :: Accepts(e, 1, d) ==> QuietOn(e, d)
    ensures SafeRun(f, payload)
  {
    var p, first, second := LegacyChain(f, payload);
    if p.seen.simulated.Some? {
      SimulatedConnects(f, payload);
      SameLayersQuiet(e, f, first);
      SameLayersQuiet(e, f, second);
      ChainedSafely(f, p, first, second);
      assert Passes(e, 0, first);
    }
  }

  lemma SimulatedConnects(e: Setup, payload: Draft)
    ensures FullRun(e, payload).seen.simulated.Some? ==> Connects(e.stages)
  {
    var after := AfterChecksIsClean(e, payload);
    SimulatesExactlyWhen(e, after);
    ReconcileOutcome(e, after);
  }

  lemma AfterChecksIsClean(e: Setup, payload: Draft) returns (p: Progress)
    ensures p == AfterChecks(e, payload) && p.seen.simulated == None
  {
    var before := BeforeChecksIsClean(e, payload);
    NotYetConsumed(e, Pass(1), before);
    p := Through(e, Pass(1), before);
  }

  /** Over all checks there could be, the condition is on the callbacks alone. */
  lemma LegacyIsSafeForAnyChecks(e: Setup)
    requires e.mode == Legacy
    ensures (forall f: Setup, payload :: SameLayers(e, f) ==> SafeRun(f, payload)) <==> (forall d :: QuietOn(e, d))
  {
    if forall d :: QuietOn(e, d) {
      forall f: Setup, payload | SameLayers(e, f) ensures SafeRun(f, payload) {
        SameLayersQuiet(e, f, BeforeChecks(f, payload).draft);
        LegacyRunIsSafeExactlyWhen(f, payload);
      }
    }
    forall d | !QuietOn(e, d) ensures exists f: Setup, payload :: SameLayers(e, f) && !SafeRun(f, payload) {
      var f := UnsafeRun(e, LENIENT, d, d);
    }
  }

  /** What a caller can check of each callback by itself: none of the layer callbacks ever writes. */
  ghost predicate LayersAreQuiet(e: Setup) {
    forall layer: Layer, i, d :: 0 <= i < |e.at(PointOf(layer))| ==> e.at(PointOf(layer))[i].leaves(d) == d
  }

  lemma QuietLayersAreSafe(e: Setup, payload: Draft)
    requires e.mode == Legacy && LayersAreQuiet(e)
    ensures SafeRun(e, payload)
  {
    var d := BeforeChecks(e, payload).draft;
    forall layer: Layer ensures LeftBy(e, layer, d) == d {
      QuietCallbacksLeave(false, d, e.at(PointOf(layer)));
    }
    LegacyRunIsSafeExactlyWhen(e, payload);
  }

  // ---------------------------------------------------------------- simulating what no check was given

  /** A callback that turns `d0` into `d1` and `d1` into `d2`, and says nothing. */
  function Turning(d0: Draft, d1: Draft, d2: Draft): Callback {
    Callback(false, _ => Value(Nothing), d => if d == d0 then d1 else if d == d1 then d2 else d)
  }

  const UNCHANGED: Draft -> Draft := d => d

  /** Registered at the last check, in a run where no other callback does anything. */
  function TurningAtDefi(stages: Stages, d0: Draft, d1: Draft, d2: Draft): Setup {
    Isolated(Setup(Legacy, point => if point == LayerL3 then [Turning(d0, d1, d2)] else [], stages), stages, UNCHANGED)
  }

  /** Whatever the checks, if they accept two different drafts they can be made to pass a third one on to the
      simulator, any at all, that no check of either pass was given. */
  lemma LegacyRunsUncheckedDraft(stages: Stages, d0: Draft, d1: Draft, d2: Draft) returns (p: Progress)
    requires Connects(stages) && PassAccepts(stages, 0, d0) && PassAccepts(stages, 1, d1)
    requires d0 != d1 && d2 !in {d0, d1}
    ensures p == FullRun(TurningAtDefi(stages, d0, d1, d2), d0) && p.seen.simulated == Some(d2)
    ensures forall i :: 0 <= i < |p.seen.checks| ==> p.seen.checks[i].draft in {d0, d1}
  {
    var f, cb := TurningAtDefi(stages, d0, d1, d2), Turning(d0, d1, d2);
    assert cb.leaves(d0) == d1 && cb.leaves(d1) == d2;
    TurningSetup(stages, d0, d1, d2);
    p := OneCallbackRun(f, cb, d0);
  }

  lemma TurningSetup(stages: Stages, d0: Draft, d1: Draft, d2: Draft)
    requires Connects(stages)
    ensures var f := TurningAtDefi(stages, d0, d1, d2);
      Undisturbed(f, UNCHANGED) && OnlyAtDefi(f, Turning(d0, d1, d2)) && f.stages == stages
  {
  }

  /** The only callback at the checks is one at the last of them, and it never escapes. */
  ghost predicate OnlyAtDefi(f: Setup, cb: Callback) {
    && f.mode == Legacy && f.at(LayerL1) == [] && f.at(LayerL2) == [] && f.at(LayerL3) == [cb]
    && !cb.isAsync && forall shown :: !cb.run(shown).Security?
  }

  lemma OneCallback(f: Setup, cb: Callback, d: Draft)
    requires OnlyAtDefi(f, cb)
    ensures LeftByPass(f, d) == cb.leaves(d) && Given(f, d) == (d, d, d) && LetsPass(f, d)
    ensures forall turn :: Accepts(f, turn, d) == PassAccepts(f.stages, turn, d)
  {
    assert [cb][..0] == [];
    assert LeftBy(f, Intent, d) == d && LeftBy(f, Schema, d) == d && LeftBy(f, Defi, d) == cb.leaves(d);
    OneEscapes(f, cb, d);
  }

  lemma OneEscapes(f: Setup, cb: Callback, d: Draft)
    requires OnlyAtDefi(f, cb)
    ensures Lets(f, Intent, d) && Lets(f, Schema, d) && Lets(f, Defi, d)
  {
    var before := Rounds(Legacy, LayerL3, true, false, Some(d), [cb][..0]);
    assert before.escaped == None;
    assert Turn(Legacy, LayerL3, true, false, Some(d), before, cb).escaped == None;
  }

  /** The drafts of such a run, undisturbed otherwise. */
  lemma OneCallbackRun(f: Setup, cb: Callback, d: Draft) returns (p: Progress)
    requires OnlyAtDefi(f, cb) && Undisturbed(f, UNCHANGED)
    requires PassAccepts(f.stages, 0, d) && PassAccepts(f.stages, 1, cb.leaves(d))
    ensures p == FullRun(f, d) && p.seen.simulated == Some(cb.leaves(cb.leaves(d)))
    ensures forall i :: 0 <= i < |p.seen.checks| ==> p.seen.checks[i].draft in {d, cb.leaves(d)}
  {
    OneCallback(f, cb, d);
    OneCallback(f, cb, cb.leaves(d));
    p := UndisturbedRun(f, UNCHANGED, d);
    OneCallbackChecks(f, cb, p, d);
  }

  lemma OneCallbackChecks(f: Setup, cb: Callback, p: Progress, d: Draft)
    requires OnlyAtDefi(f, cb) && Chained(f, p, d, cb.leaves(d))
    ensures p.seen.simulated == Some(cb.leaves(cb.leaves(d)))
    ensures forall i :: 0 <= i < |p.seen.checks| ==> p.seen.checks[i].draft in {d, cb.leaves(d)}
  {
    OneCallback(f, cb, d);
    OneCallback(f, cb, cb.leaves(d));
    assert forall turn, i :: 0 <= i < 3 ==> ChecksOf(f, turn, d)[i].draft == d;
  }
}
