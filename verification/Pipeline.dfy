/** The full pipeline: hook points, two passes of three checks with a hook round after each check,
    reconciliation, simulation, audit, and the record of it. */
module Pipeline {
  import opened Common
  import opened Statuses
  import opened SessionFsm
  import opened Session
  import opened Replay
  import opened Hooks

  /** How a stage fails: with one of the library's own exceptions, under the layer in its context ("unknown"
      where there is none), or otherwise. */
  datatype Failure = Lirix(layer: string) | Unexpected

  /** The checks of one pass, in order. */
  datatype Layer = Intent | Schema | Defi

  /** What the stages decide, apart from the hook rounds they run. `check` is also told the pass. */
  datatype Stages = Stages(
    check: (Layer, nat, Draft) -> Option<Failure>,
    reconcile: Result<int, Failure>,
    connect: Option<Failure>,
    simulate: (Draft, int) -> Result<Json, Failure>,
    audit: (Draft, Json) -> Option<Failure>)

  /** Stages that accept everything. */
  const LENIENT: Stages := Stages((layer, turn, d) => None, Ok(0), None, (d, h) => Ok(JNull), (d, out) => None)

  /** Everything a run depends on: contract mode, registered callbacks and stages. */
  datatype Setup = Setup(mode: ContractMode, at: HookPoint -> seq<Callback>, stages: Stages)

  datatype Check = Check(turn: nat, layer: Layer, draft: Draft)

  /** Which draft each check, the simulator and the audit were given. */
  datatype Seen = Seen(checks: seq<Check>, simulated: Option<Draft>, audited: Option<Draft>)

  /** Where a run stands; `draft` is the live dictionary, `fatalAt` the points with a fatal result. */
  datatype Progress = Progress(
    draft: Draft,
    steps: seq<string>,
    seen: Seen,
    height: int,
    simulation: Json,
    fatalAt: seq<HookPoint>,
    failure: Option<Failure>)

  function Start(payload: Draft): Progress { Progress(payload, [], Seen([], None, None), 0, JNull, [], None) }

  // ---------------------------------------------------------------- hook rounds

  /** The keyword arguments each point is called with. */
  function NamesAt(point: HookPoint): set<string> {
    match point
    case PreValidate => {"intent", "payload"}
    case PreSimulation => {"intent", "payload"}
    case PostSimulation => {"intent", "payload", "simulation"}
    case PostValidate => {"intent", "payload", "simulation"}
    case LayerL1 => {"layer", "intent", "payload"}
    case LayerL2 => {"layer", "payload"}
    case LayerL3 => {"layer", "payload"}
    case LayerL4 => {"layer", "block_number", "mode"}
    case LayerL5 => {"layer", "block_number", "simulation"}
    case MulticallPack => {"encoded", "subcall_count"}
    case _ => {}
  }

  /** The points run by the asynchronous loop; the checks and the reconciliation use the other one. */
  predicate Awaits(point: HookPoint) {
    point.PreValidate? || point.PreSimulation? || point.PostSimulation? || point.PostValidate? || point.LayerL5?
  }

  predicate ShowsDraft(point: HookPoint) { "payload" in NamesAt(point) }

  /** The points whose results anyone reads: the four of the pipeline and the intent check's. */
  predicate ReadsResults(point: HookPoint) {
    point.PreValidate? || point.PreSimulation? || point.PostSimulation? || point.PostValidate? || point.LayerL1?
  }

  function EntryAt(point: HookPoint, draft: Draft): Option<Draft> { if ShowsDraft(point) then Some(draft) else None }

  function RoundAt(e: Setup, point: HookPoint, draft: Draft): Round {
    Rounds(e.mode, point, RequiredFields(point) <= NamesAt(point), Awaits(point), EntryAt(point, draft), e.at(point))
  }

  predicate AnyBlocking(results: seq<HookResult>) { exists i :: 0 <= i < |results| && Blocking(results[i]) }

  /** A hook round: an escaping exception ends the run at once; otherwise the round leaves a trace
      step, and a fatal result ends the run after that where somebody reads it. */
  function Hooked(e: Setup, point: HookPoint, p: Progress): Progress {
    if p.failure.Some? then p
    else
      var round := RoundAt(e, point, p.draft);
      var left := p.(draft := if round.payload.Some? then round.payload.value else p.draft);
      if round.escaped.Some? then left.(failure := Some(Lirix(round.escaped.value)))
      else
        var fatal := AnyBlocking(round.results);
        left.(steps := p.steps + [Name(Aggregate(TraceTokens(round.results)))],
              fatalAt := if fatal then p.fatalAt + [point] else p.fatalAt,
              failure := if fatal && ReadsResults(point) then Some(Lirix("hooks")) else None)
  }

  // ---------------------------------------------------------------- the stages

  /** The steps of a run. A check is followed by its own hook point, the reconciliation and the
      simulation by theirs; the trace step of each of the latter two opens the stage after it. */
  datatype Stage =
    | HookAt(point: HookPoint)
    | CheckBy(layer: Layer, turn: nat)
    | Reconcile
    | Connect
    | Simulate
    | Audit

  function Do(e: Setup, stage: Stage, p: Progress): Progress {
    if p.failure.Some? then p
    else
      match stage
      case HookAt(point) => Hooked(e, point, p)
      case CheckBy(layer, turn) =>
        p.(seen := p.seen.(checks := p.seen.checks + [Check(turn, layer, p.draft)]),
           failure := e.stages.check(layer, turn, p.draft))
      case Reconcile =>
        (match e.stages.reconcile
         case Err(f) => p.(failure := Some(f))
         case Ok(height) => p.(height := height))
      case Connect => p.(steps := p.steps + ["ok"], failure := e.stages.connect)
      case Simulate =>
        var given := p.(seen := p.seen.(simulated := Some(p.draft)));
        (match e.stages.simulate(p.draft, p.height)
         case Err(f) => given.(failure := Some(f))
         case Ok(out) => given.(simulation := out))
      case Audit =>
        p.(steps := p.steps + ["ok"], seen := p.seen.(audited := Some(p.draft)),
           failure := e.stages.audit(p.draft, p.simulation))
  }

  function Through(e: Setup, stages: seq<Stage>, p: Progress): Progress
    decreases |stages|
  {
    if stages == [] then p else Through(e, stages[1..], Do(e, stages[0], p))
  }

  function PointOf(layer: Layer): HookPoint {
    match layer
    case Intent => LayerL1
    case Schema => LayerL2
    case Defi => LayerL3
  }

  /** A check, and its hook round on the live draft. */
  function LayerSteps(layer: Layer, turn: nat): seq<Stage> { [CheckBy(layer, turn), HookAt(PointOf(layer))] }

  /** `chain_validate`. */
  function Pass(turn: nat): seq<Stage> { LayerSteps(Intent, turn) + LayerSteps(Schema, turn) + LayerSteps(Defi, turn) }

  /** What stands before the second pass, and what after it. */
  function Opening(): seq<Stage> { [HookAt(PreValidate)] + Pass(0) + [HookAt(PreSimulation)] }

  function ReconcileSteps(): seq<Stage> { [Reconcile, HookAt(LayerL4), Connect] }

  function SimulateSteps(): seq<Stage> { [Simulate, HookAt(LayerL5)] }

  function AuditSteps(): seq<Stage> { [Audit, HookAt(PostSimulation), HookAt(PostValidate)] }

  function Consuming(): seq<Stage> { ReconcileSteps() + SimulateSteps() + AuditSteps() }

  lemma {:induction false} ThroughConcat(e: Setup, first: seq<Stage>, second: seq<Stage>, p: Progress)
    ensures Through(e, first + second, p) == Through(e, second, Through(e, first, p))
    decreases |first|
  {
    if first == [] {
      assert first + second == second;
    } else {
      assert (first + second)[1..] == first[1..] + second;
      ThroughConcat(e, first[1..], second, Do(e, first[0], p));
    }
  }

  lemma ThroughOne(e: Setup, stage: Stage, p: Progress)
    ensures Through(e, [stage], p) == Do(e, stage, p)
  {
    assert [stage][1..] == [];
  }


  /** A failed run stays as it is. */
  lemma {:induction false} FailedStays(e: Setup, stages: seq<Stage>, p: Progress)
    requires p.failure.Some?
    ensures Through(e, stages, p) == p
    decreases |stages|
  {
    if stages != [] {
      FailedStays(e, stages[1..], p);
    }
  }


  function BeforeChecks(e: Setup, payload: Draft): Progress { Through(e, Opening(), Start(payload)) }

  function AfterChecks(e: Setup, payload: Draft): Progress { Through(e, Pass(1), BeforeChecks(e, payload)) }

  function FullRun(e: Setup, payload: Draft): Progress { Through(e, Consuming(), AfterChecks(e, payload)) }

  // ---------------------------------------------------------------- closing the session

  /** What the run is recorded under. */
  datatype Labels = Labels(
    kind: TraceKind,
    correlationId: string,
    digest: seq<string> -> string,
    hash: Hash,
    okMeta: TraceMeta,
    blockedMeta: TraceMeta,
    rationale: string,
    blockedRationale: string,
    details: Json,
    okNotes: Json,
    blockedNotes: Json)

  datatype RunResult =
    | Approved
    | Blocked        // recorded, then raised again
    | HandlerFailed  // the failure handler itself raised
    | Escaped        // not one of the library's exceptions: nothing recorded
    | Refused        // the session given was already finalised

  function TraceOf(l: Labels, steps: seq<string>): Trace { Trace(l.correlationId, l.digest(steps), steps) }

  ghost function Sealed(s: SessionState, owned: bool, outcome: string, notes: Json)
    : (SessionState, Option<SessionError>)
  {
    if owned then Step(s, Finalize(outcome, notes)) else (s, None)
  }

  /** Trace, decision and, for a session the run owns, finalize; the first error stops. */
  ghost function Close(s: SessionState, l: Labels, steps: seq<string>, owned: bool, approved: bool)
    : (SessionState, Option<SessionError>)
  {
    var meta := if approved then l.okMeta else l.blockedMeta;
    var (traced, e1) := Step(s, RecordTrace(l.kind, TraceOf(l, steps), if approved then "ok" else "rejected", meta));
    if e1.Some? then (traced, e1)
    else
      var verdict := if approved then RecordDecision("approved", l.rationale, l.details)
                     else RecordDecision("blocked", l.blockedRationale, l.details);
      var (decided, e2) := Step(traced, verdict);
      if e2.Some? then (decided, e2)
      else Sealed(decided, owned, if approved then "ok" else "rejected", if approved then l.okNotes else l.blockedNotes)
  }

  /** `_record_failure`: a failure whose layer is blank cannot be recorded, and one is not reported as
      blocked when the bundle to report it with cannot be produced. */
  ghost function Handled(s: SessionState, l: Labels, steps: seq<string>, owned: bool, layer: string)
    : (SessionState, RunResult)
  {
    if Strip(layer) == "" then (s, HandlerFailed)
    else
      var (closed, error) := Close(s, l, steps + ["rejected"], owned, false);
      (closed, if error.Some? || BundleOf(closed, l.hash).Err? then HandlerFailed else Blocked)
  }

  /** A session error while recording an approval, or while bundling it, is itself handled as a failure
      of layer "unknown". */
  ghost function Concluded(s: SessionState, l: Labels, p: Progress, owned: bool): (SessionState, RunResult) {
    match p.failure
    case Some(Unexpected) => (s, Escaped)
    case Some(Lirix(layer)) => Handled(s, l, p.steps, owned, layer)
    case None =>
      var (closed, error) := Close(s, l, p.steps, owned, true);
      if error.Some? || BundleOf(closed, l.hash).Err? then Handled(closed, l, p.steps, owned, "unknown")
      else (closed, Approved)
  }

  /** What a run leaves of the session it was given, or of its own, and how it ends. */
  ghost function RecordOn(s: SessionState, l: Labels, p: Progress, owned: bool): (SessionState, RunResult) {
    var (linked, refused) := Step(s, Call.LinkTrace(l.correlationId));
    if refused.Some? then (linked, Refused) else Concluded(linked, l, p, owned)
  }

  // ---------------------------------------------------------------- the orchestrator

  class LirixPipelineOrchestrator {
    const stages: Stages
    const hooks: HookManager

    constructor (stages: Stages, hooks: HookManager)
      ensures this.stages == stages && this.hooks == hooks
    {
      this.stages := stages;
      this.hooks := hooks;
    }

    /** The setup as it stands. */
    function Wired(): Setup
      reads this, hooks
    {
      var registry := hooks.registry;
      Setup(hooks.mode, point => if point in registry then registry[point] else [], stages)
    }

    /** One stage of a list of them. */
    method Advance(stage: Stage, ghost list: seq<Stage>, ghost i: nat, draft: PayloadDict, p: Progress)
      returns (q: Progress)
      requires p.draft == draft.fields && (stage.HookAt? ==> RequiresTrace(stage.point))
      requires i < |list| && list[i] == stage
      modifies draft
      ensures q.draft == draft.fields
      ensures Through(old(Wired()), list[i + 1..], q) == Through(old(Wired()), list[i..], p)
    {
      assert list[i..][0] == stage && list[i..][1..] == list[i + 1..];
      if p.failure.Some? {
        return p;
      }
      q := p;
      match stage {
        case HookAt(point) => q := HookStage(point, draft, p);
        case CheckBy(layer, turn) =>
          q := p.(seen := p.seen.(checks := p.seen.checks + [Check(turn, layer, draft.fields)]),
                  failure := stages.check(layer, turn, draft.fields));
        case Reconcile =>
          if stages.reconcile.Err? {
            q := p.(failure := Some(stages.reconcile.error));
          } else {
            q := p.(height := stages.reconcile.value);
          }
        case Connect => q := p.(steps := p.steps + ["ok"], failure := stages.connect);
        case Simulate =>
          var out := stages.simulate(draft.fields, p.height);
          q := p.(seen := p.seen.(simulated := Some(draft.fields)));
          if out.Err? {
            q := q.(failure := Some(out.error));
          } else {
            q := q.(simulation := out.value);
          }
        case Audit =>
          q := p.(steps := p.steps + ["ok"], seen := p.seen.(audited := Some(draft.fields)),
                  failure := stages.audit(draft.fields, p.simulation));
      }
    }

    /** Run one hook point and decide whether the run goes on. */
    method HookStage(point: HookPoint, draft: PayloadDict, p: Progress) returns (q: Progress)
      requires p.draft == draft.fields && p.failure.None? && RequiresTrace(point)
      modifies draft
      ensures q == Hooked(old(Wired()), point, p) && q.draft == draft.fields
    {
      ghost var e := Wired();
      assert e.at(point) == hooks.Callbacks(point);
      var shown := if ShowsDraft(point) then Some(draft) else None;
      var results, escaped;
      if Awaits(point) {
        results, escaped := hooks.AinvokeHooksIsolated(point, NamesAt(point), shown);
      } else {
        results, escaped := hooks.InvokeHooksIsolated(point, NamesAt(point), shown);
      }
      assert Round(results, Contents(shown), escaped) == RoundAt(e, point, p.draft);
      q := p.(draft := draft.fields);
      if escaped.Some? {
        return q.(failure := Some(Lirix(escaped.value)));
      }
      var token := AggregateStatuses(TraceTokens(results));
      var fatal := AnyBlocking(results);
      q := q.(steps := p.steps + [token],
              fatalAt := if fatal then p.fatalAt + [point] else p.fatalAt,
              failure := if fatal && ReadsResults(point) then Some(Lirix("hooks")) else None);
    }

    /** One check, then its hook round. */
    method LayerStage(layer: Layer, turn: nat, draft: PayloadDict, p: Progress) returns (q: Progress)
      requires p.draft == draft.fields
      modifies draft
      ensures q == Through(old(Wired()), LayerSteps(layer, turn), p) && q.draft == draft.fields
    {
      ghost var list := LayerSteps(layer, turn);
      assert list[0..] == list && list[2..] == [];
      q := Advance(CheckBy(layer, turn), list, 0, draft, p);
      q := Advance(HookAt(PointOf(layer)), list, 1, draft, q);
    }

    /** `chain_validate` on the live draft. */
    method ChainValidate(turn: nat, draft: PayloadDict, p: Progress) returns (q: Progress)
      requires p.draft == draft.fields
      modifies draft
      ensures q == Through(old(Wired()), Pass(turn), p) && q.draft == draft.fields
    {
      ghost var e := Wired();
      ThroughConcat(e, LayerSteps(Intent, turn), LayerSteps(Schema, turn), p);
      ThroughConcat(e, LayerSteps(Intent, turn) + LayerSteps(Schema, turn), LayerSteps(Defi, turn), p);
      q := LayerStage(Intent, turn, draft, p);
      q := LayerStage(Schema, turn, draft, q);
      q := LayerStage(Defi, turn, draft, q);
    }

    method HookOnly(point: HookPoint, draft: PayloadDict, p: Progress) returns (q: Progress)
      requires p.draft == draft.fields && RequiresTrace(point)
      modifies draft
      ensures q == Through(old(Wired()), [HookAt(point)], p) && q.draft == draft.fields
    {
      ghost var list := [HookAt(point)];
      assert list[0..] == list && list[1..] == [];
      q := Advance(HookAt(point), list, 0, draft, p);
    }

    method Prepare(draft: PayloadDict) returns (p: Progress)
      modifies draft
      ensures p == BeforeChecks(old(Wired()), old(draft.fields)) && p.draft == draft.fields
    {
      ghost var e := Wired();
      p := Start(draft.fields);
      ThroughConcat(e, [HookAt(PreValidate)], Pass(0), p);
      ThroughConcat(e, [HookAt(PreValidate)] + Pass(0), [HookAt(PreSimulation)], p);
      p := HookOnly(PreValidate, draft, p);
      p := ChainValidate(0, draft, p);
      p := HookOnly(PreSimulation, draft, p);
    }

    method ReconcileStage(draft: PayloadDict, p: Progress) returns (q: Progress)
      requires p.draft == draft.fields
      modifies draft
      ensures q == Through(old(Wired()), ReconcileSteps(), p) && q.draft == draft.fields
    {
      ghost var list := ReconcileSteps();
      assert list[0..] == list && list[3..] == [];
      q := Advance(Reconcile, list, 0, draft, p);
      q := Advance(HookAt(LayerL4), list, 1, draft, q);
      q := Advance(Connect, list, 2, draft, q);
    }

    method SimulateStage(draft: PayloadDict, p: Progress) returns (q: Progress)
      requires p.draft == draft.fields
      modifies draft
      ensures q == Through(old(Wired()), SimulateSteps(), p) && q.draft == draft.fields
    {
      ghost var list := SimulateSteps();
      assert list[0..] == list && list[2..] == [];
      q := Advance(Simulate, list, 0, draft, p);
      q := Advance(HookAt(LayerL5), list, 1, draft, q);
    }

    method AuditStage(draft: PayloadDict, p: Progress) returns (q: Progress)
      requires p.draft == draft.fields
      modifies draft
      ensures q == Through(old(Wired()), AuditSteps(), p) && q.draft == draft.fields
    {
      ghost var list := AuditSteps();
      assert list[0..] == list && list[3..] == [];
      q := Advance(Audit, list, 0, draft, p);
      q := Advance(HookAt(PostSimulation), list, 1, draft, q);
      q := Advance(HookAt(PostValidate), list, 2, draft, q);
    }

    /** Everything after the second pass. */
    method Consume(draft: PayloadDict, p: Progress) returns (q: Progress)
      requires p.draft == draft.fields
      modifies draft
      ensures q == Through(old(Wired()), Consuming(), p) && q.draft == draft.fields
    {
      ghost var e := Wired();
      ThroughConcat(e, ReconcileSteps(), SimulateSteps(), p);
      ThroughConcat(e, ReconcileSteps() + SimulateSteps(), AuditSteps(), p);
      q := ReconcileStage(draft, p);
      q := SimulateStage(draft, q);
      q := AuditStage(draft, q);
    }

    /** `run_full` up to its result: every stage in turn, on one live dictionary. */
    method RunStages(payload: Draft) returns (p: Progress)
      ensures p == FullRun(Wired(), payload)
    {
      var draft := new PayloadDict(payload);
      p := Prepare(draft);
      p := ChainValidate(1, draft, p);
      p := Consume(draft, p);
    }

    method CloseSession(sess: ValidationSession, l: Labels, steps: seq<string>, owned: bool, approved: bool)
      returns (error: Option<SessionError>)
      modifies sess
      ensures (sess.View(), error) == Close(old(sess.View()), l, steps, owned, approved)
    {
      error := sess.RecordTrace(l.kind, TraceOf(l, steps), if approved then "ok" else "rejected",
                                if approved then l.okMeta else l.blockedMeta);
      if error.Some? {
        return;
      }
      if approved {
        error := sess.RecordDecision("approved", l.rationale, l.details);
      } else {
        error := sess.RecordDecision("blocked", l.blockedRationale, l.details);
      }
      if error.None? && owned {
        error := sess.Finalize(if approved then "ok" else "rejected", if approved then l.okNotes else l.blockedNotes);
      }
    }

    method RecordFailure(sess: ValidationSession, l: Labels, steps: seq<string>, owned: bool, layer: string)
      returns (r: RunResult)
      modifies sess
      ensures (sess.View(), r) == Handled(old(sess.View()), l, steps, owned, layer)
    {
      if Strip(layer) == "" {
        return HandlerFailed;
      }
      var error := CloseSession(sess, l, steps + ["rejected"], owned, false);
      var bundle := ReplayBundle(sess.View(), l.hash);
      return if error.Some? || bundle.Err? then HandlerFailed else Blocked;
    }

    /** Record what became of the run. */
    method Conclude(sess: ValidationSession, l: Labels, p: Progress, owned: bool) returns (r: RunResult)
      modifies sess
      ensures (sess.View(), r) == Concluded(old(sess.View()), l, p, owned)
    {
      if p.failure.None? {
        var error := CloseSession(sess, l, p.steps, owned, true);
        var bundle := ReplayBundle(sess.View(), l.hash);
        if error.None? && bundle.Ok? {
          return Approved;
        }
        r := RecordFailure(sess, l, p.steps, owned, "unknown");
      } else if p.failure.value.Lirix? {
        r := RecordFailure(sess, l, p.steps, owned, p.failure.value.layer);
      } else {
        r := Escaped;
      }
    }

    /** `run_full` on the session the caller gave or, without one, on a fresh session of its own. */
    method RunFull(given: Option<ValidationSession>, id: string, createdAt: string, l: Labels, payload: Draft)
      returns (sess: ValidationSession, r: RunResult)
      modifies if given.Some? then {given.value} else {}
      ensures given.Some? ==> sess == given.value
      ensures
        var before := if given.Some? then old(given.value.View()) else NewSession(id, createdAt, Direct, false);
        (sess.View(), r) == RecordOn(before, l, FullRun(old(Wired()), payload), given.None?)
    {
      if given.Some? {
        sess := given.value;
      } else {
        sess := new ValidationSession(id, createdAt, Direct, false);
      }
      r := RunIn(sess, l, payload, given.None?);
    }

    method RunIn(sess: ValidationSession, l: Labels, payload: Draft, owned: bool) returns (r: RunResult)
      modifies sess
      ensures (sess.View(), r) == RecordOn(old(sess.View()), l, FullRun(old(Wired()), payload), owned)
    {
      var refused := sess.LinkTrace(l.correlationId);
      if refused.Some? {
        return Refused;
      }
      var p := RunStages(payload);
      r := Conclude(sess, l, p, owned);
    }
  }
}
