/** Hook governance: how callback results are judged, and which patches reach the payload. */
module Hooks {
  import opened Common

  type Draft = map<string, Json>

  datatype ContractMode = Legacy | Warn | Shadow | Enforce

  datatype HookPoint =
    | PreValidate | PostValidate | PreSimulation | PostSimulation
    | OnAuditLog | RpcFallback
    | LayerL1 | LayerL2 | LayerL3 | LayerL4 | LayerL5
    | MulticallPack

  function RequiredFields(point: HookPoint): set<string> {
    match point
    case PreValidate => {"intent", "payload"}
    case PostValidate => {"intent", "payload"}
    case PreSimulation => {"intent", "payload"}
    case PostSimulation => {"intent", "payload", "simulation"}
    case LayerL4 => {"layer", "block_number", "mode"}
    case LayerL5 => {"layer", "block_number", "simulation"}
    case MulticallPack => {"encoded", "subcall_count"}
    case _ => {}
  }

  predicate AllowsPatch(point: HookPoint) { point == PreValidate || point == PreSimulation }

  /** Points whose isolated runs leave a step in the security trace. */
  predicate RequiresTrace(point: HookPoint) {
    !point.OnAuditLog? && !point.RpcFallback? && !point.MulticallPack?
  }

  // ---------------------------------------------------------------- callbacks

  /** What a callback hands back; `Foreign` is any type outside the contract. */
  datatype HookValue =
    | Nothing
    | Decision(status: string, reason: string, failureLevel: string)
    | Patch(updates: Draft, target: string)
    | Annotation
    | Foreign

  /** How a call ends; a security exception is never contained. Its layer is the one in its context, which
      may be blank, or "unknown" where the context has none. */
  datatype Outcome = Value(v: HookValue) | TimedOut | Raised | Security(layer: string)

  /** A callback, as two functions of the payload it is shown: how its call ends, and what it leaves of
      the dictionary when it is handed the live one. It is handed the live one in legacy mode only. */
  datatype Callback = Callback(isAsync: bool, run: Option<Draft> -> Outcome, leaves: Draft -> Draft)

  // ---------------------------------------------------------------- judging one result

  datatype Level = Fatal | Soft | ObserveOnly | ShadowOnly

  datatype Code =
    | PatchTargetForbidden | PatchTargetWarning | PatchForbidden | PatchForbiddenWarning
    | DecisionRejected | ContractViolation | ContractWarning
    | HookTimeout | RuntimeFailure | AsyncRequired

  /** One entry of the result list; `patchAllowed` is None where the entry has no such key. */
  datatype HookResult = HookResult(ok: bool, code: Option<Code>, level: Level, patchAllowed: Option<bool>)

  function ErrorResult(code: Code, level: Level): HookResult { HookResult(false, Some(code), level, None) }

  /** `str.lower`, as far as it can produce the letters of the rejection words; U+212A is the Kelvin sign. */
  function LowerChar(c: char): char {
    if 'A' <= c <= 'Z' then (c as int + 32) as char else if c == '\U{212A}' then 'k' else c
  }

  function Lower(s: string): string { seq(|s|, i requires 0 <= i < |s| => LowerChar(s[i])) }

  predicate Rejects(v: HookValue) {
    v.Decision? && Lower(v.status) in {"reject", "rejected", "blocked"} && v.failureLevel == "fatal"
  }

  function LevelOf(v: HookValue): Level {
    if v.Decision? && v.failureLevel == "fatal" then Fatal
    else if v.Decision? && v.failureLevel == "observe_only" then ObserveOnly
    else Soft
  }

  function WarningLevel(mode: ContractMode): Level { if mode == Shadow then ShadowOnly else ObserveOnly }

  /** `_hook_ok_result`: `payloadOk` says whether the keyword arguments meet the point's contract. */
  function Judge(mode: ContractMode, point: HookPoint, payloadOk: bool, v: HookValue): HookResult {
    if v.Patch? then JudgePatch(mode, AllowsPatch(point) && mode != Shadow, payloadOk, v.target == "payload")
    else if mode == Enforce && Rejects(v) then ErrorResult(DecisionRejected, Fatal)
    else JudgeContract(mode, payloadOk && !v.Foreign?, LevelOf(v), true)
  }

  function JudgePatch(mode: ContractMode, allowed: bool, payloadOk: bool, onPayload: bool): HookResult {
    if !onPayload then
      if mode == Enforce then ErrorResult(PatchTargetForbidden, Fatal)
      else HookResult(true, Some(PatchTargetWarning), WarningLevel(mode), Some(false))
    else if mode == Enforce && !allowed then ErrorResult(PatchForbidden, Fatal)
    else if (mode == Warn || mode == Shadow) && !allowed then
      HookResult(true, Some(PatchForbiddenWarning), WarningLevel(mode), Some(false))
    else JudgeContract(mode, payloadOk, Soft, allowed)
  }

  /** The contract checks every result ends with; only the clean entry has a patch verdict. */
  function JudgeContract(mode: ContractMode, contractOk: bool, level: Level, allowed: bool): HookResult {
    if mode == Enforce && !contractOk then ErrorResult(ContractViolation, Fatal)
    else if (mode == Warn || mode == Shadow) && !contractOk then
      HookResult(true, Some(ContractWarning), WarningLevel(mode), None)
    else HookResult(true, None, level, Some(allowed))
  }

  /** The loops' own test before they apply a patch; an entry without the key counts as allowed. */
  predicate Applies(r: HookResult, v: HookValue) {
    v.Patch? && r.ok && (r.patchAllowed.Some? ==> r.patchAllowed.value)
  }

  predicate Blocking(r: HookResult) { !r.ok && r.level == Fatal }

  /** Which patches reach the payload, in the terms of the contract: the payload must be the target,
      the point must take patches, shadow mode takes none, and enforcement also wants the call itself
      to meet its contract. */
  lemma PatchAppliesExactlyWhen(mode: ContractMode, point: HookPoint, payloadOk: bool, v: HookValue)
    ensures Applies(Judge(mode, point, payloadOk, v), v) <==>
      v.Patch? && v.target == "payload" && AllowsPatch(point) && mode != Shadow && (mode == Enforce ==> payloadOk)
  {
  }

  /** Which results are entered as fatal errors: only under enforcement, and then every stray patch,
      every fatal rejection, every foreign value and every call that misses required fields. Whether
      anything acts on such an entry is up to the caller of the round. */
  lemma BlocksExactlyWhen(mode: ContractMode, point: HookPoint, payloadOk: bool, v: HookValue)
    ensures Blocking(Judge(mode, point, payloadOk, v)) <==>
      mode == Enforce &&
      (!payloadOk || v.Foreign? || Rejects(v) || (v.Patch? && (v.target != "payload" || !AllowsPatch(point))))
    ensures Blocking(Judge(mode, point, payloadOk, v)) <==> !Judge(mode, point, payloadOk, v).ok
  {
  }

  // ---------------------------------------------------------------- a round of callbacks

  /** Where a round stands: its results, the payload, and the layer of an escaped exception. */
  datatype Round = Round(results: seq<HookResult>, payload: Option<Draft>, escaped: Option<string>)

  /** Outside legacy mode every callback is shown the payload as it was on entry. */
  function Shown(mode: ContractMode, entry: Option<Draft>, current: Option<Draft>): Option<Draft> {
    if mode == Legacy then current else entry
  }

  /** What a callback makes of the payload just by running. */
  function AfterWrites(mode: ContractMode, payload: Option<Draft>, cb: Callback): Option<Draft> {
    if mode == Legacy && payload.Some? then Some(cb.leaves(payload.value)) else payload
  }

  function Patched(payload: Option<Draft>, v: HookValue): Option<Draft>
    requires v.Patch?
  {
    if payload.None? then None else Some(payload.value + v.updates)
  }

  function Turn(mode: ContractMode, point: HookPoint, payloadOk: bool, awaits: bool, entry: Option<Draft>,
                before: Round, cb: Callback)
    : Round
  {
    if cb.isAsync && !awaits then before.(results := before.results + [ErrorResult(AsyncRequired, Soft)])
    else
      var written := before.(payload := AfterWrites(mode, before.payload, cb));
      match cb.run(Shown(mode, entry, before.payload))
      case TimedOut => written.(results := before.results + [ErrorResult(HookTimeout, Soft)])
      case Raised => written.(results := before.results + [ErrorResult(RuntimeFailure, Soft)])
      case Security(layer) => written.(escaped := Some(layer))
      case Value(v) =>
        var r := Judge(mode, point, payloadOk, v);
        written.(results := before.results + [r],
                 payload := if Applies(r, v) then Patched(written.payload, v) else written.payload)
  }

  /** The isolated loop; `awaits` tells the asynchronous variant, which can await coroutine callbacks. */
  function Rounds(mode: ContractMode, point: HookPoint, payloadOk: bool, awaits: bool, entry: Option<Draft>,
                  cbs: seq<Callback>)
    : Round
  {
    if cbs == [] then Round([], entry, None)
    else
      var before := Rounds(mode, point, payloadOk, awaits, entry, cbs[..|cbs| - 1]);
      if before.escaped.Some? then before
      else Turn(mode, point, payloadOk, awaits, entry, before, cbs[|cbs| - 1])
  }

  lemma RoundsOneMore(mode: ContractMode, point: HookPoint, payloadOk: bool, awaits: bool, entry: Option<Draft>,
                      cbs: seq<Callback>, i: nat)
    requires i < |cbs| && Rounds(mode, point, payloadOk, awaits, entry, cbs[..i]).escaped == None
    ensures var before := Rounds(mode, point, payloadOk, awaits, entry, cbs[..i]);
      Rounds(mode, point, payloadOk, awaits, entry, cbs[..i + 1]) ==
        Turn(mode, point, payloadOk, awaits, entry, before, cbs[i])
  {
    assert cbs[..i + 1][..i] == cbs[..i];
  }

  lemma {:induction false} EscapeStands(mode: ContractMode, point: HookPoint, payloadOk: bool, awaits: bool,
                                        entry: Option<Draft>, cbs: seq<Callback>, k: nat)
    requires k <= |cbs| && Rounds(mode, point, payloadOk, awaits, entry, cbs[..k]).escaped.Some?
    ensures Rounds(mode, point, payloadOk, awaits, entry, cbs) == Rounds(mode, point, payloadOk, awaits, entry, cbs[..k])
    decreases |cbs|
  {
    if k < |cbs| {
      assert cbs[..|cbs| - 1][..k] == cbs[..k];
      EscapeStands(mode, point, payloadOk, awaits, entry, cbs[..|cbs| - 1], k);
    } else {
      assert cbs[..k] == cbs;
    }
  }

  /** The status an isolated run leaves in the trace. */
  function TraceToken(r: HookResult): string { if r.ok then "ok" else "degraded" }

  function TraceTokens(results: seq<HookResult>): seq<string> {
    seq(|results|, i requires 0 <= i < |results| => TraceToken(results[i]))
  }

  // ---------------------------------------------------------------- the manager

  /** The caller's payload dictionary, patched in place. */
  class PayloadDict {
    var fields: Draft

    constructor (fields: Draft)
      ensures this.fields == fields
    {
      this.fields := fields;
    }

    /** `apply_hook_patch`, one key at a time. */
    method Apply(updates: Draft)
      modifies this
      ensures fields == old(fields) + updates
    {
      var left := updates.Keys;
      while left != {}
        invariant left <= updates.Keys
        invariant fields == old(fields) + map k | k in updates && k !in left :: updates[k]
        decreases |left|
      {
        var key :| key in left;
        fields := fields[key := updates[key]];
        left := left - {key};
      }
      assert (map k | k in updates && k !in left :: updates[k]) == updates;
    }
  }

  function Contents(payload: Option<PayloadDict>): Option<Draft>
    reads if payload.Some? then {payload.value} else {}
  {
    if payload.Some? then Some(payload.value.fields) else None
  }

  class HookManager {
    const mode: ContractMode
    var registry: map<HookPoint, seq<Callback>>

    constructor (mode: ContractMode)
      ensures this.mode == mode && registry == map[]
    {
      this.mode := mode;
      registry := map[];
    }

    function Callbacks(point: HookPoint): seq<Callback>
      reads this
    {
      if point in registry then registry[point] else []
    }

    method RegisterHook(point: HookPoint, cb: Callback)
      modifies this
      ensures Callbacks(point) == old(Callbacks(point)) + [cb]
      ensures forall other :: other != point ==> Callbacks(other) == old(Callbacks(other))
    {
      registry := registry[point := (if point in registry then registry[point] else []) + [cb]];
    }

    /** What an isolated run amounts to, given the names of its keyword arguments. */
    function Outcome(point: HookPoint, names: set<string>, awaits: bool, entry: Option<Draft>): Round
      reads this
    {
      Rounds(mode, point, RequiredFields(point) <= names, awaits, entry, Callbacks(point))
    }

    method InvokeHooksIsolated(point: HookPoint, names: set<string>, payload: Option<PayloadDict>)
      returns (results: seq<HookResult>, escaped: Option<string>)
      modifies if payload.Some? then {payload.value} else {}
      ensures Round(results, Contents(payload), escaped) == old(Outcome(point, names, false, Contents(payload)))
    {
      results, escaped := Loop(point, names, payload, false);
    }

    /** The asynchronous entry hands over to the synchronous one when no callback is a coroutine. */
    method AinvokeHooksIsolated(point: HookPoint, names: set<string>, payload: Option<PayloadDict>)
      returns (results: seq<HookResult>, escaped: Option<string>)
      modifies if payload.Some? then {payload.value} else {}
      ensures Round(results, Contents(payload), escaped) == old(Outcome(point, names, true, Contents(payload)))
    {
      var callbacks := Callbacks(point);
      if forall i :: 0 <= i < |callbacks| ==> !callbacks[i].isAsync {
        SyncAndAsyncAgree(mode, point, RequiredFields(point) <= names, Contents(payload), callbacks);
        results, escaped := InvokeHooksIsolated(point, names, payload);
      } else {
        results, escaped := Loop(point, names, payload, true);
      }
    }

    method Loop(point: HookPoint, names: set<string>, payload: Option<PayloadDict>, awaits: bool)
      returns (results: seq<HookResult>, escaped: Option<string>)
      modifies if payload.Some? then {payload.value} else {}
      ensures Round(results, Contents(payload), escaped) == old(Outcome(point, names, awaits, Contents(payload)))
    {
      var callbacks := Callbacks(point);
      var payloadOk := RequiredFields(point) <= names;
      var entry := Contents(payload);
      results, escaped := [], None;
      for i := 0 to |callbacks|
        invariant escaped == None
        invariant Round(results, Contents(payload), None) == Rounds(mode, point, payloadOk, awaits, entry, callbacks[..i])
      {
        results, escaped := OneTurn(point, payloadOk, awaits, entry, results, payload, callbacks, i);
        if escaped.Some? {
          EscapeStands(mode, point, payloadOk, awaits, entry, callbacks, i + 1);
          return;
        }
      }
      assert callbacks[..|callbacks|] == callbacks;
    }

    /** One turn of the loop: run callback `i` and judge what it returns. */
    method OneTurn(point: HookPoint, payloadOk: bool, awaits: bool, entry: Option<Draft>, before: seq<HookResult>,
                   payload: Option<PayloadDict>, callbacks: seq<Callback>, i: nat)
      returns (results: seq<HookResult>, escaped: Option<string>)
      requires i < |callbacks|
      requires Round(before, Contents(payload), None) == Rounds(mode, point, payloadOk, awaits, entry, callbacks[..i])
      modifies if payload.Some? then {payload.value} else {}
      ensures Round(results, Contents(payload), escaped) == Rounds(mode, point, payloadOk, awaits, entry, callbacks[..i + 1])
    {
      var cb := callbacks[i];
      RoundsOneMore(mode, point, payloadOk, awaits, entry, callbacks, i);
      results, escaped := before, None;
      if cb.isAsync && !awaits {
        results := results + [ErrorResult(AsyncRequired, Soft)];
        return;
      }
      var out := cb.run(Shown(mode, entry, Contents(payload)));
      if mode == Legacy && payload.Some? {
        payload.value.fields := cb.leaves(payload.value.fields);
      }
      match out {
        case TimedOut => results := results + [ErrorResult(HookTimeout, Soft)];
        case Raised => results := results + [ErrorResult(RuntimeFailure, Soft)];
        case Security(layer) => escaped := Some(layer);
        case Value(v) =>
          var r := Judge(mode, point, payloadOk, v);
          results := results + [r];
          if payload.Some? && Applies(r, v) {
            payload.value.Apply(v.updates);
          }
      }
    }
  }

  /** Without coroutine callbacks the two variants cannot be told apart. */
  lemma {:induction false} SyncAndAsyncAgree(mode: ContractMode, point: HookPoint, payloadOk: bool,
                                             entry: Option<Draft>, cbs: seq<Callback>)
    requires forall i :: 0 <= i < |cbs| ==> !cbs[i].isAsync
    ensures Rounds(mode, point, payloadOk, false, entry, cbs) == Rounds(mode, point, payloadOk, true, entry, cbs)
  {
    if cbs != [] {
      SyncAndAsyncAgree(mode, point, payloadOk, entry, cbs[..|cbs| - 1]);
    }
  }

  // ---------------------------------------------------------------- judging, word by word

  /** The text spells the word, in either case; the Kelvin sign is a k. */
  predicate Spells(text: string, word: string) {
    |text| == |word| && forall i :: 0 <= i < |word| ==> SpellsChar(text[i], word[i])
  }

  predicate SpellsChar(c: char, letter: char) {
    || c == letter
    || ('a' <= letter <= 'z' && c as int == letter as int - 32)
    || (letter == 'k' && c as int == 0x212A)
  }

  lemma LowerSpells(text: string, word: string)
    requires forall i :: 0 <= i < |word| ==> 'a' <= word[i] <= 'z'
    ensures Lower(text) == word <==> Spells(text, word)
  {
    if Lower(text) == word {
      forall i | 0 <= i < |word| ensures SpellsChar(text[i], word[i]) {
        assert word[i] == LowerChar(text[i]);
      }
    }
  }

  /** A result rejects exactly when it is a decision at level "fatal" whose status spells one of three words. */
  lemma RejectsExactlyWhen(v: HookValue)
    ensures Rejects(v) <==>
      v.Decision? && v.failureLevel == "fatal"
      && (Spells(v.status, "reject") || Spells(v.status, "rejected") || Spells(v.status, "blocked"))
  {
    if v.Decision? {
      LowerSpells(v.status, "reject");
      LowerSpells(v.status, "rejected");
      LowerSpells(v.status, "blocked");
    }
  }

  predicate TakesPatches(mode: ContractMode, point: HookPoint) {
    mode != Shadow && (point == PreValidate || point == PreSimulation)
  }

  /** The entry made of a patch on something else than the payload, and of one on the payload where none is
      taken. Legacy mode has no entry of its own for the latter: it is entered as any other result. */
  lemma StrayPatchEntered(mode: ContractMode, point: HookPoint, ok: bool, v: HookValue)
    requires v.Patch? && (v.target != "payload" || !TakesPatches(mode, point))
    ensures var r := Judge(mode, point, ok, v);
      match mode
      case Enforce =>
        r == HookResult(false, Some(if v.target != "payload" then PatchTargetForbidden else PatchForbidden), Fatal, None)
      case Warn =>
        r == HookResult(true, Some(if v.target != "payload" then PatchTargetWarning else PatchForbiddenWarning),
                        ObserveOnly, Some(false))
      case Shadow =>
        r == HookResult(true, Some(if v.target != "payload" then PatchTargetWarning else PatchForbiddenWarning),
                        ShadowOnly, Some(false))
      case Legacy =>
        r == if v.target != "payload" then HookResult(true, Some(PatchTargetWarning), ObserveOnly, Some(false))
             else HookResult(true, None, Soft, Some(false))
  {
  }

  /** The entry made of every other result: a fatal rejection under enforcement, a breach of contract by the
      call or the type of the result, or a clean entry at the level the decision asks for. */
  lemma OtherResultEntered(mode: ContractMode, point: HookPoint, ok: bool, v: HookValue)
    requires v.Patch? ==> v.target == "payload" && TakesPatches(mode, point)
    ensures var r := Judge(mode, point, ok, v);
      if mode == Enforce && Rejects(v) then r == HookResult(false, Some(DecisionRejected), Fatal, None)
      else if (ok && !v.Foreign?) || mode == Legacy then
        r == HookResult(true, None,
                        if v.Decision? && v.failureLevel == "fatal" then Fatal
                        else if v.Decision? && v.failureLevel == "observe_only" then ObserveOnly else Soft,
                        Some(true))
      else
        match mode
        case Enforce => r == HookResult(false, Some(ContractViolation), Fatal, None)
        case Warn => r == HookResult(true, Some(ContractWarning), ObserveOnly, None)
        case Shadow => r == HookResult(true, Some(ContractWarning), ShadowOnly, None)
        case Legacy => true
  {
  }

  /** What a round enters for a callback that does not come back with a value. */
  lemma NoValueEntered(mode: ContractMode, point: HookPoint, ok: bool, awaits: bool, entry: Option<Draft>, before: Round,
                       cb: Callback)
    ensures var after := Turn(mode, point, ok, awaits, entry, before, cb);
      var out := cb.run(if mode == Legacy then before.payload else entry);
      if cb.isAsync && !awaits then
        after == before.(results := before.results + [HookResult(false, Some(AsyncRequired), Soft, None)])
      else if out.TimedOut? then
        && after.results == before.results + [HookResult(false, Some(HookTimeout), Soft, None)]
        && after.escaped == before.escaped
      else if out.Raised? then
        && after.results == before.results + [HookResult(false, Some(RuntimeFailure), Soft, None)]
        && after.escaped == before.escaped
      else if out.Security? then after.results == before.results && after.escaped == Some(out.layer)
      else |after.results| == |before.results| + 1 && after.escaped == before.escaped
  {
  }

  /** The fields each point must be called with. */
  lemma FieldsByPoint(point: HookPoint, names: set<string>)
    ensures point in {PreValidate, PostValidate, PreSimulation} ==>
      (RequiredFields(point) <= names <==> "intent" in names && "payload" in names)
    ensures point == PostSimulation ==>
      (RequiredFields(point) <= names <==> "intent" in names && "payload" in names && "simulation" in names)
    ensures point == LayerL4 ==>
      (RequiredFields(point) <= names <==> "layer" in names && "block_number" in names && "mode" in names)
    ensures point == LayerL5 ==>
      (RequiredFields(point) <= names <==> "layer" in names && "block_number" in names && "simulation" in names)
    ensures point == MulticallPack ==> (RequiredFields(point) <= names <==> "encoded" in names && "subcall_count" in names)
    ensures point in {OnAuditLog, RpcFallback, LayerL1, LayerL2, LayerL3} ==> RequiredFields(point) <= names
  {
  }
}
