/** What a whole round of callbacks does to the payload. */
module HookFold {
  import opened Common
  import opened Hooks

  /** The loop will run this callback rather than report that it needs the asynchronous entry. */
  predicate Runs(awaits: bool, cb: Callback) { awaits || !cb.isAsync }

  predicate Escapes(awaits: bool, shown: Option<Draft>, cb: Callback) {
    Runs(awaits, cb) && cb.run(shown).Security?
  }

  /** The updates a callback gets through: a patch on the payload, where and when patches are taken. */
  function Contribution(mode: ContractMode, point: HookPoint, payloadOk: bool, awaits: bool, shown: Option<Draft>,
                        cb: Callback)
    : Option<Draft>
  {
    if !Runs(awaits, cb) || !AllowsPatch(point) || mode == Shadow || (mode == Enforce && !payloadOk) then None
    else
      match cb.run(shown)
      case Value(Patch(updates, target)) => if target == "payload" then Some(updates) else None
      case _ => None
  }

  function Contributions(mode: ContractMode, point: HookPoint, payloadOk: bool, awaits: bool, entry: Option<Draft>,
                         cbs: seq<Callback>)
    : seq<Draft>
  {
    if cbs == [] then []
    else
      var n := |cbs| - 1;
      var last := Contribution(mode, point, payloadOk, awaits, entry, cbs[n]);
      Contributions(mode, point, payloadOk, awaits, entry, cbs[..n]) + (if last.Some? then [last.value] else [])
  }

  /** Patches applied one after the other. */
  function Fold(base: Draft, patches: seq<Draft>): Draft {
    if patches == [] then base else Fold(base, patches[..|patches| - 1]) + patches[|patches| - 1]
  }

  function FoldOption(base: Option<Draft>, patches: seq<Draft>): Option<Draft> {
    if base.None? then None else Some(Fold(base.value, patches))
  }

  /** Callback `n` is the first whose security exception escapes, or `n` callbacks is all there are. */
  ghost predicate StopsAt(awaits: bool, entry: Option<Draft>, cbs: seq<Callback>, n: nat) {
    && n <= |cbs|
    && (forall i :: 0 <= i < n ==> !Escapes(awaits, entry, cbs[i]))
    && (n < |cbs| ==> Escapes(awaits, entry, cbs[n]))
  }

  /** One turn, in terms of contributions. */
  lemma TurnContributes(mode: ContractMode, point: HookPoint, payloadOk: bool, awaits: bool, entry: Option<Draft>,
                        before: Round, cb: Callback)
    requires mode != Legacy && !Escapes(awaits, entry, cb) && before.escaped == None
    ensures var after := Turn(mode, point, payloadOk, awaits, entry, before, cb);
      var update := Contribution(mode, point, payloadOk, awaits, entry, cb);
      && after.escaped == None && |after.results| == |before.results| + 1
      && after.payload == if update.None? || before.payload.None? then before.payload
                          else Some(before.payload.value + update.value)
  {
    if Runs(awaits, cb) && cb.run(entry).Value? {
      PatchAppliesExactlyWhen(mode, point, payloadOk, cb.run(entry).v);
    }
  }

  /** The round that runs to the end of `cbs`. */
  lemma {:induction false} FullRound(mode: ContractMode, point: HookPoint, payloadOk: bool, awaits: bool,
                                     entry: Option<Draft>, cbs: seq<Callback>)
    requires mode != Legacy && StopsAt(awaits, entry, cbs, |cbs|)
    ensures var round := Rounds(mode, point, payloadOk, awaits, entry, cbs);
      && round.escaped == None && |round.results| == |cbs|
      && round.payload == FoldOption(entry, Contributions(mode, point, payloadOk, awaits, entry, cbs))
  {
    if cbs != [] {
      var n := |cbs| - 1;
      assert StopsAt(awaits, entry, cbs[..n], n) by {
        assert forall i :: 0 <= i < n ==> cbs[..n][i] == cbs[i];
      }
      FullRound(mode, point, payloadOk, awaits, entry, cbs[..n]);
      var before := Rounds(mode, point, payloadOk, awaits, entry, cbs[..n]);
      TurnContributes(mode, point, payloadOk, awaits, entry, before, cbs[n]);
      var update := Contribution(mode, point, payloadOk, awaits, entry, cbs[n]);
      if update.Some? {
        var earlier := Contributions(mode, point, payloadOk, awaits, entry, cbs[..n]);
        assert (earlier + [update.value])[..|earlier|] == earlier;
      } else {
        assert Contributions(mode, point, payloadOk, awaits, entry, cbs[..n]) + [] ==
               Contributions(mode, point, payloadOk, awaits, entry, cbs[..n]);
      }
    }
  }

  /** After a round under a contract, synchronous or not, the payload is the payload on entry with the
      contributions of the callbacks applied in order. When a security exception escapes, exactly the
      contributions before it remain. */
  lemma PayloadIsFold(mode: ContractMode, point: HookPoint, payloadOk: bool, awaits: bool, entry: Option<Draft>,
                      cbs: seq<Callback>, n: nat)
    requires mode != Legacy && StopsAt(awaits, entry, cbs, n)
    ensures var round := Rounds(mode, point, payloadOk, awaits, entry, cbs);
      && round.payload == FoldOption(entry, Contributions(mode, point, payloadOk, awaits, entry, cbs[..n]))
      && |round.results| == n
      && round.escaped == if n < |cbs| then Some(cbs[n].run(entry).layer) else None
  {
    var ran := cbs[..n];
    assert StopsAt(awaits, entry, ran, |ran|) by {
      assert forall i :: 0 <= i < n ==> ran[i] == cbs[i];
    }
    FullRound(mode, point, payloadOk, awaits, entry, ran);
    if n < |cbs| {
      RoundsOneMore(mode, point, payloadOk, awaits, entry, cbs, n);
      EscapingTurn(mode, point, payloadOk, awaits, entry, Rounds(mode, point, payloadOk, awaits, entry, ran), cbs[n]);
      EscapeStands(mode, point, payloadOk, awaits, entry, cbs, n + 1);
    } else {
      assert ran == cbs;
    }
  }

  lemma EscapingTurn(mode: ContractMode, point: HookPoint, payloadOk: bool, awaits: bool, entry: Option<Draft>,
                     before: Round, cb: Callback)
    requires mode != Legacy && Escapes(awaits, entry, cb)
    ensures Turn(mode, point, payloadOk, awaits, entry, before, cb) == before.(escaped := Some(cb.run(entry).layer))
  {
  }

  /** Whatever a key ends up with was written by the last contribution that has the key; keys no
      contribution has keep what they had. */
  lemma {:induction false} LastWriterWins(base: Draft, patches: seq<Draft>, key: string, i: nat)
    requires i < |patches| ==> key in patches[i]
    requires forall j :: i < j < |patches| ==> key !in patches[j]
    requires i >= |patches| ==> forall j :: 0 <= j < |patches| ==> key !in patches[j]
    ensures i < |patches| ==> key in Fold(base, patches) && Fold(base, patches)[key] == patches[i][key]
    ensures i >= |patches| ==> (key in Fold(base, patches) <==> key in base)
    ensures i >= |patches| && key in base ==> Fold(base, patches)[key] == base[key]
    decreases |patches|
  {
    if patches != [] && i != |patches| - 1 {
      LastWriterWins(base, patches[..|patches| - 1], key, i);
    }
  }

  /** What one turn can do, whatever the mode. */
  lemma TurnEffects(mode: ContractMode, point: HookPoint, payloadOk: bool, awaits: bool, entry: Option<Draft>,
                    before: Round, cb: Callback)
    ensures var after := Turn(mode, point, payloadOk, awaits, entry, before, cb);
      && before.results <= after.results && |after.results| <= |before.results| + 1
      && (mode == Shadow || (mode != Legacy && !AllowsPatch(point)) ==> after.payload == before.payload)
      && (|after.results| > |before.results| && Blocking(after.results[|before.results|]) ==> mode == Enforce)
  {
    if Runs(awaits, cb) && cb.run(Shown(mode, entry, before.payload)).Value? {
      var v := cb.run(Shown(mode, entry, before.payload)).v;
      PatchAppliesExactlyWhen(mode, point, payloadOk, v);
      BlocksExactlyWhen(mode, point, payloadOk, v);
    }
  }

  /** Under a contract, shadow mode and every point but the two that take patches leave the payload alone. */
  lemma {:induction false} PayloadUnchanged(mode: ContractMode, point: HookPoint, payloadOk: bool, awaits: bool,
                                            entry: Option<Draft>, cbs: seq<Callback>)
    requires mode == Shadow || (mode != Legacy && !AllowsPatch(point))
    ensures Rounds(mode, point, payloadOk, awaits, entry, cbs).payload == entry
  {
    if cbs != [] {
      var n := |cbs| - 1;
      PayloadUnchanged(mode, point, payloadOk, awaits, entry, cbs[..n]);
      TurnEffects(mode, point, payloadOk, awaits, entry, Rounds(mode, point, payloadOk, awaits, entry, cbs[..n]), cbs[n]);
    }
  }

  ghost predicate NoneBlocks(results: seq<HookResult>) {
    forall i :: 0 <= i < |results| ==> !Blocking(results[i])
  }

  /** Only enforcement can block; a timeout or a failing callback never does. */
  lemma {:induction false} OnlyEnforcementBlocks(mode: ContractMode, point: HookPoint, payloadOk: bool, awaits: bool,
                                                 entry: Option<Draft>, cbs: seq<Callback>)
    requires mode != Enforce
    ensures NoneBlocks(Rounds(mode, point, payloadOk, awaits, entry, cbs).results)
  {
    if cbs != [] {
      var n := |cbs| - 1;
      OnlyEnforcementBlocks(mode, point, payloadOk, awaits, entry, cbs[..n]);
      TurnEffects(mode, point, payloadOk, awaits, entry, Rounds(mode, point, payloadOk, awaits, entry, cbs[..n]), cbs[n]);
    }
  }

  lemma TurnSeesEntry(mode: ContractMode, point: HookPoint, payloadOk: bool, awaits: bool, entry: Option<Draft>,
                      before: Round,
                      cb: Callback, other: Callback)
    requires mode != Legacy && cb.isAsync == other.isAsync && cb.run(entry) == other.run(entry)
    ensures Turn(mode, point, payloadOk, awaits, entry, before, cb) ==
            Turn(mode, point, payloadOk, awaits, entry, before, other)
  {
  }

  /** Under a contract a callback cannot tell what the callbacks before it did: the round depends only
      on what each callback makes of the payload on entry. */
  lemma {:induction false} OnlyEntryIsSeen(mode: ContractMode, point: HookPoint, payloadOk: bool, awaits: bool,
                                           entry: Option<Draft>,
                                           cbs: seq<Callback>, others: seq<Callback>)
    requires mode != Legacy && |cbs| == |others|
    requires forall i :: 0 <= i < |cbs| ==>
      cbs[i].isAsync == others[i].isAsync && cbs[i].run(entry) == others[i].run(entry)
    ensures Rounds(mode, point, payloadOk, awaits, entry, cbs) == Rounds(mode, point, payloadOk, awaits, entry, others)
  {
    if cbs != [] {
      var n := |cbs| - 1;
      OnlyEntryIsSeen(mode, point, payloadOk, awaits, entry, cbs[..n], others[..n]);
      var before := Rounds(mode, point, payloadOk, awaits, entry, cbs[..n]);
      TurnSeesEntry(mode, point, payloadOk, awaits, entry, before, cbs[n], others[n]);
    }
  }

  // ---------------------------------------------------------------- who blocks

  /** A callback whose result is entered as a fatal error under enforcement. */
  predicate Offends(point: HookPoint, awaits: bool, shown: Option<Draft>, cb: Callback) {
    Runs(awaits, cb) && cb.run(shown).Value? &&
    var v := cb.run(shown).v;
    v.Foreign? || Rejects(v) || (v.Patch? && (v.target != "payload" || !AllowsPatch(point)))
  }

  lemma TurnOffends(point: HookPoint, awaits: bool, entry: Option<Draft>, before: Round, cb: Callback)
    requires !Escapes(awaits, entry, cb)
    ensures var after := Turn(Enforce, point, true, awaits, entry, before, cb);
      && |after.results| == |before.results| + 1 && before.results <= after.results
      && (Blocking(after.results[|before.results|]) <==> Offends(point, awaits, entry, cb))
  {
    if Runs(awaits, cb) && cb.run(entry).Value? {
      BlocksExactlyWhen(Enforce, point, true, cb.run(entry).v);
    }
  }

  /** Result by result: a round that runs to its end under enforcement, on a call that meets its
      contract, has a fatal entry exactly where a callback offends. */
  lemma {:induction false} FatalExactlyWhere(point: HookPoint, awaits: bool, entry: Option<Draft>, cbs: seq<Callback>,
                                             i: nat)
    requires StopsAt(awaits, entry, cbs, |cbs|) && i < |cbs|
    ensures var results := Rounds(Enforce, point, true, awaits, entry, cbs).results;
      |results| == |cbs| && (Blocking(results[i]) <==> Offends(point, awaits, entry, cbs[i]))
  {
    var n := |cbs| - 1;
    var before := Rounds(Enforce, point, true, awaits, entry, cbs[..n]);
    assert StopsAt(awaits, entry, cbs[..n], n) by {
      assert forall k :: 0 <= k < n ==> cbs[..n][k] == cbs[k];
    }
    FullRound(Enforce, point, true, awaits, entry, cbs[..n]);
    TurnOffends(point, awaits, entry, before, cbs[n]);
    if i < n {
      FatalExactlyWhere(point, awaits, entry, cbs[..n], i);
    }
  }

  // ---------------------------------------------------------------- legacy mode

  /** What callbacks that are handed the live dictionary make of it, one after the other. */
  function Left(awaits: bool, d: Draft, cbs: seq<Callback>): Draft {
    if cbs == [] then d
    else
      var n := |cbs| - 1;
      var before := Left(awaits, d, cbs[..n]);
      if Runs(awaits, cbs[n]) then cbs[n].leaves(before) else before
  }

  /** Where no patch is taken, a legacy round does to the payload what its callbacks write. */
  lemma {:induction false} LegacyRoundLeaves(point: HookPoint, payloadOk: bool, awaits: bool, d: Draft, cbs: seq<Callback>)
    requires !AllowsPatch(point) && Rounds(Legacy, point, payloadOk, awaits, Some(d), cbs).escaped == None
    ensures Rounds(Legacy, point, payloadOk, awaits, Some(d), cbs).payload == Some(Left(awaits, d, cbs))
  {
    if cbs != [] {
      var n := |cbs| - 1;
      LegacyRoundLeaves(point, payloadOk, awaits, d, cbs[..n]);
      var before := Rounds(Legacy, point, payloadOk, awaits, Some(d), cbs[..n]);
      LegacyTurnLeaves(point, payloadOk, awaits, Some(d), before, cbs[n]);
    }
  }

  lemma LegacyTurnLeaves(point: HookPoint, payloadOk: bool, awaits: bool, entry: Option<Draft>, before: Round, cb: Callback)
    requires !AllowsPatch(point)
    ensures Turn(Legacy, point, payloadOk, awaits, entry, before, cb).payload ==
            if Runs(awaits, cb) then AfterWrites(Legacy, before.payload, cb) else before.payload
  {
    if Runs(awaits, cb) && cb.run(before.payload).Value? {
      PatchAppliesExactlyWhen(Legacy, point, payloadOk, cb.run(before.payload).v);
    }
  }

  /** Callbacks that never write leave every draft as it is. */
  lemma {:induction false} QuietCallbacksLeave(awaits: bool, d: Draft, cbs: seq<Callback>)
    requires forall i :: 0 <= i < |cbs| ==> cbs[i].leaves(d) == d
    ensures Left(awaits, d, cbs) == d
  {
    if cbs != [] {
      QuietCallbacksLeave(awaits, d, cbs[..|cbs| - 1]);
    }
  }
}
