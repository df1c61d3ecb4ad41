/** Circuit-breaker bookkeeping for RPC endpoints, and its behaviour when rounds overlap. */
module CircuitBreaker {
  type Url = string

  const FAILURE_THRESHOLD: nat := 3
  const COOLDOWN_SECONDS: real := 60.0

  /** The three dictionaries; a missing key reads as 0 failures, closed, cooldown over. */
  datatype Breaker = Breaker(failures: map<Url, nat>, open: map<Url, bool>, cooldownUntil: map<Url, real>)

  const FreshBreaker: Breaker := Breaker(map[], map[], map[])

  function FailuresOf(b: Breaker, u: Url): nat { if u in b.failures then b.failures[u] else 0 }

  predicate IsOpen(b: Breaker, u: Url) { u in b.open && b.open[u] }

  function CooldownOf(b: Breaker, u: Url): real { if u in b.cooldownUntil then b.cooldownUntil[u] else 0.0 }

  function AfterFailure(b: Breaker, u: Url, now: real): Breaker {
    var n := FailuresOf(b, u) + 1;
    var counted := b.(failures := b.failures[u := n]);
    if n >= FAILURE_THRESHOLD
    then counted.(open := b.open[u := true], cooldownUntil := b.cooldownUntil[u := now + COOLDOWN_SECONDS])
    else counted
  }

  function AfterSuccess(b: Breaker, u: Url, now: real): Breaker {
    if now < CooldownOf(b, u) then b
    else b.(failures := b.failures[u := 0], open := b.open[u := false])
  }

  /** One endpoint's result as it is recorded: did it report a height, and when was the clock read. */
  datatype Reading = Reading(url: Url, reported: bool, at: real)

  function AfterReading(b: Breaker, r: Reading): Breaker {
    if r.reported then AfterSuccess(b, r.url, r.at) else AfterFailure(b, r.url, r.at)
  }

  function AfterReadings(b: Breaker, rs: seq<Reading>): Breaker {
    if rs == [] then b else AfterReading(AfterReadings(b, rs[..|rs| - 1]), rs[|rs| - 1])
  }

  function Eligible(b: Breaker, urls: seq<Url>): seq<Url> {
    if urls == [] then []
    else (if IsOpen(b, urls[0]) then [] else [urls[0]]) + Eligible(b, urls[1..])
  }

  lemma {:induction false} EligibleAreClosed(b: Breaker, urls: seq<Url>)
    ensures forall u :: u in Eligible(b, urls) <==> u in urls && !IsOpen(b, u)
  {
    if urls != [] {
      EligibleAreClosed(b, urls[1..]);
      assert urls == [urls[0]] + urls[1..];
    }
  }

  // ---------------------------------------------------------------- overlapping rounds

  /** What takes the lock: a round lists its endpoints, later records its readings or gives up on a
      quota error without recording, and an operator resets everything. */
  datatype Event =
    | Prepare(round: nat)
    | Record(round: nat, readings: seq<Reading>)
    | GiveUp(round: nat)
    | Reset

  datatype World = World(breaker: Breaker, inFlight: map<nat, seq<Url>>)

  function Urls(rs: seq<Reading>): seq<Url> {
    if rs == [] then [] else [rs[0].url] + Urls(rs[1..])
  }

  /** A round knows one outcome for each endpoint, however often the endpoint is configured. */
  predicate Consistent(rs: seq<Reading>) {
    forall i, j :: 0 <= i < j < |rs| && rs[i].url == rs[j].url ==> rs[i].reported == rs[j].reported
  }

  predicate Enabled(w: World, e: Event) {
    match e
    case Prepare(r) => r !in w.inFlight
    case Record(r, rs) => r in w.inFlight && Urls(rs) == w.inFlight[r] && Consistent(rs)
    case GiveUp(r) => r in w.inFlight
    case Reset => true
  }

  /** A prepare that finds every breaker open raises and starts no round. */
  function Next(urls: seq<Url>, w: World, e: Event): World {
    match e
    case Prepare(r) =>
      var eligible := Eligible(w.breaker, urls);
      if eligible == [] then w else w.(inFlight := w.inFlight[r := eligible])
    case Record(r, rs) => World(AfterReadings(w.breaker, rs), w.inFlight - {r})
    case GiveUp(r) => w.(inFlight := w.inFlight - {r})
    case Reset => w.(breaker := FreshBreaker)
  }

  function Run(urls: seq<Url>, w: World, events: seq<Event>): World {
    if events == [] then w else Next(urls, Run(urls, w, events[..|events| - 1]), events[|events| - 1])
  }

  ghost predicate Legal(urls: seq<Url>, w: World, events: seq<Event>) {
    forall i :: 0 <= i < |events| ==> Enabled(Run(urls, w, events[..i]), events[i])
  }

  /** An endpoint is open exactly when it has reached the failure threshold. */
  ghost predicate Coherent(b: Breaker) {
    forall u :: IsOpen(b, u) <==> FailuresOf(b, u) >= FAILURE_THRESHOLD
  }

  lemma {:induction false} ReadingsKeepCoherent(b: Breaker, rs: seq<Reading>)
    requires Coherent(b)
    ensures Coherent(AfterReadings(b, rs))
  {
    if rs != [] {
      var mid := AfterReadings(b, rs[..|rs| - 1]);
      ReadingsKeepCoherent(b, rs[..|rs| - 1]);
      var r := rs[|rs| - 1];
      forall u ensures IsOpen(AfterReading(mid, r), u) <==> FailuresOf(AfterReading(mid, r), u) >= FAILURE_THRESHOLD {
        assert IsOpen(mid, u) <==> FailuresOf(mid, u) >= FAILURE_THRESHOLD;
      }
    }
  }

  /** In every interleaving of rounds and resets, open means at least three counted failures. */
  lemma {:induction false} OpenIffThreshold(urls: seq<Url>, w: World, events: seq<Event>)
    requires Coherent(w.breaker)
    ensures Coherent(Run(urls, w, events).breaker)
  {
    if events != [] {
      var n := |events| - 1;
      OpenIffThreshold(urls, w, events[..n]);
      if events[n].Record? {
        ReadingsKeepCoherent(Run(urls, w, events[..n]).breaker, events[n].readings);
      }
    }
  }

  // ---------------------------------------------------------------- cooldown

  /** A reading that could close `u`: it reported, at `until` or later. */
  predicate LateSuccess(r: Reading, u: Url, until: real) {
    r.url == u && r.reported && r.at >= until
  }

  /** Every endpoint a reading opens gets a full cooldown from that moment. */
  lemma OpeningStartsCooldown(b: Breaker, r: Reading)
    requires Coherent(b) && !IsOpen(b, r.url) && IsOpen(AfterReading(b, r), r.url)
    ensures !r.reported && FailuresOf(b, r.url) == FAILURE_THRESHOLD - 1
    ensures CooldownOf(AfterReading(b, r), r.url) == r.at + COOLDOWN_SECONDS
  {
    assert FailuresOf(b, r.url) < FAILURE_THRESHOLD;
  }

  /** Open, with a cooldown that either reaches `until` or was renewed later than that. */
  predicate HeldUntil(b: Breaker, u: Url, until: real) { IsOpen(b, u) && CooldownOf(b, u) >= until }

  lemma {:induction false} ReadingsHold(b: Breaker, rs: seq<Reading>, u: Url, until: real)
    requires Coherent(b) && HeldUntil(b, u, until)
    requires forall i :: 0 <= i < |rs| ==> !LateSuccess(rs[i], u, until)
    requires forall i :: 0 <= i < |rs| ==> rs[i].at + COOLDOWN_SECONDS >= until
    ensures HeldUntil(AfterReadings(b, rs), u, until)
  {
    if rs != [] {
      var n := |rs| - 1;
      ReadingsHold(b, rs[..n], u, until);
      ReadingsKeepCoherent(b, rs[..n]);
      assert !LateSuccess(rs[n], u, until);
      assert FailuresOf(AfterReadings(b, rs[..n]), u) >= FAILURE_THRESHOLD;
    }
  }

  /** The clock never runs behind the moment `openedAt`. */
  ghost predicate NoEarlierThan(events: seq<Event>, openedAt: real) {
    forall i :: 0 <= i < |events| && events[i].Record? ==>
      forall k :: 0 <= k < |events[i].readings| ==> events[i].readings[k].at >= openedAt
  }

  ghost predicate Closes(e: Event, u: Url, until: real) {
    e.Reset? || (e.Record? && exists k :: 0 <= k < |e.readings| && LateSuccess(e.readings[k], u, until))
  }

  ghost predicate MayClose(events: seq<Event>, u: Url, until: real) {
    exists i :: 0 <= i < |events| && Closes(events[i], u, until)
  }

  /** An endpoint opened at time `openedAt` is closed only by a reset or by a success recorded at
      least sixty seconds later, however many rounds overlap. */
  lemma {:induction false} ClosedOnlyAfterCooldown(urls: seq<Url>, w: World, events: seq<Event>, u: Url, openedAt: real)
    requires Coherent(w.breaker) && IsOpen(w.breaker, u) && CooldownOf(w.breaker, u) == openedAt + COOLDOWN_SECONDS
    requires NoEarlierThan(events, openedAt)
    ensures HeldUntil(Run(urls, w, events).breaker, u, openedAt + COOLDOWN_SECONDS)
            || MayClose(events, u, openedAt + COOLDOWN_SECONDS)
  {
    if events != [] {
      var n := |events| - 1;
      var until := openedAt + COOLDOWN_SECONDS;
      var before, last := events[..n], events[n];
      assert forall i :: 0 <= i < n ==> before[i] == events[i];
      ClosedOnlyAfterCooldown(urls, w, before, u, openedAt);
      OpenIffThreshold(urls, w, before);
      if MayClose(before, u, until) {
        var i :| 0 <= i < n && Closes(before[i], u, until);
        assert Closes(events[i], u, until);
      } else if last.Record? && !Closes(last, u, until) {
        ReadingsHold(Run(urls, w, before).breaker, last.readings, u, until);
      }
    }
  }

  // ---------------------------------------------------------------- rounds that do not overlap

  /** Whoever prepares a round finds no other round in flight. */
  ghost predicate Sequential(urls: seq<Url>, w: World, events: seq<Event>) {
    forall i :: 0 <= i < |events| && events[i].Prepare? ==> Run(urls, w, events[..i]).inFlight == map[]
  }

  ghost predicate NoReset(events: seq<Event>) {
    forall i :: 0 <= i < |events| ==> !events[i].Reset?
  }

  /** Endpoints a round is asking about are still closed. */
  ghost predicate InFlightClosed(w: World) {
    && (forall a, b :: a in w.inFlight && b in w.inFlight ==> a == b)
    && forall r, u :: r in w.inFlight && u in w.inFlight[r] ==> !IsOpen(w.breaker, u)
  }

  lemma {:induction false} ReadingsLeaveOthers(b: Breaker, rs: seq<Reading>, u: Url)
    requires u !in Urls(rs)
    ensures IsOpen(AfterReadings(b, rs), u) == IsOpen(b, u)
  {
    if rs != [] {
      var n := |rs| - 1;
      UrlsAppend(rs[..n], rs[n]);
      assert rs == rs[..n] + [rs[n]];
      ReadingsLeaveOthers(b, rs[..n], u);
    }
  }

  lemma {:induction false} UrlsAppend(rs: seq<Reading>, r: Reading)
    ensures Urls(rs + [r]) == Urls(rs) + [r.url]
  {
    if rs != [] {
      assert (rs + [r])[1..] == rs[1..] + [r];
      UrlsAppend(rs[1..], r);
    } else {
      assert rs + [r] == [r];
    }
  }

  lemma SequentialStep(urls: seq<Url>, w: World, e: Event)
    requires InFlightClosed(w) && Enabled(w, e) && !e.Reset?
    requires e.Prepare? ==> w.inFlight == map[]
    ensures InFlightClosed(Next(urls, w, e))
    ensures forall u :: IsOpen(w.breaker, u) ==> IsOpen(Next(urls, w, e).breaker, u)
  {
    if e.Prepare? {
      EligibleAreClosed(w.breaker, urls);
    } else if e.Record? {
      forall u | IsOpen(w.breaker, u) ensures IsOpen(AfterReadings(w.breaker, e.readings), u) {
        ReadingsLeaveOthers(w.breaker, e.readings, u);
      }
    }
  }

  lemma {:induction false} SequentialRun(urls: seq<Url>, w: World, events: seq<Event>)
    requires w.inFlight == map[] && Legal(urls, w, events) && Sequential(urls, w, events) && NoReset(events)
    ensures InFlightClosed(Run(urls, w, events))
    ensures forall u :: IsOpen(w.breaker, u) ==> IsOpen(Run(urls, w, events).breaker, u)
  {
    if events != [] {
      var n := |events| - 1;
      var before := events[..n];
      assert forall i :: 0 <= i <= n ==> before[..i] == events[..i];
      assert forall i :: 0 <= i < n ==> before[i] == events[i];
      SequentialRun(urls, w, before);
      assert Enabled(Run(urls, w, events[..n]), events[n]);
      SequentialStep(urls, Run(urls, w, before), events[n]);
    }
  }

  /** With one round at a time there is no recovery: whatever the cooldown, the open set only grows
      between resets, so once every endpoint is open no further round can start. */
  lemma NoRecoveryWithoutOverlap(urls: seq<Url>, w: World, events: seq<Event>, round: nat)
    requires w.inFlight == map[] && Legal(urls, w, events) && Sequential(urls, w, events) && NoReset(events)
    ensures forall u :: IsOpen(w.breaker, u) ==> IsOpen(Run(urls, w, events).breaker, u)
    ensures (forall u :: u in urls ==> IsOpen(w.breaker, u)) ==>
      Next(urls, Run(urls, w, events), Prepare(round)) == Run(urls, w, events)
  {
    SequentialRun(urls, w, events);
    EligibleAreClosed(Run(urls, w, events).breaker, urls);
    var eligible := Eligible(Run(urls, w, events).breaker, urls);
    assert eligible != [] ==> eligible[0] in eligible;
  }

  // ---------------------------------------------------------------- when an endpoint recovers

  predicate HasLateSuccess(rs: seq<Reading>, u: Url, until: real) {
    exists k :: 0 <= k < |rs| && LateSuccess(rs[k], u, until)
  }

  lemma HasLateSuccessAppend(rs: seq<Reading>, r: Reading, u: Url, until: real)
    ensures HasLateSuccess(rs + [r], u, until) <==> HasLateSuccess(rs, u, until) || LateSuccess(r, u, until)
  {
    var all := rs + [r];
    if HasLateSuccess(rs, u, until) {
      var k :| 0 <= k < |rs| && LateSuccess(rs[k], u, until);
      assert all[k] == rs[k];
    }
    assert all[|rs|] == r;
  }

  lemma {:induction false} UrlsMembers(rs: seq<Reading>, k: nat)
    requires k < |rs|
    ensures |Urls(rs)| == |rs| && Urls(rs)[k] == rs[k].url
    decreases |rs|
  {
    if |rs| > 1 {
      UrlsMembers(rs[1..], if k > 0 then k - 1 else 0);
    }
  }

  /** Successes alone do not move a cooldown. */
  lemma {:induction false} SuccessesKeepCooldown(b: Breaker, rs: seq<Reading>, u: Url)
    requires forall k :: 0 <= k < |rs| && rs[k].url == u ==> rs[k].reported
    ensures CooldownOf(AfterReadings(b, rs), u) == CooldownOf(b, u)
  {
    if rs != [] {
      SuccessesKeepCooldown(b, rs[..|rs| - 1], u);
    }
  }

  /** The readings of one round close an open endpoint exactly when they hold a success of it at or after
      the end of its cooldown. */
  lemma {:induction false} ReadingsCloseExactlyWhen(b: Breaker, rs: seq<Reading>, u: Url)
    requires IsOpen(b, u) && Consistent(rs)
    ensures !IsOpen(AfterReadings(b, rs), u) <==> HasLateSuccess(rs, u, CooldownOf(b, u))
  {
    if rs != [] {
      var n := |rs| - 1;
      var before, last := rs[..n], rs[n];
      assert rs == before + [last];
      HasLateSuccessAppend(before, last, u, CooldownOf(b, u));
      ReadingsCloseExactlyWhen(b, before, u);
      if last.url == u && last.reported {
        SuccessesKeepCooldown(b, before, u);
      }
    }
  }

  /** One event closes an open endpoint if and only if it is a reset, or records a success of the endpoint
      at or after the end of its cooldown. */
  ghost predicate ClosesNow(w: World, e: Event, u: Url) {
    e.Reset? || (e.Record? && HasLateSuccess(e.readings, u, CooldownOf(w.breaker, u)))
  }

  lemma StepClosesExactlyWhen(urls: seq<Url>, w: World, e: Event, u: Url)
    requires Enabled(w, e) && IsOpen(w.breaker, u)
    ensures !IsOpen(Next(urls, w, e).breaker, u) <==> ClosesNow(w, e, u)
  {
    if e.Record? {
      ReadingsCloseExactlyWhen(w.breaker, e.readings, u);
    }
  }

  /** The round has neither recorded nor given up. */
  ghost predicate Pending(events: seq<Event>, round: nat) {
    forall i :: 0 <= i < |events| ==> !Ends(events[i], round)
  }

  predicate Ends(e: Event, round: nat) { (e.Record? && e.round == round) || (e.GiveUp? && e.round == round) }

  /** Open after the first `i` events. */
  predicate OpenAfter(urls: seq<Url>, w: World, events: seq<Event>, u: Url, i: nat)
    requires i <= |events|
  {
    IsOpen(Run(urls, w, events[..i]).breaker, u)
  }

  ghost predicate OpenThroughout(urls: seq<Url>, w: World, events: seq<Event>, u: Url) {
    forall i :: 0 <= i <= |events| ==> OpenAfter(urls, w, events, u, i)
  }

  /** A round that asks `u` was in flight from the start and has not ended. */
  ghost predicate FromStart(w: World, events: seq<Event>, now: World, u: Url) {
    forall r :: r in now.inFlight && u in now.inFlight[r] ==>
      r in w.inFlight && w.inFlight[r] == now.inFlight[r] && Pending(events, r)
  }

  /** While an endpoint is open, no new round asks it. */
  lemma {:induction false} OnlyOldRoundsAsk(urls: seq<Url>, w: World, events: seq<Event>, u: Url)
    requires Legal(urls, w, events) && OpenThroughout(urls, w, events, u)
    ensures FromStart(w, events, Run(urls, w, events), u)
  {
    if events != [] {
      var n := |events| - 1;
      var before, last := events[..n], events[n];
      assert forall i :: 0 <= i <= n ==> before[..i] == events[..i];
      assert forall i :: 0 <= i < n ==> before[i] == events[i];
      assert forall i :: 0 <= i <= n ==> OpenAfter(urls, w, before, u, i) == OpenAfter(urls, w, events, u, i);
      OnlyOldRoundsAsk(urls, w, before, u);
      var was := Run(urls, w, before);
      assert Enabled(was, last) && OpenAfter(urls, w, events, u, n);
      EligibleAreClosed(was.breaker, urls);
      var now := Next(urls, was, last);
      forall r | r in now.inFlight && u in now.inFlight[r] ensures Pending(events, r) && r in was.inFlight {
        assert Pending(before, r) && !Ends(last, r);
      }
    }
  }

  /** Event `i` is a reset, or the record of a round that was in flight from the start and asked `u`, with
      a success of `u` at or after the end of the cooldown `u` has by then. */
  ghost predicate RecoversAt(urls: seq<Url>, w: World, events: seq<Event>, u: Url, i: nat)
    requires i < |events|
  {
    var e := events[i];
    || e.Reset?
    || (&& e.Record? && e.round in w.inFlight && u in w.inFlight[e.round] && Pending(events[..i], e.round)
        && HasLateSuccess(e.readings, u, CooldownOf(Run(urls, w, events[..i]).breaker, u)))
  }

  ghost predicate EverCloses(urls: seq<Url>, w: World, events: seq<Event>, u: Url) {
    exists i :: 0 <= i <= |events| && !OpenAfter(urls, w, events, u, i)
  }

  ghost predicate EverRecovers(urls: seq<Url>, w: World, events: seq<Event>, u: Url) {
    exists i :: 0 <= i < |events| && RecoversAt(urls, w, events, u, i)
  }

  lemma OneMore(urls: seq<Url>, w: World, events: seq<Event>, i: nat)
    requires i < |events|
    ensures Run(urls, w, events[..i + 1]) == Next(urls, Run(urls, w, events[..i]), events[i])
  {
    assert events[..i + 1][..i] == events[..i];
  }

  lemma StepOfRun(urls: seq<Url>, w: World, events: seq<Event>, u: Url, i: nat)
    requires Legal(urls, w, events) && i < |events|
    requires IsOpen(Run(urls, w, events[..i]).breaker, u)
    ensures !IsOpen(Run(urls, w, events[..i + 1]).breaker, u) <==> ClosesNow(Run(urls, w, events[..i]), events[i], u)
  {
    OneMore(urls, w, events, i);
    StepClosesExactlyWhen(urls, Run(urls, w, events[..i]), events[i], u);
  }

  /** In every interleaving of rounds and resets, an open endpoint closes if and only if an operator resets
      the breakers, or a round that was already under way and asked it records a success of it at or
      after the end of its cooldown. */
  lemma RecoversExactlyWhen(urls: seq<Url>, w: World, events: seq<Event>, u: Url)
    requires Legal(urls, w, events) && IsOpen(w.breaker, u)
    ensures EverCloses(urls, w, events, u) <==> EverRecovers(urls, w, events, u)
  {
    if EverRecovers(urls, w, events, u) {
      var i :| 0 <= i < |events| && RecoversAt(urls, w, events, u, i);
      if OpenAfter(urls, w, events, u, i) {
        StepOfRun(urls, w, events, u, i);
        var next := i + 1;
        assert !OpenAfter(urls, w, events, u, next);
      }
    }
    if EverCloses(urls, w, events, u) {
      var closed :| 0 <= closed <= |events| && !OpenAfter(urls, w, events, u, closed);
      assert events[..0] == [];
      var i := FirstClosed(urls, w, events, u, closed);
      assert OpenThroughout(urls, w, events[..i], u) by {
        assert forall k :: 0 <= k <= i ==> events[..i][..k] == events[..k];
        assert forall k :: 0 <= k <= i ==> OpenAfter(urls, w, events[..i], u, k) == OpenAfter(urls, w, events, u, k);
      }
      ClosingRecovers(urls, w, events, u, i);
    }
  }

  /** The last event before the endpoint is closed for the first time. */
  lemma {:induction false} FirstClosed(urls: seq<Url>, w: World, events: seq<Event>, u: Url, closed: nat) returns (i: nat)
    requires closed <= |events| && OpenAfter(urls, w, events, u, 0) && !OpenAfter(urls, w, events, u, closed)
    ensures i < |events| && !OpenAfter(urls, w, events, u, i + 1)
    ensures forall k :: 0 <= k <= i ==> OpenAfter(urls, w, events, u, k)
    decreases closed
  {
    if k :| 0 <= k < closed && !OpenAfter(urls, w, events, u, k) {
      i := FirstClosed(urls, w, events, u, k);
    } else {
      i := closed - 1;
    }
  }

  lemma ClosingRecovers(urls: seq<Url>, w: World, events: seq<Event>, u: Url, i: nat)
    requires Legal(urls, w, events) && i < |events|
    requires OpenThroughout(urls, w, events[..i], u) && !OpenAfter(urls, w, events, u, i + 1)
    ensures RecoversAt(urls, w, events, u, i)
  {
    var before := events[..i];
    var was := Run(urls, w, before);
    assert before[..i] == before && OpenAfter(urls, w, before, u, i);
    StepOfRun(urls, w, events, u, i);
    if events[i].Record? {
      assert Legal(urls, w, before) by {
        assert forall k :: 0 <= k < i ==> before[..k] == events[..k] && before[k] == events[k];
      }
      OnlyOldRoundsAsk(urls, w, before, u);
      var rs := events[i].readings;
      var k :| 0 <= k < |rs| && LateSuccess(rs[k], u, CooldownOf(was.breaker, u));
      UrlsMembers(rs, k);
      assert Enabled(was, events[i]);
      assert u in was.inFlight[events[i].round];
    }
  }

  /** So an endpoint that opens when no other round is asking it stays open until the breakers are reset,
      whatever later rounds do. */
  lemma NoRoundNoRecovery(urls: seq<Url>, w: World, events: seq<Event>, u: Url)
    requires Legal(urls, w, events) && IsOpen(w.breaker, u)
    requires NoReset(events) && forall r :: r in w.inFlight ==> u !in w.inFlight[r]
    ensures IsOpen(Run(urls, w, events).breaker, u)
  {
    RecoversExactlyWhen(urls, w, events, u);
    assert events[..|events|] == events;
    assert !EverRecovers(urls, w, events, u);
    assert OpenAfter(urls, w, events, u, |events|);
  }

  /** One more legal event. */
  lemma Extend(urls: seq<Url>, w: World, events: seq<Event>, e: Event) returns (longer: seq<Event>)
    requires Legal(urls, w, events) && NoReset(events) && Enabled(Run(urls, w, events), e) && !e.Reset?
    ensures Legal(urls, w, longer) && NoReset(longer) && events <= longer
    ensures Run(urls, w, longer) == Next(urls, Run(urls, w, events), e)
  {
    longer := events + [e];
    assert longer[..|events|] == events;
    assert forall i :: 0 <= i < |events| ==> longer[..i] == events[..i];
  }

  lemma ReadOne(b: Breaker, r: Reading)
    ensures AfterReadings(b, [r]) == AfterReading(b, r)
    ensures Urls([r]) == [r.url]
  {
    assert [r][..0] == [];
  }

  /** Overlapping rounds can recover: of two rounds that started while an endpoint stood at two
      failures, the first opens it and the second, reporting after the cooldown, closes it again. */
  lemma OverlapCanRecover(u: Url, w: World, a: nat, b: nat, start: real)
    returns (failed: seq<Event>, recovered: seq<Event>)
    requires a != b && w.inFlight == map[] && FailuresOf(w.breaker, u) == 2 && !IsOpen(w.breaker, u)
    ensures failed <= recovered && Legal([u], w, recovered) && NoReset(recovered)
    ensures IsOpen(Run([u], w, failed).breaker, u)
    ensures !IsOpen(Run([u], w, recovered).breaker, u)
  {
    var fail, succeed := Reading(u, false, start), Reading(u, true, start + COOLDOWN_SECONDS);
    ReadOne(w.breaker, fail);
    ReadOne(AfterReading(w.breaker, fail), succeed);
    assert Eligible(w.breaker, [u]) == [u];
    var one := Extend([u], w, [], Prepare(a));
    var two := Extend([u], w, one, Prepare(b));
    failed := Extend([u], w, two, Record(a, [fail]));
    recovered := Extend([u], w, failed, Record(b, [succeed]));
  }

  // ---------------------------------------------------------------- what the failures count

  /** Reading `k` is a success of `u` at or after the end of the cooldown `u` has by then. */
  predicate Clears(b: Breaker, rs: seq<Reading>, u: Url, k: nat)
    requires k < |rs|
  {
    rs[k].url == u && rs[k].reported && rs[k].at >= CooldownOf(AfterReadings(b, rs[..k]), u)
  }

  /** Nothing clears `u` from reading `k` on. */
  predicate NoneClears(b: Breaker, rs: seq<Reading>, u: Url, k: nat) {
    forall i :: k <= i < |rs| ==> !Clears(b, rs, u, i)
  }

  /** The failing readings of `u` from reading `k` on. */
  function FailuresFrom(rs: seq<Reading>, u: Url, k: nat): set<int> {
    set i | k <= i < |rs| && FailsIn(rs, i, u)
  }

  predicate FailsIn(rs: seq<Reading>, i: nat, u: Url)
    requires i < |rs|
  {
    rs[i].url == u && !rs[i].reported
  }

  lemma ClearsInPrefix(b: Breaker, rs: seq<Reading>, u: Url, n: nat, k: nat)
    requires k < n <= |rs|
    ensures Clears(b, rs[..n], u, k) == Clears(b, rs, u, k)
  {
    assert rs[..n][..k] == rs[..k];
  }

  /** What one reading does to a count. */
  lemma CountOne(b: Breaker, r: Reading, u: Url)
    ensures FailuresOf(AfterReading(b, r), u) ==
      if r.url != u then FailuresOf(b, u)
      else if !r.reported then FailuresOf(b, u) + 1
      else if r.at >= CooldownOf(b, u) then 0 else FailuresOf(b, u)
  {
  }

  lemma FailuresFromMore(rs: seq<Reading>, u: Url, k: nat)
    requires k < |rs|
    ensures var n := |rs| - 1;
      |FailuresFrom(rs, u, k)| == |FailuresFrom(rs[..n], u, k)| + if rs[n].url == u && !rs[n].reported then 1 else 0
  {
    var n := |rs| - 1;
    var before, all := FailuresFrom(rs[..n], u, k), FailuresFrom(rs, u, k);
    forall i | k <= i < n ensures FailsIn(rs[..n], i, u) == FailsIn(rs, i, u) {
    }
    if FailsIn(rs, n, u) {
      assert all == before + {n} && n !in before;
    } else {
      assert all == before;
    }
  }

  /** The count of an endpoint is the number of its failing readings since it was last cleared, or, if it
      never was, what it was before and all its failing readings. */
  lemma {:induction false} FailuresAreCounted(b: Breaker, rs: seq<Reading>, u: Url, k: nat)
    requires k <= |rs| && NoneClears(b, rs, u, k) && (k > 0 ==> Clears(b, rs, u, k - 1))
    ensures FailuresOf(AfterReadings(b, rs), u) == (if k == 0 then FailuresOf(b, u) else 0) + |FailuresFrom(rs, u, k)|
  {
    if rs != [] {
      CountOne(AfterReadings(b, rs[..|rs| - 1]), rs[|rs| - 1], u);
    }
    if k == |rs| {
      assert FailuresFrom(rs, u, k) == {};
    } else {
      var n := |rs| - 1;
      assert !Clears(b, rs, u, n);
      forall i | k <= i < n ensures !Clears(b, rs[..n], u, i) {
        ClearsInPrefix(b, rs, u, n, i);
      }
      if k > 0 {
        ClearsInPrefix(b, rs, u, n, k - 1);
      }
      FailuresAreCounted(b, rs[..n], u, k);
      FailuresFromMore(rs, u, k);
    }
  }

  /** Any readings can be read that way: some reading was the last to clear, or none was. */
  lemma {:induction false} LastClear(b: Breaker, rs: seq<Reading>, u: Url, n: nat) returns (k: nat)
    requires n <= |rs| && forall i :: n <= i < |rs| ==> !Clears(b, rs, u, i)
    ensures k <= n && NoneClears(b, rs, u, k) && (k > 0 ==> Clears(b, rs, u, k - 1))
  {
    if n == 0 || Clears(b, rs, u, n - 1) {
      k := n;
    } else {
      k := LastClear(b, rs, u, n - 1);
    }
  }

  /** So a closed endpoint opens at a reading if and only if that reading fails and is at least its third
      failure since it was last cleared. */
  lemma OpensExactlyWhen(b: Breaker, rs: seq<Reading>, r: Reading, u: Url, k: nat)
    requires Coherent(b) && !IsOpen(AfterReadings(b, rs), u)
    requires k <= |rs| && NoneClears(b, rs, u, k) && (k > 0 ==> Clears(b, rs, u, k - 1))
    ensures IsOpen(AfterReadings(b, rs + [r]), u) <==>
      r.url == u && !r.reported &&
      (if k == 0 then FailuresOf(b, u) else 0) + |FailuresFrom(rs, u, k)| + 1 >= 3
  {
    FailuresAreCounted(b, rs, u, k);
    ReadingsKeepCoherent(b, rs);
    assert (rs + [r])[..|rs|] == rs;
    assert FailuresOf(AfterReadings(b, rs), u) < 3;
  }

  /** Reading `k` fails `u` and leaves it open. */
  predicate Trips(b: Breaker, rs: seq<Reading>, u: Url, k: nat)
    requires k < |rs|
  {
    rs[k].url == u && !rs[k].reported && IsOpen(AfterReadings(b, rs[..k + 1]), u)
  }

  predicate NoneTrips(b: Breaker, rs: seq<Reading>, u: Url, k: nat) {
    forall i :: k <= i < |rs| ==> !Trips(b, rs, u, i)
  }

  /** The cooldown of an endpoint ends sixty seconds after the last failing reading that left it open; failures
      while it is open extend it, and no success moves it. */
  lemma {:induction false} CooldownAfterLastTrip(b: Breaker, rs: seq<Reading>, u: Url, k: nat)
    requires Coherent(b) && k <= |rs| && NoneTrips(b, rs, u, k) && (k > 0 ==> Trips(b, rs, u, k - 1))
    ensures CooldownOf(AfterReadings(b, rs), u) == if k == 0 then CooldownOf(b, u) else rs[k - 1].at + 60.0
  {
    if rs != [] {
      var n := |rs| - 1;
      assert rs[..n + 1] == rs;
      ReadingsKeepCoherent(b, rs[..n]);
      ReadingsKeepCoherent(b, rs);
      if k == |rs| {
        assert Trips(b, rs, u, n);
        assert FailuresOf(AfterReadings(b, rs), u) >= 3;
      } else {
        forall i | 0 <= i < n ensures Trips(b, rs[..n], u, i) == Trips(b, rs, u, i) {
          assert rs[..n][..i + 1] == rs[..i + 1];
        }
        CooldownAfterLastTrip(b, rs[..n], u, k);
        assert !Trips(b, rs, u, n);
      }
    }
  }

  // ---------------------------------------------------------------- the same over runs

  /** Everything recorded since the last reset, in order. */
  function Recorded(events: seq<Event>): seq<Reading> {
    if events == [] then []
    else
      var before, last := Recorded(events[..|events| - 1]), events[|events| - 1];
      match last
      case Record(_, rs) => before + rs
      case Reset => []
      case Prepare(_) => before
      case GiveUp(_) => before
  }

  lemma {:induction false} ReadingsConcat(b: Breaker, first: seq<Reading>, second: seq<Reading>)
    ensures AfterReadings(b, first + second) == AfterReadings(AfterReadings(b, first), second)
  {
    if second == [] {
      assert first + second == first;
    } else {
      var n := |second| - 1;
      assert (first + second)[..|first| + n] == first + second[..n];
      ReadingsConcat(b, first, second[..n]);
    }
  }

  /** In every interleaving the breakers are what the readings since the last reset make of fresh ones, or of
      the ones at the start when there was no reset: which round recorded them does not matter. */
  lemma {:induction false} RunIsReadings(urls: seq<Url>, w: World, events: seq<Event>)
    ensures Run(urls, w, events).breaker ==
      AfterReadings(if NoReset(events) then w.breaker else Breaker(map[], map[], map[]), Recorded(events))
  {
    if events != [] {
      var n := |events| - 1;
      RunIsReadings(urls, w, events[..n]);
      assert forall i :: 0 <= i < n ==> events[..n][i] == events[i];
      assert NoReset(events) <==> NoReset(events[..n]) && !events[n].Reset?;
      if events[n].Record? {
        var start := if NoReset(events) then w.breaker else Breaker(map[], map[], map[]);
        ReadingsConcat(start, Recorded(events[..n]), events[n].readings);
      }
    }
  }

  /** So over any run the count of an endpoint is the number of its failures recorded since the last reset and
      since it was last cleared. */
  lemma RunCountsFailures(urls: seq<Url>, w: World, events: seq<Event>, u: Url) returns (k: nat)
    requires w.breaker == Breaker(map[], map[], map[]) || !NoReset(events)
    ensures var rs, clean := Recorded(events), Breaker(map[], map[], map[]);
      && k <= |rs| && NoneClears(clean, rs, u, k) && (k > 0 ==> Clears(clean, rs, u, k - 1))
      && FailuresOf(Run(urls, w, events).breaker, u) == |FailuresFrom(rs, u, k)|
      && (IsOpen(Run(urls, w, events).breaker, u) <==> |FailuresFrom(rs, u, k)| >= 3)
  {
    var rs, clean := Recorded(events), Breaker(map[], map[], map[]);
    RunIsReadings(urls, w, events);
    k := LastClear(clean, rs, u, |rs|);
    FailuresAreCounted(clean, rs, u, k);
    assert Coherent(clean);
    ReadingsKeepCoherent(clean, rs);
  }

  /** Eligible endpoints stand in the order in which they are configured. */
  lemma {:induction false} EligibleInOrder(b: Breaker, first: seq<Url>, second: seq<Url>)
    ensures Eligible(b, first + second) == Eligible(b, first) + Eligible(b, second)
  {
    if first == [] {
      assert first + second == second;
    } else {
      var all := first + second;
      assert all[0] == first[0] && all[1..] == first[1..] + second;
      EligibleInOrder(b, first[1..], second);
      assert Eligible(b, all) == (if IsOpen(b, first[0]) then [] else [first[0]]) + Eligible(b, all[1..]);
    }
  }
}
