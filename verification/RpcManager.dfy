/** Chain-height reconciliation over several RPC endpoints. */
module RpcManager {
  import opened Common
  import opened CircuitBreaker

  const SPREAD_THRESHOLD: int := 2

  /** Which family an exception belongs to, as far as the manager asks. */
  datatype ErrorKind = TimeoutError | ConnectionError | OtherError

  datatype FetchError = FetchError(kind: ErrorKind, text: string)

  predicate Contains(s: string, part: string) {
    exists i :: 0 <= i <= |s| && StandsAt(s, part, i)
  }

  predicate StandsAt(s: string, part: string, i: nat) { i + |part| <= |s| && s[i..i + |part|] == part }

  /** A quota error is known by its text. */
  predicate IsQuota(e: FetchError) { Contains(e.text, "429") || Contains(e.text, "Too Many Requests") }

  datatype Fetch = Height(height: int) | Failed(error: FetchError)

  /** The settings the decision depends on; thresholds are unset or in the range the config enforces. */
  datatype Settings = Settings(urls: seq<Url>, strictMode: bool, minCount: Option<int>, minRatio: Option<real>)

  predicate SettingsOk(c: Settings) {
    && (c.minCount.Some? ==> c.minCount.value >= 1)
    && (c.minRatio.Some? ==> 0.0 < c.minRatio.value <= 1.0)
  }

  datatype Verdict =
    | Chosen(height: int, url: Url)
    | QuotaExhausted
    | TooFewSuccesses
    | SpreadExceeded

  /** The failed endpoints by class, each class in the order the failures came in. */
  datatype Classified = Classified(quota: seq<Url>, timeout: seq<Url>, transport: seq<Url>, other: seq<Url>)

  datatype LastError =
    | NoError
    | PartialFailure(failed: map<Url, string>)
    | Diverged(heights: map<Url, int>)
    | Tolerated(okCount: nat, expected: nat, required: nat, classified: Option<Classified>)

  datatype Binding = Unbound | SyncTo(url: Url) | AsyncTo(url: Url)

  datatype PrepareError = NoUrls | AllBreakersOpen

  // ---------------------------------------------------------------- URL order

  /** Python's order on strings. */
  predicate LexLess(a: Url, b: Url) {
    if b == "" then false
    else if a == "" then true
    else a[0] < b[0] || (a[0] == b[0] && LexLess(a[1..], b[1..]))
  }

  lemma {:induction false} LexTotal(a: Url, b: Url)
    ensures a == b || LexLess(a, b) || LexLess(b, a)
    ensures !(LexLess(a, b) && LexLess(b, a))
    ensures !LexLess(a, a)
  {
    if a != "" && b != "" {
      assert a == [a[0]] + a[1..] && b == [b[0]] + b[1..];
      LexTotal(a[1..], b[1..]);
    }
    LexIrreflexive(a);
  }

  lemma {:induction false} LexIrreflexive(a: Url)
    ensures !LexLess(a, a)
  {
    if a != "" {
      LexIrreflexive(a[1..]);
    }
  }

  lemma {:induction false} LexTransitive(a: Url, b: Url, c: Url)
    requires LexLess(a, b) && LexLess(b, c)
    ensures LexLess(a, c)
  {
    if a != "" && a[0] == b[0] && b[0] == c[0] {
      LexTransitive(a[1..], b[1..], c[1..]);
    }
  }

  /** The key the selection maximises: height first, then URL. */
  predicate Better(h1: int, u1: Url, h2: int, u2: Url) { h1 > h2 || (h1 == h2 && LexLess(u2, u1)) }

  // ---------------------------------------------------------------- thresholds

  /** `math.ceil` on reals. */
  function Ceil(x: real): int { -((-x).Floor) }

  function Max(a: int, b: int): int { if a >= b then a else b }

  function Min(a: int, b: int): int { if a <= b then a else b }

  function CountBound(c: Settings): int { if c.minCount.Some? then c.minCount.value else 1 }

  function RatioBound(c: Settings, eligible: nat): int {
    if c.minRatio.Some? then Ceil(c.minRatio.value * (eligible as real)) else 1
  }

  function RequiredSuccesses(c: Settings, eligible: nat): int {
    if c.strictMode || (c.minCount.None? && c.minRatio.None?) then eligible
    else Max(1, Min(eligible, Max(CountBound(c), RatioBound(c, eligible))))
  }

  /** `k` reports are enough under these settings. */
  predicate MeetsThreshold(c: Settings, eligible: nat, k: int) {
    && 1 <= k
    && (c.strictMode || (c.minCount.None? && c.minRatio.None?) ==> k >= eligible)
    && (c.minCount.Some? ==> k >= Min(c.minCount.value, eligible))
    && (c.minRatio.Some? ==> k as real >= c.minRatio.value * (eligible as real))
  }

  /** The threshold is the least number of reports that is enough, and can always be reached. */
  lemma RequiredSuccessesBounds(c: Settings, eligible: nat)
    requires SettingsOk(c) && eligible >= 1
    ensures 1 <= RequiredSuccesses(c, eligible) <= eligible
    ensures forall k :: MeetsThreshold(c, eligible, k) <==> k >= RequiredSuccesses(c, eligible)
  {
    forall k ensures MeetsThreshold(c, eligible, k) <==> k >= RequiredSuccesses(c, eligible) {
      EnoughReports(c, eligible, k);
    }
    EnoughReports(c, eligible, eligible);
    RatioOfWhole(if c.minRatio.Some? then c.minRatio.value else 1.0, eligible);
  }

  lemma EnoughReports(c: Settings, eligible: nat, k: int)
    requires SettingsOk(c) && eligible >= 1
    ensures MeetsThreshold(c, eligible, k) <==> k >= RequiredSuccesses(c, eligible)
  {
    var bound := RatioBound(c, eligible);
    assert bound <= eligible by {
      if c.minRatio.Some? {
        RatioOfWhole(c.minRatio.value, eligible);
      }
    }
    assert c.minRatio.Some? ==> (k >= bound <==> k as real >= c.minRatio.value * (eligible as real)) by {
      if c.minRatio.Some? {
        CeilIsLeast(c.minRatio.value * (eligible as real), k);
      }
    }
  }

  lemma CeilIsLeast(x: real, k: int)
    ensures k as real >= x <==> k >= Ceil(x)
  {
  }

  lemma RatioOfWhole(ratio: real, n: nat)
    requires 0.0 < ratio <= 1.0
    ensures 0.0 <= ratio * (n as real) <= n as real
    ensures Ceil(ratio * (n as real)) <= n
  {
    assert (1.0 - ratio) * (n as real) >= 0.0;
    CeilIsLeast(ratio * (n as real), n);
  }

  // ---------------------------------------------------------------- the decision, declaratively

  predicate Reported(outcomes: map<Url, Fetch>, u: Url) { u in outcomes && outcomes[u].Height? }

  function HeightsOf(outcomes: map<Url, Fetch>): map<Url, int> {
    map u | u in outcomes && outcomes[u].Height? :: outcomes[u].height
  }

  predicate QuotaFetch(f: Fetch) { f.Failed? && IsQuota(f.error) }

  predicate AnyQuota(outcomes: map<Url, Fetch>) {
    exists u :: u in outcomes && QuotaFetch(outcomes[u])
  }

  predicate WithinSpread(heights: map<Url, int>) {
    forall u, v :: u in heights && v in heights ==> heights[u] - heights[v] <= SPREAD_THRESHOLD
  }

  /** What a round over these outcomes must decide. */
  ghost predicate Decides(c: Settings, outcomes: map<Url, Fetch>, v: Verdict) {
    var heights := HeightsOf(outcomes);
    if AnyQuota(outcomes) then v == QuotaExhausted
    else if |heights| < RequiredSuccesses(c, |outcomes|) then v == TooFewSuccesses
    else if !WithinSpread(heights) then v == SpreadExceeded
    else
      && v.Chosen?
      && v.url in heights && heights[v.url] == v.height
      && (forall u :: u in heights ==> u == v.url || Better(v.height, v.url, heights[u], u))
  }

  /** The outcomes leave no choice: two rounds that see the same outcomes decide alike. */
  lemma DecisionIsUnique(c: Settings, outcomes: map<Url, Fetch>, v: Verdict, w: Verdict)
    requires Decides(c, outcomes, v) && Decides(c, outcomes, w)
    ensures v == w
  {
    if v.Chosen? && w.Chosen? {
      LexTotal(v.url, w.url);
    }
  }

  /** A successful round: enough endpoints reported, all within two blocks of the returned height,
      which is the highest, reported by the chosen endpoint, last in URL order among its equals. */
  lemma ChosenMeetsTheBound(c: Settings, outcomes: map<Url, Fetch>, v: Verdict)
    requires SettingsOk(c) && |outcomes| >= 1 && Decides(c, outcomes, v) && v.Chosen?
    ensures var heights := HeightsOf(outcomes);
      && MeetsThreshold(c, |outcomes|, |heights|) && |heights| <= |outcomes|
      && Reported(outcomes, v.url) && outcomes[v.url].height == v.height
      && (forall u :: Reported(outcomes, u) ==> v.height - 2 <= outcomes[u].height <= v.height)
      && (forall u :: Reported(outcomes, u) && outcomes[u].height == v.height && u != v.url ==> LexLess(u, v.url))
  {
    var heights := HeightsOf(outcomes);
    RequiredSuccessesBounds(c, |outcomes|);
    assert heights.Keys <= outcomes.Keys;
    SubsetSize(heights.Keys, outcomes.Keys);
    forall u | Reported(outcomes, u)
      ensures v.height - 2 <= outcomes[u].height <= v.height
      ensures outcomes[u].height == v.height && u != v.url ==> LexLess(u, v.url) {
      assert u in heights && v.url in heights;
    }
  }

  // ---------------------------------------------------------------- the manager

  predicate Distinct(urls: seq<Url>) {
    forall i, j :: 0 <= i < j < |urls| ==> urls[i] != urls[j]
  }

  /** The outcomes of a list of endpoints, as a dictionary. */
  function OutcomeMap(pairs: seq<(Url, Fetch)>): map<Url, Fetch> {
    if pairs == [] then map[] else OutcomeMap(pairs[..|pairs| - 1])[pairs[|pairs| - 1].0 := pairs[|pairs| - 1].1]
  }

  function ReadingsOf(eligible: seq<Url>, outcomes: map<Url, Fetch>, clock: seq<real>): seq<Reading>
    requires |clock| == |eligible|
  {
    if eligible == [] then []
    else
      var n := |eligible| - 1;
      ReadingsOf(eligible[..n], outcomes, clock[..n]) + [Reading(eligible[n], Reported(outcomes, eligible[n]), clock[n])]
  }

  function Zip(urls: seq<Url>, results: seq<Fetch>): (pairs: seq<(Url, Fetch)>)
    requires |urls| == |results|
  {
    seq(|urls|, i requires 0 <= i < |urls| => (urls[i], results[i]))
  }

  lemma ReadOneMore(b: Breaker, eligible: seq<Url>, outcomes: map<Url, Fetch>, clock: seq<real>, i: nat)
    requires |clock| == |eligible| && i < |eligible|
    ensures AfterReadings(b, ReadingsOf(eligible[..i + 1], outcomes, clock[..i + 1])) ==
            AfterReading(AfterReadings(b, ReadingsOf(eligible[..i], outcomes, clock[..i])),
                         Reading(eligible[i], Reported(outcomes, eligible[i]), clock[i]))
  {
    assert eligible[..i + 1][..i] == eligible[..i] && clock[..i + 1][..i] == clock[..i];
    var earlier := ReadingsOf(eligible[..i], outcomes, clock[..i]);
    assert (earlier + [Reading(eligible[i], Reported(outcomes, eligible[i]), clock[i])])[..|earlier|] == earlier;
  }

  lemma {:induction false} ReadingsName(eligible: seq<Url>, outcomes: map<Url, Fetch>, clock: seq<real>)
    requires |clock| == |eligible|
    ensures Urls(ReadingsOf(eligible, outcomes, clock)) == eligible
  {
    if eligible != [] {
      var n := |eligible| - 1;
      ReadingsName(eligible[..n], outcomes, clock[..n]);
      UrlsAppend(ReadingsOf(eligible[..n], outcomes, clock[..n]),
                 Reading(eligible[n], Reported(outcomes, eligible[n]), clock[n]));
    }
  }

  lemma {:induction false} ReadingsAreConsistent(eligible: seq<Url>, outcomes: map<Url, Fetch>, clock: seq<real>)
    requires |clock| == |eligible|
    ensures forall i :: 0 <= i < |ReadingsOf(eligible, outcomes, clock)| ==>
      var r := ReadingsOf(eligible, outcomes, clock)[i];
      r.reported == Reported(outcomes, r.url)
  {
    if eligible != [] {
      ReadingsAreConsistent(eligible[..|eligible| - 1], outcomes, clock[..|eligible| - 1]);
    }
  }

  /** What the locked second half of a round is among the events of the circuit breakers. */
  function RoundEvent(round: nat, eligible: seq<Url>, outcomes: map<Url, Fetch>, clock: seq<real>, v: Verdict): Event
    requires |clock| == |eligible|
  {
    if v.QuotaExhausted? then GiveUp(round) else Record(round, ReadingsOf(eligible, outcomes, clock))
  }

  /** It is an enabled one, and does to the breakers what `Settle` does: what is proved of every
      interleaving of those events holds of the manager. */
  lemma RoundIsEvent(urls: seq<Url>, w: World, round: nat, outcomes: map<Url, Fetch>, clock: seq<real>, v: Verdict)
    requires round in w.inFlight && |clock| == |w.inFlight[round]|
    ensures var eligible := w.inFlight[round];
      var e := RoundEvent(round, eligible, outcomes, clock, v);
      && Enabled(w, e)
      && Next(urls, w, e) == World(if v.QuotaExhausted? then w.breaker
                                   else AfterReadings(w.breaker, ReadingsOf(eligible, outcomes, clock)),
                                   w.inFlight - {round})
  {
    ReadingsName(w.inFlight[round], outcomes, clock);
    ReadingsAreConsistent(w.inFlight[round], outcomes, clock);
  }

  predicate DistinctEndpoints(pairs: seq<(Url, Fetch)>) {
    forall i, j :: 0 <= i < j < |pairs| ==> pairs[i].0 != pairs[j].0
  }

  predicate Among(u: Url, pairs: seq<(Url, Fetch)>) {
    exists i :: 0 <= i < |pairs| && pairs[i].0 == u
  }

  lemma {:induction false} OutcomesOfDistinct(pairs: seq<(Url, Fetch)>)
    requires DistinctEndpoints(pairs)
    ensures |OutcomeMap(pairs)| == |pairs|
    ensures forall u :: u in OutcomeMap(pairs) <==> Among(u, pairs)
  {
    if pairs != [] {
      var n := |pairs| - 1;
      var before := pairs[..n];
      OutcomesOfDistinct(before);
      assert !Among(pairs[n].0, before);
      forall u ensures Among(u, pairs) <==> Among(u, before) || u == pairs[n].0 {
        if Among(u, before) {
          var i :| 0 <= i < n && before[i].0 == u;
          assert pairs[i].0 == u;
        }
      }
    }
  }

  /** The text of each failure. */
  function FailedIn(outcomes: map<Url, Fetch>): map<Url, string> {
    map u | u in outcomes && outcomes[u].Failed? :: outcomes[u].error.text
  }

  datatype Class = QuotaClass | TimeoutClass | TransportClass | OtherClass

  function ClassOf(e: FetchError): Class {
    if IsQuota(e) then QuotaClass
    else
      match e.kind
      case TimeoutError => TimeoutClass
      case ConnectionError => TransportClass
      case OtherError => OtherClass
  }

  /** The failures of one class, in the order they came in. */
  function InClass(pairs: seq<(Url, Fetch)>, group: Class): seq<Url> {
    if pairs == [] then []
    else
      var last := pairs[|pairs| - 1];
      InClass(pairs[..|pairs| - 1], group)
        + if last.1.Failed? && ClassOf(last.1.error) == group then [last.0] else []
  }

  /** `_classify_errors`, where there are any. */
  function ClassifiedIn(pairs: seq<(Url, Fetch)>): Option<Classified> {
    if FailedIn(OutcomeMap(pairs)) == map[] then None
    else Some(Classified(InClass(pairs, QuotaClass), InClass(pairs, TimeoutClass), InClass(pairs, TransportClass),
                         InClass(pairs, OtherClass)))
  }

  /** What a round leaves in the last-error slot, given the results in the order it goes through them. */
  function LastErrorAfter(c: Settings, before: LastError, pairs: seq<(Url, Fetch)>, v: Verdict, async: bool): LastError {
    var outcomes := OutcomeMap(pairs);
    var required := RequiredSuccesses(c, |outcomes|);
    match v
    case QuotaExhausted => before
    case TooFewSuccesses => if async || FailedIn(outcomes) == map[] then before else PartialFailure(FailedIn(outcomes))
    case SpreadExceeded => Diverged(HeightsOf(outcomes))
    case Chosen(_, _) =>
      if required < |outcomes| then Tolerated(|HeightsOf(outcomes)|, |outcomes|, required, ClassifiedIn(pairs))
      else NoError
  }

  /** The rounds list the failures of every class in one order. */
  ghost predicate SameOrder(completed: seq<(Url, Fetch)>, ordered: seq<(Url, Fetch)>) {
    forall group: Class :: InClass(completed, group) == InClass(ordered, group)
  }

  /** What decides whether both variants leave the same last error. */
  ghost predicate SlotsAgree(c: Settings, before: LastError, completed: seq<(Url, Fetch)>, ordered: seq<(Url, Fetch)>) {
    var outcomes := OutcomeMap(ordered);
    var required := RequiredSuccesses(c, |outcomes|);
    || AnyQuota(outcomes)
    || (|HeightsOf(outcomes)| < required && before == PartialFailure(FailedIn(outcomes)))
    || (|HeightsOf(outcomes)| >= required
        && (!WithinSpread(HeightsOf(outcomes)) || required == |outcomes| || SameOrder(completed, ordered)))
  }

  /** On the same outcomes the synchronous round, which goes through them as they complete, and the
      asynchronous one, which goes through them as the endpoints are listed, decide alike. What they
      remember afterwards agrees if and only if a quota error came in; or too few reported and the slot
      already held these very failures; or enough did, and either the spread was exceeded, or every report
      was required, or the failures of each class completed in the order of the endpoints. */
  lemma SyncAndAsyncAgree(c: Settings, before: LastError, completed: seq<(Url, Fetch)>, ordered: seq<(Url, Fetch)>,
                          sync: Verdict, async: Verdict)
    requires SettingsOk(c) && ordered != [] && DistinctEndpoints(completed) && DistinctEndpoints(ordered)
    requires OutcomeMap(completed) == OutcomeMap(ordered)
    requires Decides(c, OutcomeMap(ordered), sync) && Decides(c, OutcomeMap(ordered), async)
    ensures sync == async
    ensures LastErrorAfter(c, before, completed, sync, false) == LastErrorAfter(c, before, ordered, async, true)
            <==> SlotsAgree(c, before, completed, ordered)
  {
    var outcomes := OutcomeMap(ordered);
    DecisionIsUnique(c, outcomes, sync, async);
    RequiredSuccessesBounds(c, |outcomes|);
    AllReported(outcomes);
    SameClassified(completed, ordered);
  }

  lemma SameClassified(completed: seq<(Url, Fetch)>, ordered: seq<(Url, Fetch)>)
    requires DistinctEndpoints(completed) && DistinctEndpoints(ordered) && OutcomeMap(completed) == OutcomeMap(ordered)
    ensures ClassifiedIn(completed) == ClassifiedIn(ordered) <==> SameOrder(completed, ordered)
  {
    if FailedIn(OutcomeMap(ordered)) == map[] {
      forall group: Class ensures InClass(completed, group) == InClass(ordered, group) {
        NobodyInClass(completed, group);
        NobodyInClass(ordered, group);
      }
    } else if ClassifiedIn(completed) == ClassifiedIn(ordered) {
      forall group: Class ensures InClass(completed, group) == InClass(ordered, group) {
        match group
        case QuotaClass =>
        case TimeoutClass =>
        case TransportClass =>
        case OtherClass =>
      }
    }
  }

  lemma {:induction false} NobodyInClass(pairs: seq<(Url, Fetch)>, group: Class)
    requires DistinctEndpoints(pairs) && FailedIn(OutcomeMap(pairs)) == map[]
    ensures InClass(pairs, group) == []
  {
    if pairs != [] {
      var n := |pairs| - 1;
      var before, all := OutcomeMap(pairs[..n]), OutcomeMap(pairs);
      OutcomesOfDistinct(pairs[..n]);
      assert pairs[n].0 !in before;
      forall u | u in before ensures !before[u].Failed? {
        assert u !in FailedIn(all) && all[u] == before[u];
      }
      assert pairs[n].0 !in FailedIn(all) && all[pairs[n].0] == pairs[n].1;
      NobodyInClass(pairs[..n], group);
    }
  }

  /** A text without the characters `4` and `T` is not taken for a quota error. */
  lemma PlainText(e: FetchError)
    requires '4' !in e.text && 'T' !in e.text
    ensures !IsQuota(e)
  {
    NotContained(e.text, "429");
    NotContained(e.text, "Too Many Requests");
  }

  lemma NotContained(s: string, part: string)
    requires part != "" && part[0] !in s
    ensures !Contains(s, part)
  {
    forall i | 0 <= i <= |s| ensures !StandsAt(s, part, i) {
      if i + |part| <= |s| {
        var piece := s[i..i + |part|];
        assert piece[0] == s[i];
      }
    }
  }

  const REFUSED: Fetch := Failed(FetchError(ConnectionError, "refused"))

  const SLOW: Fetch := Failed(FetchError(OtherError, "slow"))

  lemma OutcomesOfTwo(a: (Url, Fetch), b: (Url, Fetch))
    ensures OutcomeMap([a, b]) == map[a.0 := a.1][b.0 := b.1]
  {
    assert [a, b][..1] == [a] && [a][..0] == [];
    assert OutcomeMap([a]) == OutcomeMap([])[a.0 := a.1];
  }

  /** One endpoint of two refuses while every report is wanted. The synchronous round remembers who failed
      and how; the asynchronous one keeps what was there, be it nothing or an earlier failure of the same
      endpoint. */
  lemma LastErrorsDiffer(earlier: string) returns (c: Settings, results: seq<(Url, Fetch)>)
    ensures SettingsOk(c) && DistinctEndpoints(results) && Decides(c, OutcomeMap(results), TooFewSuccesses)
    ensures forall before: LastError ::
      && LastErrorAfter(c, before, results, TooFewSuccesses, false) == PartialFailure(map["https://a" := "refused"])
      && LastErrorAfter(c, before, results, TooFewSuccesses, true) == before
    ensures earlier != "refused" ==>
      !SlotsAgree(c, PartialFailure(map["https://a" := earlier]), results, results)
  {
    c := Settings(["https://a", "https://b"], true, None, None);
    results := [("https://a", REFUSED), ("https://b", Height(7))];
    var outcomes := map["https://a" := REFUSED, "https://b" := Height(7)];
    OutcomesOfTwo(results[0], results[1]);
    assert OutcomeMap(results) == outcomes;
    PlainText(REFUSED.error);
    assert HeightsOf(outcomes) == map["https://b" := 7];
    assert FailedIn(outcomes) == map["https://a" := "refused"];
    assert map["https://a" := earlier]["https://a"] == earlier;
  }

  /** Two of three endpoints are slow while one report is enough: the rounds list the slow ones in the order
      they gave up and in the order they are configured. */
  lemma FailuresListedInOtherOrder()
    returns (c: Settings, completed: seq<(Url, Fetch)>, ordered: seq<(Url, Fetch)>, v: Verdict)
    ensures SettingsOk(c) && DistinctEndpoints(completed) && DistinctEndpoints(ordered)
    ensures OutcomeMap(completed) == OutcomeMap(ordered) && Decides(c, OutcomeMap(ordered), v) && v.Chosen?
    ensures forall before: LastError :: !SlotsAgree(c, before, completed, ordered)
  {
    c := Settings(["https://a", "https://b", "https://c"], false, Some(1), None);
    var a, b, good := ("https://a", SLOW), ("https://b", SLOW), ("https://c", Height(7));
    ordered, completed, v := [a, b, good], [b, a, good], Chosen(7, "https://c");
    OutcomesOfThree(a, b, good);
    OutcomesOfThree(b, a, good);
    var outcomes := OutcomeMap(ordered);
    assert outcomes == OutcomeMap(completed) == map["https://a" := SLOW, "https://b" := SLOW, "https://c" := Height(7)];
    OneReport(c, outcomes, "https://c", 7);
    SlowOnes(a.0, b.0, good.0);
    SlowOnes(b.0, a.0, good.0);
    assert a.0 != b.0;
    assert InClass(ordered, OtherClass)[0] != InClass(completed, OtherClass)[0];
  }

  lemma OneReport(c: Settings, outcomes: map<Url, Fetch>, u: Url, h: int)
    requires !c.strictMode && c.minCount == Some(1) && c.minRatio == None && |outcomes| >= 2
    requires u in outcomes && outcomes[u] == Height(h)
    requires forall other :: other in outcomes && other != u ==> outcomes[other] == SLOW
    ensures Decides(c, outcomes, Chosen(h, u)) && !AnyQuota(outcomes)
    ensures HeightsOf(outcomes) == map[u := h] && RequiredSuccesses(c, |outcomes|) == 1
  {
    PlainText(SLOW.error);
    assert HeightsOf(outcomes) == map[u := h];
  }

  lemma OutcomesOfThree(a: (Url, Fetch), b: (Url, Fetch), last: (Url, Fetch))
    ensures OutcomeMap([a, b, last]) == map[a.0 := a.1][b.0 := b.1][last.0 := last.1]
  {
    OutcomesOfTwo(a, b);
    assert [a, b, last][..2] == [a, b];
  }

  lemma SlowOnes(a: Url, b: Url, last: Url)
    ensures InClass([(a, SLOW), (b, SLOW), (last, Height(7))], OtherClass) == [a, b]
  {
    PlainText(SLOW.error);
    var pairs := [(a, SLOW), (b, SLOW), (last, Height(7))];
    assert pairs[..2] == [(a, SLOW), (b, SLOW)] && pairs[..2][..1] == [(a, SLOW)] && [(a, SLOW)][..0] == [];
    assert InClass(pairs[..2][..1], OtherClass) == [a];
    assert InClass(pairs[..2], OtherClass) == [a, b];
  }

  lemma AllReported(outcomes: map<Url, Fetch>)
    ensures FailedIn(outcomes) == map[] ==> |HeightsOf(outcomes)| == |outcomes|
  {
    if FailedIn(outcomes) == map[] {
      forall u | u in outcomes ensures outcomes[u].Height? {
        assert u !in FailedIn(outcomes);
      }
      assert HeightsOf(outcomes).Keys == outcomes.Keys;
    }
  }

  /** One more endpoint's result. */
  lemma OneMoreOutcome(before: map<Url, Fetch>, u: Url, fetch: Fetch)
    requires u !in before
    ensures HeightsOf(before[u := fetch]) ==
            if fetch.Height? then HeightsOf(before)[u := fetch.height] else HeightsOf(before)
    ensures FailedIn(before[u := fetch]) ==
            if fetch.Failed? then FailedIn(before)[u := fetch.error.text] else FailedIn(before)
    ensures AnyQuota(before[u := fetch]) <==> AnyQuota(before) || QuotaFetch(fetch)
  {
    var after := before[u := fetch];
    assert after[u] == fetch;
    if AnyQuota(before) {
      var q :| q in before && QuotaFetch(before[q]);
      assert QuotaFetch(after[q]);
    }
  }

  class RPCManager {
    const settings: Settings
    var failures: map<Url, nat>
    var open: map<Url, bool>
    var cooldownUntil: map<Url, real>
    var binding: Binding
    var lastUrl: Option<Url>
    var lastError: LastError

    function Breaker(): Breaker
      reads this
    {
      CircuitBreaker.Breaker.Breaker(failures, open, cooldownUntil)
    }

    constructor (settings: Settings)
      ensures this.settings == settings && Breaker() == FreshBreaker
      ensures binding == Unbound && lastUrl == None && lastError == NoError
    {
      this.settings := settings;
      failures, open, cooldownUntil := map[], map[], map[];
      binding, lastUrl, lastError := Unbound, None, NoError;
    }

    method ResetCircuitBreakers()
      modifies this
      ensures Breaker() == FreshBreaker && binding == Unbound && lastUrl == None && lastError == NoError
    {
      failures, open, cooldownUntil := map[], map[], map[];
      binding, lastUrl, lastError := Unbound, None, NoError;
    }

    method PrepareReconcile() returns (r: Result<seq<Url>, PrepareError>)
      ensures r == if settings.urls == [] then Err(NoUrls)
                   else if Eligible(Breaker(), settings.urls) == [] then Err(AllBreakersOpen)
                   else Ok(Eligible(Breaker(), settings.urls))
    {
      if settings.urls == [] {
        return Err(NoUrls);
      }
      var eligible: seq<Url> := [];
      var urls := settings.urls;
      var i := |urls|;
      while i > 0
        invariant 0 <= i <= |urls|
        invariant eligible == Eligible(Breaker(), urls[i..])
      {
        i := i - 1;
        assert urls[i..][1..] == urls[i + 1..];
        if !(urls[i] in open && open[urls[i]]) {
          eligible := [urls[i]] + eligible;
        }
      }
      return if eligible == [] then Err(AllBreakersOpen) else Ok(eligible);
    }

    method RecordTransportFailure(u: Url, now: real)
      modifies this`failures, this`open, this`cooldownUntil
      ensures Breaker() == AfterFailure(old(Breaker()), u, now)
    {
      var n := (if u in failures then failures[u] else 0) + 1;
      failures := failures[u := n];
      if n >= FAILURE_THRESHOLD {
        open := open[u := true];
        cooldownUntil := cooldownUntil[u := now + COOLDOWN_SECONDS];
      }
    }

    method RecordTransportSuccess(u: Url, now: real)
      modifies this`failures, this`open
      ensures Breaker() == AfterSuccess(old(Breaker()), u, now)
    {
      if now < (if u in cooldownUntil then cooldownUntil[u] else 0.0) {
        return;
      }
      failures := failures[u := 0];
      open := open[u := false];
    }

    /** `_record_outcome`: one breaker update per endpoint, each with its own clock reading. */
    method RecordOutcome(eligible: seq<Url>, outcomes: map<Url, Fetch>, clock: seq<real>)
      requires |clock| == |eligible|
      modifies this`failures, this`open, this`cooldownUntil
      ensures Breaker() == AfterReadings(old(Breaker()), ReadingsOf(eligible, outcomes, clock))
    {
      for i := 0 to |eligible|
        invariant Breaker() == AfterReadings(old(Breaker()), ReadingsOf(eligible[..i], outcomes, clock[..i]))
      {
        ReadOneMore(old(Breaker()), eligible, outcomes, clock, i);
        var reported := Reported(outcomes, eligible[i]);
        if reported {
          RecordTransportSuccess(eligible[i], clock[i]);
        } else {
          RecordTransportFailure(eligible[i], clock[i]);
        }
      }
      assert eligible[..|eligible|] == eligible && clock[..|clock|] == clock;
    }

    /** `_select_best_endpoint`: one pass over the reported heights in the order they came in. */
    method SelectBest(order: seq<Url>, heights: map<Url, int>) returns (best: Url)
      requires order != [] && forall u :: u in order <==> u in heights
      ensures best in heights
      ensures forall u :: u in heights ==> u == best || Better(heights[best], best, heights[u], u)
    {
      best := order[0];
      for i := 1 to |order|
        invariant best in heights
        invariant forall k :: 0 <= k < i ==> order[k] == best || Better(heights[best], best, heights[order[k]], order[k])
      {
        var u := order[i];
        if Better(heights[u], u, heights[best], best) {
          forall k | 0 <= k < i && order[k] != best ensures Better(heights[u], u, heights[order[k]], order[k]) {
            if heights[u] == heights[best] == heights[order[k]] {
              LexTransitive(order[k], best, u);
            }
          }
          best := u;
        } else {
          LexTotal(u, best);
        }
      }
    }

    /** The part of a round both variants share once quota errors are ruled out. */
    method Conclude(order: seq<Url>, eligible: nat, heights: map<Url, int>, pairs: seq<(Url, Fetch)>, async: bool)
      returns (v: Verdict)
      requires SettingsOk(settings) && eligible >= 1
      requires forall u :: u in order <==> u in heights
      modifies this`binding, this`lastUrl, this`lastError
      ensures
        var required := RequiredSuccesses(settings, eligible);
        if |heights| < required then
          v == TooFewSuccesses && binding == old(binding) && lastUrl == old(lastUrl) && lastError == old(lastError)
        else if !WithinSpread(heights) then
          v == SpreadExceeded && binding == old(binding) && lastUrl == old(lastUrl) && lastError == Diverged(heights)
        else
          && v.Chosen? && v.url in heights && heights[v.url] == v.height
          && (forall u :: u in heights ==> u == v.url || Better(v.height, v.url, heights[u], u))
          && binding == (if async then AsyncTo(v.url) else SyncTo(v.url)) && lastUrl == Some(v.url)
          && lastError == (if required < eligible then Tolerated(|heights|, eligible, required, ClassifiedIn(pairs))
                           else NoError)
    {
      var required := RequiredSuccesses(settings, eligible);
      RequiredSuccessesBounds(settings, eligible);
      if |heights| < required {
        return TooFewSuccesses;
      }
      assert order != [] by {
        assert heights.Keys != {};
        var u :| u in heights.Keys;
        assert u in order;
      }
      var lowest, highest := Extremes(order, heights);
      if highest - lowest > SPREAD_THRESHOLD {
        lastError := Diverged(heights);
        return SpreadExceeded;
      }
      var chosen := SelectBest(order, heights);
      lastUrl := Some(chosen);
      binding := if async then AsyncTo(chosen) else SyncTo(chosen);
      lastError := NoError;
      if required < eligible {
        var classified := ClassifyErrors(pairs);
        lastError := Tolerated(|heights|, eligible, required, classified);
      }
      return Chosen(highest, chosen);
    }

    /** `_classify_errors`, for a round that had any. */
    method ClassifyErrors(pairs: seq<(Url, Fetch)>) returns (r: Option<Classified>)
      ensures r == ClassifiedIn(pairs)
    {
      if FailedIn(OutcomeMap(pairs)) == map[] {
        return None;
      }
      var quota: seq<Url>, timeout: seq<Url>, transport: seq<Url>, other: seq<Url> := [], [], [], [];
      for i := 0 to |pairs|
        invariant quota == InClass(pairs[..i], QuotaClass) && timeout == InClass(pairs[..i], TimeoutClass)
        invariant transport == InClass(pairs[..i], TransportClass) && other == InClass(pairs[..i], OtherClass)
      {
        assert pairs[..i + 1][..i] == pairs[..i];
        var (u, fetch) := pairs[i];
        if fetch.Failed? {
          if IsQuota(fetch.error) {
            quota := quota + [u];
          } else if fetch.error.kind == TimeoutError {
            timeout := timeout + [u];
          } else if fetch.error.kind == ConnectionError {
            transport := transport + [u];
          } else {
            other := other + [u];
          }
        }
      }
      assert pairs[..|pairs|] == pairs;
      return Some(Classified(quota, timeout, transport, other));
    }

    /** Sort the results that came in into heights, in arrival order, and failures. */
    method Collect(pairs: seq<(Url, Fetch)>)
      returns (heights: map<Url, int>, order: seq<Url>, failed: map<Url, string>, quota: bool)
      requires DistinctEndpoints(pairs)
      ensures heights == HeightsOf(OutcomeMap(pairs)) && failed == FailedIn(OutcomeMap(pairs))
      ensures quota <==> AnyQuota(OutcomeMap(pairs))
      ensures forall u :: u in order <==> u in heights
    {
      heights, order, failed, quota := map[], [], map[], false;
      for i := 0 to |pairs|
        invariant heights == HeightsOf(OutcomeMap(pairs[..i])) && failed == FailedIn(OutcomeMap(pairs[..i]))
        invariant quota <==> AnyQuota(OutcomeMap(pairs[..i]))
        invariant forall u :: u in order <==> u in heights
      {
        var u, fetch := pairs[i].0, pairs[i].1;
        assert pairs[..i + 1][..i] == pairs[..i];
        assert u !in OutcomeMap(pairs[..i]) by { OutcomesOfDistinct(pairs[..i]); }
        OneMoreOutcome(OutcomeMap(pairs[..i]), u, fetch);
        if fetch.Height? {
          heights, order := heights[u := fetch.height], order + [u];
        } else {
          failed := failed[u := fetch.error.text];
          quota := quota || IsQuota(fetch.error);
        }
      }
      assert pairs[..|pairs|] == pairs;
    }

    /** The locked second half of a round. A quota error anywhere abandons the round before anything
        is recorded; otherwise every endpoint's result reaches its breaker, whatever is decided. */
    method Settle(eligible: seq<Url>, pairs: seq<(Url, Fetch)>, clock: seq<real>, async: bool) returns (v: Verdict)
      requires SettingsOk(settings) && eligible != [] && |clock| == |eligible|
      requires DistinctEndpoints(pairs) && |pairs| == |eligible|
      modifies this
      ensures Decides(settings, OutcomeMap(pairs), v)
      ensures lastError == LastErrorAfter(settings, old(lastError), pairs, v, async)
      ensures Breaker() == if v.QuotaExhausted? then old(Breaker())
                           else AfterReadings(old(Breaker()), ReadingsOf(eligible, OutcomeMap(pairs), clock))
      ensures if v.Chosen? then binding == (if async then AsyncTo(v.url) else SyncTo(v.url)) && lastUrl == Some(v.url)
              else binding == old(binding) && lastUrl == old(lastUrl)
    {
      var heights, order, failed, quota := Collect(pairs);
      OutcomesOfDistinct(pairs);
      if quota {
        return QuotaExhausted;
      }
      RecordOutcome(eligible, OutcomeMap(pairs), clock);
      if !async && failed != map[] {
        lastError := PartialFailure(failed);
      }
      v := Conclude(order, |eligible|, heights, pairs, async);
    }

    /** `sync_reconcile` after the fetches: results come in completion order. */
    method SyncReconcile(eligible: seq<Url>, completed: seq<(Url, Fetch)>, clock: seq<real>) returns (v: Verdict)
      requires SettingsOk(settings) && eligible != [] && |clock| == |eligible|
      requires DistinctEndpoints(completed) && |completed| == |eligible|
      requires forall i :: 0 <= i < |completed| ==> completed[i].0 in eligible
      modifies this
      ensures Decides(settings, OutcomeMap(completed), v)
      ensures lastError == LastErrorAfter(settings, old(lastError), completed, v, false)
      ensures Breaker() == if v.QuotaExhausted? then old(Breaker())
                           else AfterReadings(old(Breaker()), ReadingsOf(eligible, OutcomeMap(completed), clock))
      ensures if v.Chosen? then binding == SyncTo(v.url) && lastUrl == Some(v.url)
              else binding == old(binding) && lastUrl == old(lastUrl)
    {
      v := Settle(eligible, completed, clock, false);
    }

    /** `async_reconcile` after the gather: results come in the order of the endpoints. */
    method AsyncReconcile(eligible: seq<Url>, results: seq<Fetch>, clock: seq<real>) returns (v: Verdict)
      requires SettingsOk(settings) && eligible != [] && |clock| == |eligible|
      requires Distinct(eligible) && |results| == |eligible|
      modifies this
      ensures Decides(settings, OutcomeMap(Zip(eligible, results)), v)
      ensures lastError == LastErrorAfter(settings, old(lastError), Zip(eligible, results), v, true)
      ensures Breaker() == if v.QuotaExhausted? then old(Breaker())
                           else AfterReadings(old(Breaker()),
                                              ReadingsOf(eligible, OutcomeMap(Zip(eligible, results)), clock))
      ensures if v.Chosen? then binding == AsyncTo(v.url) && lastUrl == Some(v.url)
              else binding == old(binding) && lastUrl == old(lastUrl)
    {
      v := Settle(eligible, Zip(eligible, results), clock, true);
    }

    /** Lowest and highest reported height. */
    method Extremes(order: seq<Url>, heights: map<Url, int>) returns (lowest: int, highest: int)
      requires order != [] && forall u :: u in order <==> u in heights
      ensures forall u :: u in heights ==> lowest <= heights[u] <= highest
      ensures exists u, w :: u in heights && w in heights && heights[u] == lowest && heights[w] == highest
    {
      lowest, highest := heights[order[0]], heights[order[0]];
      ghost var lowUrl, highUrl := order[0], order[0];
      for i := 1 to |order|
        invariant forall k :: 0 <= k < i ==> lowest <= heights[order[k]] <= highest
        invariant lowUrl in heights && highUrl in heights && heights[lowUrl] == lowest && heights[highUrl] == highest
      {
        var h := heights[order[i]];
        if h < lowest {
          lowest, lowUrl := h, order[i];
        }
        if h > highest {
          highest, highUrl := h, order[i];
        }
      }
    }
  }

  // ---------------------------------------------------------------- the decision, number by number

  /** A round without a quota error and with enough reports chooses an endpoint exactly when no two reports lie
      more than two blocks apart. */
  lemma ChosenExactlyWhen(c: Settings, outcomes: map<Url, Fetch>, v: Verdict)
    requires Decides(c, outcomes, v)
    ensures v.Chosen? <==>
      && !AnyQuota(outcomes) && |HeightsOf(outcomes)| >= RequiredSuccesses(c, |outcomes|)
      && forall u, w :: Reported(outcomes, u) && Reported(outcomes, w) ==> outcomes[u].height - outcomes[w].height <= 2
  {
    var heights := HeightsOf(outcomes);
    forall u, w | u in heights && w in heights
      ensures heights[u] - heights[w] <= 2 <==> outcomes[u].height - outcomes[w].height <= 2 {
    }
    if forall u, w :: Reported(outcomes, u) && Reported(outcomes, w) ==> outcomes[u].height - outcomes[w].height <= 2 {
      forall u, w | u in heights && w in heights ensures heights[u] - heights[w] <= 2 {
        assert Reported(outcomes, u) && Reported(outcomes, w);
      }
    }
  }

  /** Strings are compared at the first place where they differ; a prefix comes first. */
  lemma {:induction false} LexByFirstDifference(a: Url, b: Url)
    ensures LexLess(a, b) <==> exists k :: 0 <= k <= |a| && FirstDifference(a, b, k)
  {
    if a != "" && b != "" && a[0] == b[0] {
      LexByFirstDifference(a[1..], b[1..]);
      if k :| 0 <= k <= |a| - 1 && FirstDifference(a[1..], b[1..], k) {
        var next := k + 1;
        assert a[..next] == [a[0]] + a[1..][..k] && b[..next] == [b[0]] + b[1..][..k];
        assert FirstDifference(a, b, next);
      }
      if k :| 0 <= k <= |a| && FirstDifference(a, b, k) {
        if k == 0 {
          assert false;
        }
        var less := k - 1;
        assert a[1..][..less] == a[..k][1..] && b[1..][..less] == b[..k][1..];
        assert FirstDifference(a[1..], b[1..], less);
      }
    } else if a == "" && b != "" {
      assert FirstDifference(a, b, 0);
    } else if b != "" && a[0] != b[0] {
      if a[0] < b[0] {
        assert FirstDifference(a, b, 0);
      }
      forall k | 0 < k <= |a| ensures !FirstDifference(a, b, k) {
        if k < |b| {
          assert a[..k][0] != b[..k][0];
        }
      }
    }
  }

  predicate FirstDifference(a: string, b: string, k: nat)
    requires k <= |a|
  {
    k < |b| && a[..k] == b[..k] && (k == |a| || a[k] < b[k])
  }

  /** Either of two texts, anywhere in the message, makes an error a quota error, and nothing else does. */
  lemma QuotaByText(kind: ErrorKind, before: string, after: string)
    ensures IsQuota(FetchError(kind, before + "429" + after))
    ensures IsQuota(FetchError(kind, before + "Too Many Requests" + after))
  {
    assert StandsAt(before + "429" + after, "429", |before|);
    assert StandsAt(before + "Too Many Requests" + after, "Too Many Requests", |before|);
  }

  /** A failed endpoint is listed in one class: quota by its text, else by the kind of its error; and each class
      keeps the order in which the failures came in. */
  lemma {:induction false} ClassMembers(pairs: seq<(Url, Fetch)>, u: Url, group: Class)
    ensures u in InClass(pairs, group) <==> exists i :: 0 <= i < |pairs| && FailedAs(pairs, i, u, group)
  {
    if pairs != [] {
      var n := |pairs| - 1;
      ClassMembers(pairs[..n], u, group);
      assert FailedAs(pairs, n, u, group) <==>
        pairs[n].0 == u && pairs[n].1.Failed? && ClassOf(pairs[n].1.error) == group;
      if i :| 0 <= i < n && FailedAs(pairs[..n], i, u, group) {
        assert FailedAs(pairs, i, u, group);
      }
      if i :| 0 <= i < |pairs| && FailedAs(pairs, i, u, group) {
        assert i < n ==> FailedAs(pairs[..n], i, u, group);
      }
    }
  }

  predicate FailedAs(pairs: seq<(Url, Fetch)>, i: nat, u: Url, group: Class)
    requires i < |pairs|
  {
    pairs[i].0 == u && pairs[i].1.Failed? && Belongs(pairs[i].1.error, group)
  }

  predicate Belongs(e: FetchError, group: Class) {
    || (group == QuotaClass && IsQuota(e))
    || (group == TimeoutClass && !IsQuota(e) && e.kind == TimeoutError)
    || (group == TransportClass && !IsQuota(e) && e.kind == ConnectionError)
    || (group == OtherClass && !IsQuota(e) && e.kind == OtherError)
  }

  lemma {:induction false} ClassInOrder(first: seq<(Url, Fetch)>, second: seq<(Url, Fetch)>, group: Class)
    ensures InClass(first + second, group) == InClass(first, group) + InClass(second, group)
  {
    if second == [] {
      assert first + second == first;
    } else {
      var n := |second| - 1;
      assert (first + second)[..|first| + n] == first + second[..n];
      ClassInOrder(first, second[..n], group);
    }
  }
}
