/** The two-thirds vote of the quorum provider over the digests its endpoints returned. */
module Quorum {
  import opened CircuitBreaker

  type Digest = string

  datatype Answer = Answer(url: Url, digest: Digest)

  datatype Vote =
    | NoEndpoints
    | NoConsensus(observed: nat, required: nat)
    | Consensus(digest: Digest, nodes: seq<Url>)

  /** Two thirds of the endpoints, rounded up. */
  function RequiredVotes(n: nat): nat { (2 * n + 2) / 3 }

  /** The endpoints that answered `d`, in order. */
  function Voters(answers: seq<Answer>, d: Digest): seq<Url> {
    if answers == [] then []
    else
      var n := |answers| - 1;
      Voters(answers[..n], d) + (if answers[n].digest == d then [answers[n].url] else [])
  }

  lemma {:induction false} AnswersAreVotes(answers: seq<Answer>, i: nat)
    requires i < |answers|
    ensures Voters(answers, answers[i].digest) != []
  {
    if i < |answers| - 1 {
      AnswersAreVotes(answers[..|answers| - 1], i);
    }
  }

  // ---------------------------------------------------------------- the vote

  function Votes(groups: map<Digest, seq<Url>>, d: Digest): seq<Url> { if d in groups then groups[d] else [] }

  /** `digests` lists the keys in insertion order, once each. */
  ghost predicate Keys(digests: seq<Digest>, groups: map<Digest, seq<Url>>) {
    && (forall d :: d in groups <==> d in digests)
    && (forall i, j :: 0 <= i < j < |digests| ==> digests[i] != digests[j])
  }

  /** `groups` holds the voters of every digest that has any. */
  ghost predicate Tallied(answers: seq<Answer>, groups: map<Digest, seq<Url>>) {
    && (forall d :: Votes(groups, d) == Voters(answers, d))
    && (forall d :: d in groups ==> groups[d] != [])
  }

  ghost predicate Grouped(answers: seq<Answer>, digests: seq<Digest>, groups: map<Digest, seq<Url>>) {
    Keys(digests, groups) && Tallied(answers, groups)
  }

  lemma TallyOneMore(answers: seq<Answer>, i: nat, groups: map<Digest, seq<Url>>)
    requires i < |answers| && Tallied(answers[..i], groups)
    ensures var d := answers[i].digest;
      Tallied(answers[..i + 1], groups[d := Votes(groups, d) + [answers[i].url]])
  {
    assert answers[..i + 1][..i] == answers[..i];
    var d := answers[i].digest;
    var next := groups[d := Votes(groups, d) + [answers[i].url]];
    forall e ensures Votes(next, e) == Voters(answers[..i + 1], e) {
      assert Votes(groups, e) == Voters(answers[..i], e);
    }
  }

  method Group(answers: seq<Answer>) returns (digests: seq<Digest>, groups: map<Digest, seq<Url>>)
    ensures Grouped(answers, digests, groups)
  {
    digests, groups := [], map[];
    for i := 0 to |answers|
      invariant Keys(digests, groups)
      invariant Tallied(answers[..i], groups)
    {
      var answer := answers[i];
      ghost var before := groups;
      TallyOneMore(answers, i, groups);
      if answer.digest !in groups {
        digests, groups := digests + [answer.digest], groups[answer.digest := []];
      }
      groups := groups[answer.digest := groups[answer.digest] + [answer.url]];
      assert groups == before[answer.digest := Votes(before, answer.digest) + [answer.url]];
    }
    assert answers[..|answers|] == answers;
  }

  /** A consensus has the required votes, and where there is none no digest has them. */
  ghost predicate VoteOf(answers: seq<Answer>, v: Vote) {
    match v
    case NoEndpoints => answers == []
    case Consensus(digest, nodes) =>
      answers != [] && nodes == Voters(answers, digest) && |nodes| >= RequiredVotes(|answers|)
    case NoConsensus(observed, required) =>
      && answers != [] && observed < required == RequiredVotes(|answers|)
      && (exists d :: |Voters(answers, d)| == observed)
      && forall d :: |Voters(answers, d)| <= observed
  }

  /** The decision of `quorum_eth_call` once every endpoint has answered. */
  method QuorumVote(answers: seq<Answer>) returns (v: Vote)
    ensures VoteOf(answers, v)
  {
    if answers == [] {
      return NoEndpoints;
    }
    var digests, groups := Group(answers);
    AnswersAreVotes(answers, 0);
    var best := digests[0];
    for i := 1 to |digests|
      invariant best in groups
      invariant forall k :: 0 <= k < i ==> |groups[digests[k]]| <= |groups[best]|
    {
      if |groups[digests[i]]| > |groups[best]| {
        best := digests[i];
      }
    }
    var required := RequiredVotes(|answers|);
    assert Votes(groups, best) == Voters(answers, best);
    return if |groups[best]| < required then NoConsensus(|groups[best]|, required) else Consensus(best, groups[best]);
  }

  // ---------------------------------------------------------------- partition

  function Urls(answers: seq<Answer>): seq<Url> {
    if answers == [] then [] else Urls(answers[..|answers| - 1]) + [answers[|answers| - 1].url]
  }

  /** The votes of the listed digests, one group after the other. */
  function Gathered(answers: seq<Answer>, digests: seq<Digest>): seq<Url> {
    if digests == [] then [] else Voters(answers, digests[0]) + Gathered(answers, digests[1..])
  }

  lemma {:induction false} GatheredOneMore(answers: seq<Answer>, digests: seq<Digest>)
    requires answers != [] && forall i, j :: 0 <= i < j < |digests| ==> digests[i] != digests[j]
    ensures var n := |answers| - 1;
      multiset(Gathered(answers, digests)) == multiset(Gathered(answers[..n], digests))
        + (if answers[n].digest in digests then multiset{answers[n].url} else multiset{})
  {
    if digests != [] {
      GatheredOneMore(answers, digests[1..]);
      assert digests == [digests[0]] + digests[1..];
      assert digests[0] !in digests[1..];
    }
  }

  /** Grouping neither loses, repeats nor invents an answer: laid side by side, the groups are a
      rearrangement of the endpoints that answered. */
  lemma GroupsPartitionAnswers(answers: seq<Answer>, digests: seq<Digest>, groups: map<Digest, seq<Url>>)
    requires Grouped(answers, digests, groups)
    ensures multiset(Gathered(answers, digests)) == multiset(Urls(answers))
  {
    forall i | 0 <= i < |answers| ensures answers[i].digest in digests {
      AnswersAreVotes(answers, i);
    }
    GatheredIsComplete(answers, digests);
  }

  lemma {:induction false} GatheredIsComplete(answers: seq<Answer>, digests: seq<Digest>)
    requires forall i :: 0 <= i < |answers| ==> answers[i].digest in digests
    requires forall i, j :: 0 <= i < j < |digests| ==> digests[i] != digests[j]
    ensures multiset(Gathered(answers, digests)) == multiset(Urls(answers))
  {
    if answers == [] {
      NothingGathered(digests);
    } else {
      GatheredOneMore(answers, digests);
      GatheredIsComplete(answers[..|answers| - 1], digests);
    }
  }

  lemma {:induction false} NothingGathered(digests: seq<Digest>)
    ensures Gathered([], digests) == []
  {
    if digests != [] {
      NothingGathered(digests[1..]);
    }
  }

  // ---------------------------------------------------------------- intersection and liveness

  lemma {:induction false} VotesShareEndpoints(answers: seq<Answer>, d: Digest, e: Digest)
    requires d != e
    ensures |Voters(answers, d)| + |Voters(answers, e)| <= |answers|
  {
    if answers != [] {
      VotesShareEndpoints(answers[..|answers| - 1], d, e);
    }
  }

  /** No two digests can both reach the required votes, so the winner is the only candidate. */
  lemma QuorumIsUnique(answers: seq<Answer>, d: Digest, e: Digest)
    requires answers != []
    requires |Voters(answers, d)| >= RequiredVotes(|answers|) && |Voters(answers, e)| >= RequiredVotes(|answers|)
    ensures d == e
  {
    if d != e {
      VotesShareEndpoints(answers, d, e);
    }
  }

  /** Endpoints outside `faulty` return the honest digest; the others return anything. */
  ghost predicate HonestExcept(answers: seq<Answer>, honest: Digest, faulty: set<Url>) {
    forall i :: 0 <= i < |answers| && answers[i].url !in faulty ==> answers[i].digest == honest
  }

  ghost predicate DistinctUrls(answers: seq<Answer>) {
    forall i, j :: 0 <= i < j < |answers| ==> answers[i].url != answers[j].url
  }

  /** The faulty endpoints among the answers. */
  ghost function FaultyAmong(answers: seq<Answer>, faulty: set<Url>): set<Url> {
    set i | 0 <= i < |answers| && answers[i].url in faulty :: answers[i].url
  }

  lemma OneMoreFaulty(answers: seq<Answer>, faulty: set<Url>)
    requires answers != []
    ensures var n := |answers| - 1;
      FaultyAmong(answers, faulty) ==
        FaultyAmong(answers[..n], faulty) + (if answers[n].url in faulty then {answers[n].url} else {})
  {
    var n := |answers| - 1;
    var before := answers[..n];
    forall u | u in FaultyAmong(before, faulty) ensures u in FaultyAmong(answers, faulty) {
      var i :| 0 <= i < n && before[i].url in faulty && before[i].url == u;
      assert answers[i].url == u;
    }
    forall u | u in FaultyAmong(answers, faulty) && u != answers[n].url ensures u in FaultyAmong(before, faulty) {
      var i :| 0 <= i <= n && answers[i].url in faulty && answers[i].url == u;
      assert before[i].url == u;
    }
  }

  lemma {:induction false} FaultyBound(answers: seq<Answer>, honest: Digest, faulty: set<Url>, other: Digest)
    requires HonestExcept(answers, honest, faulty) && DistinctUrls(answers) && other != honest
    ensures |Voters(answers, other)| <= |FaultyAmong(answers, faulty)|
    ensures |Voters(answers, honest)| >= |answers| - |FaultyAmong(answers, faulty)|
  {
    if answers != [] {
      var n := |answers| - 1;
      FaultyBound(answers[..n], honest, faulty, other);
      assert answers[n].url !in FaultyAmong(answers[..n], faulty);
      OneMoreFaulty(answers, faulty);
    }
  }

  /** A consensus on anything but the honest digest takes two thirds of the endpoints; with at most
      a third of them faulty, rounded down, the honest digest always reaches the required votes. */
  lemma HonestQuorum(answers: seq<Answer>, honest: Digest, faulty: set<Url>, other: Digest)
    requires answers != [] && HonestExcept(answers, honest, faulty) && DistinctUrls(answers) && other != honest
    ensures |Voters(answers, other)| >= RequiredVotes(|answers|) ==>
              |FaultyAmong(answers, faulty)| >= RequiredVotes(|answers|)
    ensures |FaultyAmong(answers, faulty)| <= |answers| / 3 ==>
              && |Voters(answers, honest)| >= RequiredVotes(|answers|)
              && |Voters(answers, other)| < RequiredVotes(|answers|)
  {
    FaultyBound(answers, honest, faulty, other);
    VotesShareEndpoints(answers, honest, other);
  }

  /** So with at most a third of the endpoints faulty, whatever these answer and in whatever order, the vote
      ends in a consensus on the honest digest, by exactly the endpoints that returned it. */
  lemma HonestVote(answers: seq<Answer>, honest: Digest, faulty: set<Url>, v: Vote)
    requires answers != [] && HonestExcept(answers, honest, faulty) && DistinctUrls(answers)
    requires |FaultyAmong(answers, faulty)| <= |answers| / 3 && VoteOf(answers, v)
    ensures v == Consensus(honest, Voters(answers, honest))
  {
    var other := honest + "x";
    HonestQuorum(answers, honest, faulty, other);
    if v.Consensus? {
      QuorumIsUnique(answers, honest, v.digest);
    }
  }

  /** The bound is tight: one more faulty endpoint can block the vote. */
  lemma {:induction false} OneMoreFaultBlocks(urls: seq<Url>, honest: Digest, other: Digest, faults: nat)
    returns (answers: seq<Answer>)
    requires honest != other && faults <= |urls|
    ensures |answers| == |urls| && forall i :: 0 <= i < |urls| ==> answers[i].url == urls[i]
    ensures HonestExcept(answers, honest, set u | u in urls[..faults])
    ensures |Voters(answers, honest)| <= |urls| - faults
    ensures faults > |urls| / 3 ==> |Voters(answers, honest)| < RequiredVotes(|urls|)
  {
    answers := seq(|urls|, i requires 0 <= i < |urls| => Answer(urls[i], if i < faults then other else honest));
    forall i | 0 <= i < faults ensures answers[i].url in urls[..faults] {
      assert urls[..faults][i] == urls[i];
    }
    SilentPrefix(answers, honest, faults);
  }

  lemma {:induction false} SilentPrefix(answers: seq<Answer>, d: Digest, k: nat)
    requires k <= |answers| && forall i :: 0 <= i < k ==> answers[i].digest != d
    ensures |Voters(answers, d)| <= |answers| - k
  {
    if answers != [] {
      SilentPrefix(answers[..|answers| - 1], d, if k < |answers| then k else k - 1);
    }
  }

  // ---------------------------------------------------------------- two thirds, vote by vote

  /** The required votes are the least number that is two thirds of all. */
  lemma TwoThirds(n: nat)
    ensures 3 * RequiredVotes(n) >= 2 * n
    ensures forall k: nat :: 3 * k >= 2 * n ==> k >= RequiredVotes(n)
  {
  }

  /** The voters of a digest are the endpoints that answered it, in the order they answered. */
  lemma {:induction false} VotersInOrder(first: seq<Answer>, second: seq<Answer>, d: Digest)
    ensures Voters(first + second, d) == Voters(first, d) + Voters(second, d)
  {
    if second == [] {
      assert first + second == first;
    } else {
      var n := |second| - 1;
      var all := first + second;
      assert all[..|all| - 1] == first + second[..n] && all[|all| - 1] == second[n];
      VotersInOrder(first, second[..n], d);
    }
  }

  lemma VotersOfOne(a: Answer, d: Digest)
    ensures Voters([a], d) == if a.digest == d then [a.url] else []
  {
    assert [a][..0] == [];
  }
}
