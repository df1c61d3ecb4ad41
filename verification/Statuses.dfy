/** Status aggregation: many step statuses collapse into the most severe one. */
module Statuses {
  import opened Common

  /** The status taxonomy, least severe first. */
  datatype Severity = Info | Okay | Degraded | Rejected

  function Rank(s: Severity): nat {
    match s
    case Rejected => 3
    case Degraded => 2
    case Okay => 1
    case Info => 0
  }

  function Name(s: Severity): string {
    match s
    case Rejected => "rejected"
    case Degraded => "degraded"
    case Okay => "ok"
    case Info => "info"
  }

  /** The severity of a token; tokens outside the taxonomy count as "info". */
  function Classify(token: string): Severity {
    if token == "rejected" then Rejected
    else if token == "degraded" then Degraded
    else if token == "ok" then Okay
    else Info
  }

  predicate InTaxonomy(token: string) {
    token == "rejected" || token == "degraded" || token == "ok" || token == "info"
  }

  function Worse(a: Severity, b: Severity): Severity { if Rank(b) > Rank(a) then b else a }

  /** What aggregation promises: no input outranks `best`, and some input attains it. */
  ghost predicate IsMostSevere(statuses: seq<string>, best: Severity) {
    && (forall i :: 0 <= i < |statuses| ==> Rank(Classify(Strip(statuses[i]))) <= Rank(best))
    && (best == Info || exists i :: 0 <= i < |statuses| && Classify(Strip(statuses[i])) == best)
  }

  /** The aggregate as a value. */
  function Aggregate(statuses: seq<string>): Severity {
    if statuses == [] then Info
    else Worse(Aggregate(statuses[..|statuses| - 1]), Classify(Strip(statuses[|statuses| - 1])))
  }

  /** The loop of `aggregate_statuses`, with its early exit on "rejected". */
  method AggregateStatuses(statuses: seq<string>) returns (best: string)
    ensures best == Name(Aggregate(statuses))
  {
    best := "info";
    var bestRank := 0;
    for n := 0 to |statuses|
      invariant bestRank == Rank(Aggregate(statuses[..n])) < 3
      invariant best == Name(Aggregate(statuses[..n]))
    {
      var token := Strip(statuses[n]);
      var rank := Rank(Classify(token));
      AggregateUpTo(statuses, n);
      SevereTokensAreNamed(token);
      if rank > bestRank {
        best := if InTaxonomy(token) then token else "info";
        bestRank := rank;
        if best == "rejected" {
          return "rejected";
        }
      }
    }
    assert statuses[..|statuses|] == statuses;
  }

  lemma SevereTokensAreNamed(token: string)
    ensures Rank(Classify(token)) > 0 ==> InTaxonomy(token) && Name(Classify(token)) == token
    ensures token == "rejected" <==> Classify(token) == Rejected
  {
  }

  /** One more status, and why a prefix that is already "rejected" settles the whole. */
  lemma AggregateUpTo(statuses: seq<string>, n: nat)
    requires n < |statuses|
    ensures Aggregate(statuses[..n + 1]) == Worse(Aggregate(statuses[..n]), Classify(Strip(statuses[n])))
    ensures Aggregate(statuses[..n + 1]) == Rejected ==> Aggregate(statuses) == Rejected
  {
    assert statuses[..n + 1][..n] == statuses[..n];
    RejectedSettles(statuses[..n + 1], statuses[n + 1..]);
    assert statuses[..n + 1] + statuses[n + 1..] == statuses;
  }

  lemma RejectedSettles(first: seq<string>, second: seq<string>)
    ensures Aggregate(first) == Rejected ==> Aggregate(first + second) == Rejected
  {
    AggregateConcat(first, second);
  }

  lemma {:induction false} AggregateIsMostSevere(statuses: seq<string>)
    ensures IsMostSevere(statuses, Aggregate(statuses))
  {
    if statuses != [] {
      var n := |statuses| - 1;
      var init := statuses[..n];
      AggregateIsMostSevere(init);
      assert forall i :: 0 <= i < n ==> statuses[i] == init[i];
      if Aggregate(statuses) != Info && Aggregate(statuses) == Aggregate(init) {
        var i :| 0 <= i < n && Classify(Strip(init[i])) == Aggregate(init);
        assert Classify(Strip(statuses[i])) == Aggregate(statuses);
      }
    }
  }

  lemma MostSevereIsUnique(statuses: seq<string>, a: Severity, b: Severity)
    requires IsMostSevere(statuses, a) && IsMostSevere(statuses, b)
    ensures a == b
  {
    assert Rank(a) <= Rank(b) && Rank(b) <= Rank(a);
  }

  /** Aggregating in stages gives the same answer as aggregating everything at once. */
  lemma {:induction false} AggregateConcat(first: seq<string>, second: seq<string>)
    ensures Aggregate(first + second) == Worse(Aggregate(first), Aggregate(second))
  {
    if second == [] {
      assert first + second == first;
    } else {
      var n := |second| - 1;
      AggregateConcat(first, second[..n]);
      assert (first + second)[..|first + second| - 1] == first + second[..n];
    }
  }

  /** The order in which statuses arrive does not matter. */
  lemma AggregateIgnoresOrder(a: seq<string>, b: seq<string>)
    requires multiset(a) == multiset(b)
    ensures Aggregate(a) == Aggregate(b)
  {
    AggregateIsMostSevere(a);
    AggregateIsMostSevere(b);
    var best := Aggregate(a);
    forall i | 0 <= i < |b| ensures Rank(Classify(Strip(b[i]))) <= Rank(best) {
      assert b[i] in multiset(a);
    }
    if best != Info {
      var i :| 0 <= i < |a| && Classify(Strip(a[i])) == best;
      assert a[i] in multiset(b);
      var j :| 0 <= j < |b| && b[j] == a[i];
      assert Classify(Strip(b[j])) == best;
    }
    MostSevereIsUnique(b, best, Aggregate(b));
  }

  /** Re-aggregating a stored outcome with one more taxonomy token. */
  lemma AggregatePair(previous: Severity, token: string)
    requires InTaxonomy(token)
    ensures Aggregate([Name(previous), token]) == Worse(previous, Classify(token))
  {
    TaxonomyIsStripped(token);
    TaxonomyIsStripped(Name(previous));
    AggregateOfOne(Name(previous));
    AggregateOfOne(token);
    AggregateConcat([Name(previous)], [token]);
    assert [Name(previous)] + [token] == [Name(previous), token];
  }

  lemma AggregateOfOne(raw: string)
    ensures Aggregate([raw]) == Classify(Strip(raw))
  {
    assert [raw][..0] == [];
  }

  lemma TaxonomyIsStripped(token: string)
    requires InTaxonomy(token)
    ensures Strip(token) == token
  {
  }

  // ---------------------------------------------------------------- the four tokens

  ghost predicate Has(statuses: seq<string>, token: string) {
    exists i :: 0 <= i < |statuses| && Strip(statuses[i]) == token
  }

  /** "rejected" outweighs "degraded", which outweighs "ok"; anything else counts for nothing. */
  ghost function WorstOf(statuses: seq<string>): string {
    if Has(statuses, "rejected") then "rejected"
    else if Has(statuses, "degraded") then "degraded"
    else if Has(statuses, "ok") then "ok"
    else "info"
  }

  lemma AggregateByTokens(statuses: seq<string>)
    ensures Name(Aggregate(statuses)) == WorstOf(statuses)
  {
    AggregateIsMostSevere(statuses);
    var best := Aggregate(statuses);
    if best != Info {
      var i :| 0 <= i < |statuses| && Classify(Strip(statuses[i])) == best;
      assert Strip(statuses[i]) == Name(best);
    }
  }
}
