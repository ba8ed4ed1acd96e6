/**
 * The statistics of `validate_consistency` over the outcomes of repeated
 * game evaluations: pairwise rank agreement against the agents of the first
 * run, best-player frequency, the reliability test and its interpretation.
 */
module Consistency {
  import opened Wrappers

  /** What one successful run contributes: each agent's rank and the best player. */
  datatype RunResult = RunResult(ranks: map<string, int>, bestPlayer: string)

  /** The dictionary `validate_consistency` returns. */
  datatype Validation =
    | NotValidated(reason: string)
    | Validated(
        nRuns: int,
        agreementRate: real,
        bestPlayerConsistency: real,
        candidates: map<string, nat>,
        isReliable: bool,
        interpretation: string)

  const MIN_RUNS := 2
  const TOO_FEW_RUNS := "Need at least 2 runs for validation"
  const TOO_FEW_SUCCESSES := "Not enough successful runs"
  const STRONG := "Strong reliability"
  const MODERATE := "Moderate reliability"
  const WEAK := "Weak reliability - results may vary between runs"
  const RELIABLE_AGREEMENT := 0.6
  const RELIABLE_CONSISTENCY := 0.5
  const STRONG_AGREEMENT := 0.8

  // ---------------------------------------------------------------------------
  // Collecting the successful runs
  // ---------------------------------------------------------------------------

  /** The runs that produced an evaluation, in run order. */
  function Successes(outcomes: seq<Option<RunResult>>): (runs: seq<RunResult>)
    ensures |runs| <= |outcomes|
  {
    if outcomes == [] then []
    else
      var last := outcomes[|outcomes| - 1];
      Successes(outcomes[..|outcomes| - 1]) + (if last.Some? then [last.value] else [])
  }

  /** Every successful run is kept, in order, and nothing else. */
  lemma {:induction false} SuccessesAreTheSomes(outcomes: seq<Option<RunResult>>)
    ensures forall r :: r in Successes(outcomes) <==> Some(r) in outcomes
  {
    if outcomes != [] {
      var init := outcomes[..|outcomes| - 1];
      SuccessesAreTheSomes(init);
      assert outcomes == init + [outcomes[|outcomes| - 1]];
    }
  }

  function RankingsOf(runs: seq<RunResult>): (rs: seq<map<string, int>>)
    ensures |rs| == |runs|
  {
    seq(|runs|, k requires 0 <= k < |runs| => runs[k].ranks)
  }

  function BestPlayersOf(runs: seq<RunResult>): (bs: seq<string>)
    ensures |bs| == |runs|
  {
    seq(|runs|, k requires 0 <= k < |runs| => runs[k].bestPlayer)
  }

  // ---------------------------------------------------------------------------
  // Rank agreement
  // ---------------------------------------------------------------------------

  /** `ranking.get(agent, 0)`. */
  function RankOf(ranking: map<string, int>, agent: string): int {
    if agent in ranking then ranking[agent] else 0
  }

  /** The agents on whose rank two runs agree. */
  function Agreeing(a: map<string, int>, b: map<string, int>, agents: set<string>): set<string> {
    set x | x in agents && RankOf(a, x) == RankOf(b, x)
  }

  /** The two counters of the agreement loops. */
  datatype Tally = Tally(agreements: nat, comparisons: nat)

  function Plus(s: Tally, t: Tally): Tally {
    Tally(s.agreements + t.agreements, s.comparisons + t.comparisons)
  }

  /** One pair of runs: a comparison per agent, an agreement per agent ranked alike. */
  function PairTally(a: map<string, int>, b: map<string, int>, agents: set<string>): Tally {
    Tally(|Agreeing(a, b, agents)|, |agents|)
  }

  /** The pairs (i, j') with i < j' < j. */
  function RowTally(rankings: seq<map<string, int>>, agents: set<string>, i: nat, j: nat): Tally
    requires i < |rankings| && j <= |rankings|
  {
    if j <= i + 1 then Tally(0, 0)
    else Plus(RowTally(rankings, agents, i, j - 1), PairTally(rankings[i], rankings[j - 1], agents))
  }

  /** The pairs (i', j') with i' < i and i' < j'. */
  function AllTally(rankings: seq<map<string, int>>, agents: set<string>, i: nat): Tally
    requires i <= |rankings|
  {
    if i == 0 then Tally(0, 0)
    else Plus(AllTally(rankings, agents, i - 1), RowTally(rankings, agents, i - 1, |rankings|))
  }

  /** `agreements / max(comparisons, 1)` over every pair of runs and the agents of the first run. */
  function AgreementRate(rankings: seq<map<string, int>>): real
    requires |rankings| >= 1
  {
    var t := AllTally(rankings, rankings[0].Keys, |rankings|);
    (t.agreements as real) / (if t.comparisons > 1 then t.comparisons else 1) as real
  }

  lemma AgreeingIsSubset(a: map<string, int>, b: map<string, int>, agents: set<string>)
    ensures |Agreeing(a, b, agents)| <= |agents|
  {
    assert Agreeing(a, b, agents) <= agents;
    SubsetCardinality(Agreeing(a, b, agents), agents);
  }

  lemma SubsetCardinality(s: set<string>, t: set<string>)
    requires s <= t
    ensures |s| <= |t|
  {
    assert t == s + (t - s);
  }

  /** Agreements never outnumber comparisons, row by row. */
  lemma {:induction false} RowTallyBounded(rankings: seq<map<string, int>>, agents: set<string>, i: nat, j: nat)
    requires i < |rankings| && j <= |rankings|
    ensures RowTally(rankings, agents, i, j).agreements <= RowTally(rankings, agents, i, j).comparisons
  {
    if j > i + 1 {
      RowTallyBounded(rankings, agents, i, j - 1);
      AgreeingIsSubset(rankings[i], rankings[j - 1], agents);
    }
  }

  lemma {:induction false} AllTallyBounded(rankings: seq<map<string, int>>, agents: set<string>, i: nat)
    requires i <= |rankings|
    ensures AllTally(rankings, agents, i).agreements <= AllTally(rankings, agents, i).comparisons
  {
    if i > 0 {
      AllTallyBounded(rankings, agents, i - 1);
      RowTallyBounded(rankings, agents, i - 1, |rankings|);
    }
  }

  lemma RatioAtMostOne(x: real, d: real)
    requires 0.0 <= x <= d && d > 0.0
    ensures 0.0 <= x / d <= 1.0
  {
  }

  lemma DivideMonotone(x: real, y: real, n: real)
    requires x <= y && n > 0.0
    ensures x / n <= y / n
  {
  }

  /** The agreement rate lies in 0..1. */
  lemma AgreementRateRange(rankings: seq<map<string, int>>)
    requires |rankings| >= 1
    ensures 0.0 <= AgreementRate(rankings) <= 1.0
  {
    var t := AllTally(rankings, rankings[0].Keys, |rankings|);
    AllTallyBounded(rankings, rankings[0].Keys, |rankings|);
    RatioAtMostOne(t.agreements as real, (if t.comparisons > 1 then t.comparisons else 1) as real);
  }

  /** Every run gives each agent the rank `ref` gives it. */
  predicate RankAlike(rankings: seq<map<string, int>>, agents: set<string>, ref: map<string, int>) {
    forall k, x :: 0 <= k < |rankings| && x in agents ==> RankOf(rankings[k], x) == RankOf(ref, x)
  }

  /** Runs that rank every agent alike agree on every comparison. */
  lemma {:induction false} IdenticalRowsAgree(rankings: seq<map<string, int>>, agents: set<string>, ref: map<string, int>, i: nat, j: nat)
    requires i < |rankings| && j <= |rankings|
    requires RankAlike(rankings, agents, ref)
    ensures RowTally(rankings, agents, i, j).agreements == RowTally(rankings, agents, i, j).comparisons
  {
    if j > i + 1 {
      IdenticalRowsAgree(rankings, agents, ref, i, j - 1);
      assert Agreeing(rankings[i], rankings[j - 1], agents) == agents;
    }
  }

  /** Every row of the pairs counts as many agreements as comparisons. */
  predicate RowsAgree(rankings: seq<map<string, int>>, agents: set<string>) {
    forall r :: 0 <= r < |rankings| ==> Balanced(RowTally(rankings, agents, r, |rankings|))
  }

  predicate Balanced(t: Tally) {
    t.agreements == t.comparisons
  }

  lemma {:induction false} IdenticalRunsAgree(rankings: seq<map<string, int>>, agents: set<string>, i: nat)
    requires i <= |rankings|
    requires RowsAgree(rankings, agents)
    ensures Balanced(AllTally(rankings, agents, i))
  {
    if i > 0 {
      IdenticalRunsAgree(rankings, agents, i - 1);
      assert Balanced(RowTally(rankings, agents, i - 1, |rankings|));
    }
  }

  /**
   * When at least two runs all give each agent of the first run the same
   * rank, and the first run ranks someone, the rate is exactly 1.
   */
  lemma IdenticalRunsRateOne(rankings: seq<map<string, int>>)
    requires |rankings| >= 2 && rankings[0].Keys != {}
    requires RankAlike(rankings, rankings[0].Keys, rankings[0])
    ensures AgreementRate(rankings) == 1.0
  {
    var agents := rankings[0].Keys;
    forall r | 0 <= r < |rankings| ensures Balanced(RowTally(rankings, agents, r, |rankings|)) {
      IdenticalRowsAgree(rankings, agents, rankings[0], r, |rankings|);
    }
    IdenticalRunsAgree(rankings, agents, |rankings|);
    AllTallyGrows(rankings, agents, |rankings|);
    RowTallyAtLeastOne(rankings, agents, 0, |rankings|);
    var t := AllTally(rankings, agents, |rankings|);
    assert t.agreements == t.comparisons >= 1;
    RatioOfEqual(t.agreements as real, (if t.comparisons > 1 then t.comparisons else 1) as real);
  }

  lemma RatioOfEqual(x: real, d: real)
    requires x == d && d > 0.0
    ensures x / d == 1.0
  {
  }

  /** The total counts at least the first row. */
  lemma {:induction false} AllTallyGrows(rankings: seq<map<string, int>>, agents: set<string>, i: nat)
    requires 1 <= i <= |rankings|
    ensures AllTally(rankings, agents, i).comparisons >= RowTally(rankings, agents, 0, |rankings|).comparisons
  {
    if i > 1 {
      AllTallyGrows(rankings, agents, i - 1);
    }
  }

  lemma {:induction false} RowTallyAtLeastOne(rankings: seq<map<string, int>>, agents: set<string>, i: nat, j: nat)
    requires i < |rankings| && i + 1 < j <= |rankings| && agents != {}
    ensures RowTally(rankings, agents, i, j).comparisons >= 1
  {
    if j - 1 > i + 1 {
      RowTallyAtLeastOne(rankings, agents, i, j - 1);
    }
  }

  /**
   * The agent set comes from the first run only, so the rate depends on the
   * order of the runs: a run that also ranks "Bob" scores 1 after a run that
   * ranks only "Alice", and 1/2 before it.
   */
  lemma RateDependsOnFirstRun()
    ensures AgreementRate([map["Alice" := 1], map["Alice" := 1, "Bob" := 2]]) == 1.0
    ensures AgreementRate([map["Alice" := 1, "Bob" := 2], map["Alice" := 1]]) == 0.5
  {
    var a := map["Alice" := 1];
    var b := map["Alice" := 1, "Bob" := 2];
    AliceBobTallies(a, b);
    TwoRunRate([a, b], Tally(1, 1));
    TwoRunRate([b, a], Tally(1, 2));
  }

  /** With two runs the rate is that one pair's agreements over its comparisons. */
  lemma TwoRunRate(rs: seq<map<string, int>>, t: Tally)
    requires |rs| == 2 && PairTally(rs[0], rs[1], rs[0].Keys) == t
    ensures AgreementRate(rs) == (t.agreements as real) / (if t.comparisons > 1 then t.comparisons else 1) as real
  {
    TwoRunTally(rs, rs[0].Keys);
  }

  lemma PlusZero(t: Tally)
    ensures Plus(Tally(0, 0), t) == t
  {
  }

  /** Two runs make exactly one pair. */
  lemma TwoRunTally(rs: seq<map<string, int>>, agents: set<string>)
    requires |rs| == 2
    ensures AllTally(rs, agents, |rs|) == PairTally(rs[0], rs[1], agents)
  {
    PlusZero(PairTally(rs[0], rs[1], agents));
    assert RowTally(rs, agents, 0, 2) == PairTally(rs[0], rs[1], agents);
    PlusZero(RowTally(rs, agents, 0, 2));
    assert AllTally(rs, agents, 1) == PairTally(rs[0], rs[1], agents);
  }

  lemma AliceBobTallies(a: map<string, int>, b: map<string, int>)
    requires a == map["Alice" := 1] && b == map["Alice" := 1, "Bob" := 2]
    ensures PairTally(a, b, a.Keys) == Tally(1, 1)
    ensures PairTally(b, a, b.Keys) == Tally(1, 2)
  {
    assert a.Keys == {"Alice"};
    assert b.Keys == {"Alice", "Bob"};
    assert Agreeing(a, b, a.Keys) == {"Alice"};
    assert RankOf(a, "Bob") == 0;
    assert Agreeing(b, a, b.Keys) == {"Alice"};
  }

  // ---------------------------------------------------------------------------
  // Best-player frequency and the verdict
  // ---------------------------------------------------------------------------

  /** `best_player_counts`: how many runs named each best player. */
  function Candidates(bests: seq<string>): (counts: map<string, nat>)
    ensures forall b :: b in counts <==> b in bests
  {
    map b | b in bests :: multiset(bests)[b]
  }

  /** `agreement_rate > 0.6 and best_player_consistency > 0.5`. */
  predicate IsReliable(rate: real, consistency: real) {
    rate > RELIABLE_AGREEMENT && consistency > RELIABLE_CONSISTENCY
  }

  /** The three reliability buckets of the agreement rate. */
  function Interpretation(rate: real): (s: string)
    ensures s == STRONG || s == MODERATE || s == WEAK
  {
    if rate > STRONG_AGREEMENT then STRONG
    else if rate > RELIABLE_AGREEMENT then MODERATE
    else WEAK
  }

  /**
   * The interpretation is not "Weak" exactly when the rate passes the
   * reliability threshold, and it is "Strong" exactly above 0.8.
   */
  lemma InterpretationMatchesThreshold(rate: real, consistency: real)
    ensures Interpretation(rate) != WEAK <==> rate > RELIABLE_AGREEMENT
    ensures Interpretation(rate) == STRONG <==> rate > STRONG_AGREEMENT
    ensures IsReliable(rate, consistency) ==> Interpretation(rate) != WEAK
  {
  }

  /** A name occurs in a list no more often than the list is long. */
  lemma {:induction false} CountAtMostLength(bests: seq<string>, b: string)
    ensures multiset(bests)[b] <= |bests|
  {
    if bests != [] {
      var init := bests[..|bests| - 1];
      CountAtMostLength(init, b);
      assert bests == init + [bests[|bests| - 1]];
    }
  }

  /** The largest count of the tally, by one pass over the candidates. */
  method MostCommonCount(counts: map<string, nat>) returns (m: nat)
    requires counts != map[]
    ensures m in counts.Values
    ensures forall b :: b in counts ==> counts[b] <= m
  {
    var rest := counts.Keys;
    var b0 :| b0 in rest;
    m := counts[b0];
    rest := rest - {b0};
    while rest != {}
      invariant rest <= counts.Keys
      invariant m in counts.Values
      invariant forall b :: b in counts && b !in rest ==> counts[b] <= m
      decreases |rest|
    {
      var b :| b in rest;
      if counts[b] > m {
        m := counts[b];
      }
      rest := rest - {b};
    }
  }

  /** One agent's step of the innermost loop, stated on sets. */
  lemma AgreeingStep(a: map<string, int>, b: map<string, int>, done: set<string>, x: string)
    requires x !in done
    ensures |Agreeing(a, b, done + {x})| == |Agreeing(a, b, done)| + (if RankOf(a, x) == RankOf(b, x) then 1 else 0)
  {
    if RankOf(a, x) == RankOf(b, x) {
      assert Agreeing(a, b, done + {x}) == Agreeing(a, b, done) + {x};
    } else {
      assert Agreeing(a, b, done + {x}) == Agreeing(a, b, done);
    }
  }

  /** The innermost loop: one pair of runs, agent by agent. */
  method ComparePair(a: map<string, int>, b: map<string, int>, agents: set<string>) returns (t: Tally)
    ensures t == PairTally(a, b, agents)
  {
    var agreements := 0;
    var comparisons := 0;
    var rest := agents;
    ghost var done: set<string> := {};
    while rest != {}
      invariant rest + done == agents && rest !! done
      invariant agreements == |Agreeing(a, b, done)| && comparisons == |done|
      decreases |rest|
    {
      var x :| x in rest;
      AgreeingStep(a, b, done, x);
      if RankOf(a, x) == RankOf(b, x) {
        agreements := agreements + 1;
      }
      comparisons := comparisons + 1;
      rest := rest - {x};
      done := done + {x};
    }
    t := Tally(agreements, comparisons);
  }

  /** The collection loop: the rankings and best players of the runs that produced an evaluation. */
  method CollectRuns(outcomes: seq<Option<RunResult>>) returns (rankings: seq<map<string, int>>, bests: seq<string>)
    ensures rankings == RankingsOf(Successes(outcomes))
    ensures bests == BestPlayersOf(Successes(outcomes))
  {
    rankings := [];
    bests := [];
    for run := 0 to |outcomes|
      invariant rankings == RankingsOf(Successes(outcomes[..run]))
      invariant bests == BestPlayersOf(Successes(outcomes[..run]))
    {
      assert outcomes[..run + 1][..run] == outcomes[..run];
      var evaluation := outcomes[run];
      if evaluation.Some? {
        rankings := rankings + [evaluation.value.ranks];
        bests := bests + [evaluation.value.bestPlayer];
      }
    }
    assert outcomes[..|outcomes|] == outcomes;
  }

  /** The two outer agreement loops over the pairs i < j of runs. */
  method TallyRuns(rankings: seq<map<string, int>>, agents: set<string>) returns (total: Tally)
    ensures total == AllTally(rankings, agents, |rankings|)
  {
    total := Tally(0, 0);
    for i := 0 to |rankings|
      invariant total == AllTally(rankings, agents, i)
    {
      var row := Tally(0, 0);
      for j := i + 1 to |rankings|
        invariant row == RowTally(rankings, agents, i, j)
      {
        var pair := ComparePair(rankings[i], rankings[j], agents);
        row := Plus(row, pair);
      }
      total := Plus(total, row);
    }
  }

  /** The counting loop of `best_player_counts`. */
  method CountBestPlayers(bests: seq<string>) returns (counts: map<string, nat>)
    ensures counts == Candidates(bests)
  {
    counts := map[];
    for k := 0 to |bests|
      invariant forall b :: b in counts <==> b in bests[..k]
      invariant forall b :: b in counts ==> counts[b] == multiset(bests[..k])[b]
    {
      assert bests[..k + 1] == bests[..k] + [bests[k]];
      var bp := bests[k];
      counts := counts[bp := (if bp in counts then counts[bp] else 0) + 1];
    }
    assert bests[..|bests|] == bests;
  }

  /**
   * `validate_consistency` over the outcomes of its `n_runs` evaluations
   * (`None` for a run that failed): too few runs or too few successes give a
   * reason; otherwise the agreement rate against the agents of the first
   * successful run, the share of the most frequent best player, the
   * candidates' counts, the reliability test and its interpretation, with
   * `n_runs` as requested.
   */
  method ValidateConsistency(nRuns: int, outcomes: seq<Option<RunResult>>) returns (v: Validation)
    requires nRuns < MIN_RUNS || |outcomes| == nRuns
    ensures nRuns < MIN_RUNS ==> v == NotValidated(TOO_FEW_RUNS)
    ensures nRuns >= MIN_RUNS && |Successes(outcomes)| < MIN_RUNS ==> v == NotValidated(TOO_FEW_SUCCESSES)
    ensures nRuns >= MIN_RUNS && |Successes(outcomes)| >= MIN_RUNS ==>
              var runs := Successes(outcomes);
              var bests := BestPlayersOf(runs);
              && v.Validated?
              && v.nRuns == nRuns
              && v.agreementRate == AgreementRate(RankingsOf(runs))
              && v.candidates == Candidates(bests)
              && (exists b :: b in bests && v.bestPlayerConsistency == (multiset(bests)[b] as real) / (|bests| as real))
              && (forall b :: (multiset(bests)[b] as real) / (|bests| as real) <= v.bestPlayerConsistency)
              && 0.0 < v.bestPlayerConsistency <= 1.0
              && (v.isReliable <==> IsReliable(v.agreementRate, v.bestPlayerConsistency))
              && v.interpretation == Interpretation(v.agreementRate)
  {
    if nRuns < MIN_RUNS {
      return NotValidated(TOO_FEW_RUNS);
    }
    var rankings, bests := CollectRuns(outcomes);
    if |rankings| < MIN_RUNS {
      return NotValidated(TOO_FEW_SUCCESSES);
    }
    var total := TallyRuns(rankings, rankings[0].Keys);
    var rate := (total.agreements as real) / (if total.comparisons > 1 then total.comparisons else 1) as real;
    var counts := CountBestPlayers(bests);
    assert bests[0] in counts;
    var most := MostCommonCount(counts);
    var consistency := (most as real) / (|bests| as real);
    ConsistencyFacts(bests, counts, most);
    v := Validated(nRuns, rate, consistency, counts, IsReliable(rate, consistency), Interpretation(rate));
  }

  /** The share of the most common best player is that of some candidate, at least every other's, and in (0, 1]. */
  lemma ConsistencyFacts(bests: seq<string>, counts: map<string, nat>, most: nat)
    requires bests != [] && counts == Candidates(bests)
    requires most in counts.Values && forall b :: b in counts ==> counts[b] <= most
    ensures exists b :: b in bests && (most as real) / (|bests| as real) == (multiset(bests)[b] as real) / (|bests| as real)
    ensures forall b :: (multiset(bests)[b] as real) / (|bests| as real) <= (most as real) / (|bests| as real)
    ensures 0.0 < (most as real) / (|bests| as real) <= 1.0
  {
    var n := |bests| as real;
    var b :| b in counts && counts[b] == most;
    assert b in bests;
    CountAtMostLength(bests, b);
    assert 1 <= most <= |bests|;
    RatioAtMostOne(most as real, n);
    assert (most as real) / n != 0.0;
    forall c ensures (multiset(bests)[c] as real) / n <= (most as real) / n {
      if c in bests {
        assert counts[c] <= most;
      }
      DivideMonotone(multiset(bests)[c] as real, most as real, n);
    }
  }
}
