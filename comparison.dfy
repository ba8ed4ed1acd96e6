/**
 * The deterministic part of `compare_agents`: applying the judge's
 * `player_ranking` to the evaluation records, ranking the agents the judge
 * left out after the ranked ones, and the quantitative fallback used when
 * the comparative call fails.
 */
module Comparison {
  import opened Wrappers
  import opened Text
  import opened Sorting
  import opened Agents

  /** One entry of the judge's `player_ranking`; an absent key is `None`. */
  datatype RankEntry = RankEntry(agentName: Option<string>, rank: Option<int>, score: Option<real>)

  /** The parsed comparative reply; an absent key is `None`. */
  datatype ComparativeReply = ComparativeReply(
    playerRanking: Option<seq<RankEntry>>,
    bestPlayer: Option<string>,
    justification: Option<string>,
    keyTurningPoints: Option<seq<string>>,
    reasoningComparison: Option<string>,
    modelInsights: Option<string>)

  /** The tuple `compare_agents` returns. */
  datatype Verdict = Verdict(
    bestPlayer: string,
    justification: string,
    keyTurningPoints: seq<string>,
    reasoningComparison: string,
    modelInsights: string,
    ranking: seq<RankEntry>)

  const UNKNOWN_PLAYER := "Unknown"
  const DEFAULT_JUSTIFICATION := "Unable to determine justification"
  const FALLBACK_COMPARISON := "Evaluation failed - using quantitative fallback"
  const FALLBACK_NOTE := "). Comparative evaluation failed, using quantitative fallback."

  // ---------------------------------------------------------------------------
  // Applying the judge's ranking
  // ---------------------------------------------------------------------------

  /** The entry names this agent. */
  predicate Names(e: RankEntry, name: string) {
    e.agentName == Some(name)
  }

  /** One pass of the update loop: every agent the entry names takes its rank (0 if absent) and, if given, its score. */
  function ApplyEntry(st: seq<Standing>, e: RankEntry): (r: seq<Standing>)
    ensures |r| == |st|
  {
    seq(|st|, i requires 0 <= i < |st| =>
      if Names(e, st[i].name)
      then Standing(st[i].name, if e.score.Some? then e.score.value else st[i].score, e.rank.GetOr(0))
      else st[i])
  }

  /** The standings after the update loop over the given entries, in order. */
  function ApplyEntries(st: seq<Standing>, rs: seq<RankEntry>): (r: seq<Standing>)
    ensures |r| == |st|
  {
    if rs == [] then st else ApplyEntry(ApplyEntries(st, rs[..|rs| - 1]), rs[|rs| - 1])
  }

  /** The last entry naming the agent, if any. */
  function LastEntryFor(name: string, rs: seq<RankEntry>): Option<RankEntry> {
    if rs == [] then None
    else if Names(rs[|rs| - 1], name) then Some(rs[|rs| - 1])
    else LastEntryFor(name, rs[..|rs| - 1])
  }

  /** The score of the last entry that names the agent and carries a score, if any. */
  function LastScoreFor(name: string, rs: seq<RankEntry>): Option<real> {
    if rs == [] then None
    else if Names(rs[|rs| - 1], name) && rs[|rs| - 1].score.Some? then rs[|rs| - 1].score
    else LastScoreFor(name, rs[..|rs| - 1])
  }

  /** `agent_name in {r.get("agent_name") for r in ranking}`. */
  predicate IsRanked(name: string, rs: seq<RankEntry>) {
    exists k :: 0 <= k < |rs| && Names(rs[k], name)
  }

  /**
   * After the update loop an agent holds the rank of the last entry naming
   * it (0 when that entry has no rank) and the score of the last naming entry
   * that has one; an agent no entry names keeps its rank and score. Names
   * never change.
   */
  lemma {:induction false} LastEntryWins(st: seq<Standing>, rs: seq<RankEntry>, i: nat)
    requires i < |st|
    ensures var r := ApplyEntries(st, rs)[i];
            && r.name == st[i].name
            && r.rank == (match LastEntryFor(st[i].name, rs)
                          case Some(e) => e.rank.GetOr(0)
                          case None => st[i].rank)
            && r.score == LastScoreFor(st[i].name, rs).GetOr(st[i].score)
            && (LastEntryFor(st[i].name, rs).Some? <==> IsRanked(st[i].name, rs))
  {
    if rs != [] {
      var init := rs[..|rs| - 1];
      LastEntryWins(st, init, i);
      if IsRanked(st[i].name, rs) && !Names(rs[|rs| - 1], st[i].name) {
        var k :| 0 <= k < |rs| && Names(rs[k], st[i].name);
        assert init[k] == rs[k];
      }
      if IsRanked(st[i].name, init) {
        var k :| 0 <= k < |init| && Names(init[k], st[i].name);
        assert rs[k] == init[k];
      }
    }
  }

  // ---------------------------------------------------------------------------
  // Ranking the agents the judge left out
  // ---------------------------------------------------------------------------

  /** The positions below `n` of the agents no entry names, in list order. */
  function UnrankedUpTo(st: seq<Standing>, rs: seq<RankEntry>, n: nat): (u: seq<nat>)
    requires n <= |st|
    ensures InBounds(u, n)
    ensures forall p, q :: 0 <= p < q < |u| ==> u[p] < u[q]
    ensures forall i :: 0 <= i < n ==> (i in u <==> !IsRanked(st[i].name, rs))
  {
    if n == 0 then []
    else UnrankedUpTo(st, rs, n - 1) + (if IsRanked(st[n - 1].name, rs) then [] else [n - 1])
  }

  /** The positions of the agents no entry names, in list order. */
  function Unranked(st: seq<Standing>, rs: seq<RankEntry>): seq<nat> {
    UnrankedUpTo(st, rs, |st|)
  }

  /** The sort key: the overall scores in list order. */
  function Scores(st: seq<Standing>): (key: seq<real>)
    ensures |key| == |st|
    ensures forall i :: 0 <= i < |st| ==> key[i] == st[i].score
  {
    seq(|st|, i requires 0 <= i < |st| => st[i].score)
  }

  /** Gives the agent at `order[p]` the rank `base + p`. */
  function AssignRanks(st: seq<Standing>, order: seq<nat>, base: int): (r: seq<Standing>)
    requires InBounds(order, |st|)
    ensures |r| == |st|
  {
    if order == [] then st
    else
      var i := order[|order| - 1];
      var prev := AssignRanks(st, order[..|order| - 1], base);
      prev[i := Standing(prev[i].name, prev[i].score, base + |order| - 1)]
  }

  /**
   * With no position repeated, the agent at `order[p]` gets exactly
   * `base + p`, every other agent keeps its rank, and no name or score changes.
   */
  lemma {:induction false} AssignRanksEffect(st: seq<Standing>, order: seq<nat>, base: int)
    requires InBounds(order, |st|) && Distinct(order)
    ensures var r := AssignRanks(st, order, base);
            && (forall p :: 0 <= p < |order| ==> r[order[p]].rank == base + p)
            && (forall i :: 0 <= i < |st| && i !in order ==> r[i].rank == st[i].rank)
            && (forall i :: 0 <= i < |st| ==> r[i].name == st[i].name && r[i].score == st[i].score)
  {
    if order != [] {
      var init := order[..|order| - 1];
      AssignRanksEffect(st, init, base);
      var r := AssignRanks(st, order, base);
      var prev := AssignRanks(st, init, base);
      forall p | 0 <= p < |order| ensures r[order[p]].rank == base + p {
        if p < |order| - 1 {
          assert order[p] == init[p];
          assert order[p] != order[|order| - 1];
        }
      }
      forall i | 0 <= i < |st| && i !in order ensures r[i].rank == st[i].rank {
        assert i != order[|order| - 1];
        assert i !in init;
      }
    }
  }

  /** The standings `compare_agents` leaves after a successful call with ranking `rs`. */
  function Reconciled(st: seq<Standing>, rs: seq<RankEntry>): (r: seq<Standing>)
    ensures |r| == |st|
  {
    var applied := ApplyEntries(st, rs);
    var unranked := Unranked(applied, rs);
    AssignRanks(applied, SortDesc(Scores(applied), unranked), |rs| + 1)
  }

  /** The names in order: the update loops never rename an agent. */
  function NamesOf(st: seq<Standing>): (names: seq<string>)
    ensures |names| == |st|
  {
    seq(|st|, i requires 0 <= i < |st| => st[i].name)
  }

  /** The update loop keeps every name, so rankedness is the same before and after it. */
  lemma ApplyEntriesKeepsNames(st: seq<Standing>, rs: seq<RankEntry>)
    ensures NamesOf(ApplyEntries(st, rs)) == NamesOf(st)
  {
    forall i | 0 <= i < |st| ensures ApplyEntries(st, rs)[i].name == st[i].name {
      LastEntryWins(st, rs, i);
    }
  }

  lemma UnrankedDistinct(st: seq<Standing>, rs: seq<RankEntry>)
    ensures InBounds(Unranked(st, rs), |st|) && Distinct(Unranked(st, rs))
  {
  }

  /** Some agent holds rank `k`. */
  predicate RankTaken(st: seq<Standing>, k: int) {
    exists i :: 0 <= i < |st| && st[i].rank == k
  }

  /**
   * The update loop keeps names and leaves the agents no entry names as they
   * were, so the agents left unranked are the same before and after it.
   */
  lemma ApplyEntriesUnranked(st: seq<Standing>, rs: seq<RankEntry>)
    ensures var applied := ApplyEntries(st, rs);
            && (forall i :: 0 <= i < |st| ==> applied[i].name == st[i].name)
            && (forall i :: 0 <= i < |st| && !IsRanked(st[i].name, rs) ==> applied[i] == st[i])
            && Unranked(applied, rs) == Unranked(st, rs)
  {
    var applied := ApplyEntries(st, rs);
    forall i | 0 <= i < |st|
      ensures applied[i].name == st[i].name
      ensures !IsRanked(st[i].name, rs) ==> applied[i] == st[i]
    {
      LastEntryWins(st, rs, i);
    }
    UnrankedSameNames(applied, st, rs, |st|);
  }

  /**
   * After a successful call with ranking `rs`, an agent some entry names
   * holds the rank of the last entry naming it (0 when that entry gives
   * none); every agent keeps its name and holds the score of the last naming
   * entry that has one, or its own.
   */
  lemma ReconciledRankedAgents(st: seq<Standing>, rs: seq<RankEntry>)
    ensures var r := Reconciled(st, rs);
            && (forall i :: 0 <= i < |st| ==>
                  r[i].name == st[i].name && r[i].score == LastScoreFor(st[i].name, rs).GetOr(st[i].score))
            && (forall i :: 0 <= i < |st| && IsRanked(st[i].name, rs) ==>
                  LastEntryFor(st[i].name, rs).Some? &&
                  r[i].rank == LastEntryFor(st[i].name, rs).value.rank.GetOr(0))
  {
    var applied := ApplyEntries(st, rs);
    ApplyEntriesUnranked(st, rs);
    var unranked := Unranked(applied, rs);
    var order := SortDesc(Scores(applied), unranked);
    UnrankedDistinct(applied, rs);
    SortDescSorted(Scores(applied), unranked);
    SortedDistinct(Scores(applied), order);
    AssignRanksEffect(applied, order, |rs| + 1);
    forall i | 0 <= i < |st|
      ensures Reconciled(st, rs)[i].name == st[i].name
      ensures Reconciled(st, rs)[i].score == LastScoreFor(st[i].name, rs).GetOr(st[i].score)
      ensures IsRanked(st[i].name, rs) ==>
                LastEntryFor(st[i].name, rs).Some? &&
                Reconciled(st, rs)[i].rank == LastEntryFor(st[i].name, rs).value.rank.GetOr(0)
    {
      LastEntryWins(st, rs, i);
      if IsRanked(st[i].name, rs) {
        assert i !in multiset(order);
      }
    }
  }

  /**
   * After a successful call with ranking `rs`, the U agents no entry names
   * keep their scores and share the ranks |rs| + 1 .. |rs| + U, each rank
   * held by one of them; among them a higher score means a smaller rank and
   * equal scores keep list order.
   */
  lemma ReconciledUnrankedAgents(st: seq<Standing>, rs: seq<RankEntry>)
    ensures var r := Reconciled(st, rs);
            var u := |Unranked(st, rs)|;
            && (forall i :: 0 <= i < |st| && !IsRanked(st[i].name, rs) ==>
                  r[i].score == st[i].score && |rs| + 1 <= r[i].rank <= |rs| + u)
            && (forall k :: |rs| + 1 <= k <= |rs| + u ==> RankTaken(r, k))
            && (forall i, j ::
                  (0 <= i < |st| && 0 <= j < |st| && i != j
                   && !IsRanked(st[i].name, rs) && !IsRanked(st[j].name, rs)) ==>
                  (r[i].rank < r[j].rank <==> Precedes(Scores(st), i, j)))
  {
    UnrankedAgentsBounded(st, rs);
    UnrankedRanksTaken(st, rs);
    UnrankedAgentsOrdered(st, rs);
  }

  /** The unranked agents keep their scores and get ranks after the named ones. */
  lemma UnrankedAgentsBounded(st: seq<Standing>, rs: seq<RankEntry>)
    ensures var r := Reconciled(st, rs);
            forall i :: 0 <= i < |st| && !IsRanked(st[i].name, rs) ==>
              r[i].score == st[i].score && |rs| + 1 <= r[i].rank <= |rs| + |Unranked(st, rs)|
  {
    var applied := ApplyEntries(st, rs);
    ApplyEntriesUnranked(st, rs);
    var unranked := Unranked(st, rs);
    var key := Scores(applied);
    var order := SortDesc(key, unranked);
    UnrankedDistinct(st, rs);
    SortDescSorted(key, unranked);
    SortedDistinct(key, order);
    AssignRanksEffect(applied, order, |rs| + 1);
    var r := Reconciled(st, rs);
    assert r == AssignRanks(applied, order, |rs| + 1);
    forall i | 0 <= i < |st| && !IsRanked(st[i].name, rs)
      ensures r[i].score == st[i].score && |rs| + 1 <= r[i].rank <= |rs| + |unranked|
    {
      assert i in multiset(order);
      var p :| 0 <= p < |order| && order[p] == i;
    }
  }

  /** Each of the ranks after the named ones is held by some agent. */
  lemma UnrankedRanksTaken(st: seq<Standing>, rs: seq<RankEntry>)
    ensures var r := Reconciled(st, rs);
            forall k :: |rs| + 1 <= k <= |rs| + |Unranked(st, rs)| ==> RankTaken(r, k)
  {
    var applied := ApplyEntries(st, rs);
    ApplyEntriesUnranked(st, rs);
    var unranked := Unranked(st, rs);
    var key := Scores(applied);
    var order := SortDesc(key, unranked);
    UnrankedDistinct(st, rs);
    SortDescSorted(key, unranked);
    SortedDistinct(key, order);
    AssignRanksEffect(applied, order, |rs| + 1);
    var r := Reconciled(st, rs);
    assert r == AssignRanks(applied, order, |rs| + 1);
    forall k | |rs| + 1 <= k <= |rs| + |unranked| ensures RankTaken(r, k) {
      assert r[order[k - |rs| - 1]].rank == k;
    }
  }

  /** Among the unranked agents, a smaller rank means a higher score, or an equal score earlier in the list. */
  lemma UnrankedAgentsOrdered(st: seq<Standing>, rs: seq<RankEntry>)
    ensures var r := Reconciled(st, rs);
            forall i, j ::
              (0 <= i < |st| && 0 <= j < |st| && i != j
               && !IsRanked(st[i].name, rs) && !IsRanked(st[j].name, rs)) ==>
              (r[i].rank < r[j].rank <==> Precedes(Scores(st), i, j))
  {
    var applied := ApplyEntries(st, rs);
    ApplyEntriesUnranked(st, rs);
    var unranked := Unranked(st, rs);
    var key := Scores(applied);
    var order := SortDesc(key, unranked);
    UnrankedDistinct(st, rs);
    SortDescSorted(key, unranked);
    SortedDistinct(key, order);
    AssignRanksEffect(applied, order, |rs| + 1);
    var r := Reconciled(st, rs);
    assert r == AssignRanks(applied, order, |rs| + 1);
    forall i, j | 0 <= i < |st| && 0 <= j < |st| && i != j
        && !IsRanked(st[i].name, rs) && !IsRanked(st[j].name, rs)
      ensures r[i].rank < r[j].rank <==> Precedes(Scores(st), i, j)
    {
      assert i in multiset(order) && j in multiset(order);
      var p :| 0 <= p < |order| && order[p] == i;
      var q :| 0 <= q < |order| && order[q] == j;
      SortDescOrder(key, unranked, p, q);
      SortDescOrder(key, unranked, q, p);
    }
  }

  /** Rankedness depends on names only. */
  lemma {:induction false} UnrankedSameNames(a: seq<Standing>, b: seq<Standing>, rs: seq<RankEntry>, n: nat)
    requires n <= |a| == |b|
    requires forall i :: 0 <= i < |a| ==> (IsRanked(a[i].name, rs) <==> IsRanked(b[i].name, rs))
    ensures UnrankedUpTo(a, rs, n) == UnrankedUpTo(b, rs, n)
  {
    if n > 0 {
      UnrankedSameNames(a, b, rs, n - 1);
    }
  }

  // ---------------------------------------------------------------------------
  // The quantitative fallback
  // ---------------------------------------------------------------------------

  /** The agents' positions sorted by descending score, ties in list order. */
  function FallbackOrder(st: seq<Standing>): (order: seq<nat>)
    ensures InBounds(order, |st|)
  {
    RangeDistinct(|st|, |st|);
    SortDesc(Scores(st), Range(|st|))
  }

  /** The fallback standings: ranks 1 .. N along the fallback order. */
  function FallbackStandings(st: seq<Standing>): (r: seq<Standing>)
    ensures |r| == |st|
  {
    AssignRanks(st, FallbackOrder(st), 1)
  }

  /** The fallback justification naming the best player and its score to one decimal. */
  function FallbackJustification(name: string, score: real): string {
    name + " had the highest overall score (" + FormatTenths(score) + FALLBACK_NOTE
  }

  /** The fallback verdict: the first agent of the fallback order is the best player ("Unknown", 0 with no agent). */
  function FallbackVerdict(st: seq<Standing>): (v: Verdict)
    ensures v.ranking == [] && v.keyTurningPoints == [] && v.modelInsights == ""
    ensures v.reasoningComparison == FALLBACK_COMPARISON
  {
    var order := FallbackOrder(st);
    if |order| == 0 then
      Verdict(UNKNOWN_PLAYER, FallbackJustification(UNKNOWN_PLAYER, 0.0), [], FALLBACK_COMPARISON, "", [])
    else
      var best := st[order[0]];
      Verdict(best.name, FallbackJustification(best.name, best.score), [], FALLBACK_COMPARISON, "", [])
  }

  /**
   * The fallback ranks are exactly 1 .. N, each held by one agent; a higher
   * score means a smaller rank and equal scores keep list order; names and
   * scores do not change.
   */
  lemma FallbackRanksArePermutation(st: seq<Standing>)
    ensures var r := FallbackStandings(st);
            && (forall i :: 0 <= i < |st| ==> r[i].name == st[i].name && r[i].score == st[i].score)
            && (forall i :: 0 <= i < |st| ==> 1 <= r[i].rank <= |st|)
            && (forall k :: 1 <= k <= |st| ==> RankTaken(r, k))
            && (forall i, j :: 0 <= i < |st| && 0 <= j < |st| && i != j ==>
                  (r[i].rank < r[j].rank <==> Precedes(Scores(st), i, j)))
  {
    EmptyRankingIsFallback(st);
    EmptyUnranked(st, |st|);
    ReconciledRankedAgents(st, []);
    ReconciledUnrankedAgents(st, []);
  }

  /**
   * The fallback's best player is an agent with the highest score, holds
   * rank 1, and opens the justification; with no agent it is "Unknown".
   */
  lemma FallbackBestIsTop(st: seq<Standing>)
    ensures var v := FallbackVerdict(st);
            && StartsWith(v.justification, v.bestPlayer)
            && (st == [] ==> v.bestPlayer == UNKNOWN_PLAYER)
            && (st != [] ==>
                  exists b ::
                    && 0 <= b < |st|
                    && v.bestPlayer == st[b].name
                    && FallbackStandings(st)[b].rank == 1
                    && (forall i :: 0 <= i < |st| ==> st[b].score >= st[i].score))
  {
    FallbackJustificationOpens(st);
    if st != [] {
      FallbackBestHighest(st);
    }
  }

  /** The fallback justification opens with the best player's name. */
  lemma FallbackJustificationOpens(st: seq<Standing>)
    ensures StartsWith(FallbackVerdict(st).justification, FallbackVerdict(st).bestPlayer)
  {
    var v := FallbackVerdict(st);
    var order := FallbackOrder(st);
    assert (v.bestPlayer + " had the highest overall score (" + FormatTenths(if st == [] then 0.0 else st[order[0]].score) + FALLBACK_NOTE)[..|v.bestPlayer|] == v.bestPlayer;
  }

  /** With some agent, the fallback's best player is the first in fallback order: rank 1 and a highest score. */
  lemma FallbackBestHighest(st: seq<Standing>)
    requires st != []
    ensures var b := FallbackOrder(st)[0];
            && b < |st|
            && FallbackVerdict(st).bestPlayer == st[b].name
            && FallbackStandings(st)[b].rank == 1
            && (forall i :: 0 <= i < |st| ==> st[b].score >= st[i].score)
  {
    var key := Scores(st);
    var all := Range(|st|);
    RangeDistinct(|st|, |st|);
    var order := FallbackOrder(st);
    assert order == SortDesc(key, all);
    var b := order[0];
    SortDescSorted(key, all);
    SortedDistinct(key, order);
    AssignRanksEffect(st, order, 1);
    forall i | 0 <= i < |st| ensures st[b].score >= st[i].score {
      assert i == all[i];
      SortDescFirstIsMax(key, all, i);
    }
  }

  /** With an empty `player_ranking` the success path ranks exactly as the fallback does. */
  lemma EmptyRankingIsFallback(st: seq<Standing>)
    ensures Reconciled(st, []) == FallbackStandings(st)
  {
    assert Unranked(st, []) == Range(|st|) by {
      EmptyUnranked(st, |st|);
    }
  }

  lemma {:induction false} EmptyUnranked(st: seq<Standing>, n: nat)
    requires n <= |st|
    ensures UnrankedUpTo(st, [], n) == Range(n)
  {
    if n > 0 {
      EmptyUnranked(st, n - 1);
    }
  }

  /**
   * The ranks are not checked for uniqueness: with a ranking that names one of
   * two agents with rank 2, the other agent also gets rank 2 (`len(ranking) + 1`).
   */
  lemma PartialRankingCollides()
    ensures var st := [Standing("Alice", 70.0, 0), Standing("Bob", 60.0, 0)];
            var r := Reconciled(st, [RankEntry(Some("Alice"), Some(2), None)]);
            r[0].rank == 2 && r[1].rank == 2
  {
    var st := [Standing("Alice", 70.0, 0), Standing("Bob", 60.0, 0)];
    var rs := [RankEntry(Some("Alice"), Some(2), None)];
    FirstOfTwoRanked(st, rs);
    ReconciledRankedAgents(st, rs);
    ReconciledUnrankedAgents(st, rs);
  }

  /** A one-entry ranking that names the first of two agents and not the second leaves only the second unranked. */
  lemma FirstOfTwoRanked(st: seq<Standing>, rs: seq<RankEntry>)
    requires |st| == 2 && |rs| == 1
    requires Names(rs[0], st[0].name) && !Names(rs[0], st[1].name)
    ensures IsRanked(st[0].name, rs) && !IsRanked(st[1].name, rs)
    ensures LastEntryFor(st[0].name, rs) == Some(rs[0])
    ensures |Unranked(st, rs)| == 1
  {
    assert rs[..0] == [];
    assert UnrankedUpTo(st, rs, 1) == [];
  }

  // ---------------------------------------------------------------------------
  // `compare_agents` on the evaluation records
  // ---------------------------------------------------------------------------

  /** The verdict of a successful call: the reply's fields, with the stated defaults. */
  function SuccessVerdict(names: seq<string>, reply: ComparativeReply): (v: Verdict)
    ensures reply.bestPlayer.None? && names != [] ==> v.bestPlayer == names[0]
    ensures reply.bestPlayer.None? && names == [] ==> v.bestPlayer == UNKNOWN_PLAYER
    ensures reply.bestPlayer.Some? ==> v.bestPlayer == reply.bestPlayer.value
    ensures v.ranking == reply.playerRanking.GetOr([])
  {
    Verdict(
      reply.bestPlayer.GetOr(if names != [] then names[0] else UNKNOWN_PLAYER),
      reply.justification.GetOr(DEFAULT_JUSTIFICATION),
      reply.keyTurningPoints.GetOr([]),
      reply.reasoningComparison.GetOr(""),
      reply.modelInsights.GetOr(""),
      reply.playerRanking.GetOr([]))
  }

  /** The records show the given standings, position by position. */
  predicate Shows(evals: seq<AgentEvaluation>, st: seq<Standing>)
    reads set e | e in evals
  {
    |evals| == |st| && forall i :: 0 <= i < |evals| ==> evals[i].Current() == st[i]
  }

  /** The update loop of `compare_agents`: each entry in turn, over every record it names. */
  method ApplyRanking(evals: seq<AgentEvaluation>, ranking: seq<RankEntry>)
    requires forall i, j :: 0 <= i < j < |evals| ==> evals[i] != evals[j]
    modifies set e | e in evals
    ensures Shows(evals, ApplyEntries(old(Snapshot(evals)), ranking))
  {
    ghost var start := Snapshot(evals);
    for r := 0 to |ranking|
      invariant Shows(evals, ApplyEntries(start, ranking[..r]))
    {
      ghost var before := ApplyEntries(start, ranking[..r]);
      assert ranking[..r + 1][..r] == ranking[..r];
      var entry := ranking[r];
      for j := 0 to |evals|
        invariant forall i :: 0 <= i < |evals| ==>
                    evals[i].Current() == (if i < j then ApplyEntry(before, entry)[i] else before[i])
      {
        if entry.agentName == Some(evals[j].agentName) {
          evals[j].rank := entry.rank.GetOr(0);
          if entry.score.Some? {
            evals[j].overallScore := entry.score.value;
          }
        }
      }
    }
    assert ranking[..|ranking|] == ranking;
  }

  /** Gives the record at `order[p]` the rank `base + p`, advancing a counter as `compare_agents` does. */
  method RankInOrder(evals: seq<AgentEvaluation>, order: seq<nat>, base: int)
    requires forall i, j :: 0 <= i < j < |evals| ==> evals[i] != evals[j]
    requires InBounds(order, |evals|)
    modifies set e | e in evals
    ensures Shows(evals, AssignRanks(old(Snapshot(evals)), order, base))
  {
    ghost var start := Snapshot(evals);
    var next := base;
    for p := 0 to |order|
      invariant next == base + p
      invariant Shows(evals, AssignRanks(start, order[..p], base))
    {
      assert order[..p + 1][..p] == order[..p];
      evals[order[p]].rank := next;
      next := next + 1;
    }
    assert order[..|order|] == order;
  }

  /** The positions of the records no entry names, in list order. */
  method UnrankedPositions(evals: seq<AgentEvaluation>, ranking: seq<RankEntry>) returns (unranked: seq<nat>)
    ensures unranked == Unranked(Snapshot(evals), ranking)
  {
    ghost var st := Snapshot(evals);
    unranked := [];
    for i := 0 to |evals|
      invariant unranked == UnrankedUpTo(st, ranking, i)
    {
      assert st[i].name == evals[i].agentName;
      if !IsRanked(evals[i].agentName, ranking) {
        unranked := unranked + [i];
      }
    }
  }

  /**
   * `compare_agents` after the judge call: `reply` is the parsed reply, or
   * `None` when the call, the parse or the reading of the reply failed. The
   * records are updated in place (ranks, and scores the judge supplied);
   * nothing else about them changes.
   */
  method CompareAgents(evals: seq<AgentEvaluation>, reply: Option<ComparativeReply>) returns (v: Verdict)
    requires forall i, j :: 0 <= i < j < |evals| ==> evals[i] != evals[j]
    modifies set e | e in evals
    ensures reply.Some? ==>
              && Shows(evals, Reconciled(old(Snapshot(evals)), reply.value.playerRanking.GetOr([])))
              && v == SuccessVerdict(NamesOf(old(Snapshot(evals))), reply.value)
    ensures reply.None? ==>
              && Shows(evals, FallbackStandings(old(Snapshot(evals))))
              && v == FallbackVerdict(old(Snapshot(evals)))
  {
    var start := Snapshot(evals);
    if reply.Some? {
      var ranking := reply.value.playerRanking.GetOr([]);
      ApplyRanking(evals, ranking);
      ghost var applied := ApplyEntries(start, ranking);
      assert Snapshot(evals) == applied;
      var unranked := UnrankedPositions(evals, ranking);
      var order := SortDesc(Scores(Snapshot(evals)), unranked);
      UnrankedDistinct(applied, ranking);
      SortDescSorted(Scores(applied), unranked);
      SortedDistinct(Scores(applied), order);
      RankInOrder(evals, order, |ranking| + 1);
      v := SuccessVerdict(NamesOf(start), reply.value);
    } else {
      var order := SortDesc(Scores(start), Range(|evals|));
      RangeDistinct(|evals|, |evals|);
      assert order == FallbackOrder(start);
      SortDescSorted(Scores(start), Range(|evals|));
      SortedDistinct(Scores(start), order);
      AssignRanksEffect(start, order, 1);
      RankInOrder(evals, order, 1);
      if |order| == 0 {
        v := Verdict(UNKNOWN_PLAYER, FallbackJustification(UNKNOWN_PLAYER, 0.0), [], FALLBACK_COMPARISON, "", []);
      } else {
        var best := evals[order[0]];
        assert best.Current() == FallbackStandings(start)[order[0]];
        v := Verdict(best.agentName, FallbackJustification(best.agentName, best.overallScore), [], FALLBACK_COMPARISON, "", []);
        assert v == FallbackVerdict(start);
      }
    }
  }
}
