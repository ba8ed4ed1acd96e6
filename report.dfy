/**
 * `evaluate_game` once the judge's answers are in, and the parts of
 * `GameEvaluation.to_dict` the core decides: the rankings table in rank
 * order and the placeholder shown when no validation was run.
 */
module Report {
  import opened Wrappers
  import opened Sorting
  import opened Scoring
  import opened Agents
  import opened Comparison
  import opened Consistency

  /** `GameEvaluation`: the records are shared with the caller, the rest are values. */
  datatype GameEvaluation = GameEvaluation(
    winner: string,
    totalRounds: int,
    bestPlayer: string,
    bestPlayerJustification: string,
    agentEvaluations: seq<AgentEvaluation>,
    keyTurningPoints: seq<string>,
    reasoningQualityComparison: string,
    modelInsights: string,
    validation: Option<Validation>)

  /** One row of the `rankings` list of `to_dict`. */
  datatype RankingRow = RankingRow(rank: int, agentName: string, role: string, overallScore: real)

  /** The `validation` entry of `to_dict`: the run's result, or the single-run placeholder. */
  datatype ValidationEntry = Reported(result: Validation) | SingleRun(validated: bool, note: string)

  const SINGLE_RUN_NOTE := "Single-run evaluation. Set validate=True for inter-rater reliability."

  // ---------------------------------------------------------------------------
  // `evaluate_game`
  // ---------------------------------------------------------------------------

  /** The player's entry of the game's `scores` list, when it has one. */
  function RecordOf(name: string, scores: map<string, PlayerRecord>): Option<PlayerRecord> {
    if name in scores then Some(scores[name]) else None
  }

  /** The facts of the i-th player of the role table. */
  function PlayerFacts(roles: seq<(string, string)>, scores: map<string, PlayerRecord>, winner: string, i: nat): AgentFacts
    requires i < |roles|
  {
    FactsOf(roles[i].0, roles[i].1, RecordOf(roles[i].0, scores), winner)
  }

  /** The standings of the fresh records, before the comparative step: every rank is 0. */
  function InitialStandings(roles: seq<(string, string)>, replies: seq<Option<AgentReply>>): (st: seq<Standing>)
    requires |replies| == |roles|
    ensures |st| == |roles|
    ensures forall i :: 0 <= i < |roles| ==>
              st[i] == Standing(roles[i].0, Assess(roles[i].1, replies[i]).overallScore, 0)
  {
    seq(|roles|, i requires 0 <= i < |roles| => Standing(roles[i].0, Assess(roles[i].1, replies[i]).overallScore, 0))
  }

  /** `e` is a new, unranked record of the i-th player: its facts and the judge's assessment of it. */
  predicate RecordOfPlayer(e: AgentEvaluation, roles: seq<(string, string)>, scores: map<string, PlayerRecord>,
                           winner: string, replies: seq<Option<AgentReply>>, i: nat)
    requires |replies| == |roles| && i < |roles|
    reads e
  {
    e.Facts() == PlayerFacts(roles, scores, winner, i) && e.Assessed() == Assess(roles[i].1, replies[i]) && e.rank == 0
  }

  /** Builds one record per player of the role table, in table order. */
  method EvaluateAgents(roles: seq<(string, string)>, scores: map<string, PlayerRecord>, winner: string,
                        replies: seq<Option<AgentReply>>) returns (evals: seq<AgentEvaluation>)
    requires |replies| == |roles|
    ensures |evals| == |roles|
    ensures forall i, j :: 0 <= i < j < |evals| ==> evals[i] != evals[j]
    ensures forall i :: 0 <= i < |evals| ==> fresh(evals[i])
    ensures forall i :: 0 <= i < |evals| ==> RecordOfPlayer(evals[i], roles, scores, winner, replies, i)
  {
    evals := [];
    for i := 0 to |roles|
      invariant |evals| == i
      invariant forall p, q :: 0 <= p < q < i ==> evals[p] != evals[q]
      invariant forall p :: 0 <= p < i ==> fresh(evals[p])
      invariant forall p :: 0 <= p < i ==> RecordOfPlayer(evals[p], roles, scores, winner, replies, p)
    {
      var e := EvaluatePlayer(roles, scores, winner, replies, i);
      evals := evals + [e];
    }
  }

  /** The record of the i-th player of the role table. */
  method EvaluatePlayer(roles: seq<(string, string)>, scores: map<string, PlayerRecord>, winner: string,
                        replies: seq<Option<AgentReply>>, i: nat) returns (e: AgentEvaluation)
    requires |replies| == |roles| && i < |roles|
    ensures fresh(e)
    ensures RecordOfPlayer(e, roles, scores, winner, replies, i)
  {
    e := EvaluateAgent(PlayerFacts(roles, scores, winner, i), replies[i]);
  }

  /**
   * `evaluate_game` with the judge's answers as inputs: `replies[i]` is the
   * per-agent reply for the i-th player of `roles`, `comparative` the
   * comparative reply and `validation` the result of `validate_consistency`
   * when validation was requested.
   */
  method EvaluateGame(winner: string, totalRounds: int, roles: seq<(string, string)>,
                      scores: map<string, PlayerRecord>, replies: seq<Option<AgentReply>>,
                      comparative: Option<ComparativeReply>, validation: Option<Validation>)
    returns (g: GameEvaluation)
    requires |replies| == |roles|
    ensures |g.agentEvaluations| == |roles|
    ensures forall i :: 0 <= i < |roles| ==> fresh(g.agentEvaluations[i])
    ensures forall i :: 0 <= i < |roles| ==>
              && g.agentEvaluations[i].Facts() == PlayerFacts(roles, scores, winner, i)
              && g.agentEvaluations[i].skillScores == Assess(roles[i].1, replies[i]).skillScores
              && g.agentEvaluations[i].strengths == Assess(roles[i].1, replies[i]).strengths
              && g.agentEvaluations[i].weaknesses == Assess(roles[i].1, replies[i]).weaknesses
              && g.agentEvaluations[i].keyMoments == Assess(roles[i].1, replies[i]).keyMoments
              && g.agentEvaluations[i].improvementSuggestions == Assess(roles[i].1, replies[i]).improvementSuggestions
    ensures var st := InitialStandings(roles, replies);
            var v := if comparative.Some? then SuccessVerdict(NamesOf(st), comparative.value) else FallbackVerdict(st);
            && Shows(g.agentEvaluations,
                     if comparative.Some? then Reconciled(st, comparative.value.playerRanking.GetOr([]))
                     else FallbackStandings(st))
            && g == GameEvaluation(winner, totalRounds, v.bestPlayer, v.justification, g.agentEvaluations,
                                   v.keyTurningPoints, v.reasoningComparison, v.modelInsights, validation)
  {
    var evals := EvaluateAgents(roles, scores, winner, replies);
    assert Snapshot(evals) == InitialStandings(roles, replies);
    var v := CompareAgents(evals, comparative);
    g := GameEvaluation(winner, totalRounds, v.bestPlayer, v.justification, evals,
                        v.keyTurningPoints, v.reasoningComparison, v.modelInsights, validation);
  }

  // ---------------------------------------------------------------------------
  // `GameEvaluation.to_dict`
  // ---------------------------------------------------------------------------

  /** The row of one record. */
  function RowOf(e: AgentEvaluation): RankingRow
    reads e
  {
    RankingRow(e.rank, e.agentName, e.role, e.overallScore)
  }

  /** The rows of the records, in list order. */
  function RowsOf(evals: seq<AgentEvaluation>): (rows: seq<RankingRow>)
    reads set e | e in evals
    ensures |rows| == |evals|
    ensures forall i :: 0 <= i < |evals| ==> rows[i] == RowOf(evals[i])
  {
    seq(|evals|, i reads set e | e in evals requires 0 <= i < |evals| => RowOf(evals[i]))
  }

  /** Sorting by ascending rank is sorting by descending negated rank. */
  function NegatedRanks(rows: seq<RankingRow>): (key: seq<real>)
    ensures |key| == |rows|
    ensures forall i :: 0 <= i < |rows| ==> key[i] == -(rows[i].rank as real)
  {
    seq(|rows|, i requires 0 <= i < |rows| => -(rows[i].rank as real))
  }

  /** `sorted(rows, key=rank)`, as the positions of the rows in output order. */
  function RankOrder(rows: seq<RankingRow>): (order: seq<nat>)
    ensures |order| == |rows| && InBounds(order, |rows|)
    ensures multiset(order) == multiset(Range(|rows|))
  {
    RangeDistinct(|rows|, |rows|);
    SortDesc(NegatedRanks(rows), Range(|rows|))
  }

  /** The `rankings` list of `to_dict`. */
  function RankingTable(rows: seq<RankingRow>): (t: seq<RankingRow>)
    ensures |t| == |rows|
  {
    var order := RankOrder(rows);
    seq(|rows|, p requires 0 <= p < |rows| => rows[order[p]])
  }

  /**
   * The table lists every row once, by ascending rank; rows of equal rank
   * keep the order of the records.
   */
  lemma RankingTableOrdered(rows: seq<RankingRow>)
    ensures var t := RankingTable(rows);
            var order := RankOrder(rows);
            && (forall p :: 0 <= p < |t| ==> t[p] == rows[order[p]])
            && Distinct(order)
            && (forall i :: 0 <= i < |rows| ==> i in order)
            && (forall p, q :: 0 <= p < q < |t| ==>
                  t[p].rank < t[q].rank || (t[p].rank == t[q].rank && order[p] < order[q]))
  {
    var key := NegatedRanks(rows);
    var order := RankOrder(rows);
    RangeDistinct(|rows|, |rows|);
    SortDescSorted(key, Range(|rows|));
    SortedDistinct(key, order);
    forall i | 0 <= i < |rows| ensures i in order {
      assert Range(|rows|)[i] == i;
      assert i in multiset(Range(|rows|));
    }
    forall p, q | 0 <= p < q < |rows|
      ensures rows[order[p]].rank < rows[order[q]].rank
              || (rows[order[p]].rank == rows[order[q]].rank && order[p] < order[q])
    {
      assert Precedes(key, order[p], order[q]);
    }
  }

  /** `self.validation if self.validation else {...}`: a run's result, or the placeholder. */
  function ValidationEntryOf(validation: Option<Validation>): (entry: ValidationEntry)
    ensures validation.None? <==> entry.SingleRun?
  {
    match validation
    case Some(v) => Reported(v)
    case None => SingleRun(false, SINGLE_RUN_NOTE)
  }

  /** The entry reports the run's result unchanged, and the placeholder says the game was not validated. */
  lemma ValidationEntryFaithful(validation: Option<Validation>)
    ensures validation.Some? ==> ValidationEntryOf(validation) == Reported(validation.value)
    ensures validation.None? ==> !ValidationEntryOf(validation).validated
  {
  }
}
