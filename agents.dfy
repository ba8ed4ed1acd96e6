/**
 * The per-agent evaluation record (`AgentEvaluation`) and its construction:
 * the facts `evaluate_game` gathers for each player and the judged or
 * default assessment from `evaluate_agent`.
 */
module Agents {
  import opened Wrappers
  import opened Rubrics
  import opened Scoring

  /** The facts `evaluate_game` passes to `evaluate_agent` for one player. */
  datatype AgentFacts = AgentFacts(name: string, role: string, team: string, won: bool, survived: bool)

  /** A player's entry of the game's `scores` list: its `won` and `survived` keys, when present. */
  datatype PlayerRecord = PlayerRecord(won: Option<bool>, survived: Option<bool>)

  /** The part of an evaluation the comparative step reads and writes. */
  datatype Standing = Standing(name: string, score: real, rank: int)

  /**
   * The facts of one player in `evaluate_game`: the team follows the role,
   * `won` defaults to whether that team is the winner and `survived` to false.
   */
  function FactsOf(name: string, role: string, record: Option<PlayerRecord>, winner: string): (f: AgentFacts)
    ensures f.name == name && f.role == role
    ensures f.team == (if IsWerewolf(role) then "werewolves" else "villagers")
    ensures record.Some? && record.value.won.Some? ==> f.won == record.value.won.value
    ensures (record.None? || record.value.won.None?) ==> (f.won <==> f.team == winner)
    ensures f.survived <==> record.Some? && record.value.survived == Some(true)
  {
    var team := TeamOf(role);
    var r := record.GetOr(PlayerRecord(None, None));
    AgentFacts(name, role, team, r.won.GetOr(team == winner), r.survived.GetOr(false))
  }

  /**
   * A player of any role spelling is on exactly one side: a werewolf with no
   * record wins exactly when the werewolves won, every other player exactly
   * when the villagers won.
   */
  lemma FactsWithoutRecord(name: string, role: string, winner: string)
    ensures var f := FactsOf(name, role, None, winner);
            && (IsWerewolf(role) ==> (f.won <==> winner == "werewolves"))
            && (!IsWerewolf(role) ==> (f.won <==> winner == "villagers"))
            && !f.survived
  {
  }

  /** `AgentEvaluation`: only the overall score and the rank change after construction. */
  class AgentEvaluation {
    const agentName: string
    const role: string
    const team: string
    const won: bool
    const survived: bool
    const skillScores: seq<SkillScore>
    var overallScore: real
    var rank: int
    const strengths: seq<string>
    const weaknesses: seq<string>
    const keyMoments: seq<string>
    const improvementSuggestions: seq<string>

    /** A new evaluation, unranked (rank 0). */
    constructor (facts: AgentFacts, a: Assessment)
      ensures Facts() == facts && Assessed() == a && rank == 0
    {
      agentName := facts.name;
      role := facts.role;
      team := facts.team;
      won := facts.won;
      survived := facts.survived;
      skillScores := a.skillScores;
      overallScore := a.overallScore;
      rank := 0;
      strengths := a.strengths;
      weaknesses := a.weaknesses;
      keyMoments := a.keyMoments;
      improvementSuggestions := a.improvementSuggestions;
    }

    function Facts(): AgentFacts {
      AgentFacts(agentName, role, team, won, survived)
    }

    function Assessed(): Assessment
      reads this
    {
      Assessment(skillScores, overallScore, strengths, weaknesses, keyMoments, improvementSuggestions)
    }

    function Current(): Standing
      reads this
    {
      Standing(agentName, overallScore, rank)
    }
  }

  /** The standings of a list of evaluations, in list order. */
  function Snapshot(evals: seq<AgentEvaluation>): (s: seq<Standing>)
    reads set e | e in evals
    ensures |s| == |evals|
    ensures forall i :: 0 <= i < |evals| ==> s[i] == evals[i].Current()
  {
    if evals == [] then []
    else Snapshot(evals[..|evals| - 1]) + [evals[|evals| - 1].Current()]
  }

  /**
   * `evaluate_agent` once the judge has answered (`reply` is the parsed
   * reply) or failed (`reply` is `None`): repairs each skill entry in the
   * reply's order, keeps the judge's overall score when it is within 0..100
   * and otherwise computes the weighted score.
   */
  method EvaluateAgent(facts: AgentFacts, reply: Option<AgentReply>) returns (e: AgentEvaluation)
    ensures fresh(e)
    ensures e.Facts() == facts && e.Assessed() == Assess(facts.role, reply) && e.rank == 0
  {
    if reply.None? {
      e := new AgentEvaluation(facts, DEFAULT_ASSESSMENT);
      return;
    }
    var r := reply.value;
    var entries := r.skillScores.GetOr([]);
    var scores: seq<SkillScore> := [];
    for k := 0 to |entries|
      invariant scores == RepairSkills(entries[..k])
    {
      scores := scores + [RepairSkill(entries[k])];
    }
    assert entries[..|entries|] == entries;
    var overall: real;
    if r.overallScore.Some? && 0.0 <= r.overallScore.value <= 100.0 {
      overall := r.overallScore.value;
    } else {
      overall := WeightedScore(scores, facts.role);
    }
    var a := Assessment(
      scores,
      overall,
      Truncate(r.strengths.GetOr([]), MAX_STRENGTHS),
      Truncate(r.weaknesses.GetOr([]), MAX_WEAKNESSES),
      Truncate(r.keyMoments.GetOr([]), MAX_KEY_MOMENTS),
      Truncate(r.improvementSuggestions.GetOr([]), MAX_SUGGESTIONS));
    e := new AgentEvaluation(facts, a);
  }
}
