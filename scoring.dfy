/**
 * The per-agent aggregator: the repair of one parsed judge reply into an
 * assessment (clamped skill scores, defaults, truncated lists) and the
 * role-aware weighted overall score used when the judge's own is unusable.
 */
module Scoring {
  import opened Wrappers
  import opened Rubrics

  /** A stored skill score: `SkillScore` of the evaluator. */
  datatype SkillScore = SkillScore(
    skillName: string,
    score: real,
    rubricLevel: string,
    evidence: seq<string>,
    explanation: string)

  /** One entry of the judge's `skill_scores` object; a field the judge left out is `None`. */
  datatype SkillReply = SkillReply(
    skillName: string,
    score: Option<real>,
    rubricLevel: Option<string>,
    evidence: Option<seq<string>>,
    explanation: Option<string>)

  /** The parsed per-agent judge reply (entries of `skill_scores` in the reply's key order). */
  datatype AgentReply = AgentReply(
    skillScores: Option<seq<SkillReply>>,
    overallScore: Option<real>,
    strengths: Option<seq<string>>,
    weaknesses: Option<seq<string>>,
    keyMoments: Option<seq<string>>,
    improvementSuggestions: Option<seq<string>>)

  /** What the aggregator decides for one agent: everything of an evaluation but the facts and the rank. */
  datatype Assessment = Assessment(
    skillScores: seq<SkillScore>,
    overallScore: real,
    strengths: seq<string>,
    weaknesses: seq<string>,
    keyMoments: seq<string>,
    improvementSuggestions: seq<string>)

  const MIN_SKILL_SCORE := 1.0
  const MAX_SKILL_SCORE := 10.0
  const DEFAULT_SKILL_SCORE := 5.0
  const DEFAULT_RUBRIC_LEVEL := "Average"
  const MAX_EVIDENCE := 3
  const MAX_EXPLANATION := 500
  const MAX_STRENGTHS := 3
  const MAX_WEAKNESSES := 3
  const MAX_KEY_MOMENTS := 3
  const MAX_SUGGESTIONS := 2
  /** The score of an agent with no countable skill, and of a failed evaluation. */
  const NEUTRAL_OVERALL := 50.0
  const FAILED_STRENGTH := "Evaluation failed - using default"
  const FAILED_WEAKNESS := "Unable to analyze due to evaluation error"

  function Min(a: real, b: real): real { if a <= b then a else b }
  function Max(a: real, b: real): real { if a >= b then a else b }

  /** `min(10, max(1, raw))`: the nearest value of the 1..10 scale (a JSON number, whole or not). */
  function Clamp(raw: real): (s: real)
    ensures MIN_SKILL_SCORE <= s <= MAX_SKILL_SCORE
    ensures MIN_SKILL_SCORE <= raw <= MAX_SKILL_SCORE ==> s == raw
    ensures raw < MIN_SKILL_SCORE ==> s == MIN_SKILL_SCORE
    ensures raw > MAX_SKILL_SCORE ==> s == MAX_SKILL_SCORE
  {
    Min(MAX_SKILL_SCORE, Max(MIN_SKILL_SCORE, raw))
  }

  /** `p` is a prefix of `s`. */
  predicate IsPrefix<T(==)>(p: seq<T>, s: seq<T>) {
    |p| <= |s| && p == s[..|p|]
  }

  /** Python's `s[:n]`: the longest prefix of `s` that has at most `n` elements. */
  function Truncate<T(==)>(s: seq<T>, n: nat): (r: seq<T>)
    ensures |r| <= n && IsPrefix(r, s)
    ensures |r| == n || r == s
  {
    if |s| <= n then s else s[..n]
  }

  /** The repair of one skill entry (evaluator.py, `evaluate_agent`, building `SkillScore`). */
  function RepairSkill(reply: SkillReply): (s: SkillScore)
    ensures s.skillName == reply.skillName
    ensures MIN_SKILL_SCORE <= s.score <= MAX_SKILL_SCORE
    ensures reply.score.None? ==> s.score == DEFAULT_SKILL_SCORE
    ensures reply.score.Some? ==> s.score == Clamp(reply.score.value)
    ensures s.rubricLevel == reply.rubricLevel.GetOr(DEFAULT_RUBRIC_LEVEL)
    ensures s.evidence == Truncate(reply.evidence.GetOr([]), MAX_EVIDENCE)
    ensures s.explanation == Truncate(reply.explanation.GetOr(""), MAX_EXPLANATION)
  {
    SkillScore(
      reply.skillName,
      Clamp(reply.score.GetOr(DEFAULT_SKILL_SCORE)),
      reply.rubricLevel.GetOr(DEFAULT_RUBRIC_LEVEL),
      Truncate(reply.evidence.GetOr([]), MAX_EVIDENCE),
      Truncate(reply.explanation.GetOr(""), MAX_EXPLANATION))
  }

  function RepairSkills(replies: seq<SkillReply>): (scores: seq<SkillScore>)
    ensures |scores| == |replies|
    ensures forall k :: 0 <= k < |replies| ==> scores[k] == RepairSkill(replies[k])
  {
    seq(|replies|, k requires 0 <= k < |replies| => RepairSkill(replies[k]))
  }

  predicate AllClamped(scores: seq<SkillScore>) {
    forall k :: 0 <= k < |scores| ==> MIN_SKILL_SCORE <= scores[k].score <= MAX_SKILL_SCORE
  }

  // ---------------------------------------------------------------------------
  // Weighted overall score (`_calculate_weighted_score`)
  // ---------------------------------------------------------------------------

  /** A skill counts for a role unless it is the other side's role-specific skill. */
  predicate Counts(skill: string, role: string) {
    !IsRoleSpecific(skill) || skill == RoleSpecificSkill(role)
  }

  /** `score * 10 * weight`: the 1..10 score scaled to 10..100, weighted. */
  function Contribution(s: SkillScore): real {
    s.score * 10.0 * WeightOf(s.skillName)
  }

  /** The running `weighted_sum` after the given entries. */
  function WeightedSum(scores: seq<SkillScore>, role: string): real {
    if scores == [] then 0.0
    else
      var last := scores[|scores| - 1];
      WeightedSum(scores[..|scores| - 1], role)
      + (if Counts(last.skillName, role) then Contribution(last) else 0.0)
  }

  /** The running `total_weight` after the given entries. */
  function TotalWeight(scores: seq<SkillScore>, role: string): real {
    if scores == [] then 0.0
    else
      var last := scores[|scores| - 1];
      TotalWeight(scores[..|scores| - 1], role)
      + (if Counts(last.skillName, role) then WeightOf(last.skillName) else 0.0)
  }

  /** The weighted mean of the counted skills on the 10..100 scale, or 50 when none counts. */
  function WeightedAverage(scores: seq<SkillScore>, role: string): real {
    var total := TotalWeight(scores, role);
    if total > 0.0 then WeightedSum(scores, role) / total else NEUTRAL_OVERALL
  }

  /** `_calculate_weighted_score`: one pass accumulating the weighted sum and the total weight. */
  method WeightedScore(scores: seq<SkillScore>, role: string) returns (r: real)
    ensures r == WeightedAverage(scores, role)
  {
    var totalWeight := 0.0;
    var weightedSum := 0.0;
    var roleSpecific := RoleSpecificSkill(role);
    for k := 0 to |scores|
      invariant totalWeight == TotalWeight(scores[..k], role)
      invariant weightedSum == WeightedSum(scores[..k], role)
    {
      assert scores[..k + 1][..k] == scores[..k];
      var s := scores[k];
      var weight := WeightOf(s.skillName);
      if (s.skillName == DECEPTION_SKILL || s.skillName == DETECTION_ABILITY) && s.skillName != roleSpecific {
        continue;
      }
      weightedSum := weightedSum + s.score * 10.0 * weight;
      totalWeight := totalWeight + weight;
    }
    assert scores[..|scores|] == scores;
    if totalWeight > 0.0 {
      r := weightedSum / totalWeight;
    } else {
      r := NEUTRAL_OVERALL;
    }
  }

  predicate SomeSkillCounts(scores: seq<SkillScore>, role: string) {
    exists k :: 0 <= k < |scores| && Counts(scores[k].skillName, role)
  }

  /** The total weight is never negative, and it is positive exactly when some skill counts. */
  lemma {:induction false} TotalWeightPositive(scores: seq<SkillScore>, role: string)
    ensures TotalWeight(scores, role) >= 0.0
    ensures TotalWeight(scores, role) > 0.0 <==> SomeSkillCounts(scores, role)
  {
    if scores != [] {
      TotalWeightPositive(scores[..|scores| - 1], role);
      SomeSkillCountsInit(scores, role);
    }
  }

  /** Some skill counts exactly when one counts before the last entry or the last entry counts. */
  lemma SomeSkillCountsInit(scores: seq<SkillScore>, role: string)
    requires scores != []
    ensures SomeSkillCounts(scores, role)
            <==> SomeSkillCounts(scores[..|scores| - 1], role) || Counts(scores[|scores| - 1].skillName, role)
  {
    var init := scores[..|scores| - 1];
    if SomeSkillCounts(init, role) {
      var k :| 0 <= k < |init| && Counts(init[k].skillName, role);
      assert scores[k] == init[k];
    }
    if SomeSkillCounts(scores, role) && !Counts(scores[|scores| - 1].skillName, role) {
      var k :| 0 <= k < |scores| && Counts(scores[k].skillName, role);
      assert init[k] == scores[k];
    }
  }

  lemma ContributionBounds(s: SkillScore)
    requires MIN_SKILL_SCORE <= s.score <= MAX_SKILL_SCORE
    ensures 10.0 * WeightOf(s.skillName) <= Contribution(s) <= 100.0 * WeightOf(s.skillName)
  {
    var a := s.score;
    var w := WeightOf(s.skillName);
    assert (a - 1.0) * (10.0 * w) >= 0.0;
    assert (10.0 - a) * (10.0 * w) >= 0.0;
  }

  /** With clamped scores the weighted sum lies between 10 and 100 times the total weight. */
  lemma {:induction false} WeightedSumBounds(scores: seq<SkillScore>, role: string)
    requires AllClamped(scores)
    ensures 10.0 * TotalWeight(scores, role) <= WeightedSum(scores, role) <= 100.0 * TotalWeight(scores, role)
  {
    if scores != [] {
      var init := scores[..|scores| - 1];
      assert AllClamped(init) by {
        forall k | 0 <= k < |init| ensures MIN_SKILL_SCORE <= init[k].score <= MAX_SKILL_SCORE {
          assert init[k] == scores[k];
        }
      }
      WeightedSumBounds(init, role);
      ContributionBounds(scores[|scores| - 1]);
    }
  }

  /**
   * With clamped scores the weighted score is 50 when no skill counts and
   * lies in [10, 100] otherwise; either way it is in [0, 100].
   */
  lemma WeightedAverageRange(scores: seq<SkillScore>, role: string)
    requires AllClamped(scores)
    ensures !SomeSkillCounts(scores, role) ==> WeightedAverage(scores, role) == NEUTRAL_OVERALL
    ensures SomeSkillCounts(scores, role) ==> 10.0 <= WeightedAverage(scores, role) <= 100.0
  {
    TotalWeightPositive(scores, role);
    WeightedSumBounds(scores, role);
    var t := TotalWeight(scores, role);
    if t > 0.0 {
      QuotientBounds(WeightedSum(scores, role), t, 10.0, 100.0);
    }
  }

  lemma QuotientBounds(s: real, t: real, lo: real, hi: real)
    requires t > 0.0 && lo * t <= s <= hi * t
    ensures lo <= s / t <= hi
  {
    var q := s / t;
    assert q * t == s;
    assert (q - lo) * t == s - lo * t;
    assert (hi - q) * t == hi * t - s;
  }

  /**
   * A skill that does not count for the role (the other side's role-specific
   * skill) has no effect on the weighted score, wherever it stands.
   */
  lemma IgnoresOtherSideSkill(a: seq<SkillScore>, x: SkillScore, b: seq<SkillScore>, role: string)
    requires !Counts(x.skillName, role)
    ensures WeightedSum(a + [x] + b, role) == WeightedSum(a + b, role)
    ensures TotalWeight(a + [x] + b, role) == TotalWeight(a + b, role)
    ensures WeightedAverage(a + [x] + b, role) == WeightedAverage(a + b, role)
  {
    IgnoredInSum(a, x, b, role);
    IgnoredInWeight(a, x, b, role);
  }

  lemma {:induction false} IgnoredInSum(a: seq<SkillScore>, x: SkillScore, b: seq<SkillScore>, role: string)
    requires !Counts(x.skillName, role)
    ensures WeightedSum(a + [x] + b, role) == WeightedSum(a + b, role)
  {
    InsertedInits(a, x, b);
    if b != [] {
      IgnoredInSum(a, x, b[..|b| - 1], role);
    }
  }

  lemma {:induction false} IgnoredInWeight(a: seq<SkillScore>, x: SkillScore, b: seq<SkillScore>, role: string)
    requires !Counts(x.skillName, role)
    ensures TotalWeight(a + [x] + b, role) == TotalWeight(a + b, role)
  {
    InsertedInits(a, x, b);
    if b != [] {
      IgnoredInWeight(a, x, b[..|b| - 1], role);
    }
  }

  /** The shapes of `a + [x] + b` and `a + b` once their last entry is taken off. */
  lemma InsertedInits(a: seq<SkillScore>, x: SkillScore, b: seq<SkillScore>)
    ensures b == [] ==> a + [x] + b == a + [x] && (a + [x])[..|a|] == a && a + b == a
    ensures b != [] ==>
              && (a + [x] + b)[..|a + [x] + b| - 1] == a + [x] + b[..|b| - 1]
              && (a + b)[..|a + b| - 1] == a + b[..|b| - 1]
              && (a + [x] + b)[|a + [x] + b| - 1] == b[|b| - 1]
              && (a + b)[|a + b| - 1] == b[|b| - 1]
  {
  }

  /**
   * Raising one skill's score never lowers the weighted score. It raises it
   * strictly when that skill counts for the role, and leaves it unchanged
   * when it does not.
   */
  lemma RaisingScoreNeverLowers(scores: seq<SkillScore>, k: nat, v: real, role: string)
    requires k < |scores| && scores[k].score <= v
    ensures var raised := scores[k := scores[k].(score := v)];
            && WeightedAverage(scores, role) <= WeightedAverage(raised, role)
            && (Counts(scores[k].skillName, role) && scores[k].score < v ==>
                  WeightedAverage(scores, role) < WeightedAverage(raised, role))
            && (!Counts(scores[k].skillName, role) ==> WeightedAverage(raised, role) == WeightedAverage(scores, role))
  {
    var x := scores[k].(score := v);
    var raised := scores[k := x];
    UpdatedWeight(scores, k, x, role);
    UpdatedSum(scores, k, x, role);
    ContributionMonotone(scores[k], x);
    if Counts(scores[k].skillName, role) {
      assert SomeSkillCounts(scores, role);
      TotalWeightPositive(scores, role);
      QuotientMonotone(WeightedSum(scores, role), WeightedSum(raised, role), TotalWeight(scores, role));
    }
  }

  /** A higher score of the same skill contributes more. */
  lemma ContributionMonotone(a: SkillScore, b: SkillScore)
    requires a.skillName == b.skillName && a.score <= b.score
    ensures Contribution(a) <= Contribution(b)
    ensures a.score < b.score ==> Contribution(a) < Contribution(b)
  {
    var w := WeightOf(a.skillName);
    assert Contribution(b) - Contribution(a) == (b.score - a.score) * (10.0 * w);
  }

  lemma QuotientMonotone(s1: real, s2: real, t: real)
    requires t > 0.0 && s1 <= s2
    ensures s1 / t <= s2 / t
    ensures s1 < s2 ==> s1 / t < s2 / t
  {
    assert (s2 / t - s1 / t) * t == s2 - s1;
  }

  /** The weight one entry adds to the total. */
  function ShareOf(s: SkillScore, role: string): real {
    if Counts(s.skillName, role) then WeightOf(s.skillName) else 0.0
  }

  /** Replacing one entry by one of the same skill keeps the total weight. */
  lemma {:induction false} UpdatedWeight(scores: seq<SkillScore>, k: nat, x: SkillScore, role: string)
    requires k < |scores| && x.skillName == scores[k].skillName
    ensures TotalWeight(scores[k := x], role) == TotalWeight(scores, role)
  {
    var n := |scores|;
    var init := scores[..n - 1];
    var updated := scores[k := x];
    assert TotalWeight(updated, role) == TotalWeight(updated[..n - 1], role) + ShareOf(updated[n - 1], role);
    assert TotalWeight(scores, role) == TotalWeight(init, role) + ShareOf(scores[n - 1], role);
    if k < n - 1 {
      assert updated[..n - 1] == init[k := x] && updated[n - 1] == scores[n - 1];
      UpdatedWeight(init, k, x, role);
    } else {
      assert updated[..n - 1] == init;
    }
  }

  /** Replacing one entry by one of the same skill changes the sum by the change in its contribution. */
  lemma {:induction false} UpdatedSum(scores: seq<SkillScore>, k: nat, x: SkillScore, role: string)
    requires k < |scores| && x.skillName == scores[k].skillName
    ensures WeightedSum(scores[k := x], role)
            == WeightedSum(scores, role)
               + (if Counts(x.skillName, role) then Contribution(x) - Contribution(scores[k]) else 0.0)
  {
    var n := |scores|;
    var init := scores[..n - 1];
    if k < n - 1 {
      assert scores[k := x][..n - 1] == init[k := x];
      UpdatedSum(init, k, x, role);
    } else {
      assert scores[k := x][..n - 1] == init;
    }
  }

  lemma ContributionAtWeight(s: SkillScore, w: real)
    requires WeightOf(s.skillName) == w
    ensures Contribution(s) == s.score * 10.0 * w
  {
  }

  /**
   * A full reply, one score per applicable skill in prompt order, averages to
   * 2.5 reasoning + 2.0 persuasion + 2.5 role-specific + 1.5 adaptation + 1.5 consistency.
   */
  lemma ApplicableSkillsAverage(scores: seq<SkillScore>, role: string)
    requires |scores| == 5
    requires forall k :: 0 <= k < 5 ==> scores[k].skillName == ApplicableSkills(role)[k]
    ensures WeightedAverage(scores, role)
            == 2.5 * scores[0].score + 2.0 * scores[1].score + 2.5 * scores[2].score
               + 1.5 * scores[3].score + 1.5 * scores[4].score
  {
    assert forall k :: 0 <= k < 5 ==> Counts(scores[k].skillName, role);
    FiveCounted(scores, role);
    WeightLookups();
    ContributionAtWeight(scores[0], 0.25);
    ContributionAtWeight(scores[1], 0.20);
    ContributionAtWeight(scores[2], 0.25);
    ContributionAtWeight(scores[3], 0.15);
    ContributionAtWeight(scores[4], 0.15);
  }

  /** Five entries that all count: the running sums add up all five weights and contributions. */
  lemma FiveCounted(scores: seq<SkillScore>, role: string)
    requires |scores| == 5
    requires forall k :: 0 <= k < 5 ==> Counts(scores[k].skillName, role)
    ensures TotalWeight(scores, role)
            == WeightOf(scores[0].skillName) + WeightOf(scores[1].skillName) + WeightOf(scores[2].skillName)
               + WeightOf(scores[3].skillName) + WeightOf(scores[4].skillName)
    ensures WeightedSum(scores, role)
            == Contribution(scores[0]) + Contribution(scores[1]) + Contribution(scores[2])
               + Contribution(scores[3]) + Contribution(scores[4])
  {
    CountedStep(scores, role, 1);
    CountedStep(scores, role, 2);
    CountedStep(scores, role, 3);
    CountedStep(scores, role, 4);
    CountedStep(scores, role, 5);
    assert scores[..5] == scores;
  }

  /** One more counted entry adds its weight and its contribution. */
  lemma CountedStep(scores: seq<SkillScore>, role: string, n: nat)
    requires 0 < n <= |scores| && Counts(scores[n - 1].skillName, role)
    ensures TotalWeight(scores[..n], role) == TotalWeight(scores[..n - 1], role) + WeightOf(scores[n - 1].skillName)
    ensures WeightedSum(scores[..n], role) == WeightedSum(scores[..n - 1], role) + Contribution(scores[n - 1])
  {
    assert scores[..n][..n - 1] == scores[..n - 1];
  }

  /** A werewolf scored 8, 7, 9, 6, 7 on its five skills gets 76.0. */
  lemma WerewolfExample()
    ensures WeightedAverage(
              [ SkillScore(REASONING_QUALITY, 8.0, "Very Good", [], ""),
                SkillScore(PERSUASION_EFFECTIVENESS, 7.0, "Good", [], ""),
                SkillScore(DECEPTION_SKILL, 9.0, "Master Deceiver", [], ""),
                SkillScore(ADAPTATION, 6.0, "Moderately Adaptive", [], ""),
                SkillScore(CONSISTENCY, 7.0, "Good", [], "") ],
              "Werewolf") == 76.0
  {
    WerewolfSkills();
    ApplicableSkillsAverage(
      [ SkillScore(REASONING_QUALITY, 8.0, "Very Good", [], ""),
        SkillScore(PERSUASION_EFFECTIVENESS, 7.0, "Good", [], ""),
        SkillScore(DECEPTION_SKILL, 9.0, "Master Deceiver", [], ""),
        SkillScore(ADAPTATION, 6.0, "Moderately Adaptive", [], ""),
        SkillScore(CONSISTENCY, 7.0, "Good", [], "") ],
      "Werewolf");
  }

  lemma WerewolfSkills()
    ensures ApplicableSkills("Werewolf") == [REASONING_QUALITY, PERSUASION_EFFECTIVENESS, DECEPTION_SKILL, ADAPTATION, CONSISTENCY]
  {
    assert ToLower("Werewolf") == "werewolf";
  }

  // ---------------------------------------------------------------------------
  // Assessment of one agent (`evaluate_agent` after parsing, `_default_evaluation`)
  // ---------------------------------------------------------------------------

  /** The judge's overall score when present and within 0..100, else the weighted score. */
  function SelectOverall(judge: Option<real>, scores: seq<SkillScore>, role: string): (r: real)
    ensures judge.Some? && 0.0 <= judge.value <= 100.0 ==> r == judge.value
    ensures (judge.None? || judge.value < 0.0 || judge.value > 100.0) ==> r == WeightedAverage(scores, role)
  {
    match judge
    case Some(v) => if 0.0 <= v <= 100.0 then v else WeightedAverage(scores, role)
    case None => WeightedAverage(scores, role)
  }

  /** With clamped skill scores the selected overall score always lies in 0..100. */
  lemma SelectOverallRange(judge: Option<real>, scores: seq<SkillScore>, role: string)
    requires AllClamped(scores)
    ensures 0.0 <= SelectOverall(judge, scores, role) <= 100.0
  {
    WeightedAverageRange(scores, role);
  }

  /** `_default_evaluation`: overall 50, no skill scores, the two fixed failure notes. */
  const DEFAULT_ASSESSMENT := Assessment([], NEUTRAL_OVERALL, [FAILED_STRENGTH], [FAILED_WEAKNESS], [], [])

  /**
   * The assessment of one agent from the parsed judge reply, or `None` when
   * the call or the parse failed: repaired skill scores, the selected overall
   * score and the feedback lists cut to 3, 3, 3 and 2 entries.
   */
  function Assess(role: string, reply: Option<AgentReply>): (a: Assessment)
    ensures reply.None? ==> a == DEFAULT_ASSESSMENT
    ensures reply.Some? ==>
              && a.skillScores == RepairSkills(reply.value.skillScores.GetOr([]))
              && a.overallScore == SelectOverall(reply.value.overallScore, a.skillScores, role)
              && a.strengths == Truncate(reply.value.strengths.GetOr([]), MAX_STRENGTHS)
              && a.weaknesses == Truncate(reply.value.weaknesses.GetOr([]), MAX_WEAKNESSES)
              && a.keyMoments == Truncate(reply.value.keyMoments.GetOr([]), MAX_KEY_MOMENTS)
              && a.improvementSuggestions == Truncate(reply.value.improvementSuggestions.GetOr([]), MAX_SUGGESTIONS)
  {
    match reply
    case None => DEFAULT_ASSESSMENT
    case Some(r) =>
      var scores := RepairSkills(r.skillScores.GetOr([]));
      Assessment(
        scores,
        SelectOverall(r.overallScore, scores, role),
        Truncate(r.strengths.GetOr([]), MAX_STRENGTHS),
        Truncate(r.weaknesses.GetOr([]), MAX_WEAKNESSES),
        Truncate(r.keyMoments.GetOr([]), MAX_KEY_MOMENTS),
        Truncate(r.improvementSuggestions.GetOr([]), MAX_SUGGESTIONS))
  }

  /**
   * Every assessment, repaired or default, has clamped skill scores and an
   * overall score in 0..100; a feedback list the judge kept short enough is
   * kept whole, and a longer one is cut to its first entries.
   */
  lemma AssessBounds(role: string, reply: Option<AgentReply>)
    ensures AllClamped(Assess(role, reply).skillScores)
    ensures 0.0 <= Assess(role, reply).overallScore <= 100.0
    ensures reply.Some? && |reply.value.strengths.GetOr([])| <= MAX_STRENGTHS ==>
              Assess(role, reply).strengths == reply.value.strengths.GetOr([])
    ensures reply.Some? && |reply.value.weaknesses.GetOr([])| <= MAX_WEAKNESSES ==>
              Assess(role, reply).weaknesses == reply.value.weaknesses.GetOr([])
    ensures reply.Some? && |reply.value.keyMoments.GetOr([])| <= MAX_KEY_MOMENTS ==>
              Assess(role, reply).keyMoments == reply.value.keyMoments.GetOr([])
    ensures reply.Some? && |reply.value.improvementSuggestions.GetOr([])| > MAX_SUGGESTIONS ==>
              Assess(role, reply).improvementSuggestions == reply.value.improvementSuggestions.GetOr([])[..MAX_SUGGESTIONS]
  {
    var a := Assess(role, reply);
    if reply.Some? {
      SelectOverallRange(reply.value.overallScore, a.skillScores, role);
    }
  }
}
