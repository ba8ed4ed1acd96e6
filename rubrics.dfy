/**
 * The rubric registry (`RUBRICS`) and the role-dependent choice of skills:
 * which role-specific skill a role is judged on, which team it belongs to,
 * and the rubric text that is put in front of the judge.
 */
module Rubrics {
  import opened Wrappers
  import opened Text

  /** One of the ten levels of a rubric's scale. */
  datatype Level = Level(caption: string, description: string)

  /** A skill's rubric: display name, definition, weight and its ten-level scale (level k at index k - 1). */
  datatype Rubric = Rubric(name: string, definition: string, weight: real, scale: seq<Level>)

  const REASONING_QUALITY := "reasoning_quality"
  const PERSUASION_EFFECTIVENESS := "persuasion_effectiveness"
  const DECEPTION_SKILL := "deception_skill"
  const DETECTION_ABILITY := "detection_ability"
  const ADAPTATION := "adaptation"
  const CONSISTENCY := "consistency"

  /** Weight of a skill that has no rubric. */
  const UNKNOWN_SKILL_WEIGHT := 0.1

  const REASONING_QUALITY_WEIGHT := 0.25
  const PERSUASION_EFFECTIVENESS_WEIGHT := 0.20
  const DECEPTION_SKILL_WEIGHT := 0.25
  const DETECTION_ABILITY_WEIGHT := 0.25
  const ADAPTATION_WEIGHT := 0.15
  const CONSISTENCY_WEIGHT := 0.15

  const REASONING_QUALITY_RUBRIC := Rubric(
    "Reasoning Quality",
    "Quality of logical deduction, inference, and analysis during gameplay",
    REASONING_QUALITY_WEIGHT,
    [ Level("Very Poor", "No reasoning, random decisions"),
      Level("Poor", "Contradictory reasoning, ignores available information"),
      Level("Below Average", "Superficial reasoning, follows crowd blindly"),
      Level("Slightly Below Average", "Basic reasoning with notable gaps"),
      Level("Average", "Adequate reasoning, uses obvious information"),
      Level("Slightly Above Average", "Good reasoning, makes valid deductions"),
      Level("Good", "Solid reasoning, anticipates some moves"),
      Level("Very Good", "Strong deductions, identifies patterns"),
      Level("Excellent", "Exceptional analysis, multi-step planning"),
      Level("Outstanding", "Near-optimal reasoning, predicts opponent moves") ])

  const PERSUASION_EFFECTIVENESS_RUBRIC := Rubric(
    "Persuasion Effectiveness",
    "Ability to influence other players' decisions through argumentation",
    PERSUASION_EFFECTIVENESS_WEIGHT,
    [ Level("Very Poor", "Arguments ignored or counterproductive"),
      Level("Poor", "Weak arguments, no influence on others"),
      Level("Below Average", "Occasional influence, mostly ignored"),
      Level("Slightly Below Average", "Some persuasive moments but inconsistent"),
      Level("Average", "Moderate influence on group decisions"),
      Level("Slightly Above Average", "Regularly contributes to consensus"),
      Level("Good", "Often sways votes and opinions"),
      Level("Very Good", "Strong persuader, builds coalitions"),
      Level("Excellent", "Dominates discussions, shapes narratives"),
      Level("Outstanding", "Master persuader, controls group dynamics") ])

  const DECEPTION_SKILL_RUBRIC := Rubric(
    "Deception Skill",
    "Ability to hide werewolf identity and mislead villagers (Werewolf only)",
    DECEPTION_SKILL_WEIGHT,
    [ Level("Exposed", "Immediately detected, obvious werewolf behavior"),
      Level("Very Suspicious", "Detected within first round"),
      Level("Suspicious", "Generates strong suspicion early"),
      Level("Somewhat Suspicious", "Notable inconsistencies in behavior"),
      Level("Neutral", "Blends in but doesn't deflect suspicion"),
      Level("Somewhat Hidden", "Avoids being primary suspect"),
      Level("Well Hidden", "Deflects suspicion to others"),
      Level("Excellent Deceiver", "Builds false trust, never suspected"),
      Level("Master Deceiver", "Manipulates village against innocents"),
      Level("Perfect Deception", "Completely trusted, leads village astray") ])

  const DETECTION_ABILITY_RUBRIC := Rubric(
    "Detection Ability",
    "Ability to identify werewolves through behavioral analysis (Villager team only)",
    DETECTION_ABILITY_WEIGHT,
    [ Level("Blind", "Cannot identify werewolves, trusts them"),
      Level("Very Poor", "Consistently votes against innocents"),
      Level("Poor", "Rarely identifies werewolves correctly"),
      Level("Below Average", "Occasional correct identification by luck"),
      Level("Average", "Identifies some werewolves with effort"),
      Level("Above Average", "Good behavioral analysis"),
      Level("Good Detective", "Regularly identifies werewolves"),
      Level("Very Good", "Early and accurate detection"),
      Level("Excellent", "Deduces roles with minimal information"),
      Level("Sherlock", "Near-perfect detection from round 1") ])

  const ADAPTATION_RUBRIC := Rubric(
    "Strategic Adaptation",
    "Ability to adjust strategy based on new information and game state",
    ADAPTATION_WEIGHT,
    [ Level("Rigid", "Never changes approach despite failures"),
      Level("Very Rigid", "Rarely adjusts, repeats mistakes"),
      Level("Somewhat Rigid", "Slow to adapt to new information"),
      Level("Slightly Inflexible", "Makes some adjustments but delayed"),
      Level("Average", "Adapts when situation is obvious"),
      Level("Moderately Adaptive", "Adjusts strategy proactively"),
      Level("Good", "Quick to incorporate new information"),
      Level("Very Good", "Anticipates need for adaptation"),
      Level("Excellent", "Fluid strategy, always optimal response"),
      Level("Outstanding", "Predicts game flow, pre-adapts") ])

  const CONSISTENCY_RUBRIC := Rubric(
    "Logical Consistency",
    "Maintaining coherent narrative and avoiding self-contradiction",
    CONSISTENCY_WEIGHT,
    [ Level("Incoherent", "Constant contradictions, no logic"),
      Level("Very Inconsistent", "Major contradictions in statements"),
      Level("Inconsistent", "Frequent contradictions"),
      Level("Somewhat Inconsistent", "Notable but infrequent contradictions"),
      Level("Average", "Mostly consistent with minor issues"),
      Level("Above Average", "Consistent narrative maintained"),
      Level("Good", "Strong consistency throughout"),
      Level("Very Good", "Excellent narrative coherence"),
      Level("Excellent", "Perfect consistency, credible story"),
      Level("Outstanding", "Unassailable logical coherence") ])

  /** `RUBRICS.get(skill)`: the registry lookup. */
  function RubricOf(skill: string): Option<Rubric> {
    if skill == REASONING_QUALITY then Some(REASONING_QUALITY_RUBRIC)
    else if skill == PERSUASION_EFFECTIVENESS then Some(PERSUASION_EFFECTIVENESS_RUBRIC)
    else if skill == DECEPTION_SKILL then Some(DECEPTION_SKILL_RUBRIC)
    else if skill == DETECTION_ABILITY then Some(DETECTION_ABILITY_RUBRIC)
    else if skill == ADAPTATION then Some(ADAPTATION_RUBRIC)
    else if skill == CONSISTENCY then Some(CONSISTENCY_RUBRIC)
    else None
  }

  /** The six registry keys are told apart: each one finds its own rubric. */
  lemma RegistryLookups()
    ensures RubricOf(REASONING_QUALITY) == Some(REASONING_QUALITY_RUBRIC)
    ensures RubricOf(PERSUASION_EFFECTIVENESS) == Some(PERSUASION_EFFECTIVENESS_RUBRIC)
    ensures RubricOf(DECEPTION_SKILL) == Some(DECEPTION_SKILL_RUBRIC)
    ensures RubricOf(DETECTION_ABILITY) == Some(DETECTION_ABILITY_RUBRIC)
    ensures RubricOf(ADAPTATION) == Some(ADAPTATION_RUBRIC)
    ensures RubricOf(CONSISTENCY) == Some(CONSISTENCY_RUBRIC)
  {
    assert DETECTION_ABILITY[0] != REASONING_QUALITY[0];
  }

  /** The keys of `RUBRICS`. */
  const REGISTRY_KEYS: set<string> :=
    {REASONING_QUALITY, PERSUASION_EFFECTIVENESS, DECEPTION_SKILL, DETECTION_ABILITY, ADAPTATION, CONSISTENCY}

  /** A skill has a rubric exactly when it is one of the six registry keys. */
  lemma RegistryKeys(skill: string)
    ensures RubricOf(skill).Some? <==> skill in REGISTRY_KEYS
    ensures RegistryWeight(skill).Some? <==> skill in REGISTRY_KEYS
  {
  }

  /** Every rubric in the registry has a ten-level scale and a weight in (0, 1]. */
  lemma RegistryWellFormed(skill: string)
    requires RubricOf(skill).Some?
    ensures |RubricOf(skill).value.scale| == 10
    ensures 0.0 < RubricOf(skill).value.weight <= 1.0
  {
  }

  /**
   * The weight column of the registry, looked up by key without the rubric
   * texts (which proofs about scores never need).
   */
  function RegistryWeight(skill: string): Option<real> {
    if skill == REASONING_QUALITY then Some(REASONING_QUALITY_WEIGHT)
    else if skill == PERSUASION_EFFECTIVENESS then Some(PERSUASION_EFFECTIVENESS_WEIGHT)
    else if skill == DECEPTION_SKILL then Some(DECEPTION_SKILL_WEIGHT)
    else if skill == DETECTION_ABILITY then Some(DETECTION_ABILITY_WEIGHT)
    else if skill == ADAPTATION then Some(ADAPTATION_WEIGHT)
    else if skill == CONSISTENCY then Some(CONSISTENCY_WEIGHT)
    else None
  }

  /** `RUBRICS.get(skill, {}).get("weight", 0.1)`: the registry weight, 0.1 for an unknown skill. */
  function WeightOf(skill: string): (w: real)
    ensures 0.0 < w <= 0.25
  {
    RegistryWeight(skill).GetOr(UNKNOWN_SKILL_WEIGHT)
  }

  /** The six registry keys are told apart: each one finds its own weight. */
  lemma WeightLookups()
    ensures WeightOf(REASONING_QUALITY) == REASONING_QUALITY_WEIGHT
    ensures WeightOf(PERSUASION_EFFECTIVENESS) == PERSUASION_EFFECTIVENESS_WEIGHT
    ensures WeightOf(DECEPTION_SKILL) == DECEPTION_SKILL_WEIGHT
    ensures WeightOf(DETECTION_ABILITY) == DETECTION_ABILITY_WEIGHT
    ensures WeightOf(ADAPTATION) == ADAPTATION_WEIGHT
    ensures WeightOf(CONSISTENCY) == CONSISTENCY_WEIGHT
  {
    assert DETECTION_ABILITY[0] != REASONING_QUALITY[0];
  }

  /** The weight column agrees with the rubrics: a registered skill weighs its rubric's weight, any other skill 0.1. */
  lemma WeightOfAgrees(skill: string)
    ensures RubricOf(skill).Some? ==> WeightOf(skill) == RubricOf(skill).value.weight
    ensures RubricOf(skill).None? ==> WeightOf(skill) == UNKNOWN_SKILL_WEIGHT
  {
  }

  /** Python's `str.lower()` on ASCII letters; every other character is left alone. */
  function ToLower(s: string): (r: string)
    ensures |r| == |s|
  {
    if s == [] then []
    else
      var c := s[0];
      [if 'A' <= c <= 'Z' then (c as int + 32) as char else c] + ToLower(s[1..])
  }

  /** Lower-casing twice is lower-casing once. */
  lemma {:induction false} ToLowerIdempotent(s: string)
    ensures ToLower(ToLower(s)) == ToLower(s)
  {
    if s != [] {
      ToLowerIdempotent(s[1..]);
      assert ToLower(s)[1..] == ToLower(s[1..]);
    }
  }

  /** The single deceptive role: compared case-insensitively. */
  predicate IsWerewolf(role: string) {
    ToLower(role) == "werewolf"
  }

  /** `_get_role_specific_skill`: deception for a werewolf, detection for every other role. */
  function RoleSpecificSkill(role: string): (skill: string)
    ensures skill == DECEPTION_SKILL || skill == DETECTION_ABILITY
    ensures skill == DECEPTION_SKILL <==> IsWerewolf(role)
  {
    if IsWerewolf(role) then DECEPTION_SKILL else DETECTION_ABILITY
  }

  /** Team derivation of `evaluate_game`: the werewolves for a werewolf, the villagers otherwise. */
  function TeamOf(role: string): (team: string)
    ensures team == "werewolves" || team == "villagers"
    ensures team == "werewolves" <==> RoleSpecificSkill(role) == DECEPTION_SKILL
  {
    if IsWerewolf(role) then "werewolves" else "villagers"
  }

  /** The role classification ignores case: a role and its lower-cased form get the same skill and team. */
  lemma RoleClassificationIgnoresCase(role: string)
    ensures RoleSpecificSkill(ToLower(role)) == RoleSpecificSkill(role)
    ensures TeamOf(ToLower(role)) == TeamOf(role)
  {
    ToLowerIdempotent(role);
  }

  /** The two skills only one side of the game is judged on. */
  predicate IsRoleSpecific(skill: string) {
    skill == DECEPTION_SKILL || skill == DETECTION_ABILITY
  }

  /** The five skills `_build_rubrics_text` lists for a role, in prompt order. */
  function ApplicableSkills(role: string): (skills: seq<string>)
    ensures |skills| == 5
  {
    [REASONING_QUALITY, PERSUASION_EFFECTIVENESS, RoleSpecificSkill(role), ADAPTATION, CONSISTENCY]
  }

  function SumWeights(skills: seq<string>): real {
    if skills == [] then 0.0 else WeightOf(skills[0]) + SumWeights(skills[1..])
  }

  /**
   * Each role's applicable skills all have rubrics, exactly one of them is
   * role-specific (the role's own), and their weights add up to 1.
   */
  lemma ApplicableSkillsForRole(role: string)
    ensures forall k :: 0 <= k < 5 ==> RubricOf(ApplicableSkills(role)[k]).Some?
    ensures forall k :: 0 <= k < 5 ==>
              (IsRoleSpecific(ApplicableSkills(role)[k]) <==> k == 2)
    ensures SumWeights(ApplicableSkills(role)) == 1.0
  {
    RegistryLookups();
    var s := ApplicableSkills(role);
    assert s[1..][1..][1..][1..][1..] == [];
    assert SumWeights(s[4..]) == 0.15;
    assert SumWeights(s[3..]) == 0.30;
    assert SumWeights(s[2..]) == 0.55;
  }

  // ---------------------------------------------------------------------------
  // Rubric text for the judge prompt
  // ---------------------------------------------------------------------------

  /** `"  {score}: {label} - {description}"` */
  function ScaleLine(score: nat, level: Level): string {
    "  " + NatToString(score) + ": " + level.caption + " - " + level.description
  }

  /** The four heading lines of `build_rubric_text`. */
  function HeaderLines(r: Rubric): seq<string> {
    ["### " + r.name, "Definition: " + r.definition, "", "Scoring Scale:"]
  }

  /** The lines of `build_rubric_text`: the heading, then one line per scale level in order. */
  function RubricLines(r: Rubric): seq<string> {
    HeaderLines(r) + seq(|r.scale|, t requires 0 <= t < |r.scale| => ScaleLine(t + 1, r.scale[t]))
  }

  /** What `build_rubric_text(skill)` returns: empty for an unknown skill. */
  function RubricText(skill: string): string {
    match RubricOf(skill)
    case None => ""
    case Some(r) => Join(RubricLines(r), "\n")
  }

  /** `build_rubric_text`: appends one line per scale level, then joins the lines with newlines. */
  method BuildRubricText(skill: string) returns (text: string)
    ensures text == RubricText(skill)
  {
    var rubric := RubricOf(skill);
    if rubric.None? {
      return "";
    }
    var lines := BuildRubricLines(rubric.value);
    text := Join(lines, "\n");
  }

  /** The line list `build_rubric_text` builds for a known rubric. */
  method BuildRubricLines(r: Rubric) returns (lines: seq<string>)
    ensures lines == RubricLines(r)
  {
    lines := ["### " + r.name, "Definition: " + r.definition, "", "Scoring Scale:"];
    for k := 0 to |r.scale|
      invariant |lines| == 4 + k
      invariant lines[..4] == HeaderLines(r)
      invariant forall t :: 0 <= t < k ==> lines[4 + t] == ScaleLine(t + 1, r.scale[t])
    {
      lines := lines + [ScaleLine(k + 1, r.scale[k])];
    }
    assert lines == RubricLines(r);
  }

  predicate SingleLine(s: string) {
    '\n' !in s
  }

  /** None of a rubric's own strings spans two lines. */
  predicate RubricSingleLine(r: Rubric) {
    SingleLine(r.name) && SingleLine(r.definition)
    && forall t :: 0 <= t < |r.scale| ==> SingleLine(r.scale[t].caption) && SingleLine(r.scale[t].description)
  }

  /**
   * The text of a known skill starts with its heading and is empty only for
   * an unknown skill; it has fourteen lines (four heading lines, ten levels),
   * and as long as the rubric's own strings are single lines the text splits
   * back into exactly those lines, in order.
   */
  lemma RubricTextLines(skill: string)
    ensures RubricText(skill) == "" <==> RubricOf(skill).None?
    ensures RubricOf(skill).Some? ==>
              StartsWith(RubricText(skill), "### " + RubricOf(skill).value.name)
              && |RubricLines(RubricOf(skill).value)| == 14
    ensures RubricOf(skill).Some? && RubricSingleLine(RubricOf(skill).value) ==>
              Split(RubricText(skill), '\n') == RubricLines(RubricOf(skill).value)
  {
    if RubricOf(skill).Some? {
      var r := RubricOf(skill).value;
      RubricTextHeading(r);
      if RubricSingleLine(r) {
        RubricLinesSplitBack(r);
      }
    }
  }

  /** The joined lines of a rubric open with its heading, so they are never empty. */
  lemma RubricTextHeading(r: Rubric)
    ensures StartsWith(Join(RubricLines(r), "\n"), "### " + r.name)
  {
    var lines := RubricLines(r);
    var head := "### " + r.name;
    assert Join(lines, "\n") == head + "\n" + Join(lines[1..], "\n");
    assert (head + "\n" + Join(lines[1..], "\n"))[..|head|] == head;
  }

  /** Single-line rubric strings give single-line rubric lines, which split back out of their join. */
  lemma RubricLinesSplitBack(r: Rubric)
    requires RubricSingleLine(r)
    ensures Split(Join(RubricLines(r), "\n"), '\n') == RubricLines(r)
  {
    var lines := RubricLines(r);
    forall k | 0 <= k < |lines|
      ensures '\n' !in lines[k]
    {
      if k >= 4 {
        ScaleLineSingle(k - 3, r.scale[k - 4]);
      }
    }
    SplitJoin(lines, '\n');
  }

  /** A scale line built from single-line strings is a single line. */
  lemma ScaleLineSingle(score: nat, level: Level)
    requires SingleLine(level.caption) && SingleLine(level.description)
    ensures SingleLine(ScaleLine(score, level))
  {
    var d := NatToString(score);
    assert '\n' !in d;
  }

  /** The skills `_build_rubrics_text` keeps, in order: those that have a rubric. */
  function KeptSkills(skills: seq<string>): (kept: seq<string>)
    ensures |kept| <= |skills|
  {
    if skills == [] then []
    else
      var last := skills[|skills| - 1];
      KeptSkills(skills[..|skills| - 1]) + (if RubricOf(last).Some? then [last] else [])
  }

  /** The rubric text of each of the given skills. */
  function Texts(skills: seq<string>): (texts: seq<string>)
    ensures |texts| == |skills|
  {
    seq(|skills|, k requires 0 <= k < |skills| => RubricText(skills[k]))
  }

  /** `_build_rubrics_text`: the rubric text of each applicable skill, separated by blank lines. */
  method BuildRubricsText(role: string) returns (text: string)
    ensures text == Join(Texts(KeptSkills(ApplicableSkills(role))), "\n\n")
  {
    var skills := ApplicableSkills(role);
    var sections: seq<string> := [];
    for k := 0 to |skills|
      invariant sections == Texts(KeptSkills(skills[..k]))
    {
      assert skills[..k + 1] == skills[..k] + [skills[k]];
      KeptSkillsSnoc(skills[..k], skills[k]);
      if RubricOf(skills[k]).Some? {
        var section := BuildRubricText(skills[k]);
        TextsSnoc(KeptSkills(skills[..k]), skills[k]);
        sections := sections + [section];
      }
    }
    assert skills[..|skills|] == skills;
    text := Join(sections, "\n\n");
  }

  /** The filter decides about each skill on its own, in order. */
  lemma KeptSkillsSnoc(skills: seq<string>, s: string)
    ensures KeptSkills(skills + [s]) == KeptSkills(skills) + (if RubricOf(s).Some? then [s] else [])
  {
    assert (skills + [s])[..|skills|] == skills;
  }

  lemma TextsSnoc(skills: seq<string>, s: string)
    ensures Texts(skills + [s]) == Texts(skills) + [RubricText(s)]
  {
  }

  /** When every skill has a rubric, the filter keeps them all, in order. */
  lemma {:induction false} KeptSkillsKeepAll(skills: seq<string>)
    requires forall k :: 0 <= k < |skills| ==> RubricOf(skills[k]).Some?
    ensures KeptSkills(skills) == skills
  {
    if skills != [] {
      KeptSkillsKeepAll(skills[..|skills| - 1]);
      assert skills[..|skills| - 1] + [skills[|skills| - 1]] == skills;
    }
  }

  /**
   * No applicable skill is dropped: the prompt has five rubric sections, and
   * the third is the rubric of the role's own role-specific skill.
   */
  lemma RubricsTextSections(role: string)
    ensures KeptSkills(ApplicableSkills(role)) == ApplicableSkills(role)
    ensures |Texts(KeptSkills(ApplicableSkills(role)))| == 5
    ensures Texts(KeptSkills(ApplicableSkills(role)))[2] == RubricText(RoleSpecificSkill(role))
  {
    ApplicableSkillsForRole(role);
    KeptSkillsKeepAll(ApplicableSkills(role));
  }
}
