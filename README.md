# Werewolf game evaluator: the deterministic scoring core

This project models, in Dafny, the deterministic part of the LLM-as-judge
evaluator of a Werewolf game benchmark. Every call to the judge model is
replaced by its parsed answer, passed in as a value. What is left is
modelled and proved:

- **Rubrics** (`rubrics.dfy`): the static `RUBRICS` table of six skills, each
  with a weight and a ten-level scale. The scoring reads the weights through
  a weight column kept beside the rubric texts, and a lemma proves the two
  agree. Also the case-insensitive split
  between werewolves and everyone else, which picks the role-specific skill
  (`deception_skill` or `detection_ability`) and the team. Also the rubric
  text placed in the judge's prompt.
- **Repair of a per-agent judgement** (`scoring.dfy`, `agents.dfy`):
  - skill scores are clamped to 1..10;
  - missing fields get their defaults;
  - evidence, explanation and feedback lists are truncated;
  - the judge's overall score is kept only when it lies in 0..100, and is
    otherwise replaced by the role-aware weighted average;
  - a failed call gives the fixed default evaluation.
  `AgentEvaluation` is a class whose overall score and rank are updated in
  place later on.
- **Comparative ranking** (`comparison.dfy`, with the stable sort in
  `sorting.dfy`):
  - the judge's `player_ranking` is applied in place to the evaluation
    records;
  - agents the ranking leaves out get consecutive ranks after it, by
    descending score;
  - when the comparative call fails, a quantitative fallback ranks everyone
    1..N by descending score and names the top agent.
- **Consistency validation** (`consistency.dfy`): over the outcomes of
  repeated evaluations it computes:
  - the pairwise rank-agreement rate over the agents of the first run;
  - the share of the most frequent best player;
  - the reliability test and its interpretation.
- **Fence stripping** (`fence.dfy`): `_clean_json_response`, which removes a
  Markdown code fence around the judge's reply.
- **Game evaluation and its report** (`report.dfy`):
  - `evaluate_game` builds one record per player and runs the comparative
    step;
  - the `rankings` table of `GameEvaluation.to_dict` is ordered by rank;
  - a placeholder is shown when no validation was run.

Python's string operations `strip`, `split`, `join`, `lower`, `startswith`
and `format(x, ".1f")` are written out over `seq<char>` in `text.dfy`.
Scores and weights are exact `real` numbers; a skill score may be fractional, as a JSON number can be.

Notes on the code's actual behaviour, which the lemmas pin down:

- With the weights as written, a werewolf judged 8, 7, 9, 6, 7 on its five
  applicable skills gets 76.0 (`Scoring.WerewolfExample`).
- The agreement rate is not symmetric in the runs. It counts only the agents
  of the first successful run, so reordering the runs can change it
  (`Consistency.RateDependsOnFirstRun`: 1.0 against 0.5).
- The judge's ranks are not validated. A partial ranking can give an
  unranked agent the same rank as a ranked one
  (`Comparison.PartialRankingCollides`). Ranks are proved to be exactly
  1..N only on the fallback path and for an empty ranking.

## Model

| member | source | states |
|---|---|---|
| Rubrics.RegistryLookups | backend/src/green_agent/evaluator.py:41-144 | Each of the six keys (reasoning quality, persuasion effectiveness, deception skill, detection ability, adaptation, consistency) finds its own rubric. |
| Rubrics.RegistryKeys | backend/src/green_agent/evaluator.py:41-144 | A skill has a rubric, and a registry weight, exactly when it is one of those six keys. |
| Rubrics.RegistryWellFormed | backend/src/green_agent/evaluator.py:41-144 | Every registered rubric has a ten-level scale and a weight in (0, 1]. |
| Rubrics.WeightOf | backend/src/green_agent/evaluator.py:538 | Every weight the scoring loop reads is positive and at most 0.25. |
| Rubrics.WeightOfAgrees | backend/src/green_agent/evaluator.py:538 | The weight read for a registered skill is its rubric's weight. An unregistered skill weighs 0.1. |
| Rubrics.WeightLookups | backend/src/green_agent/evaluator.py:41-144 | Each of the six registry keys finds its own weight: 0.25, 0.20, 0.25, 0.25, 0.15 and 0.15. |
| Rubrics.ToLowerIdempotent | backend/src/green_agent/evaluator.py:473 | Lower-casing twice is lower-casing once, so the role test reads the role in lower case. |
| Rubrics.RoleSpecificSkill | backend/src/green_agent/evaluator.py:471-476 | The skill is `deception_skill` exactly when the lower-cased role is "werewolf", and `detection_ability` otherwise. |
| Rubrics.TeamOf | backend/src/green_agent/evaluator.py:882 | The team is "werewolves" exactly when the role-specific skill is deception, and "villagers" otherwise. |
| Rubrics.RoleClassificationIgnoresCase | backend/src/green_agent/evaluator.py:471-476 | The skill and the team of a role do not change when the role is lower-cased first. |
| Rubrics.ApplicableSkillsForRole | backend/src/green_agent/evaluator.py:480-481 | The five skills judged for a role are all registered, only the third is role-specific, and their weights sum to exactly 1. |
| Rubrics.BuildRubricText | backend/src/green_agent/evaluator.py:279-289 | The result is empty for an unregistered skill, and otherwise the rubric's lines joined with newlines. |
| Rubrics.BuildRubricLines | backend/src/green_agent/evaluator.py:285-287 | The line-appending loop produces the four header lines, then one line per scale level with its score, in order. |
| Rubrics.RubricTextLines | backend/src/green_agent/evaluator.py:279-289 | The text is empty exactly for an unregistered skill. Otherwise it opens with "### " and the rubric name and has 14 lines: 4 header lines and 10 level lines. When the rubric's strings hold no newline, splitting the text at newlines gives exactly those lines back. |
| Rubrics.RubricTextHeading | backend/src/green_agent/evaluator.py:284-289 | The joined text of a rubric opens with "### " and the rubric name. |
| Rubrics.RubricLinesSplitBack | backend/src/green_agent/evaluator.py:284-289 | When the rubric's strings hold no newline, splitting its joined text at newlines gives its lines back. |
| Rubrics.BuildRubricsText | backend/src/green_agent/evaluator.py:478-488 | The loop joins, with blank lines, the rubric texts of the registered skills among the five applicable ones. |
| Rubrics.KeptSkillsKeepAll | backend/src/green_agent/evaluator.py:484-486 | The membership filter keeps a list of registered skills whole. |
| Rubrics.RubricsTextSections | backend/src/green_agent/evaluator.py:478-488 | All five applicable rubrics appear, and the third is that of the role-specific skill. |
| Scoring.Clamp | backend/src/green_agent/evaluator.py:619 | `min(10, max(1, raw))`, for a whole or fractional score, lies in 1..10. It keeps a score already in range, and sends a low score to 1 and a high one to 10. |
| Scoring.Truncate | backend/src/green_agent/evaluator.py:621-622 | A slice `[:n]` is a prefix of at most n elements, and the whole list when the list is shorter. |
| Scoring.RepairSkill | backend/src/green_agent/evaluator.py:615-623 | A repaired entry keeps its name and has a score in 1..10 (5 when missing, else clamped). Its level defaults to "Average". Its evidence is the reply's evidence cut to `[:3]` and its explanation the reply's explanation cut to `[:500]`, each empty when missing. |
| Scoring.RepairSkills | backend/src/green_agent/evaluator.py:615-623 | Each entry of the judge's skill map is repaired, in order. |
| Scoring.WeightedScore | backend/src/green_agent/evaluator.py:530-550 | The accumulation loop returns the weighted average over the counted skills, or 50.0 when none counts. |
| Scoring.TotalWeightPositive | backend/src/green_agent/evaluator.py:546-550 | The total weight is positive exactly when some skill counts, which decides between the average and 50.0. |
| Scoring.ContributionBounds | backend/src/green_agent/evaluator.py:545 | A clamped score contributes between 10 and 100 times its weight. |
| Scoring.WeightedSumBounds | backend/src/green_agent/evaluator.py:540-546 | For clamped scores the weighted sum lies between 10 and 100 times the total weight. |
| Scoring.WeightedAverageRange | backend/src/green_agent/evaluator.py:530-550 | For clamped scores the result is 50.0 when no skill counts, and lies in 10..100 otherwise. |
| Scoring.IgnoresOtherSideSkill | backend/src/green_agent/evaluator.py:540-543 | Removing a role-specific skill of the other side changes neither sum, total weight nor result. |
| Scoring.RaisingScoreNeverLowers | backend/src/green_agent/evaluator.py:530-550 | Raising one skill's score never lowers the weighted score. It raises it strictly when that skill counts for the role, and leaves it unchanged when it does not. |
| Scoring.ApplicableSkillsAverage | backend/src/green_agent/evaluator.py:530-550 | For the five applicable skills of a role, the result is 2.5·s1 + 2.0·s2 + 2.5·s3 + 1.5·s4 + 1.5·s5. |
| Scoring.WerewolfExample | backend/src/green_agent/evaluator.py:530-550 | A werewolf scored 8, 7, 9, 6, 7 gets 76.0. |
| Scoring.SelectOverall | backend/src/green_agent/evaluator.py:626-628 | The judge's overall score is kept exactly when it is present and within 0..100. Otherwise the weighted average is used. |
| Scoring.SelectOverallRange | backend/src/green_agent/evaluator.py:626-628 | For clamped scores the selected overall score lies in 0..100. |
| Scoring.Assess | backend/src/green_agent/evaluator.py:615-641 | A failed call gives the default evaluation: overall 50.0, no skill scores and the two failure strings. A parsed reply gives the repaired skills, the selected overall score, and the strengths, weaknesses, key moments and suggestions cut to `[:3]`, `[:3]`, `[:3]` and `[:2]`. |
| Scoring.AssessBounds | backend/src/green_agent/evaluator.py:615-669 | Every evaluation, judged or default, has clamped skill scores and an overall score in 0..100. A strengths, weaknesses or key-moments list of at most three items is kept whole, and a suggestions list longer than two keeps its first two. |
| Agents.FactsOf | backend/src/green_agent/evaluator.py:876-889 | A player's team follows the werewolf test. `won` is the record's value, or else whether the team is the winner. `survived` is true only when the record says so. |
| Agents.EvaluateAgent | backend/src/green_agent/evaluator.py:612-641 | The new record holds the player's facts, rank 0, and exactly the repaired or default assessment. |
| Sorting.SortDescSorted | backend/src/green_agent/evaluator.py:765 | The stable sort by descending score orders every pair by precedence: a higher score first, ties in list order. |
| Sorting.SortDescOrder | backend/src/green_agent/evaluator.py:750 | In the sorted list, a comes before b exactly when a precedes b. |
| Sorting.SortedOrder | backend/src/green_agent/evaluator.py:765 | In a list sorted by precedence, position order is exactly precedence order. |
| Sorting.SortDescFirstIsMax | backend/src/green_agent/evaluator.py:769 | The first element of the sort has the largest score. |
| Sorting.SortedDistinct | backend/src/green_agent/evaluator.py:765 | A list sorted by precedence repeats no position. |
| Comparison.LastEntryWins | backend/src/green_agent/evaluator.py:737-744 | After the update loop, an agent holds the rank of the last entry naming it (0 when that entry has none). It holds the score of the last naming entry that has a score, else its own. An agent no entry names is unchanged. |
| Comparison.ApplyRanking | backend/src/green_agent/evaluator.py:737-744 | The nested update loop leaves the records showing exactly the entry-by-entry standings. |
| Comparison.UnrankedPositions | backend/src/green_agent/evaluator.py:747-748 | The comprehension yields the positions of the agents no entry names, in list order. |
| Comparison.RankInOrder | backend/src/green_agent/evaluator.py:749-752 | The counter loop gives the record at `order[p]` the rank `base + p`. |
| Comparison.AssignRanksEffect | backend/src/green_agent/evaluator.py:749-752 | With distinct positions, each listed agent gets its consecutive rank. Every other agent keeps its rank, and no name or score changes. |
| Comparison.ApplyEntriesUnranked | backend/src/green_agent/evaluator.py:737-746 | The update loop keeps names and leaves unnamed agents as they were, so the set of unranked agents is the same before and after it. |
| Comparison.ReconciledRankedAgents | backend/src/green_agent/evaluator.py:737-752 | After a successful call, a ranked agent holds the rank of the last entry naming it. Every agent keeps its name and holds the last supplied score or its own. |
| Comparison.ReconciledUnrankedAgents | backend/src/green_agent/evaluator.py:744-752 | The U unranked agents keep their scores and take the ranks len(ranking)+1 .. len(ranking)+U, each rank held by one of them. Among them, a smaller rank means a higher score, or an equal score and an earlier place. |
| Comparison.UnrankedAgentsBounded | backend/src/green_agent/evaluator.py:744-752 | The unranked agents keep their scores and get ranks after the ranking's length, up to its length plus their number. |
| Comparison.UnrankedRanksTaken | backend/src/green_agent/evaluator.py:749-752 | Every rank from len(ranking)+1 to len(ranking)+U is held by some agent. |
| Comparison.UnrankedAgentsOrdered | backend/src/green_agent/evaluator.py:744-752 | Among the unranked agents, a smaller rank means a higher score, or an equal score and an earlier place. |
| Comparison.EmptyRankingIsFallback | backend/src/green_agent/evaluator.py:744-767 | With an empty ranking, the success path ranks exactly as the fallback does. |
| Comparison.FallbackRanksArePermutation | backend/src/green_agent/evaluator.py:763-767 | The fallback ranks are exactly 1..N, each held by one agent, in descending score with ties in list order. Names and scores do not change. |
| Comparison.FallbackBestIsTop | backend/src/green_agent/evaluator.py:769-777 | The fallback best player has rank 1 and the highest score, and opens the justification. With no agent it is "Unknown". |
| Comparison.FallbackJustificationOpens | backend/src/green_agent/evaluator.py:769-777 | The fallback justification opens with the best player's name. |
| Comparison.FallbackBestHighest | backend/src/green_agent/evaluator.py:763-777 | With some agent, the best player is the first in fallback order, which holds rank 1 and a highest score. |
| Comparison.PartialRankingCollides | backend/src/green_agent/evaluator.py:744-752 | Ranks are not made unique: Alice named with rank 2 and Bob unranked both end with rank 2. |
| Comparison.FallbackVerdict | backend/src/green_agent/evaluator.py:769-777 | The fallback verdict has no ranking, no turning points, empty insights and the fixed fallback comparison text. |
| Comparison.SuccessVerdict | backend/src/green_agent/evaluator.py:754-761 | The best player is the judge's, or else the first agent's name, or "Unknown" with no agent. The returned ranking is the judge's list, or empty when it has none. |
| Comparison.CompareAgents | backend/src/green_agent/evaluator.py:733-777 | On success the records show the reconciled standings, with the success verdict. On failure they show the fallback standings, with the fallback verdict. Nothing else about the records changes. |
| Consistency.SuccessesAreTheSomes | backend/src/green_agent/evaluator.py:801-817 | The collected runs are exactly the runs that produced an evaluation. |
| Consistency.CollectRuns | backend/src/green_agent/evaluator.py:801-817 | The collection loop gathers the rankings and best players of the successful runs, in run order. |
| Consistency.RowTallyBounded | backend/src/green_agent/evaluator.py:828-834 | For each first run i, agreements never exceed comparisons. |
| Consistency.AllTallyBounded | backend/src/green_agent/evaluator.py:827-834 | Over all pairs, agreements never exceed comparisons. |
| Consistency.AgreementRateRange | backend/src/green_agent/evaluator.py:826-836 | The agreement rate lies in 0..1. |
| Consistency.IdenticalRowsAgree | backend/src/green_agent/evaluator.py:828-834 | When the runs rank every agent alike, each row counts as many agreements as comparisons. |
| Consistency.IdenticalRunsAgree | backend/src/green_agent/evaluator.py:827-834 | When every row is in full agreement, so is the total. |
| Consistency.IdenticalRunsRateOne | backend/src/green_agent/evaluator.py:826-836 | Runs that give each agent of the first run the same rank have agreement rate exactly 1. |
| Consistency.RateDependsOnFirstRun | backend/src/green_agent/evaluator.py:826 | The agent set comes from the first run: the same two runs give 1.0 in one order and 0.5 in the other. |
| Consistency.ComparePair | backend/src/green_agent/evaluator.py:829-834 | The innermost loop counts one comparison per agent and one agreement per agent ranked alike, with a missing rank read as 0. |
| Consistency.TallyRuns | backend/src/green_agent/evaluator.py:827-834 | The two outer loops total the tallies of all pairs i < j. |
| Consistency.CountBestPlayers | backend/src/green_agent/evaluator.py:838-840 | The counting loop maps each named best player to the number of runs that named it. |
| Consistency.MostCommonCount | backend/src/green_agent/evaluator.py:842 | The result is one of the counts and at least every count. |
| Consistency.ConsistencyFacts | backend/src/green_agent/evaluator.py:842-843 | The consistency is the share of some candidate, at least every candidate's share, and lies in (0, 1]. |
| Consistency.InterpretationMatchesThreshold | backend/src/green_agent/evaluator.py:851-856 | The interpretation is not "Weak" exactly above 0.6, and is "Strong" exactly above 0.8. A reliable result is never "Weak". |
| Consistency.ValidateConsistency | backend/src/green_agent/evaluator.py:793-856 | Fewer than 2 requested runs, or fewer than 2 successes, give the matching reason. Otherwise the result holds: the requested run count; the rate over the first run's agents; the candidates' counts; a consistency at least every candidate's share and in (0, 1]; `is_reliable` exactly when rate > 0.6 and consistency > 0.5; and the interpretation of the rate. |
| Fence.CleanJsonResponse | backend/src/green_agent/evaluator.py:945-957 | The cleaned reply has no white space at either end. |
| Fence.UnfencedIsStripped | backend/src/green_agent/evaluator.py:947-949 | A reply that, once stripped, does not open with a fence is only stripped. |
| Fence.CleanSettles | backend/src/green_agent/evaluator.py:945-957 | Cleaning again a cleaned reply that no longer opens with a fence changes nothing. |
| Fence.FirstLineIsFence | backend/src/green_agent/evaluator.py:950-952 | When the stripped reply opens with a fence, so does its first line, so the first line is always dropped. |
| Fence.FencedBodyRecovered | backend/src/green_agent/evaluator.py:945-957 | A body wrapped as a fence with a language tag, the body, and a closing fence comes back as the stripped body. |
| Fence.CleanIsSlice | backend/src/green_agent/evaluator.py:945-957 | The cleaned reply is one contiguous piece of the reply. |
| Report.EvaluateAgents | backend/src/green_agent/evaluator.py:876-896 | One fresh, distinct record per player, in table order, with that player's facts, rank 0 and the repaired or default assessment. |
| Report.EvaluatePlayer | backend/src/green_agent/evaluator.py:876-895 | The record of one player is fresh, holds that player's facts and assessment, and is unranked. |
| Report.EvaluateGame | backend/src/green_agent/evaluator.py:873-939 | The game evaluation holds the new records, each with its player's facts, skill scores, strengths, weaknesses, key moments and suggestions, showing the reconciled or fallback standings, and the verdict's fields and the validation result unchanged. |
| Report.RankOrder | backend/src/green_agent/evaluator.py:260 | The output order lists each record position exactly once. |
| Report.RankingTableOrdered | backend/src/green_agent/evaluator.py:253-261 | The rankings table lists every record once, by ascending rank, with records of equal rank in list order. |
| Report.ValidationEntryOf | backend/src/green_agent/evaluator.py:268-271 | The placeholder appears exactly when no validation was run. |
| Report.ValidationEntryFaithful | backend/src/green_agent/evaluator.py:268-271 | A validation result is reported unchanged, and the placeholder says the game was not validated. |
| Text.NatToStringValue | backend/src/green_agent/evaluator.py:772 | Reading back the decimal digits of `str(n)` gives n. |
| Text.FormatTenthsExact | backend/src/green_agent/evaluator.py:772 | A value with at most one decimal, k/10, is rendered by `:.1f` as k // 10, a dot and k % 10, with a minus sign when negative. |
| Text.Strip | backend/src/green_agent/evaluator.py:947 | `str.strip()` leaves no white space at either end. |
| Text.StripIsSlice | backend/src/green_agent/evaluator.py:947 | `str.strip()` only removes white space from the two ends. |
| Text.JoinSplit | backend/src/green_agent/evaluator.py:950-955 | Joining the pieces of a split with the separator gives the string back. |
| Text.SplitJoin | backend/src/green_agent/evaluator.py:287-289 | Splitting lines that hold no separator, after joining them, gives the lines back. |

## Left out

- The judge model: the client, `async`/`await` and the completion calls are network I/O. Each answer is an input instead: an `Option` of the parsed reply, with `None` for a failed call.
- Prompt templates, `.format`, the `json.dumps` summaries of the game logs and `_extract_agent_data` are prompt construction. The model does not include them.
- `json.loads`: replies are modelled after parsing. A reply whose fields have the wrong JSON types is treated as a failed call. Duplicate JSON keys are not modelled: a skill map is a list of entries in the reply's order.
- A success path that raises part-way through (for instance on a malformed `player_ranking` entry) and then falls back. The model takes such a reply as failed from the start, so it does not capture updates made before the exception.
- The repeated `evaluate_game` calls inside `validate_consistency` are inputs: one `Option` of a run result per run.
- Floating point: scores and weights are exact rationals, so the IEEE rounding of the weights and of `weighted_sum / total_weight` is not modelled.
- `round(..., 2)` and `round(..., 3)` in the dictionaries. The model does not include them.
- The `FormatTenths` rendering of the fallback score is rounded from the exact value.
- The environment variable for the judge model, the timestamp `game_id`, and logging.
- The `except Exception → None` of `evaluate_game`.
- `AgentEvaluation.to_dict`, `SkillScore.to_dict`, and the constant methodology block of `GameEvaluation.to_dict`. They copy fields into a dictionary.
- `str.lower` is modelled for ASCII letters only.
- Comparison.LastEntryWins: a ranking entry whose `score` is JSON `null` is read as one without a score, so the agent keeps its score; the source sets the agent's overall score to `None`. Likewise a `null` rank is read as 0, where the source stores `None`.
- Aliasing: `CompareAgents` requires the evaluation records to be distinct objects, as `evaluate_game` creates them.
- Scoring.WeightedAverageRange: the property that equal scores give score × 10 is not proved for every skill list. It is proved for the five applicable skills of a role, through `Scoring.ApplicableSkillsAverage`.
