# StudentOfGames solver core in Dafny

This project models the core of StudentOfGames, an imperfect-information
game solver in the Obscuro style: CFR+ regret minimisation over a growing
game tree, with safe subgame resolving through ENTER/SKIP gadgets. The
repository holds several generations of that solver, from a Python
prototype to Rust rewrites, and a set of small game-rule engines. For each
generation (old/obscuro.py, old/obscuro.rs, the single-file solver
src/obscuro/old/obscuro_single.rs and its copy deprecated/chat.rs,
src/obscuro.rs, the src/obscuro/ rewrite and copilot/) the model covers the
regret-minimising `Policy`, the parts of the history tree and
information-set bookkeeping the generation implements, subgame construction
and the solving passes where they have a body, and the rule engines. The
operations a generation leaves as `todo!()` or stubs, and the rest the model
does not follow, are listed under "Left out".

Rewards and probabilities are Dafny `real`s. Random draws (`random.choice`,
`np.random.random()`, rand's `WeightedIndex` and `choose`) are arguments of
the operations that use them. Logarithms and square roots in the
exploration scores are arguments too, with the equation that defines them
when a property needs it. Python dictionaries and Rust vectors indexed by
action become sequences indexed by the action's position in insertion order.

Modules:

- `Reals`, `Sorting`, `Seqs`, `Wrappers`: sums, means, argmax, weighted
  draws, and stable sorts of action indices.
- `PyPolicy`: the `Policy` of the Python prototype (old/obscuro.py).
- `SinglePolicy`: the `Policy` of the single-file Rust solver
  (src/obscuro/old/obscuro_single.rs) and of deprecated/chat.rs, which
  differs from it only in the places noted below.
- `OldObscuro`: the generic Rust prototype (old/obscuro.rs): `Player::other`,
  its `Policy` (`from_rewards`, `quality`, `puct`, `max`,
  `exploration_policy`, `exploit_policy`, `p_exploit`, `set_expectation`,
  `add_expansion`, `purified`), `History::subgame_root` with its priors,
  `get_pmax`, the blend loop of `solve_step` and the walk of
  `expansion_step`.
- `PyHistory`: the Python prototype's rock-paper-scissors `Game`, its
  `History` (observation histories, the ancestry order, `expand`, size), the
  `Info` constructor and `add_history`, and `make_utilities`.
- `PyObscuro`: the Python prototype's `Info.filter`, `sample_history` and
  `gift`, the alternatives and priors of `construct_subgame`, the choice by
  p_max in `move`, and the blend loop of `run_solver_thread`.
- `SingleObscuro`: the single-file solver's `Info` (`new`, `add_history`,
  `gift` with its cache), `History` (`expand`, `subgame_root`), the
  `Obscuro` operations `get_pmax`, `collect_matching`, `construct_subgame`,
  `make_utilities` and `choose_action_from_root`, and its rock-paper-scissors
  demo game; deprecated/chat.rs holds the same code except where "Left out"
  says otherwise.
- `Mixing`: the two-point mix (1 − p)·a + p·b behind the resolver values.
- `SingleValues`: the value bound of the single-file solver's
  `make_utilities`: with terminal payoffs and gadget alternatives in a range
  around 0, every value and every recorded expectation stays in that range.
- `CfrPolicy`: the linear-CFR `Policy` of the current solver
  (src/policy.rs), as a class whose methods update its vectors in place.
- `Players`: the `Player` type, `other`, and the best and worst values a
  player can reach (src/utils.rs, src/obscuro/utils.rs and the copilot
  rewrite's copy).
- `ObscuroPolicy`: the `Policy` of the src/obscuro/ rewrite
  (src/obscuro/policy.rs), built on the single-file solver's states.
- `SolverTree`: the `History` tree and the `Info` infoset of the current
  solver (src/history.rs, src/info.rs).
- `Subgame`: `construct_subgame` and its parts (src/obscuro.rs): draining
  the root, the k-cover, grouping into gadgets, padding, the root policy
  and `get_pmax`.
- `SubgameSolve`: the solving passes of src/obscuro.rs: `make_utilities`,
  `apply_updates`, `cfr_iterations`, `solve_step`, `sample_history`,
  `expansion_step(_inner)`, `size` and `choose_action_from_root`.
- `ModularSolver`: the modular rewrite under src/obscuro/ (src/obscuro/obscuro.rs
  and src/obscuro/info.rs): the `Info` infoset with its gift and reach
  bookkeeping, `SubgameRoot::new`, `Obscuro::default`, `get_pmax`,
  `construct_subgame` with `k_cover`, the regret pass `make_utilities_hist`,
  `cfr_iterations` and `solve_step`. Its groups reuse `Subgame`'s
  `Pre`/`Positions` records and insertion.
- The copilot rewrite (copilot/): `CopilotCore` (its regret-matching+
  `Policy` as a class, `History`, `InfoSet`), `CopilotResolving` (the
  Enter/Skip `ResolverGadget`, `SubgameRoot`, `compute_safe_strategy`,
  `initialize_resolver_values`), `CopilotCfr` (`cfr_iteration`,
  `compute_cfr_values`, `apply_policy_updates`, `extract_average_strategy`,
  `reset_negative_regrets`), `CopilotSubgame` (`k_cover`, KLUSS
  `construct_subgame` with its sampling of additional positions,
  `prune_old_tree`, `knowledge_distance`) and `CopilotAlgorithm` (the
  `Obscuro` driver as a class: configuration, subgame construction,
  expansion and CFR steps, one round of the study loop, action selection,
  `get_policy` and `save_tree`).
- The rule engines, one module each: `Rps` (rock-paper-scissors), `TwoSpies`,
  `Akq` (the A-K-Q poker toy game), `LiarsDie` and `PlayLiarsDie` (its
  command-line AI's move scoring), `TicTacToe` and `TttExample` (the
  board-game example with its own iterator), `Poker` (the hold'em, Omaha
  and stud skeletons), `Connect4`, `Othello` and `Go`.

## Model

| member | source | states |
|---|---|---|
| PyPolicy.Policy.constructor | old/obscuro.py:103-113 | visits and variances start at 2 and expansions at 0; regrets and expectations copy the initial rewards, the net regret is their sum, and num_updates is 1 |
| PyPolicy.PExploit | old/obscuro.py:180-183 | `p_exploit(a)` equals entry a of `exploit_policy` |
| PyPolicy.ExploitPolicyIsDistribution | old/obscuro.py:174-178 | with non-negative regrets and the net regret equal to their sum, the exploit policy is a distribution; it is uniform when the net regret is 0 |
| PyPolicy.ExpectationBetween | old/obscuro.py:165-166 | the expectation is a convex combination of the signed action values |
| PyPolicy.InstantRegretsBalance | old/obscuro.py:151-156 | the instantaneous regrets, weighted by the exploit policy, sum to 0 |
| PyPolicy.UpdatedRegretMonotone | old/obscuro.py:151-157 | larger old regrets and larger instantaneous values never give a smaller updated regret |
| PyPolicy.UpdatedNetRegretBound | old/obscuro.py:151-158 | the updated regrets sum to at least n/(n+1) of the old sum plus the summed instantaneous regrets Σ(u − ev) |
| PyPolicy.Policy.Update | old/obscuro.py:151-158 | num_updates grows by 1; every regret is the clamped momentum update, hence ≥ 0; the net regret is their sum; the exploit policy stays a distribution; nothing else changes |
| PyPolicy.Sample | old/obscuro.py:140-149 | a zero-sum vector yields the uniform choice; otherwise the key returned is the first one where the running normalised sum reaches r; with r in [0, 1) some key is always returned, and a positive draw over non-negative weights never returns a zero-weight key |
| PyPolicy.PuctAsWrittenLosesOneHot | old/obscuro.py:124-128 | the one-hot 1 is stored under the integer argmax key, so every action key maps to 0 |
| PyPolicy.PuctIsDistribution | old/obscuro.py:124-128 | the intended PUCT vector is one-hot at numpy's first argmax of the quality scores |
| PyPolicy.MaxAsWrittenOverweights | old/obscuro.py:130-133 | as written, `_max` sums to more than 1 whenever some action has exploit weight 0 |
| PyPolicy.MaxIsDistribution | old/obscuro.py:130-133 | the intended `_max` is uniform over the actions with positive exploit weight and 0 elsewhere, so it sums to 1 |
| PyPolicy.SampleDistAsWrittenIgnoresQuality | old/obscuro.py:135-138 | as written, the sampling distribution does not depend on the quality scores |
| PyPolicy.SampleDistIsDistribution | old/obscuro.py:135-138 | the intended sampling distribution sums to 1 and gives the best-quality action at least 1/2 |
| PyPolicy.PurifiedSupportAsWrittenMissesBest | old/obscuro.py:188-194 | with more than MAX_SUPPORT actions and a strictly best regret, the ascending sort leaves the best action out of the support |
| PyPolicy.PurifiedSupportIsTop | old/obscuro.py:188-194 | no action outside the intended support has a larger exploit probability than one inside, and the support has no repeats |
| PyPolicy.PurifiedSupportContainsBest | old/obscuro.py:188-194 | the intended support always contains the action of maximal regret |
| PyPolicy.PlayPolicy | old/obscuro.py:193 | the play policy keeps the regret of supported actions and is 0 elsewhere |
| PyPolicy.Policy.Quality | old/obscuro.py:121-122 | the quality of an action is at least its signed expectation |
| PyPolicy.Policy.AddExpansion | old/obscuro.py:558 | only the chosen action's expansion counter moves, by exactly one |
| PyPolicy.Policy.Exploit | old/obscuro.py:171-172 | some action is returned for r in [0, 1); with positive net regret and r > 0 it has positive regret |
| PyPolicy.ExploreDist | old/obscuro.py:135-138 | the intended exploration distribution, half PUCT and half `_max`, is a distribution giving the first action of best quality at least 1/2 |
| PyPolicy.Policy.Explore | old/obscuro.py:168-169 | for a draw in [0, 1) an action is returned, in range; for a positive draw it has positive probability under the exploration distribution |
| PyPolicy.Policy.Purified | old/obscuro.py:188-194 | no action gives nothing; otherwise the action comes from the intended support |
| SinglePolicy.OtherInvolution | src/obscuro/old/obscuro_single.rs:29-33 | `other` swaps the players and is an involution; the multipliers of the two players are opposite |
| SinglePolicy.RewardPolicy | src/obscuro/old/obscuro_single.rs:94-106 | the rewards become the expectations, every regret is 1e-12, expansions are 0, nothing is stable, and the multiplier is +1 for P1 and −1 for P2 |
| SinglePolicy.InitialPolicy | src/obscuro/old/obscuro_single.rs:81-92 | expectations and expansions start at 0, every regret at 1e-12, nothing stable, no updates |
| SinglePolicy.ExploitPolicyIsDistribution | src/obscuro/old/obscuro_single.rs:127-136 | for a non-empty action list the exploit policy sums to 1, and is non-negative over non-negative regrets |
| SinglePolicy.PExploitAgainstExploitPolicy | src/obscuro/old/obscuro_single.rs:187-192 | `p_exploit` equals the exploit policy's entry while the regret sum is positive, and is 0 (where the policy plays 1/n) otherwise |
| SinglePolicy.FirstBest | src/obscuro/old/obscuro_single.rs:116-125 | the strict `>` scan returns the first index of maximal quality |
| SinglePolicy.Puct | src/obscuro/old/obscuro_single.rs:116-125 | `puct` is empty for no actions and otherwise one-hot at the first best-quality action |
| SinglePolicy.ExplorationPolicy | src/obscuro/old/obscuro_single.rs:138-144 | the exploration policy is the exploit policy when PUCT is empty and otherwise 0.5·puct + 0.5·exploit entrywise |
| SinglePolicy.ExplorationDistIsDistribution | src/obscuro/old/obscuro_single.rs:138-144 | with non-negative regrets the exploration policy is a distribution that gives the best-quality action at least 1/2 |
| SinglePolicy.SampleFrom | src/obscuro/old/obscuro_single.rs:146-157 | the index drawn is in range, and has positive probability whenever the probabilities have a positive sum |
| SinglePolicy.ChatSampleFromAgrees | deprecated/chat.rs:143-151 | the unclamped sampler of chat.rs draws the same index as the clamped one over non-negative probabilities |
| SinglePolicy.PurifiedSupportIsTop | src/obscuro/old/obscuro_single.rs:162-170 | no action outside the purification candidates has a larger exploit probability than one inside, and the candidates are distinct |
| SinglePolicy.PurifiedSupportStartsWithBest | src/obscuro/old/obscuro_single.rs:162-170 | the stable descending sort puts the first action of maximal exploit probability first |
| SinglePolicy.Purified | src/obscuro/old/obscuro_single.rs:162-170 | the action returned is one of the top min(3, n) candidates |
| SinglePolicy.Quality | src/obscuro/old/obscuro_single.rs:108-114 | the quality is at least the expectation, and equals it when the exploration term is 0 |
| SinglePolicy.UpdatedRegretsMonotone | src/obscuro/old/obscuro_single.rs:194-220 | `update` never lowers a regret, leaves every regret positive, and keeps the 1e-12 floor |
| SinglePolicy.UpdatedRegretsGrowth | src/obscuro/old/obscuro_single.rs:201-209 | a regret grows by exactly the positive part of its advantage over the mean expectation |
| SinglePolicy.UpdatedRegretsFixpoint | src/obscuro/old/obscuro_single.rs:194-220 | when all expectations are equal, `update` leaves positive regrets unchanged |
| SinglePolicy.Updated | src/obscuro/old/obscuro_single.rs:194-220 | the updated policy keeps one slot per action and every regret ≥ 1e-12 |
| SinglePolicy.UpdatedProperties | src/obscuro/old/obscuro_single.rs:194-220 | `update` on a non-empty policy raises `updates` by 1, lowers no regret, marks the last action of maximal regret stable, and unmarks nothing |
| SinglePolicy.SlotUpdatesAreLocal | src/obscuro/old/obscuro_single.rs:172-180 | `set_expectation` and `add_expansion` change exactly one slot of one vector |
| SinglePolicy.PExploitBounds | src/obscuro/old/obscuro_single.rs:187-192 | over non-negative regrets `p_exploit` lies in [0, 1] |
| SinglePolicy.Policy.Update | src/obscuro/old/obscuro_single.rs:194-220 | the in-place loop leaves the policy in the state `Updated` describes |
| SinglePolicy.Policy.Exploit | src/obscuro/old/obscuro_single.rs:159-160 | `exploit` returns an action of positive exploit probability |
| SinglePolicy.Policy.Explore | src/obscuro/old/obscuro_single.rs:159 | `explore` returns an action of positive exploration probability |
| SinglePolicy.Policy.SetExpectation | src/obscuro/old/obscuro_single.rs:172-175 | only the given action's expectation is overwritten |
| SinglePolicy.Policy.AddExpansion | src/obscuro/old/obscuro_single.rs:177-180 | only the given action's expansion count grows |
| CfrPolicy.Multiplier | src/policy.rs:47-54 | −1 exactly for P2, +1 for P1 and for chance |
| CfrPolicy.InstPolicyIsDistribution | src/policy.rs:75-83 | for a non-empty action list the instantaneous policy sums to 1, is a distribution over non-negative regrets, and is uniform when the regret sum is not positive |
| CfrPolicy.InstPolicyProportional | src/policy.rs:82 | with a positive regret sum each probability is the regret's share of the sum |
| CfrPolicy.InstPolicyMonotone | src/policy.rs:75-83 | a larger regret never gets a smaller probability |
| CfrPolicy.PExploitAgainstInstPolicy | src/policy.rs:156-161 | `p_exploit` equals the instantaneous policy's entry while the regret sum is positive and is 0 otherwise |
| CfrPolicy.Quality | src/policy.rs:56-62 | the quality is at least the counterfactual value, and equals it when the exploration term is 0 |
| CfrPolicy.ExplorationDistIsDistribution | src/policy.rs:64-91 | with non-negative regrets the 50/50 mix of the PUCT arm and the instantaneous policy is a distribution that gives the first best-quality action at least 1/2 |
| CfrPolicy.InstPolicyAgreesWithSingle | src/policy.rs:75-83 | this generation's regret matching is the single-file solver's `exploit_policy` |
| CfrPolicy.BestAction | src/policy.rs:126-131 | the index is the last of maximal regret (`max_by` keeps the last maximum); no actions is refused (the source's `unwrap`) |
| CfrPolicy.BestActionIsMostLikely | src/policy.rs:126-131 | the best action has the largest instantaneous probability |
| CfrPolicy.Purified | src/policy.rs:117-125 | the action drawn is among the MAX_SUPPORT most likely after the stable descending sort, and no action left out is more likely than it |
| CfrPolicy.RewardPolicy | src/policy.rs:31-46 | the rewards (in [−5, 5], the debug_assert) become the counterfactuals; expansions 0, regrets 10, strategy sums 1, nothing stable, no update yet |
| CfrPolicy.ActionPolicy | src/policy.rs:27-29 | `from_actions` is `from_rewards` with every reward 0 |
| CfrPolicy.InitialStrategyUniform | src/policy.rs:40 | the starting regrets give the uniform instantaneous policy |
| CfrPolicy.ExpectationBetween | src/policy.rs:149-154 | over non-negative regrets the expectation lies between the least and the greatest counterfactual |
| CfrPolicy.SlotUpdatesAreLocal | src/policy.rs:135-147 | `add_counterfactual` adds r·p to the first slot of the action and `add_expansion` adds one there; nothing else changes |
| CfrPolicy.MomentumCount | src/policy.rs:169 | the count is the iterations since the first update, at least 200 |
| CfrPolicy.MomentumBounds | src/policy.rs:171 | the linear-CFR momentum n/(n+1) then lies in [200/201, 1) |
| CfrPolicy.PushRegret | src/policy.rs:180-183 | a regret after `update` is the positive part of momentum·old + multiplier·(counterfactual − baseline) |
| CfrPolicy.UpdatedRegretsNonNegative | src/policy.rs:179-186 | the updated regrets are non-negative, so the next instantaneous policy is a distribution |
| CfrPolicy.PushRegrets | src/policy.rs:179-184 | the in-place loop computes the updated regret of every action |
| CfrPolicy.AddInto | src/policy.rs:186-188 | the loop adds the new instantaneous policy into the strategy sums entrywise |
| CfrPolicy.FirstAfter | src/policy.rs:168 | the first update is recorded once, as the iteration before the current one |
| CfrPolicy.UpdateIdempotent | src/policy.rs:163-166 | a second `update` with the same iteration number changes nothing |
| CfrPolicy.UpdatedProperties | src/policy.rs:163-195 | `update` with a new iteration records it and the first update, pushes every regret with a momentum in [200/201, 1) against the expectation, keeps regrets non-negative, adds the new policy to the strategy sums, marks the last best action stable without unmarking any, and zeroes the counterfactuals |
| CfrPolicy.UpdateWithoutActions | src/policy.rs:173-174 | with no actions `update` only records the iteration numbers |
| CfrPolicy.Policy.FromRewards | src/policy.rs:31-46 | the new object holds exactly the state `RewardPolicy` describes |
| CfrPolicy.Policy.Exploit | src/policy.rs:112-115 | `exploit` returns an action of positive instantaneous probability |
| CfrPolicy.Policy.Explore | src/policy.rs:93-110 | `explore` returns an action of positive exploration probability |
| CfrPolicy.Policy.AddCounterfactual | src/policy.rs:135-142 | the object's new state is `WithCounterfactual` of the old one |
| CfrPolicy.Policy.AddExpansion | src/policy.rs:144-147 | the object's new state is `WithExpansion` of the old one |
| CfrPolicy.Policy.GetExpectation | src/policy.rs:149-154 | the sum computed is the expectation of the current state |
| CfrPolicy.Policy.GetBestAction | src/policy.rs:126-131 | the scan returns the action at the last index of maximal regret |
| CfrPolicy.Policy.Update | src/policy.rs:163-195 | the in-place update leaves the object in the state `Updated` describes |
| CfrPolicy.Policy.Sweep | src/policy.rs:175-194 | the loops after the momentum leave the object in the state `Swept` describes |
| Players.Other | src/utils.rs:22-24 | P1 and P2 swap, and Chance is fixed and is the only player `other` maps to Chance |
| Players.OtherInvolution | src/obscuro/utils.rs:17-19 | `other` is an involution whose only fixed point is the chance (random) player |
| Players.BestValue | src/utils.rs:25-27 | +1 for P1, −1 for P2, and 0 exactly for Chance |
| Players.WorstValue | src/utils.rs:28-30 | defined only for the two real players (the source panics for Chance); it is the negated best value and the opponent's best value |
| Players.StrictBestValue | src/obscuro/utils.rs:20-25 | defined only for the two real players (the source panics for Random); ±1, agreeing with src/utils.rs and the negated worst value |
| Players.CopilotOther | copilot/obscuro_core.rs:31-37 | defined only for P1 and P2 (the source panics for Chance); it returns the opponent |
| Players.CopilotBestValue | copilot/obscuro_core.rs:41-47 | +∞ exactly for P1, −∞ exactly for P2, 0 exactly for Chance |
| Players.CopilotWorstValue | copilot/obscuro_core.rs:50-56 | 0 exactly for Chance, an infinity otherwise |
| Players.CopilotWorstIsNegatedBest | copilot/obscuro_core.rs:41-56 | each player's worst value is the negation of their best value and the opponent's best value |
| Players.Hero | src/utils.rs:115-118 | the hero is the active player, or P1 at a chance node; never Chance |
| Players.Identifier | src/utils.rs:115-122 | the identifier is the pair of the hero's trace and the villain's trace |
| Players.IdentifierCoversBothPlayers | src/utils.rs:115-122 | hero and villain are always P1 and P2 in some order |
| Rps.New | src/games/rps.rs:54-56 | nobody has moved and P1 is to move |
| Rps.Trace | src/games/rps.rs:58-65 | the stage is 0 exactly before P1 moves, 1 exactly between the moves, 2 exactly once both have moved |
| Rps.TraceIgnoresPlayer | src/games/rps.rs:58-65 | both players (and chance) see the same stage |
| Rps.AvailableActions | src/games/rps.rs:68-71 | no actions exactly when the round is over, otherwise Rock, Paper, Scissors |
| Rps.Play | src/games/rps.rs:73-87 | P1's move fills p1 and hands the move to P2; P2's fills p2 and hands it back; chance never plays (the source's `unimplemented!`) |
| Rps.BeatsIsStrict | src/games/rps.rs:97-102 | of two distinct moves exactly one beats the other, and no move beats itself |
| Rps.EvaluateCases | src/games/rps.rs:93-111 | the payoff is 0 exactly before the end or on a tie; otherwise it is ±5 when the winner played Rock and ±1 otherwise, positive exactly when P1 wins |
| Rps.PayoffAntisymmetric | src/games/rps.rs:93-111 | swapping the two moves negates the payoff |
| Rps.SamplePosition | src/games/rps.rs:113-132 | stages above 2 are refused (the source panics); every sampled state has a real player to move |
| Rps.SamplePositionShape | src/games/rps.rs:113-132 | stages 0, 1 and 2 are sampled by 1, 3 and 9 states, each at the requested stage |
| Rps.StageOneSamples | src/games/rps.rs:116-122 | stage 1 is sampled as P1 playing Rock, Paper and Paper; Scissors is never sampled |
| Rps.EncodeFeatures | src/games/rps.rs:139-186 | 12 features: the one-hot stage, the perspective player, the perspective's own move, the opponent's move, and whether the perspective is to move |
| TwoSpies.New | src/games/two_spies.rs:44-48 | chance to move; nothing declared or answered |
| TwoSpies.TraceOf | src/games/two_spies.rs:60-66 | every observer sees P1's declaration; P1 and P2 see their own identity and chance sees none |
| TwoSpies.Compare | src/games/two_spies.rs:28-32 | traces are comparable exactly when equal, and then Equal |
| TwoSpies.AvailableActions | src/games/two_spies.rs:70-84 | chance has no listed actions; P1 may declare either identity until declared; P2 may trust or accuse once P1 has declared |
| TwoSpies.Play | src/games/two_spies.rs:86-113 | chance deals both identities (the draws are arguments) and hands the move to P1; P1's declaration and P2's response are recorded and the move passes on |
| TwoSpies.Evaluate | src/games/two_spies.rs:120-136 | 0 before P2 answers; a value in [−1, 1]; P1's identity and declaration must be known at the end (the source unwraps them) |
| TwoSpies.EvaluateWins | src/games/two_spies.rs:120-136 | a finished game pays P1 +1 exactly when trust meets the truth or an accusation meets a lie, and −1 exactly otherwise |
| TwoSpies.PlayReachesEnd | src/games/two_spies.rs:86-118 | a deal, a declaration and a response end the game and record all three; no earlier state is over |
| TwoSpies.SamplePosition | src/games/two_spies.rs:138-155 | two states with P2 to move, the traced identity and declaration, and the opponent a spy and then a merchant |
| TwoSpies.SamplePositionKeepsP1Trace | src/games/two_spies.rs:138-155 | both sampled states show P1 exactly the trace they were sampled from |
| Akq.CardCompare | src/games/AKQ.rs:19-31 | cards compare Equal exactly when equal, Greater and Less exactly by the rank A > K > Q |
| Akq.CardCompareAntisymmetric | src/games/AKQ.rs:19-31 | swapping the cards reverses the comparison |
| Akq.PushAction | src/games/AKQ.rs:92-106 | the betting table; the pairs where the source panics give no result, and no terminal code has a successor |
| Akq.PlayerOf | src/games/AKQ.rs:107-116 | chance is to act exactly before the deal and at the five terminal codes |
| Akq.PublicCompareAsWrittenInconsistent | src/games/AKQ.rs:66-85 | as written, Predeal < Postdeal and Postdeal < Predeal both hold; b < bc while bc and b are incomparable; and bc > c |
| Akq.PublicCompareAntisymmetric | src/games/AKQ.rs:66-85 | the intended public order (Predeal first, a history below its proper extensions) is antisymmetric |
| Akq.PushActionAdvances | src/games/AKQ.rs:92-106 | every legal betting step moves strictly later in the intended order |
| Akq.TraceCompare | src/games/AKQ.rs:127-134 | traces holding different cards are incomparable; otherwise they compare by public code |
| Akq.TraceCompareAntisymmetric | src/games/AKQ.rs:127-134 | swapping two traces reverses their comparison |
| Akq.New | src/games/AKQ.rs:152-155 | no cards dealt and the code is Predeal |
| Akq.TraceOf | src/games/AKQ.rs:157-163 | every observer sees the public code; each player sees their own card and chance none |
| Akq.AvailableActions | src/games/AKQ.rs:167-181 | six deals of different cards before the deal; call or bet after the deal or a check; call or fold facing a bet; nothing at a terminal code |
| Akq.DealsAreDistinctPairs | src/games/AKQ.rs:169-176 | a deal is offered exactly when its two cards differ |
| Akq.Play | src/games/AKQ.rs:183-204 | before the deal only a chance deal of two different cards succeeds and gives the cards and Postdeal; afterwards the code advances by the betting table, and every panic of the source is an absent result |
| Akq.PlayAcceptsAvailable | src/games/AKQ.rs:167-204 | from a reachable state `play` succeeds exactly on the available actions and the result is reachable again |
| Akq.OverMeansChance | src/games/AKQ.rs:206-209 | at a finished game nobody acts and no action is offered |
| Akq.EvaluateCases | src/games/AKQ.rs:211-226 | 0 before the end; ±1 after two checks and ±2 after a called bet, positive when P1's card is higher; a fold pays the bettor 1 |
| Akq.SamplePosition | src/games/AKQ.rs:228-247 | a chance trace must be Predeal and yields the new game (the source's `unreachable!` otherwise); a player's trace yields the two deals that give the opponent another card, both at the traced code |
| LiarsDie.ActionCompare | src/games/liars_die.rs:28-42 | two raises compare by count and then by the derived face order; BullShit equals only itself; every other pair is incomparable |
| LiarsDie.ActionCompareAntisymmetric | src/games/liars_die.rs:28-42 | swapping two actions reverses their comparison |
| LiarsDie.TraceCompare | src/games/liars_die.rs:48-63 | with the same dice, traces compare by bet-history prefix (equal, proper prefix below, proper extension above); with different dice, a trace without dice is below and one with dice is above one without |
| LiarsDie.TraceCompareAntisymmetric | src/games/liars_die.rs:48-63 | swapping two traces reverses their comparison |
| LiarsDie.TraceOf | src/games/liars_die.rs:100-114 | a player sees the bets and their own dice; chance has no trace (the source's `unreachable!`) |
| LiarsDie.ActivePlayer | src/games/liars_die.rs:116-120 | chance exactly before the deal; afterwards P1 exactly after an even number of bets |
| LiarsDie.AvailableActions | src/games/liars_die.rs:122-153 | the nested push loops build exactly the action list the specification function describes |
| LiarsDie.DealLoop | src/games/liars_die.rs:124-132 | before the deal: the generic Deal, then one single-die Deal for every pair of faces in ALL_DIE order |
| LiarsDie.RaiseLoop | src/games/liars_die.rs:139-151 | the raises for counts 1 up to max(6, dice), each count over ALL_DIE |
| LiarsDie.RowLoop | src/games/liars_die.rs:140-150 | at one count every face but One is tried, and kept when there is no bid yet or the bid is strictly below it |
| LiarsDie.PreDealActionCount | src/games/liars_die.rs:124-132 | before the deal exactly 37 actions are offered |
| LiarsDie.BullShitOfferedIffBets | src/games/liars_die.rs:134-136 | after the deal BullShit is offered exactly when some bet has been made |
| LiarsDie.RaisesAreAboveLastBid | src/games/liars_die.rs:137-151 | every other offered action is a raise on a face other than One, strictly above the last bid, with a count from 1 to max(6, dice) cast to u8 |
| LiarsDie.RaisesAreComplete | src/games/liars_die.rs:137-151 | conversely every raise on a face other than One, above the last bid, with a count in that range, is offered |
| LiarsDie.Play | src/games/liars_die.rs:155-187 | an empty Deal deals the two drawn hands, an explicit Deal those hands, each with the bets cleared; any other action is appended to the bets |
| LiarsDie.LastRaiseIndex | src/games/liars_die.rs:198 | `rposition`: the index of a raise with no raise after it, or none when no bet is a raise |
| LiarsDie.CountShowing | src/games/liars_die.rs:205-206 | the dice showing a face, ones wild, are at most the hand's size |
| LiarsDie.Evaluate | src/games/liars_die.rs:196-221 | 0 before the end and ±1 at the end; an end with no raise is refused (the source's `expect` panics) |
| LiarsDie.EvaluateWinner | src/games/liars_die.rs:196-211 | at the end P1 wins exactly when the last raise was made at an even position (by P1) and holds, or at an odd one and fails |
| LiarsDie.TopBidEnds | src/games/liars_die.rs:189-193 | a raise of six on every die ends the game and is its own last raise |
| LiarsDie.ExplicitDealStarts | src/games/liars_die.rs:157-176 | an explicit deal installs both hands, clears the bets and gives P1 the move |
| LiarsDie.SamplePosition | src/games/liars_die.rs:223-243 | an empty trace samples the new game; otherwise 128 states with the traced dice for P1, a drawn hand for P2 and the traced bets |
| PlayLiarsDie.FormatDie | src/bin/play_liars_die.rs:12-21 | a face is shown as one digit from 1 to 6 |
| PlayLiarsDie.FormatDieInjective | src/bin/play_liars_die.rs:12-21 | different faces are shown by different digits |
| PlayLiarsDie.FormatAction | src/bin/play_liars_die.rs:23-31 | BullShit and Deal have fixed labels; a bid reads "Bid", its count in decimal, a times sign and its face digit |
| PlayLiarsDie.BidLabelEndsInFace | src/bin/play_liars_die.rs:26-29 | a bid's label ends in the digit of its face |
| PlayLiarsDie.ScoreAction | src/bin/play_liars_die.rs:45-69 | BullShit scores 10 after at least four bets when their number is a multiple of 3, 2 after other counts of at least four, and 0.5 before; a raise of count c ≤ 5 scores 10 − c and a higher raise 1; a deal scores 1 |
| PlayLiarsDie.ScoreBounds | src/bin/play_liars_die.rs:45-69 | every score is in [0.5, 10], and of two raises with counts up to 5 the lower scores higher |
| PlayLiarsDie.SortedScoresSpec | src/bin/play_liars_die.rs:81-87 | the sorted list is a permutation of the scored actions, each with its own score, in non-increasing score order |
| PlayLiarsDie.SortedScoresStable | src/bin/play_liars_die.rs:87 | `sort_by` is stable: among equal scores the earlier available action comes first |
| PlayLiarsDie.HeadIsBest | src/bin/play_liars_die.rs:87-91 | the head of the sorted list is the first action of maximal score |
| PlayLiarsDie.GetAiMoveWithScores | src/bin/play_liars_die.rs:71-95 | with no actions it returns the empty Deal and no scores; otherwise the stably sorted score list and its head |
| PlayLiarsDie.GetAiMove | src/bin/play_liars_die.rs:97-100 | the action is the head of the sorted score list, or the empty Deal when nothing is available |
| PlayLiarsDie.CallsAfterEnoughBets | src/bin/play_liars_die.rs:45-91 | once six, nine, twelve … bets have been made the AI calls BullShit |
| Poker.New | src/games/nlhe.rs:33-37 | the opening hand is round 0 with chance to move and no actions |
| Poker.TraceOf | src/games/nlhe.rs:49-54 | a trace keeps the round and the actions in order, without who made them |
| Poker.Compare | src/games/nlhe.rs:19-23 | traces compare Equal exactly when equal and are otherwise incomparable |
| Poker.AvailableActions | src/games/nlhe.rs:58-61 | no actions once over; otherwise Fold, Check, a raise of 10 and all-in, in that order |
| Poker.Play | src/games/nlhe.rs:63-72 | the action is appended with its player; a fold hands the move to chance, anything else to the other player; the round goes up when an even number of actions came before |
| Poker.OverIsPermanent | src/games/nlhe.rs:74 | a hand that is over (a fold, or the round limit: 4 for hold'em and Omaha, 7 for stud) stays over |
| Poker.FoldEnds | src/games/nlhe.rs:66-74 | a fold ends the hand at once and hands the move to chance |
| Poker.TwoPlaysOneRound | src/games/nlhe.rs:70 | any two plays raise the round by exactly one |
| Poker.ChanceKeepsTheMove | src/games/nlhe.rs:66-67 | with chance to move, chance keeps the move whatever is played, since `other` fixes chance |
| Poker.Evaluate | src/games/nlhe.rs:76-81 | 0 before the end; at the end +1 or −1 according to the coin |
| Poker.SamplePosition | src/games/nlhe.rs:83-85 | exactly one state: the traced round, P1 to move, no actions |
| Poker.SampleMatchesTrace | src/games/nlhe.rs:83-85 | the sampled state reproduces its trace exactly when the trace has no actions |
| TicTacToe.New | src/games/perfect_info/tictactoe.rs:43-49 | every cell starts empty |
| TicTacToe.PresetNew | src/games/tictactoe.rs:23-29 | the twin starts with P2 at (1,0) and (0,1), P1 at (1,1) and (2,1), and the other five cells empty |
| TicTacToe.ActivePlayer | src/games/perfect_info/tictactoe.rs:55-58 | P1 moves exactly on an even number of filled cells, P2 otherwise, never chance |
| TicTacToe.AvailableActions | src/games/perfect_info/tictactoe.rs:60-62 | one action per empty cell: nine minus the filled cells |
| TicTacToe.AvailableActionsAreEmptyCells | src/games/perfect_info/tictactoe.rs:60-62 | a cell is offered exactly when it is empty, and no cell is offered twice |
| TicTacToe.NineOpeningMoves | src/games/perfect_info/tictactoe.rs:113-117 | the empty board offers nine moves |
| TicTacToe.Play | src/games/perfect_info/tictactoe.rs:64-69 | the chosen cell gets the player to move and every other cell is unchanged |
| TicTacToe.PlayFillsOneCell | src/games/perfect_info/tictactoe.rs:120-151 | playing an empty cell leaves one move fewer and hands the move to the other player |
| TicTacToe.Winner | src/games/perfect_info/tictactoe.rs:76-87 | the winner, when there is one, owns a complete line (rows, then columns, the diagonal and the anti-diagonal); with none, no line is complete for anyone |
| TicTacToe.Evaluate | src/games/perfect_info/tictactoe.rs:75-93 | 1 exactly when P1 has the winning line, −1 exactly when P2 has it, 0 otherwise |
| TicTacToe.LineEndsGame | src/games/perfect_info/tictactoe.rs:71-93 | on a board of player marks any complete line ends the game with a non-zero value |
| TicTacToe.NewGame | src/games/perfect_info/tictactoe.rs:105-110 | the empty board is not over, is worth 0 and has P1 to move |
| TicTacToe.PresetGame | src/games/tictactoe.rs:10-29 | the preset board has P1 to move, five empty cells and no winner |
| TicTacToe.SamplePosition | src/games/perfect_info/tictactoe.rs:95-97 | the trace (the whole board) is its own only sample |
| TicTacToe.TraceOf | src/games/perfect_info/tictactoe.rs:51-53 | both players see the whole board |
| TicTacToe.BoardOrderProperties | src/games/perfect_info/tictactoe.rs:12-34 | the trace order is Equal exactly on equal boards and is antisymmetric |
| TicTacToe.Compare | src/games/perfect_info/tictactoe.rs:12-34 | the nested loops with the two subset flags return None on a conflicting cell and otherwise the inclusion order of the filled cells |
| TicTacToe.PlayIsGreater | src/games/perfect_info/tictactoe.rs:12-69 | a board is strictly below the board after any play on one of its empty cells |
| TttExample.Next | src/examples/tictactoe/tictactoe.rs:14-19 | the next player is the other one |
| TttExample.Prev | src/examples/tictactoe/tictactoe.rs:10-12 | the previous player is never the player itself |
| TttExample.TurnOrder | src/examples/tictactoe/tictactoe.rs:9-20 | with two players `prev` equals `next`, and `next` twice is the identity |
| TttExample.FromIndex | src/examples/tictactoe/tictactoe.rs:28-34 | an index below 9 becomes a cell on the board |
| TttExample.IndexRoundTrip | src/examples/tictactoe/tictactoe.rs:28-40 | index → action → index and action → index → action are identities on the board |
| TttExample.EmptyFrom | src/examples/tictactoe/tictactoe.rs:57-67 | the cells the iterator still yields are empty, in range and strictly increasing |
| TttExample.EmptyFromComplete | src/examples/tictactoe/tictactoe.rs:57-67 | every empty cell at or after the cursor is yielded |
| TttExample.MarkRemovesCell | src/examples/tictactoe/tictactoe.rs:146-154 | marking an empty cell removes exactly that cell from the empty cells yielded |
| TttExample.OneChannelPerCell | src/examples/tictactoe/tictactoe.rs:156-172 | at every cell exactly one of the three channels is 1 and the others 0 |
| TttExample.ActionIterator.Next | src/examples/tictactoe/tictactoe.rs:57-67 | yields the first remaining empty cell and moves past it, or None when none remains |
| TttExample.TicTacToe.constructor | src/examples/tictactoe/tictactoe.rs:113-119 | an empty board, X to move, turn 0 |
| TttExample.TicTacToe.IsOver | src/examples/tictactoe/tictactoe.rs:125-127 | over exactly when X or O has a line (the mover or the previous player) or nine turns were played |
| TttExample.TicTacToe.Reward | src/examples/tictactoe/tictactoe.rs:129-137 | 1 exactly when the player has a line, −1 exactly when only the other one has, else 0 |
| TttExample.TicTacToe.IterActions | src/examples/tictactoe/tictactoe.rs:139-144 | a fresh iterator over a copy of the board, at cell 0 |
| TttExample.TicTacToe.Step | src/examples/tictactoe/tictactoe.rs:146-154 | the asserts become requires; the empty cell gets the mover's mark, the player switches, the turn count grows by one, and the result is `is_over` of the new state |
| TttExample.TicTacToe.PublicInformation | src/examples/tictactoe/tictactoe.rs:156-172 | a fresh 3×3×3 array whose channel 0 marks the mover's cells, 1 the other's and 2 the empty cells |
| TttExample.EmptyCount | src/examples/tictactoe/tictactoe.rs:113-119 | on the new board the iterator yields all nine cells |
| Connect4.New | src/games/perfect_info/connect4.rs:188-194 | both bitboards empty and every column height 0 |
| Connect4.Winner | src/games/perfect_info/connect4.rs:144-152 | P1 exactly when the `my` board has a line; P2 exactly when only the `op` board has one; none exactly when neither has |
| Connect4.OpenFrom | src/games/perfect_info/connect4.rs:214-216 | the open columns from c on, increasing, each listed and nothing else |
| Connect4.AvailableActions | src/games/perfect_info/connect4.rs:214-216 | a column is offered exactly when it is not full, in increasing order |
| Connect4.OpenColumnNotOver | src/games/perfect_info/connect4.rs:196-198 | a position with an open column and no winner is not over, and that column is offered |
| Connect4.ActivePlayerAsWritten | src/games/perfect_info/connect4.rs:210-212 | as written, P1 is to move exactly when bit 1 of the stone count is clear |
| Connect4.ActivePlayer | src/games/perfect_info/connect4.rs:210-212 | the intended turn: P1 exactly after an even number of stones, never chance |
| Connect4.ActivePlayerAsWrittenRepeats | src/games/perfect_info/connect4.rs:210-212 | as written, P1 is to move both at the start and after the first stone |
| Connect4.ActivePlayerAlternates | src/games/perfect_info/connect4.rs:210-226 | with the parity test every stone hands the move to the other player |
| Connect4.Play | src/games/perfect_info/connect4.rs:218-226 | the column must have room (the source's debug_assert); the mover's stone is set at the column's height, the column grows by one, and the boards swap |
| Connect4.PlayAsWritten | src/games/perfect_info/connect4.rs:218-226 | as written, the stone is bit height + 6·col |
| Connect4.WonMisreadsSixBitLayout | src/games/perfect_info/connect4.rs:67-73 | in the 6-bit layout of `play` a four along the bottom row is not seen as a win, and three stones at the top of column 0 with one at the bottom of column 1 are |
| Connect4.VerticalFourWins | src/games/perfect_info/connect4.rs:67-73 | in the 7-bit layout `won` is built for, every vertical four is a win |
| Connect4.HorizontalFourWins | src/games/perfect_info/connect4.rs:67-73 | in the 7-bit layout every horizontal four is a win |
| Connect4.RisingFourWins | src/games/perfect_info/connect4.rs:67-73 | in the 7-bit layout every rising diagonal four is a win |
| Connect4.FallingFourWins | src/games/perfect_info/connect4.rs:67-73 | in the 7-bit layout every falling diagonal four is a win |
| Connect4.NormIsMapSum | src/games/perfect_info/connect4.rs:51-58 | the norm `heuristic` divides by, the sum of HEURISTIC_MAP, is 276 |
| Connect4.CellValue | src/games/perfect_info/connect4.rs:156-165 | one cell contributes ±1/norm or 0 |
| Connect4.BoardValue | src/games/perfect_info/connect4.rs:154-168 | the sum of the first rows' contributions is bounded by their cell count over the norm |
| Connect4.Evaluate | src/games/perfect_info/connect4.rs:228-234 | ±1 for a winner, the heuristic otherwise |
| Connect4.HeuristicBelowAWin | src/games/perfect_info/connect4.rs:154-168 | the heuristic lies strictly inside (−1, 1), so a decided game always outranks an undecided one |
| Connect4.SamplePosition | src/games/perfect_info/connect4.rs:236-238 | no position is ever sampled |
| Connect4.GridIsCells | src/games/perfect_info/connect4.rs:170-179 | the grid entry of a cell is its `cell` value |
| Connect4.PositionOrderProperties | src/games/perfect_info/connect4.rs:83-106 | the trace order is antisymmetric, and Equal means every cell holds the same player |
| Connect4.ScanRow | src/games/perfect_info/connect4.rs:88-97 | one row of the scan: a clash is reported only for a real conflict; otherwise both subset flags are extended exactly by that row |
| Connect4.Compare | src/games/perfect_info/connect4.rs:83-106 | the nested loops with early return compute the inclusion order of the occupied cells, None on a conflict |
| Othello.StartBoard | src/games/perfect_info/othello.rs:68-75 | white on (3,3) and (4,4), black on (3,4) and (4,3), every other cell empty |
| Othello.PToCell | src/games/perfect_info/othello.rs:78 | cell values 1 and 2 for the players, 0 exactly for chance |
| Othello.DirsAreUnit | src/games/perfect_info/othello.rs:84-86 | each of the eight rays is a unit step |
| Othello.RunIffBrackets | src/games/perfect_info/othello.rs:88-104 | a ray flips something exactly when it brackets a run of opponent discs with one of the mover's |
| Othello.RunIsOpponents | src/games/perfect_info/othello.rs:122-135 | what a ray flips is on the board and held by the opponent |
| Othello.OccupiedIsIllegal | src/games/perfect_info/othello.rs:81 | an occupied square is never a placement |
| Othello.FlipsAreOpponents | src/games/perfect_info/othello.rs:115-137 | every flip is an opponent disc on the board |
| Othello.FlipsIffLegal | src/games/perfect_info/othello.rs:80-137 | on an empty square something flips exactly when some ray is a legal direction |
| Othello.RayFlipsIffLegal | src/games/perfect_info/othello.rs:80-137 | ray k flips something exactly when `legal_dirs_from` marks ray k |
| Othello.Paint | src/games/perfect_info/othello.rs:185 | the listed cells take the new value and every other cell keeps its own |
| Othello.PlacesBelowSpec | src/games/perfect_info/othello.rs:162-166 | the placements listed below index n are exactly the legal squares below n |
| Othello.AvailableSpec | src/games/perfect_info/othello.rs:159-168 | nothing once over; otherwise never empty, Pass exactly when the mover cannot place, every listed placement legal and every legal placement listed |
| Othello.StartCounts | src/games/perfect_info/othello.rs:230-239 | the start has two discs of each colour |
| Othello.OpeningMovesLegal | src/games/perfect_info/othello.rs:219-233 | black's four opening placements (2,3), (3,2), (4,5) and (5,4) are legal, so the new game is not over and P1 is to move |
| Othello.PaintedCells | src/games/perfect_info/othello.rs:184-185 | after a placement the square and the flips hold the mover's value and every other cell is unchanged |
| Othello.PlaceCounts | src/games/perfect_info/othello.rs:178-187 | a placement adds one disc plus the distinct flips to the mover, takes the flips from the opponent, and passes the move |
| Othello.PassOnlySwitches | src/games/perfect_info/othello.rs:173-177 | a pass changes only the side to move, and two passes restore the state |
| Othello.EvaluationBounds | src/games/perfect_info/othello.rs:196-205 | the evaluation (0 before the end, else the disc difference over 64) lies in [−1, 1] |
| Othello.TraceCompare | src/games/perfect_info/othello.rs:51-55 | traces are Equal exactly on equal boards and otherwise incomparable |
| Othello.SamplePosition | src/games/perfect_info/othello.rs:207-211 | one state: the trace's board with P1 to move |
| Othello.SampleMatchesTrace | src/games/perfect_info/othello.rs:153-155 | the sampled state shows every player exactly the trace it came from |
| Othello.ScanLegal | src/games/perfect_info/othello.rs:89-103 | the walk along one ray finds it legal exactly when it brackets |
| Othello.LegalDirsFrom | src/games/perfect_info/othello.rs:80-106 | all false on an occupied square, otherwise per ray whether it brackets |
| Othello.AnyLegalMove | src/games/perfect_info/othello.rs:108-113 | true exactly when the player has a legal placement somewhere |
| Othello.RayFlips | src/games/perfect_info/othello.rs:123-134 | the walk along one ray collects the bracketed opponent discs, or nothing |
| Othello.FlipsFor | src/games/perfect_info/othello.rs:115-137 | the flips of the eight rays, in ray order |
| Othello.IsOverM | src/games/perfect_info/othello.rs:192-194 | over exactly when neither side can place |
| Othello.RowPlaces | src/games/perfect_info/othello.rs:162-166 | one row of the loops appends that row's legal squares in column order |
| Othello.AvailableActions | src/games/perfect_info/othello.rs:159-168 | the loops build exactly the list `AvailableSpec` describes |
| Othello.PaintAll | src/games/perfect_info/othello.rs:185 | the loop writes the mover's value on every flip |
| Othello.Play | src/games/perfect_info/othello.rs:170-190 | a pass switches the mover; a placement writes the mover's disc on the square and every flip and switches the mover |
| Othello.Evaluate | src/games/perfect_info/othello.rs:196-205 | the one-pass count gives 0 before the end and the disc difference over 64 at the end |
| Go.New | src/games/perfect_info/go.rs:51-55 | an empty board, black (P1) to move, no passes, previous hash 0 |
| Go.PToCell | src/games/perfect_info/go.rs:57 | cell values 1 and 2 for the players, 0 exactly for chance |
| Go.IdxDivMod | src/games/perfect_info/go.rs:58 | a point's index gives back its column and row |
| Go.Neighbors | src/games/perfect_info/go.rs:76-83 | two to four distinct on-board points, each orthogonally adjacent, and every adjacent on-board point is listed |
| Go.FloodProps | src/games/perfect_info/go.rs:85-103 | the flood contains its seeds, stays on the board, adds only points of the colour, and is closed under adjacency within the colour |
| Go.FloodLeast | src/games/perfect_info/go.rs:85-103 | the flood is the least such closed set |
| Go.GroupProps | src/games/perfect_info/go.rs:85-103 | a group holds its point, lies on the board, has the point's colour throughout, and is closed for a stone's colour |
| Go.Visit | src/games/perfect_info/go.rs:93-100 | visiting one point records its empty neighbours as liberties and queues its unseen same-coloured neighbours, nothing else |
| Go.GroupAndLiberties | src/games/perfect_info/go.rs:85-103 | the breadth-first search returns exactly the connected group of the point and the number of distinct empty points next to it |
| Go.ClearAt | src/games/perfect_info/go.rs:105 | emptying a set of points empties exactly those points |
| Go.RemoveGroup | src/games/perfect_info/go.rs:105 | the write loop empties exactly the group's points |
| Go.CapturedGroupNonEmpty | src/games/perfect_info/go.rs:116-123 | a neighbour contributes a capture exactly when it holds an opponent stone whose group has no liberty |
| Go.CapturesProps | src/games/perfect_info/go.rs:116-123 | every captured point holds an opponent stone and lies in a neighbour's group without liberty |
| Go.CaptureScan | src/games/perfect_info/go.rs:114-124 | the neighbour loop collects exactly the liberty-less opponent groups next to the stone, and reports a capture exactly when it found one |
| Go.HashSeparatesSides | src/games/perfect_info/go.rs:73 | the same board hashes differently with P1 to move and with anyone else to move |
| Go.Zobrist | src/games/perfect_info/go.rs:61-74 | the loops compute Hash: every occupied point's word mixes (y·1315423911) ^ (x·2654435761) ^ (c·1099511628211) in 64-bit arithmetic and is rotated, and the side key closes the fold |
| Go.PointHash | src/games/perfect_info/go.rs:66-71 | one point of the inner loop extends the hash of the points before it |
| Go.RowHash | src/games/perfect_info/go.rs:64-72 | one row of the outer loop extends the hash of the rows before it |
| Go.MixBlackOrigin | src/games/perfect_info/go.rs:69 | a black stone at (0, 0) mixes to 1099511628211 |
| Go.MixWhiteNext | src/games/perfect_info/go.rs:69 | a white stone at (1, 0) mixes to 4403355383214 |
| Go.RowZeroStonesHash | src/games/perfect_info/go.rs:61-74 | a board with only those two stones hashes to 5502867010589 ^ the side key, unlike the empty board, so the second move is not mistaken for a repetition |
| Go.WouldBeLegalPlace | src/games/perfect_info/go.rs:107-136 | the step-by-step check on a copy of the board agrees with the legality predicate: empty point, captures removed, a liberty or a capture, and a hash unlike the previous position's |
| Go.LegalPlaceLeavesLiberty | src/games/perfect_info/go.rs:125-130 | a legal stone's group has a liberty once the captured stones are gone: no suicide |
| Go.AfterPlaceCells | src/games/perfect_info/go.rs:138-156 | after a placement the point holds the mover's stone and every other point is unchanged or an opponent stone taken off |
| Go.PlayPlace | src/games/perfect_info/go.rs:138-156 | the stone goes down, captured groups are removed, the side switches, the streak resets, and the hash of the position before the move is kept |
| Go.Play | src/games/perfect_info/go.rs:227-238 | a pass keeps the board, records the hash, switches the side and raises the streak saturating at 255; a placement is `play_place` |
| Go.PassEffect | src/games/perfect_info/go.rs:229-240 | a pass raises the streak by one up to 255 and switches the side; it ends the game exactly when a pass came just before |
| Go.PlaceIsNotOver | src/games/perfect_info/go.rs:153-154 | a placement resets the streak, so the game is never over just after one |
| Go.TwoPassesEnd | src/games/perfect_info/go.rs:240 | from the start two passes end the game and one does not |
| Go.FirstStone | src/games/perfect_info/go.rs:138-156 | on the empty board black's first stone captures nothing and passes the move to white |
| Go.AvailableFor | src/games/perfect_info/go.rs:165-174 | the list of actions is never empty |
| Go.AvailablePassIffStuck | src/games/perfect_info/go.rs:165-174 | Pass alone is offered exactly when no placement is legal |
| Go.AvailablePlacesAreLegal | src/games/perfect_info/go.rs:165-174 | otherwise a placement is offered exactly when it is legal |
| Go.AvailableActionsFor | src/games/perfect_info/go.rs:165-174 | the row-by-row loops build exactly that list |
| Go.RowPlaces | src/games/perfect_info/go.rs:167-171 | one row of the loops appends that row's legal placements in column order |
| Go.TraceOf | src/games/perfect_info/go.rs:222 | both players see the whole board |
| Go.TraceCompare | src/games/perfect_info/go.rs:35-39 | traces are Equal exactly on equal boards and otherwise incomparable |
| Go.SamplePosition | src/games/perfect_info/go.rs:249-251 | one state: the traced board, P1 to move, no passes, hash 0 |
| Go.SampleMatchesTrace | src/games/perfect_info/go.rs:222-251 | the sample shows the trace it came from to either player |
| Go.RegionProps | src/games/perfect_info/go.rs:186-202 | an empty region holds its point, is empty throughout and is closed among empty points |
| Go.FloodRegion | src/games/perfect_info/go.rs:186-202 | the flood fill marks exactly the point's empty region as seen, and returns its size and the colours of the stones around it |
| Go.CreditOnlyForOneColour | src/games/perfect_info/go.rs:203-206 | a non-empty region counts for a colour exactly when that colour alone borders it |
| Go.CountStones | src/games/perfect_info/go.rs:180-182 | the scan counts the black and the white stones |
| Go.ScanTerritory | src/games/perfect_info/go.rs:183-207 | the row-by-row scan credits every empty region once, as the territory function states |
| Go.AreaScore | src/games/perfect_info/go.rs:176-209 | each colour's score is its stones plus the regions only it borders |
| Go.Evaluate | src/games/perfect_info/go.rs:242-247 | the method computes the evaluation function |
| Go.EvaluationShape | src/games/perfect_info/go.rs:242-247 | 0 until the game is over; then 81 times the value is black's area minus white's area minus komi 6.5 |
| CfrPolicy.QualitiesOf | src/policy.rs:56-62 | each action's quality is at least its counterfactual value |
| CfrPolicy.ExploitIndex | src/policy.rs:112-115 | the drawn index lies in range and has positive instantaneous probability |
| CfrPolicy.ExploreIndex | src/policy.rs:93-110 | the drawn index lies in range and has positive exploration probability |
| ObscuroPolicy.Multiplier | src/obscuro/policy.rs:50-56 | ±1, −1 exactly for P2, and the single-file solver's multiplier for the two real players |
| ObscuroPolicy.InitialState | src/obscuro/policy.rs:23-34 | `from_actions`: the given actions, expectations and expansions 0, every regret EPS, nothing stable, no updates |
| ObscuroPolicy.RewardState | src/obscuro/policy.rs:36-48 | `from_rewards`: the rewards become the expectations, item by item; the rest as in `from_actions` |
| ObscuroPolicy.AgreesWithSingle | src/obscuro/policy.rs:23-48 | for P1 and P2 both constructors build the single-file solver's policy states |
| ObscuroPolicy.FreshPolicyUniform | src/obscuro/policy.rs:77-86 | a fresh policy with actions plays uniformly |
| ObscuroPolicy.ExpectationBetween | src/obscuro/policy.rs:134-137 | with no actions the expectation is 0; otherwise it lies between the least and the greatest expectation stored |
| ObscuroPolicy.RegretSumPositive | src/obscuro/policy.rs:77-86 | regrets floored at EPS have a positive sum, so the division in `exploit_policy` is defined |
| ObscuroPolicy.Policy.FromActions | src/obscuro/policy.rs:23-34 | the new object holds the state `InitialState` describes |
| ObscuroPolicy.Policy.FromRewards | src/obscuro/policy.rs:36-48 | the new object holds the state `RewardState` describes |
| ObscuroPolicy.ExploitPolicyScales | src/obscuro/policy.rs:77-86 | over a valid state the exploit policy is a distribution once there is an action, and each entry times the regret sum is the regret |
| ObscuroPolicy.Policy.ExploitPolicy | src/obscuro/policy.rs:77-86 | each probability times the regret sum is the action's regret; with actions the result is a distribution |
| ObscuroPolicy.Policy.PExploit | src/obscuro/policy.rs:139-144 | `p_exploit` of a known action is its entry of the exploit policy, a probability in (0, 1] |
| ObscuroPolicy.Policy.Exploit | src/obscuro/policy.rs:96-112 | `exploit` draws an action of positive exploit probability |
| ObscuroPolicy.Policy.Explore | src/obscuro/policy.rs:88-110 | `explore` draws an action of positive exploration probability |
| ObscuroPolicy.Policy.Qualities | src/obscuro/policy.rs:58-64 | every quality is at least the action's expectation |
| ObscuroPolicy.Policy.Purified | src/obscuro/policy.rs:114-122 | the action drawn is among the most likely ones, and at least as likely as any action outside them |
| ObscuroPolicy.Policy.GetExpectation | src/obscuro/policy.rs:134-137 | the loop computes the expectation of the current state |
| ObscuroPolicy.Policy.SetExpectation | src/obscuro/policy.rs:124-127 | only the action's expectation changes, to the given value |
| ObscuroPolicy.Policy.AddExpansion | src/obscuro/policy.rs:129-132 | only the action's expansion count changes, by one |
| ObscuroPolicy.Policy.Update | src/obscuro/policy.rs:146-172 | the object ends in the `Updated` state; with actions the update count grows by one; no regret decreases and each stays at least EPS |
| SolverTree.New | src/history.rs:21-28 | Terminal exactly when the game is over, else Visited with the state and the given reach; the payoff is the evaluation |
| SolverTree.NetReachIsProduct | src/history.rs:117-129 | the net reach is the product of the three players' reach probabilities, each 1 when absent; 1 for an empty map; non-negative when the entries are |
| SolverTree.Size | src/history.rs:176-181 | at least one node; exactly one for a leaf |
| SolverTree.ChildrenSize | src/history.rs:179 | the children from position k on hold at least one node each |
| SolverTree.HistoryIdentifier | src/history.rs:143-154 | the first half of the identifier is the acting player's trace |
| SolverTree.ChildReach | src/history.rs:45-46 | the mover's entry is divided by the number of actions (1/n when absent); every other entry is kept |
| SolverTree.ChildReachDivides | src/history.rs:45-46 | multiplying the child's entry back by n gives the parent's entry for the mover; other players are unchanged |
| SolverTree.Kids | src/history.rs:37-49 | one child per available action, in order, each a fresh history of the played state; none is Expanded |
| SolverTree.KidRewards | src/history.rs:55-56 | each child's action paired with its payoff |
| SolverTree.Expand | src/history.rs:30-68 | the method builds the expansion `ExpandSpec` describes |
| SolverTree.ExpandProperties | src/history.rs:30-68 | the node becomes Expanded with an empty reach, the hero's trace and the villain's trace; children as `Kids`; an existing infoset is kept, else exactly one is added; the size becomes one plus the number of actions |
| SolverTree.LeavesSize | src/history.rs:176-181 | children that are all leaves count one node each |
| SolverTree.FreshExpansionPayoffIsMean | src/history.rs:51-63 | right after an expansion that created its infoset, the node's payoff is the mean of its children's payoffs |
| SolverTree.FullExpand | src/history.rs:132-141 | with fuel left a Visited node ends Expanded; a Terminal one is untouched; infosets are only added |
| SolverTree.FullExpandChildren | src/history.rs:136-140 | the children keep their actions and order; infosets are only added |
| SolverTree.ExpandGrowing | src/history.rs:133-135 | expanding a Visited node yields an Expanded node and keeps every earlier infoset |
| SolverTree.RenormalizeReach | src/history.rs:70-79 | every reach entry is divided by the total, and nothing else changes |
| SolverTree.RenormalizeRoundTrip | src/history.rs:70-79 | dividing by the total and then by its inverse restores the map; each entry times the total is the old entry |
| SolverTree.InfoFromPolicy | src/info.rs:47-55 | the infoset holds the policy, trace and player, an empty reach and no cached gift |
| SolverTree.AddedReach | src/info.rs:71-80 | each player's summed reach is the old entry plus the history's (0 when absent) |
| SolverTree.AddedReachCommutes | src/info.rs:71-80 | adding two histories in either order gives the same sums; adding an empty map changes nothing |
| SolverTree.Info.FromPolicy | src/info.rs:47-55 | the new object holds the state `InfoFromPolicy` describes |
| SolverTree.Info.Gift | src/info.rs:58-68 | a cached gift is returned with nothing changed; otherwise 0 is returned and cached |
| SolverTree.Info.AddHistory | src/info.rs:71-80 | only the reach sums change, by the history's reach |
| Subgame.RootHistoriesMembers | src/obscuro.rs:155-159 | the drained histories are exactly those of the gadgets |
| Subgame.Matching | src/obscuro.rs:216-218 | exactly the histories whose acting trace is given, and no others |
| Subgame.NotMatching | src/obscuro.rs:216-218 | exactly the histories whose acting trace is not given |
| Subgame.TracesOf | src/obscuro.rs:223 | every covered history's trace is collected |
| Subgame.MatchingNone | src/obscuro.rs:216-218 | when no history has a given trace, nothing matches |
| Subgame.KCoverIsOneCover | src/obscuro.rs:214-228 | as written, every k-cover is the 1-cover: the recursion matches acting traces again |
| Subgame.MatchingView | src/obscuro.rs:216-218 | exactly the histories whose chosen player's view is given |
| Subgame.NotMatchingView | src/obscuro.rs:216-218 | exactly the histories whose chosen player's view is not given |
| Subgame.ViewsOf | src/obscuro.rs:223 | every covered history's view is collected |
| Subgame.KCoverFrom | src/obscuro.rs:214-228 | the cover holds only given histories and, for k ≥ 1, every one whose view matches |
| Subgame.KCoverCorrectedIsTwoCover | src/obscuro.rs:214-228 | the corrected 2-cover holds the matching histories and every history the opponent cannot tell apart from one, and no other |
| Subgame.KCoverMissesOpponentView | src/obscuro.rs:225 | a history sharing only the opponent's view is missing from the as-written cover and present in the corrected one |
| Subgame.KeyIndex | src/obscuro.rs:170 | the index of the first group under the key, or the length when there is none |
| Subgame.InsertProperties | src/obscuro.rs:170-179 | one fold step: keys stay distinct, the group under the key gains the history and its reach, others are unchanged, a new key appends a group; one history more |
| Subgame.MembersAbsent | src/obscuro.rs:162-181 | a key no history has collects nothing |
| Subgame.GroupByKeys | src/obscuro.rs:162-181 | after the fold the keys are distinct and a key has a group exactly when some history has it |
| Subgame.GroupByGroups | src/obscuro.rs:162-181 | each group holds exactly the histories with its key, in order, its probability is their summed reach and its alternative is 0 |
| Subgame.GroupByProperties | src/obscuro.rs:162-181 | the fold's keys and groups together |
| Subgame.ActingTraces | src/obscuro.rs:165 | the grouping keys as written: each history's acting trace |
| Subgame.OpponentTraces | src/obscuro.rs:154 | the corrected grouping keys: each history's opponent view |
| Subgame.GroupHistories | src/obscuro.rs:162-181 | the loop computes the fold |
| Subgame.ActingGroupingIsSingle | src/obscuro.rs:161-181 | grouping the as-written cover by acting trace gives at most one group |
| Subgame.SingleKeySingleGroup | src/obscuro.rs:162-181 | one key for all histories gives at most one group, under that key |
| Subgame.OpponentGroupingSplits | src/obscuro.rs:154 | grouping by opponent view gives each view of the cover its own group, holding only histories with that view |
| Subgame.MembersKeyed | src/obscuro.rs:170-175 | a collected history is one of the inputs, carrying the key |
| Subgame.Taken | src/obscuro.rs:183-201 | the padding takes no more samples than there are |
| Subgame.PadProperties | src/obscuro.rs:183-201 | padding takes min(samples, 64 − groups) samples; earlier groups keep key, probability and alternative and only gain histories; new groups have probability 1 |
| Subgame.PadPositions | src/obscuro.rs:183-201 | the while loop computes the padding |
| Subgame.IndexedReach | src/obscuro.rs:38-43 | each history's index paired with its reach for the player |
| Subgame.NewGadget | src/obscuro.rs:35-58 | the gadget holds the group's histories and alternative, prior 1, a chance infoset over their indices, and a SKIP/ENTER resolver for the opponent valued (alt, 0) |
| Subgame.Gadgets | src/obscuro.rs:34-59 | one gadget per group, in order |
| Subgame.NewRoot | src/obscuro.rs:60-65 | as written the root policy has the single action 0 |
| Subgame.NewRootCorrected | src/obscuro.rs:60-65 | the corrected root policy has one action per gadget, action j being j |
| Subgame.SingleRootActionFails | src/obscuro.rs:60-61 | with two or more gadgets the as-written root policy cannot name every gadget |
| Subgame.CorrectedRootIndexesGadgets | src/obscuro.rs:60-61 | the corrected root policy names every gadget |
| Subgame.EnterProbs | src/obscuro.rs:127-130 | each gadget's `p_exploit(ENTER)` |
| Subgame.PExploitIsProbability | src/policy.rs:156-161 | `p_exploit` lies in [0, 1] |
| Subgame.GetPMax | src/obscuro.rs:123-132 | a probability at least every gadget's ENTER probability, and 0 or one of them |
| Subgame.NewGadgetsResolversReady | src/obscuro.rs:49 | every new resolver is a two-action policy `p_exploit` can query |
| Subgame.InsertReady | src/obscuro.rs:170-179 | a fold step keeps every group ready for `SubgameRoot::new` |
| Subgame.GroupByReady | src/obscuro.rs:162-181 | the fold keeps every history and every group ready |
| Subgame.PadReady | src/obscuro.rs:183-201 | padding keeps every group ready |
| Subgame.RootHistoriesReady | src/obscuro.rs:155-159 | the drained histories are ready when the gadgets are |
| Subgame.Covered | src/obscuro.rs:155-161 | the covered root histories are all ready |
| Subgame.Grouped | src/obscuro.rs:161-201 | the padded groups are all ready |
| Subgame.ConstructSubgame | src/obscuro.rs:149-212 | the method builds the corrected root over the padded groups |
| Subgame.ConstructSubgameProperties | src/obscuro.rs:149-212 | distinct keys; one gadget per group with prior 1 and a ready resolver, holding the group's histories; a root policy naming every gadget; the covered histories plus the samples taken |
| SubgameSolve.MakeUtilities | src/obscuro.rs:345-384 | the utility is the tree's value under the current instantaneous policies; only counterfactuals change; the tree keeps its shape; non-terminal nodes record the given reach |
| SubgameSolve.ChildUtility | src/obscuro.rs:369-379 | one child's value, and its counterfactual recorded on the node's infoset |
| SubgameSolve.UtilitiesFrom | src/obscuro.rs:365-381 | the loop's local sum is the policy-weighted value of the remaining children |
| SubgameSolve.ValueBounded | src/obscuro.rs:345-384 | with every payoff in [lo, hi] the utility lies in [lo, hi] |
| SubgameSolve.ValueFromBounded | src/obscuro.rs:369-381 | the partial sums lie between lo and hi times the probability mass visited |
| SubgameSolve.ApplyUpdates | src/obscuro.rs:386-397 | every infoset of the tree is updated at the clock, and no other |
| SubgameSolve.ApplyUpdatesProperties | src/obscuro.rs:386-397 | the same keys; each infoset of the tree is `Updated` at t and marked so; others and leaves unchanged |
| SubgameSolve.UpdatedStep | src/obscuro.rs:394 | an update at the clock keeps the actions and marks the policy as set at t |
| SubgameSolve.UpdatedOnCompose | src/obscuro.rs:391-394 | updating the children and then the node updates every infoset of the subtree once |
| SubgameSolve.EnterGadget | src/obscuro.rs:324-334 | the loop over a gadget's histories computes EnterFrom from the first history with `enter_value` 0 |
| SubgameSolve.EnterStep | src/obscuro.rs:327-333 | one turn: the history records its reach from its sampling chance and the root probability and keeps its shape; `enter_value` grows by dist[j]·value of the history; only the history's own infosets are updated |
| SubgameSolve.EnterFromValue | src/obscuro.rs:324-334 | when the histories' infosets are disjoint, the final `enter_value` is Σ dist[j]·value of history j under the infosets as they were before the loop |
| SubgameSolve.ValueLocal | src/obscuro.rs:345-384 | a history's value depends only on the regrets of its own infosets |
| SubgameSolve.EnterFromShapes | src/obscuro.rs:324-334 | every history the loop reaches keeps its shape and records its reach, and the rest are untouched |
| SubgameSolve.EnterFromBound | src/obscuro.rs:324-334 | with every payoff in [lo, hi], `enter_value` lies between lo and hi times the sampling mass visited |
| SubgameSolve.EnterFromUpdates | src/obscuro.rs:324-334 | the loop updates only the infosets of the histories it visits, each at the clock |
| SubgameSolve.GadgetStep | src/obscuro.rs:318-341 | one gadget's turn replaces only that gadget's histories, keeping the infosets consistent with the trees |
| SubgameSolve.CfrGadget | src/obscuro.rs:318-341 | the method computes GadgetStep |
| SubgameSolve.CfrIterations | src/obscuro.rs:313-343 | the count grows by one and the root and infosets become CfrPass of the old ones at the new count |
| SubgameSolve.CfrPass | src/obscuro.rs:313-343 | only the gadgets' histories change, keeping the infosets shaped, clocked and consistent with the trees |
| SubgameSolve.CfrPassShapes | src/obscuro.rs:317-341 | each gadget within the zip keeps its resolver, alternative and prior, its histories keep their shape and record the reach from the root and chance policies; gadgets past the zip are untouched |
| SubgameSolve.CfrFromShapes | src/obscuro.rs:318-341 | the gadget loop keeps that invariant from any gadget to the end |
| SubgameSolve.CfrFromUpdates | src/obscuro.rs:318-341 | the gadget loop updates only the infosets of the histories of the gadgets it visits |
| SubgameSolve.SolvePasses | src/obscuro.rs:296-297 | a P1 pass and then a P2 pass, with the clock advanced by two |
| SubgameSolve.SolvePassesShapes | src/obscuro.rs:296-297 | the two passes keep the root policy and every gadget but its histories, which keep their shape |
| SubgameSolve.TargetReach | src/obscuro.rs:303-307 | the blend p_max·prior·p_enter + (1 − p_max)·p_root is a probability when its inputs are |
| SubgameSolve.Blends | src/obscuro.rs:299-309 | one blend per gadget against `get_pmax` of the root, each a probability when the inputs are |
| SubgameSolve.SolveStep | src/obscuro.rs:295-311 | the count grows by two, the root and infosets become SolvePasses of the old ones, and the blends of the new root are returned, each a probability when the inputs are |
| SubgameSolve.Pick | src/obscuro.rs:277-281 | the player's own nodes draw an action of positive exploration probability, others one of positive instantaneous probability |
| SubgameSolve.ExpansionStepInner | src/obscuro.rs:274-293 | a Terminal start is untouched, any other ends Expanded; only expansion counts change plus at most one new infoset; the tree does not shrink |
| SubgameSolve.DescentStep | src/obscuro.rs:282-286 | the expansion at a node composes with the path below it, and the node grows with its child |
| SubgameSolve.AddExpansionOnly | src/obscuro.rs:282 | `add_expansion` changes only the expansion counts of one infoset |
| SubgameSolve.Row | src/obscuro.rs:257-260 | the inner loop's coordinates (i, 0) … (i, b − 1) |
| SubgameSolve.Coords | src/obscuro.rs:251-264 | every collected coordinate names a root history |
| SubgameSolve.CoordsComplete | src/obscuro.rs:256-261 | every root history's coordinate is collected |
| SubgameSolve.SampledCoord | src/obscuro.rs:266-269 | the drawn coordinate names a root history of positive net reach |
| SubgameSolve.SampleHistory | src/obscuro.rs:249-273 | the nested loops and the draw return `SampledCoord` |
| SubgameSolve.ReplaceHistory | src/obscuro.rs:272 | only the history at (i, j) is replaced |
| SubgameSolve.SampleableKept | src/obscuro.rs:239-247 | replacing a history by a reachable non-terminal one keeps the root samplable |
| SubgameSolve.RootSizeAtLeastHistories | src/obscuro.rs:399-403 | the subgame's size is at least its number of root histories |
| SubgameSolve.HistoriesSizeUpdate | src/obscuro.rs:401 | replacing one history changes the size by the difference of the two sizes |
| SubgameSolve.RootSizeUpdate | src/obscuro.rs:400-402 | replacing one gadget changes the size by the difference of its histories' sizes |
| SubgameSolve.HalfStep | src/obscuro.rs:242-243 | writing back a grown reachable history changes only it, keeps the root samplable and does not shrink the subgame |
| SubgameSolve.ExpansionHalf | src/obscuro.rs:242-243 | only the sampled history changes and becomes Expanded; the root stays samplable; only expansion counts change plus at most one infoset; the subgame does not shrink |
| SubgameSolve.ExpansionStep | src/obscuro.rs:239-247 | the P1 half and then the P2 half; root policy and gadget count kept; expansion counts only; the subgame does not shrink |
| SubgameSolve.FirstExpanded | src/obscuro.rs:233 | the position of the first Expanded history, none before it |
| SubgameSolve.ChooseActionFromRoot | src/obscuro.rs:230-238 | in the gadget the root's best action names, the first Expanded history's infoset plays one of its most likely actions |
| ModularSolver.FromPolicy | src/obscuro/info.rs:47-60 | `from_policy` keeps the policy, trace and player; no reach, not visited, no cached gift, and one empty successor slot per action in each of the three successor vectors |
| ModularSolver.AddCounterfactuals | src/obscuro/info.rs:62-65 | the named action's counterfactual becomes v; every other expectation, the rest of the policy and every other field are kept |
| ModularSolver.AddCounterfactualsLastWins | src/obscuro/info.rs:62-65 | of two writes to one action's counterfactual only the second is kept |
| ModularSolver.AddHistory | src/obscuro/info.rs:101-111 | the infoset is marked visited; its reach gains every player of a Visited or Expanded history's reach, each entry the sum of the two (a missing one counting 0); Terminal and New histories add nothing; nothing else changes |
| ModularSolver.AddHistoryCommutes | src/obscuro/info.rs:101-111 | adding two histories gives the same infoset in either order |
| ModularSolver.Margin | src/obscuro/info.rs:94-96 | the upside of a successor value is never negative and is positive exactly when the value exceeds the infoset's own |
| ModularSolver.GiftInner | src/obscuro/info.rs:77-99 | a trace already seen gives (0, seen); otherwise the seen set gains the trace; the gift is never negative and the seen set only grows, so the recursion ends on cyclic successor links |
| ModularSolver.GiftFrom | src/obscuro/info.rs:83-97 | the sum, over the actions from k on, of the successor's gift plus its margin, or the alternative value's margin when there is no successor; never negative; the seen set only grows |
| ModularSolver.Gift | src/obscuro/info.rs:69-75 | a cached gift is returned without change; otherwise `gift_inner` from an empty seen set is returned and cached in that infoset only |
| ModularSolver.GiftIsCached | src/obscuro/info.rs:69-75 | the gift is non-negative; after the first call a second one returns the same value and changes nothing; caching keeps the successor links and the soundness of every cache |
| ModularSolver.NoUpsideNoGift | src/obscuro/info.rs:83-97 | without successor pointers and with no alternative above the infoset's value, the gift loop adds 0 and leaves the seen set as it is |
| ModularSolver.FreshInfoNoGift | src/obscuro/info.rs:47-60 | an infoset fresh from `from_policy` has gift 0, whatever else the map holds |
| ModularSolver.Matching | src/obscuro/obscuro.rs:213-216 | the first half of the partition: in order, exactly the histories whose trace is in the set |
| ModularSolver.NotMatching | src/obscuro/obscuro.rs:213-216 | the second half of the partition: exactly the histories whose trace is not in the set |
| ModularSolver.TracesOf | src/obscuro/obscuro.rs:221 | the set of traces is exactly the traces of the histories |
| ModularSolver.MatchingNone | src/obscuro/obscuro.rs:213-216 | nothing matches an empty set of traces |
| ModularSolver.KCoverIsOneCover | src/obscuro/obscuro.rs:212-226 | as written, the recursion adds nothing: the rest's traces avoid the matched traces, so the k-cover is the histories whose trace is in the set, for every k |
| ModularSolver.GroupByProperties | src/obscuro/obscuro.rs:162-181 | the fold gives distinct keys, every group starts with alternative 0, and the groups hold as many histories as were covered, so none is lost or duplicated |
| ModularSolver.InsertKeys | src/obscuro/obscuro.rs:168-178 | after one insertion a key has a group exactly when it had one or is the key inserted |
| ModularSolver.TracesOfSnoc | src/obscuro/obscuro.rs:162-165 | the traces of a list extended by one history are the old traces plus its trace |
| ModularSolver.GroupByKeys | src/obscuro/obscuro.rs:162-181 | a key has a group after the fold exactly when some covered history has it as trace |
| ModularSolver.KeyIndexIn | src/obscuro/obscuro.rs:168 | the key search finds a group exactly when one of the groups carries that key |
| ModularSolver.PadAsWrittenAddsNothing | src/obscuro/obscuro.rs:184-204 | with the guard as written, the count starts at the number of groups and no sampled position is ever added |
| ModularSolver.PadProperties | src/obscuro/obscuro.rs:184-204 | the corrected padding keeps distinct keys and the existing groups' keys, probabilities and alternatives; existing groups only gain histories; new groups have probability 1 |
| ModularSolver.PadStep | src/obscuro/obscuro.rs:192-199 | one sample's insertion composes with the rest of the padding: old groups keep key, probability and alternative and only gain histories; later groups have probability 1 |
| ModularSolver.PadTotal | src/obscuro/obscuro.rs:184-204 | the corrected padding adds one history per sample it takes: min(samples, MIN_INFO_SIZE − count) of them |
| ModularSolver.PadPositions | src/obscuro/obscuro.rs:184-204 | the padding loop over the samples computes the corrected padding from the group count |
| ModularSolver.Utilities | src/obscuro/obscuro.rs:228-266 | `make_utilities_hist`: every infoset keeps its actions and its well-formed policy; a Terminal history returns its payoff, New and Visited ones 0, and none of them changes the infosets |
| ModularSolver.UtilitiesFrom | src/obscuro/obscuro.rs:252-261 | the loop over the children from k on keeps every infoset's actions and well-formed policy |
| ModularSolver.VisitChild | src/obscuro/obscuro.rs:253-258 | one visited child keeps every infoset's actions and well-formed policy |
| ModularSolver.ChildStep | src/obscuro/obscuro.rs:255-257 | after a child's traversal the node's infoset still has the child's action, and after the write of its counterfactual the later children still fit |
| ModularSolver.AfterChildFrame | src/obscuro/obscuro.rs:257 | `add_counterfactuals` changes the expectations of the node's infoset and nothing else |
| ModularSolver.UtilitiesFrame | src/obscuro/obscuro.rs:228-266 | only policies change and none loses an update; the infosets outside the tree are untouched; an Expanded node with actions gains an update |
| ModularSolver.UtilitiesUnfold | src/obscuro/obscuro.rs:247-264 | an Expanded node's value and infosets are those of its child loop followed by `update()` |
| ModularSolver.UpdateStep | src/obscuro/obscuro.rs:263 | the final `update()` keeps only-policies-change and the frame, and adds one update to the node's infoset |
| ModularSolver.UtilitiesFromFrame | src/obscuro/obscuro.rs:252-261 | the child loop changes only policies, loses no update and touches only the node's infoset and those below it |
| ModularSolver.FromUnfoldVisit | src/obscuro/obscuro.rs:254-258 | when child k is visited the loop from k is that child's visit followed by the rest |
| ModularSolver.FromUnfoldSkip | src/obscuro/obscuro.rs:254 | when child k is skipped the loop from k is the loop from k + 1 |
| ModularSolver.VisitChildFrame | src/obscuro/obscuro.rs:253-258 | one visited child changes only policies, loses no update and touches only the node's infoset and the child's subtree |
| ModularSolver.FromStep | src/obscuro/obscuro.rs:252-261 | one child's frame composed with the frame of the rest of the loop |
| ModularSolver.ExploitPositive | src/obscuro/obscuro.rs:254 | every action of a well-formed policy has a positive exploit probability |
| ModularSolver.EveryChildVisited | src/obscuro/obscuro.rs:254-255 | the test `player == optimizing_player \|\| p > 0` holds for every child, so the loop visits every child for either optimizing player |
| ModularSolver.Indices | src/obscuro/obscuro.rs:28-33 | the gadget and history indices 0 … n − 1 |
| ModularSolver.PositionOfIndex | src/obscuro/obscuro.rs:335 | in the list of indices, index j sits at position j |
| ModularSolver.Indexed | src/obscuro/obscuro.rs:28-33 | `.enumerate()`: each value paired with its index |
| ModularSolver.Reaches | src/obscuro/obscuro.rs:28-31 | the reach probability of each history, in order |
| ModularSolver.NewGadget | src/obscuro/obscuro.rs:24-47 | a gadget holds the group's histories and alternative with prior 1; its chance infoset is fresh, for the group's trace, with one action per history weighted by its reach; its resolver plays for the opponent over SKIP then ENTER, with expectations (alt, 0) and regrets at EPS |
| ModularSolver.Gadgets | src/obscuro/obscuro.rs:25-48 | one gadget per group, in order |
| ModularSolver.NewRootAsWritten | src/obscuro/obscuro.rs:49-55 | as written the root policy has the single action 0, whatever the number of gadgets |
| ModularSolver.RootAsWrittenLacksIndex | src/obscuro/obscuro.rs:49-50 | with two or more gadgets the root as written lacks index 1, which `solve_step` and `cfr_iterations` look up |
| ModularSolver.NewRoot | src/obscuro/obscuro.rs:17-56 | the corrected root: one action per gadget, each starting at 0, for the constructing player; the root is ready |
| ModularSolver.DefaultSolver | src/obscuro/obscuro.rs:82-112 | `Obscuro::default`: expectation 0, no infosets, P1 to act, and one ready gadget holding the fresh initial history, with prior 1, SKIP at 0 and ENTER at half of `Reward::MAX`, the mover's best value as alternative, and root expectation 1 |
| ModularSolver.EnterProb | src/obscuro/obscuro.rs:328 | `p_exploit(&ENTER)` is a probability |
| ModularSolver.FreshEnterHalf | src/obscuro/obscuro.rs:39 | a fresh resolver, with two equal regrets, enters with probability 1/2 |
| ModularSolver.PassedKeepsEnterProb | src/obscuro/obscuro.rs:337-338 | a pass writes only expectations, so the ENTER probability is unchanged |
| ModularSolver.EnterFrom | src/obscuro/obscuro.rs:330-335 | the history loop keeps every infoset's actions and policy, and changes the chance policy only in its expectations |
| ModularSolver.EnterStep | src/obscuro/obscuro.rs:331-334 | one history's turn: the infosets keep their actions, stay fit for every history, and the chance policy's expectation j becomes prior · p_enter, nothing else of it changing |
| ModularSolver.EnterFromExpectations | src/obscuro/obscuro.rs:330-335 | after the loop from history j on, the chance expectations before j are kept and every one from j on is prior · p_enter |
| ModularSolver.GadgetPass | src/obscuro/obscuro.rs:326-341 | one gadget's turn keeps the gadget ready with the same histories and every infoset's actions and policy |
| ModularSolver.ResolverWrites | src/obscuro/obscuro.rs:337-338 | setting ENTER then SKIP changes only the resolver's two expectations, to (alt, enter) |
| ModularSolver.GadgetPassProperties | src/obscuro/obscuro.rs:326-341 | one pass changes only the chance and resolver expectations, sets every history's chance weight to prior · p_enter and SKIP to alt, and the value it returns is (1 − p_enter)·SKIP + p_enter·ENTER of the new resolver |
| ModularSolver.CfrReadyFits | src/obscuro/obscuro.rs:326 | while the gadget loop runs, every gadget is ready and its histories fit the current infosets |
| ModularSolver.CfrStep | src/obscuro/obscuro.rs:326-341 | the gadget loop unfolds by one pass and keeps the loop ready; the root index i gets the pass's value |
| ModularSolver.CfrFromKeeps | src/obscuro/obscuro.rs:324-343 | the rest of the gadget loop keeps the loop ready, every infoset's actions and policy, and the root policy apart from its expectations |
| ModularSolver.EnterHistories | src/obscuro/obscuro.rs:330-335 | the history loop computes EnterFrom from history 0 and an enter value of 0 |
| ModularSolver.CfrIterations | src/obscuro/obscuro.rs:324-343 | the loop computes the gadget recursion; every gadget is passed; the root policy changes only in its expectations, and root index k gets gadget k's resolver value (1 − p_enter)·alt + p_enter·enter |
| ModularSolver.PassedPrefix | src/obscuro/obscuro.rs:326-341 | passing gadget i and writing its value at root index i extends the prefix of passed gadgets by one |
| ModularSolver.PassGadget | src/obscuro/obscuro.rs:326-341 | one gadget's turn computes GadgetPass; the gadget is passed and the value is its resolver value |
| ModularSolver.CfrReadyRoot | src/obscuro/obscuro.rs:324-343 | after the loop the root is ready and every gadget's histories fit the infosets |
| ModularSolver.PassedTwice | src/obscuro/obscuro.rs:303-304 | two passes compose into one, since both use the same ENTER probability |
| ModularSolver.SetEnter | src/obscuro/obscuro.rs:306-308 | ENTER's expectation becomes the chance policy's expectation, SKIP's is kept, the gadget stays ready |
| ModularSolver.PassedThenSolved | src/obscuro/obscuro.rs:303-308 | a passed gadget with ENTER then written is solved |
| ModularSolver.SolvedEnter | src/obscuro/obscuro.rs:306-308 | solving keeps the ENTER probability, and ENTER's expectation is prior · p_enter, or 0 for a gadget without histories |
| ModularSolver.EnterProbs | src/obscuro/obscuro.rs:121-129 | the ENTER probability of each gadget, in order |
| ModularSolver.GetPMaxProperties | src/obscuro/obscuro.rs:120-130 | p_max is a probability, bounds every gadget's ENTER probability, and is 0 or one of them |
| ModularSolver.ReachTargetInUnit | src/obscuro/obscuro.rs:314-318 | with p_max and the prior in [0, 1], the blend p_max·prior·p_resolve + (1 − p_max)·p_maxmargin is in [0, 1] |
| ModularSolver.Targets | src/obscuro/obscuro.rs:312-320 | one reach blend per gadget |
| ModularSolver.TargetsInUnit | src/obscuro/obscuro.rs:312-320 | every root target is a probability when every prior is |
| ModularSolver.SetEnters | src/obscuro/obscuro.rs:306-308 | the first loop of `solve_step` writes ENTER in every gadget |
| ModularSolver.SolvedPMax | src/obscuro/obscuro.rs:306-310 | solving keeps every ENTER probability, and so p_max |
| ModularSolver.TargetAt | src/obscuro/obscuro.rs:313-319 | the blend computed on the solved gadgets at index k is the target computed on the original ones |
| ModularSolver.SolvePasses | src/obscuro/obscuro.rs:303-304 | the two CFR passes, for P1 then P2: the infosets are the two gadget recursions in turn, every gadget is passed, the root stays ready and changes only its expectations |
| ModularSolver.WriteTargets | src/obscuro/obscuro.rs:310-320 | the second loop writes each gadget's reach blend under p_max at its root index: the root expectations become the targets |
| ModularSolver.SolveStep | src/obscuro/obscuro.rs:302-322 | `solve_step`: the infosets are those of the P1 then P2 passes; every gadget is solved (chance weights prior · p_enter, SKIP = alt, ENTER = the chance expectation); the root policy is the update of the original one with the reach blends as expectations |
| ModularSolver.Drained | src/obscuro/obscuro.rs:132-159 | draining the root and then every resolver collects the histories gadget by gadget |
| ModularSolver.DrainedMembers | src/obscuro/obscuro.rs:155-159 | the drained histories are exactly the gadgets' histories |
| ModularSolver.Covered | src/obscuro/obscuro.rs:161 | the 2-cover of the observation keeps only non-terminal histories |
| ModularSolver.ConstructSubgame | src/obscuro/obscuro.rs:148-209 | the previous root is drained, covered, grouped and padded, the corrected root replaces it, and the rest of the solver is kept |
| ModularSolver.CoveredOneGroup | src/obscuro/obscuro.rs:161-181 | as written, every covered history has the observation as trace, so before padding there is at most one group, keyed by the observation |
| ModularSolver.ConstructSubgameProperties | src/obscuro/obscuro.rs:148-209 | the new subgame has distinct keys, one ready gadget per group with prior 1 and that group's histories, a root policy over every gadget, and as histories the covered ones plus min(samples, MIN_INFO_SIZE − groups) samples |
| CopilotCore.NewPolicy | copilot/obscuro_core.rs:149-168 | a fresh policy over distinct actions: every regret, strategy weight and exploration count 0, update count 0 |
| CopilotCore.Positives | copilot/obscuro_core.rs:171-196 | each regret's positive part, so every entry is non-negative |
| CopilotCore.StrategyOf | copilot/obscuro_core.rs:171-196 | an action's current probability lies in [0, 1] and is 0 for an action the policy lacks |
| CopilotCore.CurrentStrategyProperties | copilot/obscuro_core.rs:171-196 | regret matching+ gives a distribution; with some positive regret an action has probability 0 exactly when its regret is not positive, and a larger positive regret gets a larger probability; with none it is uniform |
| CopilotCore.MatchingFollowsRegrets | copilot/obscuro_core.rs:176-190 | normalising the positive parts of regrets with a positive entry: zero exactly at the non-positive regrets, strictly ordered like the positive ones |
| CopilotCore.AverageStrategyProperties | copilot/obscuro_core.rs:199-216 | the average strategy is a distribution when the weights are non-negative, and uniform while they are all 0 |
| CopilotCore.WithCounterfactual | copilot/obscuro_core.rs:219-223 | only the regrets change: the named action's grows by reach · value, every other stays |
| CopilotCore.Updated | copilot/obscuro_core.rs:226-234 | the update count becomes the iteration and each weight grows by the action's current probability; nothing else changes |
| CopilotCore.UpdatedProperties | copilot/obscuro_core.rs:226-234 | an update keeps the current strategy, adds exactly 1 to the weights' total, and from zero weights makes the average strategy the current one |
| CopilotCore.WithExploration | copilot/obscuro_core.rs:237-239 | only the explorations change: the action's count grows by one, every other stays |
| CopilotCore.Bonus | copilot/obscuro_core.rs:248-249 | the exploration bonus `ln(total).max(1.0)` is at least 1 and at least the logarithm |
| CopilotCore.SelectExplorationProperties | copilot/obscuro_core.rs:242-268 | `select_exploration` returns a policy action of maximal UCB score; when all current probabilities are equal it is an action explored least often |
| CopilotCore.BestActionMaximizes | copilot/obscuro_core.rs:271-286 | `best_action` is a policy action and no action has a larger current probability |
| CopilotCore.Lookups | copilot/obscuro_core.rs:289-295 | each action's value from the map, 0 when the map lacks it |
| CopilotCore.ExpectedValueBounds | copilot/obscuro_core.rs:289-295 | the expected value lies between any lower and upper bound of the actions' values |
| CopilotCore.RegretMatchingTests | copilot/cfr_plus.rs:308-340 | regrets 10, 5, −2 give strictly decreasing probabilities; regrets −10, 5 give the second action probability 1 |
| CopilotCore.Policy.constructor | copilot/obscuro_core.rs:149-168 | the new object's state is NewPolicy of the actions |
| CopilotCore.Policy.AddCounterfactual | copilot/obscuro_core.rs:219-223 | the state after the call is WithCounterfactual of the state before |
| CopilotCore.Policy.Update | copilot/obscuro_core.rs:226-234 | the state after the loop over the actions is Updated of the state before |
| CopilotCore.Policy.RecordExploration | copilot/obscuro_core.rs:237-239 | the state after the call is WithExploration of the state before |
| CopilotCore.NewHistory | copilot/obscuro_core.rs:330-344 | Terminal exactly when the game is over, with the payoff; otherwise Visited with the evaluation; empty reach map |
| CopilotCore.NetReachProb | copilot/obscuro_core.rs:366-374 | the product of the reach map, floored at 1e-12: at least both, and equal to one of them |
| CopilotCore.SetReachProb | copilot/obscuro_core.rs:377-384 | the player's entry becomes the probability; every other entry and the rest of the history stay |
| CopilotCore.ActivePlayer | copilot/obscuro_core.rs:387-393 | Chance at a Terminal node, the game's player at a Visited node, the stored player at an Expanded node |
| CopilotCore.Size | copilot/obscuro_core.rs:396-403 | at least 1, and exactly 1 for a node that is not Expanded |
| CopilotCore.SizeCountsChildren | copilot/obscuro_core.rs:396-403 | an Expanded node's size exceeds its number of children and each child's size |
| CopilotCore.NewInfoSet | copilot/obscuro_core.rs:425-431 | the information set holds the trace, the player and a fresh policy over the actions |
| CopilotResolving.NewGadget | copilot/safe_resolving.rs:50-76 | the gadget keeps histories, trace, alternative and prior; its resolver is a fresh Enter/Skip policy of the opponent and its sampling policy a fresh chance policy over the history indices |
| CopilotResolving.ResolverProbabilities | copilot/safe_resolving.rs:79-88 | Enter and Skip probabilities lie in [0, 1] and sum to 1; both are 1/2 with no positive regret; Enter exceeds 1/2 when its regret is positive and above Skip's |
| CopilotResolving.UpdateResolver | copilot/safe_resolving.rs:91-103 | only the resolver changes: Enter gains reach · enter, Skip gains reach · skip, the update count becomes the iteration |
| CopilotResolving.UpdateFavoursBetterChoice | copilot/safe_resolving.rs:271-288 | from a fresh gadget, an update at positive reach where entering is worth more than skipping and more than 0 makes Enter more likely than 1/2 |
| CopilotResolving.NewRoot | copilot/safe_resolving.rs:124-152 | one gadget per group with its histories, trace, value and probability, and a max-margin policy over the gadget indices whose weights are the priors |
| CopilotResolving.NewRootAverageIsPrior | copilot/safe_resolving.rs:124-152 | the root's average strategy is the priors divided by their total, and exactly the priors when they sum to 1 |
| CopilotResolving.MaxEnterProbProperties | copilot/safe_resolving.rs:155-160 | the maximum Enter probability is a probability, bounds every gadget's, is one of them (or 0), and is 0 without gadgets |
| CopilotResolving.SampleHistory | copilot/safe_resolving.rs:163-180 | a sampled pair is in range and its gadget is the max-margin exploration; None exactly without gadgets or when that gadget has no histories |
| CopilotResolving.SelectedIndex | copilot/safe_resolving.rs:163-180 | a policy over the indices explores one of them |
| CopilotResolving.TreeSizeAtLeastHistories | copilot/safe_resolving.rs:188-198 | the tree size is at least the number of histories |
| CopilotResolving.GadgetReach | copilot/safe_resolving.rs:214-225 | a gadget's reach blend is a probability when the priors and p_max are |
| CopilotResolving.SafeFrom | copilot/safe_resolving.rs:215-231 | the loop changes only the max-margin regrets, and none before the starting gadget |
| CopilotResolving.SafeStrategy | copilot/safe_resolving.rs:206-239 | only the max-margin policy of the root changes |
| CopilotResolving.ComputeSafeStrategy | copilot/safe_resolving.rs:206-239 | the loop computes SafeStrategy, and the strategy map returned is empty |
| CopilotResolving.SafeStrategyProperties | copilot/safe_resolving.rs:206-239 | the gadgets and the explorations stay; the update count becomes the iteration; each gadget's max-margin regret rises by between 0 and 1 |
| CopilotResolving.SafeFromGrowth | copilot/safe_resolving.rs:215-231 | the loop from gadget idx raises each later regret by between 0 and 1 |
| CopilotResolving.RegretStep | copilot/safe_resolving.rs:228-230 | adding a reach blend in [0, 1] at reach 1 raises that index's regret by at most 1 and leaves the others |
| CopilotResolving.InitializeResolverValues | copilot/safe_resolving.rs:242-261 | the player's worst value without histories, a finite value with them |
| CopilotResolving.InitialValueBetween | copilot/safe_resolving.rs:242-261 | with histories, the initial value lies between any bounds of their values |
| CopilotCfr.InfoSetFor | copilot/cfr_plus.rs:120-129 | the trace's information set is present afterwards: the map is unchanged when it was, else extended by a fresh one over the legal actions |
| CopilotCfr.NetReachExcludesActor | copilot/cfr_plus.rs:137-141 | the net reach times the actor's entry is the whole reach product, and the actor's entry does not change the net reach |
| CopilotCfr.ChildReach | copilot/cfr_plus.rs:152-156 | the actor's entry is multiplied by the action probability (or set to it when absent); every other entry stays |
| CopilotCfr.CfrValues | copilot/cfr_plus.rs:93-183 | Terminal: the payoff, nothing changed; Visited: the payoff, reach stored; Expanded: reach stored and the children's loop run; information sets stay valid and only grow |
| CopilotCfr.VisitChildVisited | copilot/cfr_plus.rs:147-174 | a visited child's pass, weighted by its probability, joins the expected value, and the child is replaced by its pass's tree |
| CopilotCfr.ComputeCfrValues | copilot/cfr_plus.rs:93-183 | the recursive traversal performs CfrValues |
| CopilotCfr.ExpandedCfrValues | copilot/cfr_plus.rs:112-181 | the Expanded case performs CfrValues |
| CopilotCfr.ChildrenLoop | copilot/cfr_plus.rs:146-175 | the loop over the children performs ChildrenFrom from the first child |
| CopilotCfr.ChildStep | copilot/cfr_plus.rs:147-174 | one loop turn performs VisitChild |
| CopilotCfr.CfrKeepsTree | copilot/cfr_plus.rs:93-183 | the pass changes only reach maps: games, payoffs, players, actions and shape stay |
| CopilotCfr.CfrFrame | copilot/cfr_plus.rs:93-183 | the pass touches only the information sets of the subtree's Expanded nodes, and changes regrets only at the optimizing player's nodes |
| CopilotCfr.CfrChildOutcome | copilot/cfr_plus.rs:146-175 | a child is untouched exactly when the node's player is not optimizing and the action has probability 0; otherwise it is visited with the actor's reach multiplied by that probability |
| CopilotCfr.SampleReach | copilot/cfr_plus.rs:54-56 | the reach map of a sampled history: the sample probability for Chance, the max-margin probability for the opponent, 1 for the optimizing player |
| CopilotCfr.HistoriesFrom | copilot/cfr_plus.rs:46-69 | the loop over a gadget's histories keeps their number and every history before j, and only adds information sets |
| CopilotCfr.SampleStep | copilot/cfr_plus.rs:47-68 | one history's turn changes at most that history |
| CopilotCfr.SampleStepVisited | copilot/cfr_plus.rs:52-68 | a history with positive sample probability gets a pass from the sampling reach map, and its value weighted by that probability joins the enter value |
| CopilotCfr.HistoriesFromSkips | copilot/cfr_plus.rs:52 | a history of sample probability 0 comes out of the loop unchanged |
| CopilotCfr.GadgetsFrom | copilot/cfr_plus.rs:30-84 | the gadget loop keeps the priors and the regrets before idx, and its total grows by the prior-weighted gains of the max-margin regrets from idx on |
| CopilotCfr.GadgetsFromGain | copilot/cfr_plus.rs:30-84 | the total after gadget idx and after the rest of the loop add up to the prior-weighted gains from idx on |
| CopilotCfr.GadgetStep | copilot/cfr_plus.rs:31-83 | one gadget's turn changes only that gadget and its max-margin regret, and adds its prior-weighted gain to the total |
| CopilotCfr.CounterfactualGain | copilot/cfr_plus.rs:79-83 | adding a value at reach 1 to index idx raises that regret, prior-weighted, by the prior-weighted value |
| CopilotCfr.CfrIterationOf | copilot/cfr_plus.rs:19-90 | the iteration keeps the number of gadgets, the root's player and the validity of the root and information sets |
| CopilotCfr.CfrIterationTotal | copilot/cfr_plus.rs:19-90 | the total returned is the prior-weighted sum of the values fed to the max-margin regrets |
| CopilotCfr.CfrIteration | copilot/cfr_plus.rs:19-90 | the nested loops perform CfrIterationOf |
| CopilotCfr.GadgetLoop | copilot/cfr_plus.rs:30-84 | the gadget loop performs GadgetsFrom from the first gadget |
| CopilotCfr.GadgetPass | copilot/cfr_plus.rs:31-83 | one gadget's turn performs GadgetStep |
| CopilotCfr.SampleHistories | copilot/cfr_plus.rs:46-69 | the history loop performs HistoriesFrom from the first history |
| CopilotCfr.ApplyPolicyUpdates | copilot/cfr_plus.rs:188-217 | the information sets stay valid, with the same keys |
| CopilotCfr.ApplyPolicyUpdatesCounts | copilot/cfr_plus.rs:188-217 | each information set is updated once per Expanded node with its trace: regrets kept, weights grown by that many copies of its current strategy |
| CopilotCfr.ExtractAverageStrategy | copilot/cfr_plus.rs:271-283 | one entry per information set, holding its average strategy |
| CopilotCfr.ExtractedAreDistributions | copilot/cfr_plus.rs:271-283 | every extracted strategy with actions and non-negative weights is a distribution |
| CopilotCfr.ResetInfoSetProperties | copilot/cfr_plus.rs:286-297 | resetting makes every regret non-negative, keeps the non-negative ones, touches only regrets and keeps the current strategy |
| CopilotCfr.ResetAllProperties | copilot/cfr_plus.rs:286-297 | resetting twice equals resetting once, and the average strategies do not change |
| CopilotCfr.ClampRegrets | copilot/cfr_plus.rs:291-295 | the inner loop sets each negative regret to 0 and keeps the others |
| CopilotCfr.ResetNegativeRegrets | copilot/cfr_plus.rs:286-297 | the loop over the information sets performs ResetAll |
| CopilotSubgame.KCoverRec | copilot/subgame_solving.rs:68-129 | a returned history keeps its game and reach map |
| CopilotSubgame.KCoverRecConserves | copilot/subgame_solving.rs:68-129 | the search loses and duplicates no node: returned and found histories hold exactly the nodes searched |
| CopilotSubgame.KCoverRecFinds | copilot/subgame_solving.rs:78-123 | every history found matches a search trace, and the next search traces are exactly the opponent's traces of what was found |
| CopilotSubgame.KCoverSearch | copilot/subgame_solving.rs:23-60 | the two nested loops return KCover |
| CopilotSubgame.PassConserves | copilot/subgame_solving.rs:42-52 | a round puts every node of its histories in exactly one place: kept or found |
| CopilotSubgame.RoundsConserve | copilot/subgame_solving.rs:38-57 | across rounds the histories still searched and those found hold the nodes of the roots |
| CopilotSubgame.KCoverBounded | copilot/subgame_solving.rs:23-60 | the cover has no more nodes than the trees searched |
| CopilotSubgame.PassFinds | copilot/subgame_solving.rs:42-55 | the round's found histories match its search traces, and the next round searches exactly their opponent's traces |
| CopilotSubgame.KCoverFirstOrder | copilot/subgame_solving.rs:17-44 | with k = 1 every history found has the player's own trace equal to the target |
| CopilotSubgame.KCoverGrows | copilot/subgame_solving.rs:38-59 | one more round keeps everything found so far, in order |
| CopilotSubgame.KCoverEmpty | copilot/subgame_solving.rs:29-31 | no histories or depth 0 give an empty cover |
| CopilotSubgame.NetProbsPositive | copilot/subgame_solving.rs:149 | the net reach of a non-empty list has a positive total |
| CopilotSubgame.NormalizeFrame | copilot/subgame_solving.rs:148-155 | normalisation rewrites only the player's reach entries |
| CopilotSubgame.NormalizeDistribution | copilot/subgame_solving.rs:148-155 | each history's entry for the player becomes its share of the total net reach, so the entries form a distribution |
| CopilotSubgame.NormalizeReach | copilot/subgame_solving.rs:148-155 | the two loops compute Normalize |
| CopilotSubgame.MeanSnoc | copilot/subgame_solving.rs:176 | the running-mean formula gives the mean of the values so far and the new one |
| CopilotSubgame.UpsertProperties | copilot/subgame_solving.rs:172-179 | one upsert keeps the grouping invariant (each key's group summarises its entries in order) and adds one history |
| CopilotSubgame.UpsertAllProperties | copilot/subgame_solving.rs:161-180 | upserting entries one by one groups all of them and adds one history per entry |
| CopilotSubgame.UpsertAllCount | copilot/subgame_solving.rs:161-180 | upserting keeps the keys distinct and adds one history per entry |
| CopilotSubgame.GroupByOpponent | copilot/subgame_solving.rs:157-180 | the loop upserts one entry per covered history, in order |
| CopilotSubgame.GroupByOpponentProperties | copilot/subgame_solving.rs:157-180 | distinct opponent traces, each group holding exactly its histories in order with summed net reach and mean value, every history in some group |
| CopilotSubgame.RenormalizeProperties | copilot/subgame_solving.rs:245-251 | renormalising keeps keys, histories and values, and makes a positive total of probabilities sum to 1 |
| CopilotSubgame.RenormalizeGroups | copilot/subgame_solving.rs:245-251 | the two loops compute Renormalize |
| CopilotSubgame.ChosenCount | copilot/subgame_solving.rs:215-243 | the sampler adds no more games than needed |
| CopilotSubgame.ChosenSkips | copilot/subgame_solving.rs:206-222 | no added game has a skipped identifier, and with remembering the added identifiers are pairwise distinct |
| CopilotSubgame.SampleAdditionalCounts | copilot/subgame_solving.rs:193-252 | nothing changes with enough histories; otherwise at most min − count games are added, one history each, keys stay distinct, probabilities sum to 1 when their total is positive |
| CopilotSubgame.SampleMissingCounts | copilot/subgame_solving.rs:212-243 | the run adds at most the missing number of games, one history per game, under distinct keys |
| CopilotSubgame.SampleAdditionalGroups | copilot/subgame_solving.rs:212-251 | the result groups the earlier entries and the added games' entries, renormalised |
| CopilotSubgame.SampleAdditionalFresh | copilot/subgame_solving.rs:206-222 | as intended, no added game repeats an identifier already present or added before |
| CopilotSubgame.SampleAdditionalAsWrittenDuplicates | copilot/subgame_solving.rs:206-243 | as written, a sampler yielding one game twice gets it added twice |
| CopilotSubgame.SampleAdditionalOnce | copilot/subgame_solving.rs:206-243 | as intended, the same input adds the game once |
| CopilotSubgame.SampleAdditionalPositions | copilot/subgame_solving.rs:193-252 | the loop and renormalisation compute SampleAdditional |
| CopilotSubgame.SampleLoop | copilot/subgame_solving.rs:212-243 | the loop over the sampler computes the sampler's run: the games chosen and the groups after upserting them |
| CopilotSubgame.ConstructSubgame | copilot/subgame_solving.rs:138-190 | the steps compute SubgamePositions |
| CopilotSubgame.ConstructSubgameCovered | copilot/subgame_solving.rs:138-190 | with at least min covered histories the subgame is exactly their grouping; in every case keys are distinct and no covered history is lost |
| CopilotSubgame.ConstructSubgameSampled | copilot/subgame_solving.rs:182-187 | below min the subgame groups the covered histories and fresh sampled games, renormalised to sum to 1 when the total was positive |
| CopilotSubgame.PruneOldTree | copilot/subgame_solving.rs:259-272 | no longer than the old tree, and every kept history's trace is comparable with the observation |
| CopilotSubgame.PruneOldTreeMembers | copilot/subgame_solving.rs:259-272 | a history is kept exactly when it is in the old tree and comparable with the observation |
| CopilotSubgame.PruneOldTreeIdempotent | copilot/subgame_solving.rs:259-272 | pruning twice equals pruning once |
| CopilotSubgame.KnowledgeDistance | copilot/subgame_solving.rs:277-283 | 0 exactly for equal traces, none exactly for incomparable ones, otherwise at most 1 |
| CopilotSubgame.PruneOldTreeByDistance | copilot/subgame_solving.rs:259-283 | pruning keeps exactly the histories at some knowledge distance from the observation |
| CopilotSubgame.KCoverFirstOrderDistance | copilot/subgame_solving.rs:23-60 | every history of the first-order cover is at distance 0 from the target, so pruning keeps it |
| CopilotAlgorithm.DefaultConfig | copilot/obscuro_algorithm.rs:38-48 | a positive time, position count, depth, iteration count and tree limit |
| CopilotAlgorithm.Chosen | copilot/obscuro_algorithm.rs:219-223 | the action picked is one of the policy's |
| CopilotAlgorithm.Recorded | copilot/obscuro_algorithm.rs:225 | only the trace's information set changes, by one recorded exploration |
| CopilotAlgorithm.ExploreNodeChoice | copilot/obscuro_algorithm.rs:202-226 | it panics exactly without actions; otherwise the action is the policy's exploration for the target player and its best action for others, and only that trace's set changes |
| CopilotAlgorithm.ExploreNodeCounts | copilot/obscuro_algorithm.rs:219-226 | the chosen action's exploration count grows by one and nothing else of that policy changes |
| CopilotAlgorithm.ChildIndex | copilot/obscuro_algorithm.rs:229-235 | the first child reached by the action, or the number of children when none is |
| CopilotAlgorithm.FindChild | copilot/obscuro_algorithm.rs:229-235 | the loop returns ChildIndex |
| CopilotAlgorithm.ChildrenFor | copilot/obscuro_algorithm.rs:259-265 | one child per action in order, each the new history of the game after it |
| CopilotAlgorithm.Expand | copilot/obscuro_algorithm.rs:194-282 | the grown history keeps its game; an Expanded node keeps its player, reach and number of children |
| CopilotAlgorithm.ExpandStops | copilot/obscuro_algorithm.rs:237-279 | a Terminal node, or an Expanded node whose action has no child, leaves the tree as it was; only the exploration is recorded |
| CopilotAlgorithm.ExpandVisited | copilot/obscuro_algorithm.rs:243-274 | a Visited node becomes Expanded with its game, the active player, an empty reach map and one fresh child per legal action, and its trace gets an information set |
| CopilotAlgorithm.ExpandGrows | copilot/obscuro_algorithm.rs:194-282 | a descent adds nothing, or one node per legal action of one game |
| CopilotAlgorithm.ExpandVisitedSize | copilot/obscuro_algorithm.rs:243-274 | expanding a Visited node adds one node per legal action |
| CopilotAlgorithm.ExpandDescends | copilot/obscuro_algorithm.rs:228-238 | when the action has a child, the descent continues in that child |
| CopilotAlgorithm.ExpandHistory | copilot/obscuro_algorithm.rs:194-282 | the loop down the tree computes Expand |
| CopilotAlgorithm.Expansion | copilot/obscuro_algorithm.rs:171-191 | the root and information sets stay valid |
| CopilotAlgorithm.RunExpansion | copilot/obscuro_algorithm.rs:171-191 | the sampled history grown in place computes Expansion |
| CopilotAlgorithm.ExpansionTouchesOne | copilot/obscuro_algorithm.rs:171-191 | without a sample nothing changes; otherwise only the sampled history changes, with the max-margin policy and number of histories kept |
| CopilotAlgorithm.CfrStepState | copilot/obscuro_algorithm.rs:285-300 | the iteration count grows by one exactly when there is a subgame, whose gadget count and player stay |
| CopilotAlgorithm.RunCfrStep | copilot/obscuro_algorithm.rs:285-300 | the two iterations in turn compute CfrStepState |
| CopilotAlgorithm.CfrStepTotals | copilot/obscuro_algorithm.rs:294-298 | the value is P1's total for P1, minus P2's total otherwise |
| CopilotAlgorithm.CfrStepLeaves | copilot/obscuro_algorithm.rs:290-291 | the step leaves the root and information sets of P2's iteration, run on what P1's left |
| CopilotAlgorithm.CfrStepValue | copilot/obscuro_algorithm.rs:285-300 | the value for P1 is P1's prior-weighted gain; for others minus P2's gain on P1's root |
| CopilotAlgorithm.SelectActionProperties | copilot/obscuro_algorithm.rs:303-334 | a known set gives its last action of maximal average probability, panicking exactly without actions; otherwise the first legal action of a new game, panicking exactly without one |
| CopilotAlgorithm.PolicyOf | copilot/obscuro_algorithm.rs:337-341 | some strategy exactly when the trace is known, with one entry per action |
| CopilotAlgorithm.PolicyOfIsDistribution | copilot/obscuro_algorithm.rs:337-341 | with actions and non-negative weights the policy is a distribution |
| CopilotAlgorithm.AllHistoriesCount | copilot/obscuro_algorithm.rs:368-372 | the saved tree holds as many histories as the gadgets |
| CopilotAlgorithm.AllHistoriesMembers | copilot/obscuro_algorithm.rs:368-372 | every gadget's history is in the saved tree, at its gadget's offset |
| CopilotAlgorithm.SavedTreeSize | copilot/safe_resolving.rs:188-190 | the saved tree holds `total_histories` histories |
| CopilotAlgorithm.Obscuro.constructor | copilot/obscuro_algorithm.rs:77-80 | the default configuration, no information sets or subgame, no iterations, the saved tree a new game's root |
| CopilotAlgorithm.Obscuro.WithConfig | copilot/obscuro_algorithm.rs:82-91 | the given configuration, no information sets or subgame, no iterations, the saved tree a new game's root |
| CopilotAlgorithm.Obscuro.ConstructSubgame | copilot/obscuro_algorithm.rs:152-168 | the saved tree is emptied and the subgame becomes the new root of the pruned tree's positions; nothing else changes |
| CopilotAlgorithm.Obscuro.ExpansionStep | copilot/obscuro_algorithm.rs:171-191 | without a subgame nothing changes; otherwise the solver takes Expansion's root and information sets, unless it panics, when nothing changes |
| CopilotAlgorithm.Obscuro.CfrStep | copilot/obscuro_algorithm.rs:285-300 | the solver's study state becomes CfrStepState of the old one; configuration and saved tree stay |
| CopilotAlgorithm.Obscuro.StudyRound | copilot/obscuro_algorithm.rs:123-140 | one expansion and the configured number of CFR steps: the iterations grow by that number with a subgame; `stop` exactly when the tree outgrows the limit |
| CopilotAlgorithm.Obscuro.SelectAction | copilot/obscuro_algorithm.rs:303-334 | the scan over the average strategy returns SelectActionOf |
| CopilotAlgorithm.Obscuro.SaveTree | copilot/obscuro_algorithm.rs:365-374 | with a subgame the saved tree becomes all gadgets' histories in order; without one it stays; nothing else changes |
| OldObscuro.Other | old/obscuro.rs:30-37 | P1 and P2 swap; the opponent's multiplier is the negation of the player's and neither is 0 (other seats panic) |
| OldObscuro.FromRewards | old/obscuro.rs:76-92 | the actions and the initial regrets are the rewards unzipped; expectations and expansions start at 0, every action is stable, `update` is 0, and the multiplier is +1, −1 or 0 by seat |
| OldObscuro.ExploitPolicy | old/obscuro.rs:135-138 | each regret over the regret sum, so the entries sum to 1 |
| OldObscuro.ExploitPolicyIsDistribution | old/obscuro.rs:135-138 | with non-negative regrets of positive sum the exploit policy is a distribution |
| OldObscuro.PExploit | old/obscuro.rs:148-152 | `p_exploit(a)` is the exploit policy's entry at a's position, in [0, 1] when the regrets are non-negative with positive sum |
| OldObscuro.Quality | old/obscuro.rs:95-101 | with no expansions the quality is the signed expectation; once any action is expanded it is strictly more |
| OldObscuro.QualityFavoursFewerExpansions | old/obscuro.rs:95-101 | of two actions with equal expectation, the one expanded less often has the higher quality |
| OldObscuro.Puct | old/obscuro.rs:102-109 | a distribution that is positive exactly at the last action of maximal quality (`max_by` keeps the last) |
| OldObscuro.MaxFollowsExploit | old/obscuro.rs:110-114 | `max` is positive exactly where the exploit policy is |
| OldObscuro.MaxSupport | old/obscuro.rs:110-114 | `max` is positive exactly at the regrets whose share of the sum is positive |
| OldObscuro.MaxIsDistribution | old/obscuro.rs:110-114 | uniform over the positive exploit entries and a distribution when there is one; all zeros when there is none |
| OldObscuro.ExplorationPolicyMass | old/obscuro.rs:115-121 | the average of PUCT and `max` is non-negative, gives the PUCT action at least 1/2, and sums to 1, or to 1/2 when no exploit entry is positive |
| OldObscuro.WithExpectation | old/obscuro.rs:141-143 | only a's expectation changes, to v |
| OldObscuro.WithExpansion | old/obscuro.rs:144-146 | only a's expansion count changes, by one |
| OldObscuro.ExpansionAddsOne | old/obscuro.rs:144-146 | each expansion adds one to the total under PUCT's square root |
| OldObscuro.Candidates | old/obscuro.rs:161-164 | an action is a candidate exactly when it is stable or has the best exploit probability; no action twice |
| OldObscuro.PurifiedSupportAsWritten | old/obscuro.rs:160-170 | the first MAX_SUPPORT candidates in ascending order of exploit probability |
| OldObscuro.PurifiedAsWrittenMissesBest | old/obscuro.rs:160-170 | with more than MAX_SUPPORT candidates and a strictly best action, the ascending sort leaves the best action out of the support |
| OldObscuro.PurifiedSupportHasBest | old/obscuro.rs:160-170 | the intended descending support is non-empty and starts with an action of maximal exploit probability |
| OldObscuro.Resolver | old/obscuro.rs:232-234 | SKIP with the alternative value as its regret and ENTER with 0, for the opponent's multiplier |
| OldObscuro.SubgameRoot | old/obscuro.rs:209-240 | a root over the entry indices with the entries' probabilities as regrets and the player's multiplier; per entry a chance policy over its histories with their reaches, the resolver, and the prior as written |
| OldObscuro.PriorsAsWrittenSum | old/obscuro.rs:210-235 | with m counting histories, the priors sum to (1 + entries/m)/2 |
| OldObscuro.PriorsAsWrittenSumToOne | old/obscuro.rs:210-235 | the priors sum to 1 exactly when every entry holds one history |
| OldObscuro.PriorsAsWrittenTwoHistories | old/obscuro.rs:210-235 | one entry with two histories of reach 1/2: the priors sum to 3/4 |
| OldObscuro.IntendedPriorsSum | old/obscuro.rs:210-235 | with m the number of entries the priors sum to 1, and form a distribution when the reaches are non-negative |
| OldObscuro.GetPmax | old/obscuro.rs:413-421 | at least every gadget's ENTER probability and equal to one of them; 0 with no gadget |
| OldObscuro.EnterProbs | old/obscuro.rs:413-421 | gadget g's ENTER probability under its resolver's exploit policy |
| OldObscuro.FreshPmaxZero | old/obscuro.rs:413-421 | on a fresh subgame root whose alternatives are nonzero, p_max is 0 |
| OldObscuro.FreshResolverSkips | old/obscuro.rs:232-234 | a fresh resolver with a nonzero alternative enters with probability 0 |
| OldObscuro.BlendRoot | old/obscuro.rs:436-446 | only the root's expectations change; entry g becomes p_max·prior·p_enter + (1 − p_max)·p_root of gadget g |
| OldObscuro.BlendsBounds | old/obscuro.rs:440-444 | each blend is a probability when p_max, the priors and the policies are |
| OldObscuro.BlendsWithoutPmax | old/obscuro.rs:440-444 | with p_max 0 the blends are the root's exploit policy |
| OldObscuro.FreshBlendIsExploit | old/obscuro.rs:425-446 | on a fresh subgame root the blends are the normalised entry probabilities |
| OldObscuro.ChildFor | old/obscuro.rs:527-530 | the first child reached by the action |
| OldObscuro.Step | old/obscuro.rs:519-530 | one turn of the loop: the pick's expansion is counted in the node's infoset and no other, then the walk moves to the pick's child |
| OldObscuro.Walk | old/obscuro.rs:518-531 | the walk stops at a node that is not Expanded, with the same infoset keys |
| OldObscuro.WalkFrame | old/obscuro.rs:518-531 | only expansion counts change, and only in infosets on the path |
| OldObscuro.WalkCounts | old/obscuro.rs:518-531 | each infoset's total expansions grow by the number of times the path passes through it |
| OldObscuro.ExpansionStep | old/obscuro.rs:518-537 | the loop computes Walk |
| PyHistory.CurrentPlayer | old/obscuro.py:65-66 | P1, then P2, then the terminal seat; terminal exactly after two moves |
| PyHistory.EvaluateRules | old/obscuro.py:81-89 | P1 gains exactly when its move beats P2's, 0 exactly on a draw, swapping the moves negates the payoff, and ±5 exactly for rock against scissors |
| PyHistory.RpsUnitTests | old/obscuro.py:611-619 | the six assertions of the unit tests hold |
| PyHistory.ObsOf | old/obscuro.py:74-75 | P1 and P2 have an observation and no other seat does |
| PyHistory.History | old/obscuro.py:245-254 | the loop up the parents, then the reversal, computes the observation history from the root |
| PyHistory.ObsHistoryShape | old/obscuro.py:245-254 | one observation per node from the root to the node, each the player's observation there |
| PyHistory.P2SeesOnlyDepth | old/obscuro.py:74-75 | two positions look the same to P2 exactly when they have the same depth |
| PyHistory.P1SeesPath | old/obscuro.py:74-75 | two positions look the same to P1 exactly when their move sequences are equal |
| PyHistory.AtOrAbove | old/obscuro.py:275-281 | `h <= o` exactly when h is o or one of its ancestors |
| PyHistory.AboveAsWrittenSymmetric | old/obscuro.py:284 | as written, two siblings are each `>` the other |
| PyHistory.AboveIsStrict | old/obscuro.py:282-284 | the intended `>` (the mirror of `<`) is asymmetric and transitive |
| PyHistory.Fresh | old/obscuro.py:202-210 | TERMINAL exactly when the game is over, NEW when not over and with a parent, VISITED at the root; no children, no infoset, reach 1 for both players |
| PyHistory.Size | old/obscuro.py:285 | at least 1, and 1 for a node without children |
| PyHistory.ChildSmaller | old/obscuro.py:285 | a child is smaller than its parent |
| PyHistory.NewInfo | old/obscuro.py:287-298 | one known history, the node's player and reach, not visited; the policy's rewards are the children's payoffs and its multiplier is ±1 by player |
| PyHistory.AddHistory | old/obscuro.py:328-334 | each player's reach grows by the history's, the history is appended, nothing else changes |
| PyHistory.Kids | old/obscuro.py:231-236 | one fresh child per available move, in order |
| PyHistory.Expand | old/obscuro.py:228-243 | the method computes ExpandSpec |
| PyHistory.ExpandProperties | old/obscuro.py:228-243 | the node becomes EXPANDED with one child per move (NEW after one move, TERMINAL after two); it joins the infoset under its observation history as the last known history, a new one if there was none; no other infoset changes; a leaf grows from size 1 to 4 |
| PyHistory.SiblingsShareInfo | old/obscuro.py:237-242 | expanding two different first moves puts both in one P2 infoset whose reach is their sum |
| PyHistory.WithReach | old/obscuro.py:542 | sets the reach of the player to move and no other |
| PyHistory.Utilities | old/obscuro.py:524-547 | a NEW node becomes VISITED and other statuses stay; apart from its status, reach and children the node is unchanged; the infosets' regrets are untouched |
| PyHistory.UtilitiesIsExpected | old/obscuro.py:524-547 | with non-negative exploit probabilities the value returned is the expected payoff of the tree under the exploit policies |
| PyHistory.VisitIsExpected | old/obscuro.py:537-545 | the value of a child the loop walks into is its expected payoff |
| PyHistory.UtilitiesFrom | old/obscuro.py:537-546 | the loop leaves the regrets untouched and keeps one child per child |
| PyObscuro.Margin | old/obscuro.py:349 | max(0, child's expectation − node's expectation): non-negative, at least the difference, and equal to one of the two |
| PyObscuro.GiftOf | old/obscuro.py:345-350 | the loop computes Gift |
| PyObscuro.AddChildGift | old/obscuro.py:347-349 | one turn adds the child's gift and its margin |
| PyObscuro.GiftNonNegative | old/obscuro.py:345-350 | a gift is never negative |
| PyObscuro.GiftCoversChild | old/obscuro.py:345-350 | a gift is at least each child's gift plus that child's gain over the node |
| PyObscuro.Alternative | old/obscuro.py:462-463 | the alternative value, expectation minus gift, is at most the expectation |
| PyObscuro.Filter | old/obscuro.py:310-326 | the method computes Filtered |
| PyObscuro.FilterSound | old/obscuro.py:310-326 | a returned infoset lies in the tree and has the target sequence |
| PyObscuro.FilterComplete | old/obscuro.py:310-326 | in a tree whose sequences extend their parents', an infoset is found exactly when the tree holds one with the target sequence |
| PyObscuro.SampleHistory | old/obscuro.py:336-342 | with zero total reach nothing is returned (the division raises); otherwise the first history whose cumulative share reaches the threshold; for a threshold at most 1 and the true total one is always found |
| PyObscuro.Priors | old/obscuro.py:476-480 | defined exactly when there are no entries or their net reach is nonzero; then each prior is the average of the reach share and 1/m |
| OldObscuro.PriorsOfSum | old/obscuro.py:476-480 | those priors sum to 1, and form a distribution when the reaches are non-negative |
| PyObscuro.PMax | old/obscuro.py:444 | none without resolvers, else a value at least every ENTER probability and equal to one of them |
| PyObscuro.PMaxAgrees | old/obscuro.py:444 | the same as `get_pmax` of old/obscuro.rs when there are resolvers |
| PyObscuro.MoveMode | old/obscuro.py:444-447 | purified play exactly when some resolver enters with positive probability, exploit play when there are resolvers and none does; `max` of nothing raises |
| PyObscuro.FreshResolverEnter | old/obscuro.py:463-464 | a fresh resolver enters with probability 0, or 1/2 when the alternative is 0 |
| PyObscuro.RootRegrets | old/obscuro.py:495-503 | the root's regrets become the blends and the net regret their sum |
| PyObscuro.BlendedBounds | old/obscuro.py:496-502 | each blend is a probability when p_max, the priors and the policies are |
| PyObscuro.BlendedWithoutPmax | old/obscuro.py:496-502 | with p_max 0 the blends are the root's exploit probabilities |
| PyObscuro.BlendedFullPmax | old/obscuro.py:496-502 | with p_max 1 each blend is prior·p_resolve and the total is at most the priors' sum |
| SingleObscuro.PlayAdvancesTrace | src/obscuro/old/obscuro_single.rs:801-835 | the available actions depend only on the trace; a move in a game not over advances the trace by one |
| SingleObscuro.EvaluateRules | src/obscuro/old/obscuro_single.rs:841-858 | swapping the moves negates the payoff, 0 exactly on a draw, positive exactly when P1's move wins, ±5 exactly when the winner played rock; 0 while a move is missing |
| SingleObscuro.SamplePositions | src/obscuro/old/obscuro_single.rs:860-876 | the loop produces 256 positions, position i being the i-th of the fixed sampling pattern, each reachable |
| SingleObscuro.LateSamplesAfterP1 | src/obscuro/old/obscuro_single.rs:860-876 | positions 64 to 255 all sit after P1's move, with P2 to move and payoff 0 |
| SingleObscuro.NewInfo | src/obscuro/old/obscuro_single.rs:242-255 | a fresh policy over the actions with multiplier ±1 by player, the trace and player given, no reach, not visited, no cached gift, and no successor, pointer or alternative per action |
| SingleObscuro.AddHistory | src/obscuro/old/obscuro_single.rs:296-307 | the infoset is marked visited and each player's reach grows by the history's; nothing else changes |
| SingleObscuro.ReachAccumulates | src/obscuro/old/obscuro_single.rs:296-307 | two additions add both histories' reaches, and non-negative reaches never shrink the total |
| SingleObscuro.GiftFrom | src/obscuro/old/obscuro_single.rs:272-294 | the gift of a linked infoset is non-negative, and the infoset is in the seen set afterwards |
| SingleObscuro.GiftScan | src/obscuro/old/obscuro_single.rs:278-292 | the loop over successors never lowers the running total and only adds to the seen set |
| SingleObscuro.GiftInner | src/obscuro/old/obscuro_single.rs:272-294 | the method computes GiftFrom |
| SingleObscuro.Gift | src/obscuro/old/obscuro_single.rs:264-270 | a cached gift is returned as it is; otherwise the gift is computed from an empty seen set and cached, and nothing else in the store changes |
| SingleObscuro.GiftCached | src/obscuro/old/obscuro_single.rs:264-270 | asking twice gives the same gift and store; with non-negative caches the gift is non-negative |
| SingleObscuro.Kids | src/obscuro/old/obscuro_single.rs:415-423 | one New child per available action, in order |
| SingleObscuro.SuccTraces | src/obscuro/old/obscuro_single.rs:415-421 | entry i is the trace after action i |
| SingleObscuro.SuccPtrs | src/obscuro/old/obscuro_single.rs:415-421 | entry i links the successor's infoset exactly when the store already holds it |
| SingleObscuro.SuccAlts | src/obscuro/old/obscuro_single.rs:415-421 | entry i is the payoff after action i |
| SingleObscuro.Expand | src/obscuro/old/obscuro_single.rs:404-446 | the method computes Expansion |
| SingleObscuro.ExpandProperties | src/obscuro/old/obscuro_single.rs:404-446 | only a Visited node changes: it becomes Expanded with one New child per available action, pointing at the infoset of its trace; that infoset is kept if present, else created with a fresh policy; its successor pointers are set exactly for successors already in the store; no other infoset changes and the store stays linked |
| SingleObscuro.SubgameRootFrom | src/obscuro/old/obscuro_single.rs:448-472 | the loop over the entries computes RootOf |
| SingleObscuro.FreshPExploit | src/obscuro/old/obscuro_single.rs:448-472 | a policy whose regrets all sit at the floor plays uniformly |
| SingleObscuro.GadgetProperties | src/obscuro/old/obscuro_single.rs:455-469 | a gadget keeps the entry's alternative, has prior 1, a resolver with expectations [alt, 0] for the opponent that enters with probability 1/2, and a chance policy uniform over its histories |
| SingleObscuro.RootProperties | src/obscuro/old/obscuro_single.rs:448-472 | one gadget per entry, in order, each chosen with probability 1/entries |
| SingleObscuro.EnterProbs | src/obscuro/old/obscuro_single.rs:503-512 | each gadget's ENTER probability, a probability |
| SingleObscuro.GetPmaxBounds | src/obscuro/old/obscuro_single.rs:503-512 | p_max is a probability; 0 without a subgame root; otherwise at least every gadget's ENTER probability and either 0 or one of them |
| SingleObscuro.FreshPmax | src/obscuro/old/obscuro_single.rs:503-512 | on a fresh subgame root p_max is 1/2 |
| SingleObscuro.CollectMatching | src/obscuro/old/obscuro_single.rs:522-546 | the recursion appends Matching to the output |
| SingleObscuro.CollectMoves | src/obscuro/old/obscuro_single.rs:536-538 | the loop over an Expanded node's children appends their matches |
| SingleObscuro.CollectChildren | src/obscuro/old/obscuro_single.rs:540-544 | the loop over a gadget's or root's children appends their matches |
| SingleObscuro.MatchingSound | src/obscuro/old/obscuro_single.rs:522-546 | every match has the wanted trace and occurs in the tree (a New or Visited match as a Visited copy of a node there) |
| SingleObscuro.MatchingComplete | src/obscuro/old/obscuro_single.rs:522-546 | every Expanded node of the wanted trace is collected, and every New or Visited one as a Visited copy |
| SingleObscuro.Upsert | src/obscuro/old/obscuro_single.rs:572-574 | one history more, and no history from elsewhere; the first insert makes a new entry, and a later one with the same trace joins it |
| SingleObscuro.SeedJ0 | src/obscuro/old/obscuro_single.rs:556-575 | one entry per kept (New, Visited or Expanded) history, drawn only from the matches; the store changes only in cached gifts |
| SingleObscuro.KeptAll | src/obscuro/old/obscuro_single.rs:557-565 | when every match is Visited or Expanded, all are kept |
| SingleObscuro.Pad | src/obscuro/old/obscuro_single.rs:577-588 | the histories number max(matches, 64); with no match, one entry of alternative 0 holding 64 New positions after P1's move |
| SingleObscuro.ConstructSubgame | src/obscuro/old/obscuro_single.rs:548-590 | a subgame root over max(matches, 64) histories whose store changes only in cached gifts; with no match, one gadget of alternative 0 over 64 New positions |
| SingleObscuro.Record | src/obscuro/old/obscuro_single.rs:257-260 | only the named infoset's policy changes, and the store keeps its keys |
| SingleObscuro.Resolve | src/obscuro/old/obscuro_single.rs:631-635 | the resolver's expectations become [alt, enter value]; the value is (1 − p_enter)·alt + p_enter·enter value and lies between them |
| SingleObscuro.Utilities | src/obscuro/old/obscuro_single.rs:593-656 | a Terminal node gives its payoff, a New or Visited one 0, both unchanged; other nodes keep their kind, labels and shape; a gadget's value lies between its alternative and its ENTER value; only policies in the store change |
| SingleObscuro.ExpandedUtilities | src/obscuro/old/obscuro_single.rs:607-619 | an Expanded node keeps its pointer, reach, player and action labels |
| SingleObscuro.GadgetUtilities | src/obscuro/old/obscuro_single.rs:621-636 | a gadget keeps its infoset, alternative and prior, and its value lies between its alternative and its ENTER value |
| SingleObscuro.RootUtilities | src/obscuro/old/obscuro_single.rs:638-654 | the subgame root keeps its actions and child labels |
| SingleObscuro.MovesFrom | src/obscuro/old/obscuro_single.rs:609-616 | the loop keeps each child's action label and walkability; only policies change |
| SingleObscuro.ChildrenFrom | src/obscuro/old/obscuro_single.rs:621-651 | the loop keeps the child labels; only the infoset's expectations change, and a gadget's chance infoset not at all |
| SingleValues.UtilitiesBounded | src/obscuro/old/obscuro_single.rs:593-656 | with every terminal payoff and gadget alternative in [lo, hi], lo ≤ 0 ≤ hi, distinct labels under every node and no Expanded node below an Expanded node pointing at its set, the value lies in [lo, hi]; an Expanded node's set and the subgame root's policy hold afterwards only their old expectations or values in [lo, hi] |
| SingleValues.ExpandedBounded | src/obscuro/old/obscuro_single.rs:607-619 | under the same conditions the Expanded arm's value Σ p·v over the followed moves lies in [lo, hi], and the expectations `add_counterfactuals` records at the node's set are kept or lie in [lo, hi] |
| SingleValues.GadgetBounded | src/obscuro/old/obscuro_single.rs:621-636 | under the same conditions the gadget's ENTER value, recorded as the resolver's ENTER expectation, and the mixed value it returns both lie in [lo, hi] |
| SingleValues.RootBounded | src/obscuro/old/obscuro_single.rs:638-654 | under the same conditions the subgame root's value lies in [lo, hi] and each expectation it records for a child is kept or lies in [lo, hi] |
| SingleValues.MovesFromBounded | src/obscuro/old/obscuro_single.rs:609-616 | from move k on, the moves loop adds to `local` a value between Σ p_j·lo and Σ p_j·hi over the moves left (p_j the exploit probability of move j's action), and records only values in [lo, hi] at the node's set |
| SingleValues.FollowMoveBounded | src/obscuro/old/obscuro_single.rs:611-615 | a followed move keeps that invariant: its child's value in [lo, hi], weighted by p, joins `local` |
| SingleValues.AfterMoveBounded | src/obscuro/old/obscuro_single.rs:614-615 | recording the child's value at the node's set keeps the moves loop's invariant for the moves after it |
| SingleValues.ChildrenFromBounded | src/obscuro/old/obscuro_single.rs:624-651 | from child k on, the gadget's or root's children loop adds to the running value a value between Σ p_j·lo and Σ p_j·hi over the children left, and records only values in [lo, hi] |
| SingleValues.ChildFollowedBounded | src/obscuro/old/obscuro_single.rs:626-629 | a child of positive exploit probability keeps the children loop's invariant |
| SingleValues.ChildSkippedBounded | src/obscuro/old/obscuro_single.rs:626-629 | a child of exploit probability 0 adds nothing and keeps the children loop's invariant |
| SingleValues.FollowChildBounded | src/obscuro/old/obscuro_single.rs:642-650 | a followed child's value in [lo, hi], weighted by p, joins the running value, and the root records it at the child's index |
| SingleValues.MassAtMostOne | src/obscuro/old/obscuro_single.rs:610 | the exploit probabilities of distinct actions of a valid policy add up to a value in [0, 1] |
| SingleValues.SpreadUnit | src/obscuro/old/obscuro_single.rs:609-616 | a total between Σ p_j·lo and Σ p_j·hi over distinct labels lies in [lo, hi] when lo ≤ 0 ≤ hi |
| SingleValues.UtilitiesFrame | src/obscuro/old/obscuro_single.rs:593-656 | `make_utilities` leaves every set no Expanded node of the tree points at exactly as it was |
| Mixing.MixBetween | src/obscuro/old/obscuro_single.rs:635 | (1 − p)·a + p·b for p in [0, 1] lies between a and b |
| SingleObscuro.RootProbs | src/obscuro/old/obscuro_single.rs:667-668 | entry i is the root policy's probability of child i |
| SingleObscuro.FindIndex | src/obscuro/old/obscuro_single.rs:676 | the first child with the chosen index, or the end when none |
| SingleObscuro.FirstExpanded | src/obscuro/old/obscuro_single.rs:677-683 | the first Expanded child, or the end when none |
| SingleObscuro.Purify | src/obscuro/old/obscuro_single.rs:680 | panics exactly when the policy has no actions; otherwise an action of the purified support |
| SingleObscuro.ChooseIn | src/obscuro/old/obscuro_single.rs:676-685 | no choice exactly when the gadget has no Expanded child |
| SingleObscuro.ChooseInGadget | src/obscuro/old/obscuro_single.rs:676-685 | the method computes ChooseIn |
| SingleObscuro.BestIndex | src/obscuro/old/obscuro_single.rs:666-674 | none exactly when the root has no child; otherwise the index of the first child of maximal probability |
| SingleObscuro.FindChild | src/obscuro/old/obscuro_single.rs:676 | the loop computes FindIndex |
| SingleObscuro.ChooseActionFromRoot | src/obscuro/old/obscuro_single.rs:658-688 | the method computes Choose |
| SingleObscuro.NoExpandedNoChoice | src/obscuro/old/obscuro_single.rs:658-688 | on a fresh subgame root, whose gadgets hold no Expanded history, no action is chosen |

## Left out

- Floating point: NaN and infinity tests (`is_finite`) and `unwrap_or(Ordering::Equal)` in float comparisons vanish once values are reals.
- Logarithms and square roots in exploration scores are inputs, not computed.
- PyPolicy.Policy.Explore, PyPolicy.Policy.Purified: these use the intended PUCT, `_max` and descending purification order; the code as written is modelled by PuctAsWritten, MaxAsWritten and PurifiedSupportAsWritten.
- PyPolicy: Python sets iterate in hash order; the model takes insertion order, which only changes tie-breaking among equal exploit probabilities.
- CfrPolicy.Policy.AddCounterfactual: the debug assertion that chance never records a counterfactual is not a precondition; the model accepts any player, as a release build does.
- CfrPolicy.Updated: `update` subtracts the first-update iteration from the current one in unsigned arithmetic; the model assumes the iteration numbers only grow and does not model the underflow panic when they do not.
- CfrPolicy: the `!sum.is_finite()` fallback of the instantaneous policy is part of the floating-point item above; the `thread_rng` draws of `explore`, `exploit` and `purified` and the ln/sqrt exploration root are arguments.
- Connect4.Evaluate: `heuristic` as written sums the raw cell counts and never reads the weights in HEURISTIC_MAP; the model follows the code and keeps the map only for the bound `NormIsMapSum`.
- Connect4.Compare: the trace order reads cells through the same 7-bit layout as `won`, like the rest of the model proper.
- Connect4: `cell` and `play` as written use 6 bits per column; only `PlayAsWritten` keeps that layout (see Findings).
- Go: `legal_moves_exist` is never called and is not modelled; `available_actions` does not test `is_over` in the source and the model follows it.
- Go.Play, Othello.PlayOf: coordinates outside the board panic on the source's array indexing, so the model requires them in range; the debug assertions inside `play_place` and Othello's `play` are not preconditions.
- Go: neighbour and group sets are Rust `HashSet`s; the model uses Dafny sets, so iteration order does not appear.
- Othello.OpeningMovesLegal: proves the four standard opening moves legal, not that they are the only legal ones.
- LiarsDie: the neural-network evaluation in the source is commented out and is not modelled; random hands are arguments.
- Rps.EncodeFeatures: the tensor encoding is a sequence of reals; the tensor library is not modelled.
- TwoSpies, Akq, Poker.Evaluate: random deals and the fair coin are arguments.
- Poker: the round counter is a `u8` in the source; the model uses an unbounded number and does not model overflow after 255 rounds.
- SolverTree, Subgame, SubgameSolve: trees are values. `Rc<RefCell<Info>>` sharing becomes an infoset map keyed by trace, and every operation returns the new tree and map instead of updating them through references; aliasing between a node and the map is not modelled.
- Subgame: Rust `HashMap`s iterate in hash order; the model keeps groups in first-insertion order, which only changes the order of the gadgets.
- Subgame.Pad: `G::sample_position` is an iterator the model takes as a finite sequence of sampled states.
- Subgame.ConstructSubgame: builds the corrected root policy and groups by the opponent's view (see Findings); the `println!` and `debug_assert!` lines are left out.
- SubgameSolve.CfrIterations: the resolver and root-policy updates are commented out in the source and are not modelled; `p_enter` is the constant 1 there (the computed `_p_enter` is unused), and the model does the same.
- SubgameSolve.SolveStep: the blends are returned; the source computes them and drops them, since the counterfactual they feed is commented out.
- SubgameSolve.ExpansionStepInner: the loop that walks down by a mutable reference becomes recursion that rebuilds the path; the model does not prove that the infosets stay consistent with the tree after the expansion, so a CFR pass after an expansion step is not composed.
- SubgameSolve.SampleHistory: the `WeightedIndex` draw is a uniform number u in [0, 1) passed in, and the explore/exploit draws of the descent are a sequence of `Draw` values.
- SolverTree.FullExpand: recursion through the children is bounded by a fuel argument; a tree deeper than the fuel stays partly unexpanded.
- SolverTree.Info.Gift: `gift_inner` returns 0 in the source and so does the model.
- `make_move` (src/obscuro.rs:405-441) is not modelled as one operation: its loop runs until a wall-clock deadline and prints debug output; its parts are ConstructSubgame, FullExpand, SolveStep and ChooseActionFromRoot. The fallback that scans the infoset map is left out, since `choose_action_from_root` either returns an action or panics.
- `Obscuro::default` (src/obscuro.rs:88-118) is not modelled: it builds a placeholder root that `construct_subgame` replaces before any use.
- `debug`, `print`, `print_family` and timing are left out.
- ModularSolver: `History::reach_prob` (src/obscuro/history.rs:119-121) is `todo!()`, so the reach probability of a history is a function argument `rp`; the `reach_prob` argument of `make_utilities_hist` is never read and is left out.
- ModularSolver: the infosets are a map keyed by trace and every operation returns the new map; the `Rc<RefCell<Info>>` sharing between nodes is not modelled, and a gadget's chance infoset is a value owned by the gadget.
- ModularSolver.Covered, ModularSolver.GroupBy: follow `k_cover` and the fold as written, keyed by `history.trace()`; the opponent's view of an Expanded history is not available in src/obscuro/history.rs, so no opponent-keyed form is stated (the same defect in src/obscuro.rs is under Findings); CoveredOneGroup shows the consequence.
- ModularSolver.ConstructSubgame: builds the corrected root policy and pads under the corrected guard (see Findings); `G::sample_position` is taken as a finite sequence of states; the order of the `HashMap` of groups becomes first-insertion order.
- ModularSolver: `choose_action_from_root` and `History::compare` are `todo!()` or constant and `expansion_step` is empty, so none is modelled; `History::expand` (src/obscuro/history.rs:75-117) is not part of this model, and `make_move` (src/obscuro/obscuro.rs:345) is left out for the same reasons as in src/obscuro.rs: a wall-clock loop and debug output. The `start_time` field is left out.
- ModularSolver.DefaultSolver: the initial player must not be the chance player, since `best_value` panics for it.
- CopilotCore.NewPolicy, CopilotCore.NewInfoSet, CopilotCore.Policy.constructor, CopilotCfr.InfoSetFor: a policy's action list must hold distinct actions, and a game's legal actions must be distinct (`DistinctLegal`); the source keeps per-action numbers in `HashMap`s keyed by action, so a repeated action would share one entry while the action vector lists it twice, a case the model does not follow.
- CopilotCore, CopilotResolving, CopilotCfr, CopilotAlgorithm: the `HashMap`s keyed by action become sequences indexed by the action's position; `max_by` over them returns the last maximal action, as the model's last argmax does. The `ln` of the exploration bonus is an argument.
- CopilotCfr, CopilotAlgorithm: information sets are values in a map keyed by trace; the `Rc<RefCell<InfoSet>>` sharing and the `borrow_mut` guard are not modelled, and every traversal returns the new tree and map instead of writing through references.
- CopilotSubgame: `HashMap` and `HashSet` iteration order becomes first-insertion order for the groups and set order for the search traces; `G::sample_positions` is a finite sequence of sampled games, so a sampler that never ends while yielding only known games (on which the source loops forever) is not modelled.
- CopilotSubgame.SampleAdditionalPositions, CopilotSubgame.ConstructSubgame, CopilotSubgame.ConstructSubgameSampled: follow the intended skipping of games already added (see Findings); the code as written is SampleAdditionalAsWritten.
- CopilotCfr.CfrIterationOf, CopilotAlgorithm.CfrStepState: `p_enter` is the constant 1, as in the source; the computed `prob_enter` is not used there.
- CopilotAlgorithm.Obscuro.StudyRound: `study_position` loops until a wall-clock budget runs out and prints progress; the model states one round of its loop (an expansion step, the configured CFR steps, the tree-size test), and the `construct_subgame` call before the loop is Obscuro.ConstructSubgame.
- CopilotAlgorithm.Obscuro.ExpansionStep: a panic of `select_exploration`/`best_action` on a node whose policy has no actions becomes `ok == false`, and `select_action`'s panic becomes `None`.
- CopilotAlgorithm: `make_move` (copilot/obscuro_algorithm.rs:94-100) is `study_position` followed by `select_action`, whose parts are modelled; `get_expected_value`, `get_stats`, `SearchStats` and its `Display` only read fields or format text and are left out.
- SolverTree.ExpandSpec, SolverTree.Expand, Connect4.Play: two `debug_assert!`s become preconditions: `ChildEvaluationsInRange`, the [−5, 5] range that `from_rewards` (src/policy.rs) asserts of a new infoset's rewards, and a column with room in Connect4; a release build drops both checks, but the callers only pass evaluations in range and available actions, so no behaviour the model leaves out is reached.
- OldObscuro: `sample_policy`, `explore`, `exploit` and the draw at the end of `purified` use `thread_rng`; the model states the distributions they draw from (ExplorationPolicy, ExploitPolicy, PurifiedSupport), not the draw.
- OldObscuro: `Policy::update`, `Info::update`, `Info::add_history`, `Obscuro::filter`, `Obscuro::policy` and `info_closure` are `todo!()` in old/obscuro.rs, and `History::expand` reaches `unreachable!()` through `trace()` on the Visited node it is given; so `make_utilities` (which updates every Expanded node's infoset), `cfr_iterations`, `construct_subgame`, `make_move` and the final `expand` of `expansion_step` cannot complete and are not modelled. `visit`, `payoff`, `trace`, `player`, `get_reach`, the reach helpers, `Info::from_first_history`, `Info::gift` (a constant 0), `sample_history`, `check_info_life` and the thread and loop drivers are left out with them.
- OldObscuro.SubgameRoot: the entries of the `HashMap` passed to `subgame_root` are a sequence in iteration order, and each history is represented by its reach for the player.
- OldObscuro.ExpansionStep: the explore and exploit draws are a sequence of picked actions passed in.
- PyHistory: the game is the prototype's own rock-paper-scissors; `Game.filter` and `possible_positions`, `encode`/`decode`, `get_info`, `Info._populate_observations`, `Info.play`, the reach helpers and `Player.mult`/`__invert__` are not modelled as operations; reaches are a record per node and infoset.
- PyHistory.Utilities: the optimising player's own choice points are walked into even at probability 0 and the others only at positive probability, as in the source; the counterfactual sums written into `expectations` are not stated, only that the regrets stay as they were.
- PyObscuro: the infoset tree that `Info.children` derives from the known histories is given directly as an `InfoTree` value; `Info.create_subgame`'s rewiring of histories under a new root (old/obscuro.py:384-410) is not modelled, and its priors are the same formula as `construct_subgame`'s (PyObscuro.Priors).
- PyObscuro.SampleHistory: `random.random()` is the threshold argument; the unreachable `random.choice` after the `raise` is left out.
- PyObscuro: `construct_subgame`'s filtering of `positions` and its padding loop (a `random.choice` over positions, with the alternative `min(expectation, evaluate)`), `info_closure`, `cfr_iteration` (the root adjustment and the `aux` pass that updates visited infosets and clears their expectations), the `expansion_step` loop and the threads, timers and module-level driver are not modelled. In `expansion_step`, `here.player == player` compares a bound method with a player, so the walk always exploits; the walk itself is that of OldObscuro.Walk.
- SingleObscuro: `Rc<RefCell<Info>>` pointers are keys into a store of infosets, and `HashMap`s iterate in first-insertion order; the `j0` map of `construct_subgame` keeps its entries in that order.
- SingleObscuro.Utilities: make_utilities returns the new tree and store instead of writing through references; a New node's value is 0 and it stays New, since the source converts only a local copy. The value of an Expanded, gadget or root node is bounded by SingleValues.UtilitiesBounded, not stated as a closed expected value of the tree.
- SingleObscuro.ExpandedUtilities: its contract states labels, shape and that only policies change; the value Σ p·v and the expectations recorded at the node's set are bounded by SingleValues.ExpandedBounded (kept or in [lo, hi] when payoffs and alternatives lie in [lo, hi] around 0, labels are distinct and no Expanded node below points at the same set), not stated as a closed sum.
- SingleObscuro.GadgetUtilities: beyond its contract, the ENTER value and the returned value are bounded by SingleValues.GadgetBounded under the same conditions, not stated as a closed sum.
- SingleObscuro.RootUtilities: its contract states labels and shape; the value and the expectations it records are bounded by SingleValues.RootBounded under the same conditions, not stated as a closed sum.
- SingleObscuro.MovesFrom: its contract states labels, walkability and that only policies change; the running value and the recorded expectations are bounded by SingleValues.MovesFromBounded under the same conditions, not stated as a closed sum.
- SingleObscuro.ChildrenFrom: its contract states labels and which expectations change; the running value and the recorded expectations are bounded by SingleValues.ChildrenFromBounded under the same conditions, not stated as a closed sum.
- SingleObscuro: `make_move` (src/obscuro/old/obscuro_single.rs:690-744) runs a wall-clock loop with debug output and is not modelled, and `info_closure` (746-757) returns the trace, player and expectation of every stored infoset and is not modelled.
- SingleObscuro.Purify: the `thread_rng` draw of `purified` is the pick argument; the panic of `p_exploit` on an unknown action is excluded by the walkability invariant.
- SingleObscuro.PlayAdvancesTrace: the demo's `trace` ignores the player, as in the source.
- deprecated/chat.rs: its `Info`, `History` and `Obscuro` (lines 218-742) are the code of the single-file solver except that `make_move` differs (not modelled here) and the SubgameRoot arm of `make_utilities` (deprecated/chat.rs:639-641) indexes `expectations` without the bounds test, so it panics where the single-file solver skips; SingleObscuro follows the single-file solver.
- copilot/cfr_plus.rs: `PredictiveCFR` and `compute_exploitability` (lines 230-268) are placeholders that return their input or 0 and are not modelled.
- copilot/example.rs (a rock-paper-scissors demo with a `main`) and the test module of copilot/lib.rs are not part of this model; the tests are cited as evidence for the Players rows.

## Findings

| source | as written | input that shows it | evidently intended | confidence | as-written member | corrected member |
|---|---|---|---|---|---|---|
| old/obscuro.py:124-128 | `x[np.argmax(quality)] = 1` stores the one-hot under an integer key, not the action | any action set; every action key keeps 0 | one-hot at the action of best quality | high, not executed | PyPolicy.PuctAsWrittenLosesOneHot | PyPolicy.PuctIsDistribution |
| old/obscuro.py:130-133 | `_max` gives 1/support to every action (marked FIXME) | exploit weights [0.5, 0.5, 0]: total 1.5 | uniform over the support, 0 elsewhere | high, not executed | PyPolicy.MaxAsWrittenOverweights | PyPolicy.MaxIsDistribution |
| old/obscuro.py:192 | support is the first MAX_SUPPORT actions in ascending order of p_exploit | regrets [0, 1, 2, 3]: the support is {0, 1, 2} and leaves out the best action 3 | the MAX_SUPPORT most likely actions | medium, not executed | PyPolicy.PurifiedSupportAsWrittenMissesBest | PyPolicy.PurifiedSupportContainsBest |
| src/games/AKQ.rs:66-85 | the partial order on public states puts Predeal and Postdeal before everything, even before each other, and lists `(BetCall, BetCall)` where `(BetCall, Bet)` is meant | Predeal vs Postdeal: Less both ways; Bet vs BetCall is Less but BetCall vs Bet is None | an antisymmetric order: each state after the states it extends | high, not executed | Akq.PublicCompareAsWrittenInconsistent | Akq.PublicCompareAntisymmetric |
| src/games/perfect_info/connect4.rs:210-212 | `sum & 2 == 0` tests bit 1 of the stone count | after the first stone the count is 1 and P1 is to move again | the parity `sum % 2 == 0` | high, not executed | Connect4.ActivePlayerAsWrittenRepeats | Connect4.ActivePlayerAlternates |
| src/games/perfect_info/connect4.rs:218-226 | `play` sets bit height + 6·col while `won` shifts by 1, 6, 7 and 8 for a 7-bit-per-column board | stones at (0,0)..(0,3) are not seen as a win; three stones at the top of column 0 and one at the bottom of column 1 are | bit height + 7·col, the layout the masks of `won` are built for; `heuristic` reads cells through the same 6-bit layout `play` writes, so its counts are over that layout | high, not executed | Connect4.WonMisreadsSixBitLayout | Connect4.VerticalFourWins |
| src/obscuro.rs:60-61 | the subgame root policy is built over the single action 0 (marked FIXME) | two gadgets: `p_exploit(&1)` in `solve_step` finds no action 1 and its `unwrap` panics | one root action per gadget | high, not executed | Subgame.SingleRootActionFails | Subgame.CorrectedRootIndexesGadgets |
| src/obscuro.rs:214-228 | the recursion of `k_cover` matches acting traces again (marked FIXME) | h1 with acting trace t, h2 sharing only h1's opponent view: h2 is not in the 2-cover | the k−1 cover of the opponent's views | high, not executed | Subgame.KCoverMissesOpponentView | Subgame.KCoverCorrectedIsTwoCover |
| src/obscuro.rs:162-181 | the fold keys gadgets by `history.trace()`, the acting player's trace | any cover of one observation: every history has that trace, so one gadget | one gadget per opponent infoset, as the comment at line 154 says | medium, not executed | Subgame.ActingGroupingIsSingle | Subgame.OpponentGroupingSplits |
| src/obscuro/obscuro.rs:184-186 | the padding loop runs while `data_count < MIN_INFO_SIZE.min(positions.len())` with `data_count` starting at `positions.len()` | any groups and any samples: the guard fails at once and no sampled position is added | pad until MIN_INFO_SIZE histories, as src/obscuro.rs does | high, not executed | ModularSolver.PadAsWrittenAddsNothing | ModularSolver.PadTotal |
| src/obscuro/obscuro.rs:49-50 | the subgame root policy is built over the single action 0 (marked FIXME) | two groups: `set_expectation(&1, ..)` in `cfr_iterations` and `p_exploit(&1)` in `solve_step` find no action 1 | one root action per gadget | high, not executed | ModularSolver.RootAsWrittenLacksIndex | ModularSolver.NewRoot |
| copilot/subgame_solving.rs:206-243 | `existing_ids` is collected once before the loop and never extended with the games the loop adds | no positions, two needed, a sampler yielding the same game twice: the game is added twice | skip every game already present, including those added by earlier turns of the loop | high, not executed | CopilotSubgame.SampleAdditionalAsWrittenDuplicates | CopilotSubgame.SampleAdditionalFresh |
| old/obscuro.rs:160-170 | `purified` sorts the candidates in ascending order of exploit probability and keeps the first MAX_SUPPORT | regrets [0, 1, 2, 3], all stable: the support is actions 0, 1 and 2, without the best action 3 | the MAX_SUPPORT most likely candidates | medium, not executed | OldObscuro.PurifiedAsWrittenMissesBest | OldObscuro.PurifiedSupportHasBest |
| old/obscuro.rs:210-235 | `m` counts the histories of all entries, while the prior averages the reach share with 1/m per entry | one entry holding two histories of reach 1/2: the priors sum to 3/4 | 1/m over the entries, so the priors sum to 1 | high, not executed | OldObscuro.PriorsAsWrittenTwoHistories | OldObscuro.IntendedPriorsSum |
| old/obscuro.py:284 | `__gt__` is `not self <= other` | two sibling histories: each is `>` the other | the mirror of `__lt__`: `other < self` | high, not executed | PyHistory.AboveAsWrittenSymmetric | PyHistory.AboveIsStrict |
