# Verified model of the fantasy league, its schedulers and its configuration file

This project states in Dafny what the following parts of the repository compute, and proves what they guarantee:

- the fantasy league engine: scoring models, the roster validator, the transaction state machine with its waiver batch,
  and the scoring pipeline from one player's statistics to the league's standings
  (`src/domain/fantasy-rules.ts`, `fantasy-domain.ts`, `fantasy-transactions.ts`, `fantasy-scoring.ts`);
- the two minute-scan schedulers, for Discord updates and for notifications
  (`src/domain/discord-update-schedule.ts`, `discord-settings.ts`, `notifications.ts`);
- the printer and parser of the deployment environment file (`scripts/deploy/config.ts`);
- the delegation decision and its behaviour over time (`src/domain/league-delegation.ts`).

`dafny verify dfyconfig.toml` checks the whole project.

## How it is built

Code that returns new values is a function; code that loops over variables it updates is a method whose `ensures` ties it to
such a function; the mutable standings rows are a class. The properties are lemmas about the functions.

| files | content |
|---|---|
| `Base`, `Errors`, `Text`, `Ordering` | results and guards, error codes, white space, sorting, filtering, sums |
| `FantasyRules`, `FantasyDomain`, `RosterLegality` | model validation, the roster validator, and the declared meaning of a legal roster |
| `FantasyTransactions`, `Waivers`, `Projection`, `TransactionEngine` | the seven commands, the waiver batch, the ownership check, acceptance and the log |
| `Ownership`, `TransactionSteps`, `TransactionRuns`, `LeagueSafety`, `TransactionLog`, `CommandEffects`, `CommandRules` | the invariant, each step, whole runs, the log, the effect of each command and when it is accepted |
| `WaiverTheorems`, `WaiverResolution`, `BatchStability` | exclusivity, stable priority, order independence, rollback, stable rejections |
| `PlayerScoring`, `TeamPeriods`, `TeamPeriodLoops`, `TeamPeriodTheorems`, `TeamPeriodResults`, `ScoringRevisions` | player scores, team-period results, revision chains |
| `Matchups`, `Standings`, `StandingsLoop`, `StandingsGames`, `StandingsLaws`, `StandingsCategories`, `StandingsOrder`, `StandingsResults` | matchups, the standings loop, conservation, ranking, order independence, linearity |
| `MinuteClock`, `DiscordSchedule`, `Notifications` | minute arithmetic, the bounded searches and what they find |
| `Environment`, `EnvironmentSurvival`, `JsonStrings` | the environment file and which records survive it |
| `LeagueDelegation`, `ApprovedScopes` | the delegation decision, and for which scopes an approval counts |

A league state is *created* if `CreateState` returns it, and *reachable* if it occurs in a run of commands from a created
state on, with the league, its teams and its model fixed. Commands that are refused are part of a run. A state machine step is
`TransactionEngine.Apply`; `TransactionRuns.IsRun` lists the states and the commands of a run.

Four things the proofs bring to light:

- The waiver code never checks that a team wins once in a batch. It does so because every award dates the team's roster at the
  batch's instant, and a successor roster must be strictly later than its predecessor.
- The closing ownership check can refuse nothing but a lineup change.
- `notificationDeliveryAt` does not bound the quiet-hour minutes by itself, so that outside the preference schema even an
  immediate notification can find no time (`Notifications.UnboundedQuietHours`).
- The delegation decision compares scopes by their ids joined with colons, so that an approval for another scope can count
  (`ApprovedScopes.AmbiguousApproval`), exactly when an id of the grant's scope holds a colon.

In one place documentation and code disagree: the correction policy sealed into a scoring model is named
`BEFORE_FINALIZATION_ONLY`, while the scoring code records a correction, with its exact predecessor, only after finalization
and calls earlier changes plain calculations. The model follows the code.

## Model

| member | source | states |
|---|---|---|
| FantasyRules.ValidateModel | src/domain/fantasy-rules.ts:287-463 | The one-pass validation with sets and a running slot total accepts exactly the contents that meet the declared rules: distinct ids, safe nonzero weights, known positions, slots and bench that fit the roster size. |
| FantasyDomain.JudgeSlotsInOnePass | src/domain/fantasy-domain.ts:836-942 | The loop with its sets, map and counters gives the verdict of the slot-by-slot specification, error included. |
| FantasyDomain.CreateRosterSnapshot | src/domain/fantasy-domain.ts:772-956 | The validator as a whole, with its history and rules guards, against its specification. |
| RosterLegality.JudgeSlotsDecides | src/domain/fantasy-domain.ts:836-942 | The validator accepts well-shaped slots if and only if the roster is legal as declared: each slot fits, slot ids and players and baseball players are distinct, no rule is filled beyond its count, size and bench limits hold. |
| RosterLegality.JudgeSlotsIgnoresOrder | src/domain/fantasy-domain.ts:836-942 | Permuting the slots never changes whether they are accepted. |
| RosterLegality.SizeCheckNeverBinds | src/domain/fantasy-rules.ts:403-447 | Under a valid model a roster without inactive slots is legal exactly when its arrangement and bench are: it can never fail the size check. |
| OwnershipInvariant.CheckDecidesMirrors | src/domain/fantasy-transactions.ts:426-464 | The ownership check passes if and only if entry and roster mirror each other: a team's roster shows a player, once, exactly when the entry names the team as owner. |
| OwnershipInvariant.SuccessorFacts | src/domain/fantasy-domain.ts:818-834 | A successor roster is the next link of its team's chain: one revision on, naming its predecessor, strictly later, with no player twice. |
| Projection.AssertOwnershipProjection | src/domain/fantasy-transactions.ts:426-464 | The nested loops that push ids compute the ownership check. |
| TransactionSteps.AddKeeps | src/domain/fantasy-transactions.ts:929-996 | An accepted add keeps the two views of ownership in agreement by construction, every legal roster legal, and roster times from going back. |
| TransactionSteps.DropKeeps | src/domain/fantasy-transactions.ts:998-1041 | The same for a drop. |
| TransactionSteps.TradeKeeps | src/domain/fantasy-transactions.ts:1043-1165 | The same for a trade, although two rosters and two entries change at once. |
| TransactionSteps.LineupCheckExact | src/domain/fantasy-transactions.ts:1167-1210 | The closing check passes a lineup change if and only if the team's set of players stays the same. |
| TransactionSteps.AwardKeeps | src/domain/fantasy-transactions.ts:1431-1500 | An awarded claim, with its conditional drop, keeps agreement and legality. |
| TransactionRuns.ClosingCheckNeverFails | src/domain/fantasy-transactions.ts:1785-1785 | For every command but a lineup change the closing check passes in every consistent state. |
| TransactionRuns.CommandKeeps | src/domain/fantasy-transactions.ts:1704-1816 | Every command, accepted, refused or repeated, keeps the invariant, the multiset of the waiver priority and the legality of rosters. |
| LeagueSafety.CreatedConsistent | src/domain/fantasy-transactions.ts:546-653 | A created state meets the invariant; the length, uniqueness and membership checks make the priority list and the rosters cover the teams by pigeonhole. |
| LeagueSafety.OwnershipBijection | src/domain/fantasy-transactions.ts:426-464 | In every reachable state an entry is rostered or inactive exactly when it fills a slot; that slot is the only one and stands on its owner's roster; every filled slot holds a listed entry. |
| LeagueSafety.OnlyLineupsFailTheCheck | src/domain/fantasy-transactions.ts:1785-1785 | In every reachable state a mutation that fails the closing check is a lineup change. |
| LeagueSafety.LineupsKeepPlayers | src/domain/fantasy-transactions.ts:1167-1210 | In every reachable state a lineup change that builds a roster is accepted if and only if it keeps the team's set of players. |
| LeagueSafety.RostersStayLegal | src/domain/fantasy-domain.ts:836-942 | If every roster starts legal, after any run every current roster is legal against the current entries, rebuilt or not. |
| LeagueSafety.PriorityIsTheTeams | src/domain/fantasy-transactions.ts:580-596 | In every reachable state the waiver priority is a permutation of the league's teams. |
| LeagueSafety.OneRequestPerPlayer | src/domain/fantasy-transactions.ts:1254-1272 | In every reachable state no team has two pending claims for one player at one instant. |
| LeagueSafety.OneWinPerInstant | src/domain/fantasy-transactions.ts:1395-1533 | Over a whole run no team has two awarded claims with the same processing instant. |
| Waivers.ProcessWaiverClaims | src/domain/fantasy-transactions.ts:1395-1533 | The loop that reassigns entries, rosters and priority and fills the map of resolved claims computes the batch that is specified as a fold. |
| WaiverTheorems.WinnersSettled | src/domain/fantasy-transactions.ts:1431-1522 | In a batch each team and each player wins at most once, and every winner still owns what it won when the batch ends. |
| WaiverTheorems.PriorityRotates | src/domain/fantasy-transactions.ts:1491-1491 | Moving each winner to the back adds up to: the teams that lost in their old order, then the winners in the order they were heard. |
| WaiverResolution.BatchResolvesOnce | src/domain/fantasy-transactions.ts:1417-1533 | Every due claim is resolved exactly once, awarded or rejected with a code and otherwise unchanged; every other claim is untouched. |
| WaiverResolution.BatchExclusive | src/domain/fantasy-transactions.ts:1431-1522 | Two claims awarded in one batch differ in team and in player, even though drops release players midway. |
| LeagueSafety.BatchRotatesPriority | src/domain/fantasy-transactions.ts:1342-1357 | Along every run a batch turns the priority into a stable partition: losers in old order, then winners in old order; a refused batch leaves it. |
| WaiverResolution.BatchIgnoresStoredOrder | src/domain/fantasy-transactions.ts:1417-1430 | Permuting the stored claims changes nothing about entries, rosters, priority or any resolution. |
| WaiverResolution.RejectedClaimsDoNotMatter | src/domain/fantasy-transactions.ts:1431-1522 | Removing any rejected claims beforehand leaves entries, rosters and priority as they come out. |
| BatchStability.RejectionsAreStable | src/domain/fantasy-transactions.ts:1431-1522 | A claim that a batch rejects would fail again against the entries and rosters the batch ends with, unless its player was owned when it was heard and an award later in the batch dropped that player. |
| CommandEffects.AddEffect | src/domain/fantasy-transactions.ts:929-996 | An accepted add is in time, by the league's method and by more than team authority, gives one free player to one team and changes no other owner. |
| CommandEffects.AddFillsSlot | src/domain/fantasy-transactions.ts:797-821 | It fills the empty slot asked for, on that team's roster only. |
| CommandEffects.DropEffect | src/domain/fantasy-transactions.ts:998-1041 | An accepted drop frees one player that the team owned and changes no other entry. |
| CommandEffects.TradeEffect | src/domain/fantasy-transactions.ts:1043-1165 | An accepted trade exchanges the owners of two players and changes no other entry. |
| CommandEffects.AcceptedTradeDecides | src/domain/fantasy-transactions.ts:891-911 | A trade counts as accepted if and only if exactly the two different teams accepted it, each last through its current owner, in time and with references. |
| CommandEffects.TradesAreAgreed | src/domain/fantasy-transactions.ts:1043-1085 | A trade goes ahead only so accepted, at a sealed instant before the deadline, by more than team authority. |
| CommandEffects.LineupEffect | src/domain/fantasy-transactions.ts:1167-1210 | A lineup change moves one roster and no entry; during a lock it needs a reason and more than team authority. |
| CommandEffects.SubmissionEffect | src/domain/fantasy-transactions.ts:1212-1300 | A submission appends one waiting claim that asks for exactly what the command asks for, at a later sealed instant, for a free player, against a drop that names the team; it moves no player. |
| CommandEffects.CancellationEffect | src/domain/fantasy-transactions.ts:1302-1340 | A cancellation closes the one waiting claim it names, at its own time, and changes nothing else. |
| CommandEffects.BatchEffect | src/domain/fantasy-transactions.ts:1395-1533 | After a batch a player belongs to the team that won it, or still to its old owner unless an awarded claim dropped it; nobody else. |
| CommandRules.UnauthorizedLearnsNothing | src/domain/fantasy-transactions.ts:1756-1772 | The denial of an unauthorized command is the same whatever revision it expects and whatever the league's revision, entries, rosters, priority and policy are. |
| CommandRules.SuccessorDecides | src/domain/fantasy-transactions.ts:842-871 | A team's next roster can be built if and only if the team is active and bound to the sealed rules, the new roster is strictly later than the last, and its slots are well shaped and legal. |
| CommandRules.AddDecides | src/domain/fantasy-transactions.ts:929-996 | A command past the gate adds a player if and only if the add is lawful: in time, by the league's method, by more than team authority, a known team, a free player, an open slot, and a roster that may follow. |
| CommandRules.DropDecides | src/domain/fantasy-transactions.ts:998-1041 | The same for a drop: a known team, its own player, and a roster without the player that may follow. |
| CommandRules.TradeDecides | src/domain/fantasy-transactions.ts:1043-1165 | The same for a trade: two known teams that agreed, their own players, open slots on both sides, and two rosters that may follow. |
| CommandRules.SubmissionDecides | src/domain/fantasy-transactions.ts:1212-1300 | The same for a submission: a known team, a free player, a drop that is its own or none, a later sealed instant, a new claim id, no second request. |
| CommandRules.AcceptedExactlyWhen | src/domain/fantasy-transactions.ts:1738-1812 | In every reachable state a new command is accepted if and only if account, league, revision, lifecycle and authority fit, the model is sealed, and the command is lawful by the declared conditions of its kind. |
| TransactionEngine.ApplyTransaction | src/domain/fantasy-transactions.ts:1704-1816 | The command handler, with the loops it runs, against the step function of the state machine. |
| TransactionLog.LogIntegrity | src/domain/fantasy-transactions.ts:1621-1702 | In every reachable state operation ids in the log are distinct, each record starts at the revision its predecessor ended at, the revision counts the records that are not denials, and every record has a matching audit. |
| TransactionLog.EvidenceIsNeverMissing | src/domain/fantasy-transactions.ts:1726-1735 | In no reachable state does any command raise the missing-evidence error. |
| TransactionLog.OnlyAcceptanceMoves | src/domain/fantasy-transactions.ts:1673-1702 | The revision grows by one exactly on acceptance; a denied or repeated command changes only log and audits; the log grows exactly for new operation ids. |
| TransactionLog.ResendIsIdempotent | src/domain/fantasy-transactions.ts:1713-1737 | A recorded command sent again after any further commands returns its first record and leaves the state as it is. |
| TransactionLog.RepetitionChangesNothing | src/domain/fantasy-transactions.ts:1713-1737 | A command that repeats, however much later, an earlier one of the run that was recorded when first sent leaves the state as it is. |
| TransactionLog.StillRecorded | src/domain/fantasy-transactions.ts:1787-1808 | What the log says about an operation once it is recorded, it says for the rest of the run. |
| TransactionLog.ReusedIdOnlyAudited | src/domain/fantasy-transactions.ts:1717-1724 | Another command under a recorded operation id is refused at any later time and adds one audit, nothing else. |
| PlayerScoring.ScoreStatistics | src/domain/fantasy-rules.ts:555-671 | The accumulating loop computes the specified score, or the first error in category order. |
| PlayerScoring.ScoreIsWeightedSum | src/domain/fantasy-rules.ts:614-649 | Scoring succeeds exactly when all units, products and partial totals stay within the safe integers, and then is the sum of units times weight, category by category. |
| TeamPeriodLoops.CalculateTeamPeriodResult | src/domain/fantasy-scoring.ts:716-1095 | The loops over statistics, slots and categories, with their maps and accumulators, compute the specified result. |
| TeamPeriodTheorems.ScoresAddUp | src/domain/fantasy-scoring.ts:905-919 | Adding a score made under the same model adds units and points category by category; the mismatch error cannot occur, only unsafe arithmetic. |
| TeamPeriodResults.TeamTotalIsLinear | src/domain/fantasy-scoring.ts:844-928 | In a result each category pays units times weight, its units are those of all scored players, and categories and players both add up to the total, within safe integers. |
| TeamPeriodResults.PartialSheetsAreSafe | src/domain/fantasy-scoring.ts:856-928 | The same holds after every slot, not only at the end. |
| TeamPeriodResults.FinalOnlyAfterGates | src/domain/fantasy-scoring.ts:930-957 | A result is final exactly when asked to be, and only after the period ended with every expected source complete or the deadline passed; it is in progress exactly before the period's end. |
| TeamPeriodResults.ProjectionIsLatest | src/domain/fantasy-scoring.ts:1002-1013 | Completion is projected exactly when every open question has a projection, and then to the latest of them. |
| TeamPeriodResults.SourceOrderDoesNotMatter | src/domain/fantasy-scoring.ts:788-842 | Permuting the statistic sources gives the same result, source digest included. |
| TeamPeriodResults.NeverBackInProgress | src/domain/fantasy-scoring.ts:930-997 | Along a history of revisions a result that left IN_PROGRESS never returns to it, and FINAL stays FINAL. |
| TeamPeriodResults.HistoryShape | src/domain/fantasy-scoring.ts:553-663 | Every history of a team-period result is CALCULATE*, at most one FINALIZE, then RECALCULATE* with exact corrections, numbered 0, 1, 2, …, final only after its gates. |
| ScoringRevisions.ChainShape | src/domain/fantasy-scoring.ts:553-663 | The word of actions in any chain of accepted revisions, with a correction naming the exact predecessor on the RECALCULATE steps and only there, and changed sources behind it. |
| ScoringRevisions.ChainOrder | src/domain/fantasy-scoring.ts:589-600 | Calculation times strictly increase along a chain and FINAL is absorbing. |
| Matchups.MatchupDecides | src/domain/fantasy-scoring.ts:1152-1181 | A matchup of two final results names the better side as winner and the other as loser, with the seeds as tie break exactly when they decided; it ties only in the regular season on equal points; until both are final it is open. |
| Matchups.SidesDoNotMatter | src/domain/fantasy-scoring.ts:1108-1270 | Naming the sides in the other order, now and in every earlier revision, gives the mirrored result, corrections and digests included, or the same error. |
| Matchups.MatchupHistoryShape | src/domain/fantasy-scoring.ts:1203-1229 | The shape of every history of matchup revisions. |
| StandingsLoop.MutableStanding.MergeCategories | src/domain/fantasy-scoring.ts:1291-1310 | The loop that updates a row's category map computes the specified merge. |
| StandingsLoop.PlayMatchup | src/domain/fantasy-scoring.ts:1413-1449 | The updates of the two mutable rows of a final matchup compute the specified pair of rows, or its error. |
| StandingsLoop.TabulateMatchups | src/domain/fantasy-scoring.ts:1369-1449 | The matchup loop over a map of mutable rows, a set of seen team periods and two counters computes the specified table. |
| StandingsLoop.CurrentStreak | src/domain/fantasy-scoring.ts:1312-1324 | The backward loop counts the specified streak. |
| StandingsLoop.CalculateStandingsResult | src/domain/fantasy-scoring.ts:1326-1602 | The whole calculation against its specification. |
| StandingsGames.TableAccounts | src/domain/fantasy-scoring.ts:1396-1449 | After the loop each row is the account of its team's completed games: counts, points, categories and outcomes. |
| StandingsLaws.StandingsConserve | src/domain/fantasy-scoring.ts:1369-1508 | Total wins equal total losses, games and standing points are two per completed matchup, points for equal points against, differentials sum to zero, games are wins, losses and ties, and completed and pending make up all matchups. |
| StandingsCategories.CategoriesGathered | src/domain/fantasy-scoring.ts:1291-1310 | Merging keeps one line to a category, each the sum of its contributions, which agree on its source. |
| StandingsCategories.CategoriesIgnoreOrder | src/domain/fantasy-scoring.ts:1488-1496 | The published category list does not depend on the order of the contributions. |
| StandingsOrder.StandingsAreRanked | src/domain/fantasy-scoring.ts:1451-1508 | The records are a permutation of the teams ranked 1 to n, strictly decreasing in points, differential, points for and seed. |
| StandingsOrder.GamesApart | src/domain/fantasy-scoring.ts:1396-1405 | No team has two games in one period. |
| StandingsOrder.StandingsIgnoreOrder | src/domain/fantasy-scoring.ts:1326-1524 | Whenever both calculations succeed, permuting matchups or teams publishes the same records, streaks and category totals, status and counts. |
| StandingsOrder.TrailingRun | src/domain/fantasy-scoring.ts:1312-1324 | The streak is the longest run of one mark that ends at the latest period. |
| StandingsResults.StandingsAreLinear | src/domain/fantasy-scoring.ts:1413-1430 | In standings over matchups of calculated results each team's category totals add up to its points for. |
| StandingsResults.PartialTablesAreSafe | src/domain/fantasy-scoring.ts:1291-1430 | Every row's points and every category line's units and points stay within the safe integers after every matchup. |
| StandingsResults.StandingsHistoryShape | src/domain/fantasy-scoring.ts:1538-1561 | The shape of every history of standings revisions. |
| MinuteClock.NextMinuteIsFirst | src/domain/discord-update-schedule.ts:98-100 | Rounding up gives the first minute boundary after an instant. |
| MinuteClock.SeekDecides | src/domain/discord-update-schedule.ts:102-109 | A search of more than a day of minute boundaries finds the earliest acceptable instant over all milliseconds, within a day, and fails only if no minute of the day is acceptable. |
| DiscordSchedule.Scan | src/domain/discord-update-schedule.ts:102-109 | The bounded loop computes the specified search. |
| DiscordSchedule.NextDiscordEvaluation | src/domain/discord-update-schedule.ts:111-157 | The method that pushes candidates and sorts them computes the specified evaluation. |
| DiscordSchedule.StartCandidateExact | src/domain/discord-update-schedule.ts:111-135 | A start's candidate is the earliest allowed instant at or after it, at most a day later; there is none exactly when no minute is allowed, so the eight-day bound never decides. |
| DiscordSchedule.DigestCandidateExact | src/domain/discord-update-schedule.ts:142-151 | The digest candidate is the first boundary strictly after now that shows the digest minute, and exists exactly when that minute is allowed. |
| DiscordSchedule.NextEvaluationIsEarliestDue | src/domain/discord-update-schedule.ts:111-157 | The result is the earliest instant for which any enabled reason is due, never in the past, and is null exactly when none is. |
| DiscordSchedule.CompatibleMeansAllowed | src/domain/discord-settings.ts:124-146 | For windows whose ends differ, the settings check passes exactly when some minute of the day is allowed. |
| DiscordSchedule.FixedIntervalNeverStops | src/domain/discord-settings.ts:82-146 | With such windows an enabled fixed-interval schedule has a next evaluation, within cadence and a day, exactly when the settings pass the check. |
| Notifications.NotificationDeliveryAt | src/domain/notifications.ts:194-235 | The loop computes the specified search. |
| Notifications.DeliveryIsEarliest | src/domain/notifications.ts:216-235 | The delivery is the earliest instant at or after the occurrence that meets digest and quiet rules; there is none exactly when no minute of the day meets them. |
| Notifications.NoSafeTimeExactly | src/domain/notifications.ts:188-235 | For settings that meet the schema, no safe time is found exactly when a daily digest minute lies in enabled quiet hours. |
| Notifications.NoSafeTimeByFields | src/domain/notifications.ts:205-235 | For all settings that the function accepts, no safe time is found exactly when the digest minute is quiet or, for immediate notifications, when the bounds of the quiet hours cover the day. |
| Notifications.UnboundedQuietHours | src/domain/notifications.ts:205-215 | Settings that the function accepts and the schema does not, under which even an immediate notification finds no time. |
| Environment.ParseEnvironment | scripts/deploy/config.ts:241-260 | The parser's loop computes the specified record or error. |
| Environment.UnescapeEscape | scripts/deploy/config.ts:230-233 | Unescaping undoes escaping for every text, with quotes, backslash-quote pairs and trailing backslashes. |
| Environment.RoundTrip | scripts/deploy/config.ts:235-260 | Parsing what was printed gives the record back, for all well-formed keys and single-line values. |
| Environment.RoundTripExactly | scripts/deploy/config.ts:235-260 | For single-line values the record survives if and only if every key is non-empty, free of `=` and line feeds, does not start with white space or `#`, and is not `__proto__`. |
| EnvironmentSurvival.RecordSurvivesExactly | scripts/deploy/config.ts:235-260 | Under two laws of JSON texts a record survives if and only if its keys are well formed and its values are single lines: a line inside a multi-line value that parses as JSON only ever denotes a shorter one. |
| EnvironmentSurvival.YieldsFromLonger | scripts/deploy/config.ts:243-257 | A line of a printed variable yields a value with line feeds only if the variable's own value has line feeds and is longer in escaped form. |
| JsonStrings.JsonObeysLaws | scripts/deploy/config.ts:254-256 | JSON strings, read by section 7 of RFC 8259, obey the two laws. |
| JsonStrings.SurvivesWithJson | scripts/deploy/config.ts:235-260 | With that reading of JSON.parse, and no other assumption, a record survives if and only if its keys are well formed and its values are single lines. |
| LeagueDelegation.AllowedForOneInterval | src/domain/league-delegation.ts:504-679 | For fixed evidence, capability and target the decision allows exactly one half-open interval, from the latest start to the earliest expiry or revocation, if the timeless conditions hold, and never otherwise. |
| LeagueDelegation.LapsedStaysDenied | src/domain/league-delegation.ts:297-319 | An authority that was allowed and is denied later is denied at every later instant. |
| ApprovedScopes.IdentityDecides | src/domain/league-delegation.ts:321-332 | The joined identity of a scope belongs to it alone, up to empty and absent ids, if and only if none of its ids holds a colon. |
| ApprovedScopes.ApprovalScopeDecides | src/domain/league-delegation.ts:628-660 | Where an approval is required, an allowed decision stays allowed under approvals for no scope but the grant's own if and only if no id of the grant's scope holds a colon. |
| ApprovedScopes.ApprovedForItsScope | src/domain/league-delegation.ts:628-660 | If no id of the grant's scope holds a colon, the approval of an allowed decision is for the grant's own scope. |
| ApprovedScopes.AmbiguousApproval | src/domain/league-delegation.ts:628-660 | An allowed decision whose approval is for a scope other than the grant's. |

## Left out

- Identifiers are integers: only equality and order of ids are used. The checks that an id is trimmed, non-empty and at most 128 characters long are not part of this model, except in the delegation decision, where ids are strings.
- Digests: SHA-256 over canonical JSON is taken to be free of collisions, so that a value stands for its own digest.
- Parsing of unknown input with zod, freezing of objects, and the contract version numbers.
- Instants are milliseconds; in scoring and transactions they are assumed to be canonical timestamps, and instants beyond the range of a Date object are not excluded.
- Time zones: local time is at a fixed whole-minute offset from UTC; daylight saving is not part of this model.
- Statistic values are integers; a value with a fraction, which the code reports as invalid, does not occur.
- The league, its teams and its model stay the same along a run.
- Audit ids of waiver resolutions, account and league copies on claims, records and audits, the list of affected players in the evidence, and the game counts copied into uncertainties.
- Which audit a repeated command returns is not claimed: a resolution audit may carry the same operation id.
- The aggregated lists of source revisions and ruleset versions in result lineages; the identity of the model version is kept and checked.
- The order in which sums overflow: order independence of standings is stated for calculations that both succeed.
- StandingsLoop.PlayMatchup: JavaScript maps are sequences of category lines and maps from ids to row objects; insertion order of the row map is replaced by the order of the teams.
- DiscordSchedule.CompatibleMeansAllowed: only the window part of the compatibility errors; routing of destinations and message strategies are look-ups.
- Environment.RoundTrip: texts are sequences of Unicode characters, without lone surrogates.
- JsonStrings.SurvivesWithJson: a JSON text that denotes a lone surrogate reads as an error, because such a string is not a text here; the parser only ever reads JSON that opens with a double quote.
- League and team lifecycles, creation of entries, eligibility decisions: single guards over values.
- LeagueSafety.RostersStayLegal: state creation does not validate rosters again, so that initial legality is an assumption.
- The baseball game engine, statistics, reports, persistence, the user interface, transports and signatures.
