/** League standings from matchup results (src/domain/fantasy-scoring.ts, calculateFantasyStandings). */
module Standings {
  import opened Base
  import opened Errors
  import opened Ordering
  import opened FantasyDomain
  import opened PlayerScoring
  import opened ScoringRevisions
  import opened TeamPeriods
  import opened Matchups

  datatype StandingTeam = StandingTeam(teamId: Id, seed: int)

  datatype Mark = W | L | T

  datatype Marked = Marked(sequence: int, mark: Mark)

  /** The fields of a MutableStanding. */
  datatype Row = Row(
    team: StandingTeam,
    gamesPlayed: nat,
    wins: nat,
    losses: nat,
    ties: nat,
    pointsFor: int,
    pointsAgainst: int,
    categoryTotals: seq<CategoryTotal>,
    outcomes: seq<Marked>)

  datatype StandingsInput = StandingsInput(
    resultId: Id,
    accountId: Id,
    leagueId: Id,
    calculatedAt: Instant,
    revision: int,
    previousId: Option<Id>,
    correctionReason: Option<string>,
    regularSeasonComplete: bool,
    playoffTeamCount: int,
    teams: seq<StandingTeam>)

  datatype Qualification = Qualified | CurrentCutoff | NotQualified

  datatype Streak = NoStreak | Streak(mark: Mark, count: nat)

  datatype StandingRecord = StandingRecord(
    rank: nat,
    team: StandingTeam,
    gamesPlayed: nat,
    wins: nat,
    losses: nat,
    ties: nat,
    standingPoints: nat,
    pointsFor: int,
    pointsAgainst: int,
    differential: int,
    categoryTotals: seq<CategoryTotal>,
    streak: Streak,
    qualification: Qualification)

  datatype MatchupRef = MatchupRef(id: Id, revision: int, digest: Matchup)

  /** Everything the source digest covers. */
  datatype StandingsSources = StandingsSources(
    regularSeasonComplete: bool,
    playoffTeamCount: int,
    teams: seq<StandingTeam>,
    matchups: seq<MatchupRef>)

  datatype StandingsResult = StandingsResult(
    id: Id,
    accountId: Id,
    leagueId: Id,
    status: ResultStatus,
    throughPeriodSequence: int,
    playoffTeamCount: int,
    completedMatchupCount: nat,
    pendingMatchupCount: nat,
    records: seq<StandingRecord>,
    lineage: ModelLineage,
    calculatedAt: Instant,
    revision: int,
    previousId: Option<Id>,
    decision: Decision<StandingsResult>,
    sourceDigest: StandingsSources)

  // ----- one matchup -----

  function NewRow(team: StandingTeam): Row {
    Row(team, 0, 0, 0, 0, 0, 0, [], [])
  }

  function AddCategory(totals: seq<CategoryTotal>, category: CategoryTotal): Result<seq<CategoryTotal>, Fault> {
    match PlaceOf(totals, category.categoryId)
    case None =>
      var units :- SafeAdd(0, category.units);
      var milliPoints :- SafeAdd(0, category.milliPoints);
      Ok(totals + [category])
    case Some(i) =>
      var current := totals[i];
      :- Need(current.sourceStatistic == category.sourceStatistic, ScoringFault(StandingsInvalid));
      var units :- SafeAdd(current.units, category.units);
      var milliPoints :- SafeAdd(current.milliPoints, category.milliPoints);
      Ok(totals[i := CategoryTotal(category.categoryId, category.sourceStatistic, units, milliPoints)])
  }

  function AddCategories(
    totals: seq<CategoryTotal>, categories: seq<CategoryTotal>
  ): Result<seq<CategoryTotal>, Fault>
  {
    if categories == [] then Ok(totals)
    else
      var before :- AddCategories(totals, categories[..|categories| - 1]);
      AddCategory(before, categories[|categories| - 1])
  }

  function WithPoints(row: Row, scored: int, conceded: int): Result<Row, Fault> {
    var pointsFor :- SafeAdd(row.pointsFor, scored);
    var pointsAgainst :- SafeAdd(row.pointsAgainst, conceded);
    Ok(row.(gamesPlayed := row.gamesPlayed + 1, pointsFor := pointsFor, pointsAgainst := pointsAgainst))
  }

  function WithMark(row: Row, sequence: int, mark: Mark): Row {
    row.(wins := row.wins + if mark == W then 1 else 0,
         losses := row.losses + if mark == L then 1 else 0,
         ties := row.ties + if mark == T then 1 else 0,
         outcomes := row.outcomes + [Marked(sequence, mark)])
  }

  /** The marks of the two sides, if the outcome is complete. */
  function MarksOf(matchup: Matchup): Option<(Mark, Mark)> {
    if matchup.verdict.outcome == Tie then Some((T, T))
    else if matchup.verdict.winner == Some(matchup.first.teamId) then Some((W, L))
    else if matchup.verdict.winner == Some(matchup.second.teamId) then Some((L, W))
    else None
  }

  /** A final matchup moves the rows of both sides. */
  function Play(first: Row, second: Row, matchup: Matchup): Result<(Row, Row), Fault> {
    var first1 :- WithPoints(first, matchup.first.totalMilliPoints, matchup.second.totalMilliPoints);
    var second1 :- WithPoints(second, matchup.second.totalMilliPoints, matchup.first.totalMilliPoints);
    var firstCategories :- AddCategories(first1.categoryTotals, matchup.first.categoryTotals);
    var secondCategories :- AddCategories(second1.categoryTotals, matchup.second.categoryTotals);
    match MarksOf(matchup)
    case None => Err(ScoringFault(StandingsInvalid))
    case Some(marks) =>
      Ok((WithMark(first1.(categoryTotals := firstCategories), matchup.period.sequence, marks.0),
          WithMark(second1.(categoryTotals := secondCategories), matchup.period.sequence, marks.1)))
  }

  // ----- all matchups -----

  datatype Table = Table(rows: map<Id, Row>, seen: set<(Id, int)>, completed: nat, pending: nat)

  function TeamIdsOf(teams: seq<StandingTeam>): seq<Id> {
    seq(|teams|, i requires 0 <= i < |teams| => teams[i].teamId)
  }

  function SeedsOf(teams: seq<StandingTeam>): seq<int> {
    seq(|teams|, i requires 0 <= i < |teams| => teams[i].seed)
  }

  function NewRows(teams: seq<StandingTeam>): map<Id, Row> {
    if teams == [] then map[]
    else
      var last := teams[|teams| - 1];
      NewRows(teams[..|teams| - 1])[last.teamId := NewRow(last)]
  }

  /** The two team-period keys of a matchup; neither may have been seen. */
  function Register(seen: set<(Id, int)>, matchup: Matchup): Result<set<(Id, int)>, Fault> {
    var first, second := (matchup.first.teamId, matchup.period.sequence),
                         (matchup.second.teamId, matchup.period.sequence);
    :- Need(first !in seen && second !in seen && first != second, ScoringFault(StandingsInvalid));
    Ok(seen + {first, second})
  }

  function EnterMatchup(table: Table, matchup: Matchup, input: StandingsInput): Result<Table, Fault> {
    var first, second := matchup.first.teamId, matchup.second.teamId;
    :- Need(matchup.accountId == input.accountId && matchup.leagueId == input.leagueId,
            ScoringFault(ScoringCode.AccountMismatch));
    :- Need(matchup.period.phase == RegularSeason, ScoringFault(StandingsInvalid));
    :- Need(first in table.rows && second in table.rows, ScoringFault(StandingsInvalid));
    var seen :- Register(table.seen, matchup);
    if matchup.status != Final then Ok(table.(seen := seen, pending := table.pending + 1))
    else
      var rows :- Play(table.rows[first], table.rows[second], matchup);
      Ok(Table(table.rows[first := rows.0][second := rows.1], seen, table.completed + 1, table.pending))
  }

  function Tabulate(matchups: seq<Matchup>, input: StandingsInput): Result<Table, Fault> {
    if matchups == [] then Ok(Table(NewRows(input.teams), {}, 0, 0))
    else
      var table :- Tabulate(matchups[..|matchups| - 1], input);
      EnterMatchup(table, matchups[|matchups| - 1], input)
  }

  // ----- ranking -----

  function StandingPoints(row: Row): nat {
    row.wins * 2 + row.ties
  }

  function Differential(row: Row): int {
    row.pointsFor - row.pointsAgainst
  }

  /** Standing points, differential and points for descend; predeclared seed and team id ascend. */
  function ByStanding(): (Row, Row) -> bool {
    (left: Row, right: Row) =>
      if StandingPoints(left) != StandingPoints(right) then StandingPoints(left) > StandingPoints(right)
      else if Differential(left) != Differential(right) then Differential(left) > Differential(right)
      else if left.pointsFor != right.pointsFor then left.pointsFor > right.pointsFor
      else if left.team.seed != right.team.seed then left.team.seed < right.team.seed
      else left.team.teamId <= right.team.teamId
  }

  function RowsOf(teams: seq<StandingTeam>, rows: map<Id, Row>): seq<Row>
    requires forall team :: team in teams ==> team.teamId in rows
  {
    seq(|teams|, i requires 0 <= i < |teams| => rows[teams[i].teamId])
  }

  function BySequence(): (Marked, Marked) -> bool {
    (left: Marked, right: Marked) => left.sequence <= right.sequence
  }

  /** How many of the last outcomes carry the mark. */
  function Trailing(outcomes: seq<Marked>, mark: Mark): nat {
    if outcomes == [] || outcomes[|outcomes| - 1].mark != mark then 0
    else 1 + Trailing(outcomes[..|outcomes| - 1], mark)
  }

  function StreakOf(outcomes: seq<Marked>): Streak {
    if outcomes == [] then NoStreak
    else
      var sorted := Sort(BySequence(), outcomes);
      SortContents(BySequence(), outcomes);
      var latest := sorted[|sorted| - 1].mark;
      Streak(latest, Trailing(sorted, latest))
  }

  function ByCategory(): (CategoryTotal, CategoryTotal) -> bool {
    (left: CategoryTotal, right: CategoryTotal) => left.categoryId <= right.categoryId
  }

  function QualificationOf(rank: nat, playoffTeamCount: int, status: ResultStatus): Qualification {
    if rank <= playoffTeamCount then (if status == Final then Qualified else CurrentCutoff) else NotQualified
  }

  function RecordFrom(row: Row, rank: nat, playoffTeamCount: int, status: ResultStatus): StandingRecord {
    StandingRecord(rank, row.team, row.gamesPlayed, row.wins, row.losses, row.ties, StandingPoints(row), row.pointsFor,
                   row.pointsAgainst, Differential(row), Sort(ByCategory(), row.categoryTotals), StreakOf(row.outcomes),
                   QualificationOf(rank, playoffTeamCount, status))
  }

  function RecordsFrom(ordered: seq<Row>, playoffTeamCount: int, status: ResultStatus): seq<StandingRecord> {
    seq(|ordered|, i requires 0 <= i < |ordered| => RecordFrom(ordered[i], i + 1, playoffTeamCount, status))
  }

  // ----- the result -----

  function CheckStandings(input: StandingsInput, matchups: seq<Matchup>, authority: Authority): Check<Fault> {
    var authorized := CheckScoringAuthority(authority, input.accountId, input.leagueId);
    if authorized.Fail? then authorized
    else if !(0 <= input.playoffTeamCount <= MAX_SAFE_INTEGER) then
      Fail(ScoringFault(ScoringCode.InvalidInput))
    else if |input.teams| < 2 || input.playoffTeamCount > |input.teams| || !Distinct(TeamIdsOf(input.teams)) ||
            !Distinct(SeedsOf(input.teams)) then
      Fail(ScoringFault(StandingsInvalid))
    else if matchups == [] || exists matchup :: matchup in matchups && matchup.lineage != matchups[0].lineage then
      Fail(ScoringFault(StandingsInvalid))
    else
      Need(forall team :: team in input.teams ==> ValidSeed(team.seed), ScoringFault(ScoringCode.InvalidInput))
  }

  function LatestSequence(matchups: seq<Matchup>): int {
    if matchups == [] then 0
    else
      var before, last := LatestSequence(matchups[..|matchups| - 1]), matchups[|matchups| - 1].period.sequence;
      if before < last then last else before
  }

  function ByPeriodAndId(): (Matchup, Matchup) -> bool {
    (left: Matchup, right: Matchup) =>
      if left.period.sequence != right.period.sequence then left.period.sequence < right.period.sequence
      else left.id <= right.id
  }

  function ByTeamId(): (StandingTeam, StandingTeam) -> bool {
    (left: StandingTeam, right: StandingTeam) => left.teamId <= right.teamId
  }

  function RefsOf(matchups: seq<Matchup>): seq<MatchupRef> {
    seq(|matchups|, i requires 0 <= i < |matchups| => MatchupRef(matchups[i].id, matchups[i].revision, matchups[i]))
  }

  function StandingsSourcesOf(input: StandingsInput, matchups: seq<Matchup>): StandingsSources {
    StandingsSources(input.regularSeasonComplete, input.playoffTeamCount, Sort(ByTeamId(), input.teams),
                     RefsOf(Sort(ByPeriodAndId(), matchups)))
  }

  function StandingsEnvelope(result: StandingsResult): Envelope<StandingsSources, StandingsResult> {
    Envelope(result.id, result.revision, result.sourceDigest, result, result.calculatedAt, result.status)
  }

  function PreviousStandings(previous: Option<StandingsResult>): Option<Envelope<StandingsSources, StandingsResult>> {
    match previous
    case None => None
    case Some(result) => Some(StandingsEnvelope(result))
  }

  /** The part after the matchup loop: ranking, revision and result. */
  function Publish(
    input: StandingsInput, matchups: seq<Matchup>, ordered: seq<Row>, completed: nat, pending: nat,
    previous: Option<StandingsResult>
  ): Result<StandingsResult, Fault>
    requires matchups != []
  {
    var status := if input.regularSeasonComplete && pending == 0 then Final else InProgress;
    var lineage := matchups[0].lineage;
    :- Need(previous.Some? ==>
              previous.value.accountId == input.accountId && previous.value.leagueId == input.leagueId &&
              previous.value.lineage == lineage, RevisionRefused);
    :- Need(StaysFinal(PreviousStandings(previous), status), RevisionRefused);
    var identity := Identity(input.resultId, input.revision, input.previousId, input.correctionReason,
                             input.calculatedAt);
    var decision :- RevisionDecision(identity, StandingsSourcesOf(input, matchups), status,
                                     PreviousStandings(previous));
    Ok(StandingsResult(input.resultId, input.accountId, input.leagueId, status, LatestSequence(matchups),
                       input.playoffTeamCount, completed, pending, RecordsFrom(ordered, input.playoffTeamCount, status),
                       lineage,
                       input.calculatedAt, input.revision, input.previousId, decision,
                       StandingsSourcesOf(input, matchups)))
  }

  lemma {:induction false} NewRowsCover(teams: seq<StandingTeam>)
    ensures forall id :: id in NewRows(teams) <==> id in TeamIdsOf(teams)
    ensures forall team :: team in teams ==> team.teamId in NewRows(teams)
    ensures Distinct(TeamIdsOf(teams)) ==> forall team :: team in teams ==> NewRows(teams)[team.teamId] == NewRow(team)
  {
    if teams != [] {
      var init, last := teams[..|teams| - 1], teams[|teams| - 1];
      NewRowsCover(init);
      assert teams == init + [last];
      assert TeamIdsOf(teams) == TeamIdsOf(init) + [last.teamId];
      DistinctSnoc(TeamIdsOf(init), last.teamId);
      forall team | team in init ensures team.teamId in TeamIdsOf(init) {
        var i :| 0 <= i < |init| && init[i] == team;
        assert TeamIdsOf(init)[i] == team.teamId;
      }
    }
  }

  /** The loop never adds or drops a row. */
  lemma {:induction false} TabulateKeepsKeys(matchups: seq<Matchup>, input: StandingsInput)
    requires Tabulate(matchups, input).Ok?
    ensures Tabulate(matchups, input).value.rows.Keys == NewRows(input.teams).Keys
  {
    if matchups != [] {
      TabulateKeepsKeys(matchups[..|matchups| - 1], input);
    }
  }

  lemma RowsExist(matchups: seq<Matchup>, input: StandingsInput)
    requires Tabulate(matchups, input).Ok?
    ensures forall team :: team in input.teams ==> team.teamId in Tabulate(matchups, input).value.rows
  {
    TabulateKeepsKeys(matchups, input);
    NewRowsCover(input.teams);
  }

  function CalculateStandings(
    input: StandingsInput, matchups: seq<Matchup>, authority: Authority, previous: Option<StandingsResult>
  ): Result<StandingsResult, Fault>
  {
    var guards := CheckStandings(input, matchups, authority);
    :- guards;
    var table :- Tabulate(matchups, input);
    RowsExist(matchups, input);
    var rows := RowsOf(input.teams, table.rows);
    :- Need(forall row :: row in rows ==> IsSafe(Differential(row)), ScoringFault(UnsafeArithmetic));
    Publish(input, matchups, Sort(ByStanding(), rows), table.completed, table.pending, previous)
  }
}
