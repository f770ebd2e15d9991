/** Published standings: category totals add up to points for, and revisions form chains. */
module StandingsResults {
  import opened Base
  import opened Ordering
  import opened FantasyDomain
  import opened PlayerScoring
  import opened ScoringRevisions
  import opened TeamPeriods
  import opened TeamPeriodResults
  import opened Matchups
  import opened Standings
  import opened StandingsLoop
  import opened StandingsGames
  import opened StandingsCategories

  // ----- linearity, third level -----

  /** A matchup built from linear team results: on both sides the categories add up to the total. */
  predicate LinearMatchup(matchup: Matchup) {
    && Sum(Milli, matchup.first.categoryTotals) == matchup.first.totalMilliPoints
    && Sum(Milli, matchup.second.categoryTotals) == matchup.second.totalMilliPoints
  }

  lemma {:induction false} GamesLinear(teamId: Id, matchups: seq<Matchup>)
    requires forall matchup :: matchup in matchups ==> LinearMatchup(matchup)
    ensures forall game :: game in GamesOf(teamId, matchups) ==> Sum(Milli, game.categories) == game.scored
  {
    if matchups != [] {
      var init, last := matchups[..|matchups| - 1], matchups[|matchups| - 1];
      assert last in matchups;
      GamesLinear(teamId, init);
    }
  }

  lemma RowLinear(row: Row, team: StandingTeam, games: seq<Game>)
    requires Accounts(row, team, games) && forall game :: game in games ==> Sum(Milli, game.categories) == game.scored
    ensures Sum(Milli, row.categoryTotals) == row.pointsFor
  {
    CategoriesSum(Flat(CategoriesIn(), games));
    SumFlat(Milli, CategoriesIn(), Scored(), games);
  }

  /** The safe bounds hold after every matchup, not only at the end. */
  lemma PartialTablesAreSafe(matchups: seq<Matchup>, input: StandingsInput, n: nat, team: StandingTeam)
    requires Distinct(TeamIdsOf(input.teams)) && Tabulate(matchups, input).Ok? && n <= |matchups| && team in input.teams
    ensures Tabulate(matchups[..n], input).Ok?
    ensures
      var rows := Tabulate(matchups[..n], input).value.rows;
      && team.teamId in rows
      && IsSafe(rows[team.teamId].pointsFor) && IsSafe(rows[team.teamId].pointsAgainst)
      && SafeLines(rows[team.teamId].categoryTotals)
  {
    if Tabulate(matchups[..n], input).Err? {
      TabulatingStops(matchups, n, input);
    }
    TableAccounts(matchups[..n], input);
    CategoriesSafe(Flat(CategoriesIn(), GamesOf(team.teamId, matchups[..n])));
  }

  /** A team-period result from some accepted calculation. */
  ghost predicate Genuine(result: TeamResult) {
    exists previous :: Calculated(result, previous)
  }

  /** A matchup calculated from two calculated team-period results. */
  ghost predicate BuiltFromResults(matchup: Matchup) {
    exists input, first, second, authority, previous ::
      CalculateMatchup(input, first, second, authority, previous) == Ok(matchup) && Genuine(first) && Genuine(second)
  }

  lemma GenuineIsLinear(result: TeamResult)
    requires Genuine(result)
    ensures Sum(Milli, result.categoryTotals) == result.totalMilliPoints
  {
    var previous :| Calculated(result, previous);
    var input, league, team, roster, model, authority :|
      CalculateTeamPeriod(input, league, team, roster, model, authority, previous) == Ok(result);
    TeamTotalIsLinear(input, league, team, roster, model, authority, previous);
  }

  lemma TotalsCarried(
    input: MatchupInput, first: TeamResult, second: TeamResult, authority: Authority, previous: Option<Matchup>,
    matchup: Matchup
  )
    requires CalculateMatchup(input, first, second, authority, previous) == Ok(matchup)
    ensures matchup.first == TotalFrom(first) && matchup.second == TotalFrom(second)
  {
  }

  lemma BuiltIsLinear(matchup: Matchup)
    requires BuiltFromResults(matchup)
    ensures LinearMatchup(matchup)
  {
    var input, first, second, authority, previous :|
      CalculateMatchup(input, first, second, authority, previous) == Ok(matchup) && Genuine(first) && Genuine(second);
    TotalsCarried(input, first, second, authority, previous, matchup);
    GenuineIsLinear(first);
    GenuineIsLinear(second);
  }

  lemma RowLinearInTable(input: StandingsInput, matchups: seq<Matchup>, team: StandingTeam)
    requires Distinct(TeamIdsOf(input.teams)) && Tabulate(matchups, input).Ok? && team in input.teams
    requires forall matchup :: matchup in matchups ==> LinearMatchup(matchup)
    ensures
      var rows := Tabulate(matchups, input).value.rows;
      team.teamId in rows && Sum(Milli, rows[team.teamId].categoryTotals) == rows[team.teamId].pointsFor
  {
    TableAccounts(matchups, input);
    GamesLinear(team.teamId, matchups);
    RowLinear(Tabulate(matchups, input).value.rows[team.teamId], team, GamesOf(team.teamId, matchups));
  }

  /** In standings over such matchups each team's category totals add up to its points for. */
  lemma StandingsAreLinear(
    input: StandingsInput, matchups: seq<Matchup>, authority: Authority, previous: Option<StandingsResult>
  )
    requires CalculateStandings(input, matchups, authority, previous).Ok?
    requires forall matchup :: matchup in matchups ==> BuiltFromResults(matchup)
    ensures forall record :: record in CalculateStandings(input, matchups, authority, previous).value.records ==>
              Sum(Milli, record.categoryTotals) == record.pointsFor
  {
    ResultFromTable(input, matchups, authority, previous);
    var result := CalculateStandings(input, matchups, authority, previous).value;
    forall matchup | matchup in matchups ensures LinearMatchup(matchup) {
      BuiltIsLinear(matchup);
    }
    var rows := RowsOf(input.teams, Tabulate(matchups, input).value.rows);
    forall i | 0 <= i < |rows| ensures Sum(Milli, rows[i].categoryTotals) == rows[i].pointsFor {
      assert input.teams[i] in input.teams;
      RowLinearInTable(input, matchups, input.teams[i]);
    }
    RecordsLinear(rows, input.playoffTeamCount, result.status);
  }

  lemma RecordLinear(row: Row, rank: nat, playoffTeamCount: int, status: ResultStatus)
    requires Sum(Milli, row.categoryTotals) == row.pointsFor
    ensures
      var record := RecordFrom(row, rank, playoffTeamCount, status);
      Sum(Milli, record.categoryTotals) == record.pointsFor
  {
    SortMultiset(ByCategory(), row.categoryTotals);
    SumPermutation(Milli, row.categoryTotals, Sort(ByCategory(), row.categoryTotals));
  }

  lemma {:induction false} RecordsLinear(rows: seq<Row>, playoffTeamCount: int, status: ResultStatus)
    requires forall i :: 0 <= i < |rows| ==> Sum(Milli, rows[i].categoryTotals) == rows[i].pointsFor
    ensures forall record :: record in RecordsFrom(Sort(ByStanding(), rows), playoffTeamCount, status) ==>
              Sum(Milli, record.categoryTotals) == record.pointsFor
  {
    var ordered := Sort(ByStanding(), rows);
    var records := RecordsFrom(ordered, playoffTeamCount, status);
    forall record | record in records ensures Sum(Milli, record.categoryTotals) == record.pointsFor {
      var i :| 0 <= i < |records| && records[i] == record;
      SortMember(ByStanding(), rows, i);
      RecordLinear(ordered[i], i + 1, playoffTeamCount, status);
    }
  }

  // ----- histories -----

  ghost predicate StandingsCalculated(result: StandingsResult, previous: Option<StandingsResult>) {
    exists input, matchups, authority :: CalculateStandings(input, matchups, authority, previous) == Ok(result)
  }

  ghost predicate StandingsCalculatedAt(results: seq<StandingsResult>, i: nat)
    requires i < |results|
  {
    StandingsCalculated(results[i], if i == 0 then None else Some(results[i - 1]))
  }

  ghost predicate StandingsHistory(results: seq<StandingsResult>) {
    forall i :: 0 <= i < |results| ==> StandingsCalculatedAt(results, i)
  }

  ghost function StandingsLink(result: StandingsResult): Link<StandingsSources, StandingsResult> {
    Link(StandingsEnvelope(result), result.previousId, result.decision)
  }

  ghost function StandingsLinks(results: seq<StandingsResult>): seq<Link<StandingsSources, StandingsResult>> {
    seq(|results|, i requires 0 <= i < |results| => StandingsLink(results[i]))
  }

  lemma StandingsAreLinked(result: StandingsResult, previous: Option<StandingsResult>)
    requires StandingsCalculated(result, previous)
    ensures Accepted(StandingsLink(result), PreviousStandings(previous))
  {
  }

  /** The revisions of the standings: CALCULATE*, at most one FINALIZE, then RECALCULATE* with exact corrections. */
  lemma StandingsHistoryShape(results: seq<StandingsResult>)
    requires StandingsHistory(results)
    ensures Numbered(StandingsLinks(results)) && exists at :: Word(StandingsLinks(results), at)
  {
    var links := StandingsLinks(results);
    forall i | 0 <= i < |links| ensures Linked(links, i) {
      assert StandingsCalculatedAt(results, i);
      StandingsAreLinked(results[i], if i == 0 then None else Some(results[i - 1]));
    }
    ChainShape(links);
  }
}
