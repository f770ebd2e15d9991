/** Every row of the table is the account of its team's completed games. */
module StandingsGames {
  import opened Base
  import opened Ordering
  import opened FantasyDomain
  import opened PlayerScoring
  import opened ScoringRevisions
  import opened Matchups
  import opened Standings

  /** One side of a completed matchup. */
  datatype Game = Game(sequence: int, mark: Mark, scored: int, conceded: int, categories: seq<CategoryTotal>)

  predicate Decided(matchup: Matchup) {
    matchup.status == Final && MarksOf(matchup).Some?
  }

  function FirstGame(matchup: Matchup): Game
    requires Decided(matchup)
  {
    Game(matchup.period.sequence, MarksOf(matchup).value.0, matchup.first.totalMilliPoints,
         matchup.second.totalMilliPoints, matchup.first.categoryTotals)
  }

  function SecondGame(matchup: Matchup): Game
    requires Decided(matchup)
  {
    Game(matchup.period.sequence, MarksOf(matchup).value.1, matchup.second.totalMilliPoints,
         matchup.first.totalMilliPoints, matchup.second.categoryTotals)
  }

  function Played(teamId: Id, matchup: Matchup): seq<Game> {
    if !Decided(matchup) then []
    else if matchup.first.teamId == teamId then [FirstGame(matchup)]
    else if matchup.second.teamId == teamId then [SecondGame(matchup)]
    else []
  }

  function GamesIn(teamId: Id): Matchup -> seq<Game> {
    (matchup: Matchup) => Played(teamId, matchup)
  }

  /** A team's completed games, in the order of the matchups. */
  function GamesOf(teamId: Id, matchups: seq<Matchup>): seq<Game> {
    Flat(GamesIn(teamId), matchups)
  }

  function One(): Game -> int {
    (game: Game) => 1
  }

  function Marks(mark: Mark): Game -> int {
    (game: Game) => if game.mark == mark then 1 else 0
  }

  function Scored(): Game -> int {
    (game: Game) => game.scored
  }

  function Conceded(): Game -> int {
    (game: Game) => game.conceded
  }

  function CategoriesIn(): Game -> seq<CategoryTotal> {
    (game: Game) => game.categories
  }

  function MarkedIn(): Game -> Marked {
    (game: Game) => Marked(game.sequence, game.mark)
  }

  /** The row that a list of games adds up to. */
  ghost predicate Accounts(row: Row, team: StandingTeam, games: seq<Game>) {
    && row.team == team
    && row.gamesPlayed == Sum(One(), games)
    && row.wins == Sum(Marks(W), games)
    && row.losses == Sum(Marks(L), games)
    && row.ties == Sum(Marks(T), games)
    && row.pointsFor == Sum(Scored(), games)
    && row.pointsAgainst == Sum(Conceded(), games)
    && AddCategories([], Flat(CategoriesIn(), games)) == Ok(row.categoryTotals)
    && row.outcomes == Map(MarkedIn(), games)
    && IsSafe(row.pointsFor) && IsSafe(row.pointsAgainst)
  }

  lemma {:induction false} AddCategoriesAppend(
    totals: seq<CategoryTotal>, xs: seq<CategoryTotal>, ys: seq<CategoryTotal>
  )
    requires AddCategories(totals, xs).Ok?
    ensures AddCategories(totals, xs + ys) == AddCategories(AddCategories(totals, xs).value, ys)
  {
    if ys == [] {
      assert xs + ys == xs;
    } else {
      var init, last := ys[..|ys| - 1], ys[|ys| - 1];
      AddCategoriesAppend(totals, xs, init);
      assert (xs + ys)[..|xs + ys| - 1] == xs + init;
    }
  }

  /** What playing one game does to a row. */
  ghost predicate Plays(row: Row, next: Row, game: Game) {
    && WithPoints(row, game.scored, game.conceded).Ok?
    && AddCategories(row.categoryTotals, game.categories).Ok?
    && next == WithMark(WithPoints(row, game.scored, game.conceded).value
                          .(categoryTotals := AddCategories(row.categoryTotals, game.categories).value),
                        game.sequence, game.mark)
  }

  lemma PlayMeans(first: Row, second: Row, matchup: Matchup)
    requires matchup.status == Final && Play(first, second, matchup).Ok?
    ensures Decided(matchup)
    ensures Plays(first, Play(first, second, matchup).value.0, FirstGame(matchup))
    ensures Plays(second, Play(first, second, matchup).value.1, SecondGame(matchup))
  {
  }

  lemma GameAccounted(row: Row, next: Row, team: StandingTeam, games: seq<Game>, game: Game)
    requires Accounts(row, team, games) && Plays(row, next, game)
    ensures Accounts(next, team, games + [game])
  {
    SumSnoc(One(), games, game);
    SumSnoc(Marks(W), games, game);
    SumSnoc(Marks(L), games, game);
    SumSnoc(Marks(T), games, game);
    SumSnoc(Scored(), games, game);
    SumSnoc(Conceded(), games, game);
    FlatSnoc(CategoriesIn(), games, game);
    AddCategoriesAppend([], Flat(CategoriesIn(), games), game.categories);
    assert Map(MarkedIn(), games + [game]) == Map(MarkedIn(), games) + [Marked(game.sequence, game.mark)];
  }

  /** A matchup that the loop accepts: two known teams, and a complete outcome if it is final. */
  ghost predicate Entered(matchup: Matchup, input: StandingsInput) {
    && matchup.first.teamId in TeamIdsOf(input.teams)
    && matchup.second.teamId in TeamIdsOf(input.teams)
    && matchup.first.teamId != matchup.second.teamId
    && (matchup.status == Final ==> Decided(matchup))
  }

  ghost predicate RowsAccount(rows: map<Id, Row>, input: StandingsInput, matchups: seq<Matchup>) {
    forall team :: team in input.teams ==>
      team.teamId in rows && Accounts(rows[team.teamId], team, GamesOf(team.teamId, matchups))
  }

  lemma UnplayedAccounted(row: Row, team: StandingTeam, matchups: seq<Matchup>, matchup: Matchup)
    requires Accounts(row, team, GamesOf(team.teamId, matchups)) && GamesIn(team.teamId)(matchup) == []
    ensures Accounts(row, team, GamesOf(team.teamId, matchups + [matchup]))
  {
    FlatSnoc(GamesIn(team.teamId), matchups, matchup);
    assert GamesOf(team.teamId, matchups + [matchup]) == GamesOf(team.teamId, matchups);
  }

  lemma TeamEntered(
    table: Table, next: Table, matchups: seq<Matchup>, matchup: Matchup, input: StandingsInput, team: StandingTeam
  )
    requires EnterMatchup(table, matchup, input) == Ok(next) && team.teamId in table.rows
    requires Accounts(table.rows[team.teamId], team, GamesOf(team.teamId, matchups))
    ensures team.teamId in next.rows &&
            Accounts(next.rows[team.teamId], team, GamesOf(team.teamId, matchups + [matchup]))
  {
    var first, second := table.rows[matchup.first.teamId], table.rows[matchup.second.teamId];
    FlatSnoc(GamesIn(team.teamId), matchups, matchup);
    if matchup.status != Final {
      UnplayedAccounted(table.rows[team.teamId], team, matchups, matchup);
    } else {
      PlayMeans(first, second, matchup);
      if team.teamId == matchup.first.teamId {
        GameAccounted(first, next.rows[team.teamId], team, GamesOf(team.teamId, matchups), FirstGame(matchup));
      } else if team.teamId == matchup.second.teamId {
        GameAccounted(second, next.rows[team.teamId], team, GamesOf(team.teamId, matchups), SecondGame(matchup));
      } else {
        UnplayedAccounted(table.rows[team.teamId], team, matchups, matchup);
      }
    }
  }

  lemma NewRowAccounts(team: StandingTeam)
    ensures Accounts(NewRow(team), team, [])
  {
  }

  /** After the loop each team's row is the account of its games, and every matchup was of two known teams. */
  lemma {:induction false} TableAccounts(matchups: seq<Matchup>, input: StandingsInput)
    requires Distinct(TeamIdsOf(input.teams)) && Tabulate(matchups, input).Ok?
    ensures RowsAccount(Tabulate(matchups, input).value.rows, input, matchups)
  {
    if matchups == [] {
      NewRowsCover(input.teams);
      forall team | team in input.teams ensures Accounts(NewRow(team), team, GamesOf(team.teamId, matchups)) {
        NewRowAccounts(team);
      }
    } else {
      var init, last := matchups[..|matchups| - 1], matchups[|matchups| - 1];
      assert matchups == init + [last];
      TableAccounts(init, input);
      var table, next := Tabulate(init, input).value, Tabulate(matchups, input).value;
      forall team | team in input.teams
        ensures team.teamId in next.rows && Accounts(next.rows[team.teamId], team, GamesOf(team.teamId, matchups))
      {
        TeamEntered(table, next, init, last, input, team);
      }
    }
  }

  // ----- counts and periods -----

  function Finished(): Matchup -> int {
    (matchup: Matchup) => if matchup.status == Final then 1 else 0
  }

  lemma {:induction false} AllEntered(matchups: seq<Matchup>, input: StandingsInput)
    requires Tabulate(matchups, input).Ok?
    ensures forall matchup :: matchup in matchups ==> Entered(matchup, input)
    ensures Tabulate(matchups, input).value.completed == Sum(Finished(), matchups)
    ensures Tabulate(matchups, input).value.completed + Tabulate(matchups, input).value.pending == |matchups|
  {
    if matchups != [] {
      var init, last := matchups[..|matchups| - 1], matchups[|matchups| - 1];
      assert matchups == init + [last];
      AllEntered(init, input);
      TabulateKeepsKeys(init, input);
      NewRowsCover(input.teams);
      var table := Tabulate(init, input).value;
      if last.status == Final {
        PlayMeans(table.rows[last.first.teamId], table.rows[last.second.teamId], last);
      }
    }
  }

  /** The records of a published result, read off the table. */
  lemma ResultFromTable(
    input: StandingsInput, matchups: seq<Matchup>, authority: Authority, previous: Option<StandingsResult>
  )
    requires CalculateStandings(input, matchups, authority, previous).Ok?
    ensures CheckStandings(input, matchups, authority).Pass? && Tabulate(matchups, input).Ok?
    ensures forall team :: team in input.teams ==> team.teamId in Tabulate(matchups, input).value.rows
    ensures
      var result := CalculateStandings(input, matchups, authority, previous).value;
      var table := Tabulate(matchups, input).value;
      && result.records == RecordsFrom(Sort(ByStanding(), RowsOf(input.teams, table.rows)), input.playoffTeamCount,
                                       result.status)
      && result.completedMatchupCount == table.completed
      && result.pendingMatchupCount == table.pending
      && result.status == (if input.regularSeasonComplete && table.pending == 0 then Final else InProgress)
      && result.throughPeriodSequence == LatestSequence(matchups)
  {
    RowsExist(matchups, input);
  }
}
