/** Conservation laws of the standings: what one side gains the other side gives. */
module StandingsLaws {
  import opened Base
  import opened Ordering
  import opened FantasyDomain
  import opened ScoringRevisions
  import opened Matchups
  import opened Standings
  import opened StandingsGames

  // ----- a total over teams is a total over matchups -----

  /** What both sides of a matchup add to a total over all teams. */
  function BothSides(g: Game -> int): Matchup -> int {
    (matchup: Matchup) => if Decided(matchup) then g(FirstGame(matchup)) + g(SecondGame(matchup)) else 0
  }

  function OverGames(g: Game -> int, matchups: seq<Matchup>): Id -> int {
    (teamId: Id) => Sum(g, GamesOf(teamId, matchups))
  }

  function InMatchup(g: Game -> int, matchup: Matchup): Id -> int {
    (teamId: Id) => Sum(g, Played(teamId, matchup))
  }

  lemma {:induction false} TwoTerms(f: Id -> int, ids: seq<Id>, a: Id, b: Id)
    requires Distinct(ids) && a != b && forall id :: id in ids && id != a && id != b ==> f(id) == 0
    ensures Sum(f, ids) == (if a in ids then f(a) else 0) + (if b in ids then f(b) else 0)
  {
    if ids != [] {
      var init, last := ids[..|ids| - 1], ids[|ids| - 1];
      assert ids == init + [last];
      DistinctSnoc(init, last);
      TwoTerms(f, init, a, b);
    }
  }

  lemma OneMatchupTotal(g: Game -> int, ids: seq<Id>, matchup: Matchup)
    requires Distinct(ids)
    requires Decided(matchup) ==>
               matchup.first.teamId in ids && matchup.second.teamId in ids &&
               matchup.first.teamId != matchup.second.teamId
    ensures Sum(InMatchup(g, matchup), ids) == BothSides(g)(matchup)
  {
    if Decided(matchup) {
      var f := InMatchup(g, matchup);
      SumSnoc(g, [], FirstGame(matchup));
      SumSnoc(g, [], SecondGame(matchup));
      assert [] + [FirstGame(matchup)] == [FirstGame(matchup)] && [] + [SecondGame(matchup)] == [SecondGame(matchup)];
      TwoTerms(f, ids, matchup.first.teamId, matchup.second.teamId);
    } else {
      SumZero(InMatchup(g, matchup), ids);
    }
  }

  /** Adding up the games of every team counts each completed matchup once for each side. */
  lemma {:induction false} TeamsTotal(g: Game -> int, ids: seq<Id>, matchups: seq<Matchup>)
    requires Distinct(ids)
    requires forall matchup :: matchup in matchups && Decided(matchup) ==>
               matchup.first.teamId in ids && matchup.second.teamId in ids &&
               matchup.first.teamId != matchup.second.teamId
    ensures Sum(OverGames(g, matchups), ids) == Sum(BothSides(g), matchups)
  {
    if matchups == [] {
      SumZero(OverGames(g, matchups), ids);
    } else {
      var init, last := matchups[..|matchups| - 1], matchups[|matchups| - 1];
      TeamsTotal(g, ids, init);
      OneMatchupTotal(g, ids, last);
      forall id | id in ids
        ensures OverGames(g, matchups)(id) == OverGames(g, init)(id) + InMatchup(g, last)(id)
      {
        SumAppend(g, GamesOf(id, init), Played(id, last));
      }
      SumPlus(OverGames(g, init), InMatchup(g, last), OverGames(g, matchups), ids);
    }
  }

  // ----- a total over records is a total over teams -----

  /** A field of the record that a row and its games determine. */
  ghost predicate Reads(field: StandingRecord -> int, g: Game -> int, row: Row, games: seq<Game>) {
    forall rank, count, status :: field(RecordFrom(row, rank, count, status)) == Sum(g, games)
  }

  function ValueOf(field: StandingRecord -> int): Row -> int {
    (row: Row) => field(RecordFrom(row, 0, 0, InProgress))
  }

  /** The field depends on the row alone, not on its rank. */
  ghost predicate RankFree(field: StandingRecord -> int, row: Row) {
    forall rank, count, status :: field(RecordFrom(row, rank, count, status)) == ValueOf(field)(row)
  }

  lemma RankFreeRow(field: StandingRecord -> int, g: Game -> int, row: Row, games: seq<Game>)
    requires Reads(field, g, row, games)
    ensures RankFree(field, row) && ValueOf(field)(row) == Sum(g, games)
  {
  }

  lemma RecordsAsRows(field: StandingRecord -> int, ordered: seq<Row>, playoffTeamCount: int, status: ResultStatus)
    requires forall row :: row in ordered ==> RankFree(field, row)
    ensures Sum(field, RecordsFrom(ordered, playoffTeamCount, status)) == Sum(ValueOf(field), ordered)
  {
    forall i | 0 <= i < |ordered|
      ensures field(RecordsFrom(ordered, playoffTeamCount, status)[i]) == ValueOf(field)(ordered[i])
    {
      assert RankFree(field, ordered[i]);
    }
    SumAlike(field, ValueOf(field), RecordsFrom(ordered, playoffTeamCount, status), ordered);
  }

  lemma RecordsTotal(
    field: StandingRecord -> int, g: Game -> int, input: StandingsInput, matchups: seq<Matchup>, rows: map<Id, Row>,
    playoffTeamCount: int, status: ResultStatus
  )
    requires RowsAccount(rows, input, matchups)
    requires forall team :: team in input.teams ==>
               Reads(field, g, rows[team.teamId], GamesOf(team.teamId, matchups))
    ensures
      var ordered := Sort(ByStanding(), RowsOf(input.teams, rows));
      Sum(field, RecordsFrom(ordered, playoffTeamCount, status)) == Sum(OverGames(g, matchups), TeamIdsOf(input.teams))
  {
    var listed := RowsOf(input.teams, rows);
    var ordered := Sort(ByStanding(), listed);
    SortContents(ByStanding(), listed);
    forall i | 0 <= i < |listed|
      ensures RankFree(field, listed[i])
      ensures ValueOf(field)(listed[i]) == OverGames(g, matchups)(TeamIdsOf(input.teams)[i])
    {
      RankFreeRow(field, g, rows[input.teams[i].teamId], GamesOf(input.teams[i].teamId, matchups));
    }
    RecordsAsRows(field, ordered, playoffTeamCount, status);
    SumPermutation(ValueOf(field), ordered, listed);
    SumAlike(ValueOf(field), OverGames(g, matchups), listed, TeamIdsOf(input.teams));
  }

  // ----- the laws -----

  function Wins(): StandingRecord -> int {
    (record: StandingRecord) => record.wins
  }

  function Losses(): StandingRecord -> int {
    (record: StandingRecord) => record.losses
  }

  function GamesPlayed(): StandingRecord -> int {
    (record: StandingRecord) => record.gamesPlayed
  }

  function PointsOf(): StandingRecord -> int {
    (record: StandingRecord) => record.standingPoints
  }

  function PointsFor(): StandingRecord -> int {
    (record: StandingRecord) => record.pointsFor
  }

  function PointsAgainst(): StandingRecord -> int {
    (record: StandingRecord) => record.pointsAgainst
  }

  function DifferentialOf(): StandingRecord -> int {
    (record: StandingRecord) => record.differential
  }

  /** What a game is worth in standing points, and its margin. */
  function Worth(): Game -> int {
    (game: Game) => 2 * Marks(W)(game) + Marks(T)(game)
  }

  function Margin(): Game -> int {
    (game: Game) => game.scored - game.conceded
  }

  lemma {:induction false} GameSums(games: seq<Game>)
    ensures Sum(One(), games) == Sum(Marks(W), games) + Sum(Marks(L), games) + Sum(Marks(T), games)
    ensures Sum(Worth(), games) == 2 * Sum(Marks(W), games) + Sum(Marks(T), games)
    ensures Sum(Margin(), games) == Sum(Scored(), games) - Sum(Conceded(), games)
  {
    if games != [] {
      GameSums(games[..|games| - 1]);
    }
  }

  /** The marks of a completed matchup balance. */
  lemma SidesBalance(matchup: Matchup)
    ensures BothSides(Marks(W))(matchup) == BothSides(Marks(L))(matchup)
    ensures BothSides(Scored())(matchup) == BothSides(Conceded())(matchup)
    ensures BothSides(Margin())(matchup) == 0
    ensures BothSides(One())(matchup) == BothSides(Worth())(matchup) == if Decided(matchup) then 2 else 0
  {
    if Decided(matchup) {
      var first, second := FirstGame(matchup), SecondGame(matchup);
      assert (first.mark, second.mark) in {(T, T), (W, L), (L, W)};
      assert Marks(W)(first) + Marks(W)(second) == Marks(L)(first) + Marks(L)(second);
      assert first.scored == second.conceded && first.conceded == second.scored;
      assert Worth()(first) + Worth()(second) == 2;
    }
  }

  lemma {:induction false} TwicePerMatchup(matchups: seq<Matchup>)
    requires forall matchup :: matchup in matchups ==> (matchup.status == Final <==> Decided(matchup))
    ensures Sum(BothSides(One()), matchups) == Sum(BothSides(Worth()), matchups) == 2 * Sum(Finished(), matchups)
    ensures Sum(BothSides(Margin()), matchups) == 0
  {
    if matchups != [] {
      assert matchups[|matchups| - 1] in matchups;
      SidesBalance(matchups[|matchups| - 1]);
      TwicePerMatchup(matchups[..|matchups| - 1]);
    }
  }

  /** What the records add up to, field by field. */
  ghost predicate Conserved(result: StandingsResult, matchups: seq<Matchup>) {
    && Sum(Wins(), result.records) == Sum(Losses(), result.records)
    && Sum(GamesPlayed(), result.records) == 2 * result.completedMatchupCount
    && Sum(PointsOf(), result.records) == 2 * result.completedMatchupCount
    && Sum(PointsFor(), result.records) == Sum(PointsAgainst(), result.records)
    && Sum(DifferentialOf(), result.records) == 0
    && result.completedMatchupCount + result.pendingMatchupCount == |matchups|
    && (forall record :: record in result.records ==> record.gamesPlayed == record.wins + record.losses + record.ties)
  }

  lemma RowReads(row: Row, team: StandingTeam, games: seq<Game>)
    requires Accounts(row, team, games)
    ensures Reads(Wins(), Marks(W), row, games) && Reads(Losses(), Marks(L), row, games)
    ensures Reads(GamesPlayed(), One(), row, games) && Reads(PointsOf(), Worth(), row, games)
    ensures Reads(PointsFor(), Scored(), row, games) && Reads(PointsAgainst(), Conceded(), row, games)
    ensures Reads(DifferentialOf(), Margin(), row, games)
    ensures row.gamesPlayed == row.wins + row.losses + row.ties
  {
    GameSums(games);
  }

  predicate Split(row: Row) {
    row.gamesPlayed == row.wins + row.losses + row.ties
  }

  lemma RowsSplit(input: StandingsInput, matchups: seq<Matchup>, rows: map<Id, Row>)
    requires RowsAccount(rows, input, matchups)
    ensures forall row :: row in RowsOf(input.teams, rows) ==> Split(row)
  {
    var listed := RowsOf(input.teams, rows);
    forall i | 0 <= i < |listed| ensures Split(listed[i]) {
      var team := input.teams[i];
      assert team in input.teams;
      RowReads(rows[team.teamId], team, GamesOf(team.teamId, matchups));
    }
  }

  lemma OrderedSplit(rows: seq<Row>, playoffTeamCount: int, status: ResultStatus)
    requires forall row :: row in rows ==> Split(row)
    ensures forall record :: record in RecordsFrom(Sort(ByStanding(), rows), playoffTeamCount, status) ==>
              record.gamesPlayed == record.wins + record.losses + record.ties
  {
    var ordered := Sort(ByStanding(), rows);
    var records := RecordsFrom(ordered, playoffTeamCount, status);
    forall record | record in records ensures record.gamesPlayed == record.wins + record.losses + record.ties {
      var i :| 0 <= i < |records| && records[i] == record;
      SortMember(ByStanding(), rows, i);
      assert Split(ordered[i]);
    }
  }

  lemma FieldTotal(
    field: StandingRecord -> int, g: Game -> int, input: StandingsInput, matchups: seq<Matchup>, rows: map<Id, Row>,
    playoffTeamCount: int, status: ResultStatus
  )
    requires Distinct(TeamIdsOf(input.teams)) && RowsAccount(rows, input, matchups)
    requires forall matchup :: matchup in matchups ==> Entered(matchup, input)
    requires forall row, team, games :: Accounts(row, team, games) ==> Reads(field, g, row, games)
    ensures Sum(field, RecordsFrom(Sort(ByStanding(), RowsOf(input.teams, rows)), playoffTeamCount, status))
         == Sum(BothSides(g), matchups)
  {
    RecordsTotal(field, g, input, matchups, rows, playoffTeamCount, status);
    TeamsTotal(g, TeamIdsOf(input.teams), matchups);
  }

  lemma RowsConserve(
    input: StandingsInput, matchups: seq<Matchup>, rows: map<Id, Row>, count: int, status: ResultStatus
  )
    requires Distinct(TeamIdsOf(input.teams)) && RowsAccount(rows, input, matchups)
    requires forall matchup :: matchup in matchups ==> Entered(matchup, input)
    ensures
      var records := RecordsFrom(Sort(ByStanding(), RowsOf(input.teams, rows)), count, status);
      && Sum(Wins(), records) == Sum(Losses(), records)
      && Sum(GamesPlayed(), records) == 2 * Sum(Finished(), matchups)
      && Sum(PointsOf(), records) == 2 * Sum(Finished(), matchups)
      && Sum(PointsFor(), records) == Sum(PointsAgainst(), records)
      && Sum(DifferentialOf(), records) == 0
  {
    forall row, team, games | Accounts(row, team, games)
      ensures Reads(Wins(), Marks(W), row, games) && Reads(Losses(), Marks(L), row, games)
      ensures Reads(GamesPlayed(), One(), row, games) && Reads(PointsOf(), Worth(), row, games)
      ensures Reads(PointsFor(), Scored(), row, games) && Reads(PointsAgainst(), Conceded(), row, games)
      ensures Reads(DifferentialOf(), Margin(), row, games)
    {
      RowReads(row, team, games);
    }
    FieldTotal(Wins(), Marks(W), input, matchups, rows, count, status);
    FieldTotal(Losses(), Marks(L), input, matchups, rows, count, status);
    FieldTotal(GamesPlayed(), One(), input, matchups, rows, count, status);
    FieldTotal(PointsOf(), Worth(), input, matchups, rows, count, status);
    FieldTotal(PointsFor(), Scored(), input, matchups, rows, count, status);
    FieldTotal(PointsAgainst(), Conceded(), input, matchups, rows, count, status);
    FieldTotal(DifferentialOf(), Margin(), input, matchups, rows, count, status);
    forall matchup | matchup in matchups
      ensures BothSides(Marks(W))(matchup) == BothSides(Marks(L))(matchup)
      ensures BothSides(Scored())(matchup) == BothSides(Conceded())(matchup)
    {
      SidesBalance(matchup);
    }
    SumEqual(BothSides(Marks(W)), BothSides(Marks(L)), matchups);
    SumEqual(BothSides(Scored()), BothSides(Conceded()), matchups);
    TwicePerMatchup(matchups);
  }

  /** Wins equal losses, games and standing points are two per completed matchup, points for equal points against,
      the differentials cancel, and every matchup is either completed or pending. */
  lemma StandingsConserve(
    input: StandingsInput, matchups: seq<Matchup>, authority: Authority, previous: Option<StandingsResult>
  )
    requires CalculateStandings(input, matchups, authority, previous).Ok?
    ensures Conserved(CalculateStandings(input, matchups, authority, previous).value, matchups)
  {
    ResultFromTable(input, matchups, authority, previous);
    var result := CalculateStandings(input, matchups, authority, previous).value;
    ResultConserves(input, matchups, result);
  }

  lemma ResultConserves(input: StandingsInput, matchups: seq<Matchup>, result: StandingsResult)
    requires Distinct(TeamIdsOf(input.teams)) && Tabulate(matchups, input).Ok?
    requires forall team :: team in input.teams ==> team.teamId in Tabulate(matchups, input).value.rows
    requires
      var table := Tabulate(matchups, input).value;
      && result.records == RecordsFrom(Sort(ByStanding(), RowsOf(input.teams, table.rows)), input.playoffTeamCount,
                                       result.status)
      && result.completedMatchupCount == table.completed
      && result.pendingMatchupCount == table.pending
    ensures Conserved(result, matchups)
  {
    var table := Tabulate(matchups, input).value;
    TableAccounts(matchups, input);
    AllEntered(matchups, input);
    RowsConserve(input, matchups, table.rows, input.playoffTeamCount, result.status);
    RowsSplit(input, matchups, table.rows);
    OrderedSplit(RowsOf(input.teams, table.rows), input.playoffTeamCount, result.status);
  }
}
