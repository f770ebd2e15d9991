/** The ranking, its independence of the order of the input, and the streaks. */
module StandingsOrder {
  import opened Base
  import opened Ordering
  import opened FantasyDomain
  import opened ScoringRevisions
  import opened Matchups
  import opened Standings
  import opened StandingsGames
  import opened StandingsCategories

  // ----- the ranking -----

  /** Strictly better in the lexicographic key of points, differential, points for and seed. */
  predicate Above(left: StandingRecord, right: StandingRecord) {
    || left.standingPoints > right.standingPoints
    || (left.standingPoints == right.standingPoints &&
          (|| left.differential > right.differential
           || (left.differential == right.differential &&
                 (|| left.pointsFor > right.pointsFor
                  || (left.pointsFor == right.pointsFor && left.team.seed < right.team.seed)))))
  }

  function TeamOfRow(): Row -> StandingTeam {
    (row: Row) => row.team
  }

  function TeamOfRecord(): StandingRecord -> StandingTeam {
    (record: StandingRecord) => record.team
  }

  /** The records list every team once, numbered from one, each strictly above the next. */
  ghost predicate Ranked(records: seq<StandingRecord>, teams: seq<StandingTeam>) {
    && multiset(Map(TeamOfRecord(), records)) == multiset(teams)
    && (forall i :: 0 <= i < |records| ==> records[i].rank == i + 1)
    && (forall i, j :: 0 <= i < j < |records| ==> Above(records[i], records[j]))
  }

  lemma StandingOrder()
    ensures TotalOrder(ByStanding())
  {
  }

  function SeedsOfRows(rows: seq<Row>): seq<int> {
    seq(|rows|, i requires 0 <= i < |rows| => rows[i].team.seed)
  }

  lemma SeedsStayApart(xs: seq<Row>, ys: seq<Row>)
    requires multiset(xs) == multiset(ys) && Distinct(SeedsOfRows(xs))
    ensures Distinct(SeedsOfRows(ys))
  {
    var seed := (row: Row) => row.team.seed;
    MapPermutation(seed, xs, ys);
    assert SeedsOfRows(xs) == Map(seed, xs) && SeedsOfRows(ys) == Map(seed, ys);
    DistinctPermutation(SeedsOfRows(xs), SeedsOfRows(ys));
  }

  lemma TieMeansSameSeed(left: Row, right: Row, i: nat, j: nat, playoffTeamCount: int, status: ResultStatus)
    requires ByStanding()(left, right) && left.team.seed != right.team.seed
    ensures Above(RecordFrom(left, i, playoffTeamCount, status), RecordFrom(right, j, playoffTeamCount, status))
  {
  }

  lemma OrderedAbove(ordered: seq<Row>, playoffTeamCount: int, status: ResultStatus)
    requires Sorted(ByStanding(), ordered) && Distinct(SeedsOfRows(ordered))
    ensures
      var records := RecordsFrom(ordered, playoffTeamCount, status);
      forall i, j :: 0 <= i < j < |records| ==> Above(records[i], records[j])
  {
    forall i, j | 0 <= i < j < |ordered|
      ensures Above(RecordFrom(ordered[i], i + 1, playoffTeamCount, status),
                    RecordFrom(ordered[j], j + 1, playoffTeamCount, status))
    {
      assert SeedsOfRows(ordered)[i] != SeedsOfRows(ordered)[j];
      TieMeansSameSeed(ordered[i], ordered[j], i + 1, j + 1, playoffTeamCount, status);
    }
  }

  lemma RecordTeams(ordered: seq<Row>, playoffTeamCount: int, status: ResultStatus)
    ensures Map(TeamOfRecord(), RecordsFrom(ordered, playoffTeamCount, status)) == Map(TeamOfRow(), ordered)
  {
  }

  lemma SeedsOfTeams(rows: seq<Row>)
    ensures SeedsOfRows(rows) == SeedsOf(Map(TeamOfRow(), rows))
  {
  }

  lemma RowsOrdered(rows: seq<Row>)
    requires Distinct(SeedsOfRows(rows))
    ensures multiset(Sort(ByStanding(), rows)) == multiset(rows)
    ensures Sorted(ByStanding(), Sort(ByStanding(), rows)) && Distinct(SeedsOfRows(Sort(ByStanding(), rows)))
  {
    StandingOrder();
    SortSorted(ByStanding(), rows);
    SortMultiset(ByStanding(), rows);
    SeedsStayApart(rows, Sort(ByStanding(), rows));
  }

  lemma OrderedRanked(ordered: seq<Row>, rows: seq<Row>, playoffTeamCount: int, status: ResultStatus)
    requires Sorted(ByStanding(), ordered) && Distinct(SeedsOfRows(ordered)) && multiset(ordered) == multiset(rows)
    ensures Ranked(RecordsFrom(ordered, playoffTeamCount, status), Map(TeamOfRow(), rows))
  {
    MapPermutation(TeamOfRow(), ordered, rows);
    RecordTeams(ordered, playoffTeamCount, status);
    OrderedAbove(ordered, playoffTeamCount, status);
  }

  lemma RowsRanked(rows: seq<Row>, playoffTeamCount: int, status: ResultStatus)
    requires Distinct(SeedsOfRows(rows))
    ensures Ranked(RecordsFrom(Sort(ByStanding(), rows), playoffTeamCount, status), Map(TeamOfRow(), rows))
  {
    RowsOrdered(rows);
    OrderedRanked(Sort(ByStanding(), rows), rows, playoffTeamCount, status);
  }

  /** The published records are a strict ranking of the league's teams. */
  lemma StandingsAreRanked(
    input: StandingsInput, matchups: seq<Matchup>, authority: Authority, previous: Option<StandingsResult>
  )
    requires CalculateStandings(input, matchups, authority, previous).Ok?
    ensures Ranked(CalculateStandings(input, matchups, authority, previous).value.records, input.teams)
  {
    ResultFromTable(input, matchups, authority, previous);
    var result := CalculateStandings(input, matchups, authority, previous).value;
    TableRanked(input, matchups, result.status);
  }

  lemma TableRanked(input: StandingsInput, matchups: seq<Matchup>, status: ResultStatus)
    requires Distinct(TeamIdsOf(input.teams)) && Distinct(SeedsOf(input.teams)) && Tabulate(matchups, input).Ok?
    requires forall team :: team in input.teams ==> team.teamId in Tabulate(matchups, input).value.rows
    ensures
      var rows := RowsOf(input.teams, Tabulate(matchups, input).value.rows);
      Ranked(RecordsFrom(Sort(ByStanding(), rows), input.playoffTeamCount, status), input.teams)
  {
    var rows := RowsOf(input.teams, Tabulate(matchups, input).value.rows);
    TableAccounts(matchups, input);
    forall i | 0 <= i < |rows| ensures rows[i].team == input.teams[i] {
      assert input.teams[i] in input.teams;
    }
    assert Map(TeamOfRow(), rows) == input.teams;
    SeedsOfTeams(rows);
    RowsRanked(rows, input.playoffTeamCount, status);
  }

  // ----- one game to a team and period -----

  ghost predicate SeenGames(seen: set<(Id, int)>, teamId: Id, games: seq<Game>) {
    && (forall game :: game in games ==> (teamId, game.sequence) in seen)
    && forall i, j :: 0 <= i < j < |games| ==> games[i].sequence != games[j].sequence
  }

  lemma {:induction false} GamesApart(matchups: seq<Matchup>, input: StandingsInput, teamId: Id)
    requires Tabulate(matchups, input).Ok?
    ensures SeenGames(Tabulate(matchups, input).value.seen, teamId, GamesOf(teamId, matchups))
  {
    if matchups != [] {
      var init, last := matchups[..|matchups| - 1], matchups[|matchups| - 1];
      GamesApart(init, input, teamId);
      var table, next := Tabulate(init, input).value, Tabulate(matchups, input).value;
      assert next.seen == table.seen +
             {(last.first.teamId, last.period.sequence), (last.second.teamId, last.period.sequence)};
    }
  }

  // ----- the order of the input does not matter -----

  /** A row with its lists in their published order. */
  function Canonical(): Row -> Row {
    (row: Row) => row.(categoryTotals := Sort(ByCategory(), row.categoryTotals),
                       outcomes := Sort(BySequence(), row.outcomes))
  }

  lemma CanonicalRecord(row: Row, rank: nat, playoffTeamCount: int, status: ResultStatus)
    ensures RecordFrom(Canonical()(row), rank, playoffTeamCount, status) ==
              RecordFrom(row, rank, playoffTeamCount, status)
  {
    assert TotalOrder(ByCategory()) && TotalOrder(BySequence());
    SortSorted(ByCategory(), row.categoryTotals);
    SortOfSorted(ByCategory(), Sort(ByCategory(), row.categoryTotals));
    SortSorted(BySequence(), row.outcomes);
    SortOfSorted(BySequence(), Sort(BySequence(), row.outcomes));
    SortContents(BySequence(), row.outcomes);
  }

  lemma OutcomesIgnoreOrder(xs: seq<Game>, ys: seq<Game>)
    requires multiset(xs) == multiset(ys)
    requires forall i, j :: 0 <= i < j < |xs| ==> xs[i].sequence != xs[j].sequence
    ensures Sort(BySequence(), Map(MarkedIn(), xs)) == Sort(BySequence(), Map(MarkedIn(), ys))
  {
    var left, right := Map(MarkedIn(), xs), Map(MarkedIn(), ys);
    MapPermutation(MarkedIn(), xs, ys);
    forall x, y | x in left && y in left && x.sequence == y.sequence ensures x == y {
      var i :| 0 <= i < |left| && left[i] == x;
      var j :| 0 <= j < |left| && left[j] == y;
    }
    assert TotalOrder(BySequence());
    SortPermutation(BySequence(), left, right);
  }

  /** Two accounts of the same games, in whatever order, publish the same row. */
  lemma RowsAgree(left: Row, right: Row, team: StandingTeam, xs: seq<Game>, ys: seq<Game>)
    requires Accounts(left, team, xs) && Accounts(right, team, ys) && multiset(xs) == multiset(ys)
    requires forall i, j :: 0 <= i < j < |xs| ==> xs[i].sequence != xs[j].sequence
    ensures Canonical()(left) == Canonical()(right)
  {
    SumPermutation(One(), xs, ys);
    SumPermutation(Marks(W), xs, ys);
    SumPermutation(Marks(L), xs, ys);
    SumPermutation(Marks(T), xs, ys);
    SumPermutation(Scored(), xs, ys);
    SumPermutation(Conceded(), xs, ys);
    FlatPermutation(CategoriesIn(), xs, ys);
    CategoriesIgnoreOrder(Flat(CategoriesIn(), xs), Flat(CategoriesIn(), ys));
    OutcomesIgnoreOrder(xs, ys);
  }

  /** The published row of a team. */
  function PublishedRow(rows: map<Id, Row>): StandingTeam -> Row {
    (team: StandingTeam) => if team.teamId in rows then Canonical()(rows[team.teamId]) else NewRow(team)
  }

  lemma TablesAgree(
    input: StandingsInput, matchups: seq<Matchup>, other: StandingsInput, permuted: seq<Matchup>, team: StandingTeam
  )
    requires Distinct(TeamIdsOf(input.teams)) && Distinct(TeamIdsOf(other.teams))
    requires Tabulate(matchups, input).Ok? && Tabulate(permuted, other).Ok? && multiset(permuted) == multiset(matchups)
    requires team in input.teams && team in other.teams
    ensures PublishedRow(Tabulate(matchups, input).value.rows)(team) ==
              PublishedRow(Tabulate(permuted, other).value.rows)(team)
  {
    TableAccounts(matchups, input);
    TableAccounts(permuted, other);
    GamesApart(matchups, input, team.teamId);
    FlatPermutation(GamesIn(team.teamId), matchups, permuted);
    RowsAgree(Tabulate(matchups, input).value.rows[team.teamId], Tabulate(permuted, other).value.rows[team.teamId],
              team, GamesOf(team.teamId, matchups), GamesOf(team.teamId, permuted));
  }

  lemma SameStanding(x: Row, y: Row)
    ensures ByStanding()(Canonical()(x), Canonical()(y)) == ByStanding()(x, y)
  {
    var x', y' := Canonical()(x), Canonical()(y);
    assert StandingPoints(x') == StandingPoints(x) && StandingPoints(y') == StandingPoints(y);
    assert Differential(x') == Differential(x) && Differential(y') == Differential(y);
  }

  lemma CanonicalRecords(ordered: seq<Row>, playoffTeamCount: int, status: ResultStatus)
    ensures RecordsFrom(Map(Canonical(), ordered), playoffTeamCount, status) ==
              RecordsFrom(ordered, playoffTeamCount, status)
  {
    forall i | 0 <= i < |ordered|
      ensures RecordFrom(Map(Canonical(), ordered)[i], i + 1, playoffTeamCount, status)
           == RecordFrom(ordered[i], i + 1, playoffTeamCount, status)
    {
      CanonicalRecord(ordered[i], i + 1, playoffTeamCount, status);
    }
  }

  lemma RecordsAreCanonical(rows: seq<Row>, playoffTeamCount: int, status: ResultStatus)
    ensures RecordsFrom(Sort(ByStanding(), rows), playoffTeamCount, status)
         == RecordsFrom(Sort(ByStanding(), Map(Canonical(), rows)), playoffTeamCount, status)
  {
    forall x, y ensures ByStanding()(Canonical()(x), Canonical()(y)) == ByStanding()(x, y) {
      SameStanding(x, y);
    }
    SortMap(ByStanding(), ByStanding(), Canonical(), rows);
    CanonicalRecords(Sort(ByStanding(), rows), playoffTeamCount, status);
  }

  lemma IdsSeparate(teams: seq<StandingTeam>, rows: seq<Row>)
    requires Distinct(TeamIdsOf(teams)) && |rows| == |teams| && forall i :: 0 <= i < |rows| ==> rows[i].team == teams[i]
    ensures Strict(ByStanding(), rows)
  {
    forall x, y | x in rows && y in rows && ByStanding()(x, y) && ByStanding()(y, x) ensures x == y {
      var i :| 0 <= i < |rows| && rows[i] == x;
      var j :| 0 <= j < |rows| && rows[j] == y;
      assert TeamIdsOf(teams)[i] == TeamIdsOf(teams)[j];
    }
  }

  lemma PublishedRows(teams: seq<StandingTeam>, rows: map<Id, Row>)
    requires forall team :: team in teams ==> team.teamId in rows
    ensures Map(Canonical(), RowsOf(teams, rows)) == Map(PublishedRow(rows), teams)
  {
  }

  lemma MapAgree(f: StandingTeam -> Row, g: StandingTeam -> Row, teams: seq<StandingTeam>)
    requires forall team :: team in teams ==> f(team) == g(team)
    ensures Map(f, teams) == Map(g, teams)
  {
  }

  /** Two inputs that list the same teams and the same matchups, each in its own order. */
  ghost predicate SameSeason(
    input: StandingsInput, matchups: seq<Matchup>, other: StandingsInput, permuted: seq<Matchup>
  )
  {
    && multiset(other.teams) == multiset(input.teams)
    && multiset(permuted) == multiset(matchups)
    && other.playoffTeamCount == input.playoffTeamCount
    && other.regularSeasonComplete == input.regularSeasonComplete
  }

  lemma RankingsAgree(
    input: StandingsInput, matchups: seq<Matchup>, other: StandingsInput, permuted: seq<Matchup>, status: ResultStatus
  )
    requires Distinct(TeamIdsOf(input.teams)) && Distinct(TeamIdsOf(other.teams)) &&
             SameSeason(input, matchups, other, permuted)
    requires Tabulate(matchups, input).Ok? && Tabulate(permuted, other).Ok?
    requires forall team :: team in input.teams ==> team.teamId in Tabulate(matchups, input).value.rows
    requires forall team :: team in other.teams ==> team.teamId in Tabulate(permuted, other).value.rows
    ensures RecordsFrom(Sort(ByStanding(), RowsOf(input.teams, Tabulate(matchups, input).value.rows)),
                        input.playoffTeamCount, status)
         == RecordsFrom(Sort(ByStanding(), RowsOf(other.teams, Tabulate(permuted, other).value.rows)),
                        input.playoffTeamCount, status)
  {
    var rows, rows' := Tabulate(matchups, input).value.rows, Tabulate(permuted, other).value.rows;
    var left, right := Map(PublishedRow(rows), input.teams), Map(PublishedRow(rows'), other.teams);
    SameMembers(other.teams, input.teams);
    forall team | team in other.teams ensures PublishedRow(rows)(team) == PublishedRow(rows')(team) {
      assert team in input.teams;
      TablesAgree(input, matchups, other, permuted, team);
    }
    MapAgree(PublishedRow(rows), PublishedRow(rows'), other.teams);
    MapPermutation(PublishedRow(rows), input.teams, other.teams);
    PublishedRows(input.teams, rows);
    PublishedRows(other.teams, rows');
    RecordsAreCanonical(RowsOf(input.teams, rows), input.playoffTeamCount, status);
    RecordsAreCanonical(RowsOf(other.teams, rows'), input.playoffTeamCount, status);
    PublishedTeams(input, matchups);
    IdsSeparate(input.teams, left);
    StandingOrder();
    SortPermutation(ByStanding(), left, right);
  }

  lemma PublishedTeams(input: StandingsInput, matchups: seq<Matchup>)
    requires Distinct(TeamIdsOf(input.teams)) && Tabulate(matchups, input).Ok?
    ensures
      var published := Map(PublishedRow(Tabulate(matchups, input).value.rows), input.teams);
      forall i :: 0 <= i < |published| ==> published[i].team == input.teams[i]
  {
    TableAccounts(matchups, input);
    var rows := Tabulate(matchups, input).value.rows;
    forall i | 0 <= i < |input.teams| ensures PublishedRow(rows)(input.teams[i]).team == input.teams[i] {
      var team := input.teams[i];
      assert team in input.teams;
      assert Accounts(rows[team.teamId], team, GamesOf(team.teamId, matchups));
      assert PublishedRow(rows)(team) == Canonical()(rows[team.teamId]);
    }
  }

  lemma {:induction false} LatestIsMax(matchups: seq<Matchup>)
    ensures LatestSequence(matchups) >= 0
    ensures forall matchup :: matchup in matchups ==> matchup.period.sequence <= LatestSequence(matchups)
    ensures LatestSequence(matchups) == 0 ||
            exists matchup :: matchup in matchups && matchup.period.sequence == LatestSequence(matchups)
  {
    if matchups != [] {
      var init, last := matchups[..|matchups| - 1], matchups[|matchups| - 1];
      LatestIsMax(init);
      assert matchups == init + [last];
      assert last in matchups;
    }
  }

  lemma LatestIgnoresOrder(matchups: seq<Matchup>, permuted: seq<Matchup>)
    requires multiset(permuted) == multiset(matchups)
    ensures LatestSequence(permuted) == LatestSequence(matchups)
  {
    SameMembers(permuted, matchups);
    LatestIsMax(permuted);
    LatestIsMax(matchups);
  }

  /** Whenever both calculations succeed, listing matchups or teams in another order publishes the same standings. */
  lemma StandingsIgnoreOrder(
    input: StandingsInput, matchups: seq<Matchup>, authority: Authority, previous: Option<StandingsResult>,
    other: StandingsInput, permuted: seq<Matchup>, authority': Authority, previous': Option<StandingsResult>
  )
    requires SameSeason(input, matchups, other, permuted)
    requires CalculateStandings(input, matchups, authority, previous).Ok?
    requires CalculateStandings(other, permuted, authority', previous').Ok?
    ensures
      var left := CalculateStandings(input, matchups, authority, previous).value;
      var right := CalculateStandings(other, permuted, authority', previous').value;
      && left.records == right.records
      && left.status == right.status
      && left.completedMatchupCount == right.completedMatchupCount
      && left.pendingMatchupCount == right.pendingMatchupCount
      && left.throughPeriodSequence == right.throughPeriodSequence
  {
    ResultFromTable(input, matchups, authority, previous);
    ResultFromTable(other, permuted, authority', previous');
    CountsAgree(input, matchups, other, permuted);
    LatestIgnoresOrder(matchups, permuted);
    RankingsAgree(input, matchups, other, permuted,
                  CalculateStandings(input, matchups, authority, previous).value.status);
  }

  lemma CountsAgree(input: StandingsInput, matchups: seq<Matchup>, other: StandingsInput, permuted: seq<Matchup>)
    requires Tabulate(matchups, input).Ok? && Tabulate(permuted, other).Ok? && multiset(permuted) == multiset(matchups)
    ensures Tabulate(permuted, other).value.completed == Tabulate(matchups, input).value.completed
    ensures Tabulate(permuted, other).value.pending == Tabulate(matchups, input).value.pending
  {
    AllEntered(matchups, input);
    AllEntered(permuted, other);
    SumPermutation(Finished(), matchups, permuted);
    SameMembers(matchups, permuted);
  }

  // ----- streaks -----

  /** The streak counts the longest run of one mark that ends at the latest period. */
  lemma {:induction false} TrailingRun(outcomes: seq<Marked>, mark: Mark)
    ensures Trailing(outcomes, mark) <= |outcomes|
    ensures forall i :: |outcomes| - Trailing(outcomes, mark) <= i < |outcomes| ==> outcomes[i].mark == mark
    ensures Trailing(outcomes, mark) < |outcomes| ==> outcomes[|outcomes| - Trailing(outcomes, mark) - 1].mark != mark
  {
    if outcomes != [] && outcomes[|outcomes| - 1].mark == mark {
      var init := outcomes[..|outcomes| - 1];
      TrailingRun(init, mark);
      assert forall i :: 0 <= i < |init| ==> outcomes[i] == init[i];
    }
  }
}
