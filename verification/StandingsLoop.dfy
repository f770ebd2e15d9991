/** The mutable rows and the loops of calculateFantasyStandings, against the functions that specify them. */
module StandingsLoop {
  import opened Base
  import opened Errors
  import opened Ordering
  import opened FantasyDomain
  import opened PlayerScoring
  import opened ScoringRevisions
  import opened TeamPeriods
  import opened Matchups
  import opened Standings

  lemma {:induction false} MergingStops(totals: seq<CategoryTotal>, categories: seq<CategoryTotal>, n: nat)
    requires n <= |categories| && AddCategories(totals, categories[..n]).Err?
    ensures AddCategories(totals, categories) == AddCategories(totals, categories[..n])
  {
    if n == |categories| {
      assert categories[..n] == categories;
    } else {
      var init := categories[..|categories| - 1];
      assert init[..n] == categories[..n];
      MergingStops(totals, init, n);
    }
  }

  class MutableStanding {
    const team: StandingTeam
    var gamesPlayed: nat
    var wins: nat
    var losses: nat
    var ties: nat
    var pointsFor: int
    var pointsAgainst: int
    var categoryTotals: seq<CategoryTotal>
    var outcomes: seq<Marked>

    function Value(): Row
      reads this
    {
      Row(team, gamesPlayed, wins, losses, ties, pointsFor, pointsAgainst, categoryTotals, outcomes)
    }

    constructor (team: StandingTeam)
      ensures Value() == NewRow(team)
    {
      this.team := team;
      gamesPlayed, wins, losses, ties := 0, 0, 0, 0;
      pointsFor, pointsAgainst := 0, 0;
      categoryTotals, outcomes := [], [];
    }

    method CountGame(scored: int, conceded: int) returns (verdict: Check<Fault>)
      modifies this
      ensures verdict.Pass? <==> WithPoints(old(Value()), scored, conceded).Ok?
      ensures verdict.Pass? ==> Value() == WithPoints(old(Value()), scored, conceded).value
      ensures verdict.Fail? ==> verdict.error == WithPoints(old(Value()), scored, conceded).error
    {
      gamesPlayed := gamesPlayed + 1;
      if !IsSafe(pointsFor + scored) || !IsSafe(pointsAgainst + conceded) {
        return Fail(ScoringFault(UnsafeArithmetic));
      }
      pointsFor := pointsFor + scored;
      pointsAgainst := pointsAgainst + conceded;
      return Pass;
    }

    /** addCategories. */
    method MergeCategories(categories: seq<CategoryTotal>) returns (verdict: Check<Fault>)
      modifies this`categoryTotals
      ensures verdict.Pass? <==> AddCategories(old(categoryTotals), categories).Ok?
      ensures verdict.Pass? ==> categoryTotals == AddCategories(old(categoryTotals), categories).value
      ensures verdict.Fail? ==> verdict.error == AddCategories(old(categoryTotals), categories).error
    {
      for i := 0 to |categories|
        invariant AddCategories(old(categoryTotals), categories[..i]) == Ok(categoryTotals)
      {
        assert categories[..i + 1][..i] == categories[..i];
        var next := AddCategory(categoryTotals, categories[i]);
        if next.Err? {
          MergingStops(old(categoryTotals), categories, i + 1);
          return Fail(next.error);
        }
        categoryTotals := next.value;
      }
      assert categories[..|categories|] == categories;
      return Pass;
    }

    method Enter(sequence: int, mark: Mark)
      modifies this
      ensures Value() == WithMark(old(Value()), sequence, mark)
    {
      match mark {
        case W => wins := wins + 1;
        case L => losses := losses + 1;
        case T => ties := ties + 1;
      }
      outcomes := outcomes + [Marked(sequence, mark)];
    }
  }

  /** The part of the loop body for a final matchup. */
  method PlayMatchup(first: MutableStanding, second: MutableStanding, matchup: Matchup) returns (verdict: Check<Fault>)
    requires first != second
    modifies first, second
    ensures verdict.Pass? <==> Play(old(first.Value()), old(second.Value()), matchup).Ok?
    ensures verdict.Pass? ==>
              (first.Value(), second.Value()) == Play(old(first.Value()), old(second.Value()), matchup).value
    ensures verdict.Fail? ==> verdict.error == Play(old(first.Value()), old(second.Value()), matchup).error
  {
    verdict := first.CountGame(matchup.first.totalMilliPoints, matchup.second.totalMilliPoints);
    if verdict.Fail? {
      return;
    }
    verdict := second.CountGame(matchup.second.totalMilliPoints, matchup.first.totalMilliPoints);
    if verdict.Fail? {
      return;
    }
    verdict := first.MergeCategories(matchup.first.categoryTotals);
    if verdict.Fail? {
      return;
    }
    verdict := second.MergeCategories(matchup.second.categoryTotals);
    if verdict.Fail? {
      return;
    }
    var marks := MarksOf(matchup);
    if marks.None? {
      return Fail(ScoringFault(StandingsInvalid));
    }
    first.Enter(matchup.period.sequence, marks.value.0);
    second.Enter(matchup.period.sequence, marks.value.1);
  }

  /** The map of mutable rows shows the rows of a table, one object each. */
  ghost predicate Shows(standings: map<Id, MutableStanding>, rows: map<Id, Row>)
    reads standings.Values
  {
    && standings.Keys == rows.Keys
    && (forall id :: id in standings ==> standings[id].Value() == rows[id])
    && (forall id, other :: id in standings && other in standings && id != other ==> standings[id] != standings[other])
  }

  method OpenRows(teams: seq<StandingTeam>) returns (standings: map<Id, MutableStanding>)
    ensures Shows(standings, NewRows(teams))
    ensures forall id :: id in standings ==> fresh(standings[id])
  {
    standings := map[];
    for i := 0 to |teams|
      invariant Shows(standings, NewRows(teams[..i]))
      invariant forall id :: id in standings ==> fresh(standings[id])
    {
      assert teams[..i + 1][..i] == teams[..i];
      var standing := new MutableStanding(teams[i]);
      standings := standings[teams[i].teamId := standing];
    }
    assert teams[..|teams|] == teams;
  }

  lemma {:induction false} TabulatingStops(matchups: seq<Matchup>, n: nat, input: StandingsInput)
    requires n <= |matchups| && Tabulate(matchups[..n], input).Err?
    ensures Tabulate(matchups, input) == Tabulate(matchups[..n], input)
  {
    if n == |matchups| {
      assert matchups[..n] == matchups;
    } else {
      var init := matchups[..|matchups| - 1];
      assert init[..n] == matchups[..n];
      TabulatingStops(init, n, input);
    }
  }

  lemma TabulateNext(matchups: seq<Matchup>, i: nat, input: StandingsInput)
    requires i < |matchups| && Tabulate(matchups[..i], input).Ok?
    ensures Tabulate(matchups[..i + 1], input) == EnterMatchup(Tabulate(matchups[..i], input).value, matchups[i], input)
  {
    assert matchups[..i + 1][..i] == matchups[..i];
  }

  /** What the loop body checks before it touches a row. */
  function Admit(
    keys: set<Id>, seen: set<(Id, int)>, matchup: Matchup, input: StandingsInput
  ): (admitted: Result<set<(Id, int)>, Fault>)
    ensures admitted.Ok? ==>
              matchup.first.teamId in keys && matchup.second.teamId in keys &&
              matchup.first.teamId != matchup.second.teamId
  {
    var first, second := matchup.first.teamId, matchup.second.teamId;
    :- Need(matchup.accountId == input.accountId && matchup.leagueId == input.leagueId,
            ScoringFault(ScoringCode.AccountMismatch));
    :- Need(matchup.period.phase == RegularSeason, ScoringFault(StandingsInvalid));
    :- Need(first in keys && second in keys, ScoringFault(StandingsInvalid));
    Register(seen, matchup)
  }

  lemma AdmitThenEnter(table: Table, matchup: Matchup, input: StandingsInput)
    ensures
      var admitted := Admit(table.rows.Keys, table.seen, matchup, input);
      EnterMatchup(table, matchup, input) ==
      if admitted.Err? then Err(admitted.error)
      else if matchup.status != Final then Ok(table.(seen := admitted.value, pending := table.pending + 1))
      else
        var rows := Play(table.rows[matchup.first.teamId], table.rows[matchup.second.teamId], matchup);
        if rows.Err? then Err(rows.error)
        else Ok(Table(table.rows[matchup.first.teamId := rows.value.0][matchup.second.teamId := rows.value.1],
                      admitted.value, table.completed + 1, table.pending))
  {
  }

  method PlayInTable(
    standings: map<Id, MutableStanding>, ghost rows: map<Id, Row>, matchup: Matchup
  ) returns (verdict: Check<Fault>)
    requires Shows(standings, rows) && matchup.first.teamId in standings && matchup.second.teamId in standings
    requires matchup.first.teamId != matchup.second.teamId
    modifies standings.Values
    ensures
      var played := Play(rows[matchup.first.teamId], rows[matchup.second.teamId], matchup);
      && (verdict.Pass? <==> played.Ok?)
      && (verdict.Pass? ==>
            Shows(standings, rows[matchup.first.teamId := played.value.0][matchup.second.teamId := played.value.1]))
      && (verdict.Fail? ==> verdict.error == played.error)
  {
    verdict := PlayMatchup(standings[matchup.first.teamId], standings[matchup.second.teamId], matchup);
  }

  /** One pass of the loop body. */
  method EnterOne(
    standings: map<Id, MutableStanding>, ghost table: Table, seen: set<(Id, int)>, matchup: Matchup,
    input: StandingsInput
  )
    returns (verdict: Check<Fault>, admitted: set<(Id, int)>, ghost entered: Result<Table, Fault>)
    requires Shows(standings, table.rows) && seen == table.seen
    modifies standings.Values
    ensures entered == EnterMatchup(table, matchup, input)
    ensures verdict.Pass? <==> entered.Ok?
    ensures verdict.Pass? ==>
              && Shows(standings, entered.value.rows)
              && admitted == entered.value.seen
              && entered.value.completed == table.completed + (if matchup.status == Final then 1 else 0)
              && entered.value.pending == table.pending + (if matchup.status == Final then 0 else 1)
    ensures verdict.Fail? ==> verdict.error == entered.error
  {
    entered := EnterMatchup(table, matchup, input);
    AdmitThenEnter(table, matchup, input);
    var admission := Admit(standings.Keys, seen, matchup, input);
    if admission.Err? {
      return Fail(admission.error), seen, entered;
    }
    admitted := admission.value;
    verdict := Pass;
    if matchup.status == Final {
      verdict := PlayInTable(standings, table.rows, matchup);
    }
  }

  /** The loop over the matchups. */
  method TabulateMatchups(matchups: seq<Matchup>, input: StandingsInput)
    returns (standings: map<Id, MutableStanding>, verdict: Check<Fault>, completed: nat, pending: nat)
    ensures verdict.Pass? <==> Tabulate(matchups, input).Ok?
    ensures verdict.Fail? ==> verdict.error == Tabulate(matchups, input).error
    ensures verdict.Pass? ==>
              var table := Tabulate(matchups, input).value;
              Shows(standings, table.rows) && completed == table.completed && pending == table.pending
  {
    standings := OpenRows(input.teams);
    var seen: set<(Id, int)> := {};
    completed, pending, verdict := 0, 0, Pass;
    ghost var table := Table(NewRows(input.teams), {}, 0, 0);
    ghost var entered: Result<Table, Fault>;
    for i := 0 to |matchups|
      invariant verdict == Pass && Tabulate(matchups[..i], input) == Ok(table)
      invariant Shows(standings, table.rows) && forall id :: id in standings ==> fresh(standings[id])
      invariant seen == table.seen && completed == table.completed && pending == table.pending
    {
      TabulateNext(matchups, i, input);
      verdict, seen, entered := EnterOne(standings, table, seen, matchups[i], input);
      if verdict.Fail? {
        TabulatingStops(matchups, i + 1, input);
        return;
      }
      if matchups[i].status == Final {
        completed := completed + 1;
      } else {
        pending := pending + 1;
      }
      table := entered.value;
    }
    assert matchups[..|matchups|] == matchups;
  }

  /** The value of every row, in the order of the teams. */
  method ReadRows(
    teams: seq<StandingTeam>, standings: map<Id, MutableStanding>, ghost rows: map<Id, Row>
  ) returns (values: seq<Row>)
    requires Shows(standings, rows) && forall team :: team in teams ==> team.teamId in rows
    ensures values == RowsOf(teams, rows)
  {
    values := [];
    for i := 0 to |teams|
      invariant |values| == i && forall k :: 0 <= k < i ==> values[k] == rows[teams[k].teamId]
    {
      assert teams[i] in teams;
      values := values + [standings[teams[i].teamId].Value()];
    }
  }

  lemma TrailingNext(outcomes: seq<Marked>, n: nat, mark: Mark)
    requires 0 < n <= |outcomes|
    ensures Trailing(outcomes[..n], mark) ==
              if outcomes[n - 1].mark == mark then 1 + Trailing(outcomes[..n - 1], mark) else 0
  {
    assert outcomes[..n][..n - 1] == outcomes[..n - 1];
  }

  method CurrentStreak(outcomes: seq<Marked>) returns (streak: Streak)
    ensures streak == StreakOf(outcomes)
  {
    if outcomes == [] {
      return NoStreak;
    }
    var sorted := Sort(BySequence(), outcomes);
    SortContents(BySequence(), outcomes);
    var latest := sorted[|sorted| - 1].mark;
    var count, n := 0, |sorted|;
    assert sorted[..n] == sorted;
    while n > 0 && sorted[n - 1].mark == latest
      invariant 0 <= n <= |sorted|
      invariant count + Trailing(sorted[..n], latest) == Trailing(sorted, latest)
    {
      TrailingNext(sorted, n, latest);
      count, n := count + 1, n - 1;
    }
    if n > 0 {
      TrailingNext(sorted, n, latest);
    }
    return Streak(latest, count);
  }

  method CalculateStandingsResult(
    input: StandingsInput, matchups: seq<Matchup>, authority: Authority, previous: Option<StandingsResult>
  ) returns (result: Result<StandingsResult, Fault>)
    ensures result == CalculateStandings(input, matchups, authority, previous)
  {
    var guards := CheckStandings(input, matchups, authority);
    if guards.Fail? {
      return Err(guards.error);
    }
    var standings, verdict, completed, pending := TabulateMatchups(matchups, input);
    if verdict.Fail? {
      return Err(verdict.error);
    }
    ghost var table := Tabulate(matchups, input).value;
    RowsExist(matchups, input);
    var rows := ReadRows(input.teams, standings, table.rows);
    if exists row :: row in rows && !IsSafe(Differential(row)) {
      return Err(ScoringFault(UnsafeArithmetic));
    }
    return Publish(input, matchups, Sort(ByStanding(), rows), completed, pending, previous);
  }
}
