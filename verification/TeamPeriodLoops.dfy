/** The loops of calculateFantasyTeamPeriodResult, against the functions that specify them. */
module TeamPeriodLoops {
  import opened Base
  import opened Errors
  import opened FantasyRules
  import opened FantasyDomain
  import opened PlayerScoring
  import opened TeamPeriods

  lemma {:induction false} CollectingStops(statistics: seq<Source>, n: nat, input: Input, roster: Snapshot)
    requires n <= |statistics| && CollectSources(statistics[..n], input, roster).Err?
    ensures CollectSources(statistics, input, roster) == CollectSources(statistics[..n], input, roster)
  {
    if n == |statistics| {
      assert statistics[..n] == statistics;
    } else {
      var init := statistics[..|statistics| - 1];
      assert init[..n] == statistics[..n];
      CollectingStops(init, n, input, roster);
    }
  }

  lemma CollectingNext(statistics: seq<Source>, n: nat, input: Input, roster: Snapshot)
    requires n < |statistics| && CollectSources(statistics[..n], input, roster).Ok?
    ensures CollectSources(statistics[..n + 1], input, roster) ==
            CollectSource(CollectSources(statistics[..n], input, roster).value, statistics[n], input, roster)
  {
    assert statistics[..n + 1][..n] == statistics[..n];
  }

  method CollectStatistics(input: Input, roster: Snapshot) returns (sources: Result<map<Id, Source>, Fault>)
    ensures sources == CollectSources(input.statistics, input, roster)
  {
    var statistics := input.statistics;
    var sourcesBySlot: map<Id, Source> := map[];
    for i := 0 to |statistics|
      invariant CollectSources(statistics[..i], input, roster) == Ok(sourcesBySlot)
    {
      var next := CollectSource(sourcesBySlot, statistics[i], input, roster);
      CollectingNext(statistics, i, input, roster);
      if next.Err? {
        CollectingStops(statistics, i + 1, input, roster);
        return next;
      }
      sourcesBySlot := next.value;
    }
    assert statistics[..|statistics|] == statistics;
    return Ok(sourcesBySlot);
  }

  lemma {:induction false} AddingStops(totals: seq<CategoryTotal>, scored: seq<CategoryTotal>, n: nat)
    requires n <= |scored| && AddAllScored(totals, scored[..n]).Err?
    ensures AddAllScored(totals, scored) == AddAllScored(totals, scored[..n])
  {
    if n == |scored| {
      assert scored[..n] == scored;
    } else {
      var init := scored[..|scored| - 1];
      assert init[..n] == scored[..n];
      AddingStops(totals, init, n);
    }
  }

  /** The inner loop: one player's categories join the running totals. */
  method AddCategoryScores(
    totals: seq<CategoryTotal>, scored: seq<CategoryTotal>
  ) returns (sums: Result<seq<CategoryTotal>, Fault>)
    ensures sums == AddAllScored(totals, scored)
  {
    var aggregates := totals;
    for i := 0 to |scored|
      invariant AddAllScored(totals, scored[..i]) == Ok(aggregates)
    {
      assert scored[..i + 1][..i] == scored[..i];
      var next := AddScored(aggregates, scored[i]);
      if next.Err? {
        AddingStops(totals, scored, i + 1);
        return next;
      }
      aggregates := next.value;
    }
    assert scored[..|scored|] == scored;
    return Ok(aggregates);
  }

  lemma {:induction false} ScoringSlotsStops(slots: seq<Slot>, n: nat, known: map<Id, Source>, model: Model)
    requires n <= |slots| && ScoreSlots(slots[..n], known, model).Err?
    ensures ScoreSlots(slots, known, model) == ScoreSlots(slots[..n], known, model)
  {
    if n == |slots| {
      assert slots[..n] == slots;
    } else {
      var init := slots[..|slots| - 1];
      assert init[..n] == slots[..n];
      ScoringSlotsStops(init, n, known, model);
    }
  }

  /** A final source: its score is taken and booked. */
  method BookScore(sheet: Sheet, slot: Slot, source: Source, model: Model) returns (next: Result<Sheet, Fault>)
    requires source.snapshot.Some?
    ensures next ==
            match ScoreOf(model, source.snapshot.value)
            case Err(fault) => Err(fault)
            case Ok(score) => WithScore(sheet, slot, source, score)
  {
    var score := ScoreStatistics(model, source.snapshot.value);
    if score.Err? {
      return Err(score.error);
    }
    var total := SafeAdd(sheet.totalMilliPoints, score.value.totalMilliPoints);
    if total.Err? {
      return Err(total.error);
    }
    var categoryTotals := AddCategoryScores(sheet.categoryTotals, score.value.categories);
    if categoryTotals.Err? {
      return Err(categoryTotals.error);
    }
    return Ok(Sheet(categoryTotals.value, total.value, sheet.completedSourceCount + 1, sheet.uncertainties,
                    sheet.sources + [ScoredSource(slot.id, source, Some(score.value))]));
  }

  /** The loop over the active slots. */
  method ScoreLineup(slots: seq<Slot>, known: map<Id, Source>, model: Model) returns (result: Result<Sheet, Fault>)
    ensures result == ScoreSlots(slots, known, model)
  {
    var sheet := BlankSheet(model);
    for i := 0 to |slots|
      invariant ScoreSlots(slots[..i], known, model) == Ok(sheet)
    {
      var slot := slots[i];
      assert slots[..i + 1][..i] == slots[..i];
      var next: Result<Sheet, Fault>;
      if slot.playerId.Some? && slot.id in known && DoubtOf(known[slot.id].availability).None? &&
         known[slot.id].snapshot.Some? {
        next := BookScore(sheet, slot, known[slot.id], model);
      } else {
        next := ScoreSlot(sheet, slot, known, model);
      }
      assert next == ScoreSlot(sheet, slot, known, model);
      if next.Err? {
        ScoringSlotsStops(slots, i + 1, known, model);
        return next;
      }
      sheet := next.value;
    }
    assert slots[..|slots|] == slots;
    return Ok(sheet);
  }

  method CalculateTeamPeriodResult(
    input: Input, league: League, team: Team, roster: Snapshot, model: Model, authority: Authority,
    previous: Option<TeamResult>
  ) returns (result: Result<TeamResult, Fault>)
    ensures result == CalculateTeamPeriod(input, league, team, roster, model, authority, previous)
  {
    var guards := CheckInput(input, league, team, roster, model, authority);
    if guards.Fail? {
      return Err(guards.error);
    }
    var known := CollectStatistics(input, roster);
    if known.Err? {
      return Err(known.error);
    }
    var sheet := ScoreLineup(ActiveSlots(roster), known.value, model);
    if sheet.Err? {
      return Err(sheet.error);
    }
    return Conclude(input, roster, model, sheet.value, previous);
  }
}
