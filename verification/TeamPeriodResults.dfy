/** What a team-period result says, and the history of its revisions. */
module TeamPeriodResults {
  import opened Base
  import opened Ordering
  import opened FantasyRules
  import opened FantasyDomain
  import opened PlayerScoring
  import opened ScoringRevisions
  import opened TeamPeriods
  import opened TeamPeriodLoops
  import opened TeamPeriodTheorems

  // ----- linearity of a result -----

  /** The three readings of a team's total, on the published result. */
  ghost predicate LinearResult(result: TeamResult, categories: seq<Category>) {
    && Aligned(result.categoryTotals, categories)
    && result.totalMilliPoints == Sum(Milli, result.categoryTotals)
    && result.totalMilliPoints == Sum(TotalOf(), result.sources)
    && (forall i: nat :: i < |categories| ==> result.categoryTotals[i].units == Sum(UnitsOf(i), result.sources))
    && IsSafe(result.totalMilliPoints) && SafeTotals(result.categoryTotals)
  }

  /** Each category pays units times weight; categories, and players, add up to the team's total. */
  lemma TeamTotalIsLinear(
    input: Input, league: League, team: Team, roster: Snapshot, model: Model, authority: Authority,
    previous: Option<TeamResult>
  )
    requires CalculateTeamPeriod(input, league, team, roster, model, authority, previous).Ok?
    ensures LinearResult(CalculateTeamPeriod(input, league, team, roster, model, authority, previous).value,
                         model.content.categories)
  {
    var known := CollectSources(input.statistics, input, roster).value;
    SheetIsLinear(ActiveSlots(roster), known, model);
  }

  /** The accumulators stay within the safe integers, and linear, after every slot. */
  lemma PartialSheetsAreSafe(slots: seq<Slot>, known: map<Id, Source>, model: Model, n: nat)
    requires VerifyModel(model).Pass? && n <= |slots| && ScoreSlots(slots, known, model).Ok?
    ensures ScoreSlots(slots[..n], known, model).Ok?
    ensures Linear(ScoreSlots(slots[..n], known, model).value, model.content.categories)
  {
    if ScoreSlots(slots[..n], known, model).Err? {
      ScoringSlotsStops(slots, n, known, model);
    }
    SheetIsLinear(slots[..n], known, model);
  }

  // ----- every filled slot is scored or doubted -----

  predicate Open(u: Uncertainty) {
    u.code != EmptyLineupSlot
  }

  function OpenCount(uncertainties: seq<Uncertainty>): nat {
    |Filter(Open, uncertainties)|
  }

  lemma OpenSnoc(uncertainties: seq<Uncertainty>, u: Uncertainty)
    ensures OpenCount(uncertainties + [u]) == OpenCount(uncertainties) + if Open(u) then 1 else 0
  {
    FilterAppend(Open, uncertainties, [u]);
  }

  lemma SlotAccountedFor(sheet: Sheet, slot: Slot, known: map<Id, Source>, model: Model)
    requires ScoreSlot(sheet, slot, known, model).Ok?
    ensures
      var next := ScoreSlot(sheet, slot, known, model).value;
      next.completedSourceCount + OpenCount(next.uncertainties) ==
      sheet.completedSourceCount + OpenCount(sheet.uncertainties) + if slot.playerId.Some? then 1 else 0
  {
    var next := ScoreSlot(sheet, slot, known, model).value;
    if next.uncertainties != sheet.uncertainties {
      OpenSnoc(sheet.uncertainties, next.uncertainties[|next.uncertainties| - 1]);
    }
  }

  lemma FilledSnoc(slots: seq<Slot>, slot: Slot)
    ensures |Filled(slots + [slot])| == |Filled(slots)| + if slot.playerId.Some? then 1 else 0
  {
    FilterAppend((slot: Slot) => slot.playerId.Some?, slots, [slot]);
  }

  lemma {:induction false} SlotsAccountedFor(slots: seq<Slot>, known: map<Id, Source>, model: Model)
    requires ScoreSlots(slots, known, model).Ok?
    ensures
      var sheet := ScoreSlots(slots, known, model).value;
      sheet.completedSourceCount + OpenCount(sheet.uncertainties) == |Filled(slots)|
  {
    if slots != [] {
      var init, last := slots[..|slots| - 1], slots[|slots| - 1];
      SlotsAccountedFor(init, known, model);
      SlotAccountedFor(ScoreSlots(init, known, model).value, last, known, model);
      assert slots == init + [last];
      FilledSnoc(init, last);
    }
  }

  lemma {:induction false} ResolvedMeansNoneOpen(uncertainties: seq<Uncertainty>)
    ensures AllResolved(uncertainties) <==> OpenCount(uncertainties) == 0
  {
    FilterMembers(Open, uncertainties);
    if OpenCount(uncertainties) > 0 {
      assert Filter(Open, uncertainties)[0] in uncertainties;
    }
  }

  /** A result is FINAL exactly when finalization was asked for; then its period is over and every expected source
      is complete, unless the deadline has passed. */
  lemma FinalOnlyAfterGates(
    input: Input, league: League, team: Team, roster: Snapshot, model: Model, authority: Authority,
    previous: Option<TeamResult>
  )
    requires CalculateTeamPeriod(input, league, team, roster, model, authority, previous).Ok?
    ensures
      var result := CalculateTeamPeriod(input, league, team, roster, model, authority, previous).value;
      && result.completedSourceCount <= result.expectedSourceCount
      && (result.status == Final <==> input.finalize)
      && (result.status == InProgress <==> result.calculatedAt < result.period.endsAt)
      && (result.status == Final || result.status == Ready ==>
            && result.period.endsAt <= result.calculatedAt
            && (result.completedSourceCount == result.expectedSourceCount ||
                result.period.finalizationDeadline <= result.calculatedAt))
      && (result.status == AwaitingFinalData ==> result.completedSourceCount < result.expectedSourceCount)
  {
    var known := CollectSources(input.statistics, input, roster).value;
    var sheet := ScoreSlots(ActiveSlots(roster), known, model).value;
    SlotsAccountedFor(ActiveSlots(roster), known, model);
    ResolvedMeansNoneOpen(sheet.uncertainties);
  }

  /** Completion is projected only when every open question has a projection, and then to the latest of them. */
  lemma {:induction false} ProjectionIsLatest(uncertainties: seq<Uncertainty>)
    ensures LatestProjection(uncertainties).Some? <==>
            uncertainties != [] && forall u :: u in uncertainties ==> u.projectedCompletionAt.Some?
    ensures LatestProjection(uncertainties).Some? ==>
              && (exists u :: u in uncertainties && u.projectedCompletionAt == LatestProjection(uncertainties))
              && forall u :: u in uncertainties ==>
                   u.projectedCompletionAt.value <= LatestProjection(uncertainties).value
  {
    if uncertainties != [] {
      var init, last := uncertainties[..|uncertainties| - 1], uncertainties[|uncertainties| - 1];
      assert uncertainties == init + [last];
      assert last in uncertainties;
      ProjectionIsLatest(init);
    }
  }

  // ----- the order of the sources does not matter -----

  ghost function SlotIdsOf(statistics: seq<Source>): seq<Id> {
    seq(|statistics|, i requires 0 <= i < |statistics| => statistics[i].slotId)
  }

  ghost predicate Holds(known: map<Id, Source>, statistics: seq<Source>) {
    && (forall source :: source in statistics ==> source.slotId in known && known[source.slotId] == source)
    && (forall id :: id in known ==> known[id] in statistics && known[id].slotId == id)
  }

  predicate Acceptable(source: Source, input: Input, roster: Snapshot) {
    CollectSource(map[], source, input, roster).Ok?
  }

  lemma AcceptedOnce(known: map<Id, Source>, source: Source, input: Input, roster: Snapshot)
    ensures CollectSource(known, source, input, roster).Ok? <==>
              Acceptable(source, input, roster) && source.slotId !in known
    ensures CollectSource(known, source, input, roster).Ok? ==>
              CollectSource(known, source, input, roster).value == known[source.slotId := source]
  {
  }

  lemma {:induction false} CollectingDecides(statistics: seq<Source>, input: Input, roster: Snapshot)
    ensures CollectSources(statistics, input, roster).Ok? <==>
            Distinct(SlotIdsOf(statistics)) && forall source :: source in statistics ==>
              Acceptable(source, input, roster)
    ensures CollectSources(statistics, input, roster).Ok? ==>
              Holds(CollectSources(statistics, input, roster).value, statistics)
  {
    if statistics != [] {
      var init, last := statistics[..|statistics| - 1], statistics[|statistics| - 1];
      assert statistics == init + [last];
      CollectingDecides(init, input, roster);
      assert SlotIdsOf(statistics) == SlotIdsOf(init) + [last.slotId];
      DistinctSnoc(SlotIdsOf(init), last.slotId);
      assert forall source :: source in statistics <==> source in init || source == last;
      if CollectSources(init, input, roster).Ok? {
        var known := CollectSources(init, input, roster).value;
        KnownSlots(known, init, last.slotId);
        AcceptedOnce(known, last, input, roster);
      }
    }
  }

  lemma KnownSlots(known: map<Id, Source>, statistics: seq<Source>, id: Id)
    requires Holds(known, statistics)
    ensures id in known <==> id in SlotIdsOf(statistics)
  {
    if id in known {
      var i :| 0 <= i < |statistics| && statistics[i] == known[id];
      assert SlotIdsOf(statistics)[i] == id;
    }
    if id in SlotIdsOf(statistics) {
      var i :| 0 <= i < |statistics| && SlotIdsOf(statistics)[i] == id;
      assert statistics[i] in statistics;
    }
  }

  lemma SamePermutedSources(statistics: seq<Source>, permuted: seq<Source>)
    requires multiset(permuted) == multiset(statistics)
    ensures forall source :: source in permuted <==> source in statistics
    ensures |permuted| == |statistics|
    ensures multiset(SlotIdsOf(permuted)) == multiset(SlotIdsOf(statistics))
  {
    SameMembers(permuted, statistics);
    SlotIdsPermuted(permuted, statistics);
  }

  lemma {:induction false} SlotIdsPermuted(xs: seq<Source>, ys: seq<Source>)
    requires multiset(xs) == multiset(ys)
    ensures multiset(SlotIdsOf(xs)) == multiset(SlotIdsOf(ys))
  {
    if xs == [] {
      assert |multiset(ys)| == 0;
    } else {
      var before, after := SplitAtHead(xs, ys);
      SlotIdsPermuted(xs[1..], before + after);
      assert SlotIdsOf(xs) == [xs[0].slotId] + SlotIdsOf(xs[1..]);
      assert SlotIdsOf(ys) == SlotIdsOf(before) + [xs[0].slotId] + SlotIdsOf(after);
      assert SlotIdsOf(before + after) == SlotIdsOf(before) + SlotIdsOf(after);
    }
  }

  lemma SlotIdsSeparate(statistics: seq<Source>)
    requires Distinct(SlotIdsOf(statistics))
    ensures Strict(BySlot(), statistics) && TotalOrder(BySlot())
  {
    forall x, y | x in statistics && y in statistics && x.slotId == y.slotId ensures x == y {
      var i :| 0 <= i < |statistics| && statistics[i] == x;
      var j :| 0 <= j < |statistics| && statistics[j] == y;
      assert SlotIdsOf(statistics)[i] == SlotIdsOf(statistics)[j];
    }
  }

  lemma SameKnown(known: map<Id, Source>, other: map<Id, Source>, statistics: seq<Source>, permuted: seq<Source>)
    requires Holds(known, statistics) && Holds(other, permuted)
    requires forall source :: source in permuted <==> source in statistics
    ensures known == other
  {
    forall id ensures id in known <==> id in other {
    }
    forall id | id in known ensures known[id] == other[id] {
    }
  }

  lemma CollectingPermuted(statistics: seq<Source>, permuted: seq<Source>, input: Input, roster: Snapshot)
    requires multiset(permuted) == multiset(statistics) && CollectSources(statistics, input, roster).Ok?
    ensures CollectSources(permuted, input, roster).Ok?
    ensures Distinct(SlotIdsOf(statistics))
  {
    SamePermutedSources(statistics, permuted);
    CollectingDecides(statistics, input, roster);
    CollectingDecides(permuted, input, roster);
    DistinctPermutation(SlotIdsOf(statistics), SlotIdsOf(permuted));
  }

  lemma CollectingIgnoresOrder(statistics: seq<Source>, permuted: seq<Source>, input: Input, roster: Snapshot)
    requires multiset(permuted) == multiset(statistics) && CollectSources(statistics, input, roster).Ok?
    ensures CollectSources(permuted, input, roster) == CollectSources(statistics, input, roster)
    ensures Sort(BySlot(), permuted) == Sort(BySlot(), statistics)
  {
    CollectingPermuted(statistics, permuted, input, roster);
    CollectingDecides(statistics, input, roster);
    CollectingDecides(permuted, input, roster);
    SamePermutedSources(statistics, permuted);
    SameKnown(CollectSources(statistics, input, roster).value, CollectSources(permuted, input, roster).value,
              statistics, permuted);
    SlotIdsSeparate(statistics);
    SortPermutation(BySlot(), statistics, permuted);
  }

  lemma CollectingIgnoresIdentity(statistics: seq<Source>, input: Input, other: Input, roster: Snapshot)
    requires other == input.(statistics := other.statistics)
    ensures CollectSources(statistics, other, roster) == CollectSources(statistics, input, roster)
  {
  }

  lemma SameConclusion(
    input: Input, other: Input, roster: Snapshot, model: Model, sheet: Sheet, previous: Option<TeamResult>
  )
    requires other == input.(statistics := other.statistics) &&
             SourcesOf(other, roster, model) == SourcesOf(input, roster, model)
    ensures Conclude(other, roster, model, sheet, previous) == Conclude(input, roster, model, sheet, previous)
  {
  }

  lemma SameGuards(
    input: Input, other: Input, league: League, team: Team, roster: Snapshot, model: Model, authority: Authority
  )
    requires other == input.(statistics := other.statistics)
    ensures CheckInput(other, league, team, roster, model, authority) ==
              CheckInput(input, league, team, roster, model, authority)
  {
  }

  /** Listing the statistic sources in another order gives the same result, digests included. */
  lemma SourceOrderDoesNotMatter(
    input: Input, permuted: seq<Source>, league: League, team: Team, roster: Snapshot, model: Model,
    authority: Authority, previous: Option<TeamResult>
  )
    requires multiset(permuted) == multiset(input.statistics)
    requires CalculateTeamPeriod(input, league, team, roster, model, authority, previous).Ok?
    ensures CalculateTeamPeriod(input.(statistics := permuted), league, team, roster, model, authority, previous)
         == CalculateTeamPeriod(input, league, team, roster, model, authority, previous)
  {
    var other := input.(statistics := permuted);
    CollectingIgnoresOrder(input.statistics, permuted, input, roster);
    CollectingIgnoresIdentity(permuted, input, other, roster);
    SameGuards(input, other, league, team, roster, model, authority);
    var known := CollectSources(input.statistics, input, roster).value;
    SameConclusion(input, other, roster, model, ScoreSlots(ActiveSlots(roster), known, model).value, previous);
  }

  // ----- histories -----

  /** A result that the calculation accepts as the successor of `previous`. */
  ghost predicate Calculated(result: TeamResult, previous: Option<TeamResult>) {
    exists input, league, team, roster, model, authority ::
      CalculateTeamPeriod(input, league, team, roster, model, authority, previous) == Ok(result)
  }

  ghost function Before(results: seq<TeamResult>, i: nat): Option<TeamResult>
    requires i < |results|
  {
    if i == 0 then None else Some(results[i - 1])
  }

  ghost predicate CalculatedAt(results: seq<TeamResult>, i: nat)
    requires i < |results|
  {
    Calculated(results[i], Before(results, i))
  }

  /** The revisions of one team-period result, each calculated from the one before. */
  ghost predicate History(results: seq<TeamResult>) {
    forall i :: 0 <= i < |results| ==> CalculatedAt(results, i)
  }

  ghost function LinkOf(result: TeamResult): Link<SourceEnvelope, TeamResult> {
    Link(EnvelopeOf(result), result.previousId, result.decision)
  }

  ghost function LinksOf(results: seq<TeamResult>): seq<Link<SourceEnvelope, TeamResult>> {
    seq(|results|, i requires 0 <= i < |results| => LinkOf(results[i]))
  }

  lemma ConcludedIsLinked(
    input: Input, roster: Snapshot, model: Model, sheet: Sheet, previous: Option<TeamResult>, result: TeamResult
  )
    requires Conclude(input, roster, model, sheet, previous) == Ok(result)
    ensures Accepted(LinkOf(result), PreviousOf(previous))
    ensures previous.Some? ==>
              result.period == previous.value.period && previous.value.calculatedAt < result.calculatedAt
    ensures result.status == InProgress <==> result.calculatedAt < result.period.endsAt
    ensures result.status == Final ==> GatesClosed(result.period, result.calculatedAt, result.uncertainties)
  {
  }

  lemma CalculatedIsLinked(result: TeamResult, previous: Option<TeamResult>)
    requires Calculated(result, previous)
    ensures Accepted(LinkOf(result), PreviousOf(previous))
    ensures previous.Some? ==>
              result.period == previous.value.period && previous.value.calculatedAt < result.calculatedAt
    ensures result.status == InProgress <==> result.calculatedAt < result.period.endsAt
    ensures result.status == Final ==> GatesClosed(result.period, result.calculatedAt, result.uncertainties)
  {
    var input, league, team, roster, model, authority :|
      CalculateTeamPeriod(input, league, team, roster, model, authority, previous) == Ok(result);
    var known := CollectSources(input.statistics, input, roster).value;
    ConcludedIsLinked(input, roster, model, ScoreSlots(ActiveSlots(roster), known, model).value, previous, result);
  }

  lemma LinkAt(results: seq<TeamResult>, i: nat)
    requires i < |results|
    ensures Linked(LinksOf(results), i) <==> Accepted(LinkOf(results[i]), PreviousOf(Before(results, i)))
  {
  }

  lemma StepAt(results: seq<TeamResult>, i: nat)
    requires i < |results| && CalculatedAt(results, i)
    ensures Linked(LinksOf(results), i)
    ensures i > 0 ==>
              results[i].period == results[i - 1].period && results[i - 1].calculatedAt < results[i].calculatedAt
    ensures results[i].status == InProgress <==> results[i].calculatedAt < results[i].period.endsAt
    ensures results[i].status == Final ==>
              GatesClosed(results[i].period, results[i].calculatedAt, results[i].uncertainties)
  {
    CalculatedIsLinked(results[i], Before(results, i));
    LinkAt(results, i);
  }

  lemma HistoryStep(results: seq<TeamResult>, i: nat)
    requires History(results) && i < |results|
    ensures Linked(LinksOf(results), i)
    ensures i > 0 ==>
              results[i].period == results[i - 1].period && results[i - 1].calculatedAt < results[i].calculatedAt
    ensures results[i].status == InProgress <==> results[i].calculatedAt < results[i].period.endsAt
    ensures results[i].status == Final ==>
              GatesClosed(results[i].period, results[i].calculatedAt, results[i].uncertainties)
  {
    StepAt(results, i);
  }

  lemma HistoryIsChain(results: seq<TeamResult>)
    requires History(results)
    ensures Chain(LinksOf(results))
  {
    forall i | 0 <= i < |LinksOf(results)| ensures Linked(LinksOf(results), i) {
      HistoryStep(results, i);
    }
  }

  lemma {:induction false} SamePeriodLater(results: seq<TeamResult>, i: nat, j: nat)
    requires History(results) && i < j < |results|
    ensures results[i].period == results[j].period && results[i].calculatedAt < results[j].calculatedAt
    decreases j
  {
    HistoryStep(results, j);
    if i < j - 1 {
      SamePeriodLater(results, i, j - 1);
    }
  }

  /** Once its period is over a team's result never shows as in progress again, and FINAL stays FINAL. */
  lemma NeverBackInProgress(results: seq<TeamResult>, i: nat, j: nat)
    requires History(results) && i < j < |results|
    ensures results[i].status != InProgress ==> results[j].status != InProgress
    ensures results[i].status == Final ==> results[j].status == Final
  {
    SamePeriodLater(results, i, j);
    HistoryStep(results, i);
    HistoryStep(results, j);
    HistoryIsChain(results);
    ChainOrder(LinksOf(results), i, j);
  }

  /** Every history is CALCULATE*, at most one FINALIZE, then RECALCULATE* with exact corrections; FINAL comes after the
      gates. */
  lemma HistoryShape(results: seq<TeamResult>)
    requires History(results)
    ensures Numbered(LinksOf(results)) && exists at :: Word(LinksOf(results), at)
    ensures forall i :: 0 <= i < |results| && results[i].status == Final ==>
              GatesClosed(results[i].period, results[i].calculatedAt, results[i].uncertainties)
  {
    HistoryIsChain(results);
    ChainShape(LinksOf(results));
    forall i | 0 <= i < |results| && results[i].status == Final
      ensures GatesClosed(results[i].period, results[i].calculatedAt, results[i].uncertainties)
    {
      HistoryStep(results, i);
    }
  }
}
