/** The result of one team in one scoring period (src/domain/fantasy-scoring.ts, calculateFantasyTeamPeriodResult). */
module TeamPeriods {
  import opened Base
  import opened Errors
  import opened Ordering
  import opened FantasyRules
  import opened FantasyDomain
  import opened PlayerScoring
  import opened ScoringRevisions

  datatype PeriodPhase = RegularSeason | Playoff | Championship

  datatype Period = Period(
    id: Id,
    accountId: Id,
    leagueId: Id,
    sequence: int,
    phase: PeriodPhase,
    startsAt: Instant,
    endsAt: Instant,
    finalizationDeadline: Instant)

  datatype Availability = FinalVerified | CorrectedFinal | IncompleteGame | UnverifiedSource | InsufficientSample

  datatype Source = Source(
    accountId: Id,
    leagueId: Id,
    teamId: Id,
    periodId: Id,
    rosterSnapshotId: Id,
    slotId: Id,
    playerId: Id,
    availability: Availability,
    expectedGames: int,
    completedGames: int,
    projectedCompletionAt: Option<Instant>,
    snapshot: Option<StatisticSnapshot>)

  datatype Doubt = EmptyLineupSlot | MissingStatistics | GameIncomplete | StatisticsUnverified | SampleInsufficient

  datatype Uncertainty = Uncertainty(code: Doubt, slotId: Id, playerId: Option<Id>,
                                     projectedCompletionAt: Option<Instant>)

  datatype ScoredSource = ScoredSource(slotId: Id, source: Source, score: Option<Score>)

  /** The model version that a result was calculated with. */
  datatype ModelLineage = ModelLineage(modelId: Id, modelVersionId: Id, modelVersion: int, modelDigest: ModelDigest)

  function LineageOf(model: Model): ModelLineage {
    ModelLineage(model.content.modelId, model.content.modelVersionId, model.content.version, model.contentDigest)
  }

  datatype Input = Input(
    resultId: Id,
    accountId: Id,
    leagueId: Id,
    teamId: Id,
    period: Period,
    calculatedAt: Instant,
    finalize: bool,
    revision: int,
    previousId: Option<Id>,
    correctionReason: Option<string>,
    statistics: seq<Source>)

  /** Everything the source digest covers. */
  datatype SourceEnvelope = SourceEnvelope(
    accountId: Id,
    leagueId: Id,
    teamId: Id,
    period: Period,
    rosterSnapshotId: Id,
    rosterSnapshotRevision: int,
    modelVersionId: Id,
    modelDigest: ModelDigest,
    statistics: seq<Source>)

  datatype TeamResult = TeamResult(
    id: Id,
    accountId: Id,
    leagueId: Id,
    teamId: Id,
    period: Period,
    rosterSnapshotId: Id,
    rosterSnapshotRevision: int,
    status: ResultStatus,
    totalMilliPoints: int,
    categoryTotals: seq<CategoryTotal>,
    expectedSourceCount: nat,
    completedSourceCount: nat,
    projectedCompletionAt: Option<Instant>,
    uncertainties: seq<Uncertainty>,
    sources: seq<ScoredSource>,
    lineage: ModelLineage,
    calculatedAt: Instant,
    finalizedAt: Option<Instant>,
    revision: int,
    previousId: Option<Id>,
    decision: Decision<TeamResult>,
    sourceDigest: SourceEnvelope)

  function SafeAdd(left: int, right: int): Result<int, Fault> {
    if IsSafe(left + right) then Ok(left + right) else Err(ScoringFault(UnsafeArithmetic))
  }

  // ----- guards -----

  predicate PeriodOrdered(period: Period) {
    period.startsAt < period.endsAt <= period.finalizationDeadline
  }

  function CheckPeriod(period: Period): Check<Fault> {
    if !(1 <= period.sequence <= MAX_SAFE_INTEGER) then Fail(ScoringFault(ScoringCode.InvalidInput))
    else Need(PeriodOrdered(period), ScoringFault(PeriodInvalid))
  }

  function CheckScoringAuthority(authority: Authority, accountId: Id, leagueId: Id): Check<Fault> {
    Need(AssertAuthority(authority, accountId, ScoringCalculate, leagueId, None).Pass?,
         ScoringFault(ScoringCode.AuthorizationRequired))
  }

  predicate RulesMatch(league: League, roster: Snapshot, model: Model) {
    && league.rules.modelId == model.content.modelId
    && league.rules.modelVersionId == model.content.modelVersionId
    && league.rules.modelVersion == model.content.version
    && league.rules.modelDigest == model.contentDigest
    && league.rules.statisticRegistryVersion == model.content.statisticRegistryVersion
    && roster.rules.modelVersionId == model.content.modelVersionId
    && roster.rules.modelDigest == model.contentDigest
  }

  function CheckAncestry(input: Input, league: League, team: Team, roster: Snapshot): Check<Fault> {
    if input.accountId != league.accountId || input.accountId != team.accountId ||
       input.accountId != roster.accountId || input.accountId != input.period.accountId then
      Fail(ScoringFault(ScoringCode.AccountMismatch))
    else if input.leagueId != league.id || input.leagueId != team.leagueId || input.leagueId != roster.leagueId ||
            input.leagueId != input.period.leagueId || input.teamId != team.id || input.teamId != roster.teamId then
      Fail(ScoringFault(ScoringCode.LeagueMismatch))
    else
      Need((league.lifecycle.Active? || league.lifecycle.Completed?) &&
           (team.lifecycle.Active? || team.lifecycle.Withdrawn?), ScoringFault(ScoringCode.LeagueMismatch))
  }

  function CheckInput(
    input: Input, league: League, team: Team, roster: Snapshot, model: Model, authority: Authority
  ): Check<Fault>
  {
    var authorized := CheckScoringAuthority(authority, input.accountId, input.leagueId);
    if authorized.Fail? then authorized
    else
      var period := CheckPeriod(input.period);
      if period.Fail? then period
      else
        var sealed := VerifyModel(model);
        if sealed.Fail? then sealed
        else
          var ancestry := CheckAncestry(input, league, team, roster);
          if ancestry.Fail? then ancestry
          else Need(RulesMatch(league, roster, model), ScoringFault(ScoringCode.RulesMismatch))
  }

  // ----- the statistic sources, by slot -----

  function ActiveSlots(roster: Snapshot): seq<Slot> {
    Filter((slot: Slot) => slot.kind == ActiveSlot, roster.slots)
  }

  function SlotOf(slots: seq<Slot>, id: Id): (slot: Option<Slot>)
    ensures slot.Some? ==> slot.value in slots && slot.value.id == id
    ensures slot.None? ==> forall s :: s in slots ==> s.id != id
  {
    if slots == [] then None
    else if slots[0].id == id then Some(slots[0])
    else SlotOf(slots[1..], id)
  }

  predicate IsFinal(availability: Availability) {
    availability == FinalVerified || availability == CorrectedFinal
  }

  predicate MapsToSlot(source: Source, input: Input, roster: Snapshot, known: map<Id, Source>) {
    && source.accountId == input.accountId
    && source.leagueId == input.leagueId
    && source.teamId == input.teamId
    && source.periodId == input.period.id
    && source.rosterSnapshotId == roster.id
    && SlotOf(ActiveSlots(roster), source.slotId).Some?
    && source.slotId !in known
  }

  predicate SnapshotFits(source: Source) {
    && (IsFinal(source.availability) <==> source.snapshot.Some?)
    && (source.availability == CorrectedFinal ==>
          source.snapshot.Some? && source.snapshot.value.lineage.correctionRevision >= 1)
    && (IsFinal(source.availability) ==> source.completedGames == source.expectedGames)
  }

  /** One source is accepted into the map if it names an active slot, its player, and a snapshot only when final. */
  function CollectSource(
    known: map<Id, Source>, source: Source, input: Input, roster: Snapshot
  ): Result<map<Id, Source>, Fault>
  {
    var slot := SlotOf(ActiveSlots(roster), source.slotId);
    :- Need(0 <= source.expectedGames <= MAX_SAFE_INTEGER && 0 <= source.completedGames <= MAX_SAFE_INTEGER,
            ScoringFault(ScoringCode.InvalidInput));
    :- Need(source.completedGames <= source.expectedGames, ScoringFault(SourceConflict));
    :- Need(MapsToSlot(source, input, roster, known), ScoringFault(SourceConflict));
    :- Need(slot.value.playerId == Some(source.playerId), ScoringFault(RosterMismatch));
    :- Need(SnapshotFits(source), ScoringFault(SourceConflict));
    Ok(known[source.slotId := source])
  }

  function CollectSources(statistics: seq<Source>, input: Input, roster: Snapshot): Result<map<Id, Source>, Fault> {
    if statistics == [] then Ok(map[])
    else
      var known :- CollectSources(statistics[..|statistics| - 1], input, roster);
      CollectSource(known, statistics[|statistics| - 1], input, roster)
  }

  // ----- the running category totals -----

  function Zero(category: Category): CategoryTotal {
    CategoryTotal(category.id, category.sourceStatistic, 0, 0)
  }

  function ZeroTotals(categories: seq<Category>): seq<CategoryTotal> {
    seq(|categories|, i requires 0 <= i < |categories| => Zero(categories[i]))
  }

  function PlaceOf(totals: seq<CategoryTotal>, categoryId: Id): (place: Option<nat>)
    ensures place.Some? ==> place.value < |totals| && totals[place.value].categoryId == categoryId
    ensures place.None? ==> forall i :: 0 <= i < |totals| ==> totals[i].categoryId != categoryId
  {
    if totals == [] then None
    else if totals[|totals| - 1].categoryId == categoryId then Some(|totals| - 1)
    else PlaceOf(totals[..|totals| - 1], categoryId)
  }

  function AddScored(totals: seq<CategoryTotal>, scored: CategoryTotal): Result<seq<CategoryTotal>, Fault> {
    var place := PlaceOf(totals, scored.categoryId);
    :- Need(place.Some? && totals[place.value].sourceStatistic == scored.sourceStatistic, ScoringFault(SourceConflict));
    var total := totals[place.value];
    var units :- SafeAdd(total.units, scored.units);
    var milliPoints :- SafeAdd(total.milliPoints, scored.milliPoints);
    Ok(totals[place.value := total.(units := units, milliPoints := milliPoints)])
  }

  function AddAllScored(totals: seq<CategoryTotal>, scored: seq<CategoryTotal>): Result<seq<CategoryTotal>, Fault> {
    if scored == [] then Ok(totals)
    else
      var before :- AddAllScored(totals, scored[..|scored| - 1]);
      AddScored(before, scored[|scored| - 1])
  }

  // ----- the loop over the active slots -----

  /** The accumulators of the loop. */
  datatype Sheet = Sheet(
    categoryTotals: seq<CategoryTotal>,
    totalMilliPoints: int,
    completedSourceCount: nat,
    uncertainties: seq<Uncertainty>,
    sources: seq<ScoredSource>)

  function BlankSheet(model: Model): Sheet {
    Sheet(ZeroTotals(model.content.categories), 0, 0, [], [])
  }

  function DoubtOf(availability: Availability): Option<Doubt> {
    match availability
    case IncompleteGame => Some(GameIncomplete)
    case UnverifiedSource => Some(StatisticsUnverified)
    case InsufficientSample => Some(SampleInsufficient)
    case FinalVerified => None
    case CorrectedFinal => None
  }

  function WithDoubt(sheet: Sheet, uncertainty: Uncertainty): Sheet {
    sheet.(uncertainties := sheet.uncertainties + [uncertainty])
  }

  /** Adds the score of one source to the sheet. */
  function WithScore(sheet: Sheet, slot: Slot, source: Source, score: Score): Result<Sheet, Fault> {
    var total :- SafeAdd(sheet.totalMilliPoints, score.totalMilliPoints);
    var categoryTotals :- AddAllScored(sheet.categoryTotals, score.categories);
    Ok(Sheet(categoryTotals, total, sheet.completedSourceCount + 1, sheet.uncertainties,
             sheet.sources + [ScoredSource(slot.id, source, Some(score))]))
  }

  function ScoreSlot(sheet: Sheet, slot: Slot, known: map<Id, Source>, model: Model): Result<Sheet, Fault> {
    if slot.playerId.None? then
      Ok(WithDoubt(sheet, Uncertainty(EmptyLineupSlot, slot.id, None, None)))
    else if slot.id !in known then
      Ok(WithDoubt(sheet, Uncertainty(MissingStatistics, slot.id, slot.playerId, None)))
    else
      var source := known[slot.id];
      match DoubtOf(source.availability)
      case Some(doubt) =>
        var doubted := WithDoubt(sheet,
                                 Uncertainty(doubt, slot.id, Some(source.playerId), source.projectedCompletionAt));
        Ok(doubted.(sources := doubted.sources + [ScoredSource(slot.id, source, None)]))
      case None =>
        :- Need(source.snapshot.Some?, ScoringFault(SourceConflict));
        var score :- ScoreOf(model, source.snapshot.value);
        WithScore(sheet, slot, source, score)
  }

  function ScoreSlots(slots: seq<Slot>, known: map<Id, Source>, model: Model): Result<Sheet, Fault> {
    if slots == [] then Ok(BlankSheet(model))
    else
      var sheet :- ScoreSlots(slots[..|slots| - 1], known, model);
      ScoreSlot(sheet, slots[|slots| - 1], known, model)
  }

  // ----- status and result -----

  /** Nothing is open but lineup slots left empty. */
  predicate AllResolved(uncertainties: seq<Uncertainty>) {
    forall u :: u in uncertainties ==> u.code == EmptyLineupSlot
  }

  predicate GatesClosed(period: Period, calculatedAt: Instant, uncertainties: seq<Uncertainty>) {
    && period.endsAt <= calculatedAt
    && (AllResolved(uncertainties) || period.finalizationDeadline <= calculatedAt)
  }

  function StatusOf(input: Input, uncertainties: seq<Uncertainty>): Result<ResultStatus, Fault> {
    if input.finalize then
      :- Need(GatesClosed(input.period, input.calculatedAt, uncertainties), ScoringFault(ResultNotReady));
      Ok(Final)
    else if input.calculatedAt < input.period.endsAt then Ok(InProgress)
    else if !AllResolved(uncertainties) && input.calculatedAt < input.period.finalizationDeadline
    then Ok(AwaitingFinalData)
    else Ok(Ready)
  }

  /** The latest projection, if there is one for every open question. */
  function LatestProjection(uncertainties: seq<Uncertainty>): Option<Instant> {
    if uncertainties == [] then None
    else
      var last := uncertainties[|uncertainties| - 1].projectedCompletionAt;
      if |uncertainties| == 1 then last
      else
        var before := LatestProjection(uncertainties[..|uncertainties| - 1]);
        if last.None? || before.None? then None
        else Some(if before.value < last.value then last.value else before.value)
  }

  function BySlot(): (Source, Source) -> bool {
    (left: Source, right: Source) => left.slotId <= right.slotId
  }

  function SourcesOf(input: Input, roster: Snapshot, model: Model): SourceEnvelope {
    SourceEnvelope(input.accountId, input.leagueId, input.teamId, input.period, roster.id, roster.revision,
                   model.content.modelVersionId, model.contentDigest, Sort(BySlot(), input.statistics))
  }

  function EnvelopeOf(result: TeamResult): Envelope<SourceEnvelope, TeamResult> {
    Envelope(result.id, result.revision, result.sourceDigest, result, result.calculatedAt, result.status)
  }

  function PreviousOf(previous: Option<TeamResult>): Option<Envelope<SourceEnvelope, TeamResult>> {
    match previous
    case None => None
    case Some(result) => Some(EnvelopeOf(result))
  }

  /** A revision keeps its account, league, team, period, roster and model. */
  predicate SameCompetition(previous: TeamResult, input: Input, roster: Snapshot, model: Model) {
    && previous.accountId == input.accountId
    && previous.leagueId == input.leagueId
    && previous.teamId == input.teamId
    && previous.period == input.period
    && previous.rosterSnapshotId == roster.id
    && previous.lineage.modelVersionId == model.content.modelVersionId
    && previous.lineage.modelDigest == model.contentDigest
  }

  function IdentityOf(input: Input): Identity {
    Identity(input.resultId, input.revision, input.previousId, input.correctionReason, input.calculatedAt)
  }

  function Filled(slots: seq<Slot>): seq<Slot> {
    Filter((slot: Slot) => slot.playerId.Some?, slots)
  }

  function ResultFrom(
    input: Input, roster: Snapshot, model: Model, sheet: Sheet, status: ResultStatus, decision: Decision<TeamResult>
  ): TeamResult
  {
    TeamResult(
      input.resultId, input.accountId, input.leagueId, input.teamId, input.period, roster.id, roster.revision, status,
      sheet.totalMilliPoints, sheet.categoryTotals, |Filled(ActiveSlots(roster))|, sheet.completedSourceCount,
      LatestProjection(sheet.uncertainties), sheet.uncertainties, sheet.sources, LineageOf(model), input.calculatedAt,
      if status == Final then Some(input.calculatedAt) else None, input.revision, input.previousId, decision,
      SourcesOf(input, roster, model))
  }

  /** The part after the loops: gates, revision and result. */
  function Conclude(
    input: Input, roster: Snapshot, model: Model, sheet: Sheet, previous: Option<TeamResult>
  ): Result<TeamResult, Fault>
  {
    var status :- StatusOf(input, sheet.uncertainties);
    :- Need(previous.Some? ==> SameCompetition(previous.value, input, roster, model), RevisionRefused);
    :- Need(StaysFinal(PreviousOf(previous), status), RevisionRefused);
    var decision :- RevisionDecision(IdentityOf(input), SourcesOf(input, roster, model), status, PreviousOf(previous));
    Ok(ResultFrom(input, roster, model, sheet, status, decision))
  }

  function CalculateTeamPeriod(
    input: Input, league: League, team: Team, roster: Snapshot, model: Model, authority: Authority,
    previous: Option<TeamResult>
  ): Result<TeamResult, Fault>
  {
    var guards := CheckInput(input, league, team, roster, model, authority);
    :- guards;
    var known :- CollectSources(input.statistics, input, roster);
    var sheet :- ScoreSlots(ActiveSlots(roster), known, model);
    Conclude(input, roster, model, sheet, previous)
  }
}
