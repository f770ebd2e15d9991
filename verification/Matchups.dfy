/** A matchup of two team-period results (src/domain/fantasy-scoring.ts, calculateFantasyMatchup). */
module Matchups {
  import opened Base
  import opened Errors
  import opened FantasyDomain
  import opened PlayerScoring
  import opened ScoringRevisions
  import opened TeamPeriods

  datatype TeamTotal = TeamTotal(
    teamId: Id,
    totalMilliPoints: int,
    categoryTotals: seq<CategoryTotal>,
    teamResultId: Id,
    teamResultRevision: int,
    teamResultDigest: TeamResult)

  datatype MatchupOutcome = Unresolved | FirstWin | SecondWin | Tie

  datatype TieBreak = NoTieBreak | HigherPredeclaredSeed

  /** How a matchup stands. */
  datatype Verdict = Verdict(outcome: MatchupOutcome, winner: Option<Id>, loser: Option<Id>, tieBreak: TieBreak)

  datatype MatchupInput = MatchupInput(
    resultId: Id,
    accountId: Id,
    leagueId: Id,
    calculatedAt: Instant,
    revision: int,
    previousId: Option<Id>,
    correctionReason: Option<string>,
    firstSeed: int,
    secondSeed: int)

  /** Everything the source digest covers. */
  datatype MatchupSources = MatchupSources(
    firstId: Id, firstRevision: int, firstDigest: TeamResult,
    secondId: Id, secondRevision: int, secondDigest: TeamResult,
    firstSeed: int, secondSeed: int)

  datatype Matchup = Matchup(
    id: Id,
    accountId: Id,
    leagueId: Id,
    period: Period,
    status: ResultStatus,
    first: TeamTotal,
    second: TeamTotal,
    verdict: Verdict,
    firstSeed: int,
    secondSeed: int,
    lineage: ModelLineage,
    calculatedAt: Instant,
    revision: int,
    previousId: Option<Id>,
    decision: Decision<Matchup>,
    sourceDigest: MatchupSources)

  function TotalFrom(result: TeamResult): TeamTotal {
    TeamTotal(result.teamId, result.totalMilliPoints, result.categoryTotals, result.id, result.revision, result)
  }

  predicate ValidSeed(seed: int) {
    1 <= seed <= MAX_SAFE_INTEGER
  }

  function CheckMatchup(
    input: MatchupInput, first: TeamResult, second: TeamResult, authority: Authority
  ): Check<Fault>
  {
    var authorized := CheckScoringAuthority(authority, input.accountId, input.leagueId);
    if authorized.Fail? then authorized
    else if !ValidSeed(input.firstSeed) || !ValidSeed(input.secondSeed) then
      Fail(ScoringFault(ScoringCode.InvalidInput))
    else if first.accountId != input.accountId || second.accountId != input.accountId then
      Fail(ScoringFault(ScoringCode.AccountMismatch))
    else if first.leagueId != input.leagueId || second.leagueId != input.leagueId || first.teamId == second.teamId ||
            first.period != second.period then
      Fail(ScoringFault(MatchupInvalid))
    else
      Need(input.firstSeed != input.secondSeed || first.period.phase == RegularSeason, ScoringFault(MatchupInvalid))
  }

  function Won(first: TeamResult, second: TeamResult, firstWins: bool, tieBreak: TieBreak): Verdict {
    if firstWins then Verdict(FirstWin, Some(first.teamId), Some(second.teamId), tieBreak)
    else Verdict(SecondWin, Some(second.teamId), Some(first.teamId), tieBreak)
  }

  function Judge(input: MatchupInput, first: TeamResult, second: TeamResult): Verdict {
    if first.status != Final || second.status != Final then Verdict(Unresolved, None, None, NoTieBreak)
    else if first.totalMilliPoints > second.totalMilliPoints then Won(first, second, true, NoTieBreak)
    else if first.totalMilliPoints < second.totalMilliPoints then Won(first, second, false, NoTieBreak)
    else if first.period.phase == RegularSeason then Verdict(Tie, None, None, NoTieBreak)
    else Won(first, second, input.firstSeed < input.secondSeed, HigherPredeclaredSeed)
  }

  function MatchupStatus(first: TeamResult, second: TeamResult): ResultStatus {
    if first.status == Final && second.status == Final then Final else InProgress
  }

  function MatchupSourcesOf(input: MatchupInput, first: TeamResult, second: TeamResult): MatchupSources {
    MatchupSources(first.id, first.revision, first, second.id, second.revision, second, input.firstSeed,
                   input.secondSeed)
  }

  function MatchupEnvelope(matchup: Matchup): Envelope<MatchupSources, Matchup> {
    Envelope(matchup.id, matchup.revision, matchup.sourceDigest, matchup, matchup.calculatedAt, matchup.status)
  }

  function PreviousMatchup(previous: Option<Matchup>): Option<Envelope<MatchupSources, Matchup>> {
    match previous
    case None => None
    case Some(matchup) => Some(MatchupEnvelope(matchup))
  }

  predicate SameMatchup(previous: Matchup, input: MatchupInput, first: TeamResult, second: TeamResult) {
    && previous.accountId == input.accountId
    && previous.leagueId == input.leagueId
    && previous.period == first.period
    && previous.first.teamId == first.teamId
    && previous.second.teamId == second.teamId
    && previous.lineage == first.lineage
  }

  function CalculateMatchup(
    input: MatchupInput, first: TeamResult, second: TeamResult, authority: Authority, previous: Option<Matchup>
  ): Result<Matchup, Fault>
  {
    var status := MatchupStatus(first, second);
    :- CheckMatchup(input, first, second, authority);
    :- Need(first.lineage == second.lineage, ScoringFault(MatchupInvalid));
    :- Need(previous.Some? ==> SameMatchup(previous.value, input, first, second), RevisionRefused);
    :- Need(StaysFinal(PreviousMatchup(previous), status), RevisionRefused);
    var identity := Identity(input.resultId, input.revision, input.previousId, input.correctionReason,
                             input.calculatedAt);
    var decision :- RevisionDecision(identity, MatchupSourcesOf(input, first, second), status,
                                     PreviousMatchup(previous));
    Ok(Matchup(input.resultId, input.accountId, input.leagueId, first.period, status, TotalFrom(first),
               TotalFrom(second),
               Judge(input, first, second), input.firstSeed, input.secondSeed, first.lineage, input.calculatedAt,
               input.revision, input.previousId, decision, MatchupSourcesOf(input, first, second)))
  }

  // ----- what a matchup decides -----

  /** One side has the better of the other: more points, or, outside the regular season, equal points and a smaller seed
      number. */
  predicate Beats(left: TeamResult, leftSeed: int, right: TeamResult, rightSeed: int) {
    || left.totalMilliPoints > right.totalMilliPoints
    || (left.totalMilliPoints == right.totalMilliPoints && left.period.phase != RegularSeason && leftSeed < rightSeed)
  }

  /** The verdict that names `winner` over `loser`. */
  predicate Names(verdict: Verdict, outcome: MatchupOutcome, winner: TeamResult, loser: TeamResult) {
    && verdict.outcome == outcome
    && verdict.winner == Some(winner.teamId)
    && verdict.loser == Some(loser.teamId)
    && verdict.tieBreak ==
         (if winner.totalMilliPoints == loser.totalMilliPoints then HigherPredeclaredSeed else NoTieBreak)
  }

  /** A matchup of two final results names the better side, the other as loser, and the seeds as tie break exactly when
      they decided; it ties only in the regular season, on equal points; until both are final it is open. */
  lemma MatchupDecides(
    input: MatchupInput, first: TeamResult, second: TeamResult, authority: Authority, previous: Option<Matchup>
  )
    requires CalculateMatchup(input, first, second, authority, previous).Ok?
    ensures
      var matchup := CalculateMatchup(input, first, second, authority, previous).value;
      var firstBetter := Beats(first, input.firstSeed, second, input.secondSeed);
      var secondBetter := Beats(second, input.secondSeed, first, input.firstSeed);
      && (matchup.status == Final <==> first.status == Final && second.status == Final)
      && !(firstBetter && secondBetter)
      && (Names(matchup.verdict, FirstWin, first, second) <==> matchup.status == Final && firstBetter)
      && (Names(matchup.verdict, SecondWin, second, first) <==> matchup.status == Final && secondBetter)
      && (matchup.verdict == Verdict(Tie, None, None, NoTieBreak) <==>
            matchup.status == Final && !firstBetter && !secondBetter)
      && (matchup.verdict == Verdict(Unresolved, None, None, NoTieBreak) <==> matchup.status != Final)
      && (matchup.verdict.outcome == Tie ==>
            first.period.phase == RegularSeason && first.totalMilliPoints == second.totalMilliPoints)
  {
  }

  // ----- the order of the sides does not matter -----

  function MirrorVerdict(verdict: Verdict): Verdict {
    verdict.(outcome :=
      match verdict.outcome
      case FirstWin => SecondWin
      case SecondWin => FirstWin
      case Tie => Tie
      case Unresolved => Unresolved)
  }

  function MirrorInput(input: MatchupInput): MatchupInput {
    input.(firstSeed := input.secondSeed, secondSeed := input.firstSeed)
  }

  function MirrorSources(sources: MatchupSources): MatchupSources {
    MatchupSources(sources.secondId, sources.secondRevision, sources.secondDigest,
                   sources.firstId, sources.firstRevision, sources.firstDigest, sources.secondSeed, sources.firstSeed)
  }

  /** The same matchup with its sides named in the other order, all the way down its corrections. */
  function MirrorMatchup(matchup: Matchup): Matchup {
    matchup.(
      first := matchup.second,
      second := matchup.first,
      verdict := MirrorVerdict(matchup.verdict),
      firstSeed := matchup.secondSeed,
      secondSeed := matchup.firstSeed,
      decision := matchup.decision.(correction :=
        match matchup.decision.correction
        case None => None
        case Some(correction) => Some(correction.(previousDigest := MirrorMatchup(correction.previousDigest)))),
      sourceDigest := MirrorSources(matchup.sourceDigest))
  }

  function MirrorDecision(decision: Decision<Matchup>): Decision<Matchup> {
    match decision.correction
    case None => decision
    case Some(correction) =>
      decision.(correction := Some(correction.(previousDigest := MirrorMatchup(correction.previousDigest))))
  }

  function MirrorPrevious(previous: Option<Matchup>): Option<Matchup> {
    match previous
    case None => None
    case Some(matchup) => Some(MirrorMatchup(matchup))
  }

  lemma DecisionMirrors(identity: Identity, sources: MatchupSources, status: ResultStatus, previous: Option<Matchup>)
    ensures
      RevisionDecision(identity, MirrorSources(sources), status, PreviousMatchup(MirrorPrevious(previous))) ==
      match RevisionDecision(identity, sources, status, PreviousMatchup(previous))
      case Ok(decision) => Ok(MirrorDecision(decision))
      case Err(fault) => Err(fault)
  {
    if previous.Some? {
      assert MirrorSources(sources) == MirrorSources(previous.value.sourceDigest) <==>
               sources == previous.value.sourceDigest;
    }
  }

  lemma GuardsMirror(input: MatchupInput, first: TeamResult, second: TeamResult, authority: Authority)
    ensures CheckMatchup(MirrorInput(input), second, first, authority) == CheckMatchup(input, first, second, authority)
    ensures CheckMatchup(input, first, second, authority).Pass? ==>
              Judge(MirrorInput(input), second, first) == MirrorVerdict(Judge(input, first, second))
  {
  }

  /** Naming the two sides in the other order, now and in every earlier revision, gives the mirrored result or the same
      error. */
  lemma SidesDoNotMatter(
    input: MatchupInput, first: TeamResult, second: TeamResult, authority: Authority, previous: Option<Matchup>
  )
    ensures
      CalculateMatchup(MirrorInput(input), second, first, authority, MirrorPrevious(previous)) ==
      match CalculateMatchup(input, first, second, authority, previous)
      case Ok(matchup) => Ok(MirrorMatchup(matchup))
      case Err(fault) => Err(fault)
  {
    GuardsMirror(input, first, second, authority);
    var identity := Identity(input.resultId, input.revision, input.previousId, input.correctionReason,
                             input.calculatedAt);
    DecisionMirrors(identity, MatchupSourcesOf(input, first, second), MatchupStatus(first, second), previous);
    assert MirrorSources(MatchupSourcesOf(input, first, second)) == MatchupSourcesOf(MirrorInput(input), second, first);
  }

  // ----- histories -----

  ghost predicate MatchupCalculated(matchup: Matchup, previous: Option<Matchup>) {
    exists input, first, second, authority :: CalculateMatchup(input, first, second, authority, previous) == Ok(matchup)
  }

  ghost predicate MatchupCalculatedAt(matchups: seq<Matchup>, i: nat)
    requires i < |matchups|
  {
    MatchupCalculated(matchups[i], if i == 0 then None else Some(matchups[i - 1]))
  }

  ghost predicate MatchupHistory(matchups: seq<Matchup>) {
    forall i :: 0 <= i < |matchups| ==> MatchupCalculatedAt(matchups, i)
  }

  ghost function MatchupLink(matchup: Matchup): Link<MatchupSources, Matchup> {
    Link(MatchupEnvelope(matchup), matchup.previousId, matchup.decision)
  }

  ghost function MatchupLinks(matchups: seq<Matchup>): seq<Link<MatchupSources, Matchup>> {
    seq(|matchups|, i requires 0 <= i < |matchups| => MatchupLink(matchups[i]))
  }

  lemma MatchupIsLinked(matchup: Matchup, previous: Option<Matchup>)
    requires MatchupCalculated(matchup, previous)
    ensures Accepted(MatchupLink(matchup), PreviousMatchup(previous))
  {
  }

  /** The revisions of a matchup: CALCULATE*, at most one FINALIZE, then RECALCULATE* with exact corrections. */
  lemma MatchupHistoryShape(matchups: seq<Matchup>)
    requires MatchupHistory(matchups)
    ensures Numbered(MatchupLinks(matchups)) && exists at :: Word(MatchupLinks(matchups), at)
  {
    var links := MatchupLinks(matchups);
    forall i | 0 <= i < |links| ensures Linked(links, i) {
      assert MatchupCalculatedAt(matchups, i);
      MatchupIsLinked(matchups[i], if i == 0 then None else Some(matchups[i - 1]));
    }
    ChainShape(links);
  }
}
