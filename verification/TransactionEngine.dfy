/** Acceptance of one command: idempotency, gates, mutation, evidence (src/domain/fantasy-transactions.ts). */
module TransactionEngine {
  import opened Base
  import opened Errors
  import opened FantasyRules
  import opened FantasyDomain
  import opened FantasyTransactions
  import opened Waivers
  import opened Projection

  // ----- the initial state -----

  function TeamIds(teams: seq<Team>): seq<Id> {
    seq(|teams|, i requires 0 <= i < |teams| => teams[i].id)
  }

  function RosterTeams(rosters: seq<Snapshot>): seq<Id> {
    seq(|rosters|, i requires 0 <= i < |rosters| => rosters[i].teamId)
  }

  function BaseballPlayers(entries: seq<Entry>): seq<Id> {
    seq(|entries|, i requires 0 <= i < |entries| => entries[i].baseballPlayerId)
  }

  function LockIds(locks: seq<LineupLock>): seq<Id> {
    seq(|locks|, i requires 0 <= i < |locks| => locks[i].id)
  }

  predicate PolicyAllowed(policy: Policy) {
    && Distinct(policy.waiverInstants)
    && Distinct(policy.tradeInstants)
    && Distinct(policy.initialWaiverPriority)
    && Distinct(LockIds(policy.lineupLocks))
    && forall lock :: lock in policy.lineupLocks ==> lock.startsAt < lock.endsAt
  }

  predicate TeamsCovered(ctx: Context, policy: Policy) {
    var teamIds := TeamIds(ctx.teams);
    && (forall team :: team in ctx.teams ==>
          team.accountId == ctx.league.accountId && team.leagueId == ctx.league.id &&
          team.lifecycle == TeamLifecycle.Active)
    && |policy.initialWaiverPriority| == |teamIds|
    && forall id :: id in policy.initialWaiverPriority ==> id in teamIds
  }

  predicate WithinLeague(ctx: Context, entries: seq<Entry>, rosters: seq<Snapshot>) {
    && |rosters| == |ctx.teams|
    && (forall entry :: entry in entries ==> entry.accountId == ctx.league.accountId && entry.leagueId == ctx.league.id)
    && (forall roster :: roster in rosters ==>
          && roster.accountId == ctx.league.accountId
          && roster.leagueId == ctx.league.id
          && roster.teamId in TeamIds(ctx.teams)
          && roster.rules.modelVersionId == ctx.model.content.modelVersionId
          && roster.rules.modelDigest == ctx.model.contentDigest)
  }

  function CreateState(
    ctx: Context, policy: Policy, entries: seq<Entry>, rosters: seq<Snapshot>
  ): Result<State, Fault>
  {
    var teamIds := TeamIds(ctx.teams);
    :- VerifyModel(ctx.model);
    :- Need(policy.initialWaiverPriority != [] && ctx.league.lifecycle == LeagueLifecycle.Active,
            Refuse(InvalidCommand));
    :- Need(PolicyAllowed(policy) && Distinct(teamIds), Refuse(InvalidCommand));
    :- Need(TeamsCovered(ctx, policy), Refuse(TransactionCode.LeagueMismatch));
    :- Need(Distinct(EntryIds(entries)) && Distinct(BaseballPlayers(entries)) && Distinct(RosterTeams(rosters)),
            Refuse(InvalidCommand));
    :- Need(WithinLeague(ctx, entries, rosters), Refuse(TransactionCode.LeagueMismatch));
    :- Need(SameRules(ctx.league.rules, BindingOf(ctx.model)), Refuse(InvalidCommand));
    :- CheckProjection(entries, rosters);
    Ok(State(ctx.league.accountId, ctx.league.id, 0, policy, entries, rosters, policy.initialWaiverPriority, [], [],
             []))
  }

  // ----- one command -----

  function Mutate(s: State, c: Command, ctx: Context): Result<Mutation, Fault> {
    match c.action
    case AddPlayer(_, _, _, _, _) => AddPlayerTo(s, c, ctx)
    case DropPlayer(_, _, _) => DropPlayerFrom(s, c, ctx)
    case Trade(_, _, _, _, _, _, _, _, _, _) => TradePlayers(s, c, ctx)
    case LineupChange(_, _, _, _) => ChangeLineup(s, c, ctx)
    case SubmitClaim(_, _, _, _, _, _, _) => SubmitWaiver(s, c, ctx)
    case CancelClaim(_) => CancelWaiver(s, c, ctx)
    case ProcessWaivers(_) => ProcessBatch(s, c, ctx)
  }

  /** The team whose narrowed authority may be enough for the command. */
  function AuthorizedTeam(s: State, action: Action): Option<Id> {
    match action
    case AddPlayer(teamId, _, _, _, _) => Some(teamId)
    case DropPlayer(teamId, _, _) => Some(teamId)
    case LineupChange(teamId, _, _, _) => Some(teamId)
    case SubmitClaim(_, teamId, _, _, _, _, _) => Some(teamId)
    case CancelClaim(claimId) =>
      (match ClaimOf(s.claims, claimId)
       case Some(claim) => Some(claim.teamId)
       case None => None)
    case Trade(_, _, _, _, _, _, _, _, _, _) => None
    case ProcessWaivers(_) => None
  }

  function AuthorizeCommand(s: State, c: Command): Check<Fault> {
    var authorized := Authorize(s, c.authority, AuthorizedTeam(s, c.action));
    if authorized.Fail? then authorized
    else Need(!((c.action.Trade? || c.action.ProcessWaivers?) && c.authority.scope.TeamScope?),
              Refuse(TransactionCode.AuthorizationRequired))
  }

  function DenialCode(fault: Fault): TransactionCode {
    match fault
    case TransactionFault(code) => code
    case RulesFault(_) => InvalidCommand
    case ScoringFault(_) => InvalidCommand
    case DomainFault(code) =>
      match code
      case AccountMismatch => TransactionCode.AccountMismatch
      case ScopeMismatch => TransactionCode.AuthorizationRequired
      case AuthorizationRequired => TransactionCode.AuthorizationRequired
      case RosterConflict => TransactionCode.RosterConflict
      case PositionIneligible => TransactionCode.RosterConflict
      case RulesMismatch => TransactionCode.RosterConflict
      case HistoryConflict => TransactionCode.RosterConflict
      case InvalidInput => InvalidCommand
  }

  /** The gates between the idempotency lookup and the mutation, in the order the code passes them. */
  function Gate(s: State, c: Command, ctx: Context): Check<TransactionCode> {
    if c.accountId != s.accountId || c.accountId != ctx.league.accountId then
      Fail(TransactionCode.AccountMismatch)
    else if c.leagueId != s.leagueId || c.leagueId != ctx.league.id ||
            (exists team :: team in ctx.teams && (team.accountId != s.accountId || team.leagueId != s.leagueId)) then
      Fail(TransactionCode.LeagueMismatch)
    else if ctx.league.lifecycle != LeagueLifecycle.Active then
      Fail(LeagueInactive)
    else if c.authority.authorizedAt > c.submittedAt then
      Fail(TransactionCode.AuthorizationRequired)
    else
      match AuthorizeCommand(s, c)
      case Fail(fault) => Fail(DenialCode(fault))
      case Pass => Need(c.expectedRevision == s.revision, StaleRevision)
  }

  /** The mutation, accepted only if both views of ownership still agree. */
  function Commit(s: State, c: Command, ctx: Context): Result<Mutation, Fault> {
    var sealed := VerifyModel(ctx.model);
    :- sealed;
    var mutation :- Mutate(s, c, ctx);
    :- CheckProjection(mutation.entries, mutation.rosters);
    Ok(mutation)
  }

  datatype Outcome = Outcome(state: State, record: Record, audit: Audit, duplicate: bool)

  function CorrectionReason(action: Action): Option<string> {
    if action.LineupChange? then action.correctionReason else None
  }

  function RecordFor(
    s: State, c: Command, status: Status, code: Option<TransactionCode>,
    effectiveAt: Option<Instant>, snapshotIds: seq<Id>, afterRevision: nat
  ): Record
  {
    Record(c.operationId, c, c.submittedAt, effectiveAt, status, code, s.revision, afterRevision, snapshotIds)
  }

  function AuditFor(s: State, c: Command, status: Status, code: Option<TransactionCode>, afterRevision: nat): Audit {
    Audit(c.operationId, c.authority.actorId, c.submittedAt, status, code, CorrectionReason(c.action), s.revision,
          afterRevision)
  }

  function Deny(s: State, c: Command, code: TransactionCode): Outcome {
    var record := RecordFor(s, c, Denied, Some(code), None, [], s.revision);
    var audit := AuditFor(s, c, Denied, Some(code), s.revision);
    var transactions := if code == IdempotencyConflict then s.transactions else s.transactions + [record];
    Outcome(s.(transactions := transactions, audits := s.audits + [audit]), record, audit, false)
  }

  function Accept(s: State, c: Command, m: Mutation): Outcome {
    var record := RecordFor(s, c, m.status, None, m.effectiveAt, m.snapshotIds, s.revision + 1);
    var audit := AuditFor(s, c, m.status, None, s.revision + 1);
    Outcome(
      s.(revision := s.revision + 1,
         entries := m.entries,
         rosters := m.rosters,
         claims := m.claims,
         priority := m.priority,
         transactions := s.transactions + [record],
         audits := s.audits + [audit] + m.audits),
      record, audit, false)
  }

  /** A command whose operation id is not in the log yet. */
  function ApplyNew(s: State, c: Command, ctx: Context): Outcome {
    match Gate(s, c, ctx)
    case Fail(code) => Deny(s, c, code)
    case Pass =>
      match Commit(s, c, ctx)
      case Err(fault) => Deny(s, c, DenialCode(fault))
      case Ok(mutation) => Accept(s, c, mutation)
  }

  function Apply(s: State, c: Command, ctx: Context): Result<Outcome, Fault> {
    match RecordOf(s.transactions, c.operationId)
    case None => Ok(ApplyNew(s, c, ctx))
    case Some(existing) =>
      if existing.requestDigest != c then Ok(Deny(s, c, IdempotencyConflict))
      else
        match AuditOf(s.audits, c.operationId)
        case None => Err(Refuse(InvalidCommand))
        case Some(audit) => Ok(Outcome(s, existing, audit, true))
  }

  /** The guarded part of the handler: whatever fails in it becomes a denial. */
  method TryMutation(s: State, c: Command, ctx: Context) returns (mutation: Result<Mutation, Fault>)
    ensures mutation == Commit(s, c, ctx)
  {
    var sealed := VerifyModel(ctx.model);
    if sealed.Fail? {
      return Err(sealed.error);
    }
    if c.action.ProcessWaivers? {
      mutation := ProcessWaiverClaims(s, c, ctx);
    } else {
      mutation := Mutate(s, c, ctx);
    }
    if mutation.Err? {
      return mutation;
    }
    var agreement := AssertOwnershipProjection(mutation.value.entries, mutation.value.rosters);
    if agreement.Fail? {
      return Err(agreement.error);
    }
  }

  method ApplyTransaction(s: State, c: Command, ctx: Context) returns (outcome: Result<Outcome, Fault>)
    ensures outcome == Apply(s, c, ctx)
  {
    var existing := RecordOf(s.transactions, c.operationId);
    if existing.Some? {
      if existing.value.requestDigest != c {
        return Ok(Deny(s, c, IdempotencyConflict));
      }
      var audit := AuditOf(s.audits, c.operationId);
      if audit.None? {
        return Err(Refuse(InvalidCommand));
      }
      return Ok(Outcome(s, existing.value, audit.value, true));
    }
    var gate := Gate(s, c, ctx);
    if gate.Fail? {
      return Ok(Deny(s, c, gate.error));
    }
    var mutation := TryMutation(s, c, ctx);
    if mutation.Err? {
      return Ok(Deny(s, c, DenialCode(mutation.error)));
    }
    return Ok(Accept(s, c, mutation.value));
  }
}
