/** The transaction state machine of a fantasy league (src/domain/fantasy-transactions.ts). */
module FantasyTransactions {
  import opened Base
  import opened Errors
  import opened FantasyRules
  import opened FantasyDomain

  // ----- state -----

  datatype AssignmentMethod = DraftAssignment | CommissionerAssignment

  datatype LineupLock = LineupLock(id: Id, startsAt: Instant, endsAt: Instant)

  datatype Policy = Policy(
    assignmentMethod: AssignmentMethod,
    assignmentDeadline: Instant,
    waiverInstants: seq<Instant>,
    initialWaiverPriority: seq<Id>,
    tradeInstants: seq<Instant>,
    tradeDeadline: Instant,
    lineupLocks: seq<LineupLock>)

  datatype ClaimStatus = Pending | CancelledClaim | AppliedClaim | RejectedClaim

  datatype Claim = Claim(
    id: Id,
    operationId: Id,
    teamId: Id,
    playerId: Id,
    conditionalDropId: Option<Id>,
    targetSlotId: Id,
    snapshotId: Id,
    processingAt: Instant,
    submittedAt: Instant,
    submittedBy: Id,
    status: ClaimStatus,
    resolvedAt: Option<Instant>,
    resultCode: Option<TransactionCode>)

  datatype Status = Applied | Queued | Cancelled | Denied

  /** A digest free of collisions: the command stands for its own digest. */
  type Digest = Command

  datatype Record = Record(
    operationId: Id,
    requestDigest: Digest,
    submittedAt: Instant,
    effectiveAt: Option<Instant>,
    status: Status,
    resultCode: Option<TransactionCode>,
    beforeRevision: nat,
    afterRevision: nat,
    snapshotIds: seq<Id>)

  datatype Audit = Audit(
    operationId: Id,
    actorId: Id,
    acceptedAt: Instant,
    result: Status,
    reasonCode: Option<TransactionCode>,
    correctionReason: Option<string>,
    beforeRevision: nat,
    afterRevision: nat)

  datatype State = State(
    accountId: Id,
    leagueId: Id,
    revision: nat,
    policy: Policy,
    entries: seq<Entry>,
    rosters: seq<Snapshot>,
    priority: seq<Id>,
    claims: seq<Claim>,
    transactions: seq<Record>,
    audits: seq<Audit>)

  // ----- commands -----

  datatype Acceptance = Acceptance(teamId: Id, membershipId: Id, acceptedAt: Instant, referenceIds: seq<Id>)

  datatype Action =
    | AddPlayer(teamId: Id, playerId: Id, targetSlotId: Id, snapshotId: Id, assignmentMethod: AssignmentMethod)
    | DropPlayer(teamId: Id, playerId: Id, snapshotId: Id)
    | Trade(firstTeamId: Id, secondTeamId: Id, firstPlayerId: Id, secondPlayerId: Id,
            firstTargetSlotId: Id, secondTargetSlotId: Id, firstSnapshotId: Id, secondSnapshotId: Id,
            tradeAt: Instant, acceptances: seq<Acceptance>)
    | LineupChange(teamId: Id, snapshotId: Id, slots: seq<Slot>, correctionReason: Option<string>)
    | SubmitClaim(claimId: Id, teamId: Id, playerId: Id, conditionalDropId: Option<Id>,
                  targetSlotId: Id, snapshotId: Id, claimAt: Instant)
    | CancelClaim(claimId: Id)
    | ProcessWaivers(processingAt: Instant)

  datatype Command = Command(
    operationId: Id,
    auditId: Id,
    accountId: Id,
    leagueId: Id,
    expectedRevision: nat,
    submittedAt: Instant,
    authority: Authority,
    action: Action)

  /** What the caller passes beside the state. `resolutionOperation` is how a batch and a claim id are joined into one
      operation id. */
  datatype Context = Context(league: League, teams: seq<Team>, model: Model, resolutionOperation: (Id, Id) -> Id)

  datatype Mutation = Mutation(
    entries: seq<Entry>,
    rosters: seq<Snapshot>,
    claims: seq<Claim>,
    priority: seq<Id>,
    audits: seq<Audit>,
    status: Status,
    effectiveAt: Option<Instant>,
    snapshotIds: seq<Id>)

  function Refuse(code: TransactionCode): Fault {
    TransactionFault(code)
  }

  // ----- lookups -----

  function TeamOf(teams: seq<Team>, id: Id): (team: Option<Team>)
    ensures team.Some? ==> team.value in teams && team.value.id == id
    ensures team.None? ==> forall t :: t in teams ==> t.id != id
  {
    if teams == [] then None
    else if teams[0].id == id then Some(teams[0])
    else TeamOf(teams[1..], id)
  }

  function RosterOf(rosters: seq<Snapshot>, teamId: Id): (roster: Option<Snapshot>)
    ensures roster.Some? ==> roster.value in rosters && roster.value.teamId == teamId
    ensures roster.None? ==> forall r :: r in rosters ==> r.teamId != teamId
  {
    if rosters == [] then None
    else if rosters[0].teamId == teamId then Some(rosters[0])
    else RosterOf(rosters[1..], teamId)
  }

  function ClaimOf(claims: seq<Claim>, id: Id): (claim: Option<Claim>)
    ensures claim.Some? ==> claim.value in claims && claim.value.id == id
    ensures claim.None? ==> forall c :: c in claims ==> c.id != id
  {
    if claims == [] then None
    else if claims[0].id == id then Some(claims[0])
    else ClaimOf(claims[1..], id)
  }

  function RecordOf(transactions: seq<Record>, operationId: Id): (record: Option<Record>)
    ensures record.Some? ==> record.value in transactions && record.value.operationId == operationId
    ensures record.None? ==> forall r :: r in transactions ==> r.operationId != operationId
  {
    if transactions == [] then None
    else if transactions[0].operationId == operationId then Some(transactions[0])
    else RecordOf(transactions[1..], operationId)
  }

  function AuditOf(audits: seq<Audit>, operationId: Id): (audit: Option<Audit>)
    ensures audit.Some? ==> audit.value in audits && audit.value.operationId == operationId
    ensures audit.None? ==> forall a :: a in audits ==> a.operationId != operationId
  {
    if audits == [] then None
    else if audits[0].operationId == operationId then Some(audits[0])
    else AuditOf(audits[1..], operationId)
  }

  function TeamFor(teams: seq<Team>, id: Id): Result<Team, Fault> {
    match TeamOf(teams, id)
    case Some(team) => Ok(team)
    case None => Err(Refuse(TransactionCode.LeagueMismatch))
  }

  function EntryFor(entries: seq<Entry>, id: Id): Result<Entry, Fault> {
    match EntryOf(entries, id)
    case Some(entry) => Ok(entry)
    case None => Err(Refuse(PlayerUnavailable))
  }

  function RosterFor(rosters: seq<Snapshot>, teamId: Id): Result<Snapshot, Fault> {
    match RosterOf(rosters, teamId)
    case Some(roster) => Ok(roster)
    case None => Err(Refuse(TransactionCode.RosterConflict))
  }

  // ----- replacing entries, rosters and slots -----

  function ReplaceEntry(entries: seq<Entry>, updated: Entry): seq<Entry> {
    seq(|entries|, i requires 0 <= i < |entries| => if entries[i].id == updated.id then updated else entries[i])
  }

  function ReplaceRoster(rosters: seq<Snapshot>, updated: Snapshot): seq<Snapshot> {
    seq(|rosters|, i requires 0 <= i < |rosters| => if rosters[i].teamId == updated.teamId then updated else rosters[i])
  }

  function WithOwnership(entry: Entry, state: OwnershipState, teamId: Option<Id>, effectiveAt: Instant): Entry {
    entry.(ownership := Ownership(state, teamId, entry.ownership.revision + 1, effectiveAt))
  }

  function Placed(slots: seq<Slot>, targetSlotId: Id, playerId: Id): seq<Slot> {
    seq(|slots|, i requires 0 <= i < |slots| =>
      if slots[i].id == targetSlotId then slots[i].(playerId := Some(playerId)) else slots[i])
  }

  function Vacated(slots: seq<Slot>, playerId: Id): seq<Slot> {
    seq(|slots|, i requires 0 <= i < |slots| =>
      if slots[i].playerId == Some(playerId) then slots[i].(playerId := None) else slots[i])
  }

  function SlotsWithAssignment(slots: seq<Slot>, targetSlotId: Id, playerId: Id): Result<seq<Slot>, Fault> {
    var occupied := exists slot :: slot in slots && slot.id == targetSlotId && slot.playerId.Some?;
    :- Need(!occupied, Refuse(TransactionCode.RosterConflict));
    :- Need(exists slot :: slot in slots && slot.id == targetSlotId, Refuse(TransactionCode.RosterConflict));
    Ok(Placed(slots, targetSlotId, playerId))
  }

  function SlotsWithoutPlayer(slots: seq<Slot>, playerId: Id): Result<seq<Slot>, Fault> {
    var listed := exists slot :: slot in slots && slot.playerId == Some(playerId);
    :- Need(listed, Refuse(OwnershipConflict));
    Ok(Vacated(slots, playerId))
  }

  function SuccessorInput(
    id: Id, at: Instant, ctx: Context, team: Team, previous: Snapshot, slots: seq<Slot>
  ): SnapshotInput
  {
    SnapshotInput(id, ctx.league.accountId, ctx.league.id, team.id, previous.revision + 1, Some(previous.id), at, slots)
  }

  function SuccessorRoster(
    id: Id, at: Instant, ctx: Context, team: Team, entries: seq<Entry>,
    previous: Snapshot, slots: seq<Slot>, authority: Authority
  ): Result<Snapshot, Fault>
  {
    CreateSnapshot(SuccessorInput(id, at, ctx, team, previous, slots),
                   ctx.league, team, ctx.model, entries, authority, Some(previous))
  }

  predicate LineupIsLocked(policy: Policy, at: Instant) {
    exists lock :: lock in policy.lineupLocks && lock.startsAt <= at < lock.endsAt
  }

  function AcceptanceOf(acceptances: seq<Acceptance>, teamId: Id): Option<Acceptance> {
    if acceptances == [] then None
    else
      var last := acceptances[|acceptances| - 1];
      if last.teamId == teamId then Some(last) else AcceptanceOf(acceptances[..|acceptances| - 1], teamId)
  }

  predicate AcceptedBy(acceptances: seq<Acceptance>, team: Team, at: Instant) {
    match AcceptanceOf(acceptances, team.id)
    case None => false
    case Some(a) => a.membershipId == team.ownerMembershipId && a.referenceIds != [] && a.acceptedAt <= at
  }

  predicate AcceptedTrade(acceptances: seq<Acceptance>, first: Team, second: Team, at: Instant) {
    && first.id != second.id
    && |set a | a in acceptances :: a.teamId| == 2
    && AcceptedBy(acceptances, first, at)
    && AcceptedBy(acceptances, second, at)
  }

  // ----- the single-command mutations -----

  function Authorize(s: State, authority: Authority, teamId: Option<Id>): Check<Fault> {
    AssertAuthority(authority, s.accountId, RosterManage, s.leagueId, teamId)
  }

  /** Entries and rosters after a change; the claims and the priority stay. */
  function Roster(s: State, entries: seq<Entry>, rosters: seq<Snapshot>, at: Instant, snapshotIds: seq<Id>): Mutation {
    Mutation(entries, rosters, s.claims, s.priority, [], Applied, Some(at), snapshotIds)
  }

  function AddPlayerTo(s: State, c: Command, ctx: Context): Result<Mutation, Fault>
    requires c.action.AddPlayer?
  {
    var a := c.action;
    :- Need(a.assignmentMethod == s.policy.assignmentMethod, Refuse(InvalidCommand));
    :- Need(c.submittedAt < s.policy.assignmentDeadline, Refuse(InitialAssignmentClosed));
    :- Need(!c.authority.scope.TeamScope?, Refuse(TransactionCode.AuthorizationRequired));
    var team :- TeamFor(ctx.teams, a.teamId);
    :- Authorize(s, c.authority, Some(team.id));
    var entry :- EntryFor(s.entries, a.playerId);
    :- Need(!Owned(entry), Refuse(OwnershipConflict));
    var entries := ReplaceEntry(s.entries, WithOwnership(entry, Rostered, Some(team.id), c.submittedAt));
    var previous :- RosterFor(s.rosters, team.id);
    var slots :- SlotsWithAssignment(previous.slots, a.targetSlotId, entry.id);
    var roster :- SuccessorRoster(a.snapshotId, c.submittedAt, ctx, team, entries, previous, slots, c.authority);
    Ok(Roster(s, entries, ReplaceRoster(s.rosters, roster), c.submittedAt, [roster.id]))
  }

  function DropPlayerFrom(s: State, c: Command, ctx: Context): Result<Mutation, Fault>
    requires c.action.DropPlayer?
  {
    var a := c.action;
    var team :- TeamFor(ctx.teams, a.teamId);
    :- Authorize(s, c.authority, Some(team.id));
    var entry :- EntryFor(s.entries, a.playerId);
    :- Need(entry.ownership.teamId == Some(team.id), Refuse(OwnershipConflict));
    var previous :- RosterFor(s.rosters, team.id);
    var entries := ReplaceEntry(s.entries, WithOwnership(entry, Released, None, c.submittedAt));
    var slots :- SlotsWithoutPlayer(previous.slots, entry.id);
    var roster :- SuccessorRoster(a.snapshotId, c.submittedAt, ctx, team, entries, previous, slots, c.authority);
    Ok(Roster(s, entries, ReplaceRoster(s.rosters, roster), c.submittedAt, [roster.id]))
  }

  /** The two sides of a trade that every manager accepted. */
  datatype Terms = Terms(first: Team, second: Team, firstPlayer: Entry, secondPlayer: Entry)

  function AgreeTerms(s: State, c: Command, ctx: Context): Result<Terms, Fault>
    requires c.action.Trade?
  {
    var a := c.action;
    :- Need(a.tradeAt in s.policy.tradeInstants && c.submittedAt == a.tradeAt, Refuse(ProcessingTimeInvalid));
    :- Need(a.tradeAt < s.policy.tradeDeadline, Refuse(TradeDeadlinePassed));
    var first :- TeamFor(ctx.teams, a.firstTeamId);
    var second :- TeamFor(ctx.teams, a.secondTeamId);
    :- Need(!c.authority.scope.TeamScope?, Refuse(TransactionCode.AuthorizationRequired));
    :- Authorize(s, c.authority, None);
    :- Need(AcceptedTrade(a.acceptances, first, second, a.tradeAt), Refuse(TradeAcceptanceRequired));
    var firstPlayer :- EntryFor(s.entries, a.firstPlayerId);
    var secondPlayer :- EntryFor(s.entries, a.secondPlayerId);
    :- Need(firstPlayer.ownership.teamId == Some(first.id) && secondPlayer.ownership.teamId == Some(second.id) &&
            firstPlayer.id != secondPlayer.id, Refuse(OwnershipConflict));
    Ok(Terms(first, second, firstPlayer, secondPlayer))
  }

  /** Two owned players change places. */
  function Exchange(entries: seq<Entry>, terms: Terms, at: Instant): seq<Entry> {
    ReplaceEntry(ReplaceEntry(entries, WithOwnership(terms.firstPlayer, Rostered, Some(terms.second.id), at)),
                 WithOwnership(terms.secondPlayer, Rostered, Some(terms.first.id), at))
  }

  /** One side's slots: its player leaves, the other side's player takes the target slot. */
  function ExchangeSlots(slots: seq<Slot>, outgoing: Id, targetSlotId: Id, incoming: Id): Result<seq<Slot>, Fault> {
    var left :- SlotsWithoutPlayer(slots, outgoing);
    SlotsWithAssignment(left, targetSlotId, incoming)
  }

  function ExecuteTrade(s: State, c: Command, ctx: Context, terms: Terms): Result<Mutation, Fault>
    requires c.action.Trade?
  {
    var a := c.action;
    var entries := Exchange(s.entries, terms, a.tradeAt);
    var firstPrevious :- RosterFor(s.rosters, terms.first.id);
    var secondPrevious :- RosterFor(s.rosters, terms.second.id);
    var firstSlots :- ExchangeSlots(firstPrevious.slots, terms.firstPlayer.id, a.firstTargetSlotId,
                                    terms.secondPlayer.id);
    var secondSlots :- ExchangeSlots(secondPrevious.slots, terms.secondPlayer.id, a.secondTargetSlotId,
                                     terms.firstPlayer.id);
    var firstRoster :- SuccessorRoster(a.firstSnapshotId, a.tradeAt, ctx, terms.first, entries, firstPrevious,
                                       firstSlots, c.authority);
    var secondRoster :- SuccessorRoster(a.secondSnapshotId, a.tradeAt, ctx, terms.second, entries, secondPrevious,
                                        secondSlots, c.authority);
    Ok(Roster(s, entries, ReplaceRoster(ReplaceRoster(s.rosters, firstRoster), secondRoster), a.tradeAt,
              [firstRoster.id, secondRoster.id]))
  }

  function TradePlayers(s: State, c: Command, ctx: Context): Result<Mutation, Fault>
    requires c.action.Trade?
  {
    var terms :- AgreeTerms(s, c, ctx);
    ExecuteTrade(s, c, ctx, terms)
  }

  function ChangeLineup(s: State, c: Command, ctx: Context): Result<Mutation, Fault>
    requires c.action.LineupChange?
  {
    var a := c.action;
    var team :- TeamFor(ctx.teams, a.teamId);
    :- Authorize(s, c.authority, Some(team.id));
    :- Need(!LineupIsLocked(s.policy, c.submittedAt) || (a.correctionReason.Some? && !c.authority.scope.TeamScope?),
            Refuse(LineupLocked));
    var previous :- RosterFor(s.rosters, team.id);
    var roster :- SuccessorRoster(a.snapshotId, c.submittedAt, ctx, team, s.entries, previous, a.slots, c.authority);
    Ok(Roster(s, s.entries, ReplaceRoster(s.rosters, roster), c.submittedAt, [roster.id]))
  }

  function ClaimFrom(c: Command, teamId: Id): Claim
    requires c.action.SubmitClaim?
  {
    var a := c.action;
    Claim(a.claimId, c.operationId, teamId, a.playerId, a.conditionalDropId, a.targetSlotId, a.snapshotId,
          a.claimAt, c.submittedAt, c.authority.actorId, Pending, None, None)
  }

  function SubmitWaiver(s: State, c: Command, ctx: Context): Result<Mutation, Fault>
    requires c.action.SubmitClaim?
  {
    var a := c.action;
    var team :- TeamFor(ctx.teams, a.teamId);
    :- Authorize(s, c.authority, Some(team.id));
    :- Need(a.claimAt in s.policy.waiverInstants && c.submittedAt < a.claimAt, Refuse(ProcessingTimeInvalid));
    var entry :- EntryFor(s.entries, a.playerId);
    :- Need(!Owned(entry), Refuse(OwnershipConflict));
    :- (match a.conditionalDropId
        case None => Pass
        case Some(drop) =>
          match EntryFor(s.entries, drop)
          case Err(fault) => Fail(fault)
          case Ok(dropped) => Need(dropped.ownership.teamId == Some(team.id), Refuse(OwnershipConflict)));
    :- Need(ClaimOf(s.claims, a.claimId).None?, Refuse(WaiverClaimUnavailable));
    :- Need(!exists claim :: claim in s.claims && claim.status == Pending && claim.processingAt == a.claimAt &&
              claim.teamId == a.teamId && claim.playerId == a.playerId, Refuse(WaiverClaimUnavailable));
    Ok(Mutation(s.entries, s.rosters, s.claims + [ClaimFrom(c, team.id)], s.priority, [], Queued, Some(a.claimAt), []))
  }

  function CancelIn(claims: seq<Claim>, id: Id, at: Instant): seq<Claim> {
    seq(|claims|, i requires 0 <= i < |claims| =>
      if claims[i].id == id then claims[i].(status := CancelledClaim, resolvedAt := Some(at)) else claims[i])
  }

  function CancelWaiver(s: State, c: Command, ctx: Context): Result<Mutation, Fault>
    requires c.action.CancelClaim?
  {
    var found := ClaimOf(s.claims, c.action.claimId);
    :- Need(found.Some? && found.value.status == Pending, Refuse(WaiverClaimUnavailable));
    var claim := found.value;
    var _ :- TeamFor(ctx.teams, claim.teamId);
    :- Authorize(s, c.authority, Some(claim.teamId));
    Ok(Mutation(s.entries, s.rosters, CancelIn(s.claims, claim.id, c.submittedAt), s.priority, [], Cancelled, None, []))
  }
}
