/** The waiver batch: a greedy allocation with a rollback for each claim (src/domain/fantasy-transactions.ts). */
module Waivers {
  import opened Base
  import opened Errors
  import opened Ordering
  import opened FantasyDomain
  import opened FantasyTransactions

  // ----- the order of the claims -----

  /** The position of a team in the priority list; a team that is not listed comes last. */
  function RankOf(priority: seq<Id>, teamId: Id): int {
    if priority == [] then MAX_SAFE_INTEGER
    else if priority[|priority| - 1] == teamId then |priority| - 1
    else RankOf(priority[..|priority| - 1], teamId)
  }

  /** The claims of a batch are heard by team priority, then by submission time, then by id. */
  function ClaimOrder(priority: seq<Id>): (Claim, Claim) -> bool {
    (left: Claim, right: Claim) =>
      var l, r := RankOf(priority, left.teamId), RankOf(priority, right.teamId);
      if l != r then l < r
      else if left.submittedAt != right.submittedAt then left.submittedAt < right.submittedAt
      else left.id <= right.id
  }

  function DueAt(at: Instant): Claim -> bool {
    (claim: Claim) => claim.status == Pending && claim.processingAt == at
  }

  function DueClaims(s: State, at: Instant): seq<Claim> {
    Sort(ClaimOrder(s.priority), Filter(DueAt(at), s.claims))
  }

  // ----- one claim -----

  datatype Award = Award(entries: seq<Entry>, rosters: seq<Snapshot>, roster: Snapshot)

  /** The candidate entries and slots once the conditional drop is made. */
  datatype Room = Room(entries: seq<Entry>, slots: seq<Slot>)

  function MakeRoom(
    entries: seq<Entry>, previous: Snapshot, claim: Claim, team: Team, at: Instant
  ): Result<Room, Fault>
  {
    match claim.conditionalDropId
    case None => Ok(Room(entries, previous.slots))
    case Some(drop) =>
      var dropped :- EntryFor(entries, drop);
      :- Need(dropped.ownership.teamId == Some(team.id), Refuse(OwnershipConflict));
      var slots :- SlotsWithoutPlayer(previous.slots, dropped.id);
      Ok(Room(ReplaceEntry(entries, WithOwnership(dropped, Released, None, at)), slots))
  }

  /** The body of the try block: candidate values only, so that an error leaves no trace. */
  function Attempt(
    entries: seq<Entry>, rosters: seq<Snapshot>, claim: Claim, ctx: Context, authority: Authority, at: Instant
  ): Result<Award, Fault>
  {
    var team :- TeamFor(ctx.teams, claim.teamId);
    var target :- EntryFor(entries, claim.playerId);
    :- Need(!Owned(target), Refuse(OwnershipConflict));
    var previous :- RosterFor(rosters, team.id);
    var room :- MakeRoom(entries, previous, claim, team, at);
    var acquired := ReplaceEntry(room.entries, WithOwnership(target, Rostered, Some(team.id), at));
    var slots :- SlotsWithAssignment(room.slots, claim.targetSlotId, target.id);
    var roster :- SuccessorRoster(claim.snapshotId, at, ctx, team, acquired, previous, slots, authority);
    Ok(Award(acquired, ReplaceRoster(rosters, roster), roster))
  }

  // ----- the batch -----

  datatype Batch = Batch(
    entries: seq<Entry>,
    rosters: seq<Snapshot>,
    priority: seq<Id>,
    resolved: map<Id, Claim>,
    snapshotIds: seq<Id>,
    audits: seq<Audit>)

  function Other(teamId: Id): Id -> bool {
    (other: Id) => other != teamId
  }

  function MoveToBack(priority: seq<Id>, teamId: Id): seq<Id> {
    Filter(Other(teamId), priority) + [teamId]
  }

  function RejectionCode(fault: Fault): TransactionCode {
    if fault.TransactionFault? then fault.transaction else TransactionCode.RosterConflict
  }

  function AppliedVersion(claim: Claim, at: Instant): Claim {
    claim.(status := AppliedClaim, resolvedAt := Some(at), resultCode := None)
  }

  function RejectedVersion(claim: Claim, at: Instant, code: TransactionCode): Claim {
    claim.(status := RejectedClaim, resolvedAt := Some(at), resultCode := Some(code))
  }

  function ResolutionAudit(
    s: State, c: Command, claim: Claim, ctx: Context, result: Status, code: Option<TransactionCode>
  ): Audit
    requires c.action.ProcessWaivers?
  {
    Audit(ctx.resolutionOperation(c.operationId, claim.id), c.authority.actorId, c.action.processingAt,
          result, code, None, s.revision, s.revision + 1)
  }

  /** Books the outcome of one attempt: an error changes neither holdings nor priority. */
  function Enter(b: Batch, claim: Claim, attempt: Result<Award, Fault>, s: State, c: Command, ctx: Context): Batch
    requires c.action.ProcessWaivers?
  {
    var at := c.action.processingAt;
    match attempt
    case Ok(award) =>
      Batch(award.entries, award.rosters, MoveToBack(b.priority, claim.teamId),
            b.resolved[claim.id := AppliedVersion(claim, at)],
            b.snapshotIds + [award.roster.id],
            b.audits + [ResolutionAudit(s, c, claim, ctx, Applied, None)])
    case Err(fault) =>
      var code := RejectionCode(fault);
      b.(resolved := b.resolved[claim.id := RejectedVersion(claim, at, code)],
         audits := b.audits + [ResolutionAudit(s, c, claim, ctx, Denied, Some(code))])
  }

  /** One pass of the loop over the due claims. */
  function Hear(b: Batch, claim: Claim, s: State, c: Command, ctx: Context): Batch
    requires c.action.ProcessWaivers?
  {
    Enter(b, claim, Attempt(b.entries, b.rosters, claim, ctx, c.authority, c.action.processingAt), s, c, ctx)
  }

  function HearAll(due: seq<Claim>, b: Batch, s: State, c: Command, ctx: Context): Batch
    requires c.action.ProcessWaivers?
  {
    if due == [] then b
    else Hear(HearAll(due[..|due| - 1], b, s, c, ctx), due[|due| - 1], s, c, ctx)
  }

  function Opening(s: State): Batch {
    Batch(s.entries, s.rosters, s.priority, map[], [], [])
  }

  function Resolve(claims: seq<Claim>, resolved: map<Id, Claim>): seq<Claim> {
    seq(|claims|, i requires 0 <= i < |claims| =>
      if claims[i].id in resolved then resolved[claims[i].id] else claims[i])
  }

  function Settle(s: State, c: Command, b: Batch): Mutation
    requires c.action.ProcessWaivers?
  {
    Mutation(b.entries, b.rosters, Resolve(s.claims, b.resolved), b.priority, b.audits, Applied,
             Some(c.action.processingAt), b.snapshotIds)
  }

  /** The final state of the batch that a command runs. */
  function BatchOf(s: State, c: Command, ctx: Context): Batch
    requires c.action.ProcessWaivers?
  {
    HearAll(DueClaims(s, c.action.processingAt), Opening(s), s, c, ctx)
  }

  function CheckBatch(s: State, c: Command): Check<Fault>
    requires c.action.ProcessWaivers?
  {
    var authorized := Authorize(s, c.authority, None);
    if authorized.Fail? then authorized
    else Need(c.action.processingAt in s.policy.waiverInstants && c.action.processingAt == c.submittedAt,
              Refuse(ProcessingTimeInvalid))
  }

  function ProcessBatch(s: State, c: Command, ctx: Context): Result<Mutation, Fault>
    requires c.action.ProcessWaivers?
  {
    var ready := CheckBatch(s, c);
    :- ready;
    Ok(Settle(s, c, BatchOf(s, c, ctx)))
  }

  lemma HearNext(due: seq<Claim>, i: nat, b: Batch, s: State, c: Command, ctx: Context)
    requires c.action.ProcessWaivers? && i < |due|
    ensures HearAll(due[..i + 1], b, s, c, ctx) == Hear(HearAll(due[..i], b, s, c, ctx), due[i], s, c, ctx)
  {
    assert due[..i + 1][..i] == due[..i];
  }

  method ProcessWaiverClaims(s: State, c: Command, ctx: Context) returns (mutation: Result<Mutation, Fault>)
    requires c.action.ProcessWaivers?
    ensures mutation == ProcessBatch(s, c, ctx)
  {
    var ready := CheckBatch(s, c);
    if ready.Fail? {
      return Err(ready.error);
    }
    var at := c.action.processingAt;
    var due := DueClaims(s, at);
    var entries, rosters, priority := s.entries, s.rosters, s.priority;
    var resolved: map<Id, Claim> := map[];
    var snapshotIds: seq<Id> := [];
    var audits: seq<Audit> := [];
    ghost var heard := Opening(s);
    for i := 0 to |due|
      invariant heard == HearAll(due[..i], Opening(s), s, c, ctx)
      invariant heard == Batch(entries, rosters, priority, resolved, snapshotIds, audits)
    {
      var claim := due[i];
      HearNext(due, i, Opening(s), s, c, ctx);
      heard := Hear(heard, claim, s, c, ctx);
      var attempt := Attempt(entries, rosters, claim, ctx, c.authority, at);
      match attempt {
        case Ok(award) =>
          entries, rosters := award.entries, award.rosters;
          snapshotIds := snapshotIds + [award.roster.id];
          priority := MoveToBack(priority, claim.teamId);
          resolved := resolved[claim.id := AppliedVersion(claim, at)];
          audits := audits + [ResolutionAudit(s, c, claim, ctx, Applied, None)];
        case Err(fault) =>
          var code := RejectionCode(fault);
          resolved := resolved[claim.id := RejectedVersion(claim, at, code)];
          audits := audits + [ResolutionAudit(s, c, claim, ctx, Denied, Some(code))];
      }
    }
    assert due[..|due|] == due;
    return Ok(Settle(s, c, Batch(entries, rosters, priority, resolved, snapshotIds, audits)));
  }
}
