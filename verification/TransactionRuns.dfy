/** Safety over whole runs of the transaction state machine. */
module TransactionRuns {
  import opened Base
  import opened Errors
  import opened Ordering
  import opened FantasyDomain
  import opened FantasyTransactions
  import opened Projection
  import opened TransactionEngine
  import opened OwnershipInvariant
  import opened TransactionSteps
  import opened Waivers
  import opened WaiverTheorems
  import opened WaiverResolution

  // ----- runs -----

  /** The state a caller holds after sending one command: the engine's answer, or the old state if it threw. */
  function After(s: State, c: Command, ctx: Context): State {
    match Apply(s, c, ctx)
    case Ok(outcome) => outcome.state
    case Err(_) => s
  }

  ghost predicate Created(s: State, ctx: Context) {
    exists policy, entries, rosters :: CreateState(ctx, policy, entries, rosters) == Ok(s)
  }

  ghost predicate Stepped(states: seq<State>, commands: seq<Command>, i: nat, ctx: Context)
    requires |states| == |commands| + 1 && i < |commands|
  {
    states[i + 1] == After(states[i], commands[i], ctx)
  }

  /** A run: each state is what the command before it left behind. */
  ghost predicate Steps(states: seq<State>, commands: seq<Command>, ctx: Context) {
    |states| == |commands| + 1 && forall i :: 0 <= i < |commands| ==> Stepped(states, commands, i, ctx)
  }

  /** A run from the creation of the league on. */
  ghost predicate IsRun(states: seq<State>, commands: seq<Command>, ctx: Context) {
    Steps(states, commands, ctx) && Created(states[0], ctx)
  }

  // ----- the invariant -----

  ghost predicate TeamsListed(priority: seq<Id>, rosters: seq<Snapshot>, ctx: Context) {
    && Distinct(priority)
    && (forall id :: id in priority <==> id in TeamIds(ctx.teams))
    && (forall id :: id in RosterTeams(rosters) <==> id in TeamIds(ctx.teams))
  }

  predicate SameRequest(left: Claim, right: Claim) {
    && left.status == Pending && right.status == Pending
    && left.teamId == right.teamId && left.playerId == right.playerId && left.processingAt == right.processingAt
  }

  /** No team waits twice for the same player at the same instant. */
  ghost predicate RequestsApart(claims: seq<Claim>) {
    forall i, j :: 0 <= i < j < |claims| ==> !SameRequest(claims[i], claims[j])
  }

  ghost predicate ClaimsKnown(claims: seq<Claim>, ctx: Context) {
    && UniqueClaims(claims)
    && RequestsApart(claims)
    && forall claim :: claim in claims ==> claim.teamId in TeamIds(ctx.teams)
  }

  predicate BothAwarded(left: Claim, right: Claim) {
    left.status == AppliedClaim && right.status == AppliedClaim && left.teamId == right.teamId
  }

  /** An awarded claim left its team's roster dated at its instant or later, and no team was awarded twice at one
      instant. */
  ghost predicate WinsDated(claims: seq<Claim>, rosters: seq<Snapshot>) {
    && (forall claim :: claim in claims && claim.status == AppliedClaim ==>
          RosterOf(rosters, claim.teamId).Some? &&
          claim.processingAt <= RosterOf(rosters, claim.teamId).value.effectiveAt)
    && (forall i, j :: 0 <= i < j < |claims| && BothAwarded(claims[i], claims[j]) ==>
          claims[i].processingAt != claims[j].processingAt)
  }

  ghost predicate Consistent(s: State, ctx: Context) {
    && Keyed(s.entries, s.rosters)
    && Mirrors(s.entries, s.rosters)
    && TeamsListed(s.priority, s.rosters, ctx)
    && ClaimsKnown(s.claims, ctx)
    && WinsDated(s.claims, s.rosters)
  }

  /** How much a mutation may change what the invariant speaks about. */
  ghost predicate Advances(s: State, m: Mutation, ctx: Context) {
    && Keeps(s.entries, s.rosters, m.entries, m.rosters, ctx)
    && multiset(m.priority) == multiset(s.priority)
    && ClaimsKnown(m.claims, ctx)
    && WinsDated(m.claims, m.rosters)
  }

  lemma KeptAdvances(s: State, m: Mutation, ctx: Context)
    requires Consistent(s, ctx) && Keeps(s.entries, s.rosters, m.entries, m.rosters, ctx)
    requires m.claims == s.claims && m.priority == s.priority
    ensures Advances(s, m, ctx)
  {
  }

  lemma AddAdvances(s: State, c: Command, ctx: Context)
    requires Consistent(s, ctx) && c.action.AddPlayer? && AddPlayerTo(s, c, ctx).Ok?
    ensures Advances(s, AddPlayerTo(s, c, ctx).value, ctx)
  {
    AddKeeps(s, c, ctx);
    MovesLeaveClaims(s, c, ctx);
    KeptAdvances(s, AddPlayerTo(s, c, ctx).value, ctx);
  }

  lemma DropAdvances(s: State, c: Command, ctx: Context)
    requires Consistent(s, ctx) && c.action.DropPlayer? && DropPlayerFrom(s, c, ctx).Ok?
    ensures Advances(s, DropPlayerFrom(s, c, ctx).value, ctx)
  {
    DropKeeps(s, c, ctx);
    MovesLeaveClaims(s, c, ctx);
    KeptAdvances(s, DropPlayerFrom(s, c, ctx).value, ctx);
  }

  lemma TradeAdvances(s: State, c: Command, ctx: Context)
    requires Consistent(s, ctx) && c.action.Trade? && TradePlayers(s, c, ctx).Ok?
    ensures Advances(s, TradePlayers(s, c, ctx).value, ctx)
  {
    TradeKeeps(s, c, ctx);
    TradesLeaveClaims(s, c, ctx);
    KeptAdvances(s, TradePlayers(s, c, ctx).value, ctx);
  }

  lemma LineupAdvances(s: State, c: Command, ctx: Context)
    requires Consistent(s, ctx) && c.action.LineupChange? && ChangeLineup(s, c, ctx).Ok?
    requires CheckProjection(ChangeLineup(s, c, ctx).value.entries, ChangeLineup(s, c, ctx).value.rosters).Pass?
    ensures Advances(s, ChangeLineup(s, c, ctx).value, ctx)
  {
    LineupCheckExact(s, c, ctx);
    LineupKeeps(s, c, ctx);
    MovesLeaveClaims(s, c, ctx);
    KeptAdvances(s, ChangeLineup(s, c, ctx).value, ctx);
  }

  lemma TeamListed(teams: seq<Team>, team: Team)
    requires team in teams
    ensures team.id in TeamIds(teams)
  {
    var i :| 0 <= i < |teams| && teams[i] == team;
    assert TeamIds(teams)[i] == team.id;
  }

  lemma ClaimAdded(claims: seq<Claim>, claim: Claim, rosters: seq<Snapshot>, ctx: Context)
    requires ClaimsKnown(claims, ctx) && WinsDated(claims, rosters)
    requires (forall other :: other in claims ==> other.id != claim.id) && claim.status == Pending
    requires forall other :: other in claims ==> !SameRequest(other, claim)
    requires claim.teamId in TeamIds(ctx.teams)
    ensures ClaimsKnown(claims + [claim], ctx) && WinsDated(claims + [claim], rosters)
  {
    var more := claims + [claim];
    assert ClaimIds(more) == ClaimIds(claims) + [claim.id];
    forall i | 0 <= i < |claims| ensures ClaimIds(claims)[i] != claim.id {
      assert claims[i] in claims;
    }
    DistinctSnoc(ClaimIds(claims), claim.id);
  }

  lemma ClaimsAdvance(s: State, m: Mutation, ctx: Context)
    requires Consistent(s, ctx) && m.entries == s.entries && m.rosters == s.rosters && m.priority == s.priority
    requires ClaimsKnown(m.claims, ctx) && WinsDated(m.claims, s.rosters)
    ensures Advances(s, m, ctx)
  {
  }

  lemma SubmitAdvances(s: State, c: Command, ctx: Context)
    requires Consistent(s, ctx) && c.action.SubmitClaim? && SubmitWaiver(s, c, ctx).Ok?
    ensures Advances(s, SubmitWaiver(s, c, ctx).value, ctx)
  {
    var team := TeamOf(ctx.teams, c.action.teamId).value;
    TeamListed(ctx.teams, team);
    ClaimAdded(s.claims, ClaimFrom(c, team.id), s.rosters, ctx);
    ClaimsAdvance(s, SubmitWaiver(s, c, ctx).value, ctx);
  }

  lemma ClaimCancelled(claims: seq<Claim>, id: Id, at: Instant, rosters: seq<Snapshot>, ctx: Context)
    requires ClaimsKnown(claims, ctx) && WinsDated(claims, rosters)
    ensures ClaimsKnown(CancelIn(claims, id, at), ctx) && WinsDated(CancelIn(claims, id, at), rosters)
  {
    var after := CancelIn(claims, id, at);
    assert ClaimIds(after) == ClaimIds(claims);
    forall i, j | 0 <= i < j < |after| ensures !SameRequest(after[i], after[j]) {
      assert !SameRequest(claims[i], claims[j]);
    }
    forall claim | claim in after
      ensures claim.teamId in TeamIds(ctx.teams)
      ensures claim.status == AppliedClaim ==> claim in claims
    {
      var i :| 0 <= i < |after| && after[i] == claim;
      assert claims[i] in claims;
    }
  }

  lemma CancelAdvances(s: State, c: Command, ctx: Context)
    requires Consistent(s, ctx) && c.action.CancelClaim? && CancelWaiver(s, c, ctx).Ok?
    ensures Advances(s, CancelWaiver(s, c, ctx).value, ctx)
  {
    ClaimCancelled(s.claims, ClaimOf(s.claims, c.action.claimId).value.id, c.submittedAt, s.rosters, ctx);
    ClaimsAdvance(s, CancelWaiver(s, c, ctx).value, ctx);
  }

  /** An awarded claim was won in this batch, or was awarded before and is untouched. */
  lemma AwardedThisTimeOrBefore(s: State, c: Command, ctx: Context, m: Mutation, i: nat)
    requires c.action.ProcessWaivers? && UniqueClaims(s.claims) && ProcessBatch(s, c, ctx) == Ok(m)
    requires i < |s.claims|
    ensures |m.claims| == |s.claims|
    ensures m.claims[i].id == s.claims[i].id && m.claims[i].teamId == s.claims[i].teamId
    ensures m.claims[i].processingAt == s.claims[i].processingAt
    ensures m.claims[i].status == AppliedClaim ==>
            if DueAt(c.action.processingAt)(s.claims[i]) then s.claims[i] in BatchWinners(s, c, ctx)
            else s.claims[i].status == AppliedClaim
  {
    BatchResolvesOnce(s, c, ctx);
  }

  lemma AwardsDated(s: State, c: Command, ctx: Context, m: Mutation, i: nat)
    requires Consistent(s, ctx) && c.action.ProcessWaivers? && ProcessBatch(s, c, ctx) == Ok(m)
    requires Later(s.rosters, m.rosters) && |m.claims| == |s.claims|
    requires i < |m.claims| && m.claims[i].status == AppliedClaim
    ensures RosterOf(m.rosters, m.claims[i].teamId).Some?
    ensures m.claims[i].processingAt <= RosterOf(m.rosters, m.claims[i].teamId).value.effectiveAt
  {
    var due := DueClaims(s, c.action.processingAt);
    WinnersSettled(due, Opening(s), s, c, ctx);
    AwardedThisTimeOrBefore(s, c, ctx, m, i);
    assert s.claims[i] in s.claims;
  }

  lemma AwardsApart(s: State, c: Command, ctx: Context, m: Mutation, i: nat, j: nat)
    requires Consistent(s, ctx) && c.action.ProcessWaivers? && ProcessBatch(s, c, ctx) == Ok(m)
    requires |m.claims| == |s.claims| && i < j < |m.claims| && BothAwarded(m.claims[i], m.claims[j])
    ensures m.claims[i].processingAt != m.claims[j].processingAt
  {
    var at := c.action.processingAt;
    WinnersWereOlder(DueClaims(s, at), Opening(s), s, c, ctx);
    AwardedThisTimeOrBefore(s, c, ctx, m, i);
    AwardedThisTimeOrBefore(s, c, ctx, m, j);
    if DueAt(at)(s.claims[i]) && DueAt(at)(s.claims[j]) {
      BatchExclusive(s, c, ctx, i, j);
    }
    assert s.claims[i] in s.claims && s.claims[j] in s.claims;
  }

  lemma BatchWinsDated(s: State, c: Command, ctx: Context, m: Mutation)
    requires Consistent(s, ctx) && c.action.ProcessWaivers? && ProcessBatch(s, c, ctx) == Ok(m)
    requires Later(s.rosters, m.rosters) && |m.claims| == |s.claims|
    ensures WinsDated(m.claims, m.rosters)
  {
    forall i | 0 <= i < |m.claims| && m.claims[i].status == AppliedClaim
      ensures RosterOf(m.rosters, m.claims[i].teamId).Some?
      ensures m.claims[i].processingAt <= RosterOf(m.rosters, m.claims[i].teamId).value.effectiveAt
    {
      AwardsDated(s, c, ctx, m, i);
    }
    forall i, j | 0 <= i < j < |m.claims| && BothAwarded(m.claims[i], m.claims[j])
      ensures m.claims[i].processingAt != m.claims[j].processingAt
    {
      AwardsApart(s, c, ctx, m, i, j);
    }
  }

  lemma BatchKeepsRequestsApart(s: State, c: Command, ctx: Context, m: Mutation)
    requires Consistent(s, ctx) && c.action.ProcessWaivers? && ProcessBatch(s, c, ctx) == Ok(m)
    ensures RequestsApart(m.claims)
  {
    BatchResolvesOnce(s, c, ctx);
    forall i | 0 <= i < |m.claims| && m.claims[i].status == Pending ensures m.claims[i] == s.claims[i] {
    }
    forall i, j | 0 <= i < j < |m.claims| ensures !SameRequest(m.claims[i], m.claims[j]) {
      assert !SameRequest(s.claims[i], s.claims[j]);
    }
  }

  lemma BatchClaimsKnown(s: State, c: Command, ctx: Context, m: Mutation)
    requires Consistent(s, ctx) && c.action.ProcessWaivers? && ProcessBatch(s, c, ctx) == Ok(m)
    ensures |m.claims| == |s.claims| && ClaimsKnown(m.claims, ctx)
  {
    BatchResolvesOnce(s, c, ctx);
    forall i | 0 <= i < |s.claims|
      ensures m.claims[i].id == s.claims[i].id && m.claims[i].teamId == s.claims[i].teamId
    {
      AwardedThisTimeOrBefore(s, c, ctx, m, i);
    }
    assert ClaimIds(m.claims) == ClaimIds(s.claims);
    BatchKeepsRequestsApart(s, c, ctx, m);
  }

  lemma BatchAdvances(s: State, c: Command, ctx: Context)
    requires Consistent(s, ctx) && c.action.ProcessWaivers? && ProcessBatch(s, c, ctx).Ok?
    ensures Advances(s, ProcessBatch(s, c, ctx).value, ctx)
  {
    var m := ProcessBatch(s, c, ctx).value;
    BatchKeeps(DueClaims(s, c.action.processingAt), Opening(s), s, c, ctx);
    BatchClaimsKnown(s, c, ctx, m);
    BatchWinsDated(s, c, ctx, m);
    BatchPartitionsPriority(s, c, ctx);
  }

  // ----- one command -----

  /** For every command but a lineup change the closing check cannot fail: the mutation keeps the views in agreement by
      itself. */
  lemma ClosingCheckNeverFails(s: State, c: Command, ctx: Context)
    requires Consistent(s, ctx) && !c.action.LineupChange? && Mutate(s, c, ctx).Ok?
    ensures Advances(s, Mutate(s, c, ctx).value, ctx)
    ensures CheckProjection(Mutate(s, c, ctx).value.entries, Mutate(s, c, ctx).value.rosters).Pass?
  {
    match c.action {
      case AddPlayer(_, _, _, _, _) => AddAdvances(s, c, ctx);
      case DropPlayer(_, _, _) => DropAdvances(s, c, ctx);
      case Trade(_, _, _, _, _, _, _, _, _, _) => TradeAdvances(s, c, ctx);
      case SubmitClaim(_, _, _, _, _, _, _) => SubmitAdvances(s, c, ctx);
      case CancelClaim(_) => CancelAdvances(s, c, ctx);
      case ProcessWaivers(_) => BatchAdvances(s, c, ctx);
    }
    CheckDecidesMirrors(Mutate(s, c, ctx).value.entries, Mutate(s, c, ctx).value.rosters);
  }

  lemma CommitAdvances(s: State, c: Command, ctx: Context)
    requires Consistent(s, ctx) && Commit(s, c, ctx).Ok?
    ensures Advances(s, Commit(s, c, ctx).value, ctx)
  {
    if c.action.LineupChange? {
      LineupAdvances(s, c, ctx);
    } else {
      ClosingCheckNeverFails(s, c, ctx);
    }
  }

  lemma SamePriority(priority: seq<Id>, priority': seq<Id>)
    requires Distinct(priority) && multiset(priority') == multiset(priority)
    ensures Distinct(priority') && forall id :: id in priority' <==> id in priority
  {
    DistinctPermutation(priority, priority');
    SameMembers(priority', priority);
  }

  lemma AdvancesConsistent(s: State, m: Mutation, ctx: Context, t: State)
    requires Consistent(s, ctx) && Advances(s, m, ctx)
    requires t.entries == m.entries && t.rosters == m.rosters && t.priority == m.priority && t.claims == m.claims
    ensures Consistent(t, ctx)
  {
    SamePriority(s.priority, m.priority);
  }

  /** What the invariant speaks about, before and after one command. */
  ghost predicate StepKeeps(s: State, t: State, ctx: Context) {
    && Consistent(t, ctx)
    && Keeps(s.entries, s.rosters, t.entries, t.rosters, ctx)
    && multiset(t.priority) == multiset(s.priority)
  }

  lemma StepStays(s: State, t: State, ctx: Context)
    requires Consistent(s, ctx)
    requires t.entries == s.entries && t.rosters == s.rosters && t.priority == s.priority && t.claims == s.claims
    ensures StepKeeps(s, t, ctx)
  {
  }

  lemma AcceptKeeps(s: State, c: Command, ctx: Context)
    requires Consistent(s, ctx) && Commit(s, c, ctx).Ok?
    ensures StepKeeps(s, Accept(s, c, Commit(s, c, ctx).value).state, ctx)
  {
    var m := Commit(s, c, ctx).value;
    CommitAdvances(s, c, ctx);
    AdvancesConsistent(s, m, ctx, Accept(s, c, m).state);
  }

  /** How one command can change the state. */
  datatype Effect = Refused(code: TransactionCode) | Accepted(mutation: Mutation) | Replayed

  ghost function EffectOf(s: State, c: Command, ctx: Context): Effect {
    match RecordOf(s.transactions, c.operationId)
    case Some(existing) => if existing.requestDigest == c then Replayed else Refused(IdempotencyConflict)
    case None =>
      match Gate(s, c, ctx)
      case Fail(code) => Refused(code)
      case Pass =>
        match Commit(s, c, ctx)
        case Err(fault) => Refused(DenialCode(fault))
        case Ok(mutation) => Accepted(mutation)
  }

  lemma AfterEffect(s: State, c: Command, ctx: Context)
    ensures After(s, c, ctx) ==
            match EffectOf(s, c, ctx)
            case Replayed => s
            case Refused(code) => Deny(s, c, code).state
            case Accepted(m) => Accept(s, c, m).state
  {
  }

  lemma CommandKeeps(s: State, c: Command, ctx: Context)
    requires Consistent(s, ctx)
    ensures StepKeeps(s, After(s, c, ctx), ctx)
  {
    AfterEffect(s, c, ctx);
    match EffectOf(s, c, ctx)
    case Replayed => StepStays(s, s, ctx);
    case Refused(code) => StepStays(s, Deny(s, c, code).state, ctx);
    case Accepted(m) => AcceptKeeps(s, c, ctx);
  }
}
