/** When a command is accepted, by what a caller can see: who may send it, and the rules of each command. */
module CommandRules {
  import opened Base
  import opened Errors
  import opened FantasyRules
  import opened FantasyDomain
  import opened RosterLegality
  import opened FantasyTransactions
  import opened TransactionEngine
  import opened OwnershipInvariant
  import opened TransactionSteps
  import opened Waivers
  import opened TransactionRuns
  import opened TransactionLog
  import opened LeagueSafety
  import opened CommandEffects

  // ----- who may send it -----

  /** An unauthorized command learns nothing: its denial is the same whatever revision it expects, and whatever the
      league's revision, entries, rosters, priority and policy are. */
  lemma UnauthorizedLearnsNothing(s: State, t: State, c: Command, ctx: Context, expected: nat)
    requires AuthorizeCommand(s, c).Fail?
    requires t.accountId == s.accountId && t.leagueId == s.leagueId && t.claims == s.claims
    ensures
      var answer, other := ApplyNew(s, c, ctx).record, ApplyNew(t, c.(expectedRevision := expected), ctx).record;
      && answer.status == Denied && other.status == Denied
      && answer.resultCode == other.resultCode && answer.resultCode.Some? && answer.resultCode != Some(StaleRevision)
      && answer.effectiveAt == other.effectiveAt && answer.snapshotIds == other.snapshotIds
  {
    var d := c.(expectedRevision := expected);
    assert AuthorizeCommand(t, d) == AuthorizeCommand(s, c);
    assert Gate(t, d, ctx) == Gate(s, c, ctx);
  }

  /** The command names this account, league and revision, the league is active, and authority given in time covers the
      team or, for a trade or a batch, the league. */
  ghost predicate Admitted(s: State, c: Command, ctx: Context) {
    && c.accountId == s.accountId == ctx.league.accountId
    && c.leagueId == s.leagueId == ctx.league.id
    && (forall team :: team in ctx.teams ==> team.accountId == s.accountId && team.leagueId == s.leagueId)
    && ctx.league.lifecycle == LeagueLifecycle.Active
    && c.expectedRevision == s.revision
    && Empowered(c.authority, s, AuthorizedTeam(s, c.action))
    && c.authority.authorizedAt <= c.submittedAt
    && (c.action.Trade? || c.action.ProcessWaivers? ==> !c.authority.scope.TeamScope?)
  }

  ghost predicate Empowered(authority: Authority, s: State, teamId: Option<Id>) {
    && authority.accountId == s.accountId
    && authority.capability == RosterManage
    && ScopeAllows(authority.scope, s.leagueId, teamId)
    && Distinct(authority.referenceIds)
    && |authority.referenceIds| >= (if authority.source == LeagueDelegation then 3 else 1)
  }

  lemma GateDecides(s: State, c: Command, ctx: Context)
    ensures Gate(s, c, ctx).Pass? <==> Admitted(s, c, ctx)
  {
  }

  lemma EmpoweredDecides(s: State, authority: Authority, teamId: Option<Id>)
    ensures Authorize(s, authority, teamId).Pass? <==> Empowered(authority, s, teamId)
  {
  }

  /** A sealed model, and a command that passes the gate. */
  ghost predicate Ready(s: State, c: Command, ctx: Context) {
    Admitted(s, c, ctx) && VerifyModel(ctx.model).Pass? && Distinct(EntryIds(s.entries))
  }

  // ----- the next roster of a team -----

  /** What the next roster of a team has to be: of an active team that plays under the league's sealed rules, like the
      roster before it; strictly later than that one; well shaped and legal. */
  ghost predicate MayFollow(
    ctx: Context, team: Team, previous: Snapshot, at: Instant, slots: seq<Slot>, entries: seq<Entry>
  )
  {
    && team.lifecycle == TeamLifecycle.Active
    && ctx.league.rules == BindingOf(ctx.model)
    && previous.accountId == ctx.league.accountId && previous.leagueId == ctx.league.id
    && SameRules(previous.rules, ctx.league.rules) && previous.revision >= -1
    && previous.effectiveAt < at
    && WellShaped(slots) && LegalFor(entries, ctx, team.id, slots)
  }

  lemma SuccessorDecides(
    id: Id, at: Instant, ctx: Context, team: Team, entries: seq<Entry>, previous: Snapshot, slots: seq<Slot>,
    authority: Authority
  )
    requires ctx.league.lifecycle == LeagueLifecycle.Active && VerifyModel(ctx.model).Pass? &&
             Distinct(EntryIds(entries))
    requires team.accountId == ctx.league.accountId && team.leagueId == ctx.league.id && previous.teamId == team.id
    requires AssertAuthority(authority, ctx.league.accountId, RosterManage, ctx.league.id, Some(team.id)).Pass?
    ensures SuccessorRoster(id, at, ctx, team, entries, previous, slots, authority).Ok? <==>
            MayFollow(ctx, team, previous, at, slots, entries)
  {
    if WellShaped(slots) {
      JudgeSlotsDecides(
        slots, FactsFor(ctx.league.accountId, ctx.league.id, team.id, ctx.league, ctx.model, entries));
    }
  }

  /** The slot is there, and empty. */
  ghost predicate OpenSlot(slots: seq<Slot>, slotId: Id) {
    && (exists slot :: slot in slots && slot.id == slotId)
    && forall slot :: slot in slots && slot.id == slotId ==> slot.playerId.None?
  }

  lemma AssignmentDecides(slots: seq<Slot>, targetSlotId: Id, playerId: Id)
    ensures SlotsWithAssignment(slots, targetSlotId, playerId).Ok? <==> OpenSlot(slots, targetSlotId)
  {
  }

  lemma VacationDecides(slots: seq<Slot>, playerId: Id)
    ensures SlotsWithoutPlayer(slots, playerId).Ok? <==> playerId in Players(slots)
  {
  }

  lemma KnownTeam(s: State, c: Command, ctx: Context, teamId: Id)
    requires Ready(s, c, ctx) && TeamOf(ctx.teams, teamId).Some?
    ensures
      var team := TeamOf(ctx.teams, teamId).value;
      team.id == teamId && team.accountId == ctx.league.accountId && team.leagueId == ctx.league.id
  {
  }

  // ----- the rules of each command -----

  /** In time, by the league's method and by more than team authority; a free player, an open slot, and a roster that
      may follow. */
  ghost predicate LawfulAdd(s: State, c: Command, ctx: Context)
    requires c.action.AddPlayer?
  {
    var a := c.action;
    var team, previous := TeamOf(ctx.teams, a.teamId), RosterOf(s.rosters, a.teamId);
    && a.assignmentMethod == s.policy.assignmentMethod
    && c.submittedAt < s.policy.assignmentDeadline
    && !c.authority.scope.TeamScope?
    && team.Some? && previous.Some?
    && Free(s.entries, a.playerId)
    && OpenSlot(previous.value.slots, a.targetSlotId)
    && var entry := EntryOf(s.entries, a.playerId).value;
       MayFollow(ctx, team.value, previous.value, c.submittedAt,
                 Placed(previous.value.slots, a.targetSlotId, a.playerId),
                 ReplaceEntry(s.entries, WithOwnership(entry, Rostered, Some(a.teamId), c.submittedAt)))
  }

  lemma AddDecides(s: State, c: Command, ctx: Context)
    requires c.action.AddPlayer? && Ready(s, c, ctx)
    ensures AddPlayerTo(s, c, ctx).Ok? <==> LawfulAdd(s, c, ctx)
  {
    var a := c.action;
    EmpoweredDecides(s, c.authority, Some(a.teamId));
    if TeamOf(ctx.teams, a.teamId).Some? && RosterOf(s.rosters, a.teamId).Some? && Free(s.entries, a.playerId) {
      KnownTeam(s, c, ctx, a.teamId);
      var team, previous := TeamOf(ctx.teams, a.teamId).value, RosterOf(s.rosters, a.teamId).value;
      var entry := EntryOf(s.entries, a.playerId).value;
      var entries := ReplaceEntry(s.entries, WithOwnership(entry, Rostered, Some(a.teamId), c.submittedAt));
      assert EntryIds(entries) == EntryIds(s.entries);
      AssignmentDecides(previous.slots, a.targetSlotId, a.playerId);
      SuccessorDecides(a.snapshotId, c.submittedAt, ctx, team, entries, previous,
                       Placed(previous.slots, a.targetSlotId, a.playerId), c.authority);
    }
  }

  /** A player of the team, and a roster without it that may follow. */
  ghost predicate LawfulDrop(s: State, c: Command, ctx: Context)
    requires c.action.DropPlayer?
  {
    var a := c.action;
    var team, previous, entry := TeamOf(ctx.teams, a.teamId), RosterOf(s.rosters, a.teamId),
                                 EntryOf(s.entries, a.playerId);
    && team.Some? && previous.Some?
    && entry.Some? && entry.value.ownership.teamId == Some(a.teamId)
    && a.playerId in Players(previous.value.slots)
    && MayFollow(ctx, team.value, previous.value, c.submittedAt, Vacated(previous.value.slots, a.playerId),
                 ReplaceEntry(s.entries, WithOwnership(entry.value, Released, None, c.submittedAt)))
  }

  lemma DropDecides(s: State, c: Command, ctx: Context)
    requires c.action.DropPlayer? && Ready(s, c, ctx)
    ensures DropPlayerFrom(s, c, ctx).Ok? <==> LawfulDrop(s, c, ctx)
  {
    var a := c.action;
    EmpoweredDecides(s, c.authority, Some(a.teamId));
    if TeamOf(ctx.teams, a.teamId).Some? && RosterOf(s.rosters, a.teamId).Some? &&
       EntryOf(s.entries, a.playerId).Some? {
      KnownTeam(s, c, ctx, a.teamId);
      var team, previous := TeamOf(ctx.teams, a.teamId).value, RosterOf(s.rosters, a.teamId).value;
      var entry := EntryOf(s.entries, a.playerId).value;
      var entries := ReplaceEntry(s.entries, WithOwnership(entry, Released, None, c.submittedAt));
      assert EntryIds(entries) == EntryIds(s.entries);
      VacationDecides(previous.slots, a.playerId);
      SuccessorDecides(a.snapshotId, c.submittedAt, ctx, team, entries, previous, Vacated(previous.slots, a.playerId),
                       c.authority);
    }
  }

  /** Two teams that agreed, at a sealed instant before the deadline, by more than team authority, each naming a player
      it owns. */
  ghost predicate LawfulTerms(s: State, c: Command, ctx: Context)
    requires c.action.Trade?
  {
    var a := c.action;
    var first, second := TeamOf(ctx.teams, a.firstTeamId), TeamOf(ctx.teams, a.secondTeamId);
    var firstPlayer, secondPlayer := EntryOf(s.entries, a.firstPlayerId), EntryOf(s.entries, a.secondPlayerId);
    && a.tradeAt in s.policy.tradeInstants && c.submittedAt == a.tradeAt && a.tradeAt < s.policy.tradeDeadline
    && !c.authority.scope.TeamScope?
    && first.Some? && second.Some? && a.firstTeamId != a.secondTeamId
    && AcceptingTeams(a.acceptances) == {a.firstTeamId, a.secondTeamId}
    && Agrees(a.acceptances, first.value, a.tradeAt) && Agrees(a.acceptances, second.value, a.tradeAt)
    && firstPlayer.Some? && firstPlayer.value.ownership.teamId == Some(a.firstTeamId)
    && secondPlayer.Some? && secondPlayer.value.ownership.teamId == Some(a.secondTeamId)
    && a.firstPlayerId != a.secondPlayerId
  }

  /** The terms that the command names. */
  ghost function NamedTerms(s: State, c: Command, ctx: Context): Terms
    requires c.action.Trade? && LawfulTerms(s, c, ctx)
  {
    var a := c.action;
    Terms(TeamOf(ctx.teams, a.firstTeamId).value, TeamOf(ctx.teams, a.secondTeamId).value,
          EntryOf(s.entries, a.firstPlayerId).value, EntryOf(s.entries, a.secondPlayerId).value)
  }

  lemma TermsDecide(s: State, c: Command, ctx: Context)
    requires c.action.Trade? && Ready(s, c, ctx)
    ensures AgreeTerms(s, c, ctx).Ok? <==> LawfulTerms(s, c, ctx)
    ensures LawfulTerms(s, c, ctx) ==> AgreeTerms(s, c, ctx).value == NamedTerms(s, c, ctx)
  {
    var a := c.action;
    EmpoweredDecides(s, c.authority, None);
    if TeamOf(ctx.teams, a.firstTeamId).Some? && TeamOf(ctx.teams, a.secondTeamId).Some? {
      AcceptedTradeDecides(a.acceptances, TeamOf(ctx.teams, a.firstTeamId).value,
                           TeamOf(ctx.teams, a.secondTeamId).value, a.tradeAt);
    }
  }

  /** One side of a trade: its player stands on its roster, the target slot is open once it left, and the roster may
      follow. */
  ghost predicate LawfulSide(
    s: State, ctx: Context, team: Team, outgoing: Id, targetSlotId: Id, incoming: Id, at: Instant, entries: seq<Entry>
  )
  {
    var previous := RosterOf(s.rosters, team.id);
    && previous.Some?
    && outgoing in Players(previous.value.slots)
    && OpenSlot(Vacated(previous.value.slots, outgoing), targetSlotId)
    && MayFollow(ctx, team, previous.value, at, Placed(Vacated(previous.value.slots, outgoing), targetSlotId, incoming),
                 entries)
  }

  lemma ExchangeDecides(slots: seq<Slot>, outgoing: Id, targetSlotId: Id, incoming: Id)
    ensures ExchangeSlots(slots, outgoing, targetSlotId, incoming).Ok? <==>
            outgoing in Players(slots) && OpenSlot(Vacated(slots, outgoing), targetSlotId)
    ensures ExchangeSlots(slots, outgoing, targetSlotId, incoming).Ok? ==>
            ExchangeSlots(slots, outgoing, targetSlotId, incoming).value ==
              Placed(Vacated(slots, outgoing), targetSlotId, incoming)
  {
    VacationDecides(slots, outgoing);
    AssignmentDecides(Vacated(slots, outgoing), targetSlotId, incoming);
  }

  ghost predicate LawfulTrade(s: State, c: Command, ctx: Context)
    requires c.action.Trade?
  {
    && LawfulTerms(s, c, ctx)
    && var a, terms := c.action, NamedTerms(s, c, ctx);
       var entries := Exchange(s.entries, terms, a.tradeAt);
       && LawfulSide(s, ctx, terms.first, a.firstPlayerId, a.firstTargetSlotId, a.secondPlayerId, a.tradeAt, entries)
       && LawfulSide(s, ctx, terms.second, a.secondPlayerId, a.secondTargetSlotId, a.firstPlayerId, a.tradeAt, entries)
  }

  /** The roster that one side of a trade builds, if it can. */
  ghost function SideRoster(
    s: State, ctx: Context, team: Team, outgoing: Id, targetSlotId: Id, incoming: Id, snapshotId: Id, at: Instant,
    entries: seq<Entry>, authority: Authority
  ): Result<Snapshot, Fault>
  {
    var previous :- RosterFor(s.rosters, team.id);
    var slots :- ExchangeSlots(previous.slots, outgoing, targetSlotId, incoming);
    SuccessorRoster(snapshotId, at, ctx, team, entries, previous, slots, authority)
  }

  lemma SideDecides(
    s: State, c: Command, ctx: Context, team: Team, outgoing: Id, targetSlotId: Id, incoming: Id, snapshotId: Id,
    at: Instant, entries: seq<Entry>
  )
    requires Ready(s, c, ctx) && c.action.Trade? && TeamOf(ctx.teams, team.id) == Some(team) &&
             Distinct(EntryIds(entries))
    ensures SideRoster(s, ctx, team, outgoing, targetSlotId, incoming, snapshotId, at, entries, c.authority).Ok? <==>
            LawfulSide(s, ctx, team, outgoing, targetSlotId, incoming, at, entries)
  {
    KnownTeam(s, c, ctx, team.id);
    EmpoweredDecides(s, c.authority, Some(team.id));
    if RosterOf(s.rosters, team.id).Some? {
      var previous := RosterOf(s.rosters, team.id).value;
      ExchangeDecides(previous.slots, outgoing, targetSlotId, incoming);
      SuccessorDecides(snapshotId, at, ctx, team, entries, previous,
                       Placed(Vacated(previous.slots, outgoing), targetSlotId, incoming), c.authority);
    }
  }

  lemma ExecutionIsTwoSides(s: State, c: Command, ctx: Context, terms: Terms)
    requires c.action.Trade?
    ensures
      var a := c.action;
      var entries := Exchange(s.entries, terms, a.tradeAt);
      ExecuteTrade(s, c, ctx, terms).Ok? <==>
      && SideRoster(s, ctx, terms.first, terms.firstPlayer.id, a.firstTargetSlotId, terms.secondPlayer.id,
                    a.firstSnapshotId, a.tradeAt, entries, c.authority).Ok?
      && SideRoster(s, ctx, terms.second, terms.secondPlayer.id, a.secondTargetSlotId, terms.firstPlayer.id,
                    a.secondSnapshotId, a.tradeAt, entries, c.authority).Ok?
  {
  }

  lemma TradeDecides(s: State, c: Command, ctx: Context)
    requires c.action.Trade? && Ready(s, c, ctx)
    ensures TradePlayers(s, c, ctx).Ok? <==> LawfulTrade(s, c, ctx)
  {
    TermsDecide(s, c, ctx);
    if LawfulTerms(s, c, ctx) {
      var a, terms := c.action, NamedTerms(s, c, ctx);
      var entries := Exchange(s.entries, terms, a.tradeAt);
      assert EntryIds(entries) == EntryIds(s.entries);
      SideDecides(s, c, ctx, terms.first, a.firstPlayerId, a.firstTargetSlotId, a.secondPlayerId, a.firstSnapshotId,
                  a.tradeAt, entries);
      SideDecides(s, c, ctx, terms.second, a.secondPlayerId, a.secondTargetSlotId, a.firstPlayerId, a.secondSnapshotId,
                  a.tradeAt, entries);
      ExecutionIsTwoSides(s, c, ctx, terms);
    }
  }

  /** No lock, or a commissioner's correction with a reason; slots that may follow the team's roster, and hold the same
      players. */
  ghost predicate LawfulLineup(s: State, c: Command, ctx: Context)
    requires c.action.LineupChange?
  {
    var a := c.action;
    var team, previous := TeamOf(ctx.teams, a.teamId), RosterOf(s.rosters, a.teamId);
    && (LineupIsLocked(s.policy, c.submittedAt) ==> a.correctionReason.Some? && !c.authority.scope.TeamScope?)
    && team.Some? && previous.Some?
    && MayFollow(ctx, team.value, previous.value, c.submittedAt, a.slots, s.entries)
    && Players(a.slots) == Players(previous.value.slots)
  }

  lemma LineupDecides(s: State, c: Command, ctx: Context)
    requires c.action.LineupChange? && Ready(s, c, ctx)
    ensures ChangeLineup(s, c, ctx).Ok? && KeepsPlayers(s, c) <==> LawfulLineup(s, c, ctx)
  {
    var a := c.action;
    EmpoweredDecides(s, c.authority, Some(a.teamId));
    if TeamOf(ctx.teams, a.teamId).Some? && RosterOf(s.rosters, a.teamId).Some? {
      KnownTeam(s, c, ctx, a.teamId);
      SuccessorDecides(a.snapshotId, c.submittedAt, ctx, TeamOf(ctx.teams, a.teamId).value, s.entries,
                       RosterOf(s.rosters, a.teamId).value, a.slots, c.authority);
    }
  }

  /** A known team asks for a free player at a later sealed instant, against a player it owns or none, under a new claim
      id and not for the second time. */
  ghost predicate LawfulSubmission(s: State, c: Command, ctx: Context)
    requires c.action.SubmitClaim?
  {
    var a := c.action;
    && TeamOf(ctx.teams, a.teamId).Some?
    && a.claimAt in s.policy.waiverInstants && c.submittedAt < a.claimAt
    && Free(s.entries, a.playerId)
    && (a.conditionalDropId.Some? ==>
          var drop := EntryOf(s.entries, a.conditionalDropId.value);
          drop.Some? && drop.value.ownership.teamId == Some(a.teamId))
    && forall claim :: claim in s.claims ==> claim.id != a.claimId && !SameRequest(claim, ClaimFrom(c, a.teamId))
  }

  lemma SubmissionDecides(s: State, c: Command, ctx: Context)
    requires c.action.SubmitClaim? && Ready(s, c, ctx)
    ensures SubmitWaiver(s, c, ctx).Ok? <==> LawfulSubmission(s, c, ctx)
  {
    EmpoweredDecides(s, c.authority, Some(c.action.teamId));
  }

  /** The claim is waiting, and its team known. */
  ghost predicate LawfulCancellation(s: State, c: Command, ctx: Context)
    requires c.action.CancelClaim?
  {
    var claim := ClaimOf(s.claims, c.action.claimId);
    claim.Some? && claim.value.status == Pending && TeamOf(ctx.teams, claim.value.teamId).Some?
  }

  lemma CancellationDecides(s: State, c: Command, ctx: Context)
    requires c.action.CancelClaim? && Ready(s, c, ctx)
    ensures CancelWaiver(s, c, ctx).Ok? <==> LawfulCancellation(s, c, ctx)
  {
    if ClaimOf(s.claims, c.action.claimId).Some? {
      EmpoweredDecides(s, c.authority, Some(ClaimOf(s.claims, c.action.claimId).value.teamId));
    }
  }

  /** A batch runs at a sealed instant, at that very instant. */
  ghost predicate LawfulBatch(s: State, c: Command)
    requires c.action.ProcessWaivers?
  {
    c.action.processingAt in s.policy.waiverInstants && c.submittedAt == c.action.processingAt
  }

  lemma BatchDecides(s: State, c: Command, ctx: Context)
    requires c.action.ProcessWaivers? && Ready(s, c, ctx)
    ensures ProcessBatch(s, c, ctx).Ok? <==> LawfulBatch(s, c)
  {
    EmpoweredDecides(s, c.authority, None);
  }

  // ----- acceptance -----

  ghost predicate Lawful(s: State, c: Command, ctx: Context) {
    match c.action
    case AddPlayer(_, _, _, _, _) => LawfulAdd(s, c, ctx)
    case DropPlayer(_, _, _) => LawfulDrop(s, c, ctx)
    case Trade(_, _, _, _, _, _, _, _, _, _) => LawfulTrade(s, c, ctx)
    case LineupChange(_, _, _, _) => LawfulLineup(s, c, ctx)
    case SubmitClaim(_, _, _, _, _, _, _) => LawfulSubmission(s, c, ctx)
    case CancelClaim(_) => LawfulCancellation(s, c, ctx)
    case ProcessWaivers(_) => LawfulBatch(s, c)
  }

  ghost predicate KeepsPlayers(s: State, c: Command)
    requires c.action.LineupChange?
  {
    && RosterOf(s.rosters, c.action.teamId).Some?
    && Players(c.action.slots) == Players(RosterOf(s.rosters, c.action.teamId).value.slots)
  }

  lemma CommitDecides(s: State, c: Command, ctx: Context)
    requires Consistent(s, ctx)
    ensures Commit(s, c, ctx).Ok? <==>
            VerifyModel(ctx.model).Pass? && Mutate(s, c, ctx).Ok? && (c.action.LineupChange? ==> KeepsPlayers(s, c))
  {
    if Mutate(s, c, ctx).Ok? {
      if c.action.LineupChange? {
        LineupCheckExact(s, c, ctx);
      } else {
        ClosingCheckNeverFails(s, c, ctx);
      }
    }
  }

  lemma RulesDecide(s: State, c: Command, ctx: Context)
    requires Ready(s, c, ctx)
    ensures Mutate(s, c, ctx).Ok? && (c.action.LineupChange? ==> KeepsPlayers(s, c)) <==> Lawful(s, c, ctx)
  {
    match c.action {
      case AddPlayer(_, _, _, _, _) => AddDecides(s, c, ctx);
      case DropPlayer(_, _, _) => DropDecides(s, c, ctx);
      case Trade(_, _, _, _, _, _, _, _, _, _) => TradeDecides(s, c, ctx);
      case LineupChange(_, _, _, _) => LineupDecides(s, c, ctx);
      case SubmitClaim(_, _, _, _, _, _, _) => SubmissionDecides(s, c, ctx);
      case CancelClaim(_) => CancellationDecides(s, c, ctx);
      case ProcessWaivers(_) => BatchDecides(s, c, ctx);
    }
  }

  lemma AcceptedMeans(s: State, c: Command, ctx: Context)
    ensures ApplyNew(s, c, ctx).record.status != Denied <==> Gate(s, c, ctx).Pass? && Commit(s, c, ctx).Ok?
  {
    CommitIsNoDenial(s, c, ctx);
  }

  /** In every state of every run a new command is accepted exactly when its sender may send it, the model is sealed,
      and the command is lawful. */
  lemma AcceptedExactlyWhen(states: seq<State>, commands: seq<Command>, ctx: Context, n: nat, c: Command)
    requires IsRun(states, commands, ctx) && n < |states|
    requires RecordOf(states[n].transactions, c.operationId).None?
    ensures ApplyNew(states[n], c, ctx).record.status != Denied <==>
            Admitted(states[n], c, ctx) && VerifyModel(ctx.model).Pass? && Lawful(states[n], c, ctx)
  {
    ReachedKeeps(states, commands, ctx, n);
    AcceptedMeans(states[n], c, ctx);
    GateDecides(states[n], c, ctx);
    CommitDecides(states[n], c, ctx);
    if Ready(states[n], c, ctx) {
      RulesDecide(states[n], c, ctx);
    }
  }
}
