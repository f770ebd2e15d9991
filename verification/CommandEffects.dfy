/** What each accepted command does to who owns whom, and what it was accepted under. */
module CommandEffects {
  import opened Base
  import opened FantasyDomain
  import opened RosterLegality
  import opened FantasyTransactions
  import opened OwnershipInvariant
  import opened TransactionSteps
  import opened Waivers
  import opened WaiverTheorems
  import opened WaiverResolution

  /** A team's roster has a player in the named slot. */
  ghost predicate HoldsIn(rosters: seq<Snapshot>, teamId: Id, slotId: Id, playerId: Option<Id>) {
    && RosterOf(rosters, teamId).Some?
    && exists slot :: slot in RosterOf(rosters, teamId).value.slots && slot.id == slotId && slot.playerId == playerId
  }

  lemma AssignedIn(slots: seq<Slot>, targetSlotId: Id, playerId: Id)
    requires SlotsWithAssignment(slots, targetSlotId, playerId).Ok?
    ensures exists slot :: slot in slots && slot.id == targetSlotId && slot.playerId.None?
    ensures exists slot ::
              slot in SlotsWithAssignment(slots, targetSlotId, playerId).value && slot.id == targetSlotId &&
              slot.playerId == Some(playerId)
  {
    var after := SlotsWithAssignment(slots, targetSlotId, playerId).value;
    var i :| 0 <= i < |slots| && slots[i].id == targetSlotId;
    assert after[i] in after;
  }

  // ----- add, drop, trade -----

  /** An accepted add is in time and by the league's method, gives one free player to one team, in the empty slot asked
      for, and changes no other owner. */
  lemma AddEffect(s: State, c: Command, ctx: Context)
    requires c.action.AddPlayer? && Mirrors(s.entries, s.rosters) && AddPlayerTo(s, c, ctx).Ok?
    ensures
      var a, m := c.action, AddPlayerTo(s, c, ctx).value;
      && c.submittedAt < s.policy.assignmentDeadline && a.assignmentMethod == s.policy.assignmentMethod
      && !c.authority.scope.TeamScope?
      && Free(s.entries, a.playerId)
      && (forall p, t :: OwnedBy(m.entries, p, t) <==> OwnedBy(s.entries, p, t) || (p == a.playerId && t == a.teamId))
      && (forall p :: p != a.playerId ==> EntryOf(m.entries, p) == EntryOf(s.entries, p))
  {
    var a := c.action;
    var team := TeamOf(ctx.teams, a.teamId).value;
    var entry := EntryOf(s.entries, a.playerId).value;
    var previous := RosterOf(s.rosters, team.id).value;
    forall p ensures p in Players(previous.slots) <==> OwnedBy(s.entries, p, team.id) {
      assert OnRoster(s.rosters, team.id, p) <==> p in Players(previous.slots);
    }
    AcquisitionShown(s.entries, entry, team.id, c.submittedAt, previous.slots, a.targetSlotId);
    forall p, t
      ensures OwnedBy(AddPlayerTo(s, c, ctx).value.entries, p, t) <==>
                OwnedBy(s.entries, p, t) || (p == a.playerId && t == a.teamId)
    {
    }
  }

  lemma AddFillsSlot(s: State, c: Command, ctx: Context)
    requires c.action.AddPlayer? && AddPlayerTo(s, c, ctx).Ok?
    ensures
      var a, m := c.action, AddPlayerTo(s, c, ctx).value;
      && HoldsIn(s.rosters, a.teamId, a.targetSlotId, None)
      && HoldsIn(m.rosters, a.teamId, a.targetSlotId, Some(a.playerId))
      && forall t :: t != a.teamId ==> RosterOf(m.rosters, t) == RosterOf(s.rosters, t)
  {
    var a := c.action;
    var team := TeamOf(ctx.teams, a.teamId).value;
    var previous := RosterOf(s.rosters, team.id).value;
    var entry := EntryOf(s.entries, a.playerId).value;
    var entries := ReplaceEntry(s.entries, WithOwnership(entry, Rostered, Some(team.id), c.submittedAt));
    var slots := SlotsWithAssignment(previous.slots, a.targetSlotId, entry.id).value;
    AssignedIn(previous.slots, a.targetSlotId, entry.id);
    var roster := SuccessorRoster(a.snapshotId, c.submittedAt, ctx, team, entries, previous, slots, c.authority).value;
    SuccessorFacts(a.snapshotId, c.submittedAt, ctx, team, entries, previous, slots, c.authority);
    forall t
      ensures RosterOf(ReplaceRoster(s.rosters, roster), t) ==
                if t == a.teamId then Some(roster) else RosterOf(s.rosters, t)
    {
      RosterReplaced(s.rosters, roster, t);
    }
  }

  /** An accepted drop frees one player of one team, and changes no other owner. */
  lemma DropEffect(s: State, c: Command, ctx: Context)
    requires c.action.DropPlayer? && Mirrors(s.entries, s.rosters) && DropPlayerFrom(s, c, ctx).Ok?
    ensures
      var a, m := c.action, DropPlayerFrom(s, c, ctx).value;
      && OwnedBy(s.entries, a.playerId, a.teamId)
      && Free(m.entries, a.playerId)
      && (forall p :: p != a.playerId ==> EntryOf(m.entries, p) == EntryOf(s.entries, p))
  {
    var a := c.action;
    var team := TeamOf(ctx.teams, a.teamId).value;
    var entry := EntryOf(s.entries, a.playerId).value;
    var previous := RosterOf(s.rosters, team.id).value;
    forall p ensures p in Players(previous.slots) <==> OwnedBy(s.entries, p, team.id) {
      assert OnRoster(s.rosters, team.id, p) <==> p in Players(previous.slots);
    }
    ReleaseShown(s.entries, entry, team.id, c.submittedAt, previous.slots);
  }

  lemma ExecutionEffect(s: State, c: Command, ctx: Context, terms: Terms)
    requires c.action.Trade? && Mirrors(s.entries, s.rosters) && TermsHold(s.entries, terms)
    requires ExecuteTrade(s, c, ctx, terms).Ok?
    ensures
      var entries := ExecuteTrade(s, c, ctx, terms).value.entries;
      && entries == Exchange(s.entries, terms, c.action.tradeAt)
      && OwnedBy(s.entries, terms.firstPlayer.id, terms.first.id)
      && OwnedBy(s.entries, terms.secondPlayer.id, terms.second.id)
  {
    var first, second := TradeRosters(s, c, ctx, terms);
    assert OnRoster(s.rosters, terms.first.id, terms.firstPlayer.id) &&
           OnRoster(s.rosters, terms.second.id, terms.secondPlayer.id);
  }

  /** An accepted trade makes two players of two teams change owners, and changes no other owner. */
  lemma TradeEffect(s: State, c: Command, ctx: Context)
    requires c.action.Trade? && Mirrors(s.entries, s.rosters) && TradePlayers(s, c, ctx).Ok?
    ensures
      var a, m := c.action, TradePlayers(s, c, ctx).value;
      && OwnedBy(s.entries, a.firstPlayerId, a.firstTeamId)
      && OwnedBy(s.entries, a.secondPlayerId, a.secondTeamId)
      && OwnedBy(m.entries, a.firstPlayerId, a.secondTeamId)
      && OwnedBy(m.entries, a.secondPlayerId, a.firstTeamId)
      && (forall p :: p != a.firstPlayerId && p != a.secondPlayerId ==> EntryOf(m.entries, p) == EntryOf(s.entries, p))
  {
    AgreedTermsHold(s, c, ctx);
    var terms := AgreeTerms(s, c, ctx).value;
    ExecutionEffect(s, c, ctx, terms);
    ExchangedOwners(s.entries, terms, c.action.tradeAt);
  }

  // ----- the waiver batch -----

  ghost predicate WonBy(winners: seq<Claim>, playerId: Id, teamId: Id) {
    exists w :: w in winners && w.playerId == playerId && w.teamId == teamId
  }

  ghost predicate DroppedFor(winners: seq<Claim>, playerId: Id) {
    exists w :: w in winners && w.conditionalDropId == Some(playerId)
  }

  /** Who owns a player after some awards: its winner, or its old owner unless an awarded claim dropped it. */
  ghost predicate OwnersAfter(before: seq<Entry>, after: seq<Entry>, winners: seq<Claim>) {
    forall p, t :: OwnedBy(after, p, t) <==> WonBy(winners, p, t) || (OwnedBy(before, p, t) && !DroppedFor(winners, p))
  }

  lemma WinnerAdded(winners: seq<Claim>, last: Claim, p: Id, t: Id)
    ensures WonBy(winners + [last], p, t) <==> WonBy(winners, p, t) || (last.playerId == p && last.teamId == t)
    ensures DroppedFor(winners + [last], p) <==> DroppedFor(winners, p) || last.conditionalDropId == Some(p)
  {
  }

  lemma AwardOwners(
    entries: seq<Entry>, rosters: seq<Snapshot>, claim: Claim, at: Instant, entries': seq<Entry>,
    rosters': seq<Snapshot>, p: Id, t: Id
  )
    requires AwardFacts(entries, rosters, claim, at, entries', rosters')
    ensures OwnedBy(entries', p, t) <==>
            (p == claim.playerId && t == claim.teamId) || (OwnedBy(entries, p, t) && claim.conditionalDropId != Some(p))
  {
  }

  lemma OwnersStep(
    before: seq<Entry>, mid: Batch, last: Claim, end: Batch, winners: seq<Claim>, at: Instant
  )
    requires OwnersAfter(before, mid.entries, winners) && Settled(winners, mid, at)
    requires AwardFacts(mid.entries, mid.rosters, last, at, end.entries, end.rosters)
    ensures OwnersAfter(before, end.entries, winners + [last])
  {
    forall w | w in winners ensures last.conditionalDropId != Some(w.playerId) {
    }
    forall p, t
      ensures OwnedBy(end.entries, p, t) <==>
              WonBy(winners + [last], p, t) || (OwnedBy(before, p, t) && !DroppedFor(winners + [last], p))
    {
      WinnerAdded(winners, last, p, t);
      AwardOwners(mid.entries, mid.rosters, last, at, end.entries, end.rosters, p, t);
    }
  }

  lemma {:induction false} BatchOwners(due: seq<Claim>, b: Batch, s: State, c: Command, ctx: Context)
    requires c.action.ProcessWaivers? && Mirrors(b.entries, b.rosters)
    ensures OwnersAfter(b.entries, HearAll(due, b, s, c, ctx).entries, Winners(due, b, s, c, ctx))
  {
    if due != [] {
      var init, last := due[..|due| - 1], due[|due| - 1];
      var mid, end := HearAll(init, b, s, c, ctx), HearAll(due, b, s, c, ctx);
      BatchOwners(init, b, s, c, ctx);
      if Wins(mid, last, c, ctx) {
        BatchKeeps(init, b, s, c, ctx);
        WinnersSettled(init, b, s, c, ctx);
        AwardShown(mid.entries, mid.rosters, last, ctx, c.authority, c.action.processingAt);
        OwnersStep(b.entries, mid, last, end, Winners(init, b, s, c, ctx), c.action.processingAt);
      }
    }
  }

  /** After a batch a player belongs to the team that won it, or still to its old owner unless an awarded claim dropped
      it. */
  lemma BatchEffect(s: State, c: Command, ctx: Context)
    requires c.action.ProcessWaivers? && Mirrors(s.entries, s.rosters) && ProcessBatch(s, c, ctx).Ok?
    ensures OwnersAfter(s.entries, ProcessBatch(s, c, ctx).value.entries,
                        Winners(DueClaims(s, c.action.processingAt), Opening(s), s, c, ctx))
  {
    BatchOwners(DueClaims(s, c.action.processingAt), Opening(s), s, c, ctx);
  }

  // ----- what the commands ask for -----

  /** The last acceptance listed for the team is its current owner's, in time and with references. */
  ghost predicate Agrees(acceptances: seq<Acceptance>, team: Team, at: Instant) {
    exists i ::
      && 0 <= i < |acceptances| && acceptances[i].teamId == team.id
      && (forall j :: i < j < |acceptances| ==> acceptances[j].teamId != team.id)
      && acceptances[i].membershipId == team.ownerMembershipId
      && acceptances[i].acceptedAt <= at
      && acceptances[i].referenceIds != []
  }

  lemma {:induction false} LastAcceptance(acceptances: seq<Acceptance>, teamId: Id)
    ensures AcceptanceOf(acceptances, teamId).None? ==>
              forall j :: 0 <= j < |acceptances| ==> acceptances[j].teamId != teamId
    ensures AcceptanceOf(acceptances, teamId).Some? ==>
              exists i :: 0 <= i < |acceptances| && acceptances[i] == AcceptanceOf(acceptances, teamId).value &&
                acceptances[i].teamId == teamId && forall j :: i < j < |acceptances| ==> acceptances[j].teamId != teamId
  {
    if acceptances != [] && acceptances[|acceptances| - 1].teamId != teamId {
      var init := acceptances[..|acceptances| - 1];
      LastAcceptance(init, teamId);
      if AcceptanceOf(init, teamId).Some? {
        var i :| 0 <= i < |init| && init[i] == AcceptanceOf(init, teamId).value && init[i].teamId == teamId &&
          forall j :: i < j < |init| ==> init[j].teamId != teamId;
        assert acceptances[i] == init[i];
      }
    }
  }

  lemma AcceptedByAgrees(acceptances: seq<Acceptance>, team: Team, at: Instant)
    ensures AcceptedBy(acceptances, team, at) <==> Agrees(acceptances, team, at)
  {
    LastAcceptance(acceptances, team.id);
  }

  ghost function AcceptingTeams(acceptances: seq<Acceptance>): set<Id> {
    set acceptance | acceptance in acceptances :: acceptance.teamId
  }

  /** A trade counts as accepted exactly when two different teams, and no other, accepted, each through its current
      owner. */
  lemma AcceptedTradeDecides(acceptances: seq<Acceptance>, first: Team, second: Team, at: Instant)
    ensures AcceptedTrade(acceptances, first, second, at) <==>
            && first.id != second.id
            && AcceptingTeams(acceptances) == {first.id, second.id}
            && Agrees(acceptances, first, at)
            && Agrees(acceptances, second, at)
  {
    AcceptedByAgrees(acceptances, first, at);
    AcceptedByAgrees(acceptances, second, at);
    if AcceptedTrade(acceptances, first, second, at) {
      assert {first.id, second.id} <= AcceptingTeams(acceptances);
      SubsetSize({first.id, second.id}, AcceptingTeams(acceptances));
    }
  }

  /** A trade goes ahead only at a sealed instant before the deadline, by more than team authority, and only between the
      two teams that accepted it. */
  lemma TradesAreAgreed(s: State, c: Command, ctx: Context)
    requires c.action.Trade? && AgreeTerms(s, c, ctx).Ok?
    ensures
      var a, terms := c.action, AgreeTerms(s, c, ctx).value;
      && terms.first.id == a.firstTeamId && terms.second.id == a.secondTeamId && a.firstTeamId != a.secondTeamId
      && AcceptingTeams(a.acceptances) == {a.firstTeamId, a.secondTeamId}
      && Agrees(a.acceptances, terms.first, a.tradeAt)
      && Agrees(a.acceptances, terms.second, a.tradeAt)
      && c.submittedAt == a.tradeAt && a.tradeAt in s.policy.tradeInstants && a.tradeAt < s.policy.tradeDeadline
      && !c.authority.scope.TeamScope?
  {
    var a, terms := c.action, AgreeTerms(s, c, ctx).value;
    AcceptedTradeDecides(a.acceptances, terms.first, terms.second, a.tradeAt);
  }

  /** A lineup changes during a lock only as a commissioner's correction with a reason; it changes one roster and no
      entry. */
  lemma LineupEffect(s: State, c: Command, ctx: Context)
    requires c.action.LineupChange? && ChangeLineup(s, c, ctx).Ok?
    ensures
      var a, m := c.action, ChangeLineup(s, c, ctx).value;
      && (LineupIsLocked(s.policy, c.submittedAt) ==> a.correctionReason.Some? && !c.authority.scope.TeamScope?)
      && m.entries == s.entries
      && (RosterOf(m.rosters, a.teamId).Some? && RosterOf(m.rosters, a.teamId).value.slots == a.slots)
      && forall t :: t != a.teamId ==> RosterOf(m.rosters, t) == RosterOf(s.rosters, t)
  {
    var roster := LineupRoster(s, c, ctx);
    forall t
      ensures RosterOf(ReplaceRoster(s.rosters, roster), t) ==
                if t == c.action.teamId then Some(roster) else RosterOf(s.rosters, t)
    {
      RosterReplaced(s.rosters, roster, t);
    }
  }

  /** A claim that asks for what the command asks for, and waits. */
  ghost predicate Requests(claim: Claim, c: Command)
    requires c.action.SubmitClaim?
  {
    var a := c.action;
    && (claim.id == a.claimId && claim.operationId == c.operationId && claim.snapshotId == a.snapshotId)
    && (claim.teamId == a.teamId && claim.playerId == a.playerId && claim.conditionalDropId == a.conditionalDropId)
    && (claim.targetSlotId == a.targetSlotId && claim.processingAt == a.claimAt)
    && (claim.submittedAt == c.submittedAt && claim.submittedBy == c.authority.actorId)
    && claim.status == Pending && claim.resolvedAt.None? && claim.resultCode.None?
  }

  /** A submission adds one waiting claim, at a later sealed instant, for a free player, against a drop that the team
      owns; it moves no player. */
  lemma SubmissionEffect(s: State, c: Command, ctx: Context)
    requires c.action.SubmitClaim? && SubmitWaiver(s, c, ctx).Ok?
    ensures
      var a, m := c.action, SubmitWaiver(s, c, ctx).value;
      && m.entries == s.entries && m.rosters == s.rosters && m.priority == s.priority
      && (exists claim :: m.claims == s.claims + [claim] && Requests(claim, c))
      && a.claimAt in s.policy.waiverInstants && c.submittedAt < a.claimAt
      && Free(s.entries, a.playerId)
      && (a.conditionalDropId.Some? ==>
            EntryOf(s.entries, a.conditionalDropId.value).Some? &&
            EntryOf(s.entries, a.conditionalDropId.value).value.ownership.teamId == Some(a.teamId))
  {
    assert Requests(ClaimFrom(c, c.action.teamId), c);
  }

  /** A cancellation closes the one waiting claim it names, at its own time, and changes nothing else. */
  lemma CancellationEffect(s: State, c: Command, ctx: Context)
    requires c.action.CancelClaim? && UniqueClaims(s.claims) && CancelWaiver(s, c, ctx).Ok?
    ensures
      var m := CancelWaiver(s, c, ctx).value;
      && m.entries == s.entries && m.rosters == s.rosters && m.priority == s.priority
      && exists i :: 0 <= i < |s.claims| && s.claims[i].id == c.action.claimId && s.claims[i].status == Pending &&
           m.claims == s.claims[i := s.claims[i].(status := CancelledClaim, resolvedAt := Some(c.submittedAt))]
  {
    var claim := ClaimOf(s.claims, c.action.claimId).value;
    var i :| 0 <= i < |s.claims| && s.claims[i] == claim;
    forall k | 0 <= k < |s.claims| && k != i ensures s.claims[k].id != claim.id {
      assert ClaimIds(s.claims)[k] != ClaimIds(s.claims)[i];
    }
    assert CancelWaiver(s, c, ctx).value.claims ==
             s.claims[i := claim.(status := CancelledClaim, resolvedAt := Some(c.submittedAt))];
  }
}
