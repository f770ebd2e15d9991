/** The two views of ownership and the legality of every roster, kept by each accepted mutation. */
module OwnershipInvariant {
  import opened Base
  import opened FantasyDomain
  import opened RosterLegality
  import opened FantasyTransactions
  import opened Projection
  import opened TransactionEngine

  // ----- the invariant -----

  ghost predicate OnRoster(rosters: seq<Snapshot>, teamId: Id, playerId: Id) {
    RosterOf(rosters, teamId).Some? && playerId in Players(RosterOf(rosters, teamId).value.slots)
  }

  ghost predicate OwnedBy(entries: seq<Entry>, playerId: Id, teamId: Id) {
    var entry := EntryOf(entries, playerId);
    entry.Some? && Owned(entry.value) && entry.value.ownership.teamId == Some(teamId)
  }

  ghost predicate Teamed(entries: seq<Entry>, playerId: Id) {
    var entry := EntryOf(entries, playerId);
    entry.Some? && Owned(entry.value) ==> entry.value.ownership.teamId.Some?
  }

  /** A team's roster shows a player, in exactly one slot, if and only if the player's entry names the team as owner. */
  ghost predicate Mirrors(entries: seq<Entry>, rosters: seq<Snapshot>) {
    && (forall teamId, playerId :: OnRoster(rosters, teamId, playerId) <==> OwnedBy(entries, playerId, teamId))
    && (forall playerId :: Teamed(entries, playerId))
    && (forall teamId :: RosterOf(rosters, teamId).Some? ==> Distinct(FilledIds(RosterOf(rosters, teamId).value.slots)))
  }

  ghost predicate LegalFor(entries: seq<Entry>, ctx: Context, teamId: Id, slots: seq<Slot>) {
    Legal(slots, FactsFor(ctx.league.accountId, ctx.league.id, teamId, ctx.league, ctx.model, entries))
  }

  ghost predicate AllLegal(entries: seq<Entry>, rosters: seq<Snapshot>, ctx: Context) {
    forall teamId :: RosterOf(rosters, teamId).Some? ==>
      LegalFor(entries, ctx, teamId, RosterOf(rosters, teamId).value.slots)
  }

  ghost predicate Keyed(entries: seq<Entry>, rosters: seq<Snapshot>) {
    Distinct(EntryIds(entries)) && Distinct(RosterTeams(rosters))
  }

  /** No team's roster chain moves back in time. */
  ghost predicate Later(rosters: seq<Snapshot>, rosters': seq<Snapshot>) {
    forall t :: RosterOf(rosters, t).Some? ==>
      RosterOf(rosters', t).Some? && RosterOf(rosters, t).value.effectiveAt <= RosterOf(rosters', t).value.effectiveAt
  }

  // ----- slots -----

  lemma {:induction false} FilledIdsMembers(slots: seq<Slot>)
    ensures forall p :: p in FilledIds(slots) <==> p in Players(slots)
  {
    if slots != [] {
      var init, last := slots[..|slots| - 1], slots[|slots| - 1];
      assert slots == init + [last];
      FilledIdsMembers(init);
      MembersSnoc(init, last);
    }
  }

  /** A legal arrangement lists no player twice. */
  lemma {:induction false} OnePlaceDistinct(slots: seq<Slot>)
    requires DistinctSlots(slots) && OnePlace(slots)
    ensures Distinct(FilledIds(slots))
  {
    if slots != [] {
      var init, last := slots[..|slots| - 1], slots[|slots| - 1];
      assert slots == init + [last];
      MembersSnoc(init, last);
      OnePlaceDistinct(init);
      FilledIdsMembers(init);
      if last.playerId.Some? {
        DistinctSnoc(FilledIds(init), last.playerId.value);
        assert last in slots;
        assert forall i :: 0 <= i < |init| ==> slots[i] == init[i];
        assert slots[|init|] == last;
        assert last !in init;
      }
    }
  }

  lemma AssignedPlayers(slots: seq<Slot>, targetSlotId: Id, playerId: Id)
    requires SlotsWithAssignment(slots, targetSlotId, playerId).Ok?
    ensures Players(SlotsWithAssignment(slots, targetSlotId, playerId).value) == Players(slots) + {playerId}
  {
    var after := SlotsWithAssignment(slots, targetSlotId, playerId).value;
    forall p ensures p in Players(after) <==> p in Players(slots) || p == playerId {
      if p in Players(slots) {
        var i :| 0 <= i < |slots| && slots[i].playerId == Some(p);
        assert after[i] == slots[i];
      }
      if p == playerId {
        var i :| 0 <= i < |slots| && slots[i].id == targetSlotId;
        assert after[i].playerId == Some(playerId);
      }
    }
  }

  lemma RemainingPlayers(slots: seq<Slot>, playerId: Id)
    requires SlotsWithoutPlayer(slots, playerId).Ok?
    ensures Players(SlotsWithoutPlayer(slots, playerId).value) == Players(slots) - {playerId}
    ensures playerId in Players(slots)
  {
    var after := SlotsWithoutPlayer(slots, playerId).value;
    forall p ensures p in Players(after) <==> p in Players(slots) && p != playerId {
      if p in Players(slots) && p != playerId {
        var i :| 0 <= i < |slots| && slots[i].playerId == Some(p);
        assert after[i] == slots[i];
      }
    }
  }

  // ----- lookups after a replacement -----

  lemma {:induction false} EntryReplaced(entries: seq<Entry>, updated: Entry, id: Id)
    ensures EntryOf(ReplaceEntry(entries, updated), id) ==
            if id == updated.id && EntryOf(entries, id).Some? then Some(updated) else EntryOf(entries, id)
  {
    if entries != [] {
      assert ReplaceEntry(entries, updated)[1..] == ReplaceEntry(entries[1..], updated);
      EntryReplaced(entries[1..], updated, id);
    }
  }

  lemma {:induction false} RosterReplaced(rosters: seq<Snapshot>, updated: Snapshot, teamId: Id)
    ensures RosterOf(ReplaceRoster(rosters, updated), teamId) ==
            if teamId == updated.teamId && RosterOf(rosters, teamId).Some?
            then Some(updated)
            else RosterOf(rosters, teamId)
  {
    if rosters != [] {
      assert ReplaceRoster(rosters, updated)[1..] == ReplaceRoster(rosters[1..], updated);
      RosterReplaced(rosters[1..], updated, teamId);
    }
  }

  // ----- the closing check is the invariant -----

  lemma {:induction false} EntryFound(entries: seq<Entry>, entry: Entry)
    requires Distinct(EntryIds(entries)) && entry in entries
    ensures EntryOf(entries, entry.id) == Some(entry)
  {
    if entries[0] != entry {
      var i :| 0 < i < |entries| && entries[i] == entry;
      assert EntryIds(entries)[0] != EntryIds(entries)[i];
      assert EntryIds(entries)[1..] == EntryIds(entries[1..]);
      EntryFound(entries[1..], entry);
    }
  }

  lemma {:induction false} RosterFound(rosters: seq<Snapshot>, roster: Snapshot)
    requires Distinct(RosterTeams(rosters)) && roster in rosters
    ensures RosterOf(rosters, roster.teamId) == Some(roster)
  {
    if rosters[0] != roster {
      var i :| 0 < i < |rosters| && rosters[i] == roster;
      assert RosterTeams(rosters)[0] != RosterTeams(rosters)[i];
      assert RosterTeams(rosters)[1..] == RosterTeams(rosters[1..]);
      RosterFound(rosters[1..], roster);
    }
  }

  lemma {:induction false} RosteredIdsMembers(rosters: seq<Snapshot>)
    ensures forall p :: p in RosteredIds(rosters) <==> exists r :: r in rosters && p in Players(r.slots)
  {
    if rosters != [] {
      var init, last := rosters[..|rosters| - 1], rosters[|rosters| - 1];
      assert rosters == init + [last];
      RosteredIdsMembers(init);
      FilledIdsMembers(last.slots);
      assert forall r :: r in rosters <==> r in init || r == last;
    }
  }

  lemma DistinctAppend<T>(xs: seq<T>, ys: seq<T>)
    ensures Distinct(xs + ys) <==> Distinct(xs) && Distinct(ys) && forall x :: x in xs ==> x !in ys
  {
    var zs := xs + ys;
    assert forall i :: 0 <= i < |xs| ==> zs[i] == xs[i];
    assert forall j :: |xs| <= j < |zs| ==> zs[j] == ys[j - |xs|];
    if Distinct(zs) {
      forall i, j | 0 <= i < j < |ys| ensures ys[i] != ys[j] {
        assert zs[|xs| + i] != zs[|xs| + j];
      }
      forall i, j | 0 <= i < |xs| && 0 <= j < |ys| ensures xs[i] != ys[j] {
        assert zs[i] != zs[|xs| + j];
      }
    }
    if Distinct(xs) && Distinct(ys) && forall x :: x in xs ==> x !in ys {
      forall i, j | 0 <= i < j < |zs| ensures zs[i] != zs[j] {
        if i < |xs| <= j {
          assert xs[i] in xs && ys[j - |xs|] in ys;
        }
      }
    }
  }

  lemma {:induction false} RosteredIdsDistinct(entries: seq<Entry>, rosters: seq<Snapshot>)
    requires RostersAgree(entries, rosters) && Distinct(RosterTeams(rosters))
    ensures Distinct(RosteredIds(rosters)) <==> forall r :: r in rosters ==> Distinct(FilledIds(r.slots))
  {
    if rosters != [] {
      var init, last := rosters[..|rosters| - 1], rosters[|rosters| - 1];
      assert rosters == init + [last];
      assert forall r :: r in rosters <==> r in init || r == last;
      assert RosterTeams(rosters) == RosterTeams(init) + [last.teamId];
      DistinctSnoc(RosterTeams(init), last.teamId);
      RosteredIdsDistinct(entries, init);
      DistinctAppend(RosteredIds(init), FilledIds(last.slots));
      RosteredIdsMembers(init);
      FilledIdsMembers(last.slots);
      forall p | p in RosteredIds(init) ensures p !in FilledIds(last.slots) {
        var r :| r in init && p in Players(r.slots);
        var i :| 0 <= i < |init| && init[i] == r;
        assert RosterTeams(init)[i] == r.teamId;
        assert SlotsAgree(entries, r.teamId, r.slots) && SlotsAgree(entries, last.teamId, last.slots);
      }
    }
  }

  lemma RosterShows(rosters: seq<Snapshot>, roster: Snapshot, playerId: Id)
    requires Distinct(RosterTeams(rosters)) && roster in rosters
    ensures OnRoster(rosters, roster.teamId, playerId) <==> playerId in Players(roster.slots)
  {
    RosterFound(rosters, roster);
  }

  lemma AgreementMeansOwned(entries: seq<Entry>, rosters: seq<Snapshot>)
    requires Distinct(RosterTeams(rosters))
    ensures RostersAgree(entries, rosters) <==>
            forall teamId, playerId :: OnRoster(rosters, teamId, playerId) ==> OwnedBy(entries, playerId, teamId)
  {
    if RostersAgree(entries, rosters) {
      forall teamId, playerId | OnRoster(rosters, teamId, playerId) ensures OwnedBy(entries, playerId, teamId) {
        var roster := RosterOf(rosters, teamId).value;
        assert SlotsAgree(entries, teamId, roster.slots);
        var slot :| slot in roster.slots && slot.playerId == Some(playerId);
        assert SlotAgrees(entries, teamId, slot);
      }
    }
    if forall teamId, playerId :: OnRoster(rosters, teamId, playerId) ==> OwnedBy(entries, playerId, teamId) {
      forall roster, slot | roster in rosters && slot in roster.slots ensures SlotAgrees(entries, roster.teamId, slot) {
        RosterFound(rosters, roster);
        if slot.playerId.Some? {
          assert OnRoster(rosters, roster.teamId, slot.playerId.value);
        }
      }
    }
  }

  lemma PlacedMeansListed(entries: seq<Entry>, rosters: seq<Snapshot>)
    requires Keyed(entries, rosters) && RostersAgree(entries, rosters)
    ensures (forall entry :: entry in entries ==> (Owned(entry) <==> entry.id in RosteredIds(rosters))) <==>
            && (forall teamId, playerId :: OwnedBy(entries, playerId, teamId) ==> OnRoster(rosters, teamId, playerId))
            && (forall playerId :: Teamed(entries, playerId))
  {
    AgreementMeansOwned(entries, rosters);
    RosteredIdsMembers(rosters);
    forall p | p in RosteredIds(rosters)
      ensures exists r :: r in rosters && OnRoster(rosters, r.teamId, p) && OwnedBy(entries, p, r.teamId)
    {
      var r :| r in rosters && p in Players(r.slots);
      RosterShows(rosters, r, p);
      assert OwnedBy(entries, p, r.teamId);
    }
    forall teamId, p | OnRoster(rosters, teamId, p) ensures p in RosteredIds(rosters) {
      assert RosterOf(rosters, teamId).value in rosters;
    }
    forall entry | entry in entries ensures EntryOf(entries, entry.id) == Some(entry) {
      EntryFound(entries, entry);
    }
    if forall entry :: entry in entries ==> (Owned(entry) <==> entry.id in RosteredIds(rosters)) {
      forall playerId | EntryOf(entries, playerId).Some? && Owned(EntryOf(entries, playerId).value)
        ensures exists teamId :: OwnedBy(entries, playerId, teamId) && OnRoster(rosters, teamId, playerId)
      {
        assert EntryOf(entries, playerId).value in entries;
        var r :| r in rosters && OnRoster(rosters, r.teamId, playerId) && OwnedBy(entries, playerId, r.teamId);
      }
    }
    if (forall teamId, playerId :: OwnedBy(entries, playerId, teamId) ==> OnRoster(rosters, teamId, playerId)) &&
       (forall playerId :: Teamed(entries, playerId))
    {
      forall entry | entry in entries ensures Owned(entry) <==> entry.id in RosteredIds(rosters) {
        assert Teamed(entries, entry.id);
        if Owned(entry) {
          assert OwnedBy(entries, entry.id, entry.ownership.teamId.value);
        }
      }
    }
  }

  /** assertOwnershipProjection passes exactly when the two views of ownership mirror each other. */
  lemma CheckDecidesMirrors(entries: seq<Entry>, rosters: seq<Snapshot>)
    requires Keyed(entries, rosters)
    ensures CheckProjection(entries, rosters).Pass? <==> Mirrors(entries, rosters)
  {
    AgreementMeansOwned(entries, rosters);
    if RostersAgree(entries, rosters) {
      PlacedMeansListed(entries, rosters);
      RosteredIdsDistinct(entries, rosters);
      forall teamId | RosterOf(rosters, teamId).Some? ensures RosterOf(rosters, teamId).value in rosters {
      }
      forall r | r in rosters ensures RosterOf(rosters, r.teamId) == Some(r) {
        RosterFound(rosters, r);
      }
    }
  }

  // ----- what an accepted mutation may change -----

  /** Outside `touched` nothing moves; inside it the new rosters show exactly the owned players. */
  ghost predicate Confined(
    entries: seq<Entry>, rosters: seq<Snapshot>, entries': seq<Entry>, rosters': seq<Snapshot>, touched: set<Id>
  )
  {
    && EntryIds(entries') == EntryIds(entries)
    && RosterTeams(rosters') == RosterTeams(rosters)
    && (forall t :: t !in touched ==> RosterOf(rosters', t) == RosterOf(rosters, t))
    && (forall t, p :: t !in touched && (OwnedBy(entries, p, t) || OwnedBy(entries', p, t)) ==>
          EntryOf(entries', p) == EntryOf(entries, p))
    && (forall t, p :: t in touched ==> (OnRoster(rosters', t, p) <==> OwnedBy(entries', p, t)))
    && (forall t :: t in touched ==>
          RosterOf(rosters', t).Some? && Distinct(FilledIds(RosterOf(rosters', t).value.slots)))
    && (forall p :: Teamed(entries', p))
  }

  /** The rosters that a mutation rebuilt are legal. */
  ghost predicate RebuiltLegal(entries: seq<Entry>, rosters: seq<Snapshot>, touched: set<Id>, ctx: Context) {
    forall t :: t in touched && RosterOf(rosters, t).Some? ==>
      LegalFor(entries, ctx, t, RosterOf(rosters, t).value.slots)
  }

  lemma ConfinedKeepsMirrors(
    entries: seq<Entry>, rosters: seq<Snapshot>, entries': seq<Entry>, rosters': seq<Snapshot>, touched: set<Id>
  )
    requires Mirrors(entries, rosters) && Confined(entries, rosters, entries', rosters', touched)
    ensures Mirrors(entries', rosters')
  {
    forall t, p ensures OnRoster(rosters', t, p) <==> OwnedBy(entries', p, t) {
      if t !in touched {
        assert OnRoster(rosters', t, p) <==> OnRoster(rosters, t, p);
        assert OwnedBy(entries', p, t) <==> OwnedBy(entries, p, t);
      }
    }
  }

  /** A roster stays legal as long as the entries of its own players do not change. */
  lemma LegalFrame(slots: seq<Slot>, facts: RosterFacts, facts': RosterFacts)
    requires facts' == facts.(entries := facts'.entries)
    requires forall p :: p in Players(slots) ==> EntryOf(facts'.entries, p) == EntryOf(facts.entries, p)
    requires Legal(slots, facts)
    ensures Legal(slots, facts')
  {
    forall slot | slot in slots && slot.playerId.Some?
      ensures EntryOf(facts'.entries, slot.playerId.value) == EntryOf(facts.entries, slot.playerId.value)
    {
      assert slot.playerId.value in Players(slots);
    }
    forall s, player | s in slots
      ensures Identified(s, facts'.entries, player) <==> Identified(s, facts.entries, player)
    {
    }
  }

  lemma ConfinedKeepsLegal(
    entries: seq<Entry>, rosters: seq<Snapshot>, entries': seq<Entry>, rosters': seq<Snapshot>, touched: set<Id>,
    ctx: Context
  )
    requires Mirrors(entries, rosters) && Confined(entries, rosters, entries', rosters', touched)
    requires AllLegal(entries, rosters, ctx) && RebuiltLegal(entries', rosters', touched, ctx)
    ensures AllLegal(entries', rosters', ctx)
  {
    forall t | RosterOf(rosters', t).Some? && t !in touched
      ensures LegalFor(entries', ctx, t, RosterOf(rosters', t).value.slots)
    {
      var slots := RosterOf(rosters, t).value.slots;
      forall p | p in Players(slots) ensures EntryOf(entries', p) == EntryOf(entries, p) {
        assert OnRoster(rosters, t, p);
      }
      LegalFrame(slots, FactsFor(ctx.league.accountId, ctx.league.id, t, ctx.league, ctx.model, entries),
                 FactsFor(ctx.league.accountId, ctx.league.id, t, ctx.league, ctx.model, entries'));
    }
  }

  /** The validator accepts the slots; what that means is LegalFor. */
  ghost predicate PassesFor(entries: seq<Entry>, ctx: Context, teamId: Id, slots: seq<Slot>) {
    var facts := FactsFor(ctx.league.accountId, ctx.league.id, teamId, ctx.league, ctx.model, entries);
    WellShaped(slots) && JudgeSlots(slots, facts).Pass?
  }

  lemma PassesMeansLegal(entries: seq<Entry>, ctx: Context, teamId: Id, slots: seq<Slot>)
    requires PassesFor(entries, ctx, teamId, slots)
    ensures LegalFor(entries, ctx, teamId, slots)
  {
    JudgeSlotsDecides(slots, FactsFor(ctx.league.accountId, ctx.league.id, teamId, ctx.league, ctx.model, entries));
  }

  lemma SuccessorPasses(
    id: Id, at: Instant, ctx: Context, team: Team, entries: seq<Entry>, previous: Snapshot, slots: seq<Slot>,
    authority: Authority
  )
    requires SuccessorRoster(id, at, ctx, team, entries, previous, slots, authority).Ok?
    ensures PassesFor(entries, ctx, team.id, slots)
  {
  }

  lemma SuccessorDistinct(
    id: Id, at: Instant, ctx: Context, team: Team, entries: seq<Entry>, previous: Snapshot, slots: seq<Slot>,
    authority: Authority
  )
    requires SuccessorRoster(id, at, ctx, team, entries, previous, slots, authority).Ok?
    ensures Distinct(FilledIds(slots))
  {
    PassesMeansLegal(entries, ctx, team.id, slots);
    OnePlaceDistinct(slots);
  }

  /** What a successful successor roster is: the next link of the team's chain, with no player twice. */
  lemma SuccessorFacts(
    id: Id, at: Instant, ctx: Context, team: Team, entries: seq<Entry>, previous: Snapshot, slots: seq<Slot>,
    authority: Authority
  )
    requires SuccessorRoster(id, at, ctx, team, entries, previous, slots, authority).Ok?
    ensures
      var roster := SuccessorRoster(id, at, ctx, team, entries, previous, slots, authority).value;
      && roster.id == id
      && roster.teamId == team.id == previous.teamId
      && roster.slots == slots
      && roster.revision == previous.revision + 1
      && roster.previousId == Some(previous.id)
      && roster.effectiveAt == at > previous.effectiveAt
      && Distinct(FilledIds(slots))
  {
    SuccessorDistinct(id, at, ctx, team, entries, previous, slots, authority);
  }
}
