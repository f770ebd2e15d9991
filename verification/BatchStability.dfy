/** The outcome of a waiver batch is stable: a rejected claim would be rejected again once the batch is over. */
module BatchStability {
  import opened Base
  import opened FantasyDomain
  import opened RosterLegality
  import opened FantasyTransactions
  import opened OwnershipInvariant
  import opened TransactionSteps
  import opened Waivers
  import opened WaiverTheorems

  // ----- how holdings drift while a batch is heard -----

  /** A team's roster is the one it had, or was built at this instant. */
  ghost predicate SameOrRebuilt(r0: seq<Snapshot>, r1: seq<Snapshot>, at: Instant, team: Id) {
    || RosterOf(r1, team) == RosterOf(r0, team)
    || (RosterOf(r0, team).Some? && RosterOf(r1, team).Some? && RosterOf(r1, team).value.effectiveAt == at)
  }

  /** A team that kept its roster kept its players' entries. */
  ghost predicate SameHoldings(
    e0: seq<Entry>, r0: seq<Snapshot>, e1: seq<Entry>, r1: seq<Snapshot>, team: Id, playerId: Id
  )
  {
    RosterOf(r1, team) == RosterOf(r0, team) && (OwnedBy(e0, playerId, team) || OwnedBy(e1, playerId, team)) ==>
      EntryOf(e1, playerId) == EntryOf(e0, playerId)
  }

  /** The player belongs to a team whose roster was built at this instant. */
  ghost predicate WonAt(entries: seq<Entry>, rosters: seq<Snapshot>, at: Instant, playerId: Id) {
    exists team ::
      OwnedBy(entries, playerId, team) && RosterOf(rosters, team).Some? &&
      RosterOf(rosters, team).value.effectiveAt == at
  }

  /** What changes between two moments of a batch. */
  ghost predicate Drifted(e0: seq<Entry>, r0: seq<Snapshot>, e1: seq<Entry>, r1: seq<Snapshot>, at: Instant) {
    && EntryIds(e1) == EntryIds(e0)
    && (forall team :: SameOrRebuilt(r0, r1, at, team))
    && (forall team, p :: SameHoldings(e0, r0, e1, r1, team, p))
    && (forall p :: Free(e0, p) ==> EntryOf(e1, p) == EntryOf(e0, p) || WonAt(e1, r1, at, p))
  }

  lemma WonStays(
    entries: seq<Entry>, rosters: seq<Snapshot>, claim: Claim, at: Instant, entries': seq<Entry>,
    rosters': seq<Snapshot>, p: Id
  )
    requires AwardFacts(entries, rosters, claim, at, entries', rosters') && WonAt(entries, rosters, at, p)
    ensures WonAt(entries', rosters', at, p)
  {
    var team :|
      OwnedBy(entries, p, team) && RosterOf(rosters, team).Some? && RosterOf(rosters, team).value.effectiveAt == at;
    assert OwnedBy(entries', p, team) && RosterOf(rosters', team) == RosterOf(rosters, team);
  }

  lemma FreeDrifts(
    e0: seq<Entry>, e1: seq<Entry>, r1: seq<Snapshot>, claim: Claim, at: Instant, e2: seq<Entry>, r2: seq<Snapshot>,
    p: Id
  )
    requires AwardFacts(e1, r1, claim, at, e2, r2) && Free(e0, p)
    requires EntryOf(e1, p) == EntryOf(e0, p) || WonAt(e1, r1, at, p)
    ensures EntryOf(e2, p) == EntryOf(e0, p) || WonAt(e2, r2, at, p)
  {
    if WonAt(e1, r1, at, p) {
      WonStays(e1, r1, claim, at, e2, r2, p);
    } else if p == claim.playerId {
      assert OwnedBy(e2, p, claim.teamId);
    }
  }

  lemma RosterDrifts(
    r0: seq<Snapshot>, e1: seq<Entry>, r1: seq<Snapshot>, claim: Claim, at: Instant, e2: seq<Entry>, r2: seq<Snapshot>,
    team: Id
  )
    requires AwardFacts(e1, r1, claim, at, e2, r2) && SameOrRebuilt(r0, r1, at, team)
    ensures SameOrRebuilt(r0, r2, at, team)
    ensures team == claim.teamId ==> RosterOf(r2, team) != RosterOf(r0, team)
    ensures team != claim.teamId ==> RosterOf(r2, team) == RosterOf(r1, team)
  {
  }

  lemma HoldingsDrift(
    e0: seq<Entry>, r0: seq<Snapshot>, e1: seq<Entry>, r1: seq<Snapshot>, claim: Claim, at: Instant,
    e2: seq<Entry>, r2: seq<Snapshot>, team: Id, p: Id
  )
    requires AwardFacts(e1, r1, claim, at, e2, r2) && SameOrRebuilt(r0, r1, at, team)
    requires SameHoldings(e0, r0, e1, r1, team, p)
    ensures SameHoldings(e0, r0, e2, r2, team, p)
  {
    RosterDrifts(r0, e1, r1, claim, at, e2, r2, team);
    if RosterOf(r2, team) == RosterOf(r0, team) && (OwnedBy(e0, p, team) || OwnedBy(e2, p, team)) {
      assert EntryOf(e2, p) == EntryOf(e1, p);
    }
  }

  lemma AwardDrifts(
    e0: seq<Entry>, r0: seq<Snapshot>, e1: seq<Entry>, r1: seq<Snapshot>, claim: Claim, at: Instant,
    e2: seq<Entry>, r2: seq<Snapshot>
  )
    requires Drifted(e0, r0, e1, r1, at) && AwardFacts(e1, r1, claim, at, e2, r2) && EntryIds(e2) == EntryIds(e1)
    ensures Drifted(e0, r0, e2, r2, at)
  {
    forall team ensures SameOrRebuilt(r0, r2, at, team) {
      RosterDrifts(r0, e1, r1, claim, at, e2, r2, team);
    }
    forall team, p ensures SameHoldings(e0, r0, e2, r2, team, p) {
      HoldingsDrift(e0, r0, e1, r1, claim, at, e2, r2, team, p);
    }
    forall p | Free(e0, p) ensures EntryOf(e2, p) == EntryOf(e0, p) || WonAt(e2, r2, at, p) {
      FreeDrifts(e0, e1, r1, claim, at, e2, r2, p);
    }
  }

  // ----- along a batch -----

  /** One pass of the loop is an award, or changes nothing. */
  ghost predicate PassAt(trace: seq<Batch>, due: seq<Claim>, won: seq<bool>, at: Instant, n: nat)
    requires n < |due| && |won| == |due| && |trace| == |due| + 1
  {
    if won[n]
    then
      && AwardFacts(trace[n].entries, trace[n].rosters, due[n], at, trace[n + 1].entries, trace[n + 1].rosters)
      && EntryIds(trace[n + 1].entries) == EntryIds(trace[n].entries)
    else trace[n + 1].entries == trace[n].entries && trace[n + 1].rosters == trace[n].rosters
  }

  ghost predicate Passes(trace: seq<Batch>, due: seq<Claim>, won: seq<bool>, at: Instant) {
    && |won| == |due| && |trace| == |due| + 1
    && forall n :: 0 <= n < |due| ==> PassAt(trace, due, won, at, n)
  }

  /** One of the claims `due[i..j]` is awarded and drops the player. */
  ghost predicate DroppedBetween(due: seq<Claim>, won: seq<bool>, i: nat, j: nat, playerId: Id)
    requires j <= |due| == |won|
  {
    exists k :: i <= k < j && won[k] && due[k].conditionalDropId == Some(playerId)
  }

  lemma {:induction false} TraceDrifts(
    trace: seq<Batch>, due: seq<Claim>, won: seq<bool>, at: Instant, i: nat, j: nat
  )
    requires Passes(trace, due, won, at) && i <= j <= |due|
    ensures Drifted(trace[i].entries, trace[i].rosters, trace[j].entries, trace[j].rosters, at)
    decreases j
  {
    if i < j {
      TraceDrifts(trace, due, won, at, i, j - 1);
      assert PassAt(trace, due, won, at, j - 1);
      if won[j - 1] {
        AwardDrifts(trace[i].entries, trace[i].rosters, trace[j - 1].entries, trace[j - 1].rosters, due[j - 1], at,
                    trace[j].entries, trace[j].rosters);
      }
    }
  }

  lemma OwnerStays(
    entries: seq<Entry>, rosters: seq<Snapshot>, claim: Claim, at: Instant, entries': seq<Entry>,
    rosters': seq<Snapshot>, p: Id, team: Id
  )
    requires AwardFacts(entries, rosters, claim, at, entries', rosters') && OwnedBy(entries, p, team)
    ensures OwnedBy(entries', p, team) || claim.conditionalDropId == Some(p)
  {
  }

  lemma {:induction false} OwnedOrDropped(
    trace: seq<Batch>, due: seq<Claim>, won: seq<bool>, at: Instant, i: nat, j: nat, p: Id, team: Id
  )
    requires Passes(trace, due, won, at) && i <= j <= |due| && OwnedBy(trace[i].entries, p, team)
    ensures OwnedBy(trace[j].entries, p, team) || DroppedBetween(due, won, i, j, p)
    decreases j - i
  {
    if i < j {
      assert PassAt(trace, due, won, at, i);
      if won[i] {
        OwnerStays(trace[i].entries, trace[i].rosters, due[i], at, trace[i + 1].entries, trace[i + 1].rosters, p, team);
      }
      if !(won[i] && due[i].conditionalDropId == Some(p)) {
        OwnedOrDropped(trace, due, won, at, i + 1, j, p, team);
      }
    }
  }

  // ----- the batch of a command -----

  /** The batch after its first `n` due claims. */
  ghost function HeardBy(s: State, c: Command, ctx: Context, n: nat): Batch
    requires c.action.ProcessWaivers? && n <= |DueClaims(s, c.action.processingAt)|
  {
    HearAll(DueClaims(s, c.action.processingAt)[..n], Opening(s), s, c, ctx)
  }

  ghost predicate WinsAt(s: State, c: Command, ctx: Context, n: nat)
    requires c.action.ProcessWaivers? && n < |DueClaims(s, c.action.processingAt)|
  {
    Wins(HeardBy(s, c, ctx, n), DueClaims(s, c.action.processingAt)[n], c, ctx)
  }

  /** The batch before the first due claim and after each. */
  ghost function Trace(s: State, c: Command, ctx: Context): seq<Batch>
    requires c.action.ProcessWaivers?
  {
    var due := DueClaims(s, c.action.processingAt);
    seq(|due| + 1, n requires 0 <= n <= |due| => HeardBy(s, c, ctx, n))
  }

  /** Which due claims are awarded. */
  ghost function Won(s: State, c: Command, ctx: Context): seq<bool>
    requires c.action.ProcessWaivers?
  {
    var due := DueClaims(s, c.action.processingAt);
    seq(|due|, n requires 0 <= n < |due| => WinsAt(s, c, ctx, n))
  }

  lemma HeardMirrors(s: State, c: Command, ctx: Context, n: nat)
    requires c.action.ProcessWaivers? && n <= |DueClaims(s, c.action.processingAt)| && Mirrors(s.entries, s.rosters)
    ensures Mirrors(HeardBy(s, c, ctx, n).entries, HeardBy(s, c, ctx, n).rosters)
  {
    BatchKeeps(DueClaims(s, c.action.processingAt)[..n], Opening(s), s, c, ctx);
  }

  lemma HearIsPass(b: Batch, claim: Claim, s: State, c: Command, ctx: Context)
    requires c.action.ProcessWaivers? && Mirrors(b.entries, b.rosters)
    ensures PassAt([b, Hear(b, claim, s, c, ctx)], [claim], [Wins(b, claim, c, ctx)], c.action.processingAt, 0)
  {
    if Wins(b, claim, c, ctx) {
      AwardShown(b.entries, b.rosters, claim, ctx, c.authority, c.action.processingAt);
      AwardedEntries(b.entries, b.rosters, claim, ctx, c.authority, c.action.processingAt);
    }
  }

  lemma BatchPasses(s: State, c: Command, ctx: Context)
    requires c.action.ProcessWaivers? && Mirrors(s.entries, s.rosters)
    ensures Passes(Trace(s, c, ctx), DueClaims(s, c.action.processingAt), Won(s, c, ctx), c.action.processingAt)
  {
    var trace, due, won, at := Trace(s, c, ctx), DueClaims(s, c.action.processingAt), Won(s, c, ctx),
                               c.action.processingAt;
    forall n | 0 <= n < |due| ensures PassAt(trace, due, won, at, n) {
      HeardMirrors(s, c, ctx, n);
      HearNext(due, n, Opening(s), s, c, ctx);
      HearIsPass(trace[n], due[n], s, c, ctx);
    }
  }

  // ----- an attempt that succeeds later would have succeeded before -----

  lemma PlayersOf(slots: seq<Slot>, targetSlotId: Id, playerId: Id)
    ensures Players(Placed(slots, targetSlotId, playerId)) <= Players(slots) + {playerId}
    ensures Players(Vacated(slots, playerId)) <= Players(slots)
  {
    var placed, vacated := Placed(slots, targetSlotId, playerId), Vacated(slots, playerId);
    forall slot | slot in placed && slot.playerId.Some? ensures slot.playerId.value in Players(slots) + {playerId} {
      var i :| 0 <= i < |placed| && placed[i] == slot;
      assert slots[i] in slots;
    }
    forall slot | slot in vacated && slot.playerId.Some? ensures slot.playerId.value in Players(slots) {
      var i :| 0 <= i < |vacated| && vacated[i] == slot;
      assert slots[i] in slots;
    }
  }

  lemma SuccessorComesBack(
    id: Id, at: Instant, ctx: Context, team: Team, e0: seq<Entry>, e1: seq<Entry>, previous: Snapshot, slots: seq<Slot>,
    authority: Authority
  )
    requires SuccessorRoster(id, at, ctx, team, e1, previous, slots, authority).Ok?
    requires EntryIds(e0) == EntryIds(e1) && forall p :: p in Players(slots) ==> EntryOf(e0, p) == EntryOf(e1, p)
    ensures SuccessorRoster(id, at, ctx, team, e0, previous, slots, authority).Ok?
  {
    var f0 := FactsFor(ctx.league.accountId, ctx.league.id, team.id, ctx.league, ctx.model, e0);
    var f1 := FactsFor(ctx.league.accountId, ctx.league.id, team.id, ctx.league, ctx.model, e1);
    JudgeSlotsDecides(slots, f1);
    LegalFrame(slots, f1, f0);
    JudgeSlotsDecides(slots, f0);
  }

  lemma RoomComesBack(
    e0: seq<Entry>, e1: seq<Entry>, previous: Snapshot, claim: Claim, team: Team, at: Instant
  )
    requires MakeRoom(e1, previous, claim, team, at).Ok?
    requires EntryIds(e0) == EntryIds(e1)
    requires forall p :: p in Players(previous.slots) ==> EntryOf(e0, p) == EntryOf(e1, p)
    ensures MakeRoom(e0, previous, claim, team, at).Ok?
    ensures
      var m0, m1 := MakeRoom(e0, previous, claim, team, at).value, MakeRoom(e1, previous, claim, team, at).value;
      && m0.slots == m1.slots && Players(m1.slots) <= Players(previous.slots)
      && EntryIds(m0.entries) == EntryIds(m1.entries)
      && (forall p :: EntryOf(e0, p) == EntryOf(e1, p) ==> EntryOf(m0.entries, p) == EntryOf(m1.entries, p))
  {
    if claim.conditionalDropId.Some? {
      var drop := claim.conditionalDropId.value;
      RemainingPlayers(previous.slots, drop);
      var released := WithOwnership(EntryOf(e1, drop).value, Released, None, at);
      forall p ensures EntryOf(e0, p) == EntryOf(e1, p) ==>
                         EntryOf(ReplaceEntry(e0, released), p) == EntryOf(ReplaceEntry(e1, released), p)
      {
        EntryReplaced(e0, released, p);
        EntryReplaced(e1, released, p);
      }
      IdsReplaced(e0, released);
      IdsReplaced(e1, released);
    }
  }

  lemma IdsReplaced(entries: seq<Entry>, updated: Entry)
    ensures EntryIds(ReplaceEntry(entries, updated)) == EntryIds(entries)
  {
  }

  lemma AcquiredAlike(m0: seq<Entry>, m1: seq<Entry>, target: Entry, team: Id, at: Instant, players: set<Id>)
    requires EntryIds(m0) == EntryIds(m1) && forall p :: p in players ==> EntryOf(m0, p) == EntryOf(m1, p)
    requires EntryOf(m0, target.id) == EntryOf(m1, target.id)
    ensures
      var acquired := WithOwnership(target, Rostered, Some(team), at);
      && EntryIds(ReplaceEntry(m0, acquired)) == EntryIds(ReplaceEntry(m1, acquired))
      && forall p :: p in players || p == target.id ==>
           EntryOf(ReplaceEntry(m0, acquired), p) == EntryOf(ReplaceEntry(m1, acquired), p)
  {
    var acquired := WithOwnership(target, Rostered, Some(team), at);
    IdsReplaced(m0, acquired);
    IdsReplaced(m1, acquired);
    forall p | p in players || p == target.id
      ensures EntryOf(ReplaceEntry(m0, acquired), p) == EntryOf(ReplaceEntry(m1, acquired), p)
    {
      EntryReplaced(m0, acquired, p);
      EntryReplaced(m1, acquired, p);
    }
  }

  /** Nothing an attempt looks at was different before. */
  ghost predicate SameView(e0: seq<Entry>, r0: seq<Snapshot>, e1: seq<Entry>, r1: seq<Snapshot>, claim: Claim) {
    && EntryIds(e0) == EntryIds(e1)
    && EntryOf(e0, claim.playerId) == EntryOf(e1, claim.playerId)
    && RosterOf(r1, claim.teamId).Some? && RosterOf(r0, claim.teamId) == RosterOf(r1, claim.teamId)
    && forall p :: p in Players(RosterOf(r1, claim.teamId).value.slots) ==> EntryOf(e0, p) == EntryOf(e1, p)
  }

  lemma AttemptComesBack(
    e0: seq<Entry>, r0: seq<Snapshot>, e1: seq<Entry>, r1: seq<Snapshot>, claim: Claim, ctx: Context,
    authority: Authority, at: Instant
  )
    requires SameView(e0, r0, e1, r1, claim) && Attempt(e1, r1, claim, ctx, authority, at).Ok?
    ensures Attempt(e0, r0, claim, ctx, authority, at).Ok?
  {
    var team := TeamOf(ctx.teams, claim.teamId).value;
    var target, previous := EntryOf(e1, claim.playerId).value, RosterOf(r1, team.id).value;
    RoomComesBack(e0, e1, previous, claim, team, at);
    var m0, m1 := MakeRoom(e0, previous, claim, team, at).value, MakeRoom(e1, previous, claim, team, at).value;
    AcquiredAlike(m0.entries, m1.entries, target, team.id, at, Players(m1.slots));
    var acquired := WithOwnership(target, Rostered, Some(team.id), at);
    var slots := Placed(m1.slots, claim.targetSlotId, target.id);
    PlayersOf(m1.slots, claim.targetSlotId, target.id);
    SuccessorComesBack(claim.snapshotId, at, ctx, team, ReplaceEntry(m0.entries, acquired),
                       ReplaceEntry(m1.entries, acquired), previous, slots, authority);
  }

  lemma DriftedView(
    e0: seq<Entry>, r0: seq<Snapshot>, e1: seq<Entry>, r1: seq<Snapshot>, claim: Claim, ctx: Context,
    authority: Authority, at: Instant
  )
    requires Drifted(e0, r0, e1, r1, at) && Mirrors(e1, r1) && Free(e0, claim.playerId)
    requires Attempt(e1, r1, claim, ctx, authority, at).Ok?
    ensures SameView(e0, r0, e1, r1, claim)
  {
    AwardShown(e1, r1, claim, ctx, authority, at);
    assert SameOrRebuilt(r0, r1, at, claim.teamId);
    forall p | p in Players(RosterOf(r1, claim.teamId).value.slots) ensures EntryOf(e0, p) == EntryOf(e1, p) {
      assert OnRoster(r1, claim.teamId, p);
      assert SameHoldings(e0, r0, e1, r1, claim.teamId, p);
    }
  }

  lemma {:induction false} ListedById(entries: seq<Entry>, id: Id)
    ensures EntryOf(entries, id).Some? <==> id in EntryIds(entries)
  {
    if entries != [] {
      ListedById(entries[1..], id);
      assert EntryIds(entries) == [entries[0].id] + EntryIds(entries[1..]);
    }
  }

  /** A claim that fails at one moment and could win later is for a player who was owned at that moment. */
  lemma WinnerWasOwned(
    e0: seq<Entry>, r0: seq<Snapshot>, e1: seq<Entry>, r1: seq<Snapshot>, claim: Claim, ctx: Context,
    authority: Authority, at: Instant
  )
    requires Drifted(e0, r0, e1, r1, at) && Mirrors(e0, r0) && Mirrors(e1, r1)
    requires Attempt(e0, r0, claim, ctx, authority, at).Err? && Attempt(e1, r1, claim, ctx, authority, at).Ok?
    ensures Free(e1, claim.playerId) && exists team :: OwnedBy(e0, claim.playerId, team)
  {
    ListedById(e0, claim.playerId);
    ListedById(e1, claim.playerId);
    if Free(e0, claim.playerId) {
      DriftedView(e0, r0, e1, r1, claim, ctx, authority, at);
      AttemptComesBack(e0, r0, e1, r1, claim, ctx, authority, at);
      assert false;
    }
    assert Teamed(e0, claim.playerId);
    assert OwnedBy(e0, claim.playerId, EntryOf(e0, claim.playerId).value.ownership.teamId.value);
  }

  /** A player owned when a claim for it failed and free in the end was dropped in between. */
  lemma DroppedLater(
    trace: seq<Batch>, due: seq<Claim>, won: seq<bool>, at: Instant, i: nat, p: Id, team: Id
  )
    requires Passes(trace, due, won, at) && i < |due| && !won[i]
    requires OwnedBy(trace[i].entries, p, team) && Free(trace[|due|].entries, p)
    ensures DroppedBetween(due, won, i + 1, |due|, p)
  {
    assert PassAt(trace, due, won, at, i);
    OwnedOrDropped(trace, due, won, at, i + 1, |due|, p, team);
  }

  /** A claim rejected in a batch would be rejected again when the batch is over, unless its player was owned when the
      claim was heard and a later award of the batch dropped it. */
  lemma RejectionsAreStable(s: State, c: Command, ctx: Context, i: nat)
    requires c.action.ProcessWaivers? && Mirrors(s.entries, s.rosters) && i < |DueClaims(s, c.action.processingAt)|
    requires !WinsAt(s, c, ctx, i)
    ensures
      var due, end := DueClaims(s, c.action.processingAt), BatchOf(s, c, ctx);
      Attempt(end.entries, end.rosters, due[i], ctx, c.authority, c.action.processingAt).Ok? ==>
      && (exists team :: OwnedBy(HeardBy(s, c, ctx, i).entries, due[i].playerId, team))
      && DroppedBetween(due, Won(s, c, ctx), i + 1, |due|, due[i].playerId)
  {
    var at, due, end := c.action.processingAt, DueClaims(s, c.action.processingAt), BatchOf(s, c, ctx);
    var trace, won := Trace(s, c, ctx), Won(s, c, ctx);
    assert due[..|due|] == due;
    BatchPasses(s, c, ctx);
    HeardMirrors(s, c, ctx, |due|);
    HeardMirrors(s, c, ctx, i);
    if Wins(end, due[i], c, ctx) {
      TraceDrifts(trace, due, won, at, i, |due|);
      WinnerWasOwned(trace[i].entries, trace[i].rosters, end.entries, end.rosters, due[i], ctx, c.authority, at);
      var team :| OwnedBy(trace[i].entries, due[i].playerId, team);
      DroppedLater(trace, due, won, at, i, due[i].playerId, team);
    }
  }
}
