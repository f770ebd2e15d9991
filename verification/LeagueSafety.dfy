/** What holds in every state a league can reach from its creation, whatever commands are sent. */
module LeagueSafety {
  import opened Base
  import opened Ordering
  import opened FantasyRules
  import opened FantasyDomain
  import opened RosterLegality
  import opened FantasyTransactions
  import opened Projection
  import opened TransactionEngine
  import opened OwnershipInvariant
  import opened TransactionSteps
  import opened Waivers
  import opened WaiverTheorems
  import opened WaiverResolution
  import opened TransactionRuns

  // ----- the beginning -----

  /** Equally many, no repetition, all of them members: then the two lists name the same teams. */
  lemma ListsCover(ids: seq<Id>, all: seq<Id>)
    requires Distinct(ids) && Distinct(all) && |ids| == |all|
    requires forall id :: id in ids ==> id in all
    ensures forall id :: id in ids <==> id in all
  {
    var universe := set id | id in all;
    DistinctSize(all);
    forall id | id in ids ensures id in universe {
      assert id in all;
    }
    DistinctCovers(ids, universe);
    forall id | id in all ensures id in ids {
      assert id in universe;
    }
  }

  lemma RosterTeamsKnown(ctx: Context, entries: seq<Entry>, rosters: seq<Snapshot>)
    requires WithinLeague(ctx, entries, rosters)
    ensures forall id :: id in RosterTeams(rosters) ==> id in TeamIds(ctx.teams)
  {
  }

  lemma CreatedConsistent(s: State, ctx: Context)
    requires Created(s, ctx)
    ensures Consistent(s, ctx)
  {
    var policy, entries, rosters :| CreateState(ctx, policy, entries, rosters) == Ok(s);
    assert ClaimIds(s.claims) == [];
    ListsCover(policy.initialWaiverPriority, TeamIds(ctx.teams));
    RosterTeamsKnown(ctx, entries, rosters);
    ListsCover(RosterTeams(rosters), TeamIds(ctx.teams));
    CheckDecidesMirrors(entries, rosters);
  }

  // ----- the invariant along a run -----

  lemma StepsCompose(s: State, t: State, u: State, ctx: Context)
    requires StepKeeps(s, t, ctx) && StepKeeps(t, u, ctx)
    ensures StepKeeps(s, u, ctx)
  {
  }

  lemma {:induction false} RunKeeps(states: seq<State>, commands: seq<Command>, ctx: Context, n: nat)
    requires Steps(states, commands, ctx) && Consistent(states[0], ctx) && n < |states|
    ensures StepKeeps(states[0], states[n], ctx)
  {
    if n == 0 {
      StepStays(states[0], states[0], ctx);
    } else {
      RunKeeps(states, commands, ctx, n - 1);
      NextKeeps(states[0], states, commands, ctx, n - 1);
    }
  }

  lemma NextKeeps(s: State, states: seq<State>, commands: seq<Command>, ctx: Context, i: nat)
    requires Steps(states, commands, ctx) && i < |commands| && StepKeeps(s, states[i], ctx)
    ensures StepKeeps(s, states[i + 1], ctx)
  {
    assert Stepped(states, commands, i, ctx);
    CommandKeeps(states[i], commands[i], ctx);
    StepsCompose(s, states[i], states[i + 1], ctx);
  }

  lemma ReachedKeeps(states: seq<State>, commands: seq<Command>, ctx: Context, n: nat)
    requires IsRun(states, commands, ctx) && n < |states|
    ensures StepKeeps(states[0], states[n], ctx)
  {
    CreatedConsistent(states[0], ctx);
    RunKeeps(states, commands, ctx, n);
  }

  // ----- ownership -----

  /** Slot `j` of roster `i` holds the player. */
  predicate Fills(rosters: seq<Snapshot>, i: int, j: int, playerId: Id) {
    0 <= i < |rosters| && 0 <= j < |rosters[i].slots| && rosters[i].slots[j].playerId == Some(playerId)
  }

  lemma {:induction false} FilledOnce(slots: seq<Slot>, i: nat, j: nat)
    requires Distinct(FilledIds(slots)) && i < j < |slots| && slots[j].playerId.Some?
    ensures slots[i].playerId != slots[j].playerId
  {
    var init, last := slots[..|slots| - 1], slots[|slots| - 1];
    if j < |init| {
      DistinctAppend(FilledIds(init), if last.playerId.Some? then [last.playerId.value] else []);
      FilledOnce(init, i, j);
    } else {
      DistinctSnoc(FilledIds(init), last.playerId.value);
      FilledIdsMembers(init);
      assert init[i] in init && slots[i] == init[i] && slots[j] == last;
      assert slots[i].playerId.Some? ==> slots[i].playerId.value in Players(init);
    }
  }

  lemma FilledMeansOwned(entries: seq<Entry>, rosters: seq<Snapshot>, i: int, j: int, playerId: Id)
    requires Keyed(entries, rosters) && Mirrors(entries, rosters) && Fills(rosters, i, j, playerId)
    ensures OwnedBy(entries, playerId, rosters[i].teamId)
  {
    RosterFound(rosters, rosters[i]);
    assert rosters[i].slots[j] in rosters[i].slots;
    assert OnRoster(rosters, rosters[i].teamId, playerId);
  }

  lemma PlacedOnce(entries: seq<Entry>, rosters: seq<Snapshot>, i: int, j: int, i': int, j': int, playerId: Id)
    requires Keyed(entries, rosters) && Mirrors(entries, rosters)
    requires Fills(rosters, i, j, playerId) && Fills(rosters, i', j', playerId)
    ensures i == i' && j == j'
  {
    FilledMeansOwned(entries, rosters, i, j, playerId);
    FilledMeansOwned(entries, rosters, i', j', playerId);
    assert RosterTeams(rosters)[i] == RosterTeams(rosters)[i'];
    RosterFound(rosters, rosters[i]);
    if j < j' {
      FilledOnce(rosters[i].slots, j, j');
    } else if j' < j {
      FilledOnce(rosters[i].slots, j', j);
    }
  }

  lemma OwnedIsPlaced(entries: seq<Entry>, rosters: seq<Snapshot>, entry: Entry)
    requires Keyed(entries, rosters) && Mirrors(entries, rosters) && entry in entries
    ensures Owned(entry) ==>
              exists i, j :: Fills(rosters, i, j, entry.id) && entry.ownership.teamId == Some(rosters[i].teamId)
  {
    EntryFound(entries, entry);
    assert Teamed(entries, entry.id);
    if Owned(entry) {
      var teamId := entry.ownership.teamId.value;
      assert OwnedBy(entries, entry.id, teamId);
      assert OnRoster(rosters, teamId, entry.id);
      var roster := RosterOf(rosters, teamId).value;
      var i :| 0 <= i < |rosters| && rosters[i] == roster;
      var slot :| slot in roster.slots && slot.playerId == Some(entry.id);
      var j :| 0 <= j < |roster.slots| && roster.slots[j] == slot;
      assert Fills(rosters, i, j, entry.id);
    }
  }

  /** Entry and slot tell the same story: who is owned fills one slot, and that slot stands on the owner's roster. */
  ghost predicate Bijection(entries: seq<Entry>, rosters: seq<Snapshot>) {
    && (forall entry :: entry in entries ==> (Owned(entry) <==> exists i, j :: Fills(rosters, i, j, entry.id)))
    && (forall entry, i, j :: entry in entries && Fills(rosters, i, j, entry.id) ==>
          entry.ownership.teamId == Some(rosters[i].teamId))
    && (forall i, j, i', j', p :: Fills(rosters, i, j, p) && Fills(rosters, i', j', p) ==> i == i' && j == j')
    && (forall i, j, p :: Fills(rosters, i, j, p) ==> p in EntryIds(entries))
  }

  lemma FilledIsListed(entries: seq<Entry>, rosters: seq<Snapshot>, i: int, j: int, p: Id)
    requires Keyed(entries, rosters) && Mirrors(entries, rosters) && Fills(rosters, i, j, p)
    ensures p in EntryIds(entries)
  {
    FilledMeansOwned(entries, rosters, i, j, p);
    var entry := EntryOf(entries, p).value;
    var k :| 0 <= k < |entries| && entries[k] == entry;
    assert EntryIds(entries)[k] == p;
  }

  lemma FilledEntry(entries: seq<Entry>, rosters: seq<Snapshot>, i: int, j: int, entry: Entry)
    requires Keyed(entries, rosters) && Mirrors(entries, rosters) && entry in entries && Fills(rosters, i, j, entry.id)
    ensures Owned(entry) && entry.ownership.teamId == Some(rosters[i].teamId)
  {
    FilledMeansOwned(entries, rosters, i, j, entry.id);
    EntryFound(entries, entry);
  }

  lemma MirrorsBijection(entries: seq<Entry>, rosters: seq<Snapshot>)
    requires Keyed(entries, rosters) && Mirrors(entries, rosters)
    ensures Bijection(entries, rosters)
  {
    forall entry | entry in entries ensures Owned(entry) ==> exists i, j :: Fills(rosters, i, j, entry.id) {
      OwnedIsPlaced(entries, rosters, entry);
    }
    forall entry, i, j | entry in entries && Fills(rosters, i, j, entry.id)
      ensures Owned(entry) && entry.ownership.teamId == Some(rosters[i].teamId)
    {
      FilledEntry(entries, rosters, i, j, entry);
    }
    forall i, j, p | Fills(rosters, i, j, p) ensures p in EntryIds(entries) {
      FilledIsListed(entries, rosters, i, j, p);
    }
    forall i, j, i', j', p | Fills(rosters, i, j, p) && Fills(rosters, i', j', p) ensures i == i' && j == j' {
      PlacedOnce(entries, rosters, i, j, i', j', p);
    }
  }

  /** In every state of every run an entry is owned exactly when it fills a slot; that slot is the only one, on its
      owner's roster. */
  lemma OwnershipBijection(states: seq<State>, commands: seq<Command>, ctx: Context, n: nat)
    requires IsRun(states, commands, ctx) && n < |states|
    ensures Bijection(states[n].entries, states[n].rosters)
  {
    ReachedKeeps(states, commands, ctx, n);
    MirrorsBijection(states[n].entries, states[n].rosters);
  }

  /** In every state of every run the closing check can refuse nothing but a lineup change. */
  lemma OnlyLineupsFailTheCheck(states: seq<State>, commands: seq<Command>, ctx: Context, n: nat, c: Command)
    requires IsRun(states, commands, ctx) && n < |states| && Mutate(states[n], c, ctx).Ok?
    ensures
      var m := Mutate(states[n], c, ctx).value;
      CheckProjection(m.entries, m.rosters).Fail? ==> c.action.LineupChange?
  {
    ReachedKeeps(states, commands, ctx, n);
    if !c.action.LineupChange? {
      ClosingCheckNeverFails(states[n], c, ctx);
    }
  }

  /** A lineup change that gets as far as a new roster is accepted exactly when it keeps its team's set of players. */
  lemma LineupsKeepPlayers(states: seq<State>, commands: seq<Command>, ctx: Context, n: nat, c: Command)
    requires IsRun(states, commands, ctx) && n < |states| && c.action.LineupChange?
    requires VerifyModel(ctx.model).Pass? && ChangeLineup(states[n], c, ctx).Ok?
    ensures RosterOf(states[n].rosters, c.action.teamId).Some?
    ensures Commit(states[n], c, ctx).Ok? <==>
            Players(c.action.slots) == Players(RosterOf(states[n].rosters, c.action.teamId).value.slots)
  {
    ReachedKeeps(states, commands, ctx, n);
    LineupCheckExact(states[n], c, ctx);
  }

  // ----- legality, priority, waivers -----

  /** If every roster starts legal, in every state of the run every current roster is legal against the current
      entries. */
  lemma RostersStayLegal(states: seq<State>, commands: seq<Command>, ctx: Context, n: nat)
    requires IsRun(states, commands, ctx) && n < |states| && AllLegal(states[0].entries, states[0].rosters, ctx)
    ensures AllLegal(states[n].entries, states[n].rosters, ctx)
  {
    ReachedKeeps(states, commands, ctx, n);
  }

  /** In every state of every run the waiver priority lists each team of the league once. */
  lemma PriorityIsTheTeams(states: seq<State>, commands: seq<Command>, ctx: Context, n: nat)
    requires IsRun(states, commands, ctx) && n < |states|
    ensures multiset(states[n].priority) == multiset(TeamIds(ctx.teams))
  {
    ReachedKeeps(states, commands, ctx, n);
    var policy, entries, rosters :| CreateState(ctx, policy, entries, rosters) == Ok(states[0]);
    SameIdMultiset(states[n].priority, TeamIds(ctx.teams));
  }

  /** Along every run a waiver batch turns the priority into a stable partition, losers then winners, and a refused one
      leaves it. */
  lemma BatchRotatesPriority(states: seq<State>, commands: seq<Command>, ctx: Context, n: nat)
    requires IsRun(states, commands, ctx) && n < |commands| && commands[n].action.ProcessWaivers?
    ensures
      var before, winners := states[n].priority, BatchWinners(states[n], commands[n], ctx);
      states[n + 1].priority ==
      if states[n + 1].revision == states[n].revision
      then before
      else Filter(Lost(winners), before) + Filter(Won(winners), before)
  {
    ReachedKeeps(states, commands, ctx, n);
    assert Stepped(states, commands, n, ctx);
    BatchStep(states[n], commands[n], ctx);
  }

  lemma BatchStep(s: State, c: Command, ctx: Context)
    requires Consistent(s, ctx) && c.action.ProcessWaivers?
    ensures
      var t, winners := After(s, c, ctx), BatchWinners(s, c, ctx);
      t.priority ==
      if t.revision == s.revision
      then s.priority
      else Filter(Lost(winners), s.priority) + Filter(Won(winners), s.priority)
  {
    AfterEffect(s, c, ctx);
    if EffectOf(s, c, ctx).Accepted? {
      AcceptedBatch(s, c, ctx);
      PriorityPartitioned(s, c, ctx);
    }
  }

  lemma AcceptedBatch(s: State, c: Command, ctx: Context)
    requires c.action.ProcessWaivers? && EffectOf(s, c, ctx).Accepted?
    ensures ProcessBatch(s, c, ctx) == Ok(EffectOf(s, c, ctx).mutation)
  {
  }

  lemma PriorityPartitioned(s: State, c: Command, ctx: Context)
    requires Consistent(s, ctx) && c.action.ProcessWaivers? && ProcessBatch(s, c, ctx).Ok?
    ensures
      var winners := BatchWinners(s, c, ctx);
      ProcessBatch(s, c, ctx).value.priority == Filter(Lost(winners), s.priority) + Filter(Won(winners), s.priority)
  {
    BatchPartitionsPriority(s, c, ctx);
  }

  /** In every state of every run a team waits at most once for one player at one processing instant. */
  lemma OneRequestPerPlayer(states: seq<State>, commands: seq<Command>, ctx: Context, n: nat)
    requires IsRun(states, commands, ctx) && n < |states|
    ensures RequestsApart(states[n].claims)
  {
    ReachedKeeps(states, commands, ctx, n);
  }

  /** Over a whole run no team has two awarded claims of the same processing instant. */
  lemma OneWinPerInstant(states: seq<State>, commands: seq<Command>, ctx: Context, n: nat, i: nat, j: nat)
    requires IsRun(states, commands, ctx) && n < |states|
    requires i < j < |states[n].claims| && BothAwarded(states[n].claims[i], states[n].claims[j])
    ensures states[n].claims[i].processingAt != states[n].claims[j].processingAt
  {
    ReachedKeeps(states, commands, ctx, n);
  }
}
