/** Each accepted mutation keeps the two views of ownership in agreement by construction. */
module TransactionSteps {
  import opened Base
  import opened FantasyDomain
  import opened RosterLegality
  import opened FantasyTransactions
  import opened Projection
  import opened TransactionEngine
  import opened OwnershipInvariant
  import opened Waivers

  /** Only players of `team`, or unowned ones, changed their entry between the two lists. */
  ghost predicate OnlyTeamMoves(entries: seq<Entry>, entries': seq<Entry>, team: Id) {
    forall p :: EntryOf(entries', p) != EntryOf(entries, p) ==>
      Teamed(entries', p) && forall t :: t != team ==> !OwnedBy(entries, p, t) && !OwnedBy(entries', p, t)
  }

  lemma OneTeamConfined(
    entries: seq<Entry>, rosters: seq<Snapshot>, entries': seq<Entry>, roster: Snapshot
  )
    requires Mirrors(entries, rosters) && EntryIds(entries') == EntryIds(entries)
    requires RosterOf(rosters, roster.teamId).Some?
    requires Distinct(FilledIds(roster.slots))
    requires OnlyTeamMoves(entries, entries', roster.teamId)
    requires forall p :: p in Players(roster.slots) <==> OwnedBy(entries', p, roster.teamId)
    ensures Confined(entries, rosters, entries', ReplaceRoster(rosters, roster), {roster.teamId})
    ensures RosterOf(ReplaceRoster(rosters, roster), roster.teamId) == Some(roster)
  {
    var rosters' := ReplaceRoster(rosters, roster);
    var team := roster.teamId;
    assert RosterTeams(rosters') == RosterTeams(rosters);
    forall t ensures RosterOf(rosters', t) == if t == team then Some(roster) else RosterOf(rosters, t) {
      RosterReplaced(rosters, roster, t);
    }
    forall t, p | t != team && (OwnedBy(entries, p, t) || OwnedBy(entries', p, t))
      ensures EntryOf(entries', p) == EntryOf(entries, p)
    {
    }
    forall t, p | t == team ensures OnRoster(rosters', t, p) <==> OwnedBy(entries', p, t) {
    }
    forall p ensures Teamed(entries', p) {
      assert Teamed(entries, p);
    }
  }

  /** What every accepted mutation does: keys stay, the views still mirror each other, legality carries over, time moves
      on. */
  ghost predicate Keeps(
    entries: seq<Entry>, rosters: seq<Snapshot>, entries': seq<Entry>, rosters': seq<Snapshot>, ctx: Context
  )
  {
    && EntryIds(entries') == EntryIds(entries)
    && RosterTeams(rosters') == RosterTeams(rosters)
    && Mirrors(entries', rosters')
    && (AllLegal(entries, rosters, ctx) ==> AllLegal(entries', rosters', ctx))
    && Later(rosters, rosters')
  }

  /** A roster that may follow its team's current one, together with the entries that go with it. */
  ghost predicate FitsTeam(entries: seq<Entry>, rosters: seq<Snapshot>, entries': seq<Entry>, roster: Snapshot) {
    && EntryIds(entries') == EntryIds(entries)
    && RosterOf(rosters, roster.teamId).Some?
    && RosterOf(rosters, roster.teamId).value.effectiveAt < roster.effectiveAt
    && Distinct(FilledIds(roster.slots))
    && OnlyTeamMoves(entries, entries', roster.teamId)
    && (forall p :: p in Players(roster.slots) <==> OwnedBy(entries', p, roster.teamId))
  }

  lemma RebuiltOne(entries: seq<Entry>, rosters: seq<Snapshot>, roster: Snapshot, ctx: Context)
    requires RosterOf(rosters, roster.teamId) == Some(roster) && PassesFor(entries, ctx, roster.teamId, roster.slots)
    ensures RebuiltLegal(entries, rosters, {roster.teamId}, ctx)
  {
    PassesMeansLegal(entries, ctx, roster.teamId, roster.slots);
  }

  lemma ReplacedLater(rosters: seq<Snapshot>, roster: Snapshot)
    requires RosterOf(rosters, roster.teamId).Some?
    requires RosterOf(rosters, roster.teamId).value.effectiveAt < roster.effectiveAt
    ensures Later(rosters, ReplaceRoster(rosters, roster))
  {
    forall t | RosterOf(rosters, t).Some?
      ensures RosterOf(ReplaceRoster(rosters, roster), t).Some?
      ensures RosterOf(rosters, t).value.effectiveAt <= RosterOf(ReplaceRoster(rosters, roster), t).value.effectiveAt
    {
      RosterReplaced(rosters, roster, t);
    }
  }

  lemma OneTeamKeeps(entries: seq<Entry>, rosters: seq<Snapshot>, entries': seq<Entry>, roster: Snapshot, ctx: Context)
    requires Mirrors(entries, rosters) && FitsTeam(entries, rosters, entries', roster)
    requires PassesFor(entries', ctx, roster.teamId, roster.slots)
    ensures Keeps(entries, rosters, entries', ReplaceRoster(rosters, roster), ctx)
  {
    var rosters' := ReplaceRoster(rosters, roster);
    OneTeamConfined(entries, rosters, entries', roster);
    ConfinedKeepsMirrors(entries, rosters, entries', rosters', {roster.teamId});
    ReplacedLater(rosters, roster);
    if AllLegal(entries, rosters, ctx) {
      RebuiltOne(entries', rosters', roster, ctx);
      ConfinedKeepsLegal(entries, rosters, entries', rosters', {roster.teamId}, ctx);
    }
  }

  /** Giving an unowned player to a team, in an empty slot of its roster. */
  lemma AcquisitionShown(
    entries: seq<Entry>, entry: Entry, team: Id, at: Instant, before: seq<Slot>, targetSlotId: Id
  )
    requires EntryOf(entries, entry.id) == Some(entry) && !Owned(entry)
    requires forall p :: p in Players(before) <==> OwnedBy(entries, p, team)
    requires SlotsWithAssignment(before, targetSlotId, entry.id).Ok?
    ensures
      var entries' := ReplaceEntry(entries, WithOwnership(entry, Rostered, Some(team), at));
      var slots := SlotsWithAssignment(before, targetSlotId, entry.id).value;
      && EntryIds(entries') == EntryIds(entries)
      && OnlyTeamMoves(entries, entries', team)
      && (forall p :: p in Players(slots) <==> OwnedBy(entries', p, team))
      && (forall p :: p != entry.id ==> EntryOf(entries', p) == EntryOf(entries, p))
      && OwnedBy(entries', entry.id, team)
  {
    var updated := WithOwnership(entry, Rostered, Some(team), at);
    AssignedPlayers(before, targetSlotId, entry.id);
    assert EntryIds(ReplaceEntry(entries, updated)) == EntryIds(entries);
    forall p
      ensures EntryOf(ReplaceEntry(entries, updated), p) == if p == entry.id then Some(updated) else EntryOf(entries, p)
    {
      EntryReplaced(entries, updated, p);
    }
  }

  /** Releasing a player that a team owns, out of its slot. */
  lemma ReleaseShown(entries: seq<Entry>, entry: Entry, team: Id, at: Instant, before: seq<Slot>)
    requires EntryOf(entries, entry.id) == Some(entry) && entry.ownership.teamId == Some(team)
    requires forall p :: p in Players(before) <==> OwnedBy(entries, p, team)
    requires SlotsWithoutPlayer(before, entry.id).Ok?
    ensures
      var entries' := ReplaceEntry(entries, WithOwnership(entry, Released, None, at));
      var slots := SlotsWithoutPlayer(before, entry.id).value;
      && EntryIds(entries') == EntryIds(entries)
      && OnlyTeamMoves(entries, entries', team)
      && (forall p :: p in Players(slots) <==> OwnedBy(entries', p, team))
      && (forall p :: p != entry.id ==> EntryOf(entries', p) == EntryOf(entries, p))
      && OwnedBy(entries, entry.id, team)
      && (EntryOf(entries', entry.id).Some? && !Owned(EntryOf(entries', entry.id).value))
  {
    var updated := WithOwnership(entry, Released, None, at);
    RemainingPlayers(before, entry.id);
    assert EntryIds(ReplaceEntry(entries, updated)) == EntryIds(entries);
    forall p
      ensures EntryOf(ReplaceEntry(entries, updated), p) == if p == entry.id then Some(updated) else EntryOf(entries, p)
    {
      EntryReplaced(entries, updated, p);
    }
  }

  lemma AddedRoster(s: State, c: Command, ctx: Context) returns (roster: Snapshot)
    requires c.action.AddPlayer? && Mirrors(s.entries, s.rosters) && AddPlayerTo(s, c, ctx).Ok?
    ensures
      var m := AddPlayerTo(s, c, ctx).value;
      && m.rosters == ReplaceRoster(s.rosters, roster)
      && FitsTeam(s.entries, s.rosters, m.entries, roster)
      && PassesFor(m.entries, ctx, roster.teamId, roster.slots)
  {
    var a := c.action;
    var team := TeamOf(ctx.teams, a.teamId).value;
    var entry := EntryOf(s.entries, a.playerId).value;
    var previous := RosterOf(s.rosters, team.id).value;
    var slots := SlotsWithAssignment(previous.slots, a.targetSlotId, entry.id).value;
    var entries := ReplaceEntry(s.entries, WithOwnership(entry, Rostered, Some(team.id), c.submittedAt));
    forall p ensures p in Players(previous.slots) <==> OwnedBy(s.entries, p, team.id) {
      assert OnRoster(s.rosters, team.id, p) <==> p in Players(previous.slots);
    }
    AcquisitionShown(s.entries, entry, team.id, c.submittedAt, previous.slots, a.targetSlotId);
    SuccessorFacts(a.snapshotId, c.submittedAt, ctx, team, entries, previous, slots, c.authority);
    SuccessorPasses(a.snapshotId, c.submittedAt, ctx, team, entries, previous, slots, c.authority);
    roster := SuccessorRoster(a.snapshotId, c.submittedAt, ctx, team, entries, previous, slots, c.authority).value;
  }

  lemma DroppedRoster(s: State, c: Command, ctx: Context) returns (roster: Snapshot)
    requires c.action.DropPlayer? && Mirrors(s.entries, s.rosters) && DropPlayerFrom(s, c, ctx).Ok?
    ensures
      var m := DropPlayerFrom(s, c, ctx).value;
      && m.rosters == ReplaceRoster(s.rosters, roster)
      && FitsTeam(s.entries, s.rosters, m.entries, roster)
      && PassesFor(m.entries, ctx, roster.teamId, roster.slots)
  {
    var a := c.action;
    var team := TeamOf(ctx.teams, a.teamId).value;
    var entry := EntryOf(s.entries, a.playerId).value;
    var previous := RosterOf(s.rosters, team.id).value;
    var slots := SlotsWithoutPlayer(previous.slots, entry.id).value;
    var entries := ReplaceEntry(s.entries, WithOwnership(entry, Released, None, c.submittedAt));
    forall p ensures p in Players(previous.slots) <==> OwnedBy(s.entries, p, team.id) {
      assert OnRoster(s.rosters, team.id, p) <==> p in Players(previous.slots);
    }
    ReleaseShown(s.entries, entry, team.id, c.submittedAt, previous.slots);
    SuccessorFacts(a.snapshotId, c.submittedAt, ctx, team, entries, previous, slots, c.authority);
    SuccessorPasses(a.snapshotId, c.submittedAt, ctx, team, entries, previous, slots, c.authority);
    roster := SuccessorRoster(a.snapshotId, c.submittedAt, ctx, team, entries, previous, slots, c.authority).value;
  }

  /** Roster moves leave the waiver claims and the waiver priority alone. */
  lemma MovesLeaveClaims(s: State, c: Command, ctx: Context)
    requires c.action.AddPlayer? || c.action.DropPlayer? || c.action.LineupChange?
    requires Mutate(s, c, ctx).Ok?
    ensures Mutate(s, c, ctx).value.claims == s.claims && Mutate(s, c, ctx).value.priority == s.priority
  {
  }

  lemma TradesLeaveClaims(s: State, c: Command, ctx: Context)
    requires c.action.Trade? && TradePlayers(s, c, ctx).Ok?
    ensures TradePlayers(s, c, ctx).value.claims == s.claims && TradePlayers(s, c, ctx).value.priority == s.priority
  {
  }

  lemma AddKeeps(s: State, c: Command, ctx: Context)
    requires c.action.AddPlayer? && Mirrors(s.entries, s.rosters) && AddPlayerTo(s, c, ctx).Ok?
    ensures
      var m := AddPlayerTo(s, c, ctx).value;
      Keeps(s.entries, s.rosters, m.entries, m.rosters, ctx)
  {
    var roster := AddedRoster(s, c, ctx);
    OneTeamKeeps(s.entries, s.rosters, AddPlayerTo(s, c, ctx).value.entries, roster, ctx);
  }

  lemma DropKeeps(s: State, c: Command, ctx: Context)
    requires c.action.DropPlayer? && Mirrors(s.entries, s.rosters) && DropPlayerFrom(s, c, ctx).Ok?
    ensures
      var m := DropPlayerFrom(s, c, ctx).value;
      Keeps(s.entries, s.rosters, m.entries, m.rosters, ctx)
  {
    var roster := DroppedRoster(s, c, ctx);
    OneTeamKeeps(s.entries, s.rosters, DropPlayerFrom(s, c, ctx).value.entries, roster, ctx);
  }

  lemma ExchangeShown(before: seq<Slot>, outgoing: Id, targetSlotId: Id, incoming: Id)
    requires ExchangeSlots(before, outgoing, targetSlotId, incoming).Ok?
    ensures outgoing in Players(before)
    ensures Players(ExchangeSlots(before, outgoing, targetSlotId, incoming).value) ==
              Players(before) - {outgoing} + {incoming}
  {
    RemainingPlayers(before, outgoing);
    AssignedPlayers(SlotsWithoutPlayer(before, outgoing).value, targetSlotId, incoming);
  }

  ghost predicate TermsHold(entries: seq<Entry>, terms: Terms) {
    && EntryOf(entries, terms.firstPlayer.id) == Some(terms.firstPlayer)
    && EntryOf(entries, terms.secondPlayer.id) == Some(terms.secondPlayer)
    && terms.firstPlayer.id != terms.secondPlayer.id
    && terms.first.id != terms.second.id
    && terms.firstPlayer.ownership.teamId == Some(terms.first.id)
    && terms.secondPlayer.ownership.teamId == Some(terms.second.id)
  }

  lemma AgreedTermsHold(s: State, c: Command, ctx: Context)
    requires c.action.Trade? && AgreeTerms(s, c, ctx).Ok?
    ensures
      var terms := AgreeTerms(s, c, ctx).value;
      && TermsHold(s.entries, terms)
      && terms.first.id == c.action.firstTeamId && terms.second.id == c.action.secondTeamId
      && terms.firstPlayer.id == c.action.firstPlayerId && terms.secondPlayer.id == c.action.secondPlayerId
  {
  }

  lemma ExchangedEntry(entries: seq<Entry>, terms: Terms, at: Instant, p: Id)
    requires TermsHold(entries, terms)
    ensures EntryOf(Exchange(entries, terms, at), p) ==
            if p == terms.secondPlayer.id
            then Some(WithOwnership(terms.secondPlayer, Rostered, Some(terms.first.id), at))
            else if p == terms.firstPlayer.id
            then Some(WithOwnership(terms.firstPlayer, Rostered, Some(terms.second.id), at))
            else EntryOf(entries, p)
  {
    var moved := WithOwnership(terms.firstPlayer, Rostered, Some(terms.second.id), at);
    EntryReplaced(entries, moved, p);
    EntryReplaced(entries, moved, terms.secondPlayer.id);
    EntryReplaced(ReplaceEntry(entries, moved), WithOwnership(terms.secondPlayer, Rostered, Some(terms.first.id), at),
                  p);
  }

  lemma ExchangedOwners(entries: seq<Entry>, terms: Terms, at: Instant)
    requires TermsHold(entries, terms)
    requires forall p :: Teamed(entries, p)
    ensures
      var entries' := Exchange(entries, terms, at);
      var first, second := terms.firstPlayer.id, terms.secondPlayer.id;
      && EntryIds(entries') == EntryIds(entries)
      && (forall p :: p != first && p != second ==> EntryOf(entries', p) == EntryOf(entries, p))
      && (forall p, t :: OwnedBy(entries', p, t) <==>
            if p == second then t == terms.first.id
            else if p == first then t == terms.second.id
            else OwnedBy(entries, p, t))
      && (forall p :: Teamed(entries', p))
  {
    var entries' := Exchange(entries, terms, at);
    var first, second := terms.firstPlayer.id, terms.secondPlayer.id;
    forall p ensures p != first && p != second ==> EntryOf(entries', p) == EntryOf(entries, p) {
      ExchangedEntry(entries, terms, at, p);
    }
    forall p, t ensures OwnedBy(entries', p, t) <==>
            if p == second then t == terms.first.id
            else if p == first then t == terms.second.id
            else OwnedBy(entries, p, t)
    {
      ExchangedEntry(entries, terms, at, p);
    }
    forall p ensures Teamed(entries', p) {
      assert Teamed(entries, p);
      ExchangedEntry(entries, terms, at, p);
    }
  }

  lemma RostersReplacedTwice(rosters: seq<Snapshot>, first: Snapshot, second: Snapshot, t: Id)
    requires RosterOf(rosters, first.teamId).Some? && RosterOf(rosters, second.teamId).Some? &&
             first.teamId != second.teamId
    ensures RosterOf(ReplaceRoster(ReplaceRoster(rosters, first), second), t) ==
            if t == second.teamId then Some(second) else if t == first.teamId then Some(first) else RosterOf(rosters, t)
    ensures RosterTeams(ReplaceRoster(ReplaceRoster(rosters, first), second)) == RosterTeams(rosters)
  {
    RosterReplaced(rosters, first, t);
    RosterReplaced(ReplaceRoster(rosters, first), second, t);
  }

  /** Two rosters and two entries change, each in step with the other. */
  lemma SwapConfined(
    entries: seq<Entry>, rosters: seq<Snapshot>, entries': seq<Entry>, rosters': seq<Snapshot>,
    first: Id, second: Id, firstRoster: Snapshot, secondRoster: Snapshot
  )
    requires Mirrors(entries, rosters) && first != second && firstRoster.teamId != secondRoster.teamId
    requires EntryIds(entries') == EntryIds(entries) && RosterTeams(rosters') == RosterTeams(rosters)
    requires forall t :: RosterOf(rosters', t) ==
                         (if t == secondRoster.teamId then Some(secondRoster)
                          else if t == firstRoster.teamId then Some(firstRoster) else RosterOf(rosters, t))
    requires forall p :: p != first && p != second ==> EntryOf(entries', p) == EntryOf(entries, p)
    requires forall p, t :: OwnedBy(entries', p, t) <==>
                            (if p == second then t == firstRoster.teamId
                             else if p == first then t == secondRoster.teamId else OwnedBy(entries, p, t))
    requires forall p :: Teamed(entries', p)
    requires OwnedBy(entries, first, firstRoster.teamId) && OwnedBy(entries, second, secondRoster.teamId)
    requires Distinct(FilledIds(firstRoster.slots)) && Distinct(FilledIds(secondRoster.slots))
    requires forall p :: p in Players(firstRoster.slots) <==>
               p == second || (p != first && OwnedBy(entries, p, firstRoster.teamId))
    requires forall p :: p in Players(secondRoster.slots) <==>
               p == first || (p != second && OwnedBy(entries, p, secondRoster.teamId))
    ensures Confined(entries, rosters, entries', rosters', {firstRoster.teamId, secondRoster.teamId})
  {
  }

  lemma ExchangeConfined(
    entries: seq<Entry>, rosters: seq<Snapshot>, terms: Terms, firstRoster: Snapshot, secondRoster: Snapshot,
    at: Instant
  )
    requires Mirrors(entries, rosters) && TermsHold(entries, terms)
    requires firstRoster.teamId == terms.first.id && secondRoster.teamId == terms.second.id
    requires RosterOf(rosters, terms.first.id).Some? && RosterOf(rosters, terms.second.id).Some?
    requires OnRoster(rosters, terms.first.id, terms.firstPlayer.id) &&
             OnRoster(rosters, terms.second.id, terms.secondPlayer.id)
    requires Distinct(FilledIds(firstRoster.slots)) && Distinct(FilledIds(secondRoster.slots))
    requires Players(firstRoster.slots) ==
             Players(RosterOf(rosters, terms.first.id).value.slots) - {terms.firstPlayer.id} + {terms.secondPlayer.id}
    requires Players(secondRoster.slots) ==
             Players(RosterOf(rosters, terms.second.id).value.slots) - {terms.secondPlayer.id} + {terms.firstPlayer.id}
    ensures Confined(entries, rosters, Exchange(entries, terms, at),
                     ReplaceRoster(ReplaceRoster(rosters, firstRoster), secondRoster),
                     {terms.first.id, terms.second.id})
  {
    var f, s := terms.first.id, terms.second.id;
    var rosters' := ReplaceRoster(ReplaceRoster(rosters, firstRoster), secondRoster);
    forall t ensures RosterOf(rosters', t) ==
                     if t == s then Some(secondRoster) else if t == f then Some(firstRoster) else RosterOf(rosters, t)
    {
      RostersReplacedTwice(rosters, firstRoster, secondRoster, t);
    }
    RostersReplacedTwice(rosters, firstRoster, secondRoster, f);
    ExchangedOwners(entries, terms, at);
    forall p ensures p in Players(firstRoster.slots) <==>
                     p == terms.secondPlayer.id || (p != terms.firstPlayer.id && OwnedBy(entries, p, f))
    {
      assert OnRoster(rosters, f, p) <==> OwnedBy(entries, p, f);
    }
    forall p ensures p in Players(secondRoster.slots) <==>
                     p == terms.firstPlayer.id || (p != terms.secondPlayer.id && OwnedBy(entries, p, s))
    {
      assert OnRoster(rosters, s, p) <==> OwnedBy(entries, p, s);
    }
    SwapConfined(entries, rosters, Exchange(entries, terms, at), rosters', terms.firstPlayer.id, terms.secondPlayer.id,
                 firstRoster, secondRoster);
  }

  /** The two rosters that a trade builds. */
  lemma TradeRosters(s: State, c: Command, ctx: Context, terms: Terms) returns (first: Snapshot, second: Snapshot)
    requires c.action.Trade? && ExecuteTrade(s, c, ctx, terms).Ok?
    ensures RosterOf(s.rosters, terms.first.id).Some? && RosterOf(s.rosters, terms.second.id).Some?
    ensures
      var m := ExecuteTrade(s, c, ctx, terms).value;
      && m.entries == Exchange(s.entries, terms, c.action.tradeAt)
      && m.rosters == ReplaceRoster(ReplaceRoster(s.rosters, first), second)
      && (first.teamId == terms.first.id && second.teamId == terms.second.id)
      && (first.effectiveAt == c.action.tradeAt && second.effectiveAt == c.action.tradeAt)
      && first.effectiveAt > RosterOf(s.rosters, terms.first.id).value.effectiveAt
      && second.effectiveAt > RosterOf(s.rosters, terms.second.id).value.effectiveAt
      && Distinct(FilledIds(first.slots)) && Distinct(FilledIds(second.slots))
      && PassesFor(m.entries, ctx, first.teamId, first.slots)
      && PassesFor(m.entries, ctx, second.teamId, second.slots)
    ensures
      var firstPrevious, secondPrevious := RosterOf(s.rosters, terms.first.id).value,
                                           RosterOf(s.rosters, terms.second.id).value;
      && terms.firstPlayer.id in Players(firstPrevious.slots)
      && terms.secondPlayer.id in Players(secondPrevious.slots)
      && Players(first.slots) == Players(firstPrevious.slots) - {terms.firstPlayer.id} + {terms.secondPlayer.id}
      && Players(second.slots) == Players(secondPrevious.slots) - {terms.secondPlayer.id} + {terms.firstPlayer.id}
  {
    var a := c.action;
    var firstPrevious, secondPrevious := RosterOf(s.rosters, terms.first.id).value,
                                         RosterOf(s.rosters, terms.second.id).value;
    var firstSlots := ExchangeSlots(firstPrevious.slots, terms.firstPlayer.id, a.firstTargetSlotId,
                                    terms.secondPlayer.id).value;
    var secondSlots := ExchangeSlots(secondPrevious.slots, terms.secondPlayer.id, a.secondTargetSlotId,
                                     terms.firstPlayer.id).value;
    var entries := Exchange(s.entries, terms, a.tradeAt);
    ExchangeShown(firstPrevious.slots, terms.firstPlayer.id, a.firstTargetSlotId, terms.secondPlayer.id);
    ExchangeShown(secondPrevious.slots, terms.secondPlayer.id, a.secondTargetSlotId, terms.firstPlayer.id);
    first := SuccessorRoster(a.firstSnapshotId, a.tradeAt, ctx, terms.first, entries, firstPrevious, firstSlots,
                             c.authority).value;
    second := SuccessorRoster(a.secondSnapshotId, a.tradeAt, ctx, terms.second, entries, secondPrevious, secondSlots,
                              c.authority).value;
    SuccessorFacts(a.firstSnapshotId, a.tradeAt, ctx, terms.first, entries, firstPrevious, firstSlots, c.authority);
    SuccessorFacts(a.secondSnapshotId, a.tradeAt, ctx, terms.second, entries, secondPrevious, secondSlots, c.authority);
    SuccessorPasses(a.firstSnapshotId, a.tradeAt, ctx, terms.first, entries, firstPrevious, firstSlots, c.authority);
    SuccessorPasses(a.secondSnapshotId, a.tradeAt, ctx, terms.second, entries, secondPrevious, secondSlots,
                    c.authority);
  }

  lemma RebuiltTwo(entries: seq<Entry>, rosters: seq<Snapshot>, first: Snapshot, second: Snapshot, ctx: Context)
    requires RosterOf(rosters, first.teamId) == Some(first) && RosterOf(rosters, second.teamId) == Some(second)
    requires PassesFor(entries, ctx, first.teamId, first.slots)
    requires PassesFor(entries, ctx, second.teamId, second.slots)
    ensures RebuiltLegal(entries, rosters, {first.teamId, second.teamId}, ctx)
  {
    PassesMeansLegal(entries, ctx, first.teamId, first.slots);
    PassesMeansLegal(entries, ctx, second.teamId, second.slots);
  }

  lemma TwoReplacedLater(rosters: seq<Snapshot>, first: Snapshot, second: Snapshot)
    requires RosterOf(rosters, first.teamId).Some? && RosterOf(rosters, second.teamId).Some? &&
             first.teamId != second.teamId
    requires RosterOf(rosters, first.teamId).value.effectiveAt < first.effectiveAt
    requires RosterOf(rosters, second.teamId).value.effectiveAt < second.effectiveAt
    ensures Later(rosters, ReplaceRoster(ReplaceRoster(rosters, first), second))
  {
    var rosters' := ReplaceRoster(ReplaceRoster(rosters, first), second);
    forall t | RosterOf(rosters, t).Some?
      ensures RosterOf(rosters', t).Some?
      ensures RosterOf(rosters, t).value.effectiveAt <= RosterOf(rosters', t).value.effectiveAt
    {
      RostersReplacedTwice(rosters, first, second, t);
    }
  }

  lemma TwoTeamsKeep(
    entries: seq<Entry>, rosters: seq<Snapshot>, entries': seq<Entry>, first: Snapshot, second: Snapshot, ctx: Context
  )
    requires Mirrors(entries, rosters) && first.teamId != second.teamId
    requires RosterOf(rosters, first.teamId).Some? && RosterOf(rosters, second.teamId).Some?
    requires RosterOf(rosters, first.teamId).value.effectiveAt < first.effectiveAt
    requires RosterOf(rosters, second.teamId).value.effectiveAt < second.effectiveAt
    requires Confined(entries, rosters, entries', ReplaceRoster(ReplaceRoster(rosters, first), second),
                      {first.teamId, second.teamId})
    requires PassesFor(entries', ctx, first.teamId, first.slots) &&
             PassesFor(entries', ctx, second.teamId, second.slots)
    ensures Keeps(entries, rosters, entries', ReplaceRoster(ReplaceRoster(rosters, first), second), ctx)
  {
    var rosters' := ReplaceRoster(ReplaceRoster(rosters, first), second);
    var touched := {first.teamId, second.teamId};
    ConfinedKeepsMirrors(entries, rosters, entries', rosters', touched);
    TwoReplacedLater(rosters, first, second);
    if AllLegal(entries, rosters, ctx) {
      RostersReplacedTwice(rosters, first, second, first.teamId);
      RostersReplacedTwice(rosters, first, second, second.teamId);
      RebuiltTwo(entries', rosters', first, second, ctx);
      ConfinedKeepsLegal(entries, rosters, entries', rosters', touched, ctx);
    }
  }

  lemma ExchangeKeeps(
    entries: seq<Entry>, rosters: seq<Snapshot>, terms: Terms, first: Snapshot, second: Snapshot, at: Instant,
    ctx: Context
  )
    requires Mirrors(entries, rosters) && TermsHold(entries, terms)
    requires first.teamId == terms.first.id && second.teamId == terms.second.id
    requires RosterOf(rosters, first.teamId).Some? && RosterOf(rosters, second.teamId).Some?
    requires RosterOf(rosters, first.teamId).value.effectiveAt < first.effectiveAt
    requires RosterOf(rosters, second.teamId).value.effectiveAt < second.effectiveAt
    requires Distinct(FilledIds(first.slots)) && Distinct(FilledIds(second.slots))
    requires PassesFor(Exchange(entries, terms, at), ctx, first.teamId, first.slots)
    requires PassesFor(Exchange(entries, terms, at), ctx, second.teamId, second.slots)
    requires OnRoster(rosters, first.teamId, terms.firstPlayer.id) &&
             OnRoster(rosters, second.teamId, terms.secondPlayer.id)
    requires Players(first.slots) ==
             Players(RosterOf(rosters, first.teamId).value.slots) - {terms.firstPlayer.id} + {terms.secondPlayer.id}
    requires Players(second.slots) ==
             Players(RosterOf(rosters, second.teamId).value.slots) - {terms.secondPlayer.id} + {terms.firstPlayer.id}
    ensures Keeps(entries, rosters, Exchange(entries, terms, at), ReplaceRoster(ReplaceRoster(rosters, first), second),
                  ctx)
  {
    ExchangeConfined(entries, rosters, terms, first, second, at);
    TwoTeamsKeep(entries, rosters, Exchange(entries, terms, at), first, second, ctx);
  }

  lemma ExecutedKeeps(s: State, c: Command, ctx: Context, terms: Terms)
    requires c.action.Trade? && Mirrors(s.entries, s.rosters) && TermsHold(s.entries, terms)
    requires ExecuteTrade(s, c, ctx, terms).Ok?
    ensures
      var m := ExecuteTrade(s, c, ctx, terms).value;
      Keeps(s.entries, s.rosters, m.entries, m.rosters, ctx)
  {
    var first, second := TradeRosters(s, c, ctx, terms);
    ExchangeKeeps(s.entries, s.rosters, terms, first, second, c.action.tradeAt, ctx);
  }

  lemma TradeKeeps(s: State, c: Command, ctx: Context)
    requires c.action.Trade? && Mirrors(s.entries, s.rosters) && TradePlayers(s, c, ctx).Ok?
    ensures
      var m := TradePlayers(s, c, ctx).value;
      Keeps(s.entries, s.rosters, m.entries, m.rosters, ctx)
  {
    AgreedTermsHold(s, c, ctx);
    ExecutedKeeps(s, c, ctx, AgreeTerms(s, c, ctx).value);
  }

  /** The roster that a lineup change builds. */
  lemma LineupRoster(s: State, c: Command, ctx: Context) returns (roster: Snapshot)
    requires c.action.LineupChange? && ChangeLineup(s, c, ctx).Ok?
    ensures
      var m := ChangeLineup(s, c, ctx).value;
      && m.entries == s.entries
      && m.rosters == ReplaceRoster(s.rosters, roster)
      && (roster.teamId == c.action.teamId && roster.slots == c.action.slots)
      && RosterOf(s.rosters, roster.teamId).Some?
      && RosterOf(s.rosters, roster.teamId).value.effectiveAt < roster.effectiveAt
      && Distinct(FilledIds(roster.slots))
      && PassesFor(s.entries, ctx, roster.teamId, roster.slots)
  {
    var a := c.action;
    var team := TeamOf(ctx.teams, a.teamId).value;
    var previous := RosterOf(s.rosters, team.id).value;
    SuccessorFacts(a.snapshotId, c.submittedAt, ctx, team, s.entries, previous, a.slots, c.authority);
    SuccessorPasses(a.snapshotId, c.submittedAt, ctx, team, s.entries, previous, a.slots, c.authority);
    roster := SuccessorRoster(a.snapshotId, c.submittedAt, ctx, team, s.entries, previous, a.slots, c.authority).value;
  }

  lemma LineupKeeps(s: State, c: Command, ctx: Context)
    requires c.action.LineupChange? && Mirrors(s.entries, s.rosters) && ChangeLineup(s, c, ctx).Ok?
    requires RosterOf(s.rosters, c.action.teamId).Some?
    requires Players(c.action.slots) == Players(RosterOf(s.rosters, c.action.teamId).value.slots)
    ensures
      var m := ChangeLineup(s, c, ctx).value;
      Keeps(s.entries, s.rosters, m.entries, m.rosters, ctx)
  {
    var roster := LineupRoster(s, c, ctx);
    forall p ensures p in Players(roster.slots) <==> OwnedBy(s.entries, p, roster.teamId) {
      assert OnRoster(s.rosters, roster.teamId, p) <==> OwnedBy(s.entries, p, roster.teamId);
    }
    OneTeamKeeps(s.entries, s.rosters, s.entries, roster, ctx);
  }

  /** Of all commands only a lineup change can fail the closing check, and it does exactly when it changes who is on the
      team. */
  lemma LineupCheckExact(s: State, c: Command, ctx: Context)
    requires c.action.LineupChange? && Keyed(s.entries, s.rosters) && Mirrors(s.entries, s.rosters)
    requires ChangeLineup(s, c, ctx).Ok?
    ensures RosterOf(s.rosters, c.action.teamId).Some?
    ensures
      var m := ChangeLineup(s, c, ctx).value;
      CheckProjection(m.entries, m.rosters).Pass? <==>
      Players(c.action.slots) == Players(RosterOf(s.rosters, c.action.teamId).value.slots)
  {
    var team := c.action.teamId;
    var roster := LineupRoster(s, c, ctx);
    var m := ChangeLineup(s, c, ctx).value;
    RosterReplaced(s.rosters, roster, team);
    assert RosterTeams(m.rosters) == RosterTeams(s.rosters);
    CheckDecidesMirrors(m.entries, m.rosters);
    if Mirrors(m.entries, m.rosters) {
      forall p ensures p in Players(c.action.slots) <==> p in Players(RosterOf(s.rosters, team).value.slots) {
        assert OnRoster(m.rosters, team, p) <==> OwnedBy(s.entries, p, team);
        assert OnRoster(s.rosters, team, p) <==> OwnedBy(s.entries, p, team);
      }
    }
    if Players(c.action.slots) == Players(RosterOf(s.rosters, team).value.slots) {
      LineupKeeps(s, c, ctx);
    }
  }

  // ----- one awarded waiver claim -----

  /** Everything the batch proofs need to know about one award. */
  ghost predicate AwardFacts(
    entries: seq<Entry>, rosters: seq<Snapshot>, claim: Claim, at: Instant, entries': seq<Entry>,
    rosters': seq<Snapshot>
  )
  {
    && RosterOf(rosters, claim.teamId).Some?
    && RosterOf(rosters', claim.teamId).Some?
    && RosterOf(rosters, claim.teamId).value.effectiveAt < at
    && RosterOf(rosters', claim.teamId).value.effectiveAt == at
    && (EntryOf(entries, claim.playerId).Some? && !Owned(EntryOf(entries, claim.playerId).value))
    && OwnedBy(entries', claim.playerId, claim.teamId)
    && (forall t :: t != claim.teamId ==> RosterOf(rosters', t) == RosterOf(rosters, t))
    && (forall p :: p != claim.playerId && claim.conditionalDropId != Some(p) ==>
          EntryOf(entries', p) == EntryOf(entries, p))
    && (claim.conditionalDropId.Some? ==>
          OwnedBy(entries, claim.conditionalDropId.value, claim.teamId) &&
          Free(entries', claim.conditionalDropId.value))
  }

  /** The player is listed and nobody's. */
  ghost predicate Free(entries: seq<Entry>, playerId: Id) {
    EntryOf(entries, playerId).Some? && !Owned(EntryOf(entries, playerId).value)
  }

  /** The conditional drop, if any, leaves the team's view of itself consistent. */
  lemma RoomShown(entries: seq<Entry>, previous: Snapshot, claim: Claim, team: Team, at: Instant)
    requires MakeRoom(entries, previous, claim, team, at).Ok?
    requires forall p :: p in Players(previous.slots) <==> OwnedBy(entries, p, team.id)
    requires EntryOf(entries, claim.playerId).Some? && !Owned(EntryOf(entries, claim.playerId).value)
    ensures
      var room := MakeRoom(entries, previous, claim, team, at).value;
      && EntryIds(room.entries) == EntryIds(entries)
      && OnlyTeamMoves(entries, room.entries, team.id)
      && (forall p :: p in Players(room.slots) <==> OwnedBy(room.entries, p, team.id))
      && EntryOf(room.entries, claim.playerId) == EntryOf(entries, claim.playerId)
      && (forall p :: claim.conditionalDropId != Some(p) ==> EntryOf(room.entries, p) == EntryOf(entries, p))
      && (claim.conditionalDropId.Some? ==>
            OwnedBy(entries, claim.conditionalDropId.value, team.id) &&
            Free(room.entries, claim.conditionalDropId.value))
  {
    if claim.conditionalDropId.Some? {
      var dropped := EntryOf(entries, claim.conditionalDropId.value).value;
      ReleaseShown(entries, dropped, team.id, at, previous.slots);
    }
  }

  lemma TeamMovesCompose(entries: seq<Entry>, between: seq<Entry>, entries': seq<Entry>, team: Id)
    requires OnlyTeamMoves(entries, between, team) && OnlyTeamMoves(between, entries', team)
    ensures OnlyTeamMoves(entries, entries', team)
  {
    forall p | EntryOf(entries', p) != EntryOf(entries, p)
      ensures Teamed(entries', p) && forall t :: t != team ==> !OwnedBy(entries, p, t) && !OwnedBy(entries', p, t)
    {
      if EntryOf(between, p) == EntryOf(entries, p) {
        assert forall t :: OwnedBy(between, p, t) <==> OwnedBy(entries, p, t);
      } else if EntryOf(entries', p) == EntryOf(between, p) {
        assert forall t :: OwnedBy(entries', p, t) <==> OwnedBy(between, p, t);
        assert Teamed(between, p);
      }
    }
  }

  lemma OwnsItsRoster(entries: seq<Entry>, rosters: seq<Snapshot>, team: Id)
    requires Mirrors(entries, rosters) && RosterOf(rosters, team).Some?
    ensures forall p :: p in Players(RosterOf(rosters, team).value.slots) <==> OwnedBy(entries, p, team)
  {
    forall p ensures p in Players(RosterOf(rosters, team).value.slots) <==> OwnedBy(entries, p, team) {
      assert OnRoster(rosters, team, p) <==> p in Players(RosterOf(rosters, team).value.slots);
    }
  }

  /** The entries after an award, and how they differ from those before. */
  lemma AwardedEntries(
    entries: seq<Entry>, rosters: seq<Snapshot>, claim: Claim, ctx: Context, authority: Authority, at: Instant
  )
    requires Mirrors(entries, rosters) && Attempt(entries, rosters, claim, ctx, authority, at).Ok?
    ensures
      var award := Attempt(entries, rosters, claim, ctx, authority, at).value;
      && EntryIds(award.entries) == EntryIds(entries)
      && OnlyTeamMoves(entries, award.entries, claim.teamId)
      && (forall p :: p in Players(award.roster.slots) <==> OwnedBy(award.entries, p, claim.teamId))
      && (EntryOf(entries, claim.playerId).Some? && !Owned(EntryOf(entries, claim.playerId).value))
      && OwnedBy(award.entries, claim.playerId, claim.teamId)
      && (forall p :: p != claim.playerId && claim.conditionalDropId != Some(p) ==>
            EntryOf(award.entries, p) == EntryOf(entries, p))
      && (claim.conditionalDropId.Some? ==>
            OwnedBy(entries, claim.conditionalDropId.value, claim.teamId) &&
            Free(award.entries, claim.conditionalDropId.value))
  {
    var team := TeamOf(ctx.teams, claim.teamId).value;
    var target := EntryOf(entries, claim.playerId).value;
    var previous := RosterOf(rosters, team.id).value;
    var room := MakeRoom(entries, previous, claim, team, at).value;
    var acquired := ReplaceEntry(room.entries, WithOwnership(target, Rostered, Some(team.id), at));
    OwnsItsRoster(entries, rosters, team.id);
    RoomShown(entries, previous, claim, team, at);
    AcquisitionShown(room.entries, target, team.id, at, room.slots, claim.targetSlotId);
    TeamMovesCompose(entries, room.entries, acquired, team.id);
  }

  /** The roster that an award builds. */
  lemma AwardedRoster(
    entries: seq<Entry>, rosters: seq<Snapshot>, claim: Claim, ctx: Context, authority: Authority, at: Instant
  )
    requires Attempt(entries, rosters, claim, ctx, authority, at).Ok?
    ensures
      var award := Attempt(entries, rosters, claim, ctx, authority, at).value;
      && RosterOf(rosters, claim.teamId).Some?
      && award.rosters == ReplaceRoster(rosters, award.roster)
      && award.roster.teamId == claim.teamId
      && RosterOf(rosters, claim.teamId).value.effectiveAt < at == award.roster.effectiveAt
      && Distinct(FilledIds(award.roster.slots))
      && PassesFor(award.entries, ctx, claim.teamId, award.roster.slots)
  {
    var team := TeamOf(ctx.teams, claim.teamId).value;
    var target := EntryOf(entries, claim.playerId).value;
    var previous := RosterOf(rosters, team.id).value;
    var room := MakeRoom(entries, previous, claim, team, at).value;
    var acquired := ReplaceEntry(room.entries, WithOwnership(target, Rostered, Some(team.id), at));
    var slots := SlotsWithAssignment(room.slots, claim.targetSlotId, target.id).value;
    SuccessorFacts(claim.snapshotId, at, ctx, team, acquired, previous, slots, authority);
    SuccessorPasses(claim.snapshotId, at, ctx, team, acquired, previous, slots, authority);
  }

  lemma AwardKeeps(
    entries: seq<Entry>, rosters: seq<Snapshot>, claim: Claim, ctx: Context, authority: Authority, at: Instant
  )
    requires Mirrors(entries, rosters) && Attempt(entries, rosters, claim, ctx, authority, at).Ok?
    ensures
      var award := Attempt(entries, rosters, claim, ctx, authority, at).value;
      Keeps(entries, rosters, award.entries, award.rosters, ctx)
  {
    var award := Attempt(entries, rosters, claim, ctx, authority, at).value;
    AwardedEntries(entries, rosters, claim, ctx, authority, at);
    AwardedRoster(entries, rosters, claim, ctx, authority, at);
    OneTeamKeeps(entries, rosters, award.entries, award.roster, ctx);
  }

  lemma AwardShown(
    entries: seq<Entry>, rosters: seq<Snapshot>, claim: Claim, ctx: Context, authority: Authority, at: Instant
  )
    requires Mirrors(entries, rosters) && Attempt(entries, rosters, claim, ctx, authority, at).Ok?
    ensures
      var award := Attempt(entries, rosters, claim, ctx, authority, at).value;
      AwardFacts(entries, rosters, claim, at, award.entries, award.rosters)
  {
    var award := Attempt(entries, rosters, claim, ctx, authority, at).value;
    AwardedEntries(entries, rosters, claim, ctx, authority, at);
    AwardedRoster(entries, rosters, claim, ctx, authority, at);
    forall t
      ensures RosterOf(award.rosters, t) == if t == claim.teamId then Some(award.roster) else RosterOf(rosters, t)
    {
      RosterReplaced(rosters, award.roster, t);
    }
  }
}
