/** Leagues, teams, player entries and roster snapshots (src/domain/fantasy-domain.ts). */
module FantasyDomain {
  import opened Base
  import opened Errors
  import opened FantasyRules

  // ----- authority -----

  datatype Capability = LeagueManage | LeagueActivate | TeamManage | RosterManage | ScoringCalculate

  datatype AuthoritySource = AccountPermission | LeagueDelegation

  datatype Scope = AccountScope | LeagueScope(leagueId: Id) | TeamScope(leagueId: Id, teamId: Id)

  datatype Authority = Authority(
    accountId: Id,
    actorId: Id,
    source: AuthoritySource,
    capability: Capability,
    scope: Scope,
    referenceIds: seq<Id>,
    authorizedAt: Instant)

  predicate ScopeAllows(scope: Scope, leagueId: Id, teamId: Option<Id>) {
    match scope
    case AccountScope => true
    case LeagueScope(league) => league == leagueId
    case TeamScope(league, team) => league == leagueId && teamId == Some(team)
  }

  /** assertFantasyAuthority, for a command that names its league. */
  function AssertAuthority(
    authority: Authority, accountId: Id, capability: Capability, leagueId: Id, teamId: Option<Id>
  ): Check<Fault>
  {
    if authority.referenceIds == [] || !Distinct(authority.referenceIds) then
      Fail(DomainFault(DomainCode.InvalidInput))
    else if authority.accountId != accountId then
      Fail(DomainFault(DomainCode.AccountMismatch))
    else if authority.capability != capability then
      Fail(DomainFault(DomainCode.AuthorizationRequired))
    else if !ScopeAllows(authority.scope, leagueId, teamId) then
      Fail(DomainFault(ScopeMismatch))
    else if authority.source == LeagueDelegation && |authority.referenceIds| < 3 then
      Fail(DomainFault(DomainCode.AuthorizationRequired))
    else
      Need(capability != LeagueActivate || |authority.referenceIds| >= 2, DomainFault(DomainCode.AuthorizationRequired))
  }

  // ----- leagues, teams, entries, rosters -----

  datatype RulesBinding = RulesBinding(
    modelId: Id,
    modelVersionId: Id,
    modelVersion: int,
    modelDigest: ModelDigest,
    modelOwner: Owner,
    statisticRegistryVersion: Id)

  function BindingOf(model: Model): RulesBinding {
    RulesBinding(
      model.content.modelId,
      model.content.modelVersionId,
      model.content.version,
      model.contentDigest,
      model.content.owner,
      model.content.statisticRegistryVersion)
  }

  predicate SameRules(left: RulesBinding, right: RulesBinding) {
    left.modelVersionId == right.modelVersionId && left.modelDigest == right.modelDigest
  }

  datatype LeagueLifecycle = Draft | Active | Completed | Archived

  datatype League = League(id: Id, accountId: Id, rules: RulesBinding, lifecycle: LeagueLifecycle)

  datatype TeamLifecycle = Draft | Active | Withdrawn | Archived

  datatype Team = Team(id: Id, accountId: Id, leagueId: Id, ownerMembershipId: Id, lifecycle: TeamLifecycle)

  datatype Eligibility = Eligibility(modelVersionId: Id, modelDigest: ModelDigest, positionCodes: seq<Id>)

  datatype OwnershipState = Available | Rostered | Inactive | Released

  datatype Ownership = Ownership(state: OwnershipState, teamId: Option<Id>, revision: int, effectiveAt: Instant)

  datatype Entry = Entry(
    id: Id,
    accountId: Id,
    leagueId: Id,
    baseballPlayerId: Id,
    eligibility: Eligibility,
    ownership: Ownership)

  predicate Owned(entry: Entry) {
    entry.ownership.state == Rostered || entry.ownership.state == Inactive
  }

  datatype SlotKind = ActiveSlot | BenchSlot | InactiveSlot

  datatype Slot = Slot(id: Id, kind: SlotKind, ruleId: Option<Id>, playerId: Option<Id>)

  datatype Snapshot = Snapshot(
    id: Id,
    accountId: Id,
    leagueId: Id,
    teamId: Id,
    revision: int,
    previousId: Option<Id>,
    effectiveAt: Instant,
    rules: RulesBinding,
    slots: seq<Slot>)

  function EntryOf(entries: seq<Entry>, id: Id): (entry: Option<Entry>)
    ensures entry.Some? ==> entry.value in entries && entry.value.id == id
    ensures entry.None? ==> forall e :: e in entries ==> e.id != id
  {
    if entries == [] then None
    else if entries[0].id == id then Some(entries[0])
    else EntryOf(entries[1..], id)
  }

  function EntryIds(entries: seq<Entry>): seq<Id> {
    seq(|entries|, i requires 0 <= i < |entries| => entries[i].id)
  }

  function RuleOf(rules: seq<LineupSlotRule>, id: Id): (rule: Option<LineupSlotRule>)
    ensures rule.Some? ==> rule.value in rules && rule.value.id == id
    ensures rule.None? ==> forall r :: r in rules ==> r.id != id
  {
    if rules == [] then None
    else if rules[0].id == id then Some(rules[0])
    else RuleOf(rules[1..], id)
  }

  // ----- the roster validator -----

  /** What a list of slots is judged against. */
  datatype RosterFacts = RosterFacts(accountId: Id, leagueId: Id, teamId: Id, rules: RulesBinding, roster: RosterRules,
                                     entries: seq<Entry>)

  /** The sets, the map and the counter that the validator's loop keeps. */
  datatype Tally = Tally(slotIds: set<Id>, players: set<Id>, baseballPlayers: set<Id>, active: map<Id, nat>, bench: nat)

  const EmptyTally := Tally({}, {}, {}, map[], 0)

  predicate SlotShape(slot: Slot) {
    slot.kind == ActiveSlot <==> slot.ruleId.Some?
  }

  /** The entry belongs to this team and league and was judged eligible under the league's rules. */
  predicate EntryBelongs(entry: Entry, facts: RosterFacts) {
    && entry.accountId == facts.accountId
    && entry.leagueId == facts.leagueId
    && entry.eligibility.modelVersionId == facts.rules.modelVersionId
    && entry.eligibility.modelDigest == facts.rules.modelDigest
    && entry.ownership.teamId == Some(facts.teamId)
    && Owned(entry)
  }

  predicate PositionFits(slot: Slot, entry: Entry, roster: RosterRules) {
    slot.ruleId.Some? &&
    var rule := RuleOf(roster.lineupSlots, slot.ruleId.value);
    rule.Some? && exists code :: code in rule.value.eligiblePositionCodes && code in entry.eligibility.positionCodes
  }

  function RosterConflict(): Fault {
    DomainFault(DomainCode.RosterConflict)
  }

  /** The first half of one pass of the loop: the slot itself. */
  function CheckSlot(tally: Tally, slot: Slot, facts: RosterFacts): Result<Tally, Fault> {
    if slot.id in tally.slotIds then Err(RosterConflict())
    else
      var marked := tally.(
        slotIds := tally.slotIds + {slot.id},
        bench := if slot.kind == BenchSlot then tally.bench + 1 else tally.bench);
      if slot.kind != ActiveSlot || slot.ruleId.None? then Ok(marked)
      else
        var id := slot.ruleId.value;
        var rule := RuleOf(facts.roster.lineupSlots, id);
        var count := (if id in tally.active then tally.active[id] else 0) + 1;
        if rule.None? || count > rule.value.count then Err(RosterConflict())
        else Ok(marked.(active := tally.active[id := count]))
  }

  /** The second half: the player in the slot. */
  function CheckOccupant(tally: Tally, slot: Slot, facts: RosterFacts): Result<Tally, Fault> {
    if slot.playerId.None? then Ok(tally)
    else
      var player := slot.playerId.value;
      var entry := EntryOf(facts.entries, player);
      if player in tally.players then Err(RosterConflict())
      else if entry.None? || !EntryBelongs(entry.value, facts) then Err(RosterConflict())
      else if entry.value.baseballPlayerId in tally.baseballPlayers then Err(RosterConflict())
      else if slot.kind == ActiveSlot &&
              (entry.value.ownership.state != Rostered || !PositionFits(slot, entry.value, facts.roster)) then
        Err(DomainFault(PositionIneligible))
      else if slot.kind == BenchSlot && entry.value.ownership.state != Rostered then Err(RosterConflict())
      else if slot.kind == InactiveSlot && entry.value.ownership.state != Inactive then Err(RosterConflict())
      else Ok(tally.(
                players := tally.players + {player},
                baseballPlayers := tally.baseballPlayers + {entry.value.baseballPlayerId}))
  }

  function CheckSlots(slots: seq<Slot>, facts: RosterFacts): Result<Tally, Fault> {
    if slots == [] then Ok(EmptyTally)
    else
      var tally :- CheckSlots(slots[..|slots| - 1], facts);
      var marked :- CheckSlot(tally, slots[|slots| - 1], facts);
      CheckOccupant(marked, slots[|slots| - 1], facts)
  }

  predicate WithinLimits(tally: Tally, roster: RosterRules) {
    |tally.players| <= roster.maximumRosterSize && tally.bench <= roster.benchSlots
  }

  /** The loop over the slots and the size check after it. */
  function JudgeSlots(slots: seq<Slot>, facts: RosterFacts): Check<Fault> {
    match CheckSlots(slots, facts)
    case Err(fault) => Fail(fault)
    case Ok(tally) => Need(WithinLimits(tally, facts.roster), RosterConflict())
  }

  method JudgeSlotsInOnePass(slots: seq<Slot>, facts: RosterFacts) returns (verdict: Check<Fault>)
    ensures verdict == JudgeSlots(slots, facts)
  {
    var tally := EmptyTally;
    for i := 0 to |slots|
      invariant CheckSlots(slots[..i], facts) == Ok(tally)
    {
      assert slots[..i + 1][..i] == slots[..i];
      var marked := CheckSlot(tally, slots[i], facts);
      if marked.Err? {
        CheckSlotsStops(slots, i + 1, facts);
        return Fail(marked.error);
      }
      var next := CheckOccupant(marked.value, slots[i], facts);
      if next.Err? {
        CheckSlotsStops(slots, i + 1, facts);
        return Fail(next.error);
      }
      tally := next.value;
    }
    assert slots[..|slots|] == slots;
    return Need(WithinLimits(tally, facts.roster), RosterConflict());
  }

  /** An error in a prefix is the error of the whole list. */
  lemma {:induction false} CheckSlotsStops(slots: seq<Slot>, n: nat, facts: RosterFacts)
    requires n <= |slots| && CheckSlots(slots[..n], facts).Err?
    ensures CheckSlots(slots, facts) == CheckSlots(slots[..n], facts)
    decreases |slots|
  {
    if n < |slots| {
      var init := slots[..|slots| - 1];
      assert init[..n] == slots[..n];
      CheckSlotsStops(init, n, facts);
    } else {
      assert slots[..n] == slots;
    }
  }

  // ----- roster snapshots -----

  datatype SnapshotInput = SnapshotInput(
    id: Id,
    accountId: Id,
    leagueId: Id,
    teamId: Id,
    revision: int,
    previousId: Option<Id>,
    effectiveAt: Instant,
    slots: seq<Slot>)

  function FactsFor(
    accountId: Id, leagueId: Id, teamId: Id, league: League, model: Model, entries: seq<Entry>
  ): RosterFacts
  {
    RosterFacts(accountId, leagueId, teamId, league.rules, model.content.roster, entries)
  }

  predicate WellShaped(slots: seq<Slot>) {
    forall slot :: slot in slots ==> SlotShape(slot)
  }

  /** The snapshot starts a chain, or follows its predecessor by one revision and at a later instant. */
  predicate Follows(input: SnapshotInput, previous: Option<Snapshot>, rules: RulesBinding) {
    match previous
    case None => input.revision == 0 && input.previousId == None
    case Some(last) =>
      && last.accountId == input.accountId
      && last.leagueId == input.leagueId
      && last.teamId == input.teamId
      && input.revision == last.revision + 1
      && input.previousId == Some(last.id)
      && SameRules(last.rules, rules)
      && input.effectiveAt > last.effectiveAt
  }

  predicate SameAncestry(input: SnapshotInput, league: League, team: Team) {
    && input.accountId == league.accountId == team.accountId
    && input.leagueId == league.id == team.leagueId
    && input.teamId == team.id
  }

  /** The checks of createFantasyRosterSnapshot that come before its loop. */
  function CheckSnapshot(
    input: SnapshotInput, league: League, team: Team, model: Model,
    entries: seq<Entry>, authority: Authority, previous: Option<Snapshot>
  ): Check<Fault>
  {
    if input.revision < 0 || !WellShaped(input.slots) then
      Fail(DomainFault(DomainCode.InvalidInput))
    else
      var authorized := AssertAuthority(authority, input.accountId, RosterManage, input.leagueId, Some(input.teamId));
      if authorized.Fail? then authorized
      else if !SameAncestry(input, league, team) then
        Fail(DomainFault(DomainCode.AccountMismatch))
      else if league.lifecycle != LeagueLifecycle.Active || team.lifecycle != TeamLifecycle.Active then
        Fail(DomainFault(HistoryConflict))
      else if VerifyModel(model).Fail? then VerifyModel(model)
      else if league.rules != BindingOf(model) then
        Fail(DomainFault(DomainCode.RulesMismatch))
      else if !Follows(input, previous, league.rules) then
        Fail(DomainFault(HistoryConflict))
      else Need(Distinct(EntryIds(entries)), RosterConflict())
  }

  function SnapshotFrom(input: SnapshotInput, model: Model): Snapshot {
    Snapshot(input.id, input.accountId, input.leagueId, input.teamId, input.revision, input.previousId,
             input.effectiveAt, BindingOf(model), input.slots)
  }

  function CreateSnapshot(
    input: SnapshotInput, league: League, team: Team, model: Model,
    entries: seq<Entry>, authority: Authority, previous: Option<Snapshot>
  ): Result<Snapshot, Fault>
  {
    var facts := FactsFor(input.accountId, input.leagueId, input.teamId, league, model, entries);
    :- CheckSnapshot(input, league, team, model, entries, authority, previous);
    :- JudgeSlots(input.slots, facts);
    Ok(SnapshotFrom(input, model))
  }

  method CreateRosterSnapshot(
    input: SnapshotInput, league: League, team: Team, model: Model,
    entries: seq<Entry>, authority: Authority, previous: Option<Snapshot>
  ) returns (snapshot: Result<Snapshot, Fault>)
    ensures snapshot == CreateSnapshot(input, league, team, model, entries, authority, previous)
  {
    var ready := CheckSnapshot(input, league, team, model, entries, authority, previous);
    if ready.Fail? {
      return Err(ready.error);
    }
    var facts := FactsFor(input.accountId, input.leagueId, input.teamId, league, model, entries);
    var verdict := JudgeSlotsInOnePass(input.slots, facts);
    if verdict.Fail? {
      return Err(verdict.error);
    }
    return Ok(SnapshotFrom(input, model));
  }
}
