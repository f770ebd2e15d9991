/** What a legal roster is, and that the one-pass validator accepts exactly the legal ones. */
module RosterLegality {
  import opened Base
  import opened Ordering
  import opened FantasyRules
  import opened FantasyDomain

  function Count<T>(p: T -> bool, s: seq<T>): nat {
    |Filter(p, s)|
  }

  function HasId(id: Id): Slot -> bool {
    (slot: Slot) => slot.id == id
  }

  function OnRule(id: Id): Slot -> bool {
    (slot: Slot) => slot.kind == ActiveSlot && slot.ruleId == Some(id)
  }

  function OnBench(): Slot -> bool {
    (slot: Slot) => slot.kind == BenchSlot
  }

  ghost function SlotIds(slots: seq<Slot>): set<Id> {
    set slot | slot in slots :: slot.id
  }

  /** The player entries that fill a slot. */
  ghost function Players(slots: seq<Slot>): set<Id> {
    set slot | slot in slots && slot.playerId.Some? :: slot.playerId.value
  }

  ghost predicate Identified(slot: Slot, entries: seq<Entry>, baseballPlayer: Id) {
    slot.playerId.Some? && EntryOf(entries, slot.playerId.value).Some? &&
    EntryOf(entries, slot.playerId.value).value.baseballPlayerId == baseballPlayer
  }

  ghost predicate Occupies(slot: Slot, entry: Entry, facts: RosterFacts) {
    && EntryBelongs(entry, facts)
    && match slot.kind
       case ActiveSlot => entry.ownership.state == Rostered && PositionFits(slot, entry, facts.roster)
       case BenchSlot => entry.ownership.state == Rostered
       case InactiveSlot => entry.ownership.state == Inactive
  }

  /** A slot taken by itself: an active slot names a known rule, and a player in it may be there. */
  ghost predicate SlotFits(slot: Slot, facts: RosterFacts) {
    && SlotShape(slot)
    && (slot.kind == ActiveSlot ==> RuleOf(facts.roster.lineupSlots, slot.ruleId.value).Some?)
    && (slot.playerId.Some? ==>
          var entry := EntryOf(facts.entries, slot.playerId.value);
          entry.Some? && Occupies(slot, entry.value, facts))
  }

  ghost predicate DistinctSlots(slots: seq<Slot>) {
    forall i, j :: 0 <= i < j < |slots| ==> slots[i].id != slots[j].id
  }

  ghost predicate RulesObeyed(slots: seq<Slot>, roster: RosterRules) {
    forall id :: Count(OnRule(id), slots) > 0 && RuleOf(roster.lineupSlots, id).Some? ==>
      Count(OnRule(id), slots) <= RuleOf(roster.lineupSlots, id).value.count
  }

  /** No player entry fills two slots. */
  ghost predicate OnePlace(slots: seq<Slot>) {
    forall s, t :: s in slots && t in slots && s.playerId.Some? && s.playerId == t.playerId ==> s == t
  }

  /** No baseball player fills two slots, not even through two entries. */
  ghost predicate OneIdentity(slots: seq<Slot>, entries: seq<Entry>) {
    forall s, t, player ::
      s in slots && t in slots && Identified(s, entries, player) && Identified(t, entries, player) ==> s == t
  }

  ghost predicate Arranged(slots: seq<Slot>, facts: RosterFacts) {
    && DistinctSlots(slots)
    && (forall slot :: slot in slots ==> SlotFits(slot, facts))
    && RulesObeyed(slots, facts.roster)
    && OnePlace(slots)
    && OneIdentity(slots, facts.entries)
  }

  ghost predicate Legal(slots: seq<Slot>, facts: RosterFacts) {
    && Arranged(slots, facts)
    && |Players(slots)| <= facts.roster.maximumRosterSize
    && Count(OnBench(), slots) <= facts.roster.benchSlots
  }

  // ----- the validator decides legality -----

  ghost predicate Tallied(tally: Tally, slots: seq<Slot>, entries: seq<Entry>) {
    && tally.slotIds == SlotIds(slots)
    && tally.players == Players(slots)
    && (forall player :: player in tally.baseballPlayers <==>
          exists slot :: slot in slots && Identified(slot, entries, player))
    && (forall id :: (if id in tally.active then tally.active[id] else 0) == Count(OnRule(id), slots))
    && tally.bench == Count(OnBench(), slots)
  }

  lemma CountSnoc<T>(p: T -> bool, s: seq<T>, x: T)
    ensures Count(p, s + [x]) == Count(p, s) + if p(x) then 1 else 0
  {
    FilterAppend(p, s, [x]);
  }

  lemma MembersSnoc(init: seq<Slot>, last: Slot)
    ensures forall s :: s in init + [last] <==> s in init || s == last
  {
  }

  /** What the last slot adds to an arrangement. */
  ghost predicate Extends(init: seq<Slot>, last: Slot, facts: RosterFacts) {
    && last.id !in SlotIds(init)
    && SlotFits(last, facts)
    && (last.kind == ActiveSlot && last.ruleId.Some? && RuleOf(facts.roster.lineupSlots, last.ruleId.value).Some? ==>
          Count(OnRule(last.ruleId.value), init) < RuleOf(facts.roster.lineupSlots, last.ruleId.value).value.count)
    && (last.playerId.Some? ==> last.playerId.value !in Players(init))
    && (forall s, player :: s in init && Identified(s, facts.entries, player) ==>
          !Identified(last, facts.entries, player))
  }

  lemma RulesSnoc(init: seq<Slot>, last: Slot, facts: RosterFacts)
    requires SlotFits(last, facts)
    ensures RulesObeyed(init + [last], facts.roster) <==>
            && RulesObeyed(init, facts.roster)
            && (last.kind == ActiveSlot ==>
                  Count(OnRule(last.ruleId.value), init) <
                    RuleOf(facts.roster.lineupSlots, last.ruleId.value).value.count)
  {
    forall id ensures Count(OnRule(id), init + [last]) == Count(OnRule(id), init) + if OnRule(id)(last) then 1 else 0 {
      CountSnoc(OnRule(id), init, last);
    }
    if RulesObeyed(init + [last], facts.roster) {
      forall id | Count(OnRule(id), init) > 0 && RuleOf(facts.roster.lineupSlots, id).Some?
        ensures Count(OnRule(id), init) <= RuleOf(facts.roster.lineupSlots, id).value.count
      {
        assert Count(OnRule(id), init + [last]) <= RuleOf(facts.roster.lineupSlots, id).value.count;
      }
    }
  }

  lemma ArrangedSnoc(init: seq<Slot>, last: Slot, facts: RosterFacts)
    ensures Arranged(init + [last], facts) <==> Arranged(init, facts) && Extends(init, last, facts)
  {
    var slots := init + [last];
    MembersSnoc(init, last);
    assert forall i :: 0 <= i < |init| ==> slots[i] == init[i];
    assert slots[|init|] == last;
    if SlotFits(last, facts) {
      RulesSnoc(init, last, facts);
    }
    if Arranged(slots, facts) {
      assert last in slots;
      assert last !in init;
      assert Extends(init, last, facts);
    }
  }

  /** One pass of the loop succeeds exactly when the slot extends the arrangement, and keeps the tally right. */
  lemma CheckLast(tally: Tally, init: seq<Slot>, last: Slot, facts: RosterFacts)
    requires SlotShape(last) && Tallied(tally, init, facts.entries)
    ensures
      var marked := CheckSlot(tally, last, facts);
      && (marked.Ok? && CheckOccupant(marked.value, last, facts).Ok? <==> Extends(init, last, facts))
  {
  }

  lemma TallyLast(tally: Tally, init: seq<Slot>, last: Slot, facts: RosterFacts)
    requires SlotShape(last) && Tallied(tally, init, facts.entries)
    requires CheckSlot(tally, last, facts).Ok?
    requires CheckOccupant(CheckSlot(tally, last, facts).value, last, facts).Ok?
    ensures Tallied(CheckOccupant(CheckSlot(tally, last, facts).value, last, facts).value, init + [last], facts.entries)
  {
    var next := CheckOccupant(CheckSlot(tally, last, facts).value, last, facts).value;
    var slots := init + [last];
    MembersSnoc(init, last);
    CountSnoc(OnBench(), init, last);
    forall id ensures (if id in next.active then next.active[id] else 0) == Count(OnRule(id), slots) {
      CountSnoc(OnRule(id), init, last);
    }
    forall player
      ensures player in next.baseballPlayers <==>
                exists slot :: slot in slots && Identified(slot, facts.entries, player)
    {
      if Identified(last, facts.entries, player) {
        assert last in slots;
      }
    }
  }

  lemma {:induction false} CheckSlotsDecides(slots: seq<Slot>, facts: RosterFacts)
    requires forall slot :: slot in slots ==> SlotShape(slot)
    ensures CheckSlots(slots, facts).Ok? <==> Arranged(slots, facts)
    ensures CheckSlots(slots, facts).Ok? ==> Tallied(CheckSlots(slots, facts).value, slots, facts.entries)
  {
    if slots != [] {
      var init, last := slots[..|slots| - 1], slots[|slots| - 1];
      assert slots == init + [last];
      CheckSlotsDecides(init, facts);
      ArrangedSnoc(init, last, facts);
      if Arranged(init, facts) {
        var tally := CheckSlots(init, facts).value;
        CheckLast(tally, init, last, facts);
        if Extends(init, last, facts) {
          TallyLast(tally, init, last, facts);
        }
      }
    }
  }

  /** The validator accepts a list of well-shaped slots exactly when it is legal. */
  lemma JudgeSlotsDecides(slots: seq<Slot>, facts: RosterFacts)
    requires forall slot :: slot in slots ==> SlotShape(slot)
    ensures JudgeSlots(slots, facts).Pass? <==> Legal(slots, facts)
  {
    CheckSlotsDecides(slots, facts);
  }

  // ----- acceptance does not depend on the order of the slots -----

  lemma NoneCounted(slots: seq<Slot>, id: Id)
    ensures Count(HasId(id), slots) == 0 <==> forall s :: s in slots ==> s.id != id
  {
    FilterMembers(HasId(id), slots);
    if Count(HasId(id), slots) > 0 {
      var s := Filter(HasId(id), slots)[0];
      assert s in Filter(HasId(id), slots);
      assert s in slots;
    }
  }

  lemma {:induction false} DistinctByCount(slots: seq<Slot>)
    ensures DistinctSlots(slots) <==> forall id :: Count(HasId(id), slots) <= 1
  {
    if slots != [] {
      var init, last := slots[..|slots| - 1], slots[|slots| - 1];
      assert slots == init + [last];
      DistinctByCount(init);
      forall id ensures Count(HasId(id), slots) == Count(HasId(id), init) + if id == last.id then 1 else 0 {
        CountSnoc(HasId(id), init, last);
      }
      NoneCounted(init, last.id);
      assert DistinctSlots(slots) <==> DistinctSlots(init) && Count(HasId(last.id), init) == 0;
    }
  }

  lemma CountPermutation<T>(p: T -> bool, s: seq<T>, t: seq<T>)
    requires multiset(s) == multiset(t)
    ensures Count(p, s) == Count(p, t)
  {
    FilterPermutation(p, s, t);
    assert |multiset(Filter(p, s))| == |multiset(Filter(p, t))|;
  }

  lemma LegalPermutation(s: seq<Slot>, t: seq<Slot>, facts: RosterFacts)
    requires multiset(s) == multiset(t) && Legal(s, facts)
    ensures Legal(t, facts)
  {
    assert forall slot :: slot in t <==> slot in multiset(t);
    assert forall slot :: slot in s <==> slot in multiset(s);
    DistinctByCount(s);
    DistinctByCount(t);
    forall id ensures Count(HasId(id), s) == Count(HasId(id), t) {
      CountPermutation(HasId(id), s, t);
    }
    forall id ensures Count(OnRule(id), s) == Count(OnRule(id), t) {
      CountPermutation(OnRule(id), s, t);
    }
    CountPermutation(OnBench(), s, t);
    assert Players(s) == Players(t);
  }

  /** Reordering the slots never changes whether the validator accepts them. */
  lemma JudgeSlotsIgnoresOrder(s: seq<Slot>, t: seq<Slot>, facts: RosterFacts)
    requires multiset(s) == multiset(t)
    requires forall slot :: slot in s ==> SlotShape(slot)
    ensures JudgeSlots(s, facts).Pass? <==> JudgeSlots(t, facts).Pass?
  {
    assert forall slot :: slot in t ==> slot in multiset(s);
    JudgeSlotsDecides(s, facts);
    JudgeSlotsDecides(t, facts);
    if Legal(s, facts) {
      LegalPermutation(s, t, facts);
    }
    if Legal(t, facts) {
      LegalPermutation(t, s, facts);
    }
  }

  // ----- the size check only ever stops rosters with inactive slots -----

  function OnSomeRule(rules: seq<LineupSlotRule>): Slot -> bool {
    (slot: Slot) => slot.kind == ActiveSlot && slot.ruleId.Some? && RuleOf(rules, slot.ruleId.value).Some?
  }

  function Everywhere(): Slot -> bool {
    (slot: Slot) => true
  }

  lemma {:induction false} CountUnion<T>(p: T -> bool, q: T -> bool, r: T -> bool, s: seq<T>)
    requires forall x :: x in s && p(x) ==> q(x) || r(x)
    ensures Count(p, s) <= Count(q, s) + Count(r, s)
  {
    if s != [] {
      CountUnion(p, q, r, s[1..]);
    }
  }

  lemma {:induction false} CountNone<T>(p: T -> bool, s: seq<T>)
    requires forall x :: x in s ==> !p(x)
    ensures Count(p, s) == 0
  {
    if s != [] {
      CountNone(p, s[1..]);
    }
  }

  lemma {:induction false} ActiveSlotsCounted(rules: seq<LineupSlotRule>, slots: seq<Slot>)
    requires forall rule :: rule in rules ==> 0 <= rule.count && Count(OnRule(rule.id), slots) <= rule.count
    ensures Count(OnSomeRule(rules), slots) <= Sum(RuleCount, rules)
  {
    if rules == [] {
      CountNone(OnSomeRule(rules), slots);
    } else {
      var init, last := rules[..|rules| - 1], rules[|rules| - 1];
      assert rules == init + [last];
      ActiveSlotsCounted(init, slots);
      assert last in rules;
      forall slot | slot in slots && OnSomeRule(rules)(slot) ensures OnSomeRule(init)(slot) || OnRule(last.id)(slot) {
        var rule := RuleOf(rules, slot.ruleId.value).value;
        assert rule in init || rule == last;
      }
      CountUnion(OnSomeRule(rules), OnSomeRule(init), OnRule(last.id), slots);
    }
  }

  lemma {:induction false} FilledAtMost(slots: seq<Slot>)
    ensures |Players(slots)| <= |slots|
  {
    if slots != [] {
      var init, last := slots[..|slots| - 1], slots[|slots| - 1];
      FilledAtMost(init);
      MembersSnoc(init, last);
      assert slots == init + [last];
      assert Players(slots) == Players(init) + if last.playerId.Some? then {last.playerId.value} else {};
    }
  }

  /** Under a valid model a roster without inactive slots is never too big: only its arrangement and bench can fail. */
  lemma SizeCheckNeverBinds(slots: seq<Slot>, facts: RosterFacts, positions: seq<Id>)
    requires ValidRoster(facts.roster, positions)
    requires forall slot :: slot in slots ==> slot.kind != InactiveSlot
    ensures Legal(slots, facts) <==> Arranged(slots, facts) && Count(OnBench(), slots) <= facts.roster.benchSlots
  {
    if Arranged(slots, facts) && Count(OnBench(), slots) <= facts.roster.benchSlots {
      var rules := facts.roster.lineupSlots;
      forall rule | rule in rules ensures 0 <= rule.count && Count(OnRule(rule.id), slots) <= rule.count {
        RuleOfUnique(rules, rule);
      }
      ActiveSlotsCounted(rules, slots);
      CountUnion(Everywhere(), OnSomeRule(rules), OnBench(), slots);
      CountAll(slots);
      FilledAtMost(slots);
    }
  }

  lemma {:induction false} CountAll(slots: seq<Slot>)
    ensures Count(Everywhere(), slots) == |slots|
  {
    if slots != [] {
      CountAll(slots[1..]);
    }
  }

  lemma RuleOfUnique(rules: seq<LineupSlotRule>, rule: LineupSlotRule)
    requires Distinct(RuleIds(rules)) && rule in rules
    ensures RuleOf(rules, rule.id) == Some(rule)
  {
    var found := RuleOf(rules, rule.id).value;
    var i :| 0 <= i < |rules| && rules[i] == rule;
    var j :| 0 <= j < |rules| && rules[j] == found;
    assert RuleIds(rules)[i] == RuleIds(rules)[j];
  }
}
