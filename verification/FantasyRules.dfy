/** Scoring models: validation and the scoring of one player's statistics (src/domain/fantasy-rules.ts). */
module FantasyRules {
  import opened Base
  import opened Errors
  import opened Ordering

  datatype Owner = Platform | Organization(id: Id) | League(id: Id) | Account(id: Id)

  datatype ModelLifecycle = Draft | Reviewed | Active | Deprecated | Retired

  datatype Category = Category(id: Id, sourceStatistic: Id, milliPointsPerUnit: int)

  datatype PositionRule = PositionRule(positionCode: Id, minimumAppearances: int, minimumPitchingOuts: int)

  datatype LineupSlotRule = LineupSlotRule(id: Id, count: int, eligiblePositionCodes: seq<Id>)

  datatype RosterRules = RosterRules(maximumRosterSize: int, benchSlots: int, lineupSlots: seq<LineupSlotRule>)

  /** Everything the content digest covers. */
  datatype Content = Content(
    modelId: Id,
    modelVersionId: Id,
    owner: Owner,
    version: int,
    statisticRegistryVersion: Id,
    categories: seq<Category>,
    positionRules: seq<PositionRule>,
    roster: RosterRules,
    completionGraceHours: int)

  /** The digest is free of collisions, so the content stands for its own digest. */
  type ModelDigest = Content

  datatype Model = Model(content: Content, lifecycle: ModelLifecycle, contentDigest: ModelDigest)

  // ----- validation -----

  function CategoryIds(categories: seq<Category>): seq<Id> {
    seq(|categories|, i requires 0 <= i < |categories| => categories[i].id)
  }

  function PositionCodes(rules: seq<PositionRule>): seq<Id> {
    seq(|rules|, i requires 0 <= i < |rules| => rules[i].positionCode)
  }

  function RuleIds(rules: seq<LineupSlotRule>): seq<Id> {
    seq(|rules|, i requires 0 <= i < |rules| => rules[i].id)
  }

  function RuleCount(rule: LineupSlotRule): int {
    rule.count
  }

  predicate ValidCategory(category: Category) {
    IsSafe(category.milliPointsPerUnit) && category.milliPointsPerUnit != 0
  }

  predicate ValidPositionRule(rule: PositionRule) {
    0 <= rule.minimumAppearances <= MAX_SAFE_INTEGER && 0 <= rule.minimumPitchingOuts <= MAX_SAFE_INTEGER
  }

  predicate ValidLineupRule(rule: LineupSlotRule, positions: seq<Id>) {
    && rule.eligiblePositionCodes != []
    && Distinct(rule.eligiblePositionCodes)
    && 1 <= rule.count <= MAX_SAFE_INTEGER
    && forall code :: code in rule.eligiblePositionCodes ==> code in positions
  }

  /** The lineup slots and the bench together fit on a roster. */
  predicate SlotsFit(roster: RosterRules) {
    var active := Sum(RuleCount, roster.lineupSlots);
    active <= MAX_SAFE_INTEGER && active + roster.benchSlots <= roster.maximumRosterSize
  }

  predicate ValidRoster(roster: RosterRules, positions: seq<Id>) {
    && 1 <= roster.maximumRosterSize <= MAX_SAFE_INTEGER
    && 0 <= roster.benchSlots <= MAX_SAFE_INTEGER
    && roster.lineupSlots != []
    && Distinct(RuleIds(roster.lineupSlots))
    && (forall rule :: rule in roster.lineupSlots ==> ValidLineupRule(rule, positions))
    && SlotsFit(roster)
  }

  predicate ValidContent(content: Content) {
    && 1 <= content.version <= MAX_SAFE_INTEGER
    && content.categories != []
    && Distinct(CategoryIds(content.categories))
    && (forall category :: category in content.categories ==> ValidCategory(category))
    && Distinct(PositionCodes(content.positionRules))
    && (forall rule :: rule in content.positionRules ==> ValidPositionRule(rule))
    && ValidRoster(content.roster, PositionCodes(content.positionRules))
    && 0 <= content.completionGraceHours <= 168
  }

  method ValidateCategories(categories: seq<Category>) returns (valid: bool)
    ensures valid <==>
              Distinct(CategoryIds(categories)) && forall category :: category in categories ==> ValidCategory(category)
  {
    ghost var ids := CategoryIds(categories);
    var categoryIds: set<Id> := {};
    for i := 0 to |categories|
      invariant categoryIds == set k | 0 <= k < i :: ids[k]
      invariant forall j, k :: 0 <= j < k < i ==> ids[j] != ids[k]
      invariant forall k :: 0 <= k < i ==> ValidCategory(categories[k])
    {
      var category := categories[i];
      assert ids[i] == category.id && category in categories;
      if category.id in categoryIds {
        return false;
      }
      categoryIds := categoryIds + {category.id};
      if !IsSafe(category.milliPointsPerUnit) || category.milliPointsPerUnit == 0 {
        return false;
      }
    }
    return true;
  }

  method ValidatePositionRules(rules: seq<PositionRule>) returns (valid: bool, positionCodes: set<Id>)
    ensures valid <==> Distinct(PositionCodes(rules)) && forall rule :: rule in rules ==> ValidPositionRule(rule)
    ensures valid ==> positionCodes == set code | code in PositionCodes(rules)
  {
    ghost var codes := PositionCodes(rules);
    positionCodes := {};
    for i := 0 to |rules|
      invariant positionCodes == set k | 0 <= k < i :: codes[k]
      invariant forall j, k :: 0 <= j < k < i ==> codes[j] != codes[k]
      invariant forall k :: 0 <= k < i ==> ValidPositionRule(rules[k])
    {
      var rule := rules[i];
      assert codes[i] == rule.positionCode;
      if rule.positionCode in positionCodes {
        return false, positionCodes;
      }
      positionCodes := positionCodes + {rule.positionCode};
      if !ValidPositionRule(rule) {
        return false, positionCodes;
      }
    }
    return true, positionCodes;
  }

  /** What the loop over the lineup slots checks of one slot. */
  method ValidateSlotRule(slot: LineupSlotRule, positions: seq<Id>, positionCodes: set<Id>) returns (valid: bool)
    requires positionCodes == set code | code in positions
    ensures valid <==> ValidLineupRule(slot, positions)
  {
    return
      && slot.eligiblePositionCodes != []
      && Distinct(slot.eligiblePositionCodes)
      && 1 <= slot.count <= MAX_SAFE_INTEGER
      && forall code :: code in slot.eligiblePositionCodes ==> code in positionCodes;
  }

  lemma SlotCounted(slots: seq<LineupSlotRule>, i: nat)
    requires i < |slots|
    ensures Sum(RuleCount, slots[..i + 1]) == Sum(RuleCount, slots[..i]) + slots[i].count
  {
    assert slots[..i + 1] == slots[..i] + [slots[i]];
    SumSnoc(RuleCount, slots[..i], slots[i]);
  }

  method ValidateLineupSlots(roster: RosterRules, positions: seq<Id>, positionCodes: set<Id>) returns (valid: bool)
    requires positionCodes == set code | code in positions
    ensures valid <==>
            && Distinct(RuleIds(roster.lineupSlots))
            && (forall rule :: rule in roster.lineupSlots ==> ValidLineupRule(rule, positions))
            && SlotsFit(roster)
  {
    var slots := roster.lineupSlots;
    ghost var ids := RuleIds(slots);
    var slotIds: set<Id> := {};
    var activeSlots := 0;
    for i := 0 to |slots|
      invariant slotIds == set k | 0 <= k < i :: ids[k]
      invariant forall j, k :: 0 <= j < k < i ==> ids[j] != ids[k]
      invariant forall k :: 0 <= k < i ==> ValidLineupRule(slots[k], positions)
      invariant activeSlots == Sum(RuleCount, slots[..i])
    {
      var slot := slots[i];
      assert ids[i] == slot.id && slot in slots;
      if slot.id in slotIds {
        return false;
      }
      slotIds := slotIds + {slot.id};
      var rule := ValidateSlotRule(slot, positions, positionCodes);
      if !rule {
        return false;
      }
      SlotCounted(slots, i);
      activeSlots := activeSlots + slot.count;
    }
    assert slots[..|slots|] == slots;
    return activeSlots <= MAX_SAFE_INTEGER && activeSlots + roster.benchSlots <= roster.maximumRosterSize;
  }

  /** The one-pass validation accepts exactly the contents that meet the declared rules. */
  method ValidateModel(content: Content) returns (valid: bool)
    ensures valid <==> ValidContent(content)
  {
    if !(1 <= content.version <= MAX_SAFE_INTEGER) || content.categories == [] {
      return false;
    }
    var categories := ValidateCategories(content.categories);
    if !categories {
      return false;
    }
    var positions, positionCodes := ValidatePositionRules(content.positionRules);
    if !positions {
      return false;
    }
    var roster := content.roster;
    if
      || !(1 <= roster.maximumRosterSize <= MAX_SAFE_INTEGER)
      || !(0 <= roster.benchSlots <= MAX_SAFE_INTEGER)
      || roster.lineupSlots == []
    {
      return false;
    }
    var slots := ValidateLineupSlots(roster, PositionCodes(content.positionRules), positionCodes);
    return slots && 0 <= content.completionGraceHours <= 168;
  }

  /** verifyFantasyScoringModel: the content is valid and the digest is its own. */
  function VerifyModel(model: Model): Check<Fault> {
    if !ValidContent(model.content) then Fail(RulesFault(InvalidModel))
    else Need(model.contentDigest == model.content, RulesFault(InvalidDigest))
  }
}
