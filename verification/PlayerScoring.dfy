/** Scoring one player's verified statistics under a sealed model (src/domain/fantasy-rules.ts,
    scoreFantasyStatistics). */
module PlayerScoring {
  import opened Base
  import opened Errors
  import opened Ordering
  import opened FantasyRules

  datatype StatisticLineage = StatisticLineage(
    baseballRulesetVersionIds: seq<Id>,
    derivationVersion: int,
    rulesVersion: int,
    sourceRevision: int,
    correctionRevision: int,
    registryVersion: Id,
    isFinal: bool,
    isVerified: bool)

  datatype AccountAuthority = AccountAuthority(accountId: Id, referenceIds: seq<Id>)

  datatype StatisticSnapshot = StatisticSnapshot(
    accountId: Id,
    authority: AccountAuthority,
    values: map<Id, int>,
    lineage: StatisticLineage)

  datatype CategoryTotal = CategoryTotal(categoryId: Id, sourceStatistic: Id, units: int, milliPoints: int)

  datatype Score = Score(totalMilliPoints: int, categories: seq<CategoryTotal>)

  function Milli(category: CategoryTotal): int {
    category.milliPoints
  }

  predicate AuthorityMatches(authority: AccountAuthority, accountId: Id) {
    authority.accountId == accountId && authority.referenceIds != [] && Distinct(authority.referenceIds)
  }

  predicate LineageComplete(lineage: StatisticLineage) {
    && lineage.baseballRulesetVersionIds != []
    && Distinct(lineage.baseballRulesetVersionIds)
    && 1 <= lineage.derivationVersion <= MAX_SAFE_INTEGER
    && 1 <= lineage.rulesVersion <= MAX_SAFE_INTEGER
    && 0 <= lineage.sourceRevision <= MAX_SAFE_INTEGER
    && 0 <= lineage.correctionRevision <= MAX_SAFE_INTEGER
  }

  /** The guards before the statistics are read, in the code's order. */
  function CheckScorable(model: Model, snapshot: StatisticSnapshot): Check<Fault> {
    var content := model.content;
    var verified := VerifyModel(model);
    if verified.Fail? then verified
    else if model.lifecycle == Draft || model.lifecycle == Reviewed then
      Fail(RulesFault(ModelNotScorable))
    else if !AuthorityMatches(snapshot.authority, snapshot.accountId) ||
            (content.owner.Account? && content.owner.id != snapshot.accountId) then
      Fail(RulesFault(AccountNotAuthorized))
    else if !snapshot.lineage.isVerified || !snapshot.lineage.isFinal then
      Fail(RulesFault(UnverifiedStatistics))
    else if !LineageComplete(snapshot.lineage) then
      Fail(RulesFault(StatisticInvalid))
    else
      Need(snapshot.lineage.registryVersion == content.statisticRegistryVersion, RulesFault(StatisticRegistryMismatch))
  }

  /** One category on top of the score so far: every product and every partial total must be a safe integer. */
  function ScoreCategory(score: Score, category: Category, values: map<Id, int>): Result<Score, Fault> {
    var source := category.sourceStatistic;
    :- Need(source in values, RulesFault(StatisticUnavailable));
    var units := values[source];
    :- Need(0 <= units <= MAX_SAFE_INTEGER, RulesFault(StatisticInvalid));
    var milliPoints := units * category.milliPointsPerUnit;
    :- Need(IsSafe(milliPoints), RulesFault(StatisticInvalid));
    var total := score.totalMilliPoints + milliPoints;
    :- Need(IsSafe(total), RulesFault(StatisticInvalid));
    Ok(Score(total, score.categories + [CategoryTotal(category.id, category.sourceStatistic, units, milliPoints)]))
  }

  function ScoreCategories(categories: seq<Category>, values: map<Id, int>): Result<Score, Fault> {
    if categories == [] then Ok(Score(0, []))
    else
      var before :- ScoreCategories(categories[..|categories| - 1], values);
      ScoreCategory(before, categories[|categories| - 1], values)
  }

  function ScoreOf(model: Model, snapshot: StatisticSnapshot): Result<Score, Fault> {
    var guards := CheckScorable(model, snapshot);
    :- guards;
    ScoreCategories(model.content.categories, snapshot.values)
  }

  /** A category that fails ends the scoring. */
  lemma {:induction false} ScoringStops(categories: seq<Category>, n: nat, values: map<Id, int>)
    requires n <= |categories| && ScoreCategories(categories[..n], values).Err?
    ensures ScoreCategories(categories, values) == ScoreCategories(categories[..n], values)
  {
    if n == |categories| {
      assert categories[..n] == categories;
    } else {
      var init := categories[..|categories| - 1];
      assert init[..n] == categories[..n];
      ScoringStops(init, n, values);
    }
  }

  method ScoreStatistics(model: Model, snapshot: StatisticSnapshot) returns (score: Result<Score, Fault>)
    ensures score == ScoreOf(model, snapshot)
  {
    var guards := CheckScorable(model, snapshot);
    if guards.Fail? {
      return Err(guards.error);
    }
    var categories, values := model.content.categories, snapshot.values;
    var totalMilliPoints := 0;
    var scores: seq<CategoryTotal> := [];
    for i := 0 to |categories|
      invariant ScoreCategories(categories[..i], values) == Ok(Score(totalMilliPoints, scores))
    {
      var category := categories[i];
      assert categories[..i + 1][..i] == categories[..i];
      if category.sourceStatistic !in values {
        ScoringStops(categories, i + 1, values);
        return Err(RulesFault(StatisticUnavailable));
      }
      var units := values[category.sourceStatistic];
      var milliPoints := units * category.milliPointsPerUnit;
      if !(0 <= units <= MAX_SAFE_INTEGER) || !IsSafe(milliPoints) || !IsSafe(totalMilliPoints + milliPoints) {
        ScoringStops(categories, i + 1, values);
        return Err(RulesFault(StatisticInvalid));
      }
      totalMilliPoints := totalMilliPoints + milliPoints;
      scores := scores + [CategoryTotal(category.id, category.sourceStatistic, units, milliPoints)];
    }
    assert categories[..|categories|] == categories;
    return Ok(Score(totalMilliPoints, scores));
  }

  // ----- what a score is -----

  /** A line of totals belongs to a category and pays its weight for each unit. */
  predicate PaysFor(total: CategoryTotal, category: Category) {
    && total.categoryId == category.id
    && total.sourceStatistic == category.sourceStatistic
    && total.milliPoints == total.units * category.milliPointsPerUnit
  }

  ghost predicate Aligned(totals: seq<CategoryTotal>, categories: seq<Category>) {
    |totals| == |categories| && forall i :: 0 <= i < |totals| ==> PaysFor(totals[i], categories[i])
  }

  function Worth(values: map<Id, int>): Category -> int {
    (category: Category) =>
      if category.sourceStatistic in values then values[category.sourceStatistic] * category.milliPointsPerUnit else 0
  }

  ghost predicate Countable(category: Category, values: map<Id, int>) {
    && category.sourceStatistic in values
    && 0 <= values[category.sourceStatistic] <= MAX_SAFE_INTEGER
    && IsSafe(Worth(values)(category))
  }

  ghost predicate SafeUpTo(categories: seq<Category>, values: map<Id, int>, n: nat)
    requires n <= |categories|
  {
    IsSafe(Sum(Worth(values), categories[..n]))
  }

  /** Every category can be counted, and no partial total leaves the safe integers. */
  ghost predicate WithinBounds(categories: seq<Category>, values: map<Id, int>) {
    && (forall i :: 0 <= i < |categories| ==> Countable(categories[i], values))
    && forall n :: 0 <= n <= |categories| ==> SafeUpTo(categories, values, n)
  }

  lemma BoundsSnoc(init: seq<Category>, last: Category, values: map<Id, int>)
    ensures WithinBounds(init + [last], values) <==>
            && WithinBounds(init, values)
            && Countable(last, values)
            && IsSafe(Sum(Worth(values), init) + Worth(values)(last))
  {
    var all := init + [last];
    SumSnoc(Worth(values), init, last);
    assert all[..|all|] == all && init[..|init|] == init;
    forall n | 0 <= n <= |init| ensures SafeUpTo(all, values, n) <==> SafeUpTo(init, values, n) {
      assert all[..n] == init[..n];
    }
    assert SafeUpTo(all, values, |all|) <==> IsSafe(Sum(Worth(values), init) + Worth(values)(last));
    forall i | 0 <= i < |init| ensures Countable(all[i], values) <==> Countable(init[i], values) {
    }
    assert Countable(all[|init|], values) <==> Countable(last, values);
    if WithinBounds(all, values) {
      forall i | 0 <= i < |init| ensures Countable(init[i], values) {
        assert Countable(all[i], values);
      }
      forall n | 0 <= n <= |init| ensures SafeUpTo(init, values, n) {
        assert SafeUpTo(all, values, n);
      }
    }
  }

  lemma CategoryScored(before: Score, category: Category, values: map<Id, int>)
    ensures ScoreCategory(before, category, values).Ok? <==>
            Countable(category, values) && IsSafe(before.totalMilliPoints + Worth(values)(category))
    ensures ScoreCategory(before, category, values).Ok? ==>
              var total := CategoryTotal(category.id, category.sourceStatistic, values[category.sourceStatistic],
                                         Worth(values)(category));
              ScoreCategory(before, category, values).value ==
                Score(before.totalMilliPoints + Worth(values)(category), before.categories + [total])
  {
  }

  /** Scoring succeeds exactly within the bounds, and then adds up units times weight. */
  lemma {:induction false} ScoreIsWeightedSum(categories: seq<Category>, values: map<Id, int>)
    ensures ScoreCategories(categories, values).Ok? <==> WithinBounds(categories, values)
    ensures ScoreCategories(categories, values).Ok? ==>
              var score := ScoreCategories(categories, values).value;
              && Aligned(score.categories, categories)
              && (forall i :: 0 <= i < |categories| ==>
                    score.categories[i].units == values[categories[i].sourceStatistic])
              && score.totalMilliPoints == Sum(Worth(values), categories) == Sum(Milli, score.categories)
  {
    if categories != [] {
      var init, last := categories[..|categories| - 1], categories[|categories| - 1];
      assert categories == init + [last];
      ScoreIsWeightedSum(init, values);
      BoundsSnoc(init, last, values);
      if ScoreCategories(init, values).Ok? {
        var before := ScoreCategories(init, values).value;
        CategoryScored(before, last, values);
        if Countable(last, values) {
          SumSnoc(Milli, before.categories,
                  CategoryTotal(last.id, last.sourceStatistic, values[last.sourceStatistic], Worth(values)(last)));
        }
        SumSnoc(Worth(values), init, last);
      }
    } else {
      assert categories[..0] == [] && SafeUpTo(categories, values, 0);
    }
  }
}
