/** Scoring is linear: weights, categories and players add up to the same team total. */
module TeamPeriodTheorems {
  import opened Base
  import opened Errors
  import opened Ordering
  import opened FantasyRules
  import opened FantasyDomain
  import opened PlayerScoring
  import opened TeamPeriods

  // ----- the running category totals -----

  ghost predicate Added(sums: seq<CategoryTotal>, totals: seq<CategoryTotal>, scored: seq<CategoryTotal>, n: nat) {
    && |sums| == |totals| == |scored| && n <= |totals|
    && forall i :: 0 <= i < |totals| ==>
         sums[i] ==
         if i < n
         then totals[i].(units := totals[i].units + scored[i].units,
                         milliPoints := totals[i].milliPoints + scored[i].milliPoints)
         else totals[i]
  }

  lemma {:induction false} PlaceIsOwn(totals: seq<CategoryTotal>, categories: seq<Category>, k: nat)
    requires Distinct(CategoryIds(categories)) && |totals| == |categories| && k < |totals|
    requires forall i :: 0 <= i < |totals| ==> totals[i].categoryId == categories[i].id
    ensures PlaceOf(totals, categories[k].id) == Some(k)
  {
    var place := PlaceOf(totals, categories[k].id);
    assert totals[k].categoryId == categories[k].id;
    assert CategoryIds(categories)[place.value] == CategoryIds(categories)[k];
  }

  ghost predicate Named(totals: seq<CategoryTotal>, categories: seq<Category>) {
    |totals| == |categories| &&
    forall i :: 0 <= i < |totals| ==>
      totals[i].categoryId == categories[i].id && totals[i].sourceStatistic == categories[i].sourceStatistic
  }

  function Plus(total: CategoryTotal, scored: CategoryTotal): CategoryTotal {
    total.(units := total.units + scored.units, milliPoints := total.milliPoints + scored.milliPoints)
  }

  lemma AddedInPlace(totals: seq<CategoryTotal>, scored: CategoryTotal, categories: seq<Category>, k: nat)
    requires Distinct(CategoryIds(categories)) && Named(totals, categories) && k < |categories|
    requires scored.categoryId == categories[k].id && scored.sourceStatistic == categories[k].sourceStatistic
    ensures
      var plus := Plus(totals[k], scored);
      AddScored(totals, scored) ==
      if IsSafe(plus.units) && IsSafe(plus.milliPoints)
      then Ok(totals[k := plus])
      else Err(ScoringFault(UnsafeArithmetic))
  {
    PlaceIsOwn(totals, categories, k);
  }

  /** Adding a score made under the same model adds category by category; only unsafe arithmetic can fail. */
  lemma {:induction false} ScoresAddUp(
    totals: seq<CategoryTotal>, scored: seq<CategoryTotal>, categories: seq<Category>, n: nat
  )
    requires Distinct(CategoryIds(categories)) && Named(totals, categories) && Named(scored, categories) &&
             n <= |scored|
    ensures
      match AddAllScored(totals, scored[..n])
      case Ok(sums) => Added(sums, totals, scored, n)
      case Err(fault) => fault == ScoringFault(UnsafeArithmetic)
  {
    if n > 0 {
      var k := n - 1;
      ScoresAddUp(totals, scored, categories, k);
      assert scored[..n][..k] == scored[..k] && scored[..n][k] == scored[k];
      if AddAllScored(totals, scored[..k]).Ok? {
        var before := AddAllScored(totals, scored[..k]).value;
        assert Named(before, categories);
        AddedInPlace(before, scored[k], categories, k);
      }
    }
  }

  lemma SumsAligned(
    sums: seq<CategoryTotal>, totals: seq<CategoryTotal>, scored: seq<CategoryTotal>, categories: seq<Category>
  )
    requires Aligned(totals, categories) && Aligned(scored, categories) && Added(sums, totals, scored, |scored|)
    ensures Aligned(sums, categories)
  {
  }

  lemma {:induction false} SumPointwise(
    sums: seq<CategoryTotal>, totals: seq<CategoryTotal>, scored: seq<CategoryTotal>
  )
    requires Added(sums, totals, scored, |scored|)
    ensures Sum(Milli, sums) == Sum(Milli, totals) + Sum(Milli, scored)
  {
    if sums != [] {
      var n := |sums| - 1;
      SumPointwise(sums[..n], totals[..n], scored[..n]);
    }
  }

  // ----- the sheet -----

  function TotalOf(): ScoredSource -> int {
    (source: ScoredSource) => if source.score.Some? then source.score.value.totalMilliPoints else 0
  }

  /** The units that a player contributes to category `i`. */
  function UnitsOf(i: nat): ScoredSource -> int {
    (source: ScoredSource) =>
      if source.score.Some? && i < |source.score.value.categories| then source.score.value.categories[i].units else 0
  }

  predicate SafeTotals(totals: seq<CategoryTotal>) {
    forall i :: 0 <= i < |totals| ==> IsSafe(totals[i].units) && IsSafe(totals[i].milliPoints)
  }

  /** Weights times units by category, categories by total, players by total: three ways to the same sum. */
  ghost predicate Linear(sheet: Sheet, categories: seq<Category>) {
    && Aligned(sheet.categoryTotals, categories)
    && sheet.totalMilliPoints == Sum(Milli, sheet.categoryTotals)
    && sheet.totalMilliPoints == Sum(TotalOf(), sheet.sources)
    && (forall i: nat :: i < |categories| ==> sheet.categoryTotals[i].units == Sum(UnitsOf(i), sheet.sources))
    && IsSafe(sheet.totalMilliPoints) && SafeTotals(sheet.categoryTotals)
  }

  lemma UnscoredKeepsLinear(sheet: Sheet, next: Sheet, categories: seq<Category>, scored: ScoredSource)
    requires Linear(sheet, categories) && scored.score.None?
    requires next.categoryTotals == sheet.categoryTotals && next.totalMilliPoints == sheet.totalMilliPoints
    requires next.sources == sheet.sources || next.sources == sheet.sources + [scored]
    ensures Linear(next, categories)
  {
  }

  lemma AlignedIsNamed(totals: seq<CategoryTotal>, categories: seq<Category>)
    requires Aligned(totals, categories)
    ensures Named(totals, categories)
  {
    forall i | 0 <= i < |totals|
      ensures totals[i].categoryId == categories[i].id && totals[i].sourceStatistic == categories[i].sourceStatistic
    {
      assert PaysFor(totals[i], categories[i]);
    }
  }

  /** One more score: the lines stay aligned and safe, and their units and points add up. */
  lemma ScoreJoins(totals: seq<CategoryTotal>, scored: seq<CategoryTotal>, categories: seq<Category>)
    requires Distinct(CategoryIds(categories)) && Aligned(totals, categories) && Aligned(scored, categories)
    requires SafeTotals(totals) && AddAllScored(totals, scored).Ok?
    ensures
      var sums := AddAllScored(totals, scored).value;
      && Aligned(sums, categories) && SafeTotals(sums)
      && Sum(Milli, sums) == Sum(Milli, totals) + Sum(Milli, scored)
      && forall i :: 0 <= i < |sums| ==> sums[i].units == totals[i].units + scored[i].units
  {
    assert scored[..|scored|] == scored;
    AlignedIsNamed(totals, categories);
    AlignedIsNamed(scored, categories);
    ScoresAddUp(totals, scored, categories, |scored|);
    var sums := AddAllScored(totals, scored).value;
    SumsAligned(sums, totals, scored, categories);
    SumPointwise(sums, totals, scored);
    SafeAfterAdding(totals, scored, categories, |scored|);
  }

  lemma ScoredKeepsLinear(sheet: Sheet, slot: Slot, source: Source, score: Score, categories: seq<Category>)
    requires Distinct(CategoryIds(categories)) && Linear(sheet, categories)
    requires Aligned(score.categories, categories) && score.totalMilliPoints == Sum(Milli, score.categories)
    requires WithScore(sheet, slot, source, score).Ok?
    ensures Linear(WithScore(sheet, slot, source, score).value, categories)
  {
    var next := WithScore(sheet, slot, source, score).value;
    var scored := ScoredSource(slot.id, source, Some(score));
    ScoreJoins(sheet.categoryTotals, score.categories, categories);
    SumSnoc(TotalOf(), sheet.sources, scored);
    forall i: nat | i < |categories| ensures next.categoryTotals[i].units == Sum(UnitsOf(i), next.sources) {
      SumSnoc(UnitsOf(i), sheet.sources, scored);
    }
  }

  lemma {:induction false} SafeAfterAdding(
    totals: seq<CategoryTotal>, scored: seq<CategoryTotal>, categories: seq<Category>, n: nat
  )
    requires Distinct(CategoryIds(categories)) && Named(totals, categories) && Named(scored, categories) &&
             n <= |scored|
    requires SafeTotals(totals) && AddAllScored(totals, scored[..n]).Ok?
    ensures SafeTotals(AddAllScored(totals, scored[..n]).value)
  {
    if n > 0 {
      var k := n - 1;
      assert scored[..n][..k] == scored[..k] && scored[..n][k] == scored[k];
      SafeAfterAdding(totals, scored, categories, k);
      ScoresAddUp(totals, scored, categories, k);
      AddedInPlace(AddAllScored(totals, scored[..k]).value, scored[k], categories, k);
    }
  }

  lemma {:induction false} ZeroSum(categories: seq<Category>)
    ensures Sum(Milli, ZeroTotals(categories)) == 0
  {
    if categories != [] {
      var n := |categories| - 1;
      ZeroSum(categories[..n]);
      assert ZeroTotals(categories)[..n] == ZeroTotals(categories[..n]);
    }
  }

  lemma BlankIsLinear(model: Model)
    ensures Linear(BlankSheet(model), model.content.categories)
  {
    var categories := model.content.categories;
    ZeroSum(categories);
    forall i | 0 <= i < |categories| ensures PaysFor(ZeroTotals(categories)[i], categories[i]) {
    }
  }

  lemma SlotKeepsLinear(sheet: Sheet, slot: Slot, known: map<Id, Source>, model: Model)
    requires Linear(sheet, model.content.categories) && Distinct(CategoryIds(model.content.categories))
    requires ScoreSlot(sheet, slot, known, model).Ok?
    ensures Linear(ScoreSlot(sheet, slot, known, model).value, model.content.categories)
  {
    var categories := model.content.categories;
    var next := ScoreSlot(sheet, slot, known, model).value;
    if slot.playerId.Some? && slot.id in known {
      var source := known[slot.id];
      if DoubtOf(source.availability).None? {
        var score := ScoreOf(model, source.snapshot.value).value;
        ScoreIsWeightedSum(categories, source.snapshot.value.values);
        ScoredKeepsLinear(sheet, slot, source, score, categories);
      } else {
        UnscoredKeepsLinear(sheet, next, categories, ScoredSource(slot.id, source, None));
      }
    } else {
      assert next.sources == sheet.sources;
    }
  }

  lemma {:induction false} SheetIsLinear(slots: seq<Slot>, known: map<Id, Source>, model: Model)
    requires Distinct(CategoryIds(model.content.categories)) && ScoreSlots(slots, known, model).Ok?
    ensures Linear(ScoreSlots(slots, known, model).value, model.content.categories)
  {
    if slots == [] {
      BlankIsLinear(model);
    } else {
      var init := slots[..|slots| - 1];
      SheetIsLinear(init, known, model);
      SlotKeepsLinear(ScoreSlots(init, known, model).value, slots[|slots| - 1], known, model);
    }
  }
}
