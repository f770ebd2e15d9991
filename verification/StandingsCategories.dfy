/** Category totals as sums over the contributing results, whatever order they arrive in. */
module StandingsCategories {
  import opened Base
  import opened Ordering
  import opened PlayerScoring
  import opened TeamPeriods
  import opened Standings

  function UnitsOn(id: Id): CategoryTotal -> int {
    (c: CategoryTotal) => if c.categoryId == id then c.units else 0
  }

  function MilliOn(id: Id): CategoryTotal -> int {
    (c: CategoryTotal) => if c.categoryId == id then c.milliPoints else 0
  }

  /** The line adds up all contributions to its category, and they agree on its source. */
  ghost predicate Gathers(total: CategoryTotal, contributions: seq<CategoryTotal>) {
    && total.units == Sum(UnitsOn(total.categoryId), contributions)
    && total.milliPoints == Sum(MilliOn(total.categoryId), contributions)
    && (forall c :: c in contributions && c.categoryId == total.categoryId ==>
          c.sourceStatistic == total.sourceStatistic)
    && (exists c :: c in contributions && c.categoryId == total.categoryId)
  }

  ghost predicate OneLineEach(totals: seq<CategoryTotal>) {
    forall i, j :: 0 <= i < j < |totals| ==> totals[i].categoryId != totals[j].categoryId
  }

  ghost predicate Listed(totals: seq<CategoryTotal>, id: Id) {
    exists total :: total in totals && total.categoryId == id
  }

  ghost predicate Gathered(totals: seq<CategoryTotal>, contributions: seq<CategoryTotal>) {
    && OneLineEach(totals)
    && (forall total :: total in totals ==> Gathers(total, contributions))
    && (forall c :: c in contributions ==> Listed(totals, c.categoryId))
  }

  lemma OtherCategory(total: CategoryTotal, contributions: seq<CategoryTotal>, c: CategoryTotal)
    requires Gathers(total, contributions) && total.categoryId != c.categoryId
    ensures Gathers(total, contributions + [c])
  {
  }

  lemma SameCategory(total: CategoryTotal, contributions: seq<CategoryTotal>, c: CategoryTotal)
    requires Gathers(total, contributions) && total.categoryId == c.categoryId &&
             total.sourceStatistic == c.sourceStatistic
    ensures Gathers(total.(units := total.units + c.units, milliPoints := total.milliPoints + c.milliPoints),
                    contributions + [c])
  {
  }

  lemma NewCategory(contributions: seq<CategoryTotal>, c: CategoryTotal)
    requires forall other :: other in contributions ==> other.categoryId != c.categoryId
    ensures Gathers(c, contributions + [c])
  {
    SumSnoc(UnitsOn(c.categoryId), contributions, c);
    SumSnoc(MilliOn(c.categoryId), contributions, c);
    SumZero(UnitsOn(c.categoryId), contributions);
    SumZero(MilliOn(c.categoryId), contributions);
    assert c in contributions + [c];
  }

  lemma LineAdded(totals: seq<CategoryTotal>, contributions: seq<CategoryTotal>, c: CategoryTotal)
    requires Gathered(totals, contributions) && PlaceOf(totals, c.categoryId).None?
    ensures Gathered(totals + [c], contributions + [c])
  {
    var next := totals + [c];
    forall other | other in contributions ensures other.categoryId != c.categoryId && Listed(next, other.categoryId) {
      assert Listed(totals, other.categoryId);
      var total :| total in totals && total.categoryId == other.categoryId;
      assert total in next;
    }
    NewCategory(contributions, c);
    forall total | total in totals ensures Gathers(total, contributions + [c]) {
      OtherCategory(total, contributions, c);
    }
    assert c in next;
  }

  lemma LineRaised(
    totals: seq<CategoryTotal>, contributions: seq<CategoryTotal>, c: CategoryTotal, i: nat, raised: CategoryTotal
  )
    requires Gathered(totals, contributions) && i < |totals|
    requires totals[i].categoryId == c.categoryId && totals[i].sourceStatistic == c.sourceStatistic
    requires raised == totals[i].(units := totals[i].units + c.units,
                                  milliPoints := totals[i].milliPoints + c.milliPoints)
    ensures Gathered(totals[i := raised], contributions + [c])
  {
    var next := totals[i := raised];
    forall k | 0 <= k < |next| ensures Gathers(next[k], contributions + [c]) {
      assert totals[k] in totals && totals[i] in totals;
      if k == i {
        SameCategory(totals[i], contributions, c);
      } else {
        OtherCategory(totals[k], contributions, c);
      }
    }
    assert next[i] in next;
    forall other | other in contributions ensures Listed(next, other.categoryId) {
      assert Listed(totals, other.categoryId);
      var k :| 0 <= k < |totals| && totals[k].categoryId == other.categoryId;
      assert next[k] in next;
    }
    assert Listed(next, c.categoryId);
  }

  lemma CategoryGathered(totals: seq<CategoryTotal>, contributions: seq<CategoryTotal>, c: CategoryTotal)
    requires Gathered(totals, contributions) && AddCategory(totals, c).Ok?
    ensures Gathered(AddCategory(totals, c).value, contributions + [c])
  {
    match PlaceOf(totals, c.categoryId) {
      case None => LineAdded(totals, contributions, c);
      case Some(i) => LineRaised(totals, contributions, c, i, AddCategory(totals, c).value[i]);
    }
  }

  /** addCategories keeps one line to a category, and each line is the sum of its contributions. */
  lemma {:induction false} CategoriesGathered(contributions: seq<CategoryTotal>)
    requires AddCategories([], contributions).Ok?
    ensures Gathered(AddCategories([], contributions).value, contributions)
  {
    if contributions != [] {
      var init, c := contributions[..|contributions| - 1], contributions[|contributions| - 1];
      assert contributions == init + [c];
      CategoriesGathered(init);
      CategoryGathered(AddCategories([], init).value, init, c);
    }
  }

  lemma GathersPermuted(total: CategoryTotal, xs: seq<CategoryTotal>, ys: seq<CategoryTotal>)
    requires multiset(xs) == multiset(ys) && Gathers(total, xs)
    ensures Gathers(total, ys)
  {
    SumPermutation(UnitsOn(total.categoryId), xs, ys);
    SumPermutation(MilliOn(total.categoryId), xs, ys);
    SameMembers(xs, ys);
    var c :| c in xs && c.categoryId == total.categoryId;
    assert c in ys;
  }

  lemma LineFound(total: CategoryTotal, totals: seq<CategoryTotal>, contributions: seq<CategoryTotal>)
    requires Gathered(totals, contributions) && Gathers(total, contributions)
    ensures total in totals
  {
  }

  lemma SameLines(xs: seq<CategoryTotal>, ys: seq<CategoryTotal>)
    requires OneLineEach(xs) && OneLineEach(ys) && forall total :: total in xs <==> total in ys
    ensures multiset(xs) == multiset(ys)
  {
    assert Distinct(xs) && Distinct(ys);
    forall total: CategoryTotal ensures multiset(xs)[total] == multiset(ys)[total] {
      DistinctMultiset(xs, total);
      DistinctMultiset(ys, total);
    }
  }

  lemma LinesSeparate(totals: seq<CategoryTotal>)
    requires OneLineEach(totals)
    ensures TotalOrder(ByCategory()) && Strict(ByCategory(), totals)
  {
  }

  /** The published category list does not depend on the order of the contributions. */
  lemma CategoriesIgnoreOrder(xs: seq<CategoryTotal>, ys: seq<CategoryTotal>)
    requires multiset(xs) == multiset(ys) && AddCategories([], xs).Ok? && AddCategories([], ys).Ok?
    ensures Sort(ByCategory(), AddCategories([], xs).value) == Sort(ByCategory(), AddCategories([], ys).value)
  {
    var left, right := AddCategories([], xs).value, AddCategories([], ys).value;
    CategoriesGathered(xs);
    CategoriesGathered(ys);
    forall total ensures total in left <==> total in right {
      if total in left {
        GathersPermuted(total, xs, ys);
        LineFound(total, right, ys);
      }
      if total in right {
        GathersPermuted(total, ys, xs);
        LineFound(total, left, xs);
      }
    }
    SameLines(left, right);
    LinesSeparate(left);
    SortPermutation(ByCategory(), left, right);
  }

  ghost predicate SafeLines(totals: seq<CategoryTotal>) {
    forall i :: 0 <= i < |totals| ==> IsSafe(totals[i].units) && IsSafe(totals[i].milliPoints)
  }

  lemma LineStaysSafe(totals: seq<CategoryTotal>, category: CategoryTotal)
    requires SafeLines(totals) && AddCategory(totals, category).Ok?
    ensures SafeLines(AddCategory(totals, category).value)
  {
  }

  /** Every line that merging leaves is within the safe integers. */
  lemma {:induction false} CategoriesSafe(contributions: seq<CategoryTotal>)
    requires AddCategories([], contributions).Ok?
    ensures SafeLines(AddCategories([], contributions).value)
  {
    if contributions != [] {
      var init, c := contributions[..|contributions| - 1], contributions[|contributions| - 1];
      CategoriesSafe(init);
      LineStaysSafe(AddCategories([], init).value, c);
    }
  }

  /** The lines add up to all contributions. */
  lemma {:induction false} CategoriesSum(contributions: seq<CategoryTotal>)
    requires AddCategories([], contributions).Ok?
    ensures Sum(Milli, AddCategories([], contributions).value) == Sum(Milli, contributions)
  {
    if contributions != [] {
      var init, c := contributions[..|contributions| - 1], contributions[|contributions| - 1];
      CategoriesSum(init);
      var totals, next := AddCategories([], init).value, AddCategories([], contributions).value;
      match PlaceOf(totals, c.categoryId) {
        case None => SumSnoc(Milli, totals, c);
        case Some(i) => LineSum(totals, i, next[i]);
      }
    }
  }

  lemma LineSum(totals: seq<CategoryTotal>, i: nat, raised: CategoryTotal)
    requires i < |totals|
    ensures Sum(Milli, totals[i := raised]) == Sum(Milli, totals) - totals[i].milliPoints + raised.milliPoints
  {
    var before, after := totals[..i], totals[i + 1..];
    assert totals == before + [totals[i]] + after;
    assert totals[i := raised] == before + [raised] + after;
    SumAppend(Milli, before + [totals[i]], after);
    SumAppend(Milli, before + [raised], after);
    SumSnoc(Milli, before, totals[i]);
    SumSnoc(Milli, before, raised);
  }
}
