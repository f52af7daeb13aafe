/** The budget planner page: the category list, the overall rollup (totals, remaining,
    percentage used and its two warning thresholds) and, per category, the progress
    percentage, the over-budget rule, the clamped bar value, the caption and the bar's
    colour class. Everything here is a pure function of the category list. */
module Budget {
  import opened Text

  /** A budget category. The icon and the background class are markup and are not kept;
      `color` is the text colour class the indicator colour is derived from. */
  datatype Category = Category(id: int, name: string, spent: int, limit: int, color: string)

  /** The categories the page shows. */
  const Categories: seq<Category> := [
    Category(1, "Housing", 15000, 20000, "text-blue-500"),
    Category(2, "Food & Dining", 8500, 10000, "text-orange-500"),
    Category(3, "Transportation", 4200, 5000, "text-purple-500"),
    Category(4, "Shopping", 6800, 5000, "text-pink-500")
  ]

  // ---------------------------------------------------------------------------
  // Totals: `reduce` from the left, starting at 0

  function TotalSpent(cs: seq<Category>): int {
    if cs == [] then 0 else TotalSpent(cs[..|cs| - 1]) + cs[|cs| - 1].spent
  }

  function TotalLimit(cs: seq<Category>): int {
    if cs == [] then 0 else TotalLimit(cs[..|cs| - 1]) + cs[|cs| - 1].limit
  }

  /** The totals of a concatenation are the sums of the totals of its parts, so each
      category contributes its own amount once, wherever it stands in the list. */
  lemma {:induction false} TotalsAppend(a: seq<Category>, b: seq<Category>)
    ensures TotalSpent(a + b) == TotalSpent(a) + TotalSpent(b)
    ensures TotalLimit(a + b) == TotalLimit(a) + TotalLimit(b)
    decreases |b|
  {
    if b == [] {
      assert a + b == a;
    } else {
      var b' := b[..|b| - 1];
      assert (a + b)[..|a + b| - 1] == a + b';
      assert (a + b)[|a + b| - 1] == b[|b| - 1];
      TotalsAppend(a, b');
    }
  }

  /** A single category's totals are its own amounts. */
  lemma TotalsSingleton(c: Category)
    ensures TotalSpent([c]) == c.spent && TotalLimit([c]) == c.limit
  {
    assert [c][..0] == [];
  }

  /** The amount shown as "Remaining": the limit left over, negative once the total
      spending exceeds the total limit. */
  function Remaining(cs: seq<Category>): (r: int)
    ensures r + TotalSpent(cs) == TotalLimit(cs)
    ensures r < 0 <==> TotalSpent(cs) > TotalLimit(cs)
  {
    TotalLimit(cs) - TotalSpent(cs)
  }

  // ---------------------------------------------------------------------------
  // One category

  /** Over budget is strict: spending exactly the limit is not over. */
  predicate IsOver(c: Category) {
    c.spent > c.limit
  }

  /** The percentage of the limit spent; it can exceed 100. */
  function Progress(c: Category): real
    requires c.limit > 0
  {
    (c.spent as real / c.limit as real) * 100.0
  }

  /** The percentage is above 100 exactly when the category is over budget, and equals
      100 exactly when the limit is spent to the last unit. */
  lemma ProgressOverIff(c: Category)
    requires c.limit > 0
    ensures Progress(c) > 100.0 <==> IsOver(c)
    ensures Progress(c) == 100.0 <==> c.spent == c.limit
  {
    var q := c.spent as real / c.limit as real;
    assert q * c.limit as real == c.spent as real;
    if c.spent > c.limit {
      assert q > 1.0;
    } else if c.spent == c.limit {
      assert q == 1.0;
    } else {
      assert q < 1.0;
    }
  }

  /** The value given to the progress bar: the percentage, capped at 100. */
  function BarValue(c: Category): (r: real)
    requires c.limit > 0
    ensures r <= 100.0
    ensures r <= Progress(c)
    ensures r == Progress(c) <==> !IsOver(c)
    ensures IsOver(c) ==> r == 100.0
  {
    ProgressOverIff(c);
    if Progress(c) > 100.0 then 100.0 else Progress(c)
  }

  /** The line under a category's bar. */
  datatype Caption = ExceededBy(over: int) | LeftToSpend(left: int)

  function CaptionOf(c: Category): (r: Caption)
    ensures r.ExceededBy? <==> IsOver(c)
    ensures r.ExceededBy? ==> r.over > 0 && c.spent == c.limit + r.over
    ensures r.LeftToSpend? ==> r.left >= 0 && c.spent + r.left == c.limit
  {
    if IsOver(c) then ExceededBy(c.spent - c.limit) else LeftToSpend(c.limit - c.spent)
  }

  /** The bar's colour class: red when over, otherwise the category's colour with its
      first "text-" turned into "bg-". */
  function IndicatorClass(c: Category): string {
    if IsOver(c) then "bg-red-500" else ReplaceFirst(c.color, "text-", "bg-")
  }

  /** For a colour class that starts with "text-", a category within budget gets the
      matching "bg-" class; a colour class without "text-" is used unchanged. */
  lemma IndicatorClassWithinBudget(c: Category)
    requires !IsOver(c)
    ensures StartsWith(c.color, "text-") ==>
      IndicatorClass(c) == "bg-" + c.color[|"text-"|..]
    ensures !Contains(c.color, "text-") ==> IndicatorClass(c) == c.color
  {
    if StartsWith(c.color, "text-") {
      assert OccursAt(c.color, "text-", 0);
      ReplaceFirstAt(c.color, "text-", "bg-", 0);
    }
    if !Contains(c.color, "text-") {
      ReplaceFirstAbsent(c.color, "text-", "bg-");
    }
  }

  // ---------------------------------------------------------------------------
  // The overall card

  predicate AllLimitsPositive(cs: seq<Category>) {
    forall i :: 0 <= i < |cs| ==> cs[i].limit > 0
  }

  /** A non-empty list of categories with positive limits has a positive total limit,
      so the overall percentage is defined whenever every per-category one is. */
  lemma {:induction false} PositiveLimitsPositiveTotal(cs: seq<Category>)
    requires cs != [] && AllLimitsPositive(cs)
    ensures TotalLimit(cs) > 0
    decreases |cs|
  {
    var init := cs[..|cs| - 1];
    assert cs[|cs| - 1].limit > 0;
    if init != [] {
      assert forall i :: 0 <= i < |init| ==> init[i] == cs[i];
      PositiveLimitsPositiveTotal(init);
    }
  }

  /** The overall percentage used. The page divides without a guard, so the model asks
      for a positive total limit. */
  function UsedPercent(cs: seq<Category>): real
    requires TotalLimit(cs) > 0
  {
    (TotalSpent(cs) as real / TotalLimit(cs) as real) * 100.0
  }

  /** The "you've used 80%" warning. */
  predicate ShowWarning(cs: seq<Category>)
    requires TotalLimit(cs) > 0
  {
    UsedPercent(cs) > 80.0
  }

  /** The overall bar turns red. */
  predicate BarIsRed(cs: seq<Category>)
    requires TotalLimit(cs) > 0
  {
    UsedPercent(cs) > 90.0
  }

  /** `spent / limit * 100 > k` said over the integers, without division. */
  lemma PercentAbove(spent: int, limit: int, k: int)
    requires limit > 0
    ensures (spent as real / limit as real) * 100.0 > k as real <==> spent * 100 > k * limit
  {
    var q := spent as real / limit as real;
    assert q * limit as real == spent as real;
    assert (q * 100.0) * limit as real == spent as real * 100.0;
    if q * 100.0 > k as real {
      assert (q * 100.0) * limit as real > k as real * limit as real;
    } else {
      assert (q * 100.0) * limit as real <= k as real * limit as real;
    }
  }

  /** The two thresholds by integer cross-multiplication, and red implies the warning. */
  lemma ThresholdsExact(cs: seq<Category>)
    requires TotalLimit(cs) > 0
    ensures ShowWarning(cs) <==> TotalSpent(cs) * 100 > 80 * TotalLimit(cs)
    ensures BarIsRed(cs) <==> TotalSpent(cs) * 100 > 90 * TotalLimit(cs)
    ensures BarIsRed(cs) ==> ShowWarning(cs)
  {
    PercentAbove(TotalSpent(cs), TotalLimit(cs), 80);
    PercentAbove(TotalSpent(cs), TotalLimit(cs), 90);
  }

  /** The remaining amount is negative exactly when more than 100% is used. */
  lemma RemainingNegativeIff(cs: seq<Category>)
    requires TotalLimit(cs) > 0
    ensures Remaining(cs) < 0 <==> UsedPercent(cs) > 100.0
  {
    PercentAbove(TotalSpent(cs), TotalLimit(cs), 100);
  }

  /** When no single category is over budget, the overall budget is not exceeded either. */
  lemma {:induction false} NoneOverMeansWithinTotal(cs: seq<Category>)
    requires forall i :: 0 <= i < |cs| ==> !IsOver(cs[i])
    ensures Remaining(cs) >= 0
    decreases |cs|
  {
    if cs != [] {
      NoneOverMeansWithinTotal(cs[..|cs| - 1]);
      assert !IsOver(cs[|cs| - 1]);
    }
  }

  /** Conversely, an exceeded overall budget has at least one category over its limit. */
  lemma TotalOverHasCategoryOver(cs: seq<Category>)
    requires Remaining(cs) < 0
    ensures exists i :: 0 <= i < |cs| && IsOver(cs[i])
  {
    if forall i :: 0 <= i < |cs| ==> !IsOver(cs[i]) {
      NoneOverMeansWithinTotal(cs);
    }
  }

  /** The shipped data: 34500 of 40000 spent, 5500 remaining, the warning shown but the
      bar not red, and only "Shopping" over budget, by 1800. */
  lemma ShippedRollup()
    ensures TotalSpent(Categories) == 34500 && TotalLimit(Categories) == 40000
    ensures Remaining(Categories) == 5500
    ensures ShowWarning(Categories) && !BarIsRed(Categories)
    ensures forall i :: 0 <= i < 3 ==> !IsOver(Categories[i])
    ensures CaptionOf(Categories[3]) == ExceededBy(1800)
    ensures IndicatorClass(Categories[0]) == "bg-blue-500"
    ensures IndicatorClass(Categories[3]) == "bg-red-500"
  {
    var cs := Categories;
    var c0, c1, c2, c3 := cs[0], cs[1], cs[2], cs[3];
    TotalsSingleton(c0);
    TotalsSingleton(c1);
    TotalsSingleton(c2);
    TotalsSingleton(c3);
    TotalsAppend([c0], [c1]);
    assert [c0] + [c1] == [c0, c1];
    TotalsAppend([c0, c1], [c2]);
    assert [c0, c1] + [c2] == [c0, c1, c2];
    TotalsAppend([c0, c1, c2], [c3]);
    assert [c0, c1, c2] + [c3] == cs;
    ThresholdsExact(cs);
    IndicatorClassWithinBudget(cs[0]);
    assert cs[0].color[|"text-"|..] == "blue-500";
  }
}
