/** Category ranking: the sum of all category totals, each category's share
    of it in percent, and the five categories with the largest totals. */
module Ranking {
  import opened Types
  import Sorting

  /** The category -> total map as the repository returns it, listed in the
      order the ranking loop visits its entries. */
  type CategoryTotals = seq<(string, real)>

  /** Sum of the amounts of `totals`. */
  function SumAmounts(totals: CategoryTotals): real {
    if totals == [] then 0.0 else SumAmounts(totals[..|totals| - 1]) + totals[|totals| - 1].1
  }

  /** `amount` as a percentage of `total`; zero when there is nothing to share. */
  function Percentage(amount: real, total: real): real {
    if total == 0.0 then 0.0 else amount * 100.0 / total
  }

  /** The share of entry `i` in the final total. */
  function FinalPercentage(totals: CategoryTotals, i: int): real
    requires 0 <= i < |totals|
  {
    Percentage(totals[i].1, SumAmounts(totals))
  }

  /** The intended ranking entries before sorting: one per category, in
      visiting order, each with its share of the final total, which is
      always defined. */
  function Entries(totals: CategoryTotals): (entries: seq<CategorySpend>)
    ensures |entries| == |totals|
    ensures forall i :: 0 <= i < |entries| ==> entries[i].percentage.Some?
  {
    seq(|totals|, i requires 0 <= i < |totals| => CategorySpend(totals[i].0, totals[i].1, Some(FinalPercentage(totals, i))))
  }

  /** The accumulation loop as intended: the total of all categories first,
      then one entry per category carrying its share of that total. */
  method CategoryEntries(totals: CategoryTotals) returns (totalSpent: real, entries: seq<CategorySpend>)
    ensures totalSpent == SumAmounts(totals)
    ensures entries == Entries(totals)
  {
    totalSpent := 0.0;
    for i := 0 to |totals|
      invariant totalSpent == SumAmounts(totals[..i])
    {
      assert totals[..i + 1][..i] == totals[..i];
      totalSpent := totalSpent + totals[i].1;
    }
    assert totals[..|totals|] == totals;
    entries := [];
    for i := 0 to |totals|
      invariant entries == Entries(totals)[..i]
    {
      var (category, amount) := totals[i];
      entries := entries + [CategorySpend(category, amount, Some(Percentage(amount, totalSpent)))];
    }
  }

  // The percentage as the source computes it

  /** The share of entry `i` as line 93 computes it: against the running
      total of the entries visited so far, this one included. `None` stands
      for the not-a-number or infinite value a zero running total gives. */
  function RunningPercentage(totals: CategoryTotals, i: int): (r: Option<real>)
    requires 0 <= i < |totals|
    ensures r.None? <==> SumAmounts(totals[..i + 1]) == 0.0
    ensures r.Some? ==> r.value * SumAmounts(totals[..i + 1]) == totals[i].1 * 100.0
  {
    var running := SumAmounts(totals[..i + 1]);
    if running == 0.0 then None
    else
      var q := totals[i].1 * 100.0 / running;
      assert q * running == totals[i].1 * 100.0;
      Some(q)
  }

  /** The ranking entries as the source builds them: one per category, in
      visiting order, each with its running share. */
  function RunningEntries(totals: CategoryTotals): (entries: seq<CategorySpend>)
    ensures |entries| == |totals|
  {
    seq(|totals|, i requires 0 <= i < |totals| => CategorySpend(totals[i].0, totals[i].1, RunningPercentage(totals, i)))
  }

  /** The accumulation loop as written: one pass that adds each amount to
      the running total and appends the entry with its share of that
      running total. */
  method CategoryEntriesAsWritten(totals: CategoryTotals) returns (totalSpent: real, entries: seq<CategorySpend>)
    ensures totalSpent == SumAmounts(totals)
    ensures entries == RunningEntries(totals)
  {
    totalSpent := 0.0;
    entries := [];
    for i := 0 to |totals|
      invariant totalSpent == SumAmounts(totals[..i])
      invariant entries == RunningEntries(totals)[..i]
    {
      assert totals[..i + 1][..i] == totals[..i];
      var (category, amount) := totals[i];
      totalSpent := totalSpent + amount;
      var percentage := if totalSpent == 0.0 then None else Some(amount * 100.0 / totalSpent);
      entries := entries + [CategorySpend(category, amount, percentage)];
    }
    assert totals[..|totals|] == totals;
    assert RunningEntries(totals)[..|totals|] == RunningEntries(totals);
  }

  /** The as-written and the intended entries name the same categories with
      the same totals, so they rank the same way; their shares agree on the
      last category visited, whose running total is the final one. */
  lemma {:induction false} RunningAndFinalAgree(totals: CategoryTotals)
    ensures forall i :: 0 <= i < |totals| ==>
              RunningEntries(totals)[i].category == Entries(totals)[i].category &&
              RunningEntries(totals)[i].totalSpent == Entries(totals)[i].totalSpent
    ensures |totals| > 0 && SumAmounts(totals) != 0.0 ==>
              RunningEntries(totals)[|totals| - 1].percentage == Entries(totals)[|totals| - 1].percentage
  {
    if |totals| > 0 {
      assert totals[..|totals|] == totals;
    }
  }

  predicate NonNegative(totals: CategoryTotals) {
    forall i :: 0 <= i < |totals| ==> totals[i].1 >= 0.0
  }

  lemma {:induction false} SumAmountsNonNegative(totals: CategoryTotals)
    requires NonNegative(totals)
    ensures SumAmounts(totals) >= 0.0
  {
    if totals != [] {
      var n := |totals| - 1;
      assert NonNegative(totals[..n]) by {
        forall i | 0 <= i < n ensures totals[..n][i].1 >= 0.0 {
          assert totals[..n][i] == totals[i];
        }
      }
      SumAmountsNonNegative(totals[..n]);
    }
  }

  /** With non-negative amounts the running share of a positive amount lies
      in (0, 100], and the first entry visited always gets exactly 100. */
  lemma {:induction false} RunningPercentageBounds(totals: CategoryTotals, i: int)
    requires NonNegative(totals) && 0 <= i < |totals| && totals[i].1 > 0.0
    ensures RunningPercentage(totals, i).Some?
    ensures 0.0 < RunningPercentage(totals, i).value <= 100.0
    ensures i == 0 ==> RunningPercentage(totals, i) == Some(100.0)
  {
    var prefix := totals[..i + 1];
    assert prefix[..i] == totals[..i];
    assert NonNegative(totals[..i]) by {
      forall k | 0 <= k < i ensures totals[..i][k].1 >= 0.0 {
        assert totals[..i][k] == totals[k];
      }
    }
    SumAmountsNonNegative(totals[..i]);
    var running := SumAmounts(prefix);
    assert running == SumAmounts(totals[..i]) + totals[i].1;
    assert running >= totals[i].1 > 0.0;
    ShareAtMostHundred(totals[i].1, running);
    if i == 0 {
      assert totals[..0] == [];
      assert running == totals[i].1;
    }
  }

  /** Two categories, 300 and 200: the share of the first in the final total
      is 60 percent, but the running total makes it 100. */
  lemma RunningPercentageOverstates()
    ensures var totals: CategoryTotals := [("Groceries", 300.0), ("Dining", 200.0)];
            RunningPercentage(totals, 0) == Some(100.0) && FinalPercentage(totals, 0) == 60.0
  {
    var totals: CategoryTotals := [("Groceries", 300.0), ("Dining", 200.0)];
    assert totals[..1][..0] == [];
    assert totals[..1] == [("Groceries", 300.0)];
    assert totals[..|totals| - 1] == [("Groceries", 300.0)];
  }

  /** A single category whose total is zero: the running share divides zero
      by zero, where the intended share is 0. */
  lemma RunningPercentageOfZeroTotal()
    ensures var totals: CategoryTotals := [("Refunds", 0.0)];
            RunningPercentage(totals, 0) == None && FinalPercentage(totals, 0) == 0.0
  {
    var totals: CategoryTotals := [("Refunds", 0.0)];
    assert totals[..1] == totals;
    assert totals[..0] == [];
  }

  /** A part of a positive whole is at most a hundred percent of it, and
      the whole is exactly a hundred percent. */
  lemma ShareAtMostHundred(part: real, whole: real)
    requires 0.0 <= part <= whole && whole > 0.0
    ensures 0.0 <= part * 100.0 / whole <= 100.0
    ensures whole * 100.0 / whole == 100.0
    ensures part > 0.0 ==> part * 100.0 / whole > 0.0
  {
    var q := part * 100.0 / whole;
    assert q * whole == part * 100.0;
    WholeIsHundred(whole);
  }

  lemma WholeIsHundred(whole: real)
    requires whole != 0.0
    ensures whole * 100.0 / whole == 100.0
  {
    var q := whole * 100.0 / whole;
    assert q * whole == whole * 100.0;
  }

  // Properties of the intended percentage

  /** With non-negative amounts every share lies in [0, 100], and it is 0
      for every category when the total is 0. */
  lemma {:induction false} FinalPercentageBounds(totals: CategoryTotals, i: int)
    requires 0 <= i < |totals|
    ensures SumAmounts(totals) == 0.0 ==> FinalPercentage(totals, i) == 0.0
    ensures NonNegative(totals) ==> 0.0 <= FinalPercentage(totals, i) <= 100.0
  {
    if NonNegative(totals) {
      AmountAtMostSum(totals, i);
      SumAmountsNonNegative(totals);
      if SumAmounts(totals) != 0.0 {
        ShareAtMostHundred(totals[i].1, SumAmounts(totals));
      }
    }
  }

  lemma {:induction false} AmountAtMostSum(totals: CategoryTotals, i: int)
    requires NonNegative(totals) && 0 <= i < |totals|
    ensures totals[i].1 <= SumAmounts(totals)
  {
    var n := |totals| - 1;
    assert NonNegative(totals[..n]) by {
      forall k | 0 <= k < n ensures totals[..n][k].1 >= 0.0 {
        assert totals[..n][k] == totals[k];
      }
    }
    if i < n {
      assert totals[..n][i] == totals[i];
      AmountAtMostSum(totals[..n], i);
    }
    SumAmountsNonNegative(totals[..n]);
  }

  /** Sum of the defined shares of `entries`. */
  function SumPercentages(entries: seq<CategorySpend>): real {
    if entries == [] then 0.0
    else
      var last := entries[|entries| - 1].percentage;
      SumPercentages(entries[..|entries| - 1]) + (if last.Some? then last.value else 0.0)
  }

  /** When the total is not zero, the shares of all categories (before
      truncation to five) add up to 100. */
  lemma PercentagesSumToHundred(totals: CategoryTotals)
    requires SumAmounts(totals) != 0.0
    ensures SumPercentages(Entries(totals)) == 100.0
  {
    var total := SumAmounts(totals);
    PrefixPercentages(totals, |totals|);
    assert Entries(totals)[..|totals|] == Entries(totals);
    assert totals[..|totals|] == totals;
    WholeIsHundred(total);
  }

  lemma {:induction false} PrefixPercentages(totals: CategoryTotals, k: int)
    requires SumAmounts(totals) != 0.0 && 0 <= k <= |totals|
    ensures SumPercentages(Entries(totals)[..k]) == SumAmounts(totals[..k]) * 100.0 / SumAmounts(totals)
  {
    var total := SumAmounts(totals);
    if k == 0 {
      assert totals[..0] == [];
      assert Entries(totals)[..0] == [];
    } else {
      PrefixPercentages(totals, k - 1);
      assert Entries(totals)[..k][..k - 1] == Entries(totals)[..k - 1];
      assert totals[..k][..k - 1] == totals[..k - 1];
      var before := SumAmounts(totals[..k - 1]);
      var amount := totals[k - 1].1;
      assert SumAmounts(totals[..k]) == before + amount;
      assert SumPercentages(Entries(totals)[..k]) == before * 100.0 / total + amount * 100.0 / total;
      SharesAdd(before, amount, total);
    }
  }

  lemma SharesAdd(x: real, y: real, total: real)
    requires total != 0.0
    ensures x * 100.0 / total + y * 100.0 / total == (x + y) * 100.0 / total
  {
    var p, q := x * 100.0 / total, y * 100.0 / total;
    assert p * total == x * 100.0 && q * total == y * 100.0;
    assert (p + q) * total == (x + y) * 100.0;
  }

  // Sorting and truncation

  /** The sort order of the ranking: larger total first. */
  function SpentMore(x: CategorySpend, y: CategorySpend): bool {
    x.totalSpent > y.totalSpent
  }

  lemma SpentMoreIsStrictWeakOrder()
    ensures Sorting.StrictWeakOrder(SpentMore)
  {
  }

  ghost predicate LargestFirst(s: seq<CategorySpend>) {
    forall j, k :: 0 <= j < k < |s| ==> s[j].totalSpent >= s[k].totalSpent
  }

  const TopCount := 5

  /** `top` holds the largest-total entries of `entries`, as many as there
      are up to five, largest first: no entry left out is larger than one
      kept. */
  ghost predicate IsTop(entries: seq<CategorySpend>, top: seq<CategorySpend>) {
    && |top| == (if |entries| < TopCount then |entries| else TopCount)
    && multiset(top) <= multiset(entries)
    && LargestFirst(top)
    && forall e, k :: e in multiset(entries) - multiset(top) && 0 <= k < |top| ==>
         e.totalSpent <= top[k].totalSpent
  }

  /** Sorts the entries by total, largest first, and keeps the first five:
      the result's entries are the largest-total entries (none left out is
      larger than any kept), in that order, and are the first entries of a
      sorted arrangement `ranked` of all entries. */
  method TopCategories(entries: seq<CategorySpend>) returns (top: seq<CategorySpend>, ghost ranked: seq<CategorySpend>)
    ensures IsTop(entries, top)
    ensures |ranked| == |entries| && multiset(ranked) == multiset(entries) && LargestFirst(ranked) && top == ranked[..|top|]
  {
    var a := new CategorySpend[|entries|](i requires 0 <= i < |entries| => entries[i]);
    assert a[..] == entries;
    SpentMoreIsStrictWeakOrder();
    Sorting.SortBy(a, SpentMore);
    ranked := a[..];
    top := a[..];
    if |top| > TopCount {
      top := top[..TopCount];
    }
    TruncationKeepsLargest(ranked, |top|);
  }

  lemma {:induction false} TruncationKeepsLargest(ranked: seq<CategorySpend>, m: int)
    requires Sorting.Ordered(ranked, SpentMore) && 0 <= m <= |ranked|
    ensures LargestFirst(ranked) && LargestFirst(ranked[..m])
    ensures multiset(ranked[..m]) <= multiset(ranked)
    ensures forall e, k :: e in multiset(ranked) - multiset(ranked[..m]) && 0 <= k < m ==>
              e.totalSpent <= ranked[k].totalSpent
  {
    OrderedIsLargestFirst(ranked);
    assert LargestFirst(ranked[..m]) by {
      forall j, k | 0 <= j < k < m ensures ranked[..m][j].totalSpent >= ranked[..m][k].totalSpent {
        assert ranked[..m][j] == ranked[j] && ranked[..m][k] == ranked[k];
      }
    }
    assert ranked == ranked[..m] + ranked[m..];
    assert multiset(ranked) - multiset(ranked[..m]) == multiset(ranked[m..]);
    CutAtMostKept(ranked, m);
  }

  lemma OrderedIsLargestFirst(ranked: seq<CategorySpend>)
    requires Sorting.Ordered(ranked, SpentMore)
    ensures LargestFirst(ranked)
  {
    forall j, k | 0 <= j < k < |ranked| ensures ranked[j].totalSpent >= ranked[k].totalSpent {
      assert !SpentMore(ranked[k], ranked[j]);
    }
  }

  lemma {:induction false} CutAtMostKept(ranked: seq<CategorySpend>, m: int)
    requires LargestFirst(ranked) && 0 <= m <= |ranked|
    ensures forall e, k :: e in multiset(ranked[m..]) && 0 <= k < m ==> e.totalSpent <= ranked[k].totalSpent
  {
    forall e, k | e in multiset(ranked[m..]) && 0 <= k < m
      ensures e.totalSpent <= ranked[k].totalSpent
    {
      assert e in ranked[m..];
      var t :| 0 <= t < |ranked| - m && ranked[m..][t] == e;
      assert ranked[m + t] == e;
    }
  }

  /** With non-negative totals every kept entry of the intended ranking
      carries a defined share in [0, 100]. */
  lemma {:induction false} TopPercentages(totals: CategoryTotals, top: seq<CategorySpend>)
    requires NonNegative(totals) && multiset(top) <= multiset(Entries(totals))
    ensures forall k :: 0 <= k < |top| ==> top[k].percentage.Some? && 0.0 <= top[k].percentage.value <= 100.0
  {
    forall k | 0 <= k < |top| ensures top[k].percentage.Some? && 0.0 <= top[k].percentage.value <= 100.0 {
      assert top[k] in multiset(top);
      assert top[k] in Entries(totals);
      var i :| 0 <= i < |totals| && Entries(totals)[i] == top[k];
      FinalPercentageBounds(totals, i);
    }
  }

  /** As written, with positive totals every kept entry carries a defined
      running share in (0, 100]. */
  lemma {:induction false} TopRunningPercentages(totals: CategoryTotals, top: seq<CategorySpend>)
    requires forall i :: 0 <= i < |totals| ==> totals[i].1 > 0.0
    requires multiset(top) <= multiset(RunningEntries(totals))
    ensures forall k :: 0 <= k < |top| ==> top[k].percentage.Some? && 0.0 < top[k].percentage.value <= 100.0
  {
    forall k | 0 <= k < |top| ensures top[k].percentage.Some? && 0.0 < top[k].percentage.value <= 100.0 {
      assert top[k] in multiset(top);
      assert top[k] in RunningEntries(totals);
      var i :| 0 <= i < |totals| && RunningEntries(totals)[i] == top[k];
      RunningPercentageBounds(totals, i);
    }
  }
}
