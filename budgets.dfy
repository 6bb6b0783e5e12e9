/**
 * Budgets of a profile and the upsert performed by the "add budget" button:
 * validate the input, then overwrite the limit of the category's entry or
 * append a new entry.
 */
module Budgets {
  import opened Wrappers

  datatype Budget = Budget(category: string, limit: real)

  /**
   * The accepted input: a non-empty category and a limit that is a number
   * (`limit` is None when Number(input) is NaN) and positive.
   */
  predicate ValidInput(category: string, limit: Option<real>)
  {
    category != "" && limit.Some? && limit.value > 0.0
  }

  /** `budgets.findIndex(b => b.category === category)`. */
  function FindCategory(budgets: seq<Budget>, category: string): (r: int)
    ensures -1 <= r < |budgets|
    ensures r == -1 <==> forall k :: 0 <= k < |budgets| ==> budgets[k].category != category
    ensures 0 <= r ==> budgets[r].category == category
    ensures 0 <= r ==> forall k :: 0 <= k < r ==> budgets[k].category != category
  {
    if budgets == [] then -1
    else if budgets[0].category == category then 0
    else
      var r := FindCategory(budgets[1..], category);
      if r == -1 then -1 else r + 1
  }

  /** The limit the budget list gives a category, read as a map (first entry wins). */
  function LimitOf(budgets: seq<Budget>, category: string): Option<real>
  {
    var k := FindCategory(budgets, category);
    if k < 0 then None else Some(budgets[k].limit)
  }

  /** At most one budget per category. */
  predicate UniqueCategories(budgets: seq<Budget>)
  {
    forall i, j :: 0 <= i < j < |budgets| ==> budgets[i].category != budgets[j].category
  }

  /** The budget list after the "add budget" handler ran with this input. */
  function Upsert(budgets: seq<Budget>, category: string, limit: Option<real>): (r: seq<Budget>)
    ensures !ValidInput(category, limit) ==> r == budgets
    ensures ValidInput(category, limit) ==> LimitOf(r, category) == limit
    ensures forall c :: c != category ==> LimitOf(r, c) == LimitOf(budgets, c)
    ensures |r| == if ValidInput(category, limit) && LimitOf(budgets, category).None?
                   then |budgets| + 1 else |budgets|
    ensures forall k :: 0 <= k < |budgets| ==> r[k].category == budgets[k].category
    ensures forall k :: 0 <= k < |budgets| && k != FindCategory(budgets, category) ==> r[k] == budgets[k]
    ensures UniqueCategories(budgets) ==> UniqueCategories(r)
  {
    if !ValidInput(category, limit) then budgets
    else
      var k := FindCategory(budgets, category);
      if k != -1 then
        var r := budgets[k := budgets[k].(limit := limit.value)];
        OverwriteKeepsLookups(budgets, k, limit.value);
        r
      else
        var r := budgets + [Budget(category, limit.value)];
        AppendKeepsLookups(budgets, Budget(category, limit.value));
        r
  }

  /** Overwriting a limit leaves every category's lookup position where it was. */
  lemma OverwriteKeepsLookups(budgets: seq<Budget>, k: nat, limit: real)
    requires k < |budgets|
    ensures forall c :: FindCategory(budgets[k := budgets[k].(limit := limit)], c) == FindCategory(budgets, c)
  {
    var r := budgets[k := budgets[k].(limit := limit)];
    forall c ensures FindCategory(r, c) == FindCategory(budgets, c) {
      FindCategoryOfSameCategories(budgets, r, c);
    }
  }

  /** Appending a budget of a new category leaves every other category's lookup as it was. */
  lemma AppendKeepsLookups(budgets: seq<Budget>, b: Budget)
    requires FindCategory(budgets, b.category) == -1
    ensures forall c :: c != b.category ==> FindCategory(budgets + [b], c) == FindCategory(budgets, c)
    ensures FindCategory(budgets + [b], b.category) == |budgets|
  {
    forall c | c != b.category ensures FindCategory(budgets + [b], c) == FindCategory(budgets, c) {
      FindCategoryOfAppend(budgets, b, c);
    }
    FindCategoryOfAppend(budgets, b, b.category);
  }

  lemma {:induction false} FindCategoryOfSameCategories(a: seq<Budget>, b: seq<Budget>, category: string)
    requires |a| == |b|
    requires forall k :: 0 <= k < |a| ==> a[k].category == b[k].category
    ensures FindCategory(a, category) == FindCategory(b, category)
  {
    if a != [] && a[0].category != category {
      FindCategoryOfSameCategories(a[1..], b[1..], category);
    }
  }

  lemma {:induction false} FindCategoryOfAppend(a: seq<Budget>, x: Budget, category: string)
    ensures FindCategory(a + [x], category) ==
      if FindCategory(a, category) != -1 then FindCategory(a, category)
      else if x.category == category then |a| else -1
  {
    if a != [] && a[0].category != category {
      assert (a + [x])[1..] == a[1..] + [x];
      FindCategoryOfAppend(a[1..], x, category);
    }
  }
}
