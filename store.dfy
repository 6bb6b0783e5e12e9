/**
 * The state of one profile and the operations of script.js that update it
 * in place: updateTransaction, deleteTransaction, the "add budget" handler
 * and processRecurring. The profile is passed explicitly rather than read
 * from the global `app` object.
 */
module Store {
  import opened Wrappers
  import opened Months
  import opened Ledger
  import opened Budgets
  import opened Recurring

  class ProfileState {
    var transactions: seq<Transaction>
    var budgets: seq<Budget>
    var recurring: seq<Rule>
    /** The RecurringKey of the last month processRecurring ran in; None until its first run. */
    var lastRecurringMonth: Option<string>

    /** A fresh profile, as initialProfileState builds it. */
    constructor ()
      ensures transactions == [] && budgets == [] && recurring == []
      ensures lastRecurringMonth == None
    {
      transactions := [];
      budgets := [];
      recurring := [];
      lastRecurringMonth := None;
    }

    /**
     * Replaces the first transaction with this id by its merge with the
     * patch; answers false, changing nothing, when no transaction has the id.
     */
    method UpdateTransaction(id: string, patch: Patch) returns (found: bool)
      modifies this
      ensures found <==> exists k :: 0 <= k < |old(transactions)| && old(transactions)[k].id == id
      ensures !found ==> transactions == old(transactions)
      ensures found ==>
        var idx := FindIndex(old(transactions), id);
        transactions == old(transactions)[idx := Merge(old(transactions)[idx], patch)]
      ensures |transactions| == |old(transactions)|
      ensures budgets == old(budgets) && recurring == old(recurring)
      ensures lastRecurringMonth == old(lastRecurringMonth)
    {
      var idx := FindIndex(transactions, id);
      if idx == -1 {
        return false;
      }
      transactions := transactions[idx := Merge(transactions[idx], patch)];
      return true;
    }

    /** Removes every transaction with this id, keeping the others in order. */
    method DeleteTransaction(id: string)
      modifies this
      ensures transactions == WithoutId(old(transactions), id)
      ensures forall t :: t in transactions <==> t in old(transactions) && t.id != id
      ensures budgets == old(budgets) && recurring == old(recurring)
      ensures lastRecurringMonth == old(lastRecurringMonth)
    {
      transactions := WithoutId(transactions, id);
    }

    /**
     * The "add budget" click handler: rejects an empty category or a limit
     * that is NaN or not positive; otherwise sets the limit of the category's
     * budget, appending a budget when the category has none.
     */
    method AddBudget(category: string, limit: Option<real>) returns (accepted: bool)
      modifies this
      ensures accepted == ValidInput(category, limit)
      ensures budgets == Upsert(old(budgets), category, limit)
      ensures old(UniqueCategories(budgets)) ==> UniqueCategories(budgets)
      ensures transactions == old(transactions) && recurring == old(recurring)
      ensures lastRecurringMonth == old(lastRecurringMonth)
    {
      if category == "" || limit.None? || limit.value <= 0.0 {
        return false;
      }
      var lim := limit.value;
      var idx := FindCategory(budgets, category);
      if idx != -1 {
        budgets := budgets[idx := budgets[idx].(limit := lim)];
      } else {
        budgets := budgets + [Budget(category, lim)];
      }
      return true;
    }

    /**
     * Materialises the recurring rules for the month `now`, once per month:
     * when lastRecurringMonth already holds this month's key nothing
     * changes; otherwise each rule, in order, appends its instance unless
     * the list holds one for the month, and the key is recorded.
     * `uid(i)` is the id minted for rule i.
     */
    method ProcessRecurring(now: YearMonth, clock: Clock, uid: nat -> string)
      modifies this
      ensures old(lastRecurringMonth) == Some(RecurringKey(now)) ==> transactions == old(transactions)
      ensures old(lastRecurringMonth) != Some(RecurringKey(now)) ==>
        transactions == Materialize(old(transactions), old(recurring), now, clock, uid)
      ensures lastRecurringMonth == Some(RecurringKey(now))
      ensures budgets == old(budgets) && recurring == old(recurring)
    {
      var key := RecurringKey(now);
      if lastRecurringMonth == Some(key) {
        return;
      }
      var i := 0;
      while i < |recurring|
        invariant 0 <= i <= |recurring|
        invariant transactions == Materialize(old(transactions), recurring[..i], now, clock, uid)
        invariant budgets == old(budgets) && recurring == old(recurring)
      {
        var rule := recurring[i];
        assert recurring[..i + 1][..i] == recurring[..i];
        var present := HasInstance(transactions, rule.id, now, clock.monthOf);
        if !present {
          var day := ClampDay(rule.day);
          transactions := transactions + [Transaction(uid(i), rule.name, rule.amount, rule.kind,
                                                      rule.category, clock.startOfDay(now, day),
                                                      Some(rule.id))];
        }
        i := i + 1;
      }
      assert recurring[..i] == recurring;
      lastRecurringMonth := Some(key);
    }
  }
}
