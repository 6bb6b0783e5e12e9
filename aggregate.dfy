/**
 * getLastNMonths: the n calendar months ending at the current month, each
 * with the income and expense booked in it.
 */
module Aggregate {
  import opened Wrappers
  import opened Months
  import opened Ledger

  /** One month of the window; `month` stands for the Date its locale label is printed from. */
  datatype Bucket = Bucket(key: string, month: YearMonth, income: real, expense: real)

  /** The n consecutive months ending at `now`, oldest first. */
  function Window(n: nat, now: YearMonth): (w: seq<YearMonth>)
    ensures |w| == n
    ensures forall i :: 0 <= i < n ==> Index(w[i]) == Index(now) - (n - 1) + i
  {
    if n == 0 then [] else Window(n - 1, AddMonths(now, -1)) + [now]
  }

  /** The window ends at the current month, and each month follows the one before it. */
  lemma WindowIsConsecutive(n: nat, now: YearMonth)
    ensures n > 0 ==> Window(n, now)[n - 1] == now
    ensures forall i :: 0 <= i < n - 1 ==> Window(n, now)[i + 1] == AddMonths(Window(n, now)[i], 1)
    ensures forall i, j :: 0 <= i < j < n ==> Index(Window(n, now)[i]) < Index(Window(n, now)[j])
  {
    var w := Window(n, now);
    if n > 0 {
      IndexInjective(w[n - 1], now);
    }
    forall i | 0 <= i < n - 1 ensures w[i + 1] == AddMonths(w[i], 1) {
      IndexInjective(w[i + 1], AddMonths(w[i], 1));
    }
  }

  /** Sum of the amounts booked in month `ym` as income (income == true) or as expense. */
  function MonthTotal(txs: seq<Transaction>, monthOf: int -> YearMonth, ym: YearMonth, income: bool): real
  {
    if txs == [] then 0.0
    else
      var t := txs[|txs| - 1];
      MonthTotal(txs[..|txs| - 1], monthOf, ym, income)
      + (if monthOf(t.timestamp) == ym && IsIncome(t) == income then t.amount else 0.0)
  }

  /** `arr.find(x => x.key === key)`, as the index of the slot found, or -1. */
  function FindSlot(arr: seq<Bucket>, key: string): (r: int)
    ensures -1 <= r < |arr|
    ensures r == -1 <==> forall k :: 0 <= k < |arr| ==> arr[k].key != key
    ensures 0 <= r ==> arr[r].key == key
    ensures 0 <= r ==> forall k :: 0 <= k < r ==> arr[k].key != key
  {
    if arr == [] then -1
    else if arr[0].key == key then 0
    else
      var r := FindSlot(arr[1..], key);
      if r == -1 then -1 else r + 1
  }

  /** A bucket after booking `t`: its side grows by the amount when `t` is dated in the bucket's month. */
  function Credit(b: Bucket, t: Transaction, monthOf: int -> YearMonth): Bucket
  {
    if b.key != MonthKey(monthOf(t.timestamp)) then b
    else if IsIncome(t) then b.(income := b.income + t.amount)
    else b.(expense := b.expense + t.amount)
  }

  /** The buckets of the n months ending at `now`, each with the month's income and expense. */
  ghost function WindowBuckets(n: nat, now: YearMonth, txs: seq<Transaction>, monthOf: int -> YearMonth): seq<Bucket>
  {
    var w := Window(n, now);
    seq(n, k requires 0 <= k < n =>
      Bucket(MonthKey(w[k]), w[k], MonthTotal(txs, monthOf, w[k], true), MonthTotal(txs, monthOf, w[k], false)))
  }

  /**
   * The forEach callback of getLastNMonths: find the slot whose key is the
   * transaction's month key and add the amount to its income when the type
   * is "income", to its expense otherwise. Keys are distinct, so crediting
   * the found slot is crediting every bucket of that key.
   */
  method BookTransaction(arr: seq<Bucket>, t: Transaction, monthOf: int -> YearMonth) returns (next: seq<Bucket>)
    requires forall i, j :: 0 <= i < j < |arr| ==> arr[i].key != arr[j].key
    ensures |next| == |arr|
    ensures forall k :: 0 <= k < |arr| ==> next[k] == Credit(arr[k], t, monthOf)
  {
    next := arr;
    var d := monthOf(t.timestamp);
    var key := MonthKey(d);
    var slot := FindSlot(next, key);
    if slot != -1 {
      if t.kind == "income" {
        next := next[slot := next[slot].(income := next[slot].income + t.amount)];
      } else {
        next := next[slot := next[slot].(expense := next[slot].expense + t.amount)];
      }
    }
  }

  /**
   * The first loop of getLastNMonths: one empty bucket per month of the
   * window, oldest first, each keyed by its month. A non-positive n gives no
   * bucket.
   */
  method EmptyWindow(n: int, now: YearMonth) returns (arr: seq<Bucket>)
    ensures |arr| == if n < 0 then 0 else n
    ensures forall k :: 0 <= k < |arr| ==>
      arr[k] == Bucket(MonthKey(Window(|arr|, now)[k]), Window(|arr|, now)[k], 0.0, 0.0)
  {
    ghost var len: nat := if n < 0 then 0 else n;
    ghost var w := Window(len, now);
    arr := [];
    var i := n - 1;
    while i >= 0
      invariant i <= n - 1 && (n >= 0 ==> i >= -1) && (n < 0 ==> i == n - 1)
      invariant |arr| == n - 1 - i
      invariant forall k :: 0 <= k < |arr| ==> arr[k] == Bucket(MonthKey(w[k]), w[k], 0.0, 0.0)
    {
      var d := Normalize(now.year, now.month - i);
      IndexInjective(d, w[|arr|]);
      arr := arr + [Bucket(MonthKey(d), d, 0.0, 0.0)];
      i := i - 1;
    }
    assert |arr| == len;
  }

  /**
   * getLastNMonths(n): the buckets of the n months ending at `now`, oldest
   * first, each holding the income and the expense booked in its month; a
   * transaction outside the window is ignored. A non-positive n gives no
   * bucket.
   */
  method GetLastNMonths(n: int, now: YearMonth, txs: seq<Transaction>, monthOf: int -> YearMonth)
    returns (arr: seq<Bucket>)
    ensures |arr| == if n < 0 then 0 else n
    ensures forall k :: 0 <= k < |arr| ==>
      var ym := Window(|arr|, now)[k];
      arr[k] == Bucket(MonthKey(ym), ym, MonthTotal(txs, monthOf, ym, true), MonthTotal(txs, monthOf, ym, false))
    ensures arr == WindowBuckets(|arr|, now, txs, monthOf)
  {
    arr := EmptyWindow(n, now);
    ghost var len := |arr|;
    ghost var w := Window(len, now);
    WindowKeysDistinct(len, now);
    assert txs[..0] == [];

    var j := 0;
    while j < |txs|
      invariant 0 <= j <= |txs|
      invariant |arr| == len
      invariant forall k :: 0 <= k < len ==>
        arr[k] == Bucket(MonthKey(w[k]), w[k], MonthTotal(txs[..j], monthOf, w[k], true),
                         MonthTotal(txs[..j], monthOf, w[k], false))
    {
      var t := txs[j];
      ghost var before := arr;
      arr := BookTransaction(arr, t, monthOf);
      assert txs[..j + 1] == txs[..j] + [t];
      BookingKeepsTotals(w, before, arr, txs[..j], t, monthOf);
      j := j + 1;
    }
    assert txs[..j] == txs;
    BucketsAreWindowBuckets(arr, now, txs, monthOf);
  }

  lemma BucketsAreWindowBuckets(arr: seq<Bucket>, now: YearMonth, txs: seq<Transaction>, monthOf: int -> YearMonth)
    requires forall k :: 0 <= k < |arr| ==>
      var ym := Window(|arr|, now)[k];
      arr[k] == Bucket(MonthKey(ym), ym, MonthTotal(txs, monthOf, ym, true), MonthTotal(txs, monthOf, ym, false))
    ensures arr == WindowBuckets(|arr|, now, txs, monthOf)
  {
  }

  /** Crediting every bucket of month-total buckets with `t` gives the totals with `t` booked. */
  lemma BookingKeepsTotals(w: seq<YearMonth>, before: seq<Bucket>, after: seq<Bucket>,
                           txs: seq<Transaction>, t: Transaction, monthOf: int -> YearMonth)
    requires |before| == |after| == |w|
    requires forall k :: 0 <= k < |w| ==>
      before[k] == Bucket(MonthKey(w[k]), w[k], MonthTotal(txs, monthOf, w[k], true),
                          MonthTotal(txs, monthOf, w[k], false))
    requires forall k :: 0 <= k < |w| ==> after[k] == Credit(before[k], t, monthOf)
    ensures forall k :: 0 <= k < |w| ==>
      after[k] == Bucket(MonthKey(w[k]), w[k], MonthTotal(txs + [t], monthOf, w[k], true),
                         MonthTotal(txs + [t], monthOf, w[k], false))
  {
    forall k | 0 <= k < |w|
      ensures after[k] == Bucket(MonthKey(w[k]), w[k], MonthTotal(txs + [t], monthOf, w[k], true),
                                 MonthTotal(txs + [t], monthOf, w[k], false))
    {
      MonthKeyInjective(w[k], monthOf(t.timestamp));
      OneMoreTransaction(txs, t, monthOf, w[k], true);
      OneMoreTransaction(txs, t, monthOf, w[k], false);
    }
  }

  lemma WindowKeysDistinct(n: nat, now: YearMonth)
    ensures forall i, j :: 0 <= i < j < n ==> MonthKey(Window(n, now)[i]) != MonthKey(Window(n, now)[j])
  {
    var w := Window(n, now);
    WindowIsConsecutive(n, now);
    forall i, j | 0 <= i < j < n ensures MonthKey(w[i]) != MonthKey(w[j]) {
      MonthKeyInjective(w[i], w[j]);
    }
  }

  // -----------------------------------------------------------------------
  // Where each transaction lands.

  /** One more transaction adds its amount to its own month's side, if any. */
  lemma {:induction false} OneMoreTransaction(txs: seq<Transaction>, t: Transaction, monthOf: int -> YearMonth,
                                              ym: YearMonth, income: bool)
    ensures MonthTotal(txs + [t], monthOf, ym, income) ==
      MonthTotal(txs, monthOf, ym, income)
      + (if monthOf(t.timestamp) == ym && IsIncome(t) == income then t.amount else 0.0)
  {
    assert (txs + [t])[..|txs|] == txs;
  }

  /**
   * Booking one more transaction t over the window: the bucket of t's month
   * grows on t's side (income when its type is "income", expense otherwise)
   * by t's amount, every other bucket and the other side stay as they were;
   * at most one bucket has t's month, and one has it exactly when t's month
   * is one of the n months ending at `now`.
   */
  lemma TransactionLandsOnce(n: nat, now: YearMonth, txs: seq<Transaction>, t: Transaction,
                             monthOf: int -> YearMonth)
    ensures forall k :: 0 <= k < n ==>
      MonthTotal(txs + [t], monthOf, Window(n, now)[k], IsIncome(t)) ==
        MonthTotal(txs, monthOf, Window(n, now)[k], IsIncome(t))
        + (if Window(n, now)[k] == monthOf(t.timestamp) then t.amount else 0.0) &&
      MonthTotal(txs + [t], monthOf, Window(n, now)[k], !IsIncome(t)) ==
        MonthTotal(txs, monthOf, Window(n, now)[k], !IsIncome(t))
    ensures forall k1, k2 :: 0 <= k1 < k2 < n ==>
      Window(n, now)[k1] != monthOf(t.timestamp) || Window(n, now)[k2] != monthOf(t.timestamp)
    ensures (exists k :: 0 <= k < n && Window(n, now)[k] == monthOf(t.timestamp)) <==>
      Index(now) - n < Index(monthOf(t.timestamp)) <= Index(now)
  {
    var w := Window(n, now);
    var m := monthOf(t.timestamp);
    forall k | 0 <= k < n
      ensures MonthTotal(txs + [t], monthOf, w[k], IsIncome(t)) ==
                MonthTotal(txs, monthOf, w[k], IsIncome(t)) + (if w[k] == m then t.amount else 0.0)
      ensures MonthTotal(txs + [t], monthOf, w[k], !IsIncome(t)) == MonthTotal(txs, monthOf, w[k], !IsIncome(t))
    {
      OneMoreTransaction(txs, t, monthOf, w[k], IsIncome(t));
      OneMoreTransaction(txs, t, monthOf, w[k], !IsIncome(t));
    }
    WindowIsConsecutive(n, now);
    if Index(now) - n < Index(m) <= Index(now) {
      var k := Index(m) - (Index(now) - (n - 1));
      IndexInjective(w[k], m);
    }
  }

  /** Total booked to one side (income or expense) over all transactions. */
  function KindTotal(txs: seq<Transaction>, income: bool): real
  {
    if txs == [] then 0.0
    else
      var t := txs[|txs| - 1];
      KindTotal(txs[..|txs| - 1], income) + (if IsIncome(t) == income then t.amount else 0.0)
  }

  /** Total booked to one side by the transactions whose month is one of `months`. */
  function WithinTotal(txs: seq<Transaction>, monthOf: int -> YearMonth, months: seq<YearMonth>, income: bool): real
  {
    if txs == [] then 0.0
    else
      var t := txs[|txs| - 1];
      WithinTotal(txs[..|txs| - 1], monthOf, months, income)
      + (if monthOf(t.timestamp) in months && IsIncome(t) == income then t.amount else 0.0)
  }

  /** The sum of one side over the buckets of `months`. */
  function BucketsTotal(txs: seq<Transaction>, monthOf: int -> YearMonth, months: seq<YearMonth>, income: bool): real
  {
    if months == [] then 0.0
    else BucketsTotal(txs, monthOf, months[..|months| - 1], income)
         + MonthTotal(txs, monthOf, months[|months| - 1], income)
  }

  lemma {:induction false} WithinTotalOfOneMoreMonth(txs: seq<Transaction>, monthOf: int -> YearMonth,
                                                     months: seq<YearMonth>, m: YearMonth, income: bool)
    requires m !in months
    ensures WithinTotal(txs, monthOf, months + [m], income)
         == WithinTotal(txs, monthOf, months, income) + MonthTotal(txs, monthOf, m, income)
  {
    if txs != [] {
      WithinTotalOfOneMoreMonth(txs[..|txs| - 1], monthOf, months, m, income);
    }
  }

  /**
   * Over months that are pairwise distinct, the buckets together hold
   * exactly the amounts of the transactions dated in those months: each
   * such transaction is counted in one bucket, and no other is counted.
   */
  lemma {:induction false} BucketsHoldWindowTotal(txs: seq<Transaction>, monthOf: int -> YearMonth,
                                                  months: seq<YearMonth>, income: bool)
    requires forall i, j :: 0 <= i < j < |months| ==> months[i] != months[j]
    ensures BucketsTotal(txs, monthOf, months, income) == WithinTotal(txs, monthOf, months, income)
  {
    if months == [] {
      WithinTotalOfNoMonth(txs, monthOf, income);
    } else {
      var n := |months| - 1;
      BucketsHoldWindowTotal(txs, monthOf, months[..n], income);
      assert months[..n] + [months[n]] == months;
      WithinTotalOfOneMoreMonth(txs, monthOf, months[..n], months[n], income);
    }
  }

  lemma {:induction false} WithinTotalOfNoMonth(txs: seq<Transaction>, monthOf: int -> YearMonth, income: bool)
    ensures WithinTotal(txs, monthOf, [], income) == 0.0
  {
    if txs != [] {
      WithinTotalOfNoMonth(txs[..|txs| - 1], monthOf, income);
    }
  }

  /** With non-negative amounts, what falls in some of the months is at most the overall total. */
  lemma {:induction false} WithinTotalAtMostTotal(txs: seq<Transaction>, monthOf: int -> YearMonth,
                                                  months: seq<YearMonth>, income: bool)
    requires forall k :: 0 <= k < |txs| ==> txs[k].amount >= 0.0
    ensures WithinTotal(txs, monthOf, months, income) <= KindTotal(txs, income)
  {
    if txs != [] {
      WithinTotalAtMostTotal(txs[..|txs| - 1], monthOf, months, income);
    }
  }

  /**
   * With non-negative amounts, the income (and the expense) summed over the
   * window's buckets never exceeds the income (expense) of all transactions.
   */
  lemma WindowTotalAtMostTotal(n: nat, now: YearMonth, txs: seq<Transaction>, monthOf: int -> YearMonth,
                               income: bool)
    requires forall k :: 0 <= k < |txs| ==> txs[k].amount >= 0.0
    ensures BucketsTotal(txs, monthOf, Window(n, now), income) <= KindTotal(txs, income)
  {
    var w := Window(n, now);
    WindowIsConsecutive(n, now);
    BucketsHoldWindowTotal(txs, monthOf, w, income);
    WithinTotalAtMostTotal(txs, monthOf, w, income);
  }

  /** The three months ending in a February run from December of the year before. */
  lemma WindowAcrossNewYear(year: int)
    ensures Window(3, YearMonth(year, 1)) == [YearMonth(year - 1, 11), YearMonth(year, 0), YearMonth(year, 1)]
  {
    var w := Window(3, YearMonth(year, 1));
    var expected := [YearMonth(year - 1, 11), YearMonth(year, 0), YearMonth(year, 1)];
    forall i | 0 <= i < 3 ensures w[i] == expected[i] {
      IndexInjective(w[i], expected[i]);
    }
  }

  /**
   * Income 1000 (dated 5) and expense 200 (dated 10) in January 2024,
   * expense 300 (dated 102) in February: the December bucket stays 0/0,
   * January holds 1000/200 and February 0/300.
   */
  lemma ThreeMonthExample(monthOf: int -> YearMonth)
    requires monthOf(5) == YearMonth(2024, 0) && monthOf(10) == YearMonth(2024, 0)
    requires monthOf(102) == YearMonth(2024, 1)
    ensures var txs := [Transaction("a", "Salary", 1000.0, "income", "Salary", 5, None),
                        Transaction("b", "Food", 200.0, "expense", "Food", 10, None),
                        Transaction("c", "Rent", 300.0, "expense", "Bills", 102, None)];
      MonthTotal(txs, monthOf, YearMonth(2023, 11), true) == 0.0 &&
      MonthTotal(txs, monthOf, YearMonth(2023, 11), false) == 0.0 &&
      MonthTotal(txs, monthOf, YearMonth(2024, 0), true) == 1000.0 &&
      MonthTotal(txs, monthOf, YearMonth(2024, 0), false) == 200.0 &&
      MonthTotal(txs, monthOf, YearMonth(2024, 1), true) == 0.0 &&
      MonthTotal(txs, monthOf, YearMonth(2024, 1), false) == 300.0
  {
    var t0 := Transaction("a", "Salary", 1000.0, "income", "Salary", 5, None);
    var t1 := Transaction("b", "Food", 200.0, "expense", "Food", 10, None);
    var t2 := Transaction("c", "Rent", 300.0, "expense", "Bills", 102, None);
    assert IsIncome(t0) && !IsIncome(t1) && !IsIncome(t2);
    assert [] + [t0] == [t0] && [t0] + [t1] == [t0, t1] && [t0, t1] + [t2] == [t0, t1, t2];
    var months := [YearMonth(2023, 11), YearMonth(2024, 0), YearMonth(2024, 1)];
    forall k, income | 0 <= k < 3
      ensures MonthTotal([t0, t1, t2], monthOf, months[k], income) ==
        (if monthOf(5) == months[k] && income then 1000.0 else 0.0)
        + (if monthOf(10) == months[k] && !income then 200.0 else 0.0)
        + (if monthOf(102) == months[k] && !income then 300.0 else 0.0)
    {
      OneMoreTransaction([], t0, monthOf, months[k], income);
      OneMoreTransaction([t0], t1, monthOf, months[k], income);
      OneMoreTransaction([t0, t1], t2, monthOf, months[k], income);
    }
    assert months[0] == YearMonth(2023, 11) && months[1] == YearMonth(2024, 0) && months[2] == YearMonth(2024, 1);
  }
}
