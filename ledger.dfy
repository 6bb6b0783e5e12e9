/**
 * The transaction records of a profile and the pure parts of their store
 * operations: the patch merge of updateTransaction, the findIndex lookup by
 * id, and the id filter of deleteTransaction.
 */
module Ledger {
  import opened Wrappers
  import opened Months

  /**
   * One transaction. `kind` is the record's `type` field: "income" or
   * "expense" as entered, and every value other than "income" is booked as
   * an expense by the aggregator. `recurringId` is set only on instances
   * materialised from a recurring rule.
   */
  datatype Transaction = Transaction(
    id: string,
    name: string,
    amount: real,
    kind: string,
    category: string,
    timestamp: int,
    recurringId: Option<string>)

  predicate IsIncome(t: Transaction)
  {
    t.kind == "income"
  }

  /**
   * The local-time calendar, which the model does not compute:
   * `monthOf(ts)` is (new Date(ts).getFullYear(), getMonth()), and
   * `startOfDay(ym, day)` is new Date(ym.year, ym.month, day).getTime().
   */
  datatype Clock = Clock(monthOf: int -> YearMonth, startOfDay: (YearMonth, int) -> int)

  /**
   * In month `now`, the start of each day 1..28 falls inside `now` again.
   * The local calendar does this for every month it can represent (not for
   * years 0..99, which the Date constructor reads as 1900..1999).
   */
  ghost predicate Consistent(clock: Clock, now: YearMonth)
  {
    forall day: int :: 1 <= day <= 28 ==> clock.monthOf(clock.startOfDay(now, day)) == now
  }

  /** The fields a patch object carries; an absent field keeps the old value. */
  datatype Patch = Patch(
    id: Option<string>,
    name: Option<string>,
    amount: Option<real>,
    kind: Option<string>,
    category: Option<string>,
    timestamp: Option<int>,
    recurringId: Option<Option<string>>)

  const EmptyPatch := Patch(None, None, None, None, None, None, None)

  function Pick<T>(patched: Option<T>, current: T): T
  {
    if patched.Some? then patched.value else current
  }

  /** The object spread `{ ...t, ...patch }`: patch fields override. */
  function Merge(t: Transaction, p: Patch): Transaction
  {
    Transaction(
      Pick(p.id, t.id),
      Pick(p.name, t.name),
      Pick(p.amount, t.amount),
      Pick(p.kind, t.kind),
      Pick(p.category, t.category),
      Pick(p.timestamp, t.timestamp),
      Pick(p.recurringId, t.recurringId))
  }

  /** An empty patch leaves a record as it is, and applying a patch twice is applying it once. */
  lemma MergeLaws(t: Transaction, p: Patch)
    ensures Merge(t, EmptyPatch) == t
    ensures Merge(Merge(t, p), p) == Merge(t, p)
  {
  }

  /** `transactions.findIndex(t => t.id === id)`: the first index with that id, or -1. */
  function FindIndex(txs: seq<Transaction>, id: string): (r: int)
    ensures -1 <= r < |txs|
    ensures r == -1 <==> forall k :: 0 <= k < |txs| ==> txs[k].id != id
    ensures 0 <= r ==> txs[r].id == id && forall k :: 0 <= k < r ==> txs[k].id != id
  {
    if txs == [] then -1
    else if txs[0].id == id then 0
    else
      var r := FindIndex(txs[1..], id);
      if r == -1 then -1 else r + 1
  }

  function CountId(txs: seq<Transaction>, id: string): nat
  {
    if txs == [] then 0 else (if txs[0].id == id then 1 else 0) + CountId(txs[1..], id)
  }

  /** `transactions.filter(t => t.id !== id)`. */
  function WithoutId(txs: seq<Transaction>, id: string): (r: seq<Transaction>)
    ensures forall t :: t in r <==> t in txs && t.id != id
    ensures |r| == |txs| - CountId(txs, id)
  {
    if txs == [] then []
    else if txs[0].id == id then WithoutId(txs[1..], id)
    else [txs[0]] + WithoutId(txs[1..], id)
  }

  /**
   * The filter keeps the surviving entries in their original order: it
   * distributes over concatenation, so filtering a list is filtering each
   * part and joining the results.
   */
  lemma {:induction false} WithoutIdKeepsOrder(a: seq<Transaction>, b: seq<Transaction>, id: string)
    ensures WithoutId(a + b, id) == WithoutId(a, id) + WithoutId(b, id)
  {
    if a == [] {
      assert a + b == b;
    } else {
      assert (a + b)[1..] == a[1..] + b;
      WithoutIdKeepsOrder(a[1..], b, id);
    }
  }

  /** Deleting an id that is not present changes nothing. */
  lemma {:induction false} WithoutAbsentId(txs: seq<Transaction>, id: string)
    requires forall k :: 0 <= k < |txs| ==> txs[k].id != id
    ensures WithoutId(txs, id) == txs
  {
    if txs != [] {
      WithoutAbsentId(txs[1..], id);
    }
  }
}
