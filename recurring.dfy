/**
 * Recurring rules and the transactions processRecurring materialises from
 * them in one month: for each rule in order, one instance dated on the rule's
 * day (clamped to 1..28) unless the list already holds an instance of that
 * rule in the month.
 */
module Recurring {
  import opened Wrappers
  import opened Months
  import opened Ledger

  /** A recurring rule; `day` is the day of month of the transaction it was created from. */
  datatype Rule = Rule(id: string, name: string, amount: real, kind: string, category: string, day: int)

  /** The day an instance is dated on: the rule's day when it is in 1..28, else the 1st. */
  function ClampDay(day: int): (d: int)
    ensures 1 <= d <= 28
    ensures d == day <==> 1 <= day <= 28
    ensures !(1 <= day <= 28) ==> d == 1
  {
    if 1 <= day <= 28 then day else 1
  }

  /** Some transaction of the list is an instance of rule `ruleId` dated in month `now`. */
  predicate HasInstance(txs: seq<Transaction>, ruleId: string, now: YearMonth, monthOf: int -> YearMonth)
  {
    exists j :: 0 <= j < |txs| && txs[j].recurringId == Some(ruleId) && monthOf(txs[j].timestamp) == now
  }

  /** The instance of `rule` for month `now`, with the freshly minted id `id`. */
  function Instance(rule: Rule, id: string, now: YearMonth, clock: Clock): Transaction
  {
    Transaction(id, rule.name, rule.amount, rule.kind, rule.category,
                clock.startOfDay(now, ClampDay(rule.day)), Some(rule.id))
  }

  /**
   * The transaction list after the rules were processed for month `now` in
   * order; `uid(i)` is the id minted for rule i. A rule sees the instances
   * appended for the rules before it.
   */
  function Materialize(txs: seq<Transaction>, rules: seq<Rule>, now: YearMonth, clock: Clock,
                       uid: nat -> string): seq<Transaction>
    decreases |rules|
  {
    if rules == [] then txs
    else
      var before := Materialize(txs, rules[..|rules| - 1], now, clock, uid);
      var rule := rules[|rules| - 1];
      if HasInstance(before, rule.id, now, clock.monthOf) then before
      else before + [Instance(rule, uid(|rules| - 1), now, clock)]
  }

  lemma HasInstanceOfExtension(a: seq<Transaction>, b: seq<Transaction>, ruleId: string,
                               now: YearMonth, monthOf: int -> YearMonth)
    requires |a| <= |b| && b[..|a|] == a
    requires HasInstance(a, ruleId, now, monthOf)
    ensures HasInstance(b, ruleId, now, monthOf)
  {
    var j :| 0 <= j < |a| && a[j].recurringId == Some(ruleId) && monthOf(a[j].timestamp) == now;
    assert b[j] == a[j];
  }

  /**
   * The indices of the rules whose instance `Materialize` appends, in the
   * order the instances are appended.
   */
  function AppendedRules(txs: seq<Transaction>, rules: seq<Rule>, now: YearMonth, clock: Clock,
                         uid: nat -> string): seq<nat>
    decreases |rules|
  {
    if rules == [] then []
    else
      var n := |rules| - 1;
      var before := Materialize(txs, rules[..n], now, clock, uid);
      var earlier := AppendedRules(txs, rules[..n], now, clock, uid);
      if HasInstance(before, rules[n].id, now, clock.monthOf) then earlier else earlier + [n]
  }

  /**
   * `r` is `txs` followed by one instance per index of `js`: the i-th
   * appended transaction is the instance of rule js[i] (with id uid(js[i])),
   * a rule that had no instance in `txs` in the month, and the indices
   * strictly increase.
   */
  predicate AppendedFrom(txs: seq<Transaction>, r: seq<Transaction>, js: seq<nat>, rules: seq<Rule>,
                         now: YearMonth, clock: Clock, uid: nat -> string)
  {
    |r| == |txs| + |js| && r[..|txs|] == txs &&
    (forall i :: 0 <= i < |js| ==>
       js[i] < |rules| && r[|txs| + i] == Instance(rules[js[i]], uid(js[i]), now, clock) &&
       !HasInstance(txs, rules[js[i]].id, now, clock.monthOf)) &&
    (forall i1, i2 :: 0 <= i1 < i2 < |js| ==> js[i1] < js[i2])
  }

  /**
   * Processing only appends: the old list is kept as a prefix, and the i-th
   * appended transaction is the instance of rule js[i], a rule that had no
   * instance in the month beforehand. The indices js strictly increase, so
   * each rule contributes at most one transaction, in rule order.
   */
  lemma {:induction false} MaterializeAppends(txs: seq<Transaction>, rules: seq<Rule>, now: YearMonth,
                                              clock: Clock, uid: nat -> string)
    ensures var js := AppendedRules(txs, rules, now, clock, uid);
      |js| <= |rules| && AppendedFrom(txs, Materialize(txs, rules, now, clock, uid), js, rules, now, clock, uid)
    decreases |rules|
  {
    if rules != [] {
      var n := |rules| - 1;
      var prefix := rules[..n];
      var before := Materialize(txs, prefix, now, clock, uid);
      var earlier := AppendedRules(txs, prefix, now, clock, uid);
      MaterializeAppends(txs, prefix, now, clock, uid);
      AppendedFromMoreRules(txs, before, earlier, prefix, rules, now, clock, uid);
      var rule := rules[n];
      if !HasInstance(before, rule.id, now, clock.monthOf) {
        if HasInstance(txs, rule.id, now, clock.monthOf) {
          HasInstanceOfExtension(txs, before, rule.id, now, clock.monthOf);
        }
        AppendedFromOneMore(txs, before, earlier, rules, now, clock, uid);
      }
    }
  }

  /** Facts about indices below |prefix| carry over to a rule list that extends it. */
  lemma AppendedFromMoreRules(txs: seq<Transaction>, r: seq<Transaction>, js: seq<nat>, prefix: seq<Rule>,
                              rules: seq<Rule>, now: YearMonth, clock: Clock, uid: nat -> string)
    requires |prefix| <= |rules| && rules[..|prefix|] == prefix
    requires AppendedFrom(txs, r, js, prefix, now, clock, uid)
    ensures AppendedFrom(txs, r, js, rules, now, clock, uid)
    ensures forall i :: 0 <= i < |js| ==> js[i] < |prefix|
  {
    forall i | 0 <= i < |js| ensures rules[js[i]] == prefix[js[i]] {
      assert rules[..|prefix|][js[i]] == rules[js[i]];
    }
  }

  /** Appending the instance of the last rule, which has no instance yet, keeps the shape. */
  lemma AppendedFromOneMore(txs: seq<Transaction>, r: seq<Transaction>, js: seq<nat>, rules: seq<Rule>,
                            now: YearMonth, clock: Clock, uid: nat -> string)
    requires |rules| >= 1
    requires AppendedFrom(txs, r, js, rules, now, clock, uid)
    requires forall i :: 0 <= i < |js| ==> js[i] < |rules| - 1
    requires !HasInstance(txs, rules[|rules| - 1].id, now, clock.monthOf)
    ensures var n := |rules| - 1;
      AppendedFrom(txs, r + [Instance(rules[n], uid(n), now, clock)], js + [n], rules, now, clock, uid)
  {
    var n := |rules| - 1;
    var r' := r + [Instance(rules[n], uid(n), now, clock)];
    var js' := js + [n];
    assert r'[..|txs|] == txs by {
      assert r'[..|r|] == r;
    }
    forall i | 0 <= i < |js'|
      ensures js'[i] < |rules| && r'[|txs| + i] == Instance(rules[js'[i]], uid(js'[i]), now, clock)
    {
      if i < |js| {
        assert r'[|txs| + i] == r[|txs| + i];
      }
    }
  }

  /** With a real calendar, after processing every rule has an instance in the month. */
  lemma {:induction false} MaterializeCovers(txs: seq<Transaction>, rules: seq<Rule>, now: YearMonth,
                                             clock: Clock, uid: nat -> string)
    requires Consistent(clock, now)
    ensures forall j :: 0 <= j < |rules| ==>
      HasInstance(Materialize(txs, rules, now, clock, uid), rules[j].id, now, clock.monthOf)
    decreases |rules|
  {
    if rules != [] {
      var n := |rules| - 1;
      var prefix := rules[..n];
      var before := Materialize(txs, prefix, now, clock, uid);
      var r := Materialize(txs, rules, now, clock, uid);
      MaterializeCovers(txs, prefix, now, clock, uid);
      assert |before| <= |r| && r[..|before|] == before;
      forall j | 0 <= j < |rules| ensures HasInstance(r, rules[j].id, now, clock.monthOf) {
        if j < n {
          assert rules[j] == prefix[j];
          HasInstanceOfExtension(before, r, rules[j].id, now, clock.monthOf);
        } else if !HasInstance(before, rules[n].id, now, clock.monthOf) {
          var inst := Instance(rules[n], uid(n), now, clock);
          assert clock.monthOf(clock.startOfDay(now, ClampDay(rules[n].day))) == now;
          assert r[|before|] == inst;
        }
      }
    }
  }

  /** When every rule already has an instance in the month, processing adds nothing. */
  lemma {:induction false} MaterializeWhenCovered(txs: seq<Transaction>, rules: seq<Rule>, now: YearMonth,
                                                  clock: Clock, uid: nat -> string)
    requires forall j :: 0 <= j < |rules| ==> HasInstance(txs, rules[j].id, now, clock.monthOf)
    ensures Materialize(txs, rules, now, clock, uid) == txs
    decreases |rules|
  {
    if rules != [] {
      var n := |rules| - 1;
      MaterializeWhenCovered(txs, rules[..n], now, clock, uid);
    }
  }

  /**
   * Per-month idempotence that does not rely on lastRecurringMonth: with a
   * real calendar, processing the same month a second time appends nothing.
   */
  lemma MaterializeIdempotent(txs: seq<Transaction>, rules: seq<Rule>, now: YearMonth,
                              clock: Clock, uid: nat -> string, uid2: nat -> string)
    requires Consistent(clock, now)
    ensures var once := Materialize(txs, rules, now, clock, uid);
      Materialize(once, rules, now, clock, uid2) == once
  {
    MaterializeCovers(txs, rules, now, clock, uid);
    MaterializeWhenCovered(Materialize(txs, rules, now, clock, uid), rules, now, clock, uid2);
  }

  /**
   * With a real calendar, no two transactions appended in one run are
   * instances of the same rule id: a rule id listed twice is materialised once.
   */
  lemma {:induction false} MaterializeDistinctInstances(txs: seq<Transaction>, rules: seq<Rule>, now: YearMonth,
                                                        clock: Clock, uid: nat -> string)
    requires Consistent(clock, now)
    ensures var r := Materialize(txs, rules, now, clock, uid);
      forall k1, k2 :: |txs| <= k1 < k2 < |r| ==> r[k1].recurringId != r[k2].recurringId
    decreases |rules|
  {
    if rules != [] {
      var n := |rules| - 1;
      var prefix := rules[..n];
      var before := Materialize(txs, prefix, now, clock, uid);
      MaterializeDistinctInstances(txs, prefix, now, clock, uid);
      assert var q := Materialize(txs, prefix, now, clock, uid);
        forall k1, k2 :: |txs| <= k1 < k2 < |q| ==> q[k1].recurringId != q[k2].recurringId;
      MaterializeAppends(txs, prefix, now, clock, uid);
      var rule := rules[n];
      if !HasInstance(before, rule.id, now, clock.monthOf) {
        var r := before + [Instance(rule, uid(n), now, clock)];
        assert Materialize(txs, rules, now, clock, uid) == r;
        AppendedAreOtherRules(txs, before, AppendedRules(txs, prefix, now, clock, uid), prefix, rule.id,
                              now, clock, uid);
        forall k1, k2 | |txs| <= k1 < k2 < |r| ensures r[k1].recurringId != r[k2].recurringId {
          if k2 < |before| {
            assert r[k1] == before[k1] && r[k2] == before[k2];
          } else {
            assert r[k1] == before[k1] && r[k2] == Instance(rule, uid(n), now, clock);
          }
        }
      } else {
        assert Materialize(txs, rules, now, clock, uid) == before;
      }
    }
  }

  /**
   * In a consistent month, an appended instance is dated in the month, so a
   * rule without an instance in the list is none of the appended ones.
   */
  lemma AppendedAreOtherRules(txs: seq<Transaction>, r: seq<Transaction>, js: seq<nat>, rules: seq<Rule>,
                              ruleId: string, now: YearMonth, clock: Clock, uid: nat -> string)
    requires Consistent(clock, now)
    requires AppendedFrom(txs, r, js, rules, now, clock, uid)
    requires !HasInstance(r, ruleId, now, clock.monthOf)
    ensures forall k :: |txs| <= k < |r| ==> r[k].recurringId != Some(ruleId)
  {
    forall k | |txs| <= k < |r| ensures r[k].recurringId != Some(ruleId) {
      var j := js[k - |txs|];
      assert r[|txs| + (k - |txs|)] == Instance(rules[j], uid(j), now, clock);
      assert clock.monthOf(r[k].timestamp) == now;
    }
  }
}
