/**
 * `collections.Counter` as the core uses it: a dictionary from keys to
 * non-negative counts that remembers insertion order and keeps keys whose
 * count is zero.  A counter is an association list in insertion order; the
 * operations keep its keys distinct.
 */
module Counters {

  /** A calendar date (`datetime.date`). */
  datatype Date = Date(year: int, month: int, day: int)

  /** `datetime(d.year, d.month, 1).date()` */
  function MonthStart(d: Date): Date {
    Date(d.year, d.month, 1)
  }

  type Counter<K> = seq<(K, nat)>

  /** `c[k]`: the count of `k`, 0 when absent (the sum of its entries). */
  function Count<K(==,!new)>(c: Counter<K>, k: K): nat {
    if c == [] then 0 else (if c[0].0 == k then c[0].1 else 0) + Count(c[1..], k)
  }

  /** `sum(c.values())` */
  function Total<K>(c: Counter<K>): nat {
    if c == [] then 0 else c[0].1 + Total(c[1..])
  }

  function Keys<K>(c: Counter<K>): set<K> {
    set i | 0 <= i < |c| :: c[i].0
  }

  predicate Distinct<K(==,!new)>(c: Counter<K>) {
    forall i, j | 0 <= i < j < |c| :: c[i].0 != c[j].0
  }

  /** Every count is positive (what `Counter(iterable)` builds). */
  predicate Positive<K>(c: Counter<K>) {
    forall i | 0 <= i < |c| :: c[i].1 > 0
  }

  lemma {:induction false} CountAbsent<K(!new)>(c: Counter<K>, k: K)
    requires k !in Keys(c)
    ensures Count(c, k) == 0
  {
    if c != [] {
      assert Keys(c[1..]) <= Keys(c) by {
        forall x | x in Keys(c[1..]) ensures x in Keys(c) {
          var i :| 0 <= i < |c[1..]| && c[1..][i].0 == x;
          assert c[i + 1].0 == x;
        }
      }
      CountAbsent(c[1..], k);
    }
  }

  lemma KeysCons<K>(e: (K, nat), c: Counter<K>)
    ensures Keys([e] + c) == {e.0} + Keys(c)
  {
    var s := [e] + c;
    assert s[0] == e;
    assert e.0 in Keys(s);
    forall x | x in Keys(s) ensures x in {e.0} + Keys(c) {
      var i :| 0 <= i < |s| && s[i].0 == x;
      if i == 0 { assert s[0] == e; } else { assert s[i] == c[i - 1]; }
    }
    forall x | x in Keys(c) ensures x in Keys(s) {
      var i :| 0 <= i < |c| && c[i].0 == x;
      assert s[i + 1].0 == x;
    }
  }

  lemma ConsSums<K(!new)>(e: (K, nat), c: Counter<K>)
    ensures forall j :: Count([e] + c, j) == (if e.0 == j then e.1 else 0) + Count(c, j)
    ensures Total([e] + c) == e.1 + Total(c)
  {
    assert ([e] + c)[1..] == c;
  }

  /** With distinct keys, `c[k]` is the one entry's count. */
  lemma {:induction false} CountOfDistinct<K(!new)>(c: Counter<K>, i: nat)
    requires Distinct(c) && i < |c|
    ensures Count(c, c[i].0) == c[i].1
  {
    assert Distinct(c[1..]) by {
      forall x, y | 0 <= x < y < |c[1..]| ensures c[1..][x].0 != c[1..][y].0 {
        assert c[1..][x] == c[x + 1] && c[1..][y] == c[y + 1];
      }
    }
    if i == 0 {
      assert c[0].0 !in Keys(c[1..]) by {
        forall j | 0 <= j < |c[1..]| ensures c[1..][j].0 != c[0].0 { assert c[1..][j] == c[j + 1]; }
      }
      CountAbsent(c[1..], c[0].0);
    } else {
      CountOfDistinct(c[1..], i - 1);
      assert c[1..][i - 1] == c[i];
    }
  }

  lemma DistinctTail<K(!new)>(c: Counter<K>)
    requires Distinct(c) && c != []
    ensures Distinct(c[1..]) && c[0].0 !in Keys(c[1..])
  {
    forall i, j | 0 <= i < j < |c[1..]| ensures c[1..][i].0 != c[1..][j].0 {
      assert c[1..][i] == c[i + 1] && c[1..][j] == c[j + 1];
    }
    forall i | 0 <= i < |c[1..]| ensures c[1..][i].0 != c[0].0 {
      assert c[1..][i] == c[i + 1];
    }
  }

  lemma DistinctCons<K(!new)>(e: (K, nat), c: Counter<K>)
    requires Distinct(c) && e.0 !in Keys(c)
    ensures Distinct([e] + c)
  {
    var r := [e] + c;
    forall i, j | 0 <= i < j < |r| ensures r[i].0 != r[j].0 {
      if i == 0 {
        assert r[j] == c[j - 1];
      } else {
        assert r[i] == c[i - 1] && r[j] == c[j - 1];
      }
    }
  }

  lemma PositiveTail<K>(c: Counter<K>)
    requires Positive(c) && c != []
    ensures Positive(c[1..]) && c[0].1 > 0
  {
    forall i | 0 <= i < |c[1..]| ensures c[1..][i].1 > 0 { assert c[1..][i] == c[i + 1]; }
  }

  lemma PositiveCons<K>(e: (K, nat), c: Counter<K>)
    requires Positive(c) && e.1 > 0
    ensures Positive([e] + c)
  {
    var r := [e] + c;
    forall i | 0 < i < |r| ensures r[i].1 > 0 { assert r[i] == c[i - 1]; }
  }

  /** `c[k] += n`: a new key is appended, an existing one keeps its place. */
  function Increment<K(==,!new)>(c: Counter<K>, k: K, n: nat): (r: Counter<K>)
    ensures forall j :: Count(r, j) == Count(c, j) + (if j == k then n else 0)
    ensures Total(r) == Total(c) + n
    ensures Keys(r) == Keys(c) + {k}
    ensures Distinct(c) ==> Distinct(r)
    ensures Positive(c) && n > 0 ==> Positive(r)
  {
    if c == [] then
      var r := [(k, n)];
      assert Keys(r) == {k} by { KeysCons((k, n), []); }
      r
    else
      assert c == [c[0]] + c[1..];
      ConsSums(c[0], c[1..]);
      KeysCons(c[0], c[1..]);
      if c[0].0 == k then
        var r := [(k, c[0].1 + n)] + c[1..];
        ConsSums((k, c[0].1 + n), c[1..]);
        KeysCons((k, c[0].1 + n), c[1..]);
        assert Positive(c) ==> Positive(r) by {
          if Positive(c) {
            PositiveTail(c);
            PositiveCons((k, c[0].1 + n), c[1..]);
          }
        }
        assert Distinct(c) ==> Distinct(r) by {
          if Distinct(c) {
            DistinctTail(c);
            DistinctCons((k, c[0].1 + n), c[1..]);
          }
        }
        r
      else
        var rest := Increment(c[1..], k, n);
        var r := [c[0]] + rest;
        ConsSums(c[0], rest);
        KeysCons(c[0], rest);
        assert Positive(c) && n > 0 ==> Positive(r) by {
          if Positive(c) && n > 0 {
            PositiveTail(c);
            PositiveCons(c[0], rest);
          }
        }
        assert Distinct(c) ==> Distinct(r) by {
          if Distinct(c) {
            DistinctTail(c);
            DistinctCons(c[0], rest);
          }
        }
        r
  }

  /** `c.update(other)` for a mapping `other`: adds its counts entry by entry. */
  function UpdateWith<K(==,!new)>(c: Counter<K>, other: Counter<K>): (r: Counter<K>)
    ensures forall j :: Count(r, j) == Count(c, j) + Count(other, j)
    ensures Total(r) == Total(c) + Total(other)
    ensures Keys(r) == Keys(c) + Keys(other)
    ensures Distinct(c) ==> Distinct(r)
    decreases |other|
  {
    if other == [] then c
    else
      KeysCons(other[0], other[1..]);
      assert other == [other[0]] + other[1..];
      UpdateWith(Increment(c, other[0].0, other[0].1), other[1..])
  }

  /** The counts of all keys that `MonthStart` maps to `ms`. */
  function MonthCount(c: Counter<Date>, ms: Date): nat {
    if c == [] then 0 else (if MonthStart(c[0].0) == ms then c[0].1 else 0) + MonthCount(c[1..], ms)
  }

  lemma {:induction false} MonthCountIncrement(c: Counter<Date>, k: Date, n: nat, ms: Date)
    ensures MonthCount(Increment(c, k, n), ms) == MonthCount(c, ms) + (if MonthStart(k) == ms then n else 0)
  {
    if c == [] {
    } else if c[0].0 == k {
      assert Increment(c, k, n)[1..] == c[1..];
    } else {
      MonthCountIncrement(c[1..], k, n, ms);
      assert Increment(c, k, n)[1..] == Increment(c[1..], k, n);
    }
  }

  lemma {:induction false} MonthCountUpdateWith(c: Counter<Date>, other: Counter<Date>, ms: Date)
    ensures MonthCount(UpdateWith(c, other), ms) == MonthCount(c, ms) + MonthCount(other, ms)
    decreases |other|
  {
    if other != [] {
      MonthCountIncrement(c, other[0].0, other[0].1, ms);
      MonthCountUpdateWith(Increment(c, other[0].0, other[0].1), other[1..], ms);
    }
  }

  /** Adds `Counter(MonthStart(d) for d in c.elements())` to `acc`. */
  function GroupInto(acc: Counter<Date>, c: Counter<Date>): (r: Counter<Date>)
    ensures forall ms :: Count(r, ms) == Count(acc, ms) + MonthCount(c, ms)
    ensures Total(r) == Total(acc) + Total(c)
    ensures (forall i | 0 <= i < |acc| :: acc[i].0.day == 1) ==> forall i | 0 <= i < |r| :: r[i].0.day == 1
    ensures Distinct(acc) ==> Distinct(r)
    ensures Positive(acc) ==> Positive(r)
    decreases |c|
  {
    if c == [] then acc
    else
      var next := if c[0].1 > 0 then Increment(acc, MonthStart(c[0].0), c[0].1) else acc;
      assert (forall i | 0 <= i < |acc| :: acc[i].0.day == 1) ==> forall i | 0 <= i < |next| :: next[i].0.day == 1 by {
        if (forall i | 0 <= i < |acc| :: acc[i].0.day == 1) && c[0].1 > 0 {
          forall i | 0 <= i < |next| ensures next[i].0.day == 1 {
            assert next[i].0 in Keys(next);
          }
        }
      }
      GroupInto(next, c[1..])
  }

  /**
   * `Counter(datetime(d.year, d.month, 1).date() for d in c.elements())`:
   * `elements()` repeats each key as often as its count, so keys whose
   * count is zero disappear.
   */
  function GroupByMonth(c: Counter<Date>): (r: Counter<Date>)
    ensures forall ms :: Count(r, ms) == MonthCount(c, ms)
    ensures Total(r) == Total(c)
    ensures forall i | 0 <= i < |r| :: r[i].0.day == 1
    ensures Distinct(r) && Positive(r)
  {
    GroupInto([], c)
  }

  /** Every key of a regrouped counter is the first day of the month its dates fall in. */
  lemma {:induction false} GroupByMonthKeys(c: Counter<Date>, ms: Date)
    requires ms in Keys(GroupByMonth(c))
    ensures exists i | 0 <= i < |c| :: MonthStart(c[i].0) == ms && c[i].1 > 0
  {
    var r := GroupByMonth(c);
    var j :| 0 <= j < |r| && r[j].0 == ms;
    PositiveCount(r, j);
    MonthCountWitness(c, ms);
  }

  lemma {:induction false} PositiveCount<K(!new)>(c: Counter<K>, j: nat)
    requires j < |c| && Positive(c)
    ensures Count(c, c[j].0) > 0
  {
    if j > 0 {
      PositiveTail(c);
      PositiveCount(c[1..], j - 1);
      assert c[1..][j - 1] == c[j];
    }
  }

  lemma {:induction false} MonthCountWitness(c: Counter<Date>, ms: Date)
    requires MonthCount(c, ms) > 0
    ensures exists i | 0 <= i < |c| :: MonthStart(c[i].0) == ms && c[i].1 > 0
  {
    if !(MonthStart(c[0].0) == ms && c[0].1 > 0) {
      MonthCountWitness(c[1..], ms);
      var i :| 0 <= i < |c[1..]| && MonthStart(c[1..][i].0) == ms && c[1..][i].1 > 0;
      assert c[i + 1] == c[1..][i];
    }
  }

  lemma ElementsSnoc<K>(s: seq<K>, init: seq<K>)
    requires s != [] && init == s[..|s| - 1]
    ensures (set x | x in s) == (set x | x in init) + {s[|s| - 1]}
  {
    assert s == init + [s[|s| - 1]];
  }

  /** `Counter({d: 0 for d in days})` */
  function Zeros<K(==,!new)>(days: seq<K>): (r: Counter<K>)
    ensures Keys(r) == set d | d in days
    ensures forall k :: Count(r, k) == 0
    ensures Total(r) == 0 && Distinct(r)
  {
    if days == [] then []
    else
      var init := days[..|days| - 1];
      var rest := Zeros(init);
      var r := Increment(rest, days[|days| - 1], 0);
      ElementsSnoc(days, init);
      r
  }
}
