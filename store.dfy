/**
 * `SummaryStore` (cubedash/summary/_summarise.py): a cache of summaries keyed
 * by `(product_name, year, month, day)`, where any part may be absent.  The
 * backend's `get` and `put` are an abstract map; `update` decides from the
 * key's granularity whether to compute a summary from the index or to
 * aggregate finer summaries, stores every non-day result and announces it
 * to the update listeners.
 */
module Store {
  import opened Wrappers
  import opened Geo
  import opened Counters
  import opened Datacube
  import opened Overview
  import opened Summarise
  import opened Strings

  /** The arguments `(product_name, year, month, day)` that every store operation takes. */
  datatype Key = Key(product: Option<string>, year: Option<int>, month: Option<int>, day: Option<int>)

  /** `(name, None, None, None)`: the summary of a whole product. */
  function ProductKey(name: string): Key {
    Key(Some(name), None, None, None)
  }

  /** Python truthiness of an optional integer. */
  predicate Given(n: Option<int>) {
    n.Some? && n.value != 0
  }

  /** Python truthiness of an optional name. */
  predicate Named(p: Option<string>) {
    p.Some? && p.value != ""
  }

  /** `if year and month and day` */
  predicate IsDay(k: Key) {
    Given(k.year) && Given(k.month) && Given(k.day)
  }

  /** `elif year and month` */
  predicate IsMonth(k: Key) {
    Given(k.year) && Given(k.month) && !Given(k.day)
  }

  /**
   * How many aggregation steps lie under a key: days and months are
   * computed (0), a year aggregates months (1), a product years (2), and the
   * remaining keys aggregate products (3).
   */
  function Level(k: Key): nat {
    if Given(k.year) then (if Given(k.month) then 0 else 1)
    else if Named(k.product) then 2
    else 3
  }

  /** The first year `update` aggregates for a product. */
  const FirstYear: int := 1985

  /** The time of the call: `datetime.utcnow()` and `datetime.today().year`. */
  datatype Clock = Clock(now: int, thisYear: int)

  /**
   * The keys whose summaries `update` aggregates for `k`, in the order it
   * asks for them: months 1..12 of a year, years 1985..this year of a
   * product, and every product of the index for the rest.
   */
  function Children(k: Key, names: seq<string>, thisYear: int): (cs: seq<Key>)
    ensures Level(k) == 0 ==> cs == []
    ensures (forall i | 0 <= i < |names| :: names[i] != "") ==>
      forall i | 0 <= i < |cs| :: Level(cs[i]) < Level(k) && !IsDay(cs[i])
  {
    match Level(k)
    case 0 => []
    case 1 => seq(12, m requires 0 <= m < 12 => Key(k.product, k.year, Some(m + 1), None))
    case 2 =>
      seq(if thisYear >= FirstYear then thisYear - FirstYear + 1 else 0,
          i => Key(k.product, Some(FirstYear + i), None, None))
    case _ => seq(|names|, i requires 0 <= i < |names| => ProductKey(names[i]))
  }

  /** A month or year of `product` from 1985 to `thisYear`. */
  predicate InYears(k: Key, product: Option<string>, thisYear: int) {
    && k.product == product
    && k.day.None?
    && k.year.Some? && FirstYear <= k.year.value <= thisYear
    && (k.month.None? || 1 <= k.month.value <= 12)
  }

  /** The keys that updating `key` may store: itself and the keys it aggregates, transitively. */
  predicate Beneath(k: Key, key: Key, names: seq<string>, thisYear: int) {
    || k == key
    || (Level(key) == 1 && k.product == key.product && k.year == key.year
        && k.day.None? && k.month.Some? && 1 <= k.month.value <= 12)
    || (Level(key) == 2 && InYears(k, key.product, thisYear))
    || (Level(key) == 3 && k.product.Some? && k.product.value in names
        && (k == ProductKey(k.product.value) || InYears(k, k.product, thisYear)))
  }

  /** What a key's aggregate may store includes what each of its parts may store. */
  lemma BeneathChild(k: Key, key: Key, names: seq<string>, thisYear: int, i: nat)
    requires forall j | 0 <= j < |names| :: names[j] != ""
    requires i < |Children(key, names, thisYear)|
    requires Beneath(k, Children(key, names, thisYear)[i], names, thisYear)
    ensures Beneath(k, key, names, thisYear)
  {
    var c := Children(key, names, thisYear)[i];
    if Level(key) == 3 {
      assert c == ProductKey(names[i]);
    }
  }

  /** A key an aggregate may store, other than the aggregate's own, lies at a lower level. */
  lemma BeneathLower(k: Key, key: Key, names: seq<string>, thisYear: int)
    requires forall j | 0 <= j < |names| :: names[j] != ""
    requires Beneath(k, key, names, thisYear) && k != key
    ensures Level(k) < Level(key)
  {
    if Level(key) == 3 && k == ProductKey(k.product.value) {
      var j :| 0 <= j < |names| && names[j] == k.product.value;
    }
  }

  /**
   * As written, `update` treats a product named "" as falsy: its key falls to
   * the all-products branch, which asks for every product again, itself among
   * them, so the recursion never reaches a smaller key.
   */
  lemma EmptyNameAsksForItself(names: seq<string>, thisYear: int)
    requires "" in names
    ensures Level(ProductKey("")) == 3
    ensures ProductKey("") in Children(ProductKey(""), names, thisYear)
  {
    var i :| 0 <= i < |names| && names[i] == "";
    assert Children(ProductKey(""), names, thisYear)[i] == ProductKey("");
  }

  /** With non-empty product names, no key is among its own parts. */
  lemma NoChildIsSelf(key: Key, names: seq<string>, thisYear: int)
    requires forall j | 0 <= j < |names| :: names[j] != ""
    ensures key !in Children(key, names, thisYear)
  {
    var cs := Children(key, names, thisYear);
    forall i | 0 <= i < |cs| ensures cs[i] != key {
      assert Level(cs[i]) < Level(key);
    }
  }

  /**
   * The evidently intended dispatch of `update`: a key naming a product is
   * that product's summary whatever the name, and only a key without a
   * product aggregates every product.
   */
  function IntendedLevel(k: Key): nat {
    if Given(k.year) then (if Given(k.month) then 0 else 1)
    else if k.product.Some? then 2
    else 3
  }

  /** The parts `update` would aggregate under the intended dispatch. */
  function IntendedChildren(k: Key, names: seq<string>, thisYear: int): (cs: seq<Key>)
    ensures IntendedLevel(k) == 0 ==> cs == []
    ensures forall i | 0 <= i < |cs| :: IntendedLevel(cs[i]) < IntendedLevel(k) && !IsDay(cs[i])
  {
    match IntendedLevel(k)
    case 0 => []
    case 1 => seq(12, m requires 0 <= m < 12 => Key(k.product, k.year, Some(m + 1), None))
    case 2 =>
      seq(if thisYear >= FirstYear then thisYear - FirstYear + 1 else 0,
          i => Key(k.product, Some(FirstYear + i), None, None))
    case _ => seq(|names|, i requires 0 <= i < |names| => ProductKey(names[i]))
  }

  /** The intended dispatch differs from the written one only for a product named "". */
  lemma IntendedAgreesWhenNamed(k: Key, names: seq<string>, thisYear: int)
    requires k.product.None? || Named(k.product)
    ensures IntendedLevel(k) == Level(k)
    ensures IntendedChildren(k, names, thisYear) == Children(k, names, thisYear)
  {
  }

  predicate AllWellFormed(m: map<Key, TimePeriodOverview>) {
    forall k | k in m :: WellFormed(m[k])
  }

  /** The stored summaries of the given keys, in order. */
  function Lookup(m: map<Key, TimePeriodOverview>, ks: seq<Key>): (r: seq<TimePeriodOverview>)
    requires forall k | k in ks :: k in m
    ensures |r| == |ks| && forall i | 0 <= i < |ks| :: r[i] == m[ks[i]]
    ensures AllWellFormed(m) ==> forall p | p in r :: WellFormed(p)
  {
    seq(|ks|, i requires 0 <= i < |ks| => m[ks[i]])
  }

  lemma LookupStable(m1: map<Key, TimePeriodOverview>, m2: map<Key, TimePeriodOverview>, ks: seq<Key>)
    requires forall k | k in ks :: k in m1 && k in m2 && m2[k] == m1[k]
    ensures Lookup(m1, ks) == Lookup(m2, ks)
  {
  }

  /** `after` keeps every entry of `before` except `except`'s and adds only keys beneath `key`. */
  predicate Grows(before: map<Key, TimePeriodOverview>, after: map<Key, TimePeriodOverview>,
                  key: Key, except: Option<Key>, names: seq<string>, thisYear: int)
  {
    && (forall k | k in before && Some(k) != except :: k in after && after[k] == before[k])
    && (forall k | k in after && k !in before :: Beneath(k, key, names, thisYear))
  }

  lemma GrowsTransitive(s0: map<Key, TimePeriodOverview>, s1: map<Key, TimePeriodOverview>, s2: map<Key, TimePeriodOverview>,
                        key: Key, names: seq<string>, thisYear: int)
    requires Grows(s0, s1, key, None, names, thisYear) && Grows(s1, s2, key, None, names, thisYear)
    ensures Grows(s0, s2, key, None, names, thisYear)
  {
  }

  /** Storing a key's own summary on top of what its parts stored. */
  lemma GrowsByStoring(before: map<Key, TimePeriodOverview>, parts: map<Key, TimePeriodOverview>,
                       key: Key, r: TimePeriodOverview, names: seq<string>, thisYear: int)
    requires Grows(before, parts, key, None, names, thisYear)
    ensures Grows(before, parts[key := r], key, Some(key), names, thisYear)
  {
    var after := parts[key := r];
    forall k | k in after && k !in before ensures Beneath(k, key, names, thisYear) {
      if k != key { assert k in parts; }
    }
  }

  lemma StoringWellFormed(parts: map<Key, TimePeriodOverview>, key: Key, r: TimePeriodOverview)
    requires AllWellFormed(parts) && WellFormed(r)
    ensures AllWellFormed(parts[key := r])
  {
    var after := parts[key := r];
    forall k | k in after ensures WellFormed(after[k]) {
      if k != key { assert after[k] == parts[k]; }
    }
  }

  /** One call of a listener: `listener(product_name, year, month, day, summary)`. */
  type Listener
  datatype Announcement = Announcement(listener: Listener, key: Key, summary: TimePeriodOverview)

  class SummaryStore {
    const index: Index
    /** `_update_listeners`, in registration order */
    const listeners: seq<Listener>
    /** what the backend's `get` finds and `put` overwrites */
    var summaries: map<Key, TimePeriodOverview>
    /** every listener call so far, oldest first */
    var announced: seq<Announcement>

    constructor(index: Index, listeners: seq<Listener>)
      requires forall i | 0 <= i < |index.Names()| :: index.Names()[i] != ""
      ensures this.index == index && this.listeners == listeners
      ensures summaries == map[] && announced == []
      ensures Valid()
    {
      this.index := index;
      this.listeners := listeners;
      summaries := map[];
      announced := [];
    }

    /**
     * Product names are non-empty (a product named "" would make the
     * all-products aggregate ask for itself without end) and every stored
     * summary with datasets has a time range.
     */
    predicate Valid()
      reads this
    {
      && (forall i | 0 <= i < |index.Names()| :: index.Names()[i] != "")
      && AllWellFormed(summaries)
    }

    /** `get(product_name, year, month, day)` */
    function Get(key: Key): (r: Option<TimePeriodOverview>)
      reads this
      ensures r.Some? <==> key in summaries
      ensures r.Some? ==> r.value == summaries[key]
    {
      if key in summaries then Some(summaries[key]) else None
    }

    /** `has(product_name, year, month, day)`: whether `get` finds a summary. */
    function Has(key: Key): (r: bool)
      reads this
      ensures r <==> Get(key).Some?
      ensures r <==> key in summaries
    {
      Get(key).Some?
    }

    /** `put(product_name, year, month, day, summary)` */
    method Put(key: Key, summary: TimePeriodOverview)
      modifies this
      ensures summaries == old(summaries)[key := summary]
      ensures announced == old(announced)
    {
      summaries := summaries[key := summary];
    }

    /** The calls `update` makes after storing `summary` under `key`, one per listener in order. */
    function Announcements(key: Key, summary: TimePeriodOverview): (r: seq<Announcement>)
      ensures |r| == |listeners|
      ensures forall i | 0 <= i < |r| :: r[i].listener == listeners[i] && r[i].key == key && r[i].summary == summary
    {
      seq(|listeners|, i requires 0 <= i < |listeners| => Announcement(listeners[i], key, summary))
    }

    /** `for listener in self._update_listeners: listener(...)` */
    method Notify(key: Key, summary: TimePeriodOverview)
      modifies this
      ensures summaries == old(summaries)
      ensures announced == old(announced) + Announcements(key, summary)
    {
      for i := 0 to |listeners|
        invariant summaries == old(summaries)
        invariant announced == old(announced) + Announcements(key, summary)[..i]
      {
        assert Announcements(key, summary)[..i + 1] == Announcements(key, summary)[..i] + [Announcement(listeners[i], key, summary)];
        announced := announced + [Announcement(listeners[i], key, summary)];
      }
    }

    /** The search `calculate_summary` runs for a day or month key. */
    function SearchFor(key: Key): Search
      requires IsDay(key) || IsMonth(key)
    {
      index.search(key.product, key.year.value, key.month.value, if IsDay(key) then key.day else None)
    }

    /** Stored summaries survive, except the one under `except`; new ones lie beneath `key`. */
    twostate predicate Extends(key: Key, except: Option<Key>, thisYear: int)
      reads this
    {
      && old(announced) <= announced
      && Grows(old(summaries), summaries, key, except, index.Names(), thisYear)
    }

    /**
     * What `update(key)` does:
     * - a day is computed from the index and neither stored nor announced;
     * - a month is computed from the index, stored under its key (and
     *   nothing else is changed) and announced once to every listener;
     * - a year, a product or everything is the `add_periods` aggregate of
     *   the summaries of its parts, all of which are stored afterwards; the
     *   aggregate is stored under its key and the listeners' last calls
     *   announce it.
     * Summaries stored before are kept (except the one `update` recomputes),
     * and nothing is stored outside the key's own subtree.
     */
    twostate predicate UpdatedBy(key: Key, r: TimePeriodOverview, geo: Shapely, clock: Clock)
      reads this
    {
      && Valid()
      && Extends(key, Some(key), clock.thisYear)
      && Outcome(key, r, geo, clock, old(summaries), old(announced), summaries, announced)
    }

    /** What `update(key)` leaves behind, from summaries `s0` and calls `a0` to `s1` and `a1`, case by case. */
    ghost predicate Outcome(key: Key, r: TimePeriodOverview, geo: Shapely, clock: Clock,
                            s0: map<Key, TimePeriodOverview>, a0: seq<Announcement>,
                            s1: map<Key, TimePeriodOverview>, a1: seq<Announcement>)
    {
      && AllWellFormed(s1)
      && OnlyMissingParts(s0, s1, key, clock)
      && if IsDay(key) then
           && Summarises(r, SearchFor(key), geo, clock.now)
           && s1 == s0
           && a1 == a0
         else
           && key in s1 && s1[key] == r
           && |a0| + |listeners| <= |a1|
           && a1[|a1| - |listeners|..] == Announcements(key, r)
           && Settled(s0, a0, s1, a1[..|a1| - |listeners|], Some(key), geo, clock)
           && if IsMonth(key) then
                && Summarises(r, SearchFor(key), geo, clock.now)
                && s1 == s0[key := r]
                && a1 == a0 + Announcements(key, r)
              else
                PartsAggregated(key, r, geo, clock, s1)
    }

    /** Every part of `key` is stored in `s`, and `r` is the `add_periods` aggregate of those summaries. */
    ghost predicate PartsAggregated(key: Key, r: TimePeriodOverview, geo: Shapely, clock: Clock, s: map<Key, TimePeriodOverview>)
      requires AllWellFormed(s)
    {
      var cs := Children(key, index.Names(), clock.thisYear);
      && (forall c | c in cs :: c in s)
      && Aggregates(r, Lookup(s, cs), false, geo)
    }

    /**
     * `v` is what `update(k)` computes with the summaries `s` stored: a month
     * from the index, an aggregate from its stored parts; days are never stored.
     */
    ghost predicate Computed(k: Key, v: TimePeriodOverview, geo: Shapely, clock: Clock, s: map<Key, TimePeriodOverview>)
      requires AllWellFormed(s)
    {
      && !IsDay(k)
      && (IsMonth(k) ==> Summarises(v, SearchFor(k), geo, clock.now))
      && (Level(k) > 0 ==> PartsAggregated(k, v, geo, clock, s))
    }

    /**
     * From summaries `s0` and calls `a0` to `s1` and `a1`: every newly stored
     * summary (other than `except`'s) is what `update` computes for its key,
     * and every call added since announces a newly stored key (other than
     * `except`) with its stored summary.
     */
    ghost predicate Settled(s0: map<Key, TimePeriodOverview>, a0: seq<Announcement>,
                            s1: map<Key, TimePeriodOverview>, a1: seq<Announcement>,
                            except: Option<Key>, geo: Shapely, clock: Clock)
      requires AllWellFormed(s1)
    {
      && a0 <= a1
      && (forall k :: ComputedIfNew(s0, s1, except, geo, clock, k))
      && (forall j | |a0| <= j < |a1| ::
            && a1[j].key in s1 && a1[j].key !in s0 && Some(a1[j].key) != except
            && a1[j].summary == s1[a1[j].key])
    }

    /** A summary stored under `k` in `s1` but not in `s0` (unless `k` is `except`) is the computed one. */
    ghost predicate ComputedIfNew(s0: map<Key, TimePeriodOverview>, s1: map<Key, TimePeriodOverview>,
                                  except: Option<Key>, geo: Shapely, clock: Clock, k: Key)
      requires AllWellFormed(s1)
    {
      k in s1 && k !in s0 && Some(k) != except ==> Computed(k, s1[k], geo, clock, s1)
    }

    /**
     * A key stored in `s1` but not in `s0` is `root`, one of its parts, or a
     * part of another newly stored key: `get_or_update` returns a stored
     * summary without computing it again, so only missing parts are stored.
     */
    ghost predicate IntroducedIfNew(s0: map<Key, TimePeriodOverview>, s1: map<Key, TimePeriodOverview>,
                                    root: Key, clock: Clock, k: Key)
    {
      k in s1 && k !in s0 ==>
        || k == root
        || k in Children(root, index.Names(), clock.thisYear)
        || exists p | p in s1 && p !in s0 :: k in Children(p, index.Names(), clock.thisYear)
    }

    /** Updating `root` from `s0` to `s1` stores only keys that were missing and asked for. */
    ghost predicate OnlyMissingParts(s0: map<Key, TimePeriodOverview>, s1: map<Key, TimePeriodOverview>,
                                     root: Key, clock: Clock)
    {
      forall k :: IntroducedIfNew(s0, s1, root, clock, k)
    }

    /** Two steps that each store only missing parts of `root` make one such step. */
    lemma MissingPartsTransitive(s0: map<Key, TimePeriodOverview>, s1: map<Key, TimePeriodOverview>,
                                 s2: map<Key, TimePeriodOverview>, root: Key, clock: Clock)
      requires OnlyMissingParts(s0, s1, root, clock) && OnlyMissingParts(s1, s2, root, clock)
      requires forall k | k in s0 :: k in s1
      requires forall k | k in s1 :: k in s2
      ensures OnlyMissingParts(s0, s2, root, clock)
    {
      var names, y := index.Names(), clock.thisYear;
      forall k ensures IntroducedIfNew(s0, s2, root, clock, k) {
        if k in s2 && k !in s0 && k != root && k !in Children(root, names, y) {
          if k in s1 {
            assert IntroducedIfNew(s0, s1, root, clock, k);
            var p :| p in s1 && p !in s0 && k in Children(p, names, y);
            assert p in s2;
          } else {
            assert IntroducedIfNew(s1, s2, root, clock, k);
            var p :| p in s2 && p !in s1 && k in Children(p, names, y);
            assert p !in s0;
          }
        }
      }
    }

    /**
     * What `get_or_update` of part `c` stores, when it stores anything at all
     * (`c` was missing and is now stored), is missing parts of its aggregate.
     */
    lemma MissingPartOfChild(s0: map<Key, TimePeriodOverview>, s1: map<Key, TimePeriodOverview>,
                             key: Key, c: Key, clock: Clock)
      requires c in Children(key, index.Names(), clock.thisYear)
      requires OnlyMissingParts(s0, s1, c, clock)
      requires (forall k | k in s1 :: k in s0) || (c in s1 && c !in s0)
      ensures OnlyMissingParts(s0, s1, key, clock)
    {
      var names, y := index.Names(), clock.thisYear;
      forall k ensures IntroducedIfNew(s0, s1, key, clock, k) {
        if k in s1 && k !in s0 {
          assert IntroducedIfNew(s0, s1, c, clock, k);
          if k != c && k in Children(c, names, y) {
            assert c in s1 && c !in s0;
          }
        }
      }
    }

    /** Storing the aggregate itself after its missing parts still stores only missing parts. */
    lemma MissingPartsStoring(s0: map<Key, TimePeriodOverview>, parts: map<Key, TimePeriodOverview>,
                              key: Key, r: TimePeriodOverview, clock: Clock)
      requires OnlyMissingParts(s0, parts, key, clock)
      ensures OnlyMissingParts(s0, parts[key := r], key, clock)
    {
      var names, y := index.Names(), clock.thisYear;
      var s2 := parts[key := r];
      forall k ensures IntroducedIfNew(s0, s2, key, clock, k) {
        if k in s2 && k !in s0 && k != key && k !in Children(key, names, y) {
          assert IntroducedIfNew(s0, parts, key, clock, k);
          var p :| p in parts && p !in s0 && k in Children(p, names, y);
          assert p in s2;
        }
      }
    }

    /** What `update` computes for a key depends only on the summaries of its parts. */
    lemma ComputedStable(k: Key, v: TimePeriodOverview, geo: Shapely, clock: Clock,
                         s1: map<Key, TimePeriodOverview>, s2: map<Key, TimePeriodOverview>)
      requires AllWellFormed(s1) && AllWellFormed(s2)
      requires Computed(k, v, geo, clock, s1)
      requires forall c | c in Children(k, index.Names(), clock.thisYear) && c in s1 :: c in s2 && s2[c] == s1[c]
      ensures Computed(k, v, geo, clock, s2)
    {
      if Level(k) > 0 {
        LookupStable(s1, s2, Children(k, index.Names(), clock.thisYear));
      }
    }

    /** Two steps that each store only computed summaries and announce only those make one such step. */
    lemma SettledTransitive(s0: map<Key, TimePeriodOverview>, a0: seq<Announcement>,
                            s1: map<Key, TimePeriodOverview>, a1: seq<Announcement>,
                            s2: map<Key, TimePeriodOverview>, a2: seq<Announcement>, geo: Shapely, clock: Clock)
      requires AllWellFormed(s1) && AllWellFormed(s2)
      requires Settled(s0, a0, s1, a1, None, geo, clock) && Settled(s1, a1, s2, a2, None, geo, clock)
      requires forall k | k in s0 :: k in s1
      requires forall k | k in s1 :: k in s2 && s2[k] == s1[k]
      ensures Settled(s0, a0, s2, a2, None, geo, clock)
    {
      forall k ensures ComputedIfNew(s0, s2, None, geo, clock, k) {
        if k in s2 && k !in s0 {
          if k in s1 {
            assert ComputedIfNew(s0, s1, None, geo, clock, k);
            ComputedStable(k, s1[k], geo, clock, s1, s2);
          } else {
            assert ComputedIfNew(s1, s2, None, geo, clock, k);
          }
        }
      }
      forall j | |a0| <= j < |a2|
        ensures a2[j].key in s2 && a2[j].key !in s0 && a2[j].summary == s2[a2[j].key]
      {
        if j < |a1| {
          assert a2[j] == a1[j];
        }
      }
    }

    /** The parts of an aggregate key, stored before the key itself is, do not depend on the key. */
    lemma SettledBeneath(key: Key, r: TimePeriodOverview, geo: Shapely, clock: Clock,
                         s0: map<Key, TimePeriodOverview>, a0: seq<Announcement>,
                         parts: map<Key, TimePeriodOverview>, a1: seq<Announcement>)
      requires forall i | 0 <= i < |index.Names()| :: index.Names()[i] != ""
      requires AllWellFormed(parts) && AllWellFormed(parts[key := r])
      requires Settled(s0, a0, parts, a1, None, geo, clock)
      requires Grows(s0, parts, key, None, index.Names(), clock.thisYear)
      requires key !in parts || key in s0
      ensures Settled(s0, a0, parts[key := r], a1, Some(key), geo, clock)
    {
      var s2 := parts[key := r];
      forall k ensures ComputedIfNew(s0, s2, Some(key), geo, clock, k) {
        if k in s2 && k !in s0 && k != key {
          assert ComputedIfNew(s0, parts, None, geo, clock, k);
          BeneathLower(k, key, index.Names(), clock.thisYear);
          ComputedStable(k, parts[k], geo, clock, parts, s2);
        }
      }
    }

    /** After `update(key)` of a key not stored before, only computed summaries are new and announced. */
    lemma SettledByUpdate(key: Key, r: TimePeriodOverview, geo: Shapely, clock: Clock,
                          s0: map<Key, TimePeriodOverview>, a0: seq<Announcement>,
                          s1: map<Key, TimePeriodOverview>, a1: seq<Announcement>)
      requires AllWellFormed(s1) && key !in s0
      requires Outcome(key, r, geo, clock, s0, a0, s1, a1)
      ensures Settled(s0, a0, s1, a1, None, geo, clock)
    {
      if !IsDay(key) {
        assert Computed(key, r, geo, clock, s1);
        NewKeyComputed(key, r, geo, clock, s0, s1);
        NewKeyAnnounced(key, r, s0, a0, s1, a1[..|a1| - |listeners|], a1);
      }
    }

    /** A computed summary newly stored under `key` joins the other computed ones. */
    lemma NewKeyComputed(key: Key, r: TimePeriodOverview, geo: Shapely, clock: Clock,
                         s0: map<Key, TimePeriodOverview>, s1: map<Key, TimePeriodOverview>)
      requires AllWellFormed(s1) && key in s1 && s1[key] == r
      requires Computed(key, r, geo, clock, s1)
      requires forall k :: ComputedIfNew(s0, s1, Some(key), geo, clock, k)
      ensures forall k :: ComputedIfNew(s0, s1, None, geo, clock, k)
    {
      forall k ensures ComputedIfNew(s0, s1, None, geo, clock, k) {
        if k != key {
          assert ComputedIfNew(s0, s1, Some(key), geo, clock, k);
        }
      }
    }

    /** The listener calls for a newly stored key, after calls for other new keys, announce only new keys. */
    lemma NewKeyAnnounced(key: Key, r: TimePeriodOverview, s0: map<Key, TimePeriodOverview>, a0: seq<Announcement>,
                          s1: map<Key, TimePeriodOverview>, mid: seq<Announcement>, a1: seq<Announcement>)
      requires key in s1 && s1[key] == r && key !in s0
      requires |listeners| <= |a1| && mid == a1[..|a1| - |listeners|] && a0 <= mid
      requires a1[|a1| - |listeners|..] == Announcements(key, r)
      requires forall j | |a0| <= j < |mid| :: mid[j].key in s1 && mid[j].key !in s0 && mid[j].summary == s1[mid[j].key]
      ensures a0 <= a1
      ensures forall j | |a0| <= j < |a1| :: a1[j].key in s1 && a1[j].key !in s0 && a1[j].summary == s1[a1[j].key]
    {
      forall j | |a0| <= j < |a1|
        ensures a1[j].key in s1 && a1[j].key !in s0 && a1[j].summary == s1[a1[j].key]
      {
        if j < |mid| {
          assert a1[j] == mid[j];
        } else {
          assert a1[j] == a1[|a1| - |listeners|..][j - |mid|];
        }
      }
    }

    /**
     * Updating a year in an empty store computes every month from the index,
     * aggregates exactly those summaries, and announces the year only in the
     * listeners' last calls.
     */
    lemma YearFromEmptyStore(key: Key, r: TimePeriodOverview, geo: Shapely, clock: Clock,
                             s1: map<Key, TimePeriodOverview>, a1: seq<Announcement>)
      requires Level(key) == 1
      requires Outcome(key, r, geo, clock, map[], [], s1, a1)
      ensures forall c | c in Children(key, index.Names(), clock.thisYear) ::
        c in s1 && IsMonth(c) && Summarises(s1[c], SearchFor(c), geo, clock.now)
      ensures Aggregates(r, Lookup(s1, Children(key, index.Names(), clock.thisYear)), false, geo)
      ensures forall j | 0 <= j < |a1| - |listeners| :: a1[j].key != key
    {
      MonthsComputed(key, geo, clock, s1);
      var mid := a1[..|a1| - |listeners|];
      forall j | 0 <= j < |a1| - |listeners| ensures a1[j].key != key {
        assert a1[j] == mid[j];
      }
    }

    /** The months of a year, if newly stored, were computed from the index. */
    lemma MonthsComputed(key: Key, geo: Shapely, clock: Clock, s1: map<Key, TimePeriodOverview>)
      requires Level(key) == 1 && AllWellFormed(s1)
      requires forall c | c in Children(key, index.Names(), clock.thisYear) :: c in s1
      requires forall k :: ComputedIfNew(map[], s1, Some(key), geo, clock, k)
      ensures forall c | c in Children(key, index.Names(), clock.thisYear) ::
        IsMonth(c) && Summarises(s1[c], SearchFor(c), geo, clock.now)
    {
      var cs := Children(key, index.Names(), clock.thisYear);
      forall c | c in cs ensures IsMonth(c) && Summarises(s1[c], SearchFor(c), geo, clock.now) {
        assert ComputedIfNew(map[], s1, Some(key), geo, clock, c);
      }
    }

    /** Storing the aggregate under its own key leaves its parts as they were. */
    lemma StillAggregated(key: Key, r: TimePeriodOverview, geo: Shapely, clock: Clock, parts: map<Key, TimePeriodOverview>)
      requires forall i | 0 <= i < |index.Names()| :: index.Names()[i] != ""
      requires AllWellFormed(parts) && WellFormed(r)
      requires PartsAggregated(key, r, geo, clock, parts)
      ensures AllWellFormed(parts[key := r])
      ensures PartsAggregated(key, r, geo, clock, parts[key := r])
    {
      var cs := Children(key, index.Names(), clock.thisYear);
      var after := parts[key := r];
      StoringWellFormed(parts, key, r);
      NoChildIsSelf(key, index.Names(), clock.thisYear);
      LookupStable(parts, after, cs);
      assert Lookup(after, cs) == Lookup(parts, cs);
    }

    /** Storing and announcing an aggregate of the stored parts is the outcome `update` promises for it. */
    lemma StoredAggregate(key: Key, r: TimePeriodOverview, geo: Shapely, clock: Clock,
                          s0: map<Key, TimePeriodOverview>, a0: seq<Announcement>,
                          s1: map<Key, TimePeriodOverview>, a1: seq<Announcement>)
      requires Level(key) > 0 && |a0| <= |a1|
      requires AllWellFormed(s1) && key in s1 && s1[key] == r
      requires PartsAggregated(key, r, geo, clock, s1)
      requires Settled(s0, a0, s1, a1, Some(key), geo, clock)
      requires OnlyMissingParts(s0, s1, key, clock)
      ensures Outcome(key, r, geo, clock, s0, a0, s1, a1 + Announcements(key, r))
    {
      var a2 := a1 + Announcements(key, r);
      assert a2[|a2| - |listeners|..] == Announcements(key, r);
      assert a2[..|a2| - |listeners|] == a1;
    }

    /** `get_or_update(product_name, year, month, day)` */
    method GetOrUpdate(key: Key, geo: Shapely, clock: Clock) returns (r: TimePeriodOverview)
      requires Valid()
      modifies this
      decreases Level(key), 3
      ensures Valid()
      ensures Extends(key, None, clock.thisYear)
      ensures key in old(summaries) ==> r == old(summaries)[key] && summaries == old(summaries) && announced == old(announced)
      ensures key !in old(summaries) ==> UpdatedBy(key, r, geo, clock)
      ensures !IsDay(key) ==> key in summaries && summaries[key] == r
      ensures Settled(old(summaries), old(announced), summaries, announced, None, geo, clock)
      ensures OnlyMissingParts(old(summaries), summaries, key, clock)
    {
      var stored := Get(key);
      // A `TimePeriodOverview` is a non-empty tuple, so any stored summary is truthy.
      if stored.Some? {
        return stored.value;
      }
      r := Update(key, geo, clock);
      SettledByUpdate(key, r, geo, clock, old(summaries), old(announced), summaries, announced);
    }

    /** `update(product_name, year, month, day)` */
    method Update(key: Key, geo: Shapely, clock: Clock) returns (r: TimePeriodOverview)
      requires Valid()
      modifies this
      decreases Level(key), 2
      ensures UpdatedBy(key, r, geo, clock)
    {
      if IsDay(key) {
        r := CalculateSummary(SearchFor(key), geo, clock.now);
      } else if IsMonth(key) {
        r := UpdateMonth(key, geo, clock);
      } else {
        r := UpdateAggregate(key, geo, clock);
      }
    }

    /** `update` of a month: computed from the index, stored and announced. */
    method UpdateMonth(key: Key, geo: Shapely, clock: Clock) returns (r: TimePeriodOverview)
      requires Valid() && IsMonth(key)
      modifies this
      ensures UpdatedBy(key, r, geo, clock)
    {
      r := CalculateSummary(SearchFor(key), geo, clock.now);
      SummaryBounds(r, SearchFor(key), geo, clock.now);
      Put(key, r);
      Notify(key, r);
      assert announced[..|announced| - |listeners|] == old(announced);
    }

    /** `update` of a year, a product or everything: the sum of its parts, stored and announced. */
    method UpdateAggregate(key: Key, geo: Shapely, clock: Clock) returns (r: TimePeriodOverview)
      requires Valid() && Level(key) > 0 && !IsMonth(key)
      modifies this
      decreases Level(key), 1
      ensures UpdatedBy(key, r, geo, clock)
    {
      var cs := Children(key, index.Names(), clock.thisYear);
      var periods := SummariseParts(key, cs, geo, clock);
      r := AddPeriods(periods, false, geo);
      AggregateWellFormed(r, periods, false, geo);
      ghost var parts := summaries;
      ghost var partsAnnounced := announced;
      assert PartsAggregated(key, r, geo, clock, parts);
      GrowsByStoring(old(summaries), parts, key, r, index.Names(), clock.thisYear);
      StillAggregated(key, r, geo, clock, parts);
      SettledBeneath(key, r, geo, clock, old(summaries), old(announced), parts, partsAnnounced);
      MissingPartsStoring(old(summaries), parts, key, r, clock);
      StoredAggregate(key, r, geo, clock, old(summaries), old(announced), parts[key := r], partsAnnounced);
      Put(key, r);
      Notify(key, r);
    }

    /**
     * `get_or_update` for one part of an aggregate key, accounted against the
     * summaries `s0` and calls `a0` there were before the first part.
     */
    method SummarisePart(key: Key, cs: seq<Key>, i: nat, geo: Shapely, clock: Clock,
                         ghost s0: map<Key, TimePeriodOverview>, ghost a0: seq<Announcement>)
      returns (r: TimePeriodOverview)
      requires Valid()
      requires Level(key) > 0 && cs == Children(key, index.Names(), clock.thisYear) && i < |cs|
      requires a0 <= announced && Grows(s0, summaries, key, None, index.Names(), clock.thisYear)
      requires key !in summaries || (key in s0 && summaries[key] == s0[key])
      requires Settled(s0, a0, summaries, announced, None, geo, clock)
      requires OnlyMissingParts(s0, summaries, key, clock)
      modifies this
      decreases Level(cs[i]), 4
      ensures Valid()
      ensures a0 <= announced && Grows(s0, summaries, key, None, index.Names(), clock.thisYear)
      ensures key !in summaries || (key in s0 && summaries[key] == s0[key])
      ensures Settled(s0, a0, summaries, announced, None, geo, clock)
      ensures OnlyMissingParts(s0, summaries, key, clock)
      ensures forall k | k in old(summaries) :: k in summaries && summaries[k] == old(summaries)[k]
      ensures cs[i] in summaries && summaries[cs[i]] == r
    {
      r := GetOrUpdate(cs[i], geo, clock);
      forall k | k in summaries && k !in old(summaries)
        ensures Beneath(k, key, index.Names(), clock.thisYear)
      {
        BeneathChild(k, key, index.Names(), clock.thisYear, i);
      }
      GrowsTransitive(s0, old(summaries), summaries, key, index.Names(), clock.thisYear);
      SettledTransitive(s0, a0, old(summaries), old(announced), summaries, announced, geo, clock);
      assert (forall k | k in summaries :: k in old(summaries)) || (cs[i] in summaries && cs[i] !in old(summaries));
      MissingPartOfChild(old(summaries), summaries, key, cs[i], clock);
      MissingPartsTransitive(s0, old(summaries), summaries, key, clock);
    }

    /** `get_or_update` for each part of an aggregate key, in order. */
    method SummariseParts(key: Key, cs: seq<Key>, geo: Shapely, clock: Clock) returns (periods: seq<TimePeriodOverview>)
      requires Valid()
      requires Level(key) > 0 && cs == Children(key, index.Names(), clock.thisYear)
      modifies this
      decreases Level(key), 0
      ensures Valid()
      ensures Extends(key, None, clock.thisYear)
      ensures key !in summaries || (key in old(summaries) && summaries[key] == old(summaries)[key])
      ensures forall c | c in cs :: c in summaries
      ensures periods == Lookup(summaries, cs)
      ensures Settled(old(summaries), old(announced), summaries, announced, None, geo, clock)
      ensures OnlyMissingParts(old(summaries), summaries, key, clock)
    {
      periods := [];
      for i := 0 to |cs|
        invariant Valid()
        invariant old(announced) <= announced && Grows(old(summaries), summaries, key, None, index.Names(), clock.thisYear)
        invariant key !in summaries || (key in old(summaries) && summaries[key] == old(summaries)[key])
        invariant Settled(old(summaries), old(announced), summaries, announced, None, geo, clock)
        invariant OnlyMissingParts(old(summaries), summaries, key, clock)
        invariant forall j | 0 <= j < i :: cs[j] in summaries
        invariant periods == Lookup(summaries, cs[..i])
      {
        ghost var before := summaries;
        var p := SummarisePart(key, cs, i, geo, clock, old(summaries), old(announced));
        LookupStable(before, summaries, cs[..i]);
        assert cs[..i + 1] == cs[..i] + [cs[i]];
        periods := periods + [p];
      }
      assert cs[..|cs|] == cs;
    }

    /** The index's product names with a whole-product summary, in index order. */
    function Complete(names: seq<string>): (r: seq<string>)
      reads this
      ensures forall n :: n in r <==> n in names && Has(ProductKey(n))
      ensures forall n :: multiset(r)[n] == if Has(ProductKey(n)) then multiset(names)[n] else 0
    {
      if names == [] then []
      else
        var rest := Complete(names[1..]);
        assert forall n | n in names :: n == names[0] || n in names[1..];
        assert names == [names[0]] + names[1..];
        if Has(ProductKey(names[0])) then [names[0]] + rest else rest
    }

    /** `list_complete_products()`: the names of the products that `has` a whole-product summary, sorted. */
    function ListCompleteProducts(): (r: seq<string>)
      reads this
      ensures Sorted(r)
      ensures multiset(r) == multiset(Complete(index.Names()))
      ensures forall n :: n in r <==> n in index.Names() && Has(ProductKey(n))
    {
      var complete := Complete(index.Names());
      var r := Sort(complete);
      assert forall n :: n in r <==> n in complete by {
        forall n ensures n in r <==> n in complete {
          assert n in r <==> n in multiset(r);
          assert n in complete <==> n in multiset(complete);
        }
      }
      r
    }
  }
}
