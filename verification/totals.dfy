/** Per-tag totals, Go's `map[string]int64`: charging elapsed seconds to a
    tag, merging one day's totals into a running summary (the loop inside
    `SummarizeDate`), and the sum of all values (`summarize`). Integer
    overflow of `int64` is not modelled. */
module Totals {
  import opened Wrappers
  import opened Permutations

  type Totals = map<string, int>

  /** Go's map read: a missing key reads as zero. */
  function Get(m: Totals, k: string): int
  {
    if k in m then m[k] else 0
  }

  /** `m[k] = m[k] + d`: charge `d` seconds to `k`, creating the key. */
  function Charge(m: Totals, k: string, d: int): (r: Totals)
    ensures r.Keys == m.Keys + {k}
    ensures Get(r, k) == Get(m, k) + d
    ensures forall j :: j != k ==> Get(r, j) == Get(m, j)
  {
    m[k := Get(m, k) + d]
  }

  /** One day merged into the accumulator: a key the accumulator lacks
      takes the day's value, otherwise the two are added. */
  function Merge(acc: Totals, day: Totals): (r: Totals)
    ensures r.Keys == acc.Keys + day.Keys
    ensures forall k :: k in r ==> r[k] == Get(acc, k) + Get(day, k)
  {
    map k | k in acc.Keys + day.Keys ::
      if k !in acc then day[k]
      else if k in day then day[k] + acc[k]
      else acc[k]
  }

  /** The days of a range whose read succeeded contribute their totals; a
      failed read (`None`) contributes nothing. */
  function DayValue(day: Option<Totals>, k: string): int
  {
    if day.Some? then Get(day.value, k) else 0
  }

  /** The reference total of key `k` over a range of days. */
  function SumAt(days: seq<Option<Totals>>, k: string): int
    decreases |days|
  {
    if |days| == 0 then 0
    else SumAt(days[..|days| - 1], k) + DayValue(days[|days| - 1], k)
  }

  /** Key `k` was recorded on some day of the range whose read succeeded. */
  predicate SeenIn(days: seq<Option<Totals>>, k: string)
  {
    exists i :: 0 <= i < |days| && days[i].Some? && k in days[i].value
  }

  /** `SummarizeDate`'s loop over the dates: fold every successfully read
      day's totals into the summary with `Merge`, skipping failed reads. */
  function Summarize(days: seq<Option<Totals>>): (r: Totals)
    ensures forall k :: k in r <==> SeenIn(days, k)
    ensures forall k :: Get(r, k) == SumAt(days, k)
    decreases |days|
  {
    if |days| == 0 then map[]
    else
      var init := days[..|days| - 1];
      var acc := Summarize(init);
      var last := days[|days| - 1];
      var r := if last.Some? then Merge(acc, last.value) else acc;
      assert forall k :: SeenIn(days, k) <==> SeenIn(init, k) || (last.Some? && k in last.value) by {
        forall k
          ensures SeenIn(days, k) <==> SeenIn(init, k) || (last.Some? && k in last.value)
        {
          if SeenIn(days, k) {
            var i :| 0 <= i < |days| && days[i].Some? && k in days[i].value;
            if i < |days| - 1 {
              assert init[i] == days[i];
            }
          }
          if SeenIn(init, k) {
            var i :| 0 <= i < |init| && init[i].Some? && k in init[i].value;
            assert days[i] == init[i];
          }
        }
      }
      r
  }

  /** An empty range of dates summarizes to no tags at all. */
  lemma SummarizeEmpty()
    ensures Summarize([]) == map[]
  {
  }

  /** A failed read anywhere in the range is the same as leaving the day
      out of the range. */
  lemma FailedDayContributesNothing(before: seq<Option<Totals>>, after: seq<Option<Totals>>)
    ensures Summarize(before + [None] + after) == Summarize(before + after)
  {
    var a := before + [None] + after;
    var b := before + after;
    forall k
      ensures k in Summarize(a) <==> k in Summarize(b)
      ensures Get(Summarize(a), k) == Get(Summarize(b), k)
    {
      SumAtSkipsNone(before, after, k);
      SeenSkipsNone(before, after, k);
    }
    MapsAgree(Summarize(a), Summarize(b));
  }

  lemma SeenSkipsNone(before: seq<Option<Totals>>, after: seq<Option<Totals>>, k: string)
    ensures SeenIn(before + [None] + after, k) <==> SeenIn(before + after, k)
  {
    var a := before + [None] + after;
    var b := before + after;
    if SeenIn(a, k) {
      var i :| 0 <= i < |a| && a[i].Some? && k in a[i].value;
      if i < |before| {
        assert b[i] == a[i];
      } else {
        assert b[i - 1] == a[i];
      }
    }
    if SeenIn(b, k) {
      var i :| 0 <= i < |b| && b[i].Some? && k in b[i].value;
      if i < |before| {
        assert a[i] == b[i];
      } else {
        assert a[i + 1] == b[i];
      }
    }
  }

  /** Two maps with the same keys and the same reads are the same map. */
  lemma MapsAgree(m1: Totals, m2: Totals)
    requires forall k :: k in m1 <==> k in m2
    requires forall k :: Get(m1, k) == Get(m2, k)
    ensures m1 == m2
  {
    assert forall k :: k in m1 ==> m1[k] == Get(m1, k) == Get(m2, k) == m2[k];
  }

  lemma {:induction false} SumAtAppend(a: seq<Option<Totals>>, b: seq<Option<Totals>>, k: string)
    ensures SumAt(a + b, k) == SumAt(a, k) + SumAt(b, k)
    decreases |b|
  {
    if |b| == 0 {
      assert a + b == a;
    } else {
      assert (a + b)[..|a + b| - 1] == a + b[..|b| - 1];
      SumAtAppend(a, b[..|b| - 1], k);
    }
  }

  lemma SumAtSkipsNone(before: seq<Option<Totals>>, after: seq<Option<Totals>>, k: string)
    ensures SumAt(before + [None] + after, k) == SumAt(before + after, k)
  {
    SumAtAppend(before + [None], after, k);
    SumAtAppend(before, after, k);
    assert (before + [None])[..|before|] == before;
  }

  /** Removing one day from the middle of the range takes away exactly
      its own value. */
  lemma SumAtRemove(days: seq<Option<Totals>>, j: int, k: string)
    requires 0 <= j < |days|
    ensures SumAt(days, k) == SumAt(days[..j] + days[j + 1..], k) + DayValue(days[j], k)
  {
    assert days == days[..j] + [days[j]] + days[j + 1..];
    SumAtAppend(days[..j] + [days[j]], days[j + 1..], k);
    SumAtAppend(days[..j], days[j + 1..], k);
    assert (days[..j] + [days[j]])[..j] == days[..j];
  }

  /** The per-key totals do not depend on the order of the dates. */
  lemma {:induction false} SumAtPermutation(a: seq<Option<Totals>>, b: seq<Option<Totals>>, k: string)
    requires multiset(a) == multiset(b)
    ensures SumAt(a, k) == SumAt(b, k)
    decreases |a|
  {
    if |a| > 0 {
      var x := a[|a| - 1];
      assert x in multiset(b);
      var j :| 0 <= j < |b| && b[j] == x;
      var b' := b[..j] + b[j + 1..];
      assert b == b[..j] + [b[j]] + b[j + 1..];
      assert a == a[..|a| - 1] + [x];
      RemoveOne(a, b, a[..|a| - 1], b[..j], b[j + 1..], x);
      SumAtPermutation(a[..|a| - 1], b', k);
      SumAtRemove(b, j, k);
    }
  }

  /** The summary does not depend on the order of the dates. */
  lemma SummarizeOrderIndependent(a: seq<Option<Totals>>, b: seq<Option<Totals>>)
    requires multiset(a) == multiset(b)
    ensures Summarize(a) == Summarize(b)
  {
    forall k
      ensures k in Summarize(a) <==> k in Summarize(b)
      ensures Get(Summarize(a), k) == Get(Summarize(b), k)
    {
      SumAtPermutation(a, b, k);
      if SeenIn(a, k) {
        var i :| 0 <= i < |a| && a[i].Some? && k in a[i].value;
        assert a[i] in multiset(b);
      }
      if SeenIn(b, k) {
        var i :| 0 <= i < |b| && b[i].Some? && k in b[i].value;
        assert b[i] in multiset(a);
      }
    }
    MapsAgree(Summarize(a), Summarize(b));
  }

  // ---- the sum over all tags (`summarize`) ----

  ghost function Pick(s: set<string>): string
    requires s != {}
  {
    var x :| x in s; x
  }

  /** The sum of all values of a map, in no particular order. */
  ghost function MapSum(m: Totals): int
    decreases |m.Keys|
  {
    if m == map[] then 0
    else
      var k := Pick(m.Keys);
      m[k] + MapSum(m - {k})
  }

  /** Any key can be taken out first. */
  lemma {:induction false} MapSumRemove(m: Totals, k: string)
    requires k in m
    ensures MapSum(m) == m[k] + MapSum(m - {k})
    decreases |m.Keys|
  {
    var p := Pick(m.Keys);
    if p != k {
      assert m - {p} - {k} == m - {k} - {p};
      MapSumRemove(m - {p}, k);
      MapSumRemove(m - {k}, p);
    }
  }

  /** Charging `d` to one key raises the sum by exactly `d`. */
  lemma ChargeRaisesSum(m: Totals, k: string, d: int)
    ensures MapSum(Charge(m, k, d)) == MapSum(m) + d
  {
    var r := Charge(m, k, d);
    MapSumRemove(r, k);
    assert r - {k} == m - {k};
    if k in m {
      MapSumRemove(m, k);
    } else {
      assert m - {k} == m;
    }
  }

  /** Merging adds the sums: the summary's grand total is the sum of the
      days' grand totals. */
  lemma {:induction false} MergeAddsSums(acc: Totals, day: Totals)
    ensures MapSum(Merge(acc, day)) == MapSum(acc) + MapSum(day)
    decreases |day.Keys|
  {
    if day == map[] {
      MapsAgree(Merge(acc, day), acc);
    } else {
      var k := Pick(day.Keys);
      var rest := day - {k};
      MergeAddsSums(acc, rest);
      MapSumRemove(day, k);
      assert day == rest[k := day[k]];
      MergeNewKey(acc, rest, k, day[k]);
      ChargeRaisesSum(Merge(acc, rest), k, day[k]);
    }
  }

  /** Merging a day with one more key is charging that key afterwards. */
  lemma MergeNewKey(acc: Totals, day: Totals, k: string, v: int)
    requires k !in day
    ensures Merge(acc, day[k := v]) == Charge(Merge(acc, day), k, v)
  {
    var l := Merge(acc, day[k := v]);
    var r := Charge(Merge(acc, day), k, v);
    forall j
      ensures j in l <==> j in r
      ensures Get(l, j) == Get(r, j)
    {
    }
    MapsAgree(l, r);
  }

  /** traq-summary `summarize`: add up every value of the map. */
  method SumValues(m: Totals) returns (total: int)
    ensures total == MapSum(m)
  {
    total := 0;
    var rest := m;
    while rest != map[]
      invariant total + MapSum(rest) == MapSum(m)
      decreases |rest.Keys|
    {
      var k :| k in rest;
      MapSumRemove(rest, k);
      total := total + rest[k];
      rest := rest - {k};
    }
  }

  lemma SumValuesOfEmpty()
    ensures MapSum(map[]) == 0
  {
  }
}
