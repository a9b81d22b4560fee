/** The entry-based `SumFile` on entries whose dates never go backwards:
    every reported total is non-negative and together they never exceed
    the time from the first entry to 23:59:59 of the last entry's day. */
module EntryOrder {
  import opened Calendar
  import opened Codec
  import opened Totals
  import opened EntrySum

  /** Every entry is no earlier than the entry before it. */
  predicate Chronological(es: seq<TimeEntry>)
  {
    forall i :: 0 < i < |es| ==> es[i - 1].date.unix <= es[i].date.unix
  }

  /** The totals as reported: without the keys `""` and `"stop"`. */
  function Off(m: Totals): Totals
  {
    m - {"", Stop}
  }

  /** The values of the reported keys are non-negative. */
  predicate NonNegative(m: Totals)
  {
    forall k :: k in Off(m) ==> Off(m)[k] >= 0
  }

  /** Adding a key with value zero leaves the reported sum alone. */
  lemma AddZeroKey(m: Totals, k: string)
    requires k !in m
    ensures MapSum(Off(m[k := 0])) == MapSum(Off(m))
    ensures NonNegative(m) ==> NonNegative(m[k := 0])
  {
    if k != "" && k != Stop {
      assert Off(m[k := 0]) == Charge(Off(m), k, 0);
      ChargeRaisesSum(Off(m), k, 0);
    } else {
      assert Off(m[k := 0]) == Off(m);
    }
  }

  /** Charging a key other than `"stop"` raises the reported sum by the
      charge, unless the key is `""`. */
  lemma ChargeOff(m: Totals, k: string, d: int)
    requires k != Stop
    ensures MapSum(Off(Charge(m, k, d))) == MapSum(Off(m)) + (if k == "" then 0 else d)
    ensures NonNegative(m) && d >= 0 ==> NonNegative(Charge(m, k, d))
  {
    if k == "" {
      assert Off(Charge(m, k, d)) == Off(m);
    } else {
      assert Off(Charge(m, k, d)) == Charge(Off(m), k, d);
      ChargeRaisesSum(Off(m), k, d);
    }
  }

  /** One entry raises the reported sum by the time charged to the open
      tag, and by nothing when no tag is open. */
  lemma StepOff(t: Tally, e: TimeEntry)
    requires t.current != Stop
    ensures var d := if Charges(t, e) && t.current != "" then e.date.unix - t.since.unix else 0;
            MapSum(Off(Step(t, e).totals)) == MapSum(Off(t.totals)) + d
    ensures NonNegative(t.totals) && t.since.unix <= e.date.unix ==> NonNegative(Step(t, e).totals)
  {
    var z := if e.tag in t.totals then t.totals else t.totals[e.tag := 0];
    assert MapSum(Off(z)) == MapSum(Off(t.totals)) && (NonNegative(t.totals) ==> NonNegative(z)) by {
      if e.tag !in t.totals {
        AddZeroKey(t.totals, e.tag);
      }
    }
    var diff := e.date.unix - t.since.unix;
    if Charges(t, e) {
      ChargeOff(z, t.current, diff);
    }
  }

  /** The loop keeps the reported totals non-negative and their sum at
      most the time from the first entry to the last. */
  lemma {:induction false} FoldBounded(es: seq<TimeEntry>)
    requires |es| > 0 && Chronological(es)
    ensures NonNegative(Fold(es).totals)
    ensures MapSum(Off(Fold(es).totals)) <= es[|es| - 1].date.unix - es[0].date.unix
    decreases |es|
  {
    var init := es[..|es| - 1];
    var e := es[|es| - 1];
    assert Fold(es) == Step(Fold(init), e);
    if |init| == 0 {
      assert Off(Start.totals) == map[];
      StepOff(Start, e);
    } else {
      FoldBounded(init);
      assert init[0] == es[0];
      assert Fold(init).since == es[|es| - 2].date;
      StepOff(Fold(init), e);
    }
  }

  /** Closing the day charges the open tag up to the end of its day,
      which raises the reported sum by at most that much and keeps the
      reported values non-negative. */
  lemma CloseBounded(t: Tally)
    requires t.current != Stop && NonNegative(t.totals)
    ensures forall k :: k in Close(t) ==> Close(t)[k] >= 0
    ensures MapSum(Close(t)) <= MapSum(Off(t.totals)) + (EndOfDay(t.since).unix - t.since.unix)
  {
    var d := EndOfDay(t.since).unix - t.since.unix;
    assert Close(t) == Off(Charge(t.totals, t.current, d));
    ChargeOff(t.totals, t.current, d);
  }

  /** On chronological entries `SumFile` reports non-negative totals
      whose sum is at most the time from the first entry to 23:59:59 of
      the last entry's day. */
  lemma ChronologicalEntryTotals(es: seq<TimeEntry>)
    requires Chronological(es)
    ensures forall k :: k in SumEntries(es) ==> SumEntries(es)[k] >= 0
    ensures |es| > 0 ==> MapSum(SumEntries(es)) <= EndOfDay(es[|es| - 1].date).unix - es[0].date.unix
  {
    if |es| == 0 {
      SumEntriesEmpty();
    } else {
      FoldBounded(es);
      CloseBounded(Fold(es));
    }
  }
}
