/** The entry-based `SumFile` of evaluation.go: folds a day's decoded
    entries into per-tag seconds. Every tag seen becomes a key; a `stop`
    or a change of tag charges the time since the previous entry to the
    open tag; an entry with an empty tag closes the open tag like a stop;
    a tag still open after the last entry is charged up to 23:59:59 of
    that entry's own day. The keys `""` and `"stop"` are removed at the
    end. The function never fails. */
module EntrySum {
  import opened Wrappers
  import opened Calendar
  import opened Codec
  import opened Totals

  const Stop: string := "stop"

  /** The loop state: totals so far, the open tag (`""` for none) and the
      time of the previous entry. */
  datatype Tally = Tally(totals: Totals, current: string, since: Timestamp)

  /** Before the first entry: no totals, no open tag, Go's zero time. */
  const Start: Tally := Tally(map[], "", ZeroTime)

  /** The tags of a sequence of entries. */
  function Tags(es: seq<TimeEntry>): set<string>
  {
    set i | 0 <= i < |es| :: es[i].tag
  }

  lemma TagsSnoc(es: seq<TimeEntry>, e: TimeEntry)
    ensures Tags(es + [e]) == Tags(es) + {e.tag}
  {
    var s := es + [e];
    forall k | k in Tags(s)
      ensures k in Tags(es) + {e.tag}
    {
      var i :| 0 <= i < |s| && s[i].tag == k;
      if i < |es| {
        assert es[i] == s[i];
      }
    }
    forall k | k in Tags(es)
      ensures k in Tags(s)
    {
      var i :| 0 <= i < |es| && es[i].tag == k;
      assert s[i] == es[i];
    }
    assert s[|es|] == e;
  }

  /** Whether entry `e` charges the open tag: on a stop, or on a change
      of tag. */
  predicate Charges(t: Tally, e: TimeEntry)
  {
    e.tag == Stop || t.current != e.tag
  }

  /** One iteration of the loop over the entries. */
  function Step(t: Tally, e: TimeEntry): (r: Tally)
    ensures r.since == e.date
    ensures r.current == (if e.tag == Stop then "" else e.tag)
    ensures r.totals.Keys == t.totals.Keys + {e.tag, t.current}
    ensures forall k :: Get(r.totals, k) ==
              Get(t.totals, k) + (if Charges(t, e) && k == t.current then e.date.unix - t.since.unix else 0)
  {
    var totals := if e.tag in t.totals then t.totals else t.totals[e.tag := 0];
    var diff := e.date.unix - t.since.unix;
    if e.tag == Stop then Tally(Charge(totals, t.current, diff), "", e.date)
    else if t.current != e.tag then Tally(Charge(totals, t.current, diff), e.tag, e.date)
    else Tally(totals, t.current, e.date)
  }

  /** The loop over all entries, from `Start`. The open tag is never
      `"stop"`, so the closing step after the loop always runs. */
  function Fold(es: seq<TimeEntry>): (r: Tally)
    ensures r.current != Stop
    ensures r.current == "" || r.current in Tags(es)
    ensures r.totals.Keys == Tags(es) + (if |es| == 0 then {} else {""})
    ensures |es| > 0 ==> r.since == es[|es| - 1].date
    decreases |es|
  {
    if |es| == 0 then Start
    else
      var init := es[..|es| - 1];
      TagsSnoc(init, es[|es| - 1]);
      assert init + [es[|es| - 1]] == es;
      Step(Fold(init), es[|es| - 1])
  }

  /** The loop continued from an arbitrary state. */
  function FoldFrom(t: Tally, es: seq<TimeEntry>): Tally
    decreases |es|
  {
    if |es| == 0 then t else Step(FoldFrom(t, es[..|es| - 1]), es[|es| - 1])
  }

  lemma {:induction false} FoldSplit(a: seq<TimeEntry>, b: seq<TimeEntry>)
    ensures Fold(a + b) == FoldFrom(Fold(a), b)
    decreases |b|
  {
    if |b| == 0 {
      assert a + b == a;
    } else {
      assert (a + b)[..|a + b| - 1] == a + b[..|b| - 1];
      FoldSplit(a, b[..|b| - 1]);
    }
  }

  /** After the loop: charge a tag still open up to 23:59:59 of the last
      entry's day, then drop the keys `""` and `"stop"`. */
  function Close(t: Tally): (r: Totals)
    requires t.current != Stop
    ensures r.Keys == t.totals.Keys + {t.current} - {"", Stop}
    ensures forall k :: k in r ==>
              r[k] == Get(t.totals, k) + (if k == t.current then EndOfDay(t.since).unix - t.since.unix else 0)
  {
    var closed := Charge(t.totals, t.current, EndOfDay(t.since).unix - t.since.unix);
    closed - {"", Stop}
  }

  /** evaluation.go `SumFile`: every tag of the input except `""` and
      `"stop"` is a key of the result, and nothing else is. */
  function SumEntries(es: seq<TimeEntry>): (r: Totals)
    ensures r.Keys == Tags(es) - {"", Stop}
  {
    Close(Fold(es))
  }

  /** No entries give no totals. */
  lemma SumEntriesEmpty()
    ensures SumEntries([]) == map[]
  {
    assert Tags([]) == {};
  }

  /** One tag followed by a stop is charged exactly the time between. */
  lemma WorkThenStop(w: string, t0: Timestamp, t1: Timestamp, c0: string, c1: string)
    requires w != "" && w != Stop
    ensures SumEntries([TimeEntry(t0, w, c0), TimeEntry(t1, Stop, c1)]) == map[w := t1.unix - t0.unix]
  {
    var es := [TimeEntry(t0, w, c0), TimeEntry(t1, Stop, c1)];
    assert es[..1] == [TimeEntry(t0, w, c0)];
    assert [TimeEntry(t0, w, c0)][..0] == [];
    var f1 := Fold(es[..1]);
    assert es[..1][..0] == [];
    assert f1 == Step(Fold(es[..1][..0]), es[0]);
    assert f1.current == w && f1.since == t0 && Get(f1.totals, w) == 0;
    var f2 := Fold(es);
    assert f2 == Step(f1, es[1]);
    assert f2.current == "" && Get(f2.totals, w) == t1.unix - t0.unix;
    assert Tags(es) == {w, Stop} by {
      assert es[0].tag == w && es[1].tag == Stop;
    }
    var expected := map[w := t1.unix - t0.unix];
    forall k
      ensures k in SumEntries(es) <==> k in expected
      ensures Get(SumEntries(es), k) == Get(expected, k)
    {
    }
    MapsAgree(SumEntries(es), expected);
  }

  /** Switching tags without a stop charges the first tag up to the
      switch and the second up to the stop. */
  lemma SwitchThenStop(p: string, w: string, t0: Timestamp, t1: Timestamp, t2: Timestamp, c0: string, c1: string, c2: string)
    requires p != "" && p != Stop && w != "" && w != Stop && p != w
    ensures SumEntries([TimeEntry(t0, p, c0), TimeEntry(t1, w, c1), TimeEntry(t2, Stop, c2)])
            == map[p := t1.unix - t0.unix, w := t2.unix - t1.unix]
  {
    var f3 := SwitchState(p, w, t0, t1, t2, c0, c1, c2);
    IdleTotals(f3, map[p := t1.unix - t0.unix, w := t2.unix - t1.unix]);
  }

  /** With no tag open, the result is the loop's totals without the keys
      `""` and `"stop"`. */
  lemma IdleTotals(t: Tally, expected: Totals)
    requires t.current == ""
    requires t.totals.Keys - {"", Stop} == expected.Keys
    requires forall k :: k in expected ==> Get(t.totals, k) == expected[k]
    ensures Close(t) == expected
  {
    CloseIdle(t);
    MapsAgree(Close(t), expected);
  }

  /** The loop state after `p`, `w`, `stop`. */
  lemma SwitchState(p: string, w: string, t0: Timestamp, t1: Timestamp, t2: Timestamp, c0: string, c1: string, c2: string)
    returns (f3: Tally)
    requires p != "" && p != Stop && w != "" && w != Stop && p != w
    ensures f3 == Fold([TimeEntry(t0, p, c0), TimeEntry(t1, w, c1), TimeEntry(t2, Stop, c2)])
    ensures f3.current == "" && f3.totals.Keys == {"", p, w, Stop}
    ensures Get(f3.totals, p) == t1.unix - t0.unix && Get(f3.totals, w) == t2.unix - t1.unix
  {
    var es := [TimeEntry(t0, p, c0), TimeEntry(t1, w, c1), TimeEntry(t2, Stop, c2)];
    FoldThree(es);
    var f1 := Step(Start, es[0]);
    var f2 := Step(f1, es[1]);
    assert Get(f2.totals, p) == t1.unix - t0.unix && Get(f2.totals, w) == 0;
    f3 := Step(f2, es[2]);
  }

  /** With no tag open, closing only removes the keys `""` and `"stop"`. */
  lemma CloseIdle(t: Tally)
    requires t.current == ""
    ensures Close(t) == t.totals - {"", Stop}
  {
  }

  /** Three entries unrolled. */
  lemma FoldThree(es: seq<TimeEntry>)
    requires |es| == 3
    ensures Fold(es) == Step(Step(Step(Start, es[0]), es[1]), es[2])
  {
    assert Fold(es[..1]) == Step(Start, es[0]) by {
      assert es[..1][..0] == [];
    }
    assert Fold(es[..2]) == Step(Fold(es[..1]), es[1]) by {
      assert es[..2][..1] == es[..1];
    }
    assert Fold(es) == Step(Fold(es[..2]), es[2]);
  }

  /** The log of Monday 28 October 2013 in zone +01:00: `#play` at
      20:00:00, `#work` at 21:45:33, `stop` at 23:24:49. */
  lemma PlayWorkExample()
    ensures var day := Civil(2013, 10, 28);
            SumEntries([TimeEntry(DateAt(day, 20, 0, 0, 3600), "#play", ""),
                        TimeEntry(DateAt(day, 21, 45, 33, 3600), "#work", ""),
                        TimeEntry(DateAt(day, 23, 24, 49, 3600), Stop, "")])
            == map["#play" := 6333, "#work" := 5956]
  {
    var day := Civil(2013, 10, 28);
    SwitchThenStop("#play", "#work", DateAt(day, 20, 0, 0, 3600), DateAt(day, 21, 45, 33, 3600),
                   DateAt(day, 23, 24, 49, 3600), "", "", "");
  }

  /** A lone tag is charged up to 23:59:59 of its own day; from noon that
      is 43199 seconds. */
  lemma LoneTagClosedAtEndOfDay(p: string, t: Timestamp, c: string)
    requires p != "" && p != Stop
    ensures SumEntries([TimeEntry(t, p, c)]) == map[p := EndOfDay(t).unix - t.unix]
    ensures (t.unix + t.offset) % SecondsPerDay == 43200 ==> SumEntries([TimeEntry(t, p, c)]) == map[p := 43199]
  {
    var es := [TimeEntry(t, p, c)];
    assert es[..0] == [];
    MapsAgree(SumEntries(es), map[p := EndOfDay(t).unix - t.unix]);
  }

  /** Two loop states that differ only in the keys `""` and `"stop"`,
      which the result never shows. */
  ghost predicate Equiv(t1: Tally, t2: Tally)
  {
    && t1.current == t2.current && t1.since == t2.since
    && forall k :: k != "" && k != Stop ==>
         (k in t1.totals <==> k in t2.totals) && Get(t1.totals, k) == Get(t2.totals, k)
  }

  lemma {:induction false} FoldFromEquiv(t1: Tally, t2: Tally, es: seq<TimeEntry>)
    requires Equiv(t1, t2)
    ensures Equiv(FoldFrom(t1, es), FoldFrom(t2, es))
    decreases |es|
  {
    if |es| > 0 {
      FoldFromEquiv(t1, t2, es[..|es| - 1]);
    }
  }

  /** `FoldFrom` never opens the tag `"stop"`. */
  lemma {:induction false} FoldFromNeverStop(t: Tally, es: seq<TimeEntry>)
    requires t.current != Stop
    ensures FoldFrom(t, es).current != Stop
    decreases |es|
  {
    if |es| > 0 {
      FoldFromNeverStop(t, es[..|es| - 1]);
    }
  }

  lemma CloseEquiv(t1: Tally, t2: Tally)
    requires t1.current != Stop && Equiv(t1, t2)
    ensures Close(t1) == Close(t2)
  {
    forall k
      ensures k in Close(t1) <==> k in Close(t2)
      ensures Get(Close(t1), k) == Get(Close(t2), k)
    {
    }
    MapsAgree(Close(t1), Close(t2));
  }

  /** An entry with an empty tag closes the open tag exactly like a
      `stop` entry at the same time would. */
  lemma EmptyTagActsAsStop(before: seq<TimeEntry>, d: Timestamp, c: string, after: seq<TimeEntry>)
    ensures SumEntries(before + [TimeEntry(d, "", c)] + after) == SumEntries(before + [TimeEntry(d, Stop, c)] + after)
  {
    var t := Fold(before);
    var t1 := Step(t, TimeEntry(d, "", c));
    var t2 := Step(t, TimeEntry(d, Stop, c));
    assert Equiv(t1, t2);
    FoldSplit(before, [TimeEntry(d, "", c)]);
    FoldSplit(before, [TimeEntry(d, Stop, c)]);
    assert [TimeEntry(d, "", c)][..0] == [] && [TimeEntry(d, Stop, c)][..0] == [];
    FoldSplit(before + [TimeEntry(d, "", c)], after);
    FoldSplit(before + [TimeEntry(d, Stop, c)], after);
    FoldFromEquiv(t1, t2, after);
    FoldFromNeverStop(t1, after);
    CloseEquiv(FoldFrom(t1, after), FoldFrom(t2, after));
  }

  /** Closing the last open tag by the end-of-day rule gives the same
      totals as an explicit stop at 23:59:59 of the last entry's day. */
  lemma TrailingTagEqualsExplicitStop(es: seq<TimeEntry>, c: string)
    requires |es| > 0
    ensures SumEntries(es) == SumEntries(es + [TimeEntry(EndOfDay(es[|es| - 1].date), Stop, c)])
  {
    var e := TimeEntry(EndOfDay(es[|es| - 1].date), Stop, c);
    var s := es + [e];
    assert s[..|s| - 1] == es;
    var t := Fold(es);
    var t' := Step(t, e);
    assert Fold(s) == t';
    CloseIdle(t');
    var l := Close(t);
    var r := t'.totals - {"", Stop};
    forall k
      ensures k in l <==> k in r
      ensures Get(l, k) == Get(r, k)
    {
    }
    MapsAgree(l, r);
  }

  // ---- the range fold (evaluation.go `SummarizeDate`) ----

  /** Each stored line decoded with `ReadEntry`. */
  function DecodeAll(parse: Parser, lines: seq<string>): (es: seq<TimeEntry>)
    ensures |es| == |lines|
    ensures forall i :: 0 <= i < |lines| ==> es[i] == ReadEntry(parse, lines[i])
  {
    seq(|lines|, i requires 0 <= i < |lines| => ReadEntry(parse, lines[i]))
  }

  /** One date of the range: `None` when the storage read failed,
      otherwise the totals of its decoded lines. */
  function DayTotals(parse: Parser, day: Option<seq<string>>): (r: Option<Totals>)
    ensures r.Some? <==> day.Some?
  {
    match day
    case None => None
    case Some(lines) => Some(SumEntries(DecodeAll(parse, lines)))
  }

  /** A tag recorded on some successfully read date of the range. */
  predicate TagOnSomeDay(parse: Parser, days: seq<Option<seq<string>>>, k: string)
  {
    exists i, j :: 0 <= i < |days| && days[i].Some? && 0 <= j < |days[i].value| &&
                   ReadEntry(parse, days[i].value[j]).tag == k
  }

  lemma SeenIffRecorded(parse: Parser, days: seq<Option<seq<string>>>, daily: seq<Option<Totals>>, k: string)
    requires |daily| == |days|
    requires forall i :: 0 <= i < |days| ==> daily[i] == DayTotals(parse, days[i])
    ensures SeenIn(daily, k) <==> k != "" && k != Stop && TagOnSomeDay(parse, days, k)
  {
    if SeenIn(daily, k) {
      SeenIsRecorded(parse, days, daily, k);
    }
    if k != "" && k != Stop && TagOnSomeDay(parse, days, k) {
      RecordedIsSeen(parse, days, daily, k);
    }
  }

  lemma SeenIsRecorded(parse: Parser, days: seq<Option<seq<string>>>, daily: seq<Option<Totals>>, k: string)
    requires |daily| == |days|
    requires forall i :: 0 <= i < |days| ==> daily[i] == DayTotals(parse, days[i])
    requires SeenIn(daily, k)
    ensures k != "" && k != Stop && TagOnSomeDay(parse, days, k)
  {
    var i :| 0 <= i < |daily| && daily[i].Some? && k in daily[i].value;
    RecordedOnDay(parse, days[i].value, k);
  }

  lemma RecordedIsSeen(parse: Parser, days: seq<Option<seq<string>>>, daily: seq<Option<Totals>>, k: string)
    requires |daily| == |days|
    requires forall i :: 0 <= i < |days| ==> daily[i] == DayTotals(parse, days[i])
    requires k != "" && k != Stop && TagOnSomeDay(parse, days, k)
    ensures SeenIn(daily, k)
  {
    var i, j :| 0 <= i < |days| && days[i].Some? && 0 <= j < |days[i].value| &&
                ReadEntry(parse, days[i].value[j]).tag == k;
    RecordedOnDay(parse, days[i].value, k);
    assert daily[i].Some? && k in daily[i].value;
  }

  /** A key of one day's totals is a tag other than `""`/`"stop"` of one
      of its decoded lines. */
  lemma RecordedOnDay(parse: Parser, lines: seq<string>, k: string)
    ensures k in SumEntries(DecodeAll(parse, lines)) <==>
            k != "" && k != Stop && exists j :: 0 <= j < |lines| && ReadEntry(parse, lines[j]).tag == k
  {
    var es := DecodeAll(parse, lines);
    if k in Tags(es) {
      TagIsOnLine(parse, lines, k);
    }
    if exists j :: 0 <= j < |lines| && ReadEntry(parse, lines[j]).tag == k {
      LineTagIsTag(parse, lines, k);
    }
  }

  lemma TagIsOnLine(parse: Parser, lines: seq<string>, k: string)
    requires k in Tags(DecodeAll(parse, lines))
    ensures exists j :: 0 <= j < |lines| && ReadEntry(parse, lines[j]).tag == k
  {
    var es := DecodeAll(parse, lines);
    var j :| 0 <= j < |es| && es[j].tag == k;
    assert ReadEntry(parse, lines[j]).tag == k;
  }

  lemma LineTagIsTag(parse: Parser, lines: seq<string>, k: string)
    requires exists j :: 0 <= j < |lines| && ReadEntry(parse, lines[j]).tag == k
    ensures k in Tags(DecodeAll(parse, lines))
  {
    var es := DecodeAll(parse, lines);
    var j :| 0 <= j < |lines| && ReadEntry(parse, lines[j]).tag == k;
    assert es[j].tag == k;
  }

  /** evaluation.go `SummarizeDate`: the keys are the tags other than
      `""` and `"stop"` recorded on successfully read dates, each with the
      sum of its per-date totals. */
  function SummarizeDate(parse: Parser, days: seq<Option<seq<string>>>): (r: Totals)
    ensures forall k :: k in r <==> k != "" && k != Stop && TagOnSomeDay(parse, days, k)
    ensures forall k :: Get(r, k) == SumAt(seq(|days|, i requires 0 <= i < |days| => DayTotals(parse, days[i])), k)
  {
    var daily := seq(|days|, i requires 0 <= i < |days| => DayTotals(parse, days[i]));
    forall k
      ensures SeenIn(daily, k) <==> k != "" && k != Stop && TagOnSomeDay(parse, days, k)
    {
      SeenIffRecorded(parse, days, daily, k);
    }
    Summarize(daily)
  }
}
