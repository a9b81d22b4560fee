/** The line-based code around `SumFile` in traq.go: `SummarizeDate`,
    which sums the totals of a range of days, and what the synthetic stop
    line of `RunningLoader` does to a day's totals. A file read is a
    parameter: `Some(content)` when the file could be read, `None` when
    it could not. */
module LineDays {
  import opened Wrappers
  import opened Text
  import opened Calendar
  import opened Codec
  import opened Totals
  import opened Loader
  import opened Permutations
  import opened LineSum

  /** One day's totals as `SummarizeDate` sees them: the content is split
      on newlines and summed; an unparsable timestamp's error is ignored
      and the partial totals are used; an index panic propagates. */
  function DayLineTotals(parse: Parser, content: string): (r: Run<Totals>)
    ensures r.Panics? <==> SumLines(parse, Split(content, LineSeparator)).IndexPanic?
    ensures SumLines(parse, Split(content, LineSeparator)).Summed? ==>
              r == Returns(SumLines(parse, Split(content, LineSeparator)).totals)
    ensures SumLines(parse, Split(content, LineSeparator)).Unparsable? ==>
              r == Returns(SumLines(parse, Split(content, LineSeparator)).partial)
  {
    match SumLines(parse, Split(content, LineSeparator))
    case Summed(totals) => Returns(totals)
    case Unparsable(partial) => Returns(partial)
    case IndexPanic => Panics
  }

  /** No readable day of the range panics. */
  predicate NoDayPanics(parse: Parser, files: seq<Option<string>>)
  {
    forall i :: 0 <= i < |files| && files[i].Some? ==> DayLineTotals(parse, files[i].value).Returns?
  }

  /** The per-day totals of a range that does not panic; `None` for a day
      whose file could not be read. */
  function DailyTotals(parse: Parser, files: seq<Option<string>>): (days: seq<Option<Totals>>)
    requires NoDayPanics(parse, files)
    ensures |days| == |files|
    ensures forall i :: 0 <= i < |files| ==> (days[i].Some? <==> files[i].Some?)
    ensures forall i :: 0 <= i < |files| && files[i].Some? ==>
              days[i] == Some(DayLineTotals(parse, files[i].value).value)
  {
    seq(|files|, i requires 0 <= i < |files| =>
      if files[i].Some? then Some(DayLineTotals(parse, files[i].value).value) else None)
  }

  /** traq.go `SummarizeDate` without its printing: the days are visited
      in order, a day whose file cannot be read is skipped, and every
      other day's totals are merged into the summary. */
  function SummarizeDateLines(parse: Parser, files: seq<Option<string>>): (r: Run<Totals>)
    ensures r.Returns? <==> NoDayPanics(parse, files)
    ensures r.Returns? ==> r.value == Summarize(DailyTotals(parse, files))
    decreases |files|
  {
    if |files| == 0 then Returns(map[])
    else
      var init := files[..|files| - 1];
      var last := files[|files| - 1];
      var r := match SummarizeDateLines(parse, init)
        case Panics => Panics
        case Returns(acc) =>
          if last.None? then Returns(acc)
          else match DayLineTotals(parse, last.value)
            case Panics => Panics
            case Returns(day) => Returns(Merge(acc, day));
      assert NoDayPanics(parse, files) <==>
               NoDayPanics(parse, init) && (last.Some? ==> DayLineTotals(parse, last.value).Returns?) by {
        if NoDayPanics(parse, init) && (last.Some? ==> DayLineTotals(parse, last.value).Returns?) {
          forall i | 0 <= i < |files| && files[i].Some?
            ensures DayLineTotals(parse, files[i].value).Returns?
          {
            if i < |init| {
              assert files[i] == init[i];
            }
          }
        }
        if NoDayPanics(parse, files) {
          forall i | 0 <= i < |init| && init[i].Some?
            ensures DayLineTotals(parse, init[i].value).Returns?
          {
            assert files[i] == init[i];
          }
        }
      }
      if r.Returns? then
        assert DailyTotals(parse, files) == DailyTotals(parse, init) + [DailyTotals(parse, files)[|files| - 1]];
        r
      else r
  }

  /** An empty range of dates summarizes to no tags. */
  lemma NoDatesNoTags(parse: Parser)
    ensures SummarizeDateLines(parse, []) == Returns(map[])
  {
  }

  /** A day whose file cannot be read leaves the summary as if the day were
      not in the range. */
  lemma UnreadableDaySkipped(parse: Parser, before: seq<Option<string>>, after: seq<Option<string>>)
    ensures SummarizeDateLines(parse, before + [None] + after) == SummarizeDateLines(parse, before + after)
  {
    NoDayPanicsConcat(parse, before + [None], after);
    NoDayPanicsConcat(parse, before, [None]);
    NoDayPanicsConcat(parse, before, after);
    if NoDayPanics(parse, before + [None] + after) {
      DailyConcat(parse, before + [None], after);
      DailyConcat(parse, before, [None]);
      DailyConcat(parse, before, after);
      assert DailyTotals(parse, [None]) == [None];
      FailedDayContributesNothing(DailyTotals(parse, before), DailyTotals(parse, after));
    }
  }

  /** The summary does not depend on the order of the dates. */
  lemma DateOrderIrrelevant(parse: Parser, a: seq<Option<string>>, b: seq<Option<string>>)
    requires multiset(a) == multiset(b)
    ensures SummarizeDateLines(parse, a) == SummarizeDateLines(parse, b)
  {
    assert NoDayPanics(parse, a) <==> NoDayPanics(parse, b) by {
      if NoDayPanics(parse, a) {
        forall i | 0 <= i < |b| && b[i].Some?
          ensures DayLineTotals(parse, b[i].value).Returns?
        {
          assert b[i] in multiset(a);
        }
      }
      if NoDayPanics(parse, b) {
        forall i | 0 <= i < |a| && a[i].Some?
          ensures DayLineTotals(parse, a[i].value).Returns?
        {
          assert a[i] in multiset(b);
        }
      }
    }
    if NoDayPanics(parse, a) {
      DailyPermutation(parse, a, b);
      SummarizeOrderIndependent(DailyTotals(parse, a), DailyTotals(parse, b));
    }
  }

  /** A range does not panic exactly when neither of its parts does. */
  lemma NoDayPanicsConcat(parse: Parser, a: seq<Option<string>>, b: seq<Option<string>>)
    ensures NoDayPanics(parse, a + b) <==> NoDayPanics(parse, a) && NoDayPanics(parse, b)
  {
    var ab := a + b;
    if NoDayPanics(parse, ab) {
      forall i | 0 <= i < |a| && a[i].Some?
        ensures DayLineTotals(parse, a[i].value).Returns?
      {
        assert ab[i] == a[i];
      }
      forall i | 0 <= i < |b| && b[i].Some?
        ensures DayLineTotals(parse, b[i].value).Returns?
      {
        assert ab[|a| + i] == b[i];
      }
    }
  }

  /** The per-day totals of two ranges placed one after the other. */
  lemma DailyConcat(parse: Parser, a: seq<Option<string>>, b: seq<Option<string>>)
    requires NoDayPanics(parse, a + b)
    ensures NoDayPanics(parse, a) && NoDayPanics(parse, b)
    ensures DailyTotals(parse, a + b) == DailyTotals(parse, a) + DailyTotals(parse, b)
  {
    NoDayPanicsConcat(parse, a, b);
  }

  /** Mapping the days to their totals keeps a permutation a permutation. */
  lemma DailyPermutation(parse: Parser, a: seq<Option<string>>, b: seq<Option<string>>)
    requires multiset(a) == multiset(b) && NoDayPanics(parse, a) && NoDayPanics(parse, b)
    ensures multiset(DailyTotals(parse, a)) == multiset(DailyTotals(parse, b))
  {
    var f := file => DayOf(parse, file);
    assert DailyTotals(parse, a) == MapSeq(f, a);
    assert DailyTotals(parse, b) == MapSeq(f, b);
    MapPermutation(f, a, b);
  }

  /** The totals of one day, `None` when its file cannot be read or its
      scan panics. */
  function DayOf(parse: Parser, file: Option<string>): (day: Option<Totals>)
    ensures file.Some? && DayLineTotals(parse, file.value).Returns? ==> day == Some(DayLineTotals(parse, file.value).value)
    ensures file.None? ==> day == None
  {
    if file.Some? && DayLineTotals(parse, file.value).Returns? then Some(DayLineTotals(parse, file.value).value) else None
  }

  /** Unlike the successful path, the partial totals of an unparsable
      day still hold the key `""` when an empty tag was seen, and they
      reach the summary. */
  lemma PartialDayKeepsEmptyKey(parse: Parser, ts: string, t: Timestamp, bad: string)
    requires parse(ts) == Some(t) && FieldSeparator !in ts && LineSeparator !in ts
    requires bad != "" && LineSeparator !in bad && parse(Split(bad, FieldSeparator)[0]).None?
    ensures var content := Line(ts, "", "") + [LineSeparator] + bad;
            SummarizeDateLines(parse, [Some(content)]) == Returns(map["" := 0])
  {
    var content := Line(ts, "", "") + [LineSeparator] + bad;
    PartialDayTotals(parse, ts, t, bad);
    assert [Some(content)][..0] == [];
    MapsAgree(Merge(map[], map["" := 0]), map["" := 0]);
  }

  lemma PartialDayTotals(parse: Parser, ts: string, t: Timestamp, bad: string)
    requires parse(ts) == Some(t) && FieldSeparator !in ts && LineSeparator !in ts
    requires bad != "" && LineSeparator !in bad && parse(Split(bad, FieldSeparator)[0]).None?
    ensures DayLineTotals(parse, Line(ts, "", "") + [LineSeparator] + bad) == Returns(map["" := 0])
  {
    var line := Line(ts, "", "");
    var content := line + [LineSeparator] + bad;
    assert LineSeparator !in line;
    SplitAfterPiece(line, LineSeparator, bad);
    SplitWithoutSeparator(bad, LineSeparator);
    var lines := [line, bad];
    assert Split(content, LineSeparator) == lines;
    assert [] + [line] == [line];
    var s1 := ScanRecord(parse, [], Init(ZeroTime), ts, "", t);
    assert s1.totals == map["" := 0];
    BadLineAborts(parse, ZeroTime, [line], bad, []);
    assert [line] + [bad] + [] == lines;
  }

  // ---- the synthetic stop of `RunningLoader` ----

  /** The stop line is a well-formed stop record. */
  lemma StopLineIsStopRecord(format: Formatter, now: Timestamp)
    ensures StopLineAt(format, now) == Line(format(now), Stop, [LineSeparator])
  {
  }

  /** The stop line after a log that is already stopped charges only the
      key `""`, so the totals do not change. */
  lemma StopAfterStopHarmless(parse: Parser, format: Formatter, now: Timestamp, lines: seq<string>)
    requires parse(format(now)) == Some(now) && FieldSeparator !in format(now)
    requires ScanFrom(parse, Init(ZeroTime), lines).Scanning?
    requires ScanFrom(parse, Init(ZeroTime), lines).current == ""
    ensures SumLines(parse, lines + [StopLineAt(format, now)]) == SumLines(parse, lines)
  {
    var s := ScanFrom(parse, Init(ZeroTime), lines);
    var r := StopStep(parse, format, now, lines, s);
    assert r.totals - {""} == s.totals - {""};
    Reported(parse, lines + [StopLineAt(format, now)], r);
    Reported(parse, lines, s);
  }

  /** The scan after the stop line. */
  lemma StopStep(parse: Parser, format: Formatter, now: Timestamp, lines: seq<string>, s: Scan) returns (r: Scan)
    requires parse(format(now)) == Some(now) && FieldSeparator !in format(now)
    requires ScanFrom(parse, Init(ZeroTime), lines) == s && s.Scanning?
    ensures r == Apply(s, Stop, now)
    ensures ScanFrom(parse, Init(ZeroTime), lines + [StopLineAt(format, now)]) == r
  {
    var stop := StopLineAt(format, now);
    assert (lines + [stop])[..|lines|] == lines;
    StopLineIsStopRecord(format, now);
    StepRecord(parse, s, format(now), Stop, [LineSeparator], now);
    r := Apply(s, Stop, now);
  }

  /** After a log whose last tag is still open, the stop line charges that
      tag with the time up to `now`, and nothing else changes. */
  lemma RunningStopClosesOpenTag(parse: Parser, format: Formatter, now: Timestamp, lines: seq<string>)
    requires parse(format(now)) == Some(now) && FieldSeparator !in format(now)
    requires ScanFrom(parse, Init(ZeroTime), lines).Scanning?
    requires ScanFrom(parse, Init(ZeroTime), lines).current != ""
    ensures var s := ScanFrom(parse, Init(ZeroTime), lines);
            var r := SumLines(parse, lines + [StopLineAt(format, now)]);
            && r.Summed?
            && r.totals.Keys == s.totals.Keys + {s.current} - {""}
            && r.totals[s.current] == Get(s.totals, s.current) + now.unix - s.since.unix
            && forall k :: k in r.totals && k != s.current ==> r.totals[k] == s.totals[k]
  {
    var s := ScanFrom(parse, Init(ZeroTime), lines);
    var r := StopStep(parse, format, now, lines, s);
    Reported(parse, lines + [StopLineAt(format, now)], r);
  }

  /** traq.go `RunningLoader` on a readable file whose log is already
      stopped: whatever it appends, the day's totals stay the same. */
  lemma RunningLoaderKeepHarmless(parse: Parser, format: Formatter, now: Timestamp, content: string)
    requires parse(format(now)) == Some(now) && FieldSeparator !in format(now)
    requires ScanFrom(parse, Init(ZeroTime), Split(content, LineSeparator)).Scanning?
    requires ScanFrom(parse, Init(ZeroTime), Split(content, LineSeparator)).current == ""
    ensures RunningLoaderKeep(format, now, Some(content)).Returns?
    ensures SumLines(parse, RunningLoaderKeep(format, now, Some(content)).value.lines)
            == SumLines(parse, Split(content, LineSeparator))
  {
    var lines := Split(content, LineSeparator);
    RunningLoaderKeepLines(format, now, content);
    if RunningLoaderKeep(format, now, Some(content)).value.lines != lines {
      StopAfterStopHarmless(parse, format, now, lines);
    }
  }
}
