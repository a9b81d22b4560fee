/** The line-based `SumFile` of traq.go and src/traq.go (the two copies
    are the same code). It decodes each line itself: blank lines are
    skipped; the first field must parse as a timestamp, otherwise the scan
    stops and returns the totals so far with an error; a line that parses
    but has no second field makes Go index out of range and panic. An
    empty tag resets the open tag without charging it; `stop` and a change
    of tag charge the open tag with the time since the previous line. A
    tag still open at the end is never charged, and only the key `""` is
    dropped, on success only. */
module LineSum {
  import opened Wrappers
  import opened Text
  import opened Calendar
  import opened Codec
  import opened Totals

  const Stop: string := "stop"

  /** The loop state: still scanning, stopped by an unparsable timestamp
      with the totals so far, or crashed by the out-of-range index. */
  datatype Scan =
    | Scanning(totals: Totals, current: string, since: Timestamp)
    | Aborted(partial: Totals)
    | Crashed

  /** What `SumFile` returns: totals, totals with an error, or a panic. */
  datatype Outcome =
    | Summed(totals: Totals)
    | Unparsable(partial: Totals)
    | IndexPanic

  /** A line as the tests and `Entry` write it: `ts;tag;comment`. */
  function Line(ts: string, tag: string, comment: string): string
  {
    ts + [FieldSeparator] + tag + [FieldSeparator] + comment
  }

  /** Whether a tag line charges the open tag: a non-empty tag that is a
      stop or differs from the open tag. */
  predicate Charges(s: Scan, tag: string)
    requires s.Scanning?
  {
    tag != "" && (tag == Stop || s.current != tag)
  }

  /** The tag handling of one parsed line at time `t`. */
  function Apply(s: Scan, tag: string, t: Timestamp): (r: Scan)
    requires s.Scanning?
    ensures r.Scanning? && r.since == t
    ensures r.current == (if tag == Stop then "" else tag)
    ensures r.totals.Keys == s.totals.Keys + (if tag == "" then {""} else if Charges(s, tag) then {s.current} else {})
    ensures forall k :: Get(r.totals, k) ==
              if tag == "" && k == "" then 0
              else Get(s.totals, k) + (if Charges(s, tag) && k == s.current then t.unix - s.since.unix else 0)
  {
    if tag == "" then Scanning(s.totals["" := 0], "", t)
    else if tag == Stop then Scanning(Charge(s.totals, s.current, t.unix - s.since.unix), "", t)
    else if s.current != tag then Scanning(Charge(s.totals, s.current, t.unix - s.since.unix), tag, t)
    else Scanning(s.totals, s.current, t)
  }

  /** The state keeps these: the open tag is never `"stop"`, no `"stop"`
      key is ever created, and the key `""` exists once anything could
      have been charged to it. */
  predicate Good(s: Scan)
  {
    match s
    case Scanning(totals, current, _) => current != Stop && Stop !in totals && ("" in totals || current == "")
    case Aborted(partial) => Stop !in partial
    case Crashed => true
  }

  /** One iteration of the loop over the lines. A scan that stopped
      stays stopped. */
  function StepLine(parse: Parser, s: Scan, line: string): (r: Scan)
    ensures !s.Scanning? ==> r == s
    ensures s.Scanning? && line == "" ==> r == s
    ensures s.Scanning? && line != "" && parse(Split(line, FieldSeparator)[0]).None? ==> r == Aborted(s.totals)
    ensures r.Crashed? <==>
              s.Crashed? || (s.Scanning? && line != "" && parse(Split(line, FieldSeparator)[0]).Some? && |Split(line, FieldSeparator)| < 2)
    ensures r.Aborted? && s.Scanning? ==> r.partial == s.totals
    ensures Good(s) ==> Good(r)
  {
    if !s.Scanning? || line == "" then s
    else
      var parts := Split(line, FieldSeparator);
      match parse(parts[0])
      case None => Aborted(s.totals)
      case Some(t) => if |parts| < 2 then Crashed else Apply(s, parts[1], t)
  }

  /** The loop over the lines from state `s`. */
  function ScanFrom(parse: Parser, s: Scan, lines: seq<string>): (r: Scan)
    ensures Good(s) ==> Good(r)
    decreases |lines|
  {
    if |lines| == 0 then s
    else StepLine(parse, ScanFrom(parse, s, lines[..|lines| - 1]), lines[|lines| - 1])
  }

  /** Before the first line: no totals, no open tag, time `origin`. */
  function Init(origin: Timestamp): Scan
  {
    Scanning(map[], "", origin)
  }

  /** `SumFile` with the initial time `origin`; Go uses its zero time. */
  function SumLinesFrom(parse: Parser, origin: Timestamp, lines: seq<string>): (r: Outcome)
    ensures r.Summed? ==> "" !in r.totals && Stop !in r.totals
    ensures r.Unparsable? ==> Stop !in r.partial
  {
    match ScanFrom(parse, Init(origin), lines)
    case Scanning(totals, _, _) => Summed(totals - {""})
    case Aborted(partial) => Unparsable(partial)
    case Crashed => IndexPanic
  }

  /** traq.go / src/traq.go `SumFile`. */
  function SumLines(parse: Parser, lines: seq<string>): Outcome
  {
    SumLinesFrom(parse, ZeroTime, lines)
  }

  // ---- unrolling the loop ----

  lemma {:induction false} ScanSplit(parse: Parser, s: Scan, a: seq<string>, b: seq<string>)
    ensures ScanFrom(parse, s, a + b) == ScanFrom(parse, ScanFrom(parse, s, a), b)
    decreases |b|
  {
    if |b| == 0 {
      assert a + b == a;
    } else {
      assert (a + b)[..|a + b| - 1] == a + b[..|b| - 1];
      ScanSplit(parse, s, a, b[..|b| - 1]);
    }
  }

  lemma ScanOne(parse: Parser, s: Scan, line: string)
    ensures ScanFrom(parse, s, [line]) == StepLine(parse, s, line)
  {
    assert [line][..0] == [];
  }

  /** A well-formed line is split into its fields and handled by `Apply`. */
  lemma StepRecord(parse: Parser, s: Scan, ts: string, tag: string, comment: string, t: Timestamp)
    requires s.Scanning? && parse(ts) == Some(t)
    requires FieldSeparator !in ts && FieldSeparator !in tag && FieldSeparator !in comment
    ensures StepLine(parse, s, Line(ts, tag, comment)) == Apply(s, tag, t)
  {
    SplitThree(ts, tag, comment, FieldSeparator);
  }

  lemma ScanRecords2(parse: Parser, s: Scan, l0: string, l1: string)
    ensures ScanFrom(parse, s, [l0, l1]) == StepLine(parse, StepLine(parse, s, l0), l1)
  {
    assert [l0, l1][..1] == [l0];
    ScanOne(parse, s, l0);
  }

  /** One more well-formed record after the lines read so far. */
  lemma ScanRecord(parse: Parser, lines: seq<string>, s: Scan, ts: string, tag: string, t: Timestamp) returns (r: Scan)
    requires ScanFrom(parse, Init(ZeroTime), lines) == s && s.Scanning?
    requires parse(ts) == Some(t) && FieldSeparator !in ts && FieldSeparator !in tag
    ensures r == Apply(s, tag, t)
    ensures ScanFrom(parse, Init(ZeroTime), lines + [Line(ts, tag, "")]) == r
  {
    assert (lines + [Line(ts, tag, "")])[..|lines|] == lines;
    StepRecord(parse, s, ts, tag, "", t);
    r := Apply(s, tag, t);
  }

  /** A scan that ends in state `s` reports its totals without `""`. */
  lemma Reported(parse: Parser, lines: seq<string>, s: Scan)
    requires ScanFrom(parse, Init(ZeroTime), lines) == s && s.Scanning?
    ensures SumLines(parse, lines) == Summed(s.totals - {""})
  {
  }

  /** A trailing blank line, as newline-terminated content yields, is
      skipped. */
  lemma TrailingBlankSkipped(parse: Parser, lines: seq<string>)
    ensures SumLines(parse, lines + [""]) == SumLines(parse, lines)
  {
    BlankLineSkipped(parse, ZeroTime, lines, []);
    assert lines + [""] + [] == lines + [""] && lines + [] == lines;
  }

  // ---- properties ----

  /** A blank line anywhere is skipped. */
  lemma BlankLineSkipped(parse: Parser, origin: Timestamp, before: seq<string>, after: seq<string>)
    ensures SumLinesFrom(parse, origin, before + [""] + after) == SumLinesFrom(parse, origin, before + after)
  {
    ScanSplit(parse, Init(origin), before + [""], after);
    ScanSplit(parse, Init(origin), before, [""]);
    ScanOne(parse, ScanFrom(parse, Init(origin), before), "");
    ScanSplit(parse, Init(origin), before, after);
  }

  /** The content of an empty file, `[""]`, sums to no tags and no error. */
  lemma EmptyFileSumsToNothing(parse: Parser)
    ensures SumLines(parse, [""]) == Summed(map[])
  {
    ScanOne(parse, Init(ZeroTime), "");
  }

  /** A tag followed by a stop is charged exactly the time between. */
  lemma WorkThenStop(parse: Parser, ts0: string, ts1: string, w: string, t0: Timestamp, t1: Timestamp)
    requires parse(ts0) == Some(t0) && parse(ts1) == Some(t1)
    requires FieldSeparator !in ts0 && FieldSeparator !in ts1 && FieldSeparator !in w
    requires w != "" && w != Stop
    ensures SumLines(parse, [Line(ts0, w, ""), Line(ts1, Stop, "")]) == Summed(map[w := t1.unix - t0.unix])
  {
    var s2 := WorkThenStopScan(parse, ts0, ts1, w, t0, t1);
    MapsAgree(s2.totals - {""}, map[w := t1.unix - t0.unix]);
    Reported(parse, [Line(ts0, w, ""), Line(ts1, Stop, "")], s2);
  }

  /** The scan after `p` at `t0` and `w` at `t1`. */
  lemma SwitchPrefix(parse: Parser, ts0: string, ts1: string, p: string, w: string, t0: Timestamp, t1: Timestamp)
    returns (s2: Scan)
    requires parse(ts0) == Some(t0) && parse(ts1) == Some(t1)
    requires FieldSeparator !in ts0 && FieldSeparator !in ts1 && FieldSeparator !in p && FieldSeparator !in w
    requires p != "" && p != Stop && w != "" && w != Stop && p != w
    ensures ScanFrom(parse, Init(ZeroTime), [Line(ts0, p, ""), Line(ts1, w, "")]) == s2
    ensures s2.Scanning? && s2.current == w && s2.since == t1 && s2.totals.Keys == {"", p}
    ensures Get(s2.totals, p) == t1.unix - t0.unix
  {
    var l0, l1 := Line(ts0, p, ""), Line(ts1, w, "");
    assert [] + [l0] == [l0];
    var s1 := ScanRecord(parse, [], Init(ZeroTime), ts0, p, t0);
    s2 := ScanRecord(parse, [l0], s1, ts1, w, t1);
    assert [l0] + [l1] == [l0, l1];
  }

  /** The scan after `p` at `t0`, then `stop` and `w` both at `t1`. */
  lemma StopSwitchPrefix(parse: Parser, ts0: string, ts1: string, p: string, w: string, t0: Timestamp, t1: Timestamp)
    returns (s3: Scan)
    requires parse(ts0) == Some(t0) && parse(ts1) == Some(t1)
    requires FieldSeparator !in ts0 && FieldSeparator !in ts1 && FieldSeparator !in p && FieldSeparator !in w
    requires p != "" && p != Stop && w != "" && w != Stop && p != w
    ensures ScanFrom(parse, Init(ZeroTime), [Line(ts0, p, ""), Line(ts1, Stop, ""), Line(ts1, w, "")]) == s3
    ensures s3.Scanning? && s3.current == w && s3.since == t1 && s3.totals.Keys == {"", p}
    ensures Get(s3.totals, p) == t1.unix - t0.unix
  {
    var l0, l1, l2 := Line(ts0, p, ""), Line(ts1, Stop, ""), Line(ts1, w, "");
    var s2 := WorkThenStopScan(parse, ts0, ts1, p, t0, t1);
    s3 := ScanRecord(parse, [l0, l1], s2, ts1, w, t1);
    assert [l0, l1] + [l2] == [l0, l1, l2];
  }

  /** The scan after `w` at `t0` and a stop at `t1`. */
  lemma WorkThenStopScan(parse: Parser, ts0: string, ts1: string, w: string, t0: Timestamp, t1: Timestamp)
    returns (s2: Scan)
    requires parse(ts0) == Some(t0) && parse(ts1) == Some(t1)
    requires FieldSeparator !in ts0 && FieldSeparator !in ts1 && FieldSeparator !in w
    requires w != "" && w != Stop
    ensures ScanFrom(parse, Init(ZeroTime), [Line(ts0, w, ""), Line(ts1, Stop, "")]) == s2
    ensures s2.Scanning? && s2.current == "" && s2.since == t1 && s2.totals.Keys == {"", w}
    ensures Get(s2.totals, w) == t1.unix - t0.unix
  {
    var l0, l1 := Line(ts0, w, ""), Line(ts1, Stop, "");
    assert [] + [l0] == [l0];
    var s1 := ScanRecord(parse, [], Init(ZeroTime), ts0, w, t0);
    s2 := ScanRecord(parse, [l0], s1, ts1, Stop, t1);
    assert [l0] + [l1] == [l0, l1];
  }

  /** Two tags charged: the reported totals. */
  lemma ReportedTwo(parse: Parser, lines: seq<string>, s: Scan, p: string, vp: int, w: string, vw: int)
    requires ScanFrom(parse, Init(ZeroTime), lines) == s
    requires s.Scanning? && s.totals.Keys == {"", p, w} && p != "" && w != "" && p != w
    requires Get(s.totals, p) == vp && Get(s.totals, w) == vw
    ensures SumLines(parse, lines) == Summed(map[p := vp, w := vw])
  {
    MapsAgree(s.totals - {""}, map[p := vp, w := vw]);
    Reported(parse, lines, s);
  }

  /** A closing stop while `w` is open, after `p` was charged: the
      reported totals are `p`'s and `w`'s time up to the stop. */
  lemma FinalStop(parse: Parser, lines: seq<string>, s: Scan, ts: string, t: Timestamp, p: string, vp: int, w: string,
                   vw: int, all: seq<string>)
    requires ScanFrom(parse, Init(ZeroTime), lines) == s
    requires s.Scanning? && s.current == w && s.totals.Keys == {"", p}
    requires parse(ts) == Some(t) && FieldSeparator !in ts
    requires p != "" && w != "" && w != Stop && p != w
    requires Get(s.totals, p) == vp && vw == t.unix - s.since.unix && all == lines + [Line(ts, Stop, "")]
    ensures SumLines(parse, all) == Summed(map[p := vp, w := vw])
  {
    var r := ScanRecord(parse, lines, s, ts, Stop, t);
    ReportedTwo(parse, all, r, p, vp, w, vw);
  }

  /** `SwitchThenStop` over the lines as a prefix and one more line. */
  lemma SwitchThenStopOn(parse: Parser, ts0: string, ts1: string, ts2: string, p: string, w: string,
                         t0: Timestamp, t1: Timestamp, t2: Timestamp, pre: seq<string>, all: seq<string>)
    requires parse(ts0) == Some(t0) && parse(ts1) == Some(t1) && parse(ts2) == Some(t2)
    requires FieldSeparator !in ts0 && FieldSeparator !in ts1 && FieldSeparator !in ts2
    requires FieldSeparator !in p && FieldSeparator !in w
    requires p != "" && p != Stop && w != "" && w != Stop && p != w
    requires pre == [Line(ts0, p, ""), Line(ts1, w, "")] && all == pre + [Line(ts2, Stop, "")]
    ensures SumLines(parse, all) == Summed(map[p := t1.unix - t0.unix, w := t2.unix - t1.unix])
  {
    var s2 := SwitchPrefix(parse, ts0, ts1, p, w, t0, t1);
    FinalStop(parse, pre, s2, ts2, t2, p, t1.unix - t0.unix, w, t2.unix - t1.unix, all);
  }

  /** Switching tags charges the first tag up to the switch. */
  lemma SwitchThenStop(parse: Parser, ts0: string, ts1: string, ts2: string, p: string, w: string,
                       t0: Timestamp, t1: Timestamp, t2: Timestamp)
    requires parse(ts0) == Some(t0) && parse(ts1) == Some(t1) && parse(ts2) == Some(t2)
    requires FieldSeparator !in ts0 && FieldSeparator !in ts1 && FieldSeparator !in ts2
    requires FieldSeparator !in p && FieldSeparator !in w
    requires p != "" && p != Stop && w != "" && w != Stop && p != w
    ensures SumLines(parse, [Line(ts0, p, ""), Line(ts1, w, ""), Line(ts2, Stop, "")])
            == Summed(map[p := t1.unix - t0.unix, w := t2.unix - t1.unix])
  {
    var l0, l1, l2 := Line(ts0, p, ""), Line(ts1, w, ""), Line(ts2, Stop, "");
    assert [l0, l1] + [l2] == [l0, l1, l2];
    SwitchThenStopOn(parse, ts0, ts1, ts2, p, w, t0, t1, t2, [l0, l1], [l0, l1, l2]);
  }

  /** `StopBeforeSwitchChangesNothing` over the lines as a prefix and one
      more line. */
  lemma StopBeforeSwitchOn(parse: Parser, ts0: string, ts1: string, ts2: string, p: string, w: string,
                           t0: Timestamp, t1: Timestamp, t2: Timestamp, pre: seq<string>, all: seq<string>)
    requires parse(ts0) == Some(t0) && parse(ts1) == Some(t1) && parse(ts2) == Some(t2)
    requires FieldSeparator !in ts0 && FieldSeparator !in ts1 && FieldSeparator !in ts2
    requires FieldSeparator !in p && FieldSeparator !in w
    requires p != "" && p != Stop && w != "" && w != Stop && p != w
    requires pre == [Line(ts0, p, ""), Line(ts1, Stop, ""), Line(ts1, w, "")] && all == pre + [Line(ts2, Stop, "")]
    ensures SumLines(parse, all) == Summed(map[p := t1.unix - t0.unix, w := t2.unix - t1.unix])
  {
    var s3 := StopSwitchPrefix(parse, ts0, ts1, p, w, t0, t1);
    FinalStop(parse, pre, s3, ts2, t2, p, t1.unix - t0.unix, w, t2.unix - t1.unix, all);
  }

  /** A stop between the two tags at the moment of the switch gives the
      same totals as the switch alone. */
  lemma StopBeforeSwitchChangesNothing(parse: Parser, ts0: string, ts1: string, ts2: string, p: string, w: string,
                                       t0: Timestamp, t1: Timestamp, t2: Timestamp)
    requires parse(ts0) == Some(t0) && parse(ts1) == Some(t1) && parse(ts2) == Some(t2)
    requires FieldSeparator !in ts0 && FieldSeparator !in ts1 && FieldSeparator !in ts2
    requires FieldSeparator !in p && FieldSeparator !in w
    requires p != "" && p != Stop && w != "" && w != Stop && p != w
    ensures SumLines(parse, [Line(ts0, p, ""), Line(ts1, Stop, ""), Line(ts1, w, ""), Line(ts2, Stop, "")])
            == Summed(map[p := t1.unix - t0.unix, w := t2.unix - t1.unix])
  {
    var l0, l1, l2, l3 := Line(ts0, p, ""), Line(ts1, Stop, ""), Line(ts1, w, ""), Line(ts2, Stop, "");
    assert [l0, l1, l2] + [l3] == [l0, l1, l2, l3];
    StopBeforeSwitchOn(parse, ts0, ts1, ts2, p, w, t0, t1, t2, [l0, l1, l2], [l0, l1, l2, l3]);
  }

  /** The tests' log of Monday 28 October 2013 in zone +01:00, as given
      and as read from newline-terminated content: `#play` at 20:00:00, `#work` at
      21:45:33, `stop` at 23:24:49. */
  lemma PlayWorkExample(parse: Parser, ts0: string, ts1: string, ts2: string)
    requires FieldSeparator !in ts0 && FieldSeparator !in ts1 && FieldSeparator !in ts2
    requires parse(ts0) == Some(DateAt(Civil(2013, 10, 28), 20, 0, 0, 3600))
    requires parse(ts1) == Some(DateAt(Civil(2013, 10, 28), 21, 45, 33, 3600))
    requires parse(ts2) == Some(DateAt(Civil(2013, 10, 28), 23, 24, 49, 3600))
    ensures SumLines(parse, [Line(ts0, "#play", ""), Line(ts1, "#work", ""), Line(ts2, Stop, "")])
            == Summed(map["#play" := 6333, "#work" := 5956])
    ensures SumLines(parse, [Line(ts0, "#play", ""), Line(ts1, "#work", ""), Line(ts2, Stop, ""), ""])
            == Summed(map["#play" := 6333, "#work" := 5956])
  {
    var day := Civil(2013, 10, 28);
    var lines := [Line(ts0, "#play", ""), Line(ts1, "#work", ""), Line(ts2, Stop, "")];
    SwitchThenStop(parse, ts0, ts1, ts2, "#play", "#work",
                   DateAt(day, 20, 0, 0, 3600), DateAt(day, 21, 45, 33, 3600), DateAt(day, 23, 24, 49, 3600));
    TrailingBlankSkipped(parse, lines);
    assert lines + [""] == [Line(ts0, "#play", ""), Line(ts1, "#work", ""), Line(ts2, Stop, ""), ""];
  }

  /** The same log with a stop at the switch. */
  lemma PlayStopWorkExample(parse: Parser, ts0: string, ts1: string, ts2: string)
    requires FieldSeparator !in ts0 && FieldSeparator !in ts1 && FieldSeparator !in ts2
    requires parse(ts0) == Some(DateAt(Civil(2013, 10, 28), 20, 0, 0, 3600))
    requires parse(ts1) == Some(DateAt(Civil(2013, 10, 28), 21, 45, 33, 3600))
    requires parse(ts2) == Some(DateAt(Civil(2013, 10, 28), 23, 24, 49, 3600))
    ensures SumLines(parse, [Line(ts0, "#play", ""), Line(ts1, Stop, ""), Line(ts1, "#work", ""), Line(ts2, Stop, "")])
            == Summed(map["#play" := 6333, "#work" := 5956])
    ensures SumLines(parse, [Line(ts0, "#play", ""), Line(ts1, Stop, ""), Line(ts1, "#work", ""), Line(ts2, Stop, ""), ""])
            == Summed(map["#play" := 6333, "#work" := 5956])
  {
    var day := Civil(2013, 10, 28);
    var lines := [Line(ts0, "#play", ""), Line(ts1, Stop, ""), Line(ts1, "#work", ""), Line(ts2, Stop, "")];
    StopBeforeSwitchChangesNothing(parse, ts0, ts1, ts2, "#play", "#work",
                                   DateAt(day, 20, 0, 0, 3600), DateAt(day, 21, 45, 33, 3600), DateAt(day, 23, 24, 49, 3600));
    TrailingBlankSkipped(parse, lines);
    assert lines + [""] == [Line(ts0, "#play", ""), Line(ts1, Stop, ""), Line(ts1, "#work", ""), Line(ts2, Stop, ""), ""];
  }

  /** Just `#work` at 21:45:33 and the stop: 5956 seconds. */
  lemma WorkExample(parse: Parser, ts1: string, ts2: string)
    requires FieldSeparator !in ts1 && FieldSeparator !in ts2
    requires parse(ts1) == Some(DateAt(Civil(2013, 10, 28), 21, 45, 33, 3600))
    requires parse(ts2) == Some(DateAt(Civil(2013, 10, 28), 23, 24, 49, 3600))
    ensures SumLines(parse, [Line(ts1, "#work", ""), Line(ts2, Stop, "")]) == Summed(map["#work" := 5956])
    ensures SumLines(parse, [Line(ts1, "#work", ""), Line(ts2, Stop, ""), ""]) == Summed(map["#work" := 5956])
  {
    var day := Civil(2013, 10, 28);
    WorkThenStop(parse, ts1, ts2, "#work", DateAt(day, 21, 45, 33, 3600), DateAt(day, 23, 24, 49, 3600));
    TrailingBlankSkipped(parse, [Line(ts1, "#work", ""), Line(ts2, Stop, "")]);
    assert [Line(ts1, "#work", ""), Line(ts2, Stop, "")] + [""] == [Line(ts1, "#work", ""), Line(ts2, Stop, ""), ""];
  }

  /** An empty tag interrupts the open tag without charging it: after
      `p`, an empty tag and a stop, `p` has no key at all. */
  lemma EmptyTagDiscardsOpenTag(parse: Parser, ts0: string, ts1: string, ts2: string, p: string,
                                t0: Timestamp, t1: Timestamp, t2: Timestamp)
    requires parse(ts0) == Some(t0) && parse(ts1) == Some(t1) && parse(ts2) == Some(t2)
    requires FieldSeparator !in ts0 && FieldSeparator !in ts1 && FieldSeparator !in ts2 && FieldSeparator !in p
    requires p != "" && p != Stop
    ensures SumLines(parse, [Line(ts0, p, ""), Line(ts1, "", ""), Line(ts2, Stop, "")]) == Summed(map[])
  {
    var l0, l1, l2 := Line(ts0, p, ""), Line(ts1, "", ""), Line(ts2, Stop, "");
    assert [] + [l0] == [l0];
    var s1 := ScanRecord(parse, [], Init(ZeroTime), ts0, p, t0);
    var s2 := ScanRecord(parse, [l0], s1, ts1, "", t1);
    assert [l0] + [l1] == [l0, l1];
    var s3 := ScanRecord(parse, [l0, l1], s2, ts2, Stop, t2);
    assert [l0, l1] + [l2] == [l0, l1, l2];
    assert s3.totals.Keys == {""};
    assert s3.totals - {""} == map[];
    Reported(parse, [l0, l1, l2], s3);
  }

  /** A log of one open tag charges nothing: the tag gets no key. */
  lemma OpenTagNeverCharged(parse: Parser, ts: string, p: string, t: Timestamp)
    requires parse(ts) == Some(t) && FieldSeparator !in ts && FieldSeparator !in p
    ensures SumLines(parse, [Line(ts, p, "")]) == Summed(map[])
  {
    ScanOne(parse, Init(ZeroTime), Line(ts, p, ""));
    StepRecord(parse, Init(ZeroTime), ts, p, "", t);
    var s1 := Apply(Init(ZeroTime), p, t);
    assert s1.totals.Keys <= {""};
    assert s1.totals - {""} == map[];
  }

  /** A tag opened on the last line, and never charged before, has no
      key in the result. */
  lemma TrailingOpenTagNoKey(parse: Parser, lines: seq<string>, ts: string, p: string, t: Timestamp)
    requires ScanFrom(parse, Init(ZeroTime), lines).Scanning?
    requires p !in ScanFrom(parse, Init(ZeroTime), lines).totals
    requires parse(ts) == Some(t) && FieldSeparator !in ts && FieldSeparator !in p
    requires p != "" && p != Stop
    ensures SumLines(parse, lines + [Line(ts, p, "")]).Summed?
    ensures p !in SumLines(parse, lines + [Line(ts, p, "")]).totals
  {
    var s := ScanFrom(parse, Init(ZeroTime), lines);
    var r := ScanRecord(parse, lines, s, ts, p, t);
    Reported(parse, lines + [Line(ts, p, "")], r);
  }

  /** The first unparsable non-blank line ends the scan with the totals
      gathered so far, whatever follows. */
  lemma BadLineAborts(parse: Parser, origin: Timestamp, before: seq<string>, bad: string, after: seq<string>)
    requires ScanFrom(parse, Init(origin), before).Scanning?
    requires bad != "" && parse(Split(bad, FieldSeparator)[0]).None?
    ensures SumLinesFrom(parse, origin, before + [bad] + after)
            == Unparsable(ScanFrom(parse, Init(origin), before).totals)
  {
    ScanSplit(parse, Init(origin), before + [bad], after);
    ScanSplit(parse, Init(origin), before, [bad]);
    ScanOne(parse, ScanFrom(parse, Init(origin), before), bad);
    StoppedStaysStopped(parse, ScanFrom(parse, Init(origin), before + [bad]), after);
  }

  lemma {:induction false} StoppedStaysStopped(parse: Parser, s: Scan, lines: seq<string>)
    requires !s.Scanning?
    ensures ScanFrom(parse, s, lines) == s
    decreases |lines|
  {
    if |lines| > 0 {
      StoppedStaysStopped(parse, s, lines[..|lines| - 1]);
    }
  }

  /** Handling the same line twice in a row is handling it once. */
  lemma StepTwice(parse: Parser, s: Scan, line: string)
    requires Good(s)
    ensures StepLine(parse, StepLine(parse, s, line), line) == StepLine(parse, s, line)
  {
    var r := StepLine(parse, s, line);
    if s.Scanning? && line != "" {
      var parts := Split(line, FieldSeparator);
      if parse(parts[0]).Some? && |parts| >= 2 {
        var t := parse(parts[0]).value;
        var tag := parts[1];
        if tag == "" {
          assert r.totals["" := 0] == r.totals;
        } else if tag == Stop {
          assert "" in r.totals;
          assert Charge(r.totals, "", 0) == r.totals;
        }
      }
    }
  }

  /** Duplicating any line leaves the result unchanged. */
  lemma DuplicateLineChangesNothing(parse: Parser, origin: Timestamp, before: seq<string>, line: string, after: seq<string>)
    ensures SumLinesFrom(parse, origin, before + [line, line] + after) == SumLinesFrom(parse, origin, before + [line] + after)
  {
    var s := ScanFrom(parse, Init(origin), before);
    ScanSplit(parse, Init(origin), before + [line, line], after);
    ScanSplit(parse, Init(origin), before + [line], after);
    ScanSplit(parse, Init(origin), before, [line, line]);
    ScanSplit(parse, Init(origin), before, [line]);
    ScanRecords2(parse, s, line, line);
    ScanOne(parse, s, line);
    StepTwice(parse, s, line);
  }

  // ---- the initial time is not observable on success ----

  /** Two scans that differ only in the key `""`, and in the time of the
      previous line while no tag is open. */
  ghost predicate Agree(s1: Scan, s2: Scan)
  {
    match s1
    case Scanning(m1, c1, t1) =>
      s2.Scanning? && c1 == s2.current && (c1 == "" || t1 == s2.since) && MapsAgreeOff(m1, s2.totals)
    case Aborted(m1) => s2.Aborted? && MapsAgreeOff(m1, s2.partial)
    case Crashed => s2.Crashed?
  }

  /** Same keys, and the same values except perhaps at `""`. */
  ghost predicate MapsAgreeOff(m1: Totals, m2: Totals)
  {
    m1.Keys == m2.Keys && forall k :: k != "" ==> Get(m1, k) == Get(m2, k)
  }

  lemma StepAgree(parse: Parser, s1: Scan, s2: Scan, line: string)
    requires Agree(s1, s2)
    ensures Agree(StepLine(parse, s1, line), StepLine(parse, s2, line))
  {
  }

  lemma {:induction false} ScanAgree(parse: Parser, s1: Scan, s2: Scan, lines: seq<string>)
    requires Agree(s1, s2)
    ensures Agree(ScanFrom(parse, s1, lines), ScanFrom(parse, s2, lines))
    decreases |lines|
  {
    if |lines| > 0 {
      ScanAgree(parse, s1, s2, lines[..|lines| - 1]);
      StepAgree(parse, ScanFrom(parse, s1, lines[..|lines| - 1]), ScanFrom(parse, s2, lines[..|lines| - 1]), lines[|lines| - 1]);
    }
  }

  /** On the success path the result does not depend on the initial
      time: the first charge goes to `""`, which is dropped. */
  lemma OriginIrrelevant(parse: Parser, o1: Timestamp, o2: Timestamp, lines: seq<string>)
    ensures SumLinesFrom(parse, o1, lines).Summed? <==> SumLinesFrom(parse, o2, lines).Summed?
    ensures SumLinesFrom(parse, o1, lines).IndexPanic? <==> SumLinesFrom(parse, o2, lines).IndexPanic?
    ensures SumLinesFrom(parse, o1, lines).Summed? ==> SumLinesFrom(parse, o1, lines) == SumLinesFrom(parse, o2, lines)
  {
    ScanAgree(parse, Init(o1), Init(o2), lines);
    var s1 := ScanFrom(parse, Init(o1), lines);
    var s2 := ScanFrom(parse, Init(o2), lines);
    if s1.Scanning? {
      forall k
        ensures Get(s1.totals - {""}, k) == Get(s2.totals - {""}, k)
      {
        if k != "" {
          assert Get(s1.totals, k) == Get(s2.totals, k);
        }
      }
      MapsAgree(s1.totals - {""}, s2.totals - {""});
    }
  }
}
