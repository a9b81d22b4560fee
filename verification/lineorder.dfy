/** The line-based `SumFile` on a log whose timestamps never go backwards:
    every reported total is non-negative and together they never exceed
    the time between the first and the last record. */
module LineOrder {
  import opened Wrappers
  import opened Text
  import opened Calendar
  import opened Codec
  import opened Totals
  import opened LineSum

  /** The time of a non-blank line whose first field parses. */
  function RecordTime(parse: Parser, line: string): Option<Timestamp>
  {
    if line == "" then None else parse(Split(line, FieldSeparator)[0])
  }

  /** Some line of the log carries a timestamp. */
  predicate HasRecord(parse: Parser, lines: seq<string>)
    decreases |lines|
  {
    |lines| > 0 && (HasRecord(parse, lines[..|lines| - 1]) || RecordTime(parse, lines[|lines| - 1]).Some?)
  }

  /** The time of the last record, or `origin` when there is none. */
  function LastTime(parse: Parser, origin: Timestamp, lines: seq<string>): Timestamp
    decreases |lines|
  {
    if |lines| == 0 then origin
    else match RecordTime(parse, lines[|lines| - 1])
      case Some(t) => t
      case None => LastTime(parse, origin, lines[..|lines| - 1])
  }

  /** Once there is a record, the last time does not depend on `origin`. */
  lemma {:induction false} LastTimeOfRecords(parse: Parser, o1: Timestamp, o2: Timestamp, lines: seq<string>)
    requires HasRecord(parse, lines)
    ensures LastTime(parse, o1, lines) == LastTime(parse, o2, lines)
    decreases |lines|
  {
    if RecordTime(parse, lines[|lines| - 1]).None? {
      LastTimeOfRecords(parse, o1, o2, lines[..|lines| - 1]);
    }
  }

  /** The time of the first record, or `origin` when there is none. */
  function FirstTime(parse: Parser, origin: Timestamp, lines: seq<string>): Timestamp
    decreases |lines|
  {
    if |lines| == 0 then origin
    else if HasRecord(parse, lines[..|lines| - 1]) then FirstTime(parse, origin, lines[..|lines| - 1])
    else RecordTime(parse, lines[|lines| - 1]).GetOr(origin)
  }

  /** Every record is no earlier than the record before it. */
  predicate Chronological(parse: Parser, lines: seq<string>)
    decreases |lines|
  {
    |lines| == 0 ||
    (&& Chronological(parse, lines[..|lines| - 1])
     && (HasRecord(parse, lines[..|lines| - 1]) && RecordTime(parse, lines[|lines| - 1]).Some? ==>
           LastTime(parse, ZeroTime, lines[..|lines| - 1]).unix <= RecordTime(parse, lines[|lines| - 1]).value.unix))
  }

  /** The values off the key `""` are non-negative. */
  predicate NonNegative(m: Totals)
  {
    forall k :: k in m && k != "" ==> m[k] >= 0
  }

  /** What the scan keeps on a chronological log: the time of the previous
      line is the last record's, an open tag implies a record was seen, a
      log without records has no totals, and the totals off `""` are
      non-negative and add up to at most the span of the records. */
  ghost predicate Bounded(parse: Parser, origin: Timestamp, lines: seq<string>, s: Scan)
  {
    s.Scanning? ==>
      && s.since == LastTime(parse, origin, lines)
      && (s.current != "" ==> HasRecord(parse, lines))
      && (!HasRecord(parse, lines) ==> s.totals == map[])
      && NonNegative(s.totals)
      && MapSum(s.totals - {""}) <= LastTime(parse, origin, lines).unix - FirstTime(parse, origin, lines).unix
  }

  /** Charging a key other than `""` raises the sum off `""` by the charge. */
  lemma ChargeOffEmpty(m: Totals, k: string, d: int)
    requires k != ""
    ensures MapSum(Charge(m, k, d) - {""}) == MapSum(m - {""}) + d
  {
    assert Charge(m, k, d) - {""} == Charge(m - {""}, k, d);
    ChargeRaisesSum(m - {""}, k, d);
  }

  /** Touching only the key `""` leaves the sum off `""` alone. */
  lemma EmptyKeyOnly(m: Totals, v: int)
    ensures m["" := v] - {""} == m - {""}
  {
  }

  lemma {:induction false} ScanBounded(parse: Parser, origin: Timestamp, lines: seq<string>)
    requires Chronological(parse, lines)
    ensures Bounded(parse, origin, lines, ScanFrom(parse, Init(origin), lines))
    decreases |lines|
  {
    if |lines| == 0 {
      assert Init(origin).totals - {""} == map[];
    } else {
      var prefix := lines[..|lines| - 1];
      var line := lines[|lines| - 1];
      assert lines == prefix + [line];
      ScanBounded(parse, origin, prefix);
      var s := ScanFrom(parse, Init(origin), prefix);
      if s.Scanning? && line != "" {
        var parts := Split(line, FieldSeparator);
        if parse(parts[0]).Some? && |parts| >= 2 {
          StepBounded(parse, origin, prefix, line, s, parts[1], parse(parts[0]).value);
        }
      }
    }
  }

  /** One parsed record keeps the invariant. */
  lemma StepBounded(parse: Parser, origin: Timestamp, prefix: seq<string>, line: string, s: Scan, tag: string, t: Timestamp)
    requires Chronological(parse, prefix + [line])
    requires s.Scanning? && Bounded(parse, origin, prefix, s)
    requires RecordTime(parse, line) == Some(t)
    ensures Bounded(parse, origin, prefix + [line], Apply(s, tag, t))
  {
    RecordFacts(parse, origin, prefix, line, t);
    if HasRecord(parse, prefix) {
      ApplyKeepsBound(s, tag, t, FirstTime(parse, origin, prefix).unix);
    } else {
      ApplyFromNothing(s, tag, t);
    }
  }

  /** A record at time `t`, no earlier than the previous one, raises the
      sum off `""` by at most the time since the previous record. */
  lemma ApplyKeepsBound(s: Scan, tag: string, t: Timestamp, first: int)
    requires s.Scanning? && NonNegative(s.totals) && s.since.unix <= t.unix
    requires MapSum(s.totals - {""}) <= s.since.unix - first
    ensures NonNegative(Apply(s, tag, t).totals)
    ensures MapSum(Apply(s, tag, t).totals - {""}) <= t.unix - first
  {
    if tag == "" {
      EmptyKeyOnly(s.totals, 0);
    } else if Charges(s, tag) {
      if s.current == "" {
        EmptyKeyOnly(s.totals, Get(s.totals, "") + t.unix - s.since.unix);
      } else {
        ChargeOffEmpty(s.totals, s.current, t.unix - s.since.unix);
      }
    }
  }

  /** The first record charges nothing off `""`. */
  lemma ApplyFromNothing(s: Scan, tag: string, t: Timestamp)
    requires s.Scanning? && s.totals == map[] && s.current == ""
    ensures Apply(s, tag, t).totals - {""} == map[]
  {
  }

  /** What one more record does to the first and last times of a
      chronological log. */
  lemma RecordFacts(parse: Parser, origin: Timestamp, prefix: seq<string>, line: string, t: Timestamp)
    requires Chronological(parse, prefix + [line])
    requires RecordTime(parse, line) == Some(t)
    ensures var lines := prefix + [line];
            && LastTime(parse, origin, lines) == t
            && HasRecord(parse, lines)
            && (HasRecord(parse, prefix) ==>
                  FirstTime(parse, origin, lines) == FirstTime(parse, origin, prefix)
                  && LastTime(parse, origin, prefix).unix <= t.unix)
            && (!HasRecord(parse, prefix) ==> FirstTime(parse, origin, lines) == t)
  {
    var lines := prefix + [line];
    assert lines[..|lines| - 1] == prefix;
    if HasRecord(parse, prefix) {
      LastTimeOfRecords(parse, origin, ZeroTime, prefix);
    }
  }

  /** On a chronological log a successful `SumFile` reports non-negative
      totals whose sum is at most the time from the first record to the
      last. */
  lemma ChronologicalTotals(parse: Parser, lines: seq<string>)
    requires Chronological(parse, lines)
    ensures var r := SumLines(parse, lines);
            r.Summed? ==>
              && (forall k :: k in r.totals ==> r.totals[k] >= 0)
              && MapSum(r.totals) <= LastTime(parse, ZeroTime, lines).unix - FirstTime(parse, ZeroTime, lines).unix
  {
    ScanBounded(parse, ZeroTime, lines);
    var s := ScanFrom(parse, Init(ZeroTime), lines);
    if s.Scanning? {
      forall k | k in s.totals - {""}
        ensures (s.totals - {""})[k] >= 0
      {
        assert k in s.totals && k != "";
      }
    }
  }
}
