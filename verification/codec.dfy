/** One line of a traq file, `<timestamp>;<tag>;<comment>`, and the
    `TimeEntry` it decodes to (loader.go `ReadEntry`, traq.go `Entry`).
    Go's `time.Parse` and `Time.Format` with the layout
    `Mon Jan 2 15:04:05 -0700 2006` are not modelled: they are passed in
    as the functions `parse` and `format`. */
module Codec {
  import opened Wrappers
  import opened Text
  import opened Calendar

  /** One tracked event: when, which tag (`""` for none, `"stop"` to
      close the open tag), and a free-text comment. */
  datatype TimeEntry = TimeEntry(date: Timestamp, tag: string, comment: string)

  /** Go's `TimeEntry{}`: zero time, empty tag and comment. */
  const ZeroEntry: TimeEntry := TimeEntry(ZeroTime, "", "")

  /** `time.Parse(layout, s)`: the instant, or `None` on a parse error. */
  type Parser = string -> Option<Timestamp>

  /** `t.Format(layout)`. */
  type Formatter = Timestamp -> string

  const FieldSeparator: char := ';'
  const LineSeparator: char := '\n'

  /** loader.go `ReadEntry`: a line with exactly three `;`-separated
      fields whose first field parses decodes to those fields; anything
      else decodes to the zero entry. */
  function ReadEntry(parse: Parser, line: string): (e: TimeEntry)
    ensures |Split(line, FieldSeparator)| != 3 ==> e == ZeroEntry
    ensures parse(Split(line, FieldSeparator)[0]).None? ==> e == ZeroEntry
    ensures |Split(line, FieldSeparator)| == 3 && parse(Split(line, FieldSeparator)[0]).Some? ==>
              FieldSeparator !in e.tag && FieldSeparator !in e.comment &&
              exists ts :: parse(ts) == Some(e.date) && line == ts + [FieldSeparator] + e.tag + [FieldSeparator] + e.comment
  {
    var parts := Split(line, FieldSeparator);
    if |parts| != 3 then ZeroEntry
    else
      match parse(parts[0])
      case None => ZeroEntry
      case Some(t) =>
        assert line == parts[0] + [FieldSeparator] + parts[1] + [FieldSeparator] + parts[2] by {
          assert parts[1..][1..] == [parts[2]];
          assert Join(parts[1..], FieldSeparator) == parts[1] + [FieldSeparator] + parts[2];
          assert line == parts[0] + [FieldSeparator] + (parts[1] + [FieldSeparator] + parts[2]);
        }
        TimeEntry(t, parts[1], parts[2])
  }

  /** Writing the three fields and reading them back gives them back. */
  lemma ReadEntryRoundTrip(parse: Parser, ts: string, tag: string, comment: string, t: Timestamp)
    requires parse(ts) == Some(t)
    requires FieldSeparator !in ts && FieldSeparator !in tag && FieldSeparator !in comment
    ensures ReadEntry(parse, ts + [FieldSeparator] + tag + [FieldSeparator] + comment) == TimeEntry(t, tag, comment)
  {
    SplitThree(ts, tag, comment, FieldSeparator);
  }

  /** A string holding the separator splits into at least two pieces. */
  lemma SeparatorSplits(s: string, sep: char)
    requires sep in s
    ensures |Split(s, sep)| >= 2
  {
  }

  /** A `;` inside the comment makes four or more fields, so the whole
      line decodes to the zero entry. */
  lemma SemicolonInCommentLosesEntry(parse: Parser, ts: string, tag: string, comment: string)
    requires FieldSeparator !in ts && FieldSeparator !in tag && FieldSeparator in comment
    ensures ReadEntry(parse, ts + [FieldSeparator] + tag + [FieldSeparator] + comment) == ZeroEntry
  {
    var line := ts + [FieldSeparator] + tag + [FieldSeparator] + comment;
    assert line == ts + [FieldSeparator] + (tag + [FieldSeparator] + comment);
    SplitAfterPiece(ts, FieldSeparator, tag + [FieldSeparator] + comment);
    SplitAfterPiece(tag, FieldSeparator, comment);
    SeparatorSplits(comment, FieldSeparator);
  }

  /** traq.go `Entry(date, command)`: the line written to a traq file,
      with an always-empty comment and a trailing newline. */
  function Entry(format: Formatter, date: Timestamp, command: string): (line: string)
    ensures |line| >= 3 && line[|line| - 1] == LineSeparator
    ensures line[..|line| - 1] == format(date) + [FieldSeparator] + command + [FieldSeparator]
  {
    format(date) + [FieldSeparator] + command + [FieldSeparator] + "" + [LineSeparator]
  }

  /** A well-formed timestamp and command: what `Entry` needs so that its
      line can be read back. */
  predicate Encodable(parse: Parser, format: Formatter, date: Timestamp, command: string)
  {
    && parse(format(date)) == Some(date)
    && FieldSeparator !in format(date) && LineSeparator !in format(date)
    && FieldSeparator !in command && LineSeparator !in command
  }

  /** An `Entry` line splits on newlines into its record and an empty tail,
      and the record decodes to the date and command with no comment. */
  lemma EntryReadsBack(parse: Parser, format: Formatter, date: Timestamp, command: string)
    requires Encodable(parse, format, date, command)
    ensures Split(Entry(format, date, command), LineSeparator)
            == [format(date) + [FieldSeparator] + command + [FieldSeparator], ""]
    ensures ReadEntry(parse, format(date) + [FieldSeparator] + command + [FieldSeparator])
            == TimeEntry(date, command, "")
  {
    var record := format(date) + [FieldSeparator] + command + [FieldSeparator];
    assert LineSeparator !in record;
    assert Entry(format, date, command) == record + [LineSeparator] + "";
    SplitAfterPiece(record, LineSeparator, "");
    ReadEntryRoundTrip(parse, format(date), command, "", date);
    assert format(date) + [FieldSeparator] + command + [FieldSeparator] + "" == record;
  }
}
