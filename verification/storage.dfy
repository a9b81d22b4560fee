/** Where a day's log lives and what is written to it: the path
    `<base>/<project>/<Y>/<Y>-<MM>-<DD>` (storage.go `Path`, traq.go and
    src/traq.go `FilePath`), the tag normalisation of `Store` and
    `WriteToFile` (`stop` stays, anything else gets a `#`), and the line
    appended. Directory creation and the append itself are file system
    effects; a file's content is modelled as the string of its lines. */
module Storage {
  import opened Wrappers
  import opened Text
  import opened Calendar
  import opened Codec
  import opened Loader

  /** storage.go `FileSystemStorage` without its loader. */
  datatype FileSystemStorage = FileSystemStorage(basePath: string, project: string)

  const PathSeparator: char := '/'
  const DateSeparator: char := '-'

  /** The directory of a project's logs, with its trailing separator. */
  function ProjectDir(base: string, project: string): string
  {
    base + [PathSeparator] + project + [PathSeparator]
  }

  /** The file name of a date's log: `<Y>-<MM>-<DD>`. */
  function FileName(c: Civil): string
  {
    Itoa(c.year) + [DateSeparator] + Pad2(c.month) + [DateSeparator] + Pad2(c.day)
  }

  /** The path of the log of calendar date `c`: the project directory,
      the year directory, the file name. */
  function DayPath(base: string, project: string, c: Civil): string
  {
    ProjectDir(base, project) + (Itoa(c.year) + [PathSeparator] + FileName(c))
  }

  /** storage.go `Path`: the date's year, month and day in its own zone. */
  function Path(fs: FileSystemStorage, date: Timestamp): string
  {
    DayPath(fs.basePath, fs.project, CivilOf(date))
  }

  /** traq.go / src/traq.go `FilePath`, with the value of `TRAQ_DATA_DIR`
      passed in as `dataDir`. */
  function FilePath(dataDir: string, project: string, date: Timestamp): string
  {
    DayPath(dataDir, project, CivilOf(date))
  }

  /** Reading a date back from a path under `base` and `project`: two
      pieces after the prefix, the second being the first, a dash, and
      two two-digit numbers separated by a dash. */
  function ReadDayPath(base: string, project: string, path: string): Option<Civil>
  {
    var prefix := ProjectDir(base, project);
    if |path| < |prefix| || path[..|prefix|] != prefix then None
    else
      var pieces := Split(path[|prefix|..], PathSeparator);
      if |pieces| != 2 then None
      else
        var fields := Split(pieces[1], DateSeparator);
        if |fields| != 3 || fields[0] != pieces[0] then None
        else if !AllDigits(fields[0]) || !AllDigits(fields[1]) || !AllDigits(fields[2]) then None
        else Some(Civil(DecimalValue(fields[0]), DecimalValue(fields[1]), DecimalValue(fields[2])))
  }

  /** `%d` of a non-negative year is its digits. */
  lemma YearDigits(y: int)
    requires y >= 0
    ensures AllDigits(Itoa(y)) && DecimalValue(Itoa(y)) == y
    ensures PathSeparator !in Itoa(y) && DateSeparator !in Itoa(y)
  {
  }

  /** A path names its date: reading it back gives the date, for every
      valid date from year 0 on. */
  lemma DayPathRoundTrip(base: string, project: string, c: Civil)
    requires ValidCivil(c) && c.year >= 0
    ensures ReadDayPath(base, project, DayPath(base, project, c)) == Some(c)
  {
    var y, m, d := Itoa(c.year), Pad2(c.month), Pad2(c.day);
    YearDigits(c.year);
    Pad2OfDayOrMonth(c.month);
    Pad2OfDayOrMonth(c.day);
    DropPrefix(ProjectDir(base, project), y + [PathSeparator] + FileName(c));
    FilePieces(y, m, d);
  }

  lemma DropPrefix(prefix: string, rest: string)
    ensures |prefix + rest| >= |prefix|
    ensures (prefix + rest)[..|prefix|] == prefix && (prefix + rest)[|prefix|..] == rest
  {
  }

  /** The year directory and the file name split into their pieces. */
  lemma FilePieces(y: string, m: string, d: string)
    requires |m| == 2 && |d| == 2 && AllDigits(y) && AllDigits(m) && AllDigits(d)
    ensures Split(y + [PathSeparator] + (y + [DateSeparator] + m + [DateSeparator] + d), PathSeparator)
            == [y, y + [DateSeparator] + m + [DateSeparator] + d]
    ensures Split(y + [DateSeparator] + m + [DateSeparator] + d, DateSeparator) == [y, m, d]
  {
    NoSeparators(y);
    NoSeparators(m);
    NoSeparators(d);
    var file := y + [DateSeparator] + m + [DateSeparator] + d;
    assert PathSeparator !in file;
    SplitTwo(y, file, PathSeparator);
    SplitThree(y, m, d, DateSeparator);
  }

  lemma NoSeparators(s: string)
    requires AllDigits(s)
    ensures PathSeparator !in s && DateSeparator !in s
  {
  }

  /** Different dates from year 0 on get different paths. */
  lemma DayPathInjective(base: string, project: string, c1: Civil, c2: Civil)
    requires ValidCivil(c1) && c1.year >= 0 && ValidCivil(c2) && c2.year >= 0
    requires DayPath(base, project, c1) == DayPath(base, project, c2)
    ensures c1 == c2
  {
    DayPathRoundTrip(base, project, c1);
    DayPathRoundTrip(base, project, c2);
  }

  /** Two instants share a log file exactly when they fall on the same
      local day: the time of day does not matter, the day does. */
  lemma PathIdentifiesDay(fs: FileSystemStorage, t1: Timestamp, t2: Timestamp)
    requires CivilOf(t1).year >= 0 && CivilOf(t2).year >= 0
    ensures Path(fs, t1) == Path(fs, t2) <==> LocalDay(t1) == LocalDay(t2)
  {
    if Path(fs, t1) == Path(fs, t2) {
      DayPathInjective(fs.basePath, fs.project, CivilOf(t1), CivilOf(t2));
    }
  }

  /** The tests' path for 3 September 1986 under project `example`. */
  lemma FilePathExample(dataDir: string)
    ensures FilePath(dataDir, "example", DateAt(Civil(1986, 9, 3), 0, 0, 0, 0)) == dataDir + "/example/1986/1986-09-03"
  {
    SeptemberThird();
    DayPathExample(dataDir);
  }

  lemma SeptemberThird()
    ensures CivilOf(DateAt(Civil(1986, 9, 3), 0, 0, 0, 0)) == Civil(1986, 9, 3)
  {
    assert ValidCivil(Civil(1986, 9, 3));
    DateAtDay(Civil(1986, 9, 3), 0, 0, 0, 0);
  }

  lemma DayPathExample(dataDir: string)
    ensures DayPath(dataDir, "example", Civil(1986, 9, 3)) == dataDir + "/example/1986/1986-09-03"
  {
    Year1986();
    PadDigit(9);
    PadDigit(3);
    assert FileName(Civil(1986, 9, 3)) == "1986-09-03";
    assert ProjectDir(dataDir, "example") == dataDir + "/example/";
    assert "1986" + [PathSeparator] + "1986-09-03" == "1986/1986-09-03";
    assert dataDir + "/example/" + "1986/1986-09-03" == dataDir + "/example/1986/1986-09-03";
  }

  lemma PadDigit(n: int)
    requires 0 <= n < 10
    ensures Pad2(n) == "0" + [DigitChar(n)]
  {
  }

  lemma Year1986()
    ensures Itoa(1986) == "1986"
  {
    assert NatToDecimal(19) == "19" by {
      assert NatToDecimal(1) == "1";
    }
    assert NatToDecimal(198) == NatToDecimal(19) + [DigitChar(8)];
    assert NatToDecimal(1986) == NatToDecimal(198) + [DigitChar(6)];
  }

  // ---- the stored tag and line ----

  const Stop: string := "stop"

  /** The tag rule of `Store` and `WriteToFile`: `stop` is kept, every
      other command becomes a `#` tag. */
  function StoredTag(command: string): (tag: string)
    ensures tag == Stop <==> command == Stop
    ensures tag != Stop ==> |tag| == |command| + 1 && tag[0] == '#' && tag[1..] == command
  {
    if command != Stop then
      assert ("#" + command)[0] != Stop[0];
      "#" + command
    else command
  }

  /** Different commands are stored as different tags. */
  lemma StoredTagInjective(a: string, b: string)
    requires StoredTag(a) == StoredTag(b)
    ensures a == b
  {
  }

  /** The rule is not idempotent: a tag that already has its `#` gets a
      second one. */
  lemma StoredTagNotIdempotent()
    ensures StoredTag("#work") == "##work"
    ensures StoredTag(StoredTag("work")) != StoredTag("work")
  {
  }

  /** The line `Store` appends for `entry`: its date, the normalised tag
      and an empty comment. */
  function StoreLine(format: Formatter, entry: TimeEntry): string
  {
    Entry(format, entry.date, StoredTag(entry.tag))
  }

  /** The comment of the entry is never written. */
  lemma StoreDiscardsComment(format: Formatter, date: Timestamp, tag: string, c1: string, c2: string)
    ensures StoreLine(format, TimeEntry(date, tag, c1)) == StoreLine(format, TimeEntry(date, tag, c2))
  {
  }

  /** traq.go / src/traq.go `WriteToFile` appends the same line as `Store`. */
  function WriteToFileLine(format: Formatter, date: Timestamp, command: string): (line: string)
    ensures forall comment :: line == StoreLine(format, TimeEntry(date, command, comment))
  {
    Entry(format, date, StoredTag(command))
  }

  /** What `WriteToFile` appends reads back: through the stripping
      `ContentLoader`, one write gives a file of one record, decoding to
      the date and the normalised tag with no comment. The keeping
      `ContentLoader` gives the same record followed by `""`. */
  lemma WriteToFileReadsBack(parse: Parser, format: Formatter, date: Timestamp, command: string)
    requires Encodable(parse, format, date, StoredTag(command))
    ensures var lines := ContentLoaderStrip(Some(WriteToFileLine(format, date, command))).lines;
            && |lines| == 1
            && lines[0] == format(date) + [FieldSeparator] + StoredTag(command) + [FieldSeparator]
            && ReadEntry(parse, lines[0]) == TimeEntry(date, StoredTag(command), "")
    ensures ContentLoaderKeep(Some(WriteToFileLine(format, date, command))).lines
            == ContentLoaderStrip(Some(WriteToFileLine(format, date, command))).lines + [""]
  {
    StoreReadsBack(parse, format, TimeEntry(date, command, ""));
    StripVersusKeep(Some(WriteToFileLine(format, date, command)));
  }

  /** Two writes give a file of two records, each decoding to its own
      date and normalised tag; the keeping `ContentLoader` adds `""`. */
  lemma WriteToFileTwiceReadsBack(parse: Parser, format: Formatter, d1: Timestamp, c1: string, d2: Timestamp, c2: string)
    requires Encodable(parse, format, d1, StoredTag(c1))
    requires Encodable(parse, format, d2, StoredTag(c2))
    ensures var lines := ContentLoaderStrip(Some(WriteToFileLine(format, d1, c1) + WriteToFileLine(format, d2, c2))).lines;
            && |lines| == 2
            && lines[0] == format(d1) + [FieldSeparator] + StoredTag(c1) + [FieldSeparator]
            && lines[1] == format(d2) + [FieldSeparator] + StoredTag(c2) + [FieldSeparator]
            && ReadEntry(parse, lines[0]) == TimeEntry(d1, StoredTag(c1), "")
            && ReadEntry(parse, lines[1]) == TimeEntry(d2, StoredTag(c2), "")
    ensures ContentLoaderKeep(Some(WriteToFileLine(format, d1, c1) + WriteToFileLine(format, d2, c2))).lines
            == ContentLoaderStrip(Some(WriteToFileLine(format, d1, c1) + WriteToFileLine(format, d2, c2))).lines + [""]
  {
    StoreTwiceReadsBack(parse, format, TimeEntry(d1, c1, ""), TimeEntry(d2, c2, ""));
    StripVersusKeep(Some(WriteToFileLine(format, d1, c1) + WriteToFileLine(format, d2, c2)));
  }

  /** The write test, read with the stripping `ContentLoader`: `test`
      gives the single line `<start>;#test;`, and a following `stop` adds
      the line `<end>;stop;`. The keeping `ContentLoader` reads the first
      file as two lines, the record and `""`. */
  lemma WriteToFileExample(parse: Parser, format: Formatter, start: Timestamp, end: Timestamp)
    requires Encodable(parse, format, start, "#test")
    requires Encodable(parse, format, end, Stop)
    ensures var one := ContentLoaderStrip(Some(WriteToFileLine(format, start, "test"))).lines;
            |one| == 1 && one[0] == format(start) + ";#test;"
    ensures var two := ContentLoaderStrip(Some(WriteToFileLine(format, start, "test") + WriteToFileLine(format, end, Stop))).lines;
            |two| == 2 && two[0] == format(start) + ";#test;" && two[1] == format(end) + ";stop;"
    ensures ContentLoaderKeep(Some(WriteToFileLine(format, start, "test"))).lines == [format(start) + ";#test;", ""]
  {
    TestTags();
    TestRecords(format(start), format(end));
    WriteToFileReadsBack(parse, format, start, "test");
    WriteToFileTwiceReadsBack(parse, format, start, "test", end, Stop);
  }

  lemma TestTags()
    ensures StoredTag("test") == "#test" && StoredTag(Stop) == Stop
  {
  }

  /** The two records of the write test, spelled out. */
  lemma TestRecords(t1: string, t2: string)
    ensures t1 + [FieldSeparator] + "#test" + [FieldSeparator] == t1 + ";#test;"
    ensures t2 + [FieldSeparator] + Stop + [FieldSeparator] == t2 + ";stop;"
  {
    assert [FieldSeparator] + "#test" + [FieldSeparator] == ";#test;";
    assert [FieldSeparator] + Stop + [FieldSeparator] == ";stop;";
  }

  /** A stored entry reads back: the file holds one line, which decodes
      to the date and the normalised tag, with no comment. */
  lemma StoreReadsBack(parse: Parser, format: Formatter, entry: TimeEntry)
    requires Encodable(parse, format, entry.date, StoredTag(entry.tag))
    ensures var lines := ContentLoaderStrip(Some(StoreLine(format, entry))).lines;
            && |lines| == 1
            && lines[0] == format(entry.date) + [FieldSeparator] + StoredTag(entry.tag) + [FieldSeparator]
            && ReadEntry(parse, lines[0]) == TimeEntry(entry.date, StoredTag(entry.tag), "")
  {
    EntryReadsBack(parse, format, entry.date, StoredTag(entry.tag));
  }

  /** Two stores append two lines, each decoding to its own entry, as
      the storage and `WriteToFile` tests expect. */
  lemma StoreTwiceReadsBack(parse: Parser, format: Formatter, e1: TimeEntry, e2: TimeEntry)
    requires Encodable(parse, format, e1.date, StoredTag(e1.tag))
    requires Encodable(parse, format, e2.date, StoredTag(e2.tag))
    ensures var lines := ContentLoaderStrip(Some(StoreLine(format, e1) + StoreLine(format, e2))).lines;
            && |lines| == 2
            && lines[0] == format(e1.date) + [FieldSeparator] + StoredTag(e1.tag) + [FieldSeparator]
            && lines[1] == format(e2.date) + [FieldSeparator] + StoredTag(e2.tag) + [FieldSeparator]
            && ReadEntry(parse, lines[0]) == TimeEntry(e1.date, StoredTag(e1.tag), "")
            && ReadEntry(parse, lines[1]) == TimeEntry(e2.date, StoredTag(e2.tag), "")
  {
    var r1 := format(e1.date) + [FieldSeparator] + StoredTag(e1.tag) + [FieldSeparator];
    var r2 := format(e2.date) + [FieldSeparator] + StoredTag(e2.tag) + [FieldSeparator];
    EntryReadsBack(parse, format, e1.date, StoredTag(e1.tag));
    EntryReadsBack(parse, format, e2.date, StoredTag(e2.tag));
    assert LineSeparator !in r1 && LineSeparator !in r2;
    var content := StoreLine(format, e1) + StoreLine(format, e2);
    assert content == r1 + [LineSeparator] + (r2 + [LineSeparator] + "");
    SplitAfterPiece(r1, LineSeparator, r2 + [LineSeparator] + "");
    SplitAfterPiece(r2, LineSeparator, "");
    assert Split(content, LineSeparator) == [r1, r2, ""];
  }
}
