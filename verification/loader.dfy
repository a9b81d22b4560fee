/** Reading a traq file into lines (`ContentLoader`) and the "running"
    policy that closes a day still in progress with a synthetic stop line
    (`RunningLoader`). Two revisions of `ContentLoader` exist: loader.go
    drops one trailing empty line, traq.go and src/traq.go keep it. The
    file system read is a parameter: `Some(content)` for a readable file,
    `None` for a read error (Go then sees empty content). */
module Loader {
  import opened Wrappers
  import opened Text
  import opened Calendar
  import opened Codec

  /** What a `LogLoader` returns: the lines, and whether the read failed. */
  datatype Loaded = Loaded(lines: seq<string>, failed: bool)

  /** The text that marks a line as a stop line (the `;stop;` pattern). */
  const StopMarker: string := ";stop;"

  /** A string that is empty or ends with a newline. */
  predicate NewlineTerminated(s: string)
  {
    |s| == 0 || s[|s| - 1] == LineSeparator
  }

  /** `strings.Join` after one more piece. */
  lemma {:induction false} JoinSnoc(parts: seq<string>, sep: char, last: string)
    requires |parts| >= 1
    ensures Join(parts + [last], sep) == Join(parts, sep) + [sep] + last
    decreases |parts|
  {
    if |parts| > 1 {
      JoinSnoc(parts[1..], sep, last);
      assert (parts + [last])[1..] == parts[1..] + [last];
    }
  }

  /** The last piece of a split is empty exactly when the string is empty
      or ends with the separator. */
  lemma SplitLastEmpty(s: string, sep: char)
    ensures var parts := Split(s, sep);
            parts[|parts| - 1] == "" <==> (|s| == 0 || s[|s| - 1] == sep)
  {
    var parts := Split(s, sep);
    var last := parts[|parts| - 1];
    JoinEnds(parts, sep);
    if |s| > 0 && last != "" {
      assert s[|s| - 1] == last[|last| - 1];
      assert last[|last| - 1] in last;
    }
  }

  /** traq.go / src/traq.go `ContentLoader`: the content split on newlines,
      trailing empty piece included. A failed read yields one empty line. */
  function ContentLoaderKeep(file: Option<string>): (r: Loaded)
    ensures r.failed <==> file.None?
    ensures |r.lines| >= 1
    ensures forall i :: 0 <= i < |r.lines| ==> LineSeparator !in r.lines[i]
    ensures Join(r.lines, LineSeparator) == file.GetOr("")
    ensures r.lines[|r.lines| - 1] == "" <==> NewlineTerminated(file.GetOr(""))
  {
    var content := file.GetOr("");
    var lines := Split(content, LineSeparator);
    SplitLastEmpty(content, LineSeparator);
    Loaded(lines, file.None?)
  }

  /** loader.go `ContentLoader`: as above, then one trailing empty piece
      is dropped, so empty content yields no lines at all. */
  function ContentLoaderStrip(file: Option<string>): (r: Loaded)
    ensures r.failed <==> file.None?
    ensures forall i :: 0 <= i < |r.lines| ==> LineSeparator !in r.lines[i]
    ensures |r.lines| == 0 <==> file.GetOr("") == ""
  {
    var lines := Split(file.GetOr(""), LineSeparator);
    Loaded(if lines[|lines| - 1] == "" then lines[..|lines| - 1] else lines, file.None?)
  }

  /** The two revisions differ by exactly the trailing empty line that
      newline-terminated content produces. */
  lemma StripVersusKeep(file: Option<string>)
    ensures NewlineTerminated(file.GetOr("")) ==>
              ContentLoaderKeep(file).lines == ContentLoaderStrip(file).lines + [""]
    ensures !NewlineTerminated(file.GetOr("")) ==>
              ContentLoaderKeep(file).lines == ContentLoaderStrip(file).lines
  {
    var lines := Split(file.GetOr(""), LineSeparator);
    SplitLastEmpty(file.GetOr(""), LineSeparator);
    assert lines == lines[..|lines| - 1] + [lines[|lines| - 1]];
  }

  /** Stripping loses nothing: joining the lines and restoring the final
      newline gives the content back. */
  lemma StripRestoresContent(content: string)
    requires content != ""
    ensures var lines := ContentLoaderStrip(Some(content)).lines;
            |lines| >= 1 &&
            Join(lines, LineSeparator) + (if NewlineTerminated(content) then [LineSeparator] else "") == content
  {
    var keep, strip := ContentLoaderKeep(Some(content)).lines, ContentLoaderStrip(Some(content)).lines;
    StripVersusKeep(Some(content));
    if NewlineTerminated(content) {
      JoinSnoc(strip, LineSeparator, "");
      assert Join(keep, LineSeparator) == Join(strip, LineSeparator) + [LineSeparator];
    }
  }

  /** `RunningLoader` applied to what a `ContentLoader` returned: a failed
      read passes through; otherwise the last line is indexed (which panics
      when there are no lines), and unless it holds the stop marker the
      synthetic `stopLine` is appended. */
  function Running(loaded: Loaded, stopLine: string): (r: Run<Loaded>)
    ensures r.Panics? <==> !loaded.failed && |loaded.lines| == 0
    ensures loaded.failed ==> r == Returns(loaded)
    ensures r.Returns? && !loaded.failed ==>
              && !r.value.failed
              && (Contains(loaded.lines[|loaded.lines| - 1], StopMarker) <==> r.value.lines == loaded.lines)
              && (!Contains(loaded.lines[|loaded.lines| - 1], StopMarker) <==> r.value.lines == loaded.lines + [stopLine])
  {
    if loaded.failed then Returns(loaded)
    else if |loaded.lines| == 0 then Panics
    else if Contains(loaded.lines[|loaded.lines| - 1], StopMarker) then Returns(loaded)
    else Returns(Loaded(loaded.lines + [stopLine], false))
  }

  /** The synthetic stop line: the `Entry` for a stop at `now`. */
  function StopLineAt(format: Formatter, now: Timestamp): (line: string)
    ensures Contains(line, StopMarker)
  {
    var line := Entry(format, now, "stop");
    assert line == format(now) + StopMarker + [LineSeparator];
    ContainsMiddle(format(now), StopMarker, [LineSeparator]);
    line
  }

  /** loader.go `RunningLoader`, over the stripping `ContentLoader`. */
  function RunningLoaderStrip(format: Formatter, now: Timestamp, file: Option<string>): Run<Loaded>
  {
    Running(ContentLoaderStrip(file), StopLineAt(format, now))
  }

  /** app.go / traq.go `RunningLoader`, over the keeping `ContentLoader`. */
  function RunningLoaderKeep(format: Formatter, now: Timestamp, file: Option<string>): Run<Loaded>
  {
    Running(ContentLoaderKeep(file), StopLineAt(format, now))
  }

  /** On a readable file the keeping revision returns the file's lines,
      followed by the stop line exactly when the last of them lacks the
      stop marker. */
  lemma RunningLoaderKeepLines(format: Formatter, now: Timestamp, content: string)
    ensures var r := RunningLoaderKeep(format, now, Some(content));
            && r.Returns? && !r.value.failed
            && (r.value.lines == Split(content, LineSeparator) ||
                r.value.lines == Split(content, LineSeparator) + [StopLineAt(format, now)])
    ensures var r := RunningLoaderKeep(format, now, Some(content));
            var ls := Split(content, LineSeparator);
            && (r.value.lines == ls <==> Contains(ls[|ls| - 1], StopMarker))
            && (r.value.lines == ls + [StopLineAt(format, now)] <==> !Contains(ls[|ls| - 1], StopMarker))
  {
    var ls := Split(content, LineSeparator);
    var r := RunningLoaderKeep(format, now, Some(content));
    assert ContentLoaderKeep(Some(content)) == Loaded(ls, false);
    if !Contains(ls[|ls| - 1], StopMarker) {
      assert r.value.lines == ls + [StopLineAt(format, now)];
      assert |r.value.lines| != |ls|;
    }
  }

  /** Running the policy a second time changes nothing, because the line
      it appends holds the stop marker itself. */
  lemma RunningIdempotent(loaded: Loaded, stopLine: string)
    requires Contains(stopLine, StopMarker)
    ensures Running(loaded, stopLine).Returns? ==>
              Running(Running(loaded, stopLine).value, stopLine) == Running(loaded, stopLine)
  {
    if !loaded.failed && |loaded.lines| > 0 {
      var r := Running(loaded, stopLine).value;
      assert r.lines[|r.lines| - 1] == stopLine || r.lines == loaded.lines;
    }
  }

  /** The stripping revision panics exactly on a readable empty file. */
  lemma RunningLoaderStripPanicsIff(format: Formatter, now: Timestamp, file: Option<string>)
    ensures RunningLoaderStrip(format, now, file).Panics? <==> file == Some("")
  {
  }

  /** The keeping revision never panics, since a split has a piece. */
  lemma RunningLoaderKeepNeverPanics(format: Formatter, now: Timestamp, file: Option<string>)
    ensures RunningLoaderKeep(format, now, file).Returns?
  {
  }

  /** With the keeping revision every newline-terminated file gets the
      synthetic stop appended after its trailing empty line, even a file
      whose last record already is a stop. */
  lemma NewlineTerminatedAlwaysGetsStop(format: Formatter, now: Timestamp, content: string)
    requires NewlineTerminated(content)
    ensures RunningLoaderKeep(format, now, Some(content))
            == Returns(Loaded(Split(content, LineSeparator) + [StopLineAt(format, now)], false))
  {
    assert !Contains("", StopMarker);
  }

  /** A file holding one written entry: the stripping `ContentLoader`
      reads back one line, the keeping one two, and the keeping
      `RunningLoader` three (the record, the empty line, the stop). */
  lemma OneEntryLineCounts(parse: Parser, format: Formatter, date: Timestamp, command: string, now: Timestamp)
    requires Encodable(parse, format, date, command)
    ensures var file := Some(Entry(format, date, command));
            && |ContentLoaderStrip(file).lines| == 1
            && |ContentLoaderKeep(file).lines| == 2
            && RunningLoaderKeep(format, now, file).Returns?
            && |RunningLoaderKeep(format, now, file).value.lines| == 3
  {
    EntryReadsBack(parse, format, date, command);
    assert !Contains("", StopMarker);
  }
}
