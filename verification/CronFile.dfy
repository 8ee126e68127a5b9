/** The text of the cron configuration file: saveCronConfigDoc writes lines,
    readCronConfigDoc cuts the text into lines again (server/cron.go). */
module CronFile {
  import opened Text
  import opened CronLines

  /** strings.Join(lines, "\n"). */
  function Join(lines: seq<string>): string {
    if lines == [] then "" else if |lines| == 1 then lines[0] else lines[0] + "\n" + Join(lines[1..])
  }

  function SaveText(lines: seq<string>): string {
    var content := Join(lines);
    if content != "" then content + "\n" else content
  }

  /** strings.ReplaceAll(text, "\r\n", "\n"). */
  function ReplaceCrLf(text: string): string {
    if text == "" then ""
    else if |text| >= 2 && text[0] == '\r' && text[1] == '\n' then "\n" + ReplaceCrLf(text[2..])
    else [text[0]] + ReplaceCrLf(text[1..])
  }

  function ReadLines(text: string): seq<string> {
    var lines := Split(ReplaceCrLf(text), '\n');
    if lines[|lines| - 1] == "" then lines[..|lines| - 1] else lines
  }

  function AllWithoutCr(lines: seq<string>): seq<string> {
    if lines == [] then [] else [WithoutCr(lines[0])] + AllWithoutCr(lines[1..])
  }

  /** The text of lines that each end in a newline. */
  function Terminated(lines: seq<string>): string {
    if lines == [] then "" else lines[0] + ['\n'] + Terminated(lines[1..])
  }

  predicate SingleLines(lines: seq<string>) {
    forall line <- lines :: '\n' !in line
  }

  lemma {:induction false} JoinTerminates(lines: seq<string>)
    requires lines != []
    ensures Join(lines) + "\n" == Terminated(lines)
    ensures Join(lines) == "" <==> lines == [""]
  {
    if |lines| == 1 {
      assert lines == [lines[0]];
      assert Terminated(lines[1..]) == "";
    } else {
      JoinTerminates(lines[1..]);
    }
  }

  lemma ReplacePlain(c: char, text: string)
    requires c != '\r' || text == "" || text[0] != '\n'
    ensures ReplaceCrLf([c] + text) == [c] + ReplaceCrLf(text)
  {
    assert ([c] + text)[1..] == text;
  }

  lemma ReplacePair(text: string)
    ensures ReplaceCrLf(['\r', '\n'] + text) == "\n" + ReplaceCrLf(text)
  {
    assert (['\r', '\n'] + text)[2..] == text;
  }

  lemma {:induction false} ReplaceInLine(line: string, rest: string)
    requires '\n' !in line
    ensures ReplaceCrLf(line + ['\n'] + rest) == WithoutCr(line) + ['\n'] + ReplaceCrLf(rest)
  {
    if line == "" {
      assert line + ['\n'] + rest == ['\n'] + rest;
      ReplacePlain('\n', rest);
    } else if line == "\r" {
      assert line + ['\n'] + rest == ['\r', '\n'] + rest;
      ReplacePair(rest);
    } else {
      var c, tail := line[0], line[1..];
      assert tail != "" ==> tail[0] in line;
      assert line + ['\n'] + rest == [c] + (tail + ['\n'] + rest);
      ReplacePlain(c, tail + ['\n'] + rest);
      ReplaceInLine(tail, rest);
      assert [c] + WithoutCr(tail) == WithoutCr(line);
    }
  }

  lemma {:induction false} ReplaceInLines(lines: seq<string>)
    requires SingleLines(lines)
    ensures ReplaceCrLf(Terminated(lines)) == Terminated(AllWithoutCr(lines))
    ensures SingleLines(AllWithoutCr(lines))
  {
    if lines != [] {
      assert lines[0] in lines;
      ReplaceInLine(lines[0], Terminated(lines[1..]));
      ReplaceInLines(lines[1..]);
      assert AllWithoutCr(lines)[1..] == AllWithoutCr(lines[1..]);
    }
  }

  lemma {:induction false} SplitTerminated(lines: seq<string>, end: string)
    requires SingleLines(lines) && end == ""
    ensures Split(Terminated(lines), '\n') == lines + [end]
  {
    if lines == [] {
      IndexOfNone(end, '\n');
      assert lines + [end] == [end];
    } else {
      SplitTerminated(lines[1..], end);
      assert lines[0] in lines;
      SplitAtFirst(lines[0], '\n', Terminated(lines[1..]));
      FirstAndRest(lines, end);
    }
  }

  lemma FirstAndRest(lines: seq<string>, end: string)
    requires lines != []
    ensures [lines[0]] + (lines[1..] + [end]) == lines + [end]
  {
  }

  lemma {:induction false} SameWithoutCr(lines: seq<string>)
    ensures AllWithoutCr(lines) == lines <==> forall line <- lines :: !EndsInCr(line)
  {
    if lines != [] {
      SameWithoutCr(lines[1..]);
      assert AllWithoutCr(lines)[0] == WithoutCr(lines[0]) && AllWithoutCr(lines)[1..] == AllWithoutCr(lines[1..]);
      assert forall line :: line in lines <==> line == lines[0] || line in lines[1..];
    }
  }

  /** Saved lines come back without carriage returns at their ends. */
  lemma ReadOfSaved(lines: seq<string>)
    requires SingleLines(lines)
    ensures ReadLines(SaveText(lines)) == if lines == [""] then [] else AllWithoutCr(lines)
  {
    if lines != [] { JoinTerminates(lines); }
    if lines == [] || lines == [""] {
      assert ReadLines("") == [];
    } else {
      ReplaceInLines(lines);
      SplitTerminated(AllWithoutCr(lines), "");
    }
  }

  /** Saved lines are read back as they were, if and only if none of them ends in a
      carriage return and they are not one single empty line. */
  lemma SaveThenRead(lines: seq<string>)
    requires SingleLines(lines)
    ensures ReadLines(SaveText(lines)) == lines <==> lines != [""] && forall line <- lines :: !EndsInCr(line)
  {
    ReadOfSaved(lines);
    SameWithoutCr(lines);
  }

  /** Both happen: these two documents are not read back as they were. */
  lemma LostLines()
    ensures ReadLines(SaveText(["a\r"])) != ["a\r"]
    ensures ReadLines(SaveText([""])) != [""]
  {
    SaveThenRead([""]);
    assert EndsInCr("a\r") && "a\r" in ["a\r"];
    SaveThenRead(["a\r"]);
  }

  /** Lines that were read have no newline in them. */
  lemma ReadLinesAreSingle(text: string)
    ensures SingleLines(ReadLines(text))
  {
    SplitsAreSingle(ReplaceCrLf(text));
  }

  lemma {:induction false} SplitsAreSingle(text: string)
    ensures SingleLines(Split(text, '\n'))
  {
    if IndexOf(text, '\n') < |text| { SplitsAreSingle(text[IndexOf(text, '\n') + 1..]); }
  }
}
