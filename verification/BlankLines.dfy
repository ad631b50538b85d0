/** The lines of a text, and what is left of it without its blank lines. */
module BlankLines {
  import opened Decimal

  /** The first line of s with its end, if it has one. */
  function FirstLine(s: string): (line: string)
    ensures |line| <= |s| && (s != "" ==> line != "")
  {
    if s == "" then "" else if s[0] == '\n' then "\n" else [s[0]] + FirstLine(s[1..])
  }

  function AfterLine(s: string): string {
    s[|FirstLine(s)|..]
  }

  function Lines(s: string): seq<string>
    decreases |s|
  {
    if s == "" then [] else [FirstLine(s)] + Lines(AfterLine(s))
  }

  function Join(lines: seq<string>): string {
    if lines == [] then "" else lines[0] + Join(lines[1..])
  }

  predicate Blank(line: string) {
    forall i | 0 <= i < |line| :: IsSpace(line[i])
  }

  /** The lines that are not blank, in their order. */
  function Kept(lines: seq<string>): seq<string> {
    if lines == [] then [] else (if Blank(lines[0]) then [] else [lines[0]]) + Kept(lines[1..])
  }

  function Filter(s: string): string {
    Join(Kept(Lines(s)))
  }

  /** A line is blank if it has only spaces, tabs, line ends and form feeds, vertical tabs and carriage returns. */
  lemma BlankIff(line: string)
    ensures Blank(line) <==> forall c | c in line :: c as int == 32 || 9 <= c as int <= 13
  {
    if forall c | c in line :: c as int == 32 || 9 <= c as int <= 13 {
      forall i | 0 <= i < |line|
        ensures IsSpace(line[i])
      {
        assert line[i] in line;
      }
    }
  }

  // Lines and texts.

  /** A line ends with its only line end; the last one of a text may have none. */
  predicate IsLine(line: string, last: bool) {
    && line != ""
    && (forall i | 0 <= i < |line| - 1 :: line[i] != '\n')
    && (line[|line| - 1] == '\n' || last)
  }

  predicate AreLines(lines: seq<string>) {
    forall i | 0 <= i < |lines| :: IsLine(lines[i], i == |lines| - 1)
  }

  lemma {:induction false} FirstIsLine(s: string)
    requires s != ""
    ensures IsLine(FirstLine(s), AfterLine(s) == "") && s == FirstLine(s) + AfterLine(s)
  {
    if s[0] != '\n' {
      var rest := FirstLine(s[1..]);
      assert FirstLine(s) == [s[0]] + rest;
      assert s == [s[0]] + s[1..];
      if s[1..] != "" {
        FirstIsLine(s[1..]);
        assert AfterLine(s) == AfterLine(s[1..]);
      } else {
        assert s == [s[0]];
      }
    }
  }

  /** A text is cut into lines, and nothing is lost. */
  lemma {:induction false} LinesOfText(s: string)
    ensures AreLines(Lines(s)) && Join(Lines(s)) == s
    decreases |s|
  {
    if s != "" {
      FirstIsLine(s);
      LinesOfText(AfterLine(s));
      assert AfterLine(s) == "" <==> Lines(AfterLine(s)) == [];
    }
  }

  lemma {:induction false} FirstLineIs(line: string, rest: string)
    requires IsLine(line, rest == "")
    ensures FirstLine(line + rest) == line && AfterLine(line + rest) == rest
  {
    var s := line + rest;
    if |line| == 1 {
      if rest != "" {
        assert s[0] == '\n';
      } else {
        assert s[1..] == "";
      }
    } else {
      assert s[0] == line[0] != '\n';
      assert s[1..] == line[1..] + rest;
      FirstLineIs(line[1..], rest);
    }
  }

  /** The lines of a text that is put together from lines are these. */
  lemma {:induction false} LinesOfJoin(lines: seq<string>)
    requires AreLines(lines)
    ensures Lines(Join(lines)) == lines
  {
    if lines != [] {
      var rest := Join(lines[1..]);
      JoinIsEmpty(lines[1..]);
      FirstLineIs(lines[0], rest);
      assert forall i | 0 <= i < |lines[1..]| :: lines[1..][i] == lines[i + 1];
      LinesOfJoin(lines[1..]);
    }
  }

  lemma JoinIsEmpty(lines: seq<string>)
    requires forall i | 0 <= i < |lines| :: lines[i] != ""
    ensures Join(lines) == "" <==> lines == []
  {
  }

  lemma {:induction false} KeptAreLines(lines: seq<string>)
    requires AreLines(lines)
    ensures AreLines(Kept(lines))
  {
    if lines != [] {
      assert forall i | 0 <= i < |lines[1..]| :: lines[1..][i] == lines[i + 1];
      KeptAreLines(lines[1..]);
      if lines[1..] == [] {
        assert Kept(lines[1..]) == [];
      }
    }
  }

  lemma {:induction false} KeptAgain(lines: seq<string>)
    ensures forall line | line in Kept(lines) :: line in lines && !Blank(line)
    ensures Kept(lines) == lines <==> forall line | line in lines :: !Blank(line)
    ensures |Kept(lines)| <= |lines|
  {
    if lines != [] {
      KeptAgain(lines[1..]);
      assert forall line :: line in lines <==> line == lines[0] || line in lines[1..];
      if Kept(lines) == lines {
        assert !Blank(lines[0]);
        assert Kept(lines) == [lines[0]] + Kept(lines[1..]);
        assert Kept(lines[1..]) == lines[1..];
      }
    }
  }

  /** The lines of the output are those of the input that are not blank, unchanged. */
  lemma FilterKeepsLines(s: string)
    ensures Lines(Filter(s)) == Kept(Lines(s))
  {
    LinesOfText(s);
    KeptAreLines(Lines(s));
    LinesOfJoin(Kept(Lines(s)));
  }

  /** A second time changes nothing, and the first time nothing in a text without blank lines. */
  lemma FilterTwice(s: string)
    ensures Filter(Filter(s)) == Filter(s)
    ensures Filter(s) == s <==> forall line | line in Lines(s) :: !Blank(line)
  {
    FilterKeepsLines(s);
    KeptAgain(Lines(s));
    KeptAgain(Kept(Lines(s)));
    LinesOfText(s);
  }

  /** One line at a time. */
  lemma FilterStep(s: string)
    ensures Blank(FirstLine(s)) ==> Filter(s) == Filter(AfterLine(s))
    ensures !Blank(FirstLine(s)) ==> Filter(s) == FirstLine(s) + Filter(AfterLine(s))
  {
    if s == "" {
      assert FirstLine(s) == "" == AfterLine(s);
    } else {
      KeptFirst(FirstLine(s), Lines(AfterLine(s)));
    }
  }

  lemma KeptFirst(line: string, rest: seq<string>)
    ensures Blank(line) ==> Join(Kept([line] + rest)) == Join(Kept(rest))
    ensures !Blank(line) ==> Join(Kept([line] + rest)) == line + Join(Kept(rest))
  {
    var lines := [line] + rest;
    assert lines[0] == line && lines[1..] == rest;
    if Blank(line) {
      assert Kept(lines) == Kept(rest);
    } else {
      var kept := [line] + Kept(rest);
      assert Kept(lines) == kept;
      assert kept[0] == line && kept[1..] == Kept(rest);
    }
  }
}
