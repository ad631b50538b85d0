/** The two programs that copy a file without its blank lines, each going back to the start of a line that it keeps. */
module LineCopier {
  import opened Decimal
  import opened BlankLines

  /** A file that is read: a stream or a descriptor. */
  class Input {
    const content: string
    var pos: nat
    var eof: bool

    /** rest is still to be read. */
    ghost predicate Left(rest: string)
      reads this
    {
      pos <= |content| && rest == content[pos..] && (eof ==> rest == "")
    }

    constructor (content: string)
      ensures this.content == content && Left(content) && pos == 0 && !eof
    {
      this.content := content;
      pos, eof := 0, false;
    }

    /** fread or read of one character */
    method Read(ghost rest: string) returns (ok: bool, c: char)
      requires Left(rest)
      modifies this
      ensures ok == (rest != "")
      ensures ok ==> c == rest[0] && Left(rest[1..]) && pos == old(pos) + 1
      ensures !ok ==> Left("") && pos == old(pos) && eof
    {
      if pos == |content| {
        eof := true;
        return false, '\0';
      }
      c := content[pos];
      pos := pos + 1;
      eof := false;
      ok := true;
    }

    /** fsetpos or lseek */
    method Seek(index: nat)
      requires index <= |content|
      modifies this
      ensures Left(content[index..]) && pos == index
    {
      pos, eof := index, false;
    }
  }

  /** The characters of a file that was there before are replaced from its start on. */
  function Overwritten(before: string, s: string): string {
    s + if |s| <= |before| then before[|s|..] else ""
  }

  /** A file that is written. */
  class Output {
    var content: string
    var pos: nat

    ghost predicate Wrote(before: string, s: string)
      reads this
    {
      content == Overwritten(before, s) && pos == |s|
    }

    constructor (before: string)
      ensures Wrote(before, "")
    {
      content, pos := before, 0;
    }

    method Write(c: char, ghost before: string, ghost s: string)
      requires Wrote(before, s)
      modifies this
      ensures Wrote(before, s + [c])
    {
      content := content[..pos] + [c] + if pos < |content| then content[pos + 1..] else "";
      pos := pos + 1;
    }
  }

  lemma LineGoesOn(s: string)
    requires s != "" && s[0] != '\n'
    ensures AfterLine(s) == AfterLine(s[1..]) && FirstLine(s) == [s[0]] + FirstLine(s[1..])
    ensures Blank(FirstLine(s)) <==> IsSpace(s[0]) && Blank(FirstLine(s[1..]))
  {
    var line, more := FirstLine(s), FirstLine(s[1..]);
    assert line[0] == s[0];
    assert forall i | 0 <= i < |more| :: line[i + 1] == more[i];
  }

  /** From the start of a line to its first character that is not a space, or to its end. */
  method ScanLine(input: Input, ghost rest: string) returns (writeLine: bool, count: nat)
    requires input.Left(rest)
    modifies input
    ensures input.pos == old(input.pos) + count <= |input.content|
    ensures writeLine == !Blank(FirstLine(rest))
    ensures !writeLine ==> input.Left(AfterLine(rest)) && (rest == "" ==> input.eof)
  {
    writeLine, count := false, 0;
    ghost var here := rest;
    while true
      invariant input.Left(here) && input.pos == old(input.pos) + count
      invariant AfterLine(rest) == AfterLine(here) && (rest == "" ==> here == "")
      invariant Blank(FirstLine(rest)) == Blank(FirstLine(here))
      decreases |here|
    {
      var ok, c := input.Read(here);
      if !ok {
        break;
      }
      count := count + 1;
      if c == '\n' {
        break;
      }
      LineGoesOn(here);
      if !IsSpace(c) {
        writeLine := true;
        break;
      }
      here := here[1..];
    }
  }

  method CopyLine(input: Input, output: Output, ghost rest: string, ghost before: string, ghost s: string)
    requires input.Left(rest) && output.Wrote(before, s)
    modifies input, output
    ensures input.Left(AfterLine(rest))
    ensures output.Wrote(before, s + FirstLine(rest))
  {
    ghost var line, here := "", rest;
    while true
      invariant input.Left(here) && output.Wrote(before, s + line)
      invariant FirstLine(rest) == line + FirstLine(here) && AfterLine(rest) == AfterLine(here)
      decreases |here|
    {
      var ok, c := input.Read(here);
      if !ok {
        break;
      }
      output.Write(c, before, s + line);
      assert s + line + [c] == s + (line + [c]);
      line := line + [c];
      if c == '\n' {
        break;
      }
      LineGoesOn(here);
      here := here[1..];
    }
  }

  /** lib_open_file, which empties the file that it writes */
  method LibOpenFile(content: string) returns (output: Output)
    ensures fresh(output) && output.content == Filter(content)
  {
    var input := new Input(content);
    output := new Output("");
    ghost var s, rest := "", content;
    while !input.eof
      invariant input.Left(rest) && fresh(input) && fresh(output)
      invariant output.Wrote("", s) && s + Filter(rest) == Filter(content)
      decreases |rest|, !input.eof
    {
      var index := input.pos;
      FilterStep(rest);
      var writeLine, _ := ScanLine(input, rest);
      if writeLine {
        input.Seek(index);
        CopyLine(input, output, rest, "", s);
        Regroup(s, FirstLine(rest), Filter(AfterLine(rest)));
        s := s + FirstLine(rest);
      }
      rest := AfterLine(rest);
    }
  }

  /** sys_open_file, which does not */
  method SysOpenFile(content: string, output: Output)
    requires output.pos == 0
    modifies output
    ensures output.content == Overwritten(old(output.content), Filter(content))
    ensures |Filter(content)| <= |output.content| && output.content[..|Filter(content)|] == Filter(content)
    ensures |Filter(content)| <= |old(output.content)| ==>
              output.content[|Filter(content)|..] == old(output.content)[|Filter(content)|..]
    ensures output.content == Filter(content) <==> |old(output.content)| <= |Filter(content)|
  {
    var input := new Input(content);
    ghost var before, s, rest := output.content, "", content;
    while true
      invariant input.Left(rest) && fresh(input)
      invariant output.Wrote(before, s) && s + Filter(rest) == Filter(content)
      decreases |rest|
    {
      var ok, _ := input.Read(rest);
      if !ok {
        break;
      }
      input.Seek(input.pos - 1);
      FilterStep(rest);
      var writeLine, index := ScanLine(input, rest);
      if writeLine {
        input.Seek(input.pos - index);
        CopyLine(input, output, rest, before, s);
        Regroup(s, FirstLine(rest), Filter(AfterLine(rest)));
        s := s + FirstLine(rest);
      }
      rest := AfterLine(rest);
    }
  }

  /** main: both, one after the other, on the same two files */
  method LibThenSys(content: string) returns (lib: string, sys: string)
    ensures lib == sys == Filter(content)
  {
    var output := LibOpenFile(content);
    lib := output.content;
    var again := new Output(lib);
    SysOpenFile(content, again);
    sys := again.content;
  }
}
