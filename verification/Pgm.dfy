/** Plain PGM pictures as cw08 writes and reads them. */
module Pgm {
  import opened Decimal
  import opened Negative

  /** fgets stops after this many characters, one less than its buffer holds. */
  const LINE_MAX: int := 2048

  const INT_LIMIT: int := 0x8000_0000

  datatype Picture = Picture(width: int, height: int, pixels: Image)

  datatype Loaded = Failed | Loaded(picture: Picture)

  // Writing.

  function PrintRow(row: seq<int>): string {
    if row == [] then "\n" else Print(row[0]) + " " + PrintRow(row[1..])
  }

  function PrintRows(rows: Image): string {
    if rows == [] then "" else PrintRow(rows[0]) + PrintRows(rows[1..])
  }

  function PrintPicture(p: Picture): string {
    "P2\n" + "# Processed picture\n" + Print(p.width) + " " + Print(p.height) + "\n" + "255\n" + PrintRows(p.pixels)
  }

  // Reading.

  /** How much of s fgets reads: up to a newline, the end or the size of the buffer. */
  function LineLength(s: string, room: nat): (n: nat)
    ensures n <= |s| && n <= room
    ensures s != [] && room > 0 ==> n > 0
    ensures forall i | 0 <= i < n - 1 :: s[i] != '\n'
    ensures n < |s| && n < room ==> n > 0 && s[n - 1] == '\n'
  {
    if s == [] || room == 0 then 0 else if s[0] == '\n' then 1 else 1 + LineLength(s[1..], room - 1)
  }

  function Line(s: string): (line: string)
    ensures line <= s && |line| <= 2047
    ensures |line| < 2047 && line != s ==> line != "" && line[|line| - 1] == '\n'
  {
    s[..LineLength(s, LINE_MAX - 1)]
  }

  function AfterLine(s: string): (rest: string)
    ensures s != [] ==> |rest| < |s|
  {
    s[LineLength(s, LINE_MAX - 1)..]
  }

  /** A conversion that fails leaves the variable as it was. */
  function Assigned(r: Scanned, before: int): int {
    if r.Number? then r.value else before
  }

  /** sscanf with "%d %d": the second number is read only after the first. */
  function SizeFrom(line: string, width: int, height: int): (int, int) {
    var first := Scan(line);
    if first.NoNumber? then (width, height) else (first.value, Assigned(Scan(first.rest), height))
  }

  /** With one number in the line, the height stays as it was; with none, the width as well. */
  lemma SizeOfOne(n: nat, width: int, height: int)
    ensures SizeFrom(Print(n) + "\n", width, height) == (n, height)
    ensures SizeFrom("\n", width, height) == (width, height)
  {
    ScansPrinted(n, "\n");
  }

  datatype Header = BadHeader | Header(width: int, height: int, rest: string)

  /** The loop over the header lines after the first. A third line that is no number counts as a wrong maximum. */
  function ReadHeader(s: string, sized: bool, width: int, height: int): Header
    decreases |s|
  {
    if s == [] then Header(width, height, s)
    else
      var line, rest := Line(s), AfterLine(s);
      if line[0] == '#' then ReadHeader(rest, sized, width, height)
      else if !sized then ReadHeader(rest, true, SizeFrom(line, width, height).0, SizeFrom(line, width, height).1)
      else if Assigned(Scan(line), 0) != 255 then BadHeader
      else Header(width, height, rest)
  }

  /** n conversions of fscanf; one that fails leaves the file and the variable where they were. */
  function ReadPixels(s: string, n: nat, last: int): (r: (seq<int>, string, int))
    ensures |r.0| == n
  {
    if n == 0 then ([], s, last)
    else
      var before := ReadPixels(s, n - 1, last);
      var scanned := Scan(before.1);
      var pixel := Assigned(scanned, before.2);
      (before.0 + [pixel], if scanned.Number? then scanned.rest else before.1, pixel)
  }

  /** Behind the last number of a file, the pixels repeat it. */
  lemma {:induction false} EndRepeats(s: string, n: nat, last: int)
    requires Scan(s).NoNumber?
    ensures var r := ReadPixels(s, n, last);
      (forall i | 0 <= i < n :: r.0[i] == last) && r.1 == s && r.2 == last
  {
    if n > 0 {
      EndRepeats(s, n - 1, last);
    }
  }

  function ReadRows(s: string, height: nat, width: nat, last: int): (r: (Image, string, int))
    ensures |r.0| == height && forall i | 0 <= i < height :: |r.0[i]| == width
  {
    if height == 0 then ([], s, last)
    else
      var before := ReadRows(s, height - 1, width, last);
      var row := ReadPixels(before.1, width, before.2);
      (before.0 + [row.0], row.1, row.2)
  }

  /** load_picture, with the value 0 for a pixel that is never read. */
  function Load(s: string): Loaded {
    if s == [] then Failed
    else
      match ReadHeader(AfterLine(s), false, 0, 0)
      case BadHeader => Failed
      case Header(width, height, rest) =>
        if width < 0 || height < 0 then Failed
        else Loaded(Picture(width, height, ReadRows(rest, height, width, 0).0))
  }

  // The round trip.

  ghost predicate Sound(p: Picture) {
    && 0 <= p.width < INT_LIMIT && 0 <= p.height < INT_LIMIT
    && Rectangular(p.pixels, p.height, p.width) && Grey(p.pixels)
  }

  lemma {:induction false} LineEnds(x: string, rest: string, room: nat)
    requires (forall i | 0 <= i < |x| :: x[i] != '\n') && |x| < room
    ensures LineLength(x + "\n" + rest, room) == |x| + 1
  {
    var s := x + "\n" + rest;
    if x != [] {
      assert s[1..] == x[1..] + "\n" + rest;
      LineEnds(x[1..], rest, room - 1);
    }
  }

  lemma TakesLine(x: string, rest: string)
    requires (forall i | 0 <= i < |x| :: x[i] != '\n') && |x| < LINE_MAX - 1
    ensures Line(x + "\n" + rest) == x + "\n" && AfterLine(x + "\n" + rest) == rest
  {
    LineEnds(x, rest, LINE_MAX - 1);
  }

  lemma SizeShort(n: int)
    requires 0 <= n < INT_LIMIT
    ensures |Print(n)| <= 10
  {
    assert Pow10(5) == 100000;
    assert Pow10(10) == 10000000000 by {
      assert Pow10(7) == 100 * Pow10(5);
      assert Pow10(9) == 100 * Pow10(7);
    }
    DigitsShort(n, 10);
  }

  lemma ReadsSize(p: Picture)
    requires Sound(p)
    ensures SizeFrom(Print(p.width) + " " + Print(p.height) + "\n", 0, 0) == (p.width, p.height)
  {
    var line := Print(p.width) + " " + Print(p.height) + "\n";
    assert line == Digits(p.width) + (" " + (Digits(p.height) + "\n"));
    ScansPrinted(p.width, " " + (Digits(p.height) + "\n"));
    ScansAfterSpace(' ', Digits(p.height) + "\n");
    ScansPrinted(p.height, "\n");
  }

  /** Comments are passed over wherever they stand in the header. */
  lemma CommentPassedOver(comment: string, rest: string, sized: bool, width: int, height: int)
    requires comment != "" && comment[0] == '#'
    requires (forall i | 0 <= i < |comment| :: comment[i] != '\n') && |comment| < LINE_MAX - 1
    ensures var s := comment + "\n" + rest;
      s != [] && ReadHeader(s, sized, width, height) == ReadHeader(rest, sized, width, height)
  {
    TakesLine(comment, rest);
  }

  lemma SizeLineRead(p: Picture, rest: string)
    requires Sound(p)
    ensures var s := (Print(p.width) + " " + Print(p.height)) + "\n" + rest;
      s != [] && ReadHeader(s, false, 0, 0) == ReadHeader(rest, true, p.width, p.height)
  {
    var size := Print(p.width) + " " + Print(p.height);
    SizeShort(p.width);
    SizeShort(p.height);
    TakesLine(size, rest);
    ReadsSize(p);
    assert (size + "\n")[0] == Digits(p.width)[0];
  }

  lemma MaximumLineRead(width: int, height: int, maximum: int, rest: string)
    requires 0 <= maximum < INT_LIMIT
    ensures var s := Print(maximum) + "\n" + rest;
      s != [] &&
      ReadHeader(s, true, width, height) == if maximum == 255 then Header(width, height, rest) else BadHeader
  {
    SizeShort(maximum);
    TakesLine(Print(maximum), rest);
    ScansPrinted(maximum, "\n");
    assert (Print(maximum) + "\n")[0] == Digits(maximum)[0];
  }

  /** A picture with any number for the greatest grey, and its magic number and comment as they are written. */
  function WithMaximum(p: Picture, maximum: int): string {
    "P2" + "\n" + ("# Processed picture" + "\n"
      + (Print(p.width) + " " + Print(p.height) + "\n" + (Print(maximum) + "\n" + PrintRows(p.pixels))))
  }

  /** The header is read as it is printed if the number is 255; any other number is refused. */
  lemma ReadsHeaderWith(p: Picture, maximum: int)
    requires Sound(p) && 0 <= maximum < INT_LIMIT
    ensures WithMaximum(p, maximum) != []
    ensures ReadHeader(AfterLine(WithMaximum(p, maximum)), false, 0, 0) ==
            if maximum == 255 then Header(p.width, p.height, PrintRows(p.pixels)) else BadHeader
  {
    var body := PrintRows(p.pixels);
    var t3 := Print(maximum) + "\n" + body;
    var t2 := (Print(p.width) + " " + Print(p.height)) + "\n" + t3;
    var t1 := "# Processed picture" + "\n" + t2;
    TakesLine("P2", t1);
    CommentPassedOver("# Processed picture", t2, false, 0, 0);
    SizeLineRead(p, t3);
    MaximumLineRead(p.width, p.height, maximum, body);
  }

  /** What is written is a picture of the format P2, with 255 for the greatest grey. */
  lemma PrintsMaximum(p: Picture)
    ensures PrintPicture(p) == WithMaximum(p, 255)
    ensures PrintPicture(p)[..3] == "P2\n"
  {
    PrintsGreatest();
    GroupsHeader("P2\n", "# Processed picture\n", Print(p.width), " ", Print(p.height), "\n", "255\n",
                 PrintRows(p.pixels));
  }

  lemma PrintsGreatest()
    ensures Print(255) + "\n" == "255\n" && "P2" + "\n" == "P2\n"
    ensures "# Processed picture" + "\n" == "# Processed picture\n"
  {
    assert Digits(2) == "2" && Digits(25) == "25" && Print(255) == "255";
  }

  lemma GroupsHeader(a: string, b: string, w: string, x: string, h: string, y: string, m: string, body: string)
    ensures a + b + w + x + h + y + m + body == a + (b + (w + x + h + y + (m + body)))
    ensures (a + b + w + x + h + y + m + body)[..|a|] == a
  {
    var size := w + x + h + y;
    GroupsSize(a + b, w, x, h, y);
    Regroup(a + b + size, m, body);
    Regroup(a + b, size, m + body);
    Regroup(a, b, size + (m + body));
  }

  lemma GroupsSize(a: string, w: string, x: string, h: string, y: string)
    ensures a + w + x + h + y == a + (w + x + h + y)
  {
    Regroup(a, w, x);
    Regroup(a, w + x, h);
    Regroup(a, w + x + h, y);
  }

  /** A line with its end, and no other. */
  predicate OneLine(s: string) {
    s != "" && s[|s| - 1] == '\n' && forall i | 0 <= i < |s| - 1 :: s[i] != '\n'
  }

  lemma OneLineBehind(head: string, tail: string)
    requires (forall i | 0 <= i < |head| :: head[i] != '\n') && OneLine(tail)
    ensures OneLine(head + tail)
  {
  }

  lemma PixelInLine(n: int)
    ensures forall i | 0 <= i < |Print(n) + " "| :: (Print(n) + " ")[i] != '\n'
  {
    assert forall i | 0 <= i < |Print(n)| :: Print(n)[i] == '-' || IsDigit(Print(n)[i]);
  }

  /** Each row is printed as one line. */
  lemma {:induction false} RowIsLine(row: seq<int>)
    ensures OneLine(PrintRow(row))
  {
    if row != [] {
      RowIsLine(row[1..]);
      PixelInLine(row[0]);
      OneLineBehind(Print(row[0]) + " ", PrintRow(row[1..]));
    }
  }

  /** A file may end with its first line or with its sizes; what it does not tell is taken as zero. */
  lemma HeaderMayEnd(magic: string, p: Picture)
    requires (forall i | 0 <= i < |magic| :: magic[i] != '\n') && |magic| < LINE_MAX - 1 && Sound(p)
    ensures Load(magic + "\n") == Loaded(Picture(0, 0, []))
    ensures ReadHeader((Print(p.width) + " " + Print(p.height)) + "\n", false, 0, 0) == Header(p.width, p.height, "")
    ensures Load("") == Failed
  {
    TakesLine(magic, "");
    assert magic + "\n" + "" == magic + "\n";
    var size := Print(p.width) + " " + Print(p.height);
    SizeLineRead(p, "");
    assert size + "\n" + "" == size + "\n";
  }

  /** The header that is printed is the header that is read. */
  lemma ReadsPrintedHeader(p: Picture)
    requires Sound(p)
    ensures PrintPicture(p) != []
    ensures ReadHeader(AfterLine(PrintPicture(p)), false, 0, 0) == Header(p.width, p.height, PrintRows(p.pixels))
  {
    PrintsMaximum(p);
    ReadsHeaderWith(p, 255);
  }

  predicate Spaces(s: string) {
    forall i | 0 <= i < |s| :: IsSpace(s[i])
  }

  lemma {:induction false} ScansAfterSpaces(lead: string, s: string)
    requires Spaces(lead)
    ensures Scan(lead + s) == Scan(s)
  {
    if lead == [] {
      assert lead + s == s;
    } else {
      assert lead + s == [lead[0]] + (lead[1..] + s);
      ScansAfterSpace(lead[0], lead[1..] + s);
      ScansAfterSpaces(lead[1..], s);
    }
  }

  lemma PrintRowSplit(row: seq<int>, n: nat)
    requires n < |row|
    ensures PrintRow(row[n..]) == Print(row[n]) + " " + PrintRow(row[n + 1..])
  {
    assert row[n..][0] == row[n] && row[n..][1..] == row[n + 1..];
  }

  lemma RegroupPixel(lead: string, digits: string, row: string, rest: string)
    ensures lead + (digits + " " + row) + rest == lead + (digits + (" " + row + rest))
  {
    Regroup(lead, digits + " " + row, rest);
    Regroup(digits, " ", row);
    Regroup(digits, " " + row, rest);
  }

  /** The next pixel of a printed row. */
  lemma ScansPixel(lead: string, row: seq<int>, rest: string, n: nat)
    requires Spaces(lead) && n < |row| && row[n] >= 0
    ensures Scan(lead + PrintRow(row[n..]) + rest) == Number(row[n], " " + PrintRow(row[n + 1..]) + rest)
  {
    var tail := " " + PrintRow(row[n + 1..]) + rest;
    PrintRowSplit(row, n);
    RegroupPixel(lead, Digits(row[n]), PrintRow(row[n + 1..]), rest);
    ScansAfterSpaces(lead, Digits(row[n]) + tail);
    ScansPrinted(row[n], tail);
  }

  lemma OneMorePixel(s: string, lead: string, row: seq<int>, rest: string, n: nat, last: int)
    requires Spaces(lead) && n < |row| && row[n] >= 0
    requires ReadPixels(s, n, last).0 == row[..n] && ReadPixels(s, n, last).1 == lead + PrintRow(row[n..]) + rest
    ensures ReadPixels(s, n + 1, last).0 == row[..n + 1]
    ensures ReadPixels(s, n + 1, last).1 == " " + PrintRow(row[n + 1..]) + rest
  {
    ScansPixel(lead, row, rest, n);
    PixelRead(s, n, last, row[n], " " + PrintRow(row[n + 1..]) + rest);
  }

  /** The first n pixels of a printed row. */
  lemma {:induction false} ReadsPixels(s: string, lead: string, row: seq<int>, rest: string, n: nat, last: int)
    requires Spaces(lead) && n <= |row| && forall i | 0 <= i < |row| :: row[i] >= 0
    requires s == lead + PrintRow(row) + rest
    ensures ReadPixels(s, n, last).0 == row[..n]
    ensures ReadPixels(s, n, last).1 == (if n == 0 then lead else " ") + PrintRow(row[n..]) + rest
  {
    if n == 0 {
      assert row[0..] == row;
    } else {
      ReadsPixels(s, lead, row, rest, n - 1, last);
      OneMorePixel(s, if n == 1 then lead else " ", row, rest, n - 1, last);
    }
  }

  lemma PixelRead(s: string, n: nat, last: int, pixel: int, rest: string)
    requires Scan(ReadPixels(s, n, last).1) == Number(pixel, rest)
    ensures ReadPixels(s, n + 1, last).0 == ReadPixels(s, n, last).0 + [pixel]
    ensures ReadPixels(s, n + 1, last).1 == rest
  {
  }

  lemma ReadsRow(lead: string, row: seq<int>, rest: string, last: int) returns (lead': string)
    requires Spaces(lead) && forall i | 0 <= i < |row| :: row[i] >= 0
    ensures Spaces(lead')
    ensures var r := ReadPixels(lead + PrintRow(row) + rest, |row|, last);
      r.0 == row && r.1 == lead' + rest
  {
    ReadsPixels(lead + PrintRow(row) + rest, lead, row, rest, |row|, last);
    assert row[|row|..] == [] && row[..|row|] == row;
    lead' := (if row == [] then lead else " ") + "\n";
    assert (if row == [] then lead else " ") + PrintRow([]) + rest == lead' + rest;
  }

  lemma PrintRowsSplit(rows: Image, n: nat)
    requires n < |rows|
    ensures PrintRows(rows[n..]) == PrintRow(rows[n]) + PrintRows(rows[n + 1..])
  {
    assert rows[n..][0] == rows[n] && rows[n..][1..] == rows[n + 1..];
  }

  lemma ReadsOneMore(s: string, n: nat, before: string, row: seq<int>, rest: string) returns (lead: string)
    requires Spaces(before) && forall i | 0 <= i < |row| :: row[i] >= 0
    requires ReadRows(s, n, |row|, 0).1 == before + PrintRow(row) + rest
    ensures Spaces(lead)
    ensures ReadRows(s, n + 1, |row|, 0).0 == ReadRows(s, n, |row|, 0).0 + [row]
    ensures ReadRows(s, n + 1, |row|, 0).1 == lead + rest
  {
    lead := ReadsRow(before, row, rest, ReadRows(s, n, |row|, 0).2);
  }

  lemma RowsSplit(before: string, rows: Image, n: nat)
    requires n < |rows|
    ensures before + PrintRows(rows[n..]) == before + PrintRow(rows[n]) + PrintRows(rows[n + 1..])
    ensures rows[..n + 1] == rows[..n] + [rows[n]]
  {
    PrintRowsSplit(rows, n);
  }

  /** The first n rows of a printed picture. */
  lemma {:induction false} ReadsRows(rows: Image, width: nat, n: nat) returns (lead: string)
    requires Rectangular(rows, |rows|, width) && Grey(rows) && n <= |rows|
    ensures Spaces(lead)
    ensures ReadRows(PrintRows(rows), n, width, 0).0 == rows[..n]
    ensures ReadRows(PrintRows(rows), n, width, 0).1 == lead + PrintRows(rows[n..])
  {
    if n == 0 {
      lead := "";
      assert rows[0..] == rows && lead + PrintRows(rows) == PrintRows(rows);
    } else {
      var before := ReadsRows(rows, width, n - 1);
      RowsSplit(before, rows, n - 1);
      lead := ReadsOneMore(PrintRows(rows), n - 1, before, rows[n - 1], PrintRows(rows[n..]));
    }
  }

  /** Loading what has been saved gives back the width, the height and every pixel. */
  lemma LoadsSaved(p: Picture)
    requires Sound(p)
    ensures Load(PrintPicture(p)) == Loaded(p)
  {
    ReadsPrintedHeader(p);
    var _ := ReadsRows(p.pixels, p.width, p.height);
    assert p.pixels[..p.height] == p.pixels;
  }

  /** The whole program: load, invert, save. */
  function Process(s: string): string {
    match Load(s)
    case Failed => ""
    case Loaded(p) => PrintPicture(p.(pixels := Invert(p.pixels)))
  }

  lemma InvertSound(p: Picture)
    requires Sound(p)
    ensures Sound(p.(pixels := Invert(p.pixels)))
    ensures Invert(Invert(p.pixels)) == p.pixels
  {
    forall r | 0 <= r < p.height
      ensures Invert(Invert(p.pixels))[r] == p.pixels[r]
    {
    }
  }

  /** Two runs of the program on any file that can be loaded give its picture back, and print it as it is saved. */
  lemma TwiceIsIdentity(s: string, p: Picture)
    requires Load(s) == Loaded(p) && Sound(p)
    ensures Load(Process(Process(s))) == Loaded(p)
    ensures Process(Process(s)) == PrintPicture(p)
  {
    InvertSound(p);
    LoadsSaved(p.(pixels := Invert(p.pixels)));
    LoadsSaved(p);
  }
}
