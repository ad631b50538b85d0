/** The text in which the messages of the chat travel. */
module Codec {
  import opened Decimal

  const INT_MAX := 0x7FFF_FFFF
  const INT_MIN := -0x8000_0000
  const LONG_MAX := 0x7FFF_FFFF_FFFF_FFFF
  const LONG_MIN := -0x8000_0000_0000_0000

  datatype Option<T> = None | Some(value: T)

  /** The fields mType and time are of the type long, sender and receiver of the type int. */
  datatype Message = Message(mType: int, text: string, sender: int, receiver: int, time: int)

  predicate WellTyped(m: Message) {
    && LONG_MIN <= m.mType <= LONG_MAX
    && INT_MIN <= m.sender <= INT_MAX
    && INT_MIN <= m.receiver <= INT_MAX
    && LONG_MIN <= m.time <= LONG_MAX
    && NoNul(m.text)
  }

  predicate NoNul(s: string) {
    forall i | 0 <= i < |s| :: s[i] != '\0'
  }

  /** An empty text is passed on as NULL, which %s prints in brackets. */
  function TextOf(m: Message): string {
    if m.text == "" then "(null)" else m.text
  }

  function Ending(m: Message): string {
    Print(m.sender) + "-" + (Print(m.receiver) + "-" + Print(m.time))
  }

  function Encode(m: Message): string {
    Print(m.mType) + "-" + (TextOf(m) + "-" + Ending(m))
  }

  /** The type, the text, the sender, the receiver and the time, in this order, with dashes in between. */
  lemma EncodeIs(m: Message)
    ensures m.text != "" ==>
              Encode(m) == Print(m.mType) + "-" + m.text + "-" + Print(m.sender) + "-" + Print(m.receiver)
                           + "-" + Print(m.time)
    ensures m.text == "" ==> Encode(m) == Encode(m.(text := "(null)"))
  {
    var ids := Print(m.receiver) + "-" + Print(m.time);
    Regroup(Print(m.sender) + "-", Print(m.receiver) + "-", Print(m.time));
    Regroup(TextOf(m) + "-", Print(m.sender) + "-", ids);
    Regroup(Print(m.mType) + "-", TextOf(m) + "-", Ending(m));
  }

  // strtok_r with the delimiter "-".

  datatype Token = NoToken | Token(token: string, rest: string)

  function SkipDashes(s: string): (t: string)
    ensures |t| <= |s| && (t != "" ==> t[0] != '-')
  {
    if s != "" && s[0] == '-' then SkipDashes(s[1..]) else s
  }

  function UpToDash(s: string): (t: string)
    ensures |t| <= |s| && '-' !in t
  {
    if s == "" || s[0] == '-' then "" else [s[0]] + UpToDash(s[1..])
  }

  function Strtok(s: string): (r: Token)
    ensures r.Token? ==> r.token != "" && '-' !in r.token && |r.rest| < |s|
  {
    var t := SkipDashes(s);
    if t == "" then NoToken
    else
      var token := UpToDash(t);
      assert token != "";
      Token(token, if |token| < |t| then t[|token| + 1..] else "")
  }

  /** strtol in base ten: out of range, it gives the nearest number there is and sets errno. */
  function Strtol(s: string, errno: bool): Numeral {
    match Scan(s)
    case NoNumber => Numeral(0, errno)
    case Number(n, _) => Bounded(n, errno)
  }

  datatype Numeral = Numeral(number: int, errno: bool)

  function Bounded(n: int, errno: bool): Numeral {
    if n > LONG_MAX then Numeral(LONG_MAX, true)
    else if n < LONG_MIN then Numeral(LONG_MIN, true)
    else Numeral(n, errno)
  }

  /** A number as the type int keeps it. */
  function ToInt(n: int): (i: int)
    ensures INT_MIN <= i <= INT_MAX
    ensures INT_MIN <= n <= INT_MAX ==> i == n
    ensures (n - i) % 0x1_0000_0000 == 0
  {
    (n - INT_MIN) % 0x1_0000_0000 + INT_MIN
  }

  predicate Dashes(s: string) {
    forall i | 0 <= i < |s| :: s[i] == '-'
  }

  lemma NoTokenIff(s: string)
    ensures Strtok(s).NoToken? <==> Dashes(s)
  {
    var dashes := LeadingDashes(s);
    var t := SkipDashes(s);
    assert t != "" ==> s[|dashes|] == t[0];
  }

  /** t begins with a token, behind which is a dash and then rest, or nothing. */
  predicate Cut(t: string, token: string, rest: string) {
    t == token + "-" + rest || (t == token && rest == "")
  }

  /** A token is the first run of characters other than dashes; the dash behind it is dropped. */
  lemma StrtokIs(s: string) returns (dashes: string, t: string)
    ensures s == dashes + t && Dashes(dashes)
    ensures Strtok(s).NoToken? <==> Dashes(s)
    ensures Strtok(s).Token? ==> Cut(t, Strtok(s).token, Strtok(s).rest)
  {
    NoTokenIff(s);
    dashes := LeadingDashes(s);
    t := SkipDashes(s);
    if t != "" {
      CutAtDash(t);
    }
  }

  lemma CutAtDash(t: string)
    ensures var token := UpToDash(t); Cut(t, token, if |token| < |t| then t[|token| + 1..] else "")
  {
    var token := UpToDash(t);
    var behind := AfterToken(t);
    if behind != "" {
      assert behind == "-" + behind[1..];
      assert t[|token| + 1..] == behind[1..];
    }
  }

  lemma {:induction false} LeadingDashes(s: string) returns (dashes: string)
    ensures s == dashes + SkipDashes(s) && Dashes(dashes)
  {
    if s != "" && s[0] == '-' {
      dashes := LeadingDashes(s[1..]);
      dashes := "-" + dashes;
    } else {
      dashes := "";
    }
  }

  lemma {:induction false} AfterToken(t: string) returns (behind: string)
    ensures t == UpToDash(t) + behind && (behind == "" || behind[0] == '-')
  {
    if t == "" || t[0] == '-' {
      behind := t;
    } else {
      behind := AfterToken(t[1..]);
    }
  }

  // The parser. What it does with the part of the message that is still to be read:

  datatype Long = Long(number: int, rest: string, errno: bool)

  function ParseLong(s: string, errno: bool): Long {
    match Strtok(s)
    case NoToken => Long(-1, s, errno)
    case Token(token, rest) =>
      var n := Strtol(token, errno);
      Long(if n.number == 0 && n.errno then -1 else n.number, rest, n.errno)
  }

  datatype Parsed = Parsed(message: Option<Message>, errno: bool)

  function Parse(s: string, errno: bool): Parsed {
    var a := ParseLong(s, errno);
    if ToInt(a.number) == -1 then Parsed(None, a.errno)
    else
      match Strtok(a.rest)
      case NoToken => Parsed(None, a.errno)
      case Token(text, rest) => ParseSender(Message(ToInt(a.number), text, 0, 0, 0), rest, a.errno)
  }

  /** The rest of the message m. */
  function ParseSender(m: Message, s: string, errno: bool): (r: Parsed)
    ensures r.message.Some? ==> r.message.value == m.(sender := r.message.value.sender,
              receiver := r.message.value.receiver, time := r.message.value.time)
  {
    var b := ParseLong(s, errno);
    if ToInt(b.number) == -1 then Parsed(None, b.errno)
    else ParseReceiver(m.(sender := ToInt(b.number)), b.rest, b.errno)
  }

  function ParseReceiver(m: Message, s: string, errno: bool): (r: Parsed)
    ensures r.message.Some? ==>
              r.message.value == m.(receiver := r.message.value.receiver, time := r.message.value.time)
  {
    var c := ParseLong(s, errno);
    if ToInt(c.number) == -1 then Parsed(None, c.errno)
    else ParseTime(m.(receiver := ToInt(c.number)), c.rest, c.errno)
  }

  function ParseTime(m: Message, s: string, errno: bool): (r: Parsed)
    ensures r.message.Some? ==> r.message.value == m.(time := r.message.value.time)
  {
    var d := ParseLong(s, errno);
    if d.number == -1 then Parsed(None, d.errno)
    else Parsed(Some(m.(time := d.number)), d.errno)
  }

  // What is parsed of what was printed.

  function Abs(n: int): nat {
    if n < 0 then -n else n
  }

  lemma {:induction false} UpToDashStops(s: string, rest: string)
    requires '-' !in s && (rest == "" || rest[0] == '-')
    ensures UpToDash(s + rest) == s
  {
    if s == "" {
      assert s + rest == rest;
    } else {
      assert (s + rest)[1..] == s[1..] + rest;
      UpToDashStops(s[1..], rest);
    }
  }

  /** Text without dashes is one token. */
  lemma TokenThenDash(s: string, rest: string)
    requires s != "" && '-' !in s
    ensures Strtok(s + "-" + rest) == Token(s, rest)
    ensures Strtok("-" + (s + "-" + rest)) == Token(s, rest)
  {
    var t := s + "-" + rest;
    assert t[0] == s[0];
    FirstToken(t, s, rest);
    SkipsDash(t);
  }

  lemma SkipsDash(t: string)
    ensures Strtok("-" + t) == Strtok(t)
  {
    assert ("-" + t)[1..] == t;
    assert SkipDashes("-" + t) == SkipDashes(t);
  }

  lemma FirstToken(t: string, s: string, rest: string)
    requires s != "" && '-' !in s && t == s + "-" + rest
    ensures Strtok(t) == Token(s, rest)
  {
    assert t[0] == s[0];
    assert s[0] in s;
    assert t == s + ("-" + rest);
    UpToDashStops(s, "-" + rest);
    assert t[|s| + 1..] == rest;
  }

  lemma LastToken(s: string)
    requires s != "" && '-' !in s
    ensures Strtok(s) == Token(s, "")
    ensures Strtok("-" + s) == Token(s, "")
  {
    assert s + "" == s;
    assert SkipDashes(s) == s;
    UpToDashStops(s, "");
    SkipsDash(s);
  }

  lemma StrtolDigits(n: nat, errno: bool)
    ensures Strtol(Digits(n), errno) == Bounded(n, errno)
  {
    ScansPrinted(n, "");
    assert Digits(n) + "" == Digits(n);
  }

  /** Strings of digits that no long can be give the greatest one and an error; without digits there is no error. */
  lemma StrtolLimits(n: nat, s: string, errno: bool)
    requires n > 0x7FFF_FFFF_FFFF_FFFF && Scan(s).NoNumber?
    ensures Strtol(Digits(n), errno) == Numeral(0x7FFF_FFFF_FFFF_FFFF, true)
    ensures Strtol("-" + Digits(n + 1), errno) == Numeral(-0x8000_0000_0000_0000, true)
    ensures Strtol(s, errno) == Numeral(0, errno)
  {
    StrtolDigits(n, errno);
    ScansBehindSign("-", n + 1, "");
    assert "-" + Digits(n + 1) + "" == "-" + Digits(n + 1);
  }

  /** What parse_long makes of a number: its sign is lost, and zero is not told from an error that was there before. */
  function Reread(n: int, rest: string, errno: bool): Long {
    if n == 0 && errno then Long(-1, rest, true)
    else Long(Bounded(Abs(n), errno).number, rest, Bounded(Abs(n), errno).errno)
  }

  lemma ParsesToken(s: string, n: int, rest: string, errno: bool)
    requires Strtok(s) == Token(Digits(Abs(n)), rest)
    ensures ParseLong(s, errno) == Reread(n, rest, errno)
  {
    StrtolDigits(Abs(n), errno);
  }

  lemma PrintedToken(n: int, rest: string)
    ensures Strtok(Print(n) + "-" + rest) == Token(Digits(Abs(n)), rest)
  {
    var digits := Digits(Abs(n));
    assert '-' !in digits;
    TokenThenDash(digits, rest);
    if n < 0 {
      Regroup("-", digits, "-");
      Regroup("-", digits + "-", rest);
    }
  }

  lemma ParsesPrinted(n: int, rest: string, errno: bool)
    ensures ParseLong(Print(n) + "-" + rest, errno) == Reread(n, rest, errno)
  {
    PrintedToken(n, rest);
    ParsesToken(Print(n) + "-" + rest, n, rest, errno);
  }

  lemma ParsesLast(n: int, errno: bool)
    ensures ParseLong(Print(n), errno) == Reread(n, "", errno)
  {
    var digits := Digits(Abs(n));
    assert '-' !in digits;
    LastToken(digits);
    ParsesToken(Print(n), n, "", errno);
  }

  /** A number that is the same after its sign was lost and the type int kept it. */
  predicate Survives(n: int) {
    0 <= n <= INT_MAX || n == INT_MIN
  }

  lemma AbsWraps(n: int)
    requires INT_MIN <= n <= INT_MAX
    ensures ToInt(Abs(n)) == if n == INT_MIN then n else Abs(n)
  {
  }

  /** What a field of the type int is read back as. */
  lemma IntRead(n: int, rest: string, errno: bool)
    requires INT_MIN <= n <= INT_MAX
    ensures var r := ParseLong(Print(n) + "-" + rest, errno);
            && r.rest == rest && r.errno == errno
            && (ToInt(r.number) == -1 <==> n == 0 && errno)
            && (ToInt(r.number) == n <==> Survives(n) && (errno ==> n != 0))
  {
    ParsesPrinted(n, rest, errno);
    AbsWraps(n);
  }

  /** The same of the type, which is a long that is taken for an int. */
  lemma TypeRead(n: int, rest: string, errno: bool)
    requires LONG_MIN <= n <= LONG_MAX
    ensures var r := ParseLong(Print(n) + "-" + rest, errno);
            && r.rest == rest
            && (ToInt(r.number) == n <==> Survives(n) && (errno ==> n != 0))
            && (ToInt(r.number) == n ==> ToInt(r.number) != -1 && r.errno == errno)
  {
    ParsesPrinted(n, rest, errno);
    if INT_MIN <= n <= INT_MAX {
      AbsWraps(n);
    }
  }

  /** What a message whose text has no dash arrives as, if it arrives at all. */
  function Arrives(m: Message, errno: bool): Option<Message> {
    if errno && (m.mType == 0 || m.sender == 0 || m.receiver == 0 || m.time == 0) then None
    else if m.mType == LONG_MIN || Abs(m.mType) % 0x1_0000_0000 == 0xFFFF_FFFF then None
    else Some(Message(
      ToInt(Abs(m.mType)), if m.text == "" then "(null)" else m.text, ToInt(Abs(m.sender)), ToInt(Abs(m.receiver)),
      if m.time == LONG_MIN then LONG_MAX else Abs(m.time)))
  }

  /**
   What is parsed of a message that was sent: no sign is kept, an int wraps around, and a zero is
   an error if there was one before.
   */
  lemma ArrivesAs(m: Message, errno: bool)
    requires WellTyped(m) && '-' !in m.text
    ensures Parse(Encode(m), errno).message == Arrives(m, errno)
  {
    BeginArrives(m, errno);
    EndArrives(m, Message(ToInt(Abs(m.mType)), TextOf(m), 0, 0, 0), errno);
  }

  /** A type that makes the parser give up. */
  predicate Refused(n: int, errno: bool) {
    (errno && n == 0) || n == LONG_MIN || Abs(n) % 0x1_0000_0000 == 0xFFFF_FFFF
  }

  lemma BeginArrives(m: Message, errno: bool)
    requires WellTyped(m) && '-' !in m.text
    ensures Parse(Encode(m), errno).message ==
            if Refused(m.mType, errno) then None
            else ParseSender(Message(ToInt(Abs(m.mType)), TextOf(m), 0, 0, 0), Ending(m), errno).message
  {
    var rest := TextOf(m) + "-" + Ending(m);
    Regroup(TextOf(m), "-", Ending(m));
    ParsesPrinted(m.mType, rest, errno);
    TypeArrives(m.mType, rest, errno);
    TokenThenDash(TextOf(m), Ending(m));
  }

  lemma TypeArrives(n: int, rest: string, errno: bool)
    requires LONG_MIN <= n <= LONG_MAX
    ensures var r := Reread(n, rest, errno);
      if Refused(n, errno) then ToInt(r.number) == -1
      else ToInt(r.number) == ToInt(Abs(n)) != -1 && r.errno == errno
  {
  }

  lemma EndArrives(m: Message, p: Message, errno: bool)
    requires WellTyped(m)
    ensures ParseSender(p, Ending(m), errno).message ==
            if errno && (m.sender == 0 || m.receiver == 0 || m.time == 0) then None
            else Some(Message(p.mType, p.text, ToInt(Abs(m.sender)), ToInt(Abs(m.receiver)),
                              if m.time == LONG_MIN then LONG_MAX else Abs(m.time)))
  {
    IntArrives(m.sender, Print(m.receiver) + "-" + Print(m.time), errno);
    IntArrives(m.receiver, Print(m.time), errno);
    TimeArrives(m.time, errno);
  }

  lemma IntArrives(n: int, rest: string, errno: bool)
    requires INT_MIN <= n <= INT_MAX
    ensures var r := ParseLong(Print(n) + "-" + rest, errno);
      && r.rest == rest && r.errno == errno
      && (if errno && n == 0 then ToInt(r.number) == -1 else ToInt(r.number) == ToInt(Abs(n)) != -1)
  {
    ParsesPrinted(n, rest, errno);
    AbsWraps(n);
  }

  lemma TimeArrives(n: int, errno: bool)
    requires LONG_MIN <= n <= LONG_MAX
    ensures ParseLong(Print(n), errno).number ==
            if errno && n == 0 then -1 else if n == LONG_MIN then LONG_MAX else Abs(n)
  {
    ParsesLast(n, errno);
  }

  /** How many tokens there are in a text. */
  function Tokens(s: string): nat
    decreases |s|
  {
    match Strtok(s)
    case NoToken => 0
    case Token(_, rest) => 1 + Tokens(rest)
  }

  /** A text with less than five tokens is no message. */
  lemma TooFewTokens(s: string, errno: bool)
    requires Tokens(s) < 5
    ensures Parse(s, errno).message == None
  {
    var a := ParseLong(s, errno);
    if Tokens(a.rest) < 4 && Strtok(a.rest).Token? {
      TooFewNumbers(Message(ToInt(a.number), Strtok(a.rest).token, 0, 0, 0), Strtok(a.rest).rest, a.errno);
    }
  }

  lemma TooFewNumbers(m: Message, s: string, errno: bool)
    requires Tokens(s) < 3
    ensures ParseSender(m, s, errno).message == None
  {
    var b := ParseLong(s, errno);
    var c := ParseLong(b.rest, b.errno);
    if Strtok(s).Token? {
      assert Tokens(s) == 1 + Tokens(b.rest);
      if Strtok(b.rest).Token? {
        assert Tokens(b.rest) == 1 + Tokens(c.rest);
      }
    }
  }

  /** The time is read back from a buffer in which tail is left behind it. */
  predicate TimeSurvives(n: int, tail: string, errno: bool) {
    var r := ParseLong(Print(n) + tail, errno).number;
    r == n && r != -1
  }

  lemma TimeRead(n: int, errno: bool)
    requires LONG_MIN <= n <= LONG_MAX
    ensures TimeSurvives(n, "", errno) <==> n >= 0 && (errno ==> n != 0)
  {
    ParsesLast(n, errno);
    assert Print(n) + "" == Print(n);
  }

  lemma {:induction false} ReadDigitsGrows(s: string, acc: int)
    requires acc > 0
    ensures ReadDigits(s, acc).0 >= acc
    ensures s != "" && IsDigit(s[0]) ==> ReadDigits(s, acc).0 > acc
  {
    if s != "" && IsDigit(s[0]) {
      ReadDigitsGrows(s[1..], 10 * acc + ValueOf(s[0]));
    }
  }

  /** More digits behind a number make it another one. */
  lemma ScansLonger(n: nat, tail: string)
    requires n > 0
    ensures var r := Scan(Digits(n) + tail);
            r.Number? && r.value >= n && (r.value == n <==> tail == "" || !IsDigit(tail[0]))
  {
    var s := Digits(n) + tail;
    assert IsDigit(s[0]);
    assert SkipSpaces(s) == s;
    ReadsDigits(n, tail);
    assert ReadDigits(s, 0) == ReadDigits(s[1..], ValueOf(s[0]));
    ReadDigitsGrows(tail, n);
  }

  /** What is left behind the time is read as part of it. */
  lemma StaleToken(n: nat, tail: string)
    ensures Strtok(Print(n) + tail).Token? && Strtok(Print(n) + tail).token == Digits(n) + UpToDash(tail)
  {
    var digits, s := Digits(n), Print(n) + tail;
    assert s == digits + tail;
    assert s[0] == digits[0];
    assert SkipDashes(s) == s;
    UpToDashJoins(digits, tail);
  }

  lemma StaleTime(n: nat, tail: string, errno: bool)
    requires 0 < n < LONG_MAX
    ensures TimeSurvives(n, tail, errno) <==> tail == "" || !IsDigit(tail[0])
  {
    var rest := UpToDash(tail);
    StaleToken(n, tail);
    ScansLonger(n, rest);
    assert tail != "" && tail[0] != '-' ==> rest != "" && rest[0] == tail[0];
    assert tail == "" || tail[0] == '-' ==> rest == "";
  }

  /** The greatest time cannot grow. */
  lemma StaleGreatest(tail: string, errno: bool)
    ensures TimeSurvives(LONG_MAX, tail, errno)
  {
    StaleToken(LONG_MAX, tail);
    ScansLonger(LONG_MAX, UpToDash(tail));
  }

  /** A digit other than zero comes before whatever is no digit. */
  predicate OnlyZerosLead(s: string) {
    s == "" || !IsDigit(s[0]) || (s[0] == '0' && OnlyZerosLead(s[1..]))
  }

  lemma {:induction false} ZerosRead(s: string)
    ensures ReadDigits(s, 0).0 >= 0
    ensures ReadDigits(s, 0).0 == 0 <==> OnlyZerosLead(s)
  {
    if s != "" && IsDigit(s[0]) {
      if s[0] == '0' {
        ZerosRead(s[1..]);
      } else {
        ReadDigitsGrows(s[1..], ValueOf(s[0]));
      }
    }
  }

  lemma {:induction false} ZerosUpToDash(s: string)
    ensures OnlyZerosLead(UpToDash(s)) <==> OnlyZerosLead(s)
  {
    if s != "" && s[0] != '-' {
      assert UpToDash(s)[1..] == UpToDash(s[1..]);
      ZerosUpToDash(s[1..]);
    }
  }

  lemma StaleZero(tail: string)
    ensures TimeSurvives(0, tail, false) <==> OnlyZerosLead(tail)
  {
    var rest := UpToDash(tail);
    StaleToken(0, tail);
    ZerosUpToDash(tail);
    ZerosRead(rest);
    var s := Digits(0) + rest;
    assert s[0] == '0' && s[1..] == rest;
    assert SkipSpaces(s) == s;
  }

  /** The time is read back in spite of what is left behind it. */
  predicate TailHarmless(time: int, tail: string) {
    || tail == "" || !IsDigit(tail[0])
    || time == LONG_MAX
    || (time == 0 && OnlyZerosLead(tail))
  }

  lemma {:induction false} UpToDashJoins(s: string, tail: string)
    requires '-' !in s
    ensures UpToDash(s + tail) == s + UpToDash(tail)
  {
    if s == "" {
      assert s + tail == tail;
    } else {
      assert (s + tail)[1..] == s[1..] + tail;
      UpToDashJoins(s[1..], tail);
    }
  }

  /** Whatever is parsed has a text that is not empty and has no dash. */
  lemma ParsedText(s: string, errno: bool)
    ensures var r := Parse(s, errno).message; r.Some? ==> r.value.text != "" && '-' !in r.value.text
  {
  }

  // The same texts with a tail behind them.

  function EndingThen(m: Message, tail: string): string {
    Print(m.sender) + "-" + (Print(m.receiver) + "-" + (Print(m.time) + tail))
  }

  function EncodeThen(m: Message, tail: string): string {
    Print(m.mType) + "-" + (TextOf(m) + "-" + EndingThen(m, tail))
  }

  lemma EncodeJoins(m: Message, tail: string)
    ensures Encode(m) + tail == EncodeThen(m, tail)
  {
    var receiver := Print(m.receiver) + "-" + Print(m.time);
    Regroup(Print(m.receiver) + "-", Print(m.time), tail);
    Regroup(Print(m.sender) + "-", receiver, tail);
    Regroup(TextOf(m) + "-", Ending(m), tail);
    Regroup(Print(m.mType) + "-", TextOf(m) + "-" + Ending(m), tail);
  }

  /** The numbers behind the text, read back. */
  lemma EndsRead(m: Message, p: Message, tail: string, errno: bool)
    requires WellTyped(m) && p.mType == m.mType && p.text == m.text
    ensures ParseSender(p, EndingThen(m, tail), errno).message == Some(m) <==>
            && Survives(m.sender) && Survives(m.receiver) && TimeSurvives(m.time, tail, errno)
            && (errno ==> m.sender != 0 && m.receiver != 0)
  {
    IntRead(m.sender, Print(m.receiver) + "-" + (Print(m.time) + tail), errno);
    IntRead(m.receiver, Print(m.time) + tail, errno);
  }

  /** Which messages are read back as far as their text and their first three numbers go. */
  predicate TravelsToTime(m: Message, errno: bool) {
    && Survives(m.mType) && Survives(m.sender) && Survives(m.receiver)
    && m.text != "" && '-' !in m.text
    && (errno ==> m.mType != 0 && m.sender != 0 && m.receiver != 0)
  }

  lemma RereadIff(m: Message, tail: string, errno: bool)
    requires WellTyped(m)
    ensures Parse(EncodeThen(m, tail), errno).message == Some(m) <==>
            TravelsToTime(m, errno) && TimeSurvives(m.time, tail, errno)
  {
    var s := EncodeThen(m, tail);
    ParsedText(s, errno);
    if m.text != "" && '-' !in m.text {
      var end := EndingThen(m, tail);
      TypeRead(m.mType, m.text + "-" + end, errno);
      TokenThenDash(m.text, end);
      var a := ParseLong(s, errno);
      if ToInt(a.number) == m.mType {
        EndsRead(m, Message(m.mType, m.text, 0, 0, 0), tail, errno);
      }
    }
  }

  /** Which messages arrive as they were sent, the error number of the receiver being set or not. */
  predicate Travels(m: Message, errno: bool) {
    && Survives(m.mType) && Survives(m.sender) && Survives(m.receiver) && m.time >= 0
    && m.text != "" && '-' !in m.text
    && (errno ==> m.mType != 0 && m.sender != 0 && m.receiver != 0 && m.time != 0)
  }

  lemma RoundTripIff(m: Message, errno: bool)
    requires WellTyped(m)
    ensures Parse(Encode(m), errno).message == Some(m) <==> Travels(m, errno)
  {
    RereadIff(m, "", errno);
    TimeRead(m.time, errno);
    EncodeJoins(m, "");
    assert Encode(m) + "" == Encode(m);
  }

  /**
   A message in a buffer that a longer one was in before: it is read back if and only if what
   is left behind it does not begin with a digit, or the time cannot change by more digits.
   */
  lemma StaleTailIff(m: Message, tail: string, errno: bool)
    requires WellTyped(m) && Travels(m, errno)
    ensures Parse(Encode(m) + tail, errno).message == Some(m) <==> TailHarmless(m.time, tail)
  {
    RereadIff(m, tail, errno);
    EncodeJoins(m, tail);
    if m.time == LONG_MAX {
      StaleGreatest(tail, errno);
    } else if m.time == 0 {
      StaleZero(tail);
    } else {
      StaleTime(m.time, tail, errno);
    }
  }
}
