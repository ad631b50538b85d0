/** The messages of the chat in character arrays, which the parser consumes in place. */
module Chat {
  import opened CString
  import opened Codec
  import opened Decimal

  const LINE_MAX := 2048

  lemma HoldsTail(a: array<char>, at: nat, s: string)
    requires Holds(a, at, s)
    ensures at < a.Length && (a[at] == '\0' <==> s == "")
    ensures s != "" ==> a[at] == s[0] && Holds(a, at + 1, s[1..])
  {
    if s != "" {
      assert a[at + 0] == s[0];
      forall i | 0 <= i < |s[1..]|
        ensures a[at + 1 + i] == s[1..][i] != '\0'
      {
        assert a[at + (i + 1)] == s[i + 1];
      }
    }
  }

  lemma HoldsHead(a: array<char>, at: nat, s: string, u: string)
    requires Holds(a, at, s + u)
    ensures forall i | 0 <= i < |s| :: a[at + i] == s[i] != '\0'
  {
    assert forall i | 0 <= i < |s| :: (s + u)[i] == s[i];
  }

  /** strcpy of what stands at position from to the front */
  method Shift(a: array<char>, from: nat, ghost s: string)
    requires Holds(a, from, s)
    modifies a
    ensures Holds(a, 0, s)
  {
    var i := 0;
    while a[from + i] != '\0'
      invariant i <= |s| && from + |s| < a.Length && (forall k | 0 <= k < |s| :: s[k] != '\0')
      invariant forall k | 0 <= k < i :: a[k] == s[k]
      invariant forall k | from + i <= k < from + |s| :: a[k] == s[k - from]
      invariant a[from + |s|] == '\0'
      decreases |s| - i
    {
      a[i] := a[from + i];
      i := i + 1;
    }
    a[i] := '\0';
  }

  /** strspn: past the dashes */
  method PastDashes(a: array<char>, ghost s: string) returns (start: nat)
    requires Holds(a, 0, s)
    ensures Holds(a, start, SkipDashes(s))
  {
    start := 0;
    ghost var t := s;
    while a[start] == '-'
      invariant Holds(a, start, t) && SkipDashes(t) == SkipDashes(s)
      decreases |t|
    {
      HoldsTail(a, start, t);
      t := t[1..];
      start := start + 1;
    }
    HoldsTail(a, start, t);
  }

  lemma TokenGoesOn(t: string, token: string, u: string)
    requires t == token + u && UpToDash(t) == token + UpToDash(u) && u != "" && u[0] != '-'
    ensures t == token + [u[0]] + u[1..] && UpToDash(t) == token + [u[0]] + UpToDash(u[1..])
  {
    assert u == [u[0]] + u[1..];
    Regroup(token, [u[0]], u[1..]);
    Regroup(token, [u[0]], UpToDash(u[1..]));
  }

  /** strcspn: to the end of the token that starts here, behind which is u */
  method TokenEnd(a: array<char>, start: nat, ghost t: string) returns (end: nat, ghost u: string)
    requires Holds(a, start, t)
    ensures t == UpToDash(t) + u && (u == "" || u[0] == '-')
    ensures end == start + |UpToDash(t)| && Holds(a, end, u)
  {
    end, u := start, t;
    ghost var token := "";
    while a[end] != '\0' && a[end] != '-'
      invariant Holds(a, end, u) && end == start + |token| && t == token + u
      invariant UpToDash(t) == token + UpToDash(u)
      decreases |u|
    {
      HoldsTail(a, end, u);
      TokenGoesOn(t, token, u);
      token, u := token + [u[0]], u[1..];
      end := end + 1;
    }
    HoldsTail(a, end, u);
  }

  lemma StrtokSplits(s: string, u: string)
    requires SkipDashes(s) != ""
    requires SkipDashes(s) == UpToDash(SkipDashes(s)) + u && (u == "" || u[0] == '-')
    ensures Strtok(s) == Token(UpToDash(SkipDashes(s)), if u == "" then "" else u[1..])
  {
    var t := SkipDashes(s);
    var token := UpToDash(t);
    assert u != "" ==> t[|token| + 1..] == u[1..];
  }

  datatype Found = Null | At(start: nat)

  /** strtok_r, the end of the token being overwritten: where the token is, and what is behind it */
  method StrtokR(a: array<char>, ghost s: string) returns (token: Found, buffer: nat)
    requires Holds(a, 0, s)
    modifies a
    ensures match Strtok(s)
            case NoToken => token == Null && Holds(a, 0, s)
            case Token(text, rest) => token.At? && Holds(a, token.start, text) && Holds(a, buffer, rest)
  {
    var start := PastDashes(a, s);
    ghost var t := SkipDashes(s);
    HoldsTail(a, start, t);
    if a[start] == '\0' {
      return Null, start;
    }
    var end;
    ghost var u;
    end, u := TokenEnd(a, start, t);
    StrtokSplits(s, u);
    HoldsTail(a, end, u);
    HoldsHead(a, start, UpToDash(t), u);
    token, buffer := At(start), end;
    if a[end] != '\0' {
      a[end] := '\0';
      buffer := end + 1;
    }
  }

  class Process {
    /** Whether the error number is not zero. */
    var errno: bool

    constructor ()
      ensures !errno
    {
      errno := false;
    }

    /** parse_long */
    method ParseLong(message: array<char>, ghost s: string) returns (number: int)
      requires Holds(message, 0, s)
      modifies this, message
      ensures var r := Codec.ParseLong(s, old(errno));
              number == r.number && errno == r.errno && Holds(message, 0, r.rest)
    {
      var numberStr, buffer := StrtokR(message, s);
      if numberStr.Null? {
        return -1;
      }
      TextIs(message, numberStr.start, Strtok(s).token);
      var n := Strtol(TextTo(message, numberStr.start), errno);
      number, errno := n.number, n.errno;
      Shift(message, buffer, Strtok(s).rest);
      if number == 0 && errno {
        return -1;
      }
    }

    /** parse_text */
    method ParseText(message: array<char>, ghost s: string) returns (ok: bool, target: string)
      requires Holds(message, 0, s)
      modifies message
      ensures ok == Strtok(s).Token?
      ensures ok ==> target == Strtok(s).token && Holds(message, 0, Strtok(s).rest)
    {
      var newMessage, buffer := StrtokR(message, s);
      if newMessage.Null? {
        return false, "";
      }
      TextIs(message, newMessage.start, Strtok(s).token);
      target := TextTo(message, newMessage.start);
      Shift(message, buffer, Strtok(s).rest);
      ok := true;
    }

    /** parse_message, which works on a copy of the message. */
    method ParseMessage(message: array<char>, ghost s: string) returns (r: Option<Message>)
      requires Holds(message, 0, s) && |s| < LINE_MAX
      modifies this
      ensures Parsed(r, errno) == Parse(s, old(errno))
    {
      var copy := new char[LINE_MAX];
      TextIs(message, 0, s);
      assert forall i | 0 <= i < |s| :: message[0 + i] == s[i];
      Copy(copy, 0, "", Text(message));
      assert "" + s == s;
      var mType := ParseLong(copy, s);
      if ToInt(mType) == -1 {
        return None;
      }
      ghost var a := Codec.ParseLong(s, old(errno));
      var ok, text := ParseText(copy, a.rest);
      if !ok {
        return None;
      }
      var m := Message(ToInt(mType), text, 0, 0, 0);
      r := ParseIds(copy, m, Strtok(a.rest).rest);
    }

    method ParseIds(copy: array<char>, m: Message, ghost s: string) returns (r: Option<Message>)
      requires Holds(copy, 0, s)
      modifies this, copy
      ensures Parsed(r, errno) == ParseSender(m, s, old(errno))
    {
      var sender := ParseLong(copy, s);
      ghost var b := Codec.ParseLong(s, old(errno));
      if ToInt(sender) == -1 {
        return None;
      }
      var receiver := ParseLong(copy, b.rest);
      ghost var c := Codec.ParseLong(b.rest, b.errno);
      if ToInt(receiver) == -1 {
        return None;
      }
      var time := ParseLong(copy, c.rest);
      if time == -1 {
        return None;
      }
      r := Some(m.(sender := ToInt(sender), receiver := ToInt(receiver), time := time));
    }

    /** create_message */
    method CreateMessage(m: Message, msg: array<char>)
      requires NoNul(m.text) && |Encode(m)| < msg.Length && |Encode(m)| < LINE_MAX
      modifies msg
      ensures Holds(msg, 0, Encode(m))
    {
      EncodeHasNoNul(m);
      var newMessage := new char[LINE_MAX];
      Copy(newMessage, 0, "", Encode(m));
      assert "" + Encode(m) == Encode(m);
      TextIs(newMessage, 0, Encode(m));
      Copy(msg, 0, "", Text(newMessage));
    }

    /** A message sent and received whole: it is the same exactly if it is one that travels. */
    method Transmit(m: Message, msg: array<char>) returns (r: Option<Message>)
      requires WellTyped(m) && |Encode(m)| < msg.Length && |Encode(m)| < LINE_MAX
      modifies this, msg
      ensures r == Some(m) <==> Travels(m, old(errno))
      ensures '-' !in m.text ==> r == Arrives(m, old(errno))
    {
      CreateMessage(m, msg);
      r := ParseMessage(msg, Encode(m));
      RoundTripIff(m, old(errno));
      if '-' !in m.text {
        ArrivesAs(m, old(errno));
      }
    }
  }

  lemma EncodeHasNoNul(m: Message)
    requires NoNul(m.text)
    ensures NoNul(Encode(m))
  {
    PrintHasNoNul(m.mType);
    PrintHasNoNul(m.sender);
    PrintHasNoNul(m.receiver);
    PrintHasNoNul(m.time);
    NoNulJoins(m.receiver, Print(m.time));
    NoNulJoins(m.sender, Print(m.receiver) + "-" + Print(m.time));
    assert NoNul(TextOf(m) + "-" + Ending(m));
    NoNulJoins(m.mType, TextOf(m) + "-" + Ending(m));
  }

  lemma PrintHasNoNul(n: int)
    ensures NoNul(Print(n))
  {
  }

  lemma NoNulJoins(n: int, s: string)
    requires NoNul(s)
    ensures NoNul(Print(n) + "-" + s)
  {
    PrintHasNoNul(n);
  }
}
