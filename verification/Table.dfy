/** The server's table of clients: slots 2k and 2k+1 are opponents. */
module Table {
  import opened Counting

  const MAX_PLAYERS: int := 20

  datatype Entry = Empty | Client(name: string, fd: int, online: bool)

  function Opponent(i: int): int {
    if i % 2 == 0 then i + 1 else i - 1
  }

  predicate Named(t: seq<Entry>, i: int, name: string) {
    0 <= i < |t| && t[i].Client? && t[i].name == name
  }

  /** A client whose opponent slot is empty. */
  predicate Alone(t: seq<Entry>, i: int) {
    0 <= i < |t| && t[i].Client? && 0 <= Opponent(i) < |t| && t[Opponent(i)].Empty?
  }

  ghost predicate Distinct(t: seq<Entry>) {
    forall i, j | 0 <= i < j < |t| && t[i].Client? && t[j].Client? :: t[i].name != t[j].name
  }

  /** Names are distinct, odd slots have partners, and at most one client is alone. */
  ghost predicate Paired(t: seq<Entry>) {
    && |t| == MAX_PLAYERS
    && Distinct(t)
    && (forall i | 0 <= i < |t| && i % 2 == 1 && t[i].Client? :: t[i - 1].Client?)
    && (forall i, j | Alone(t, i) && Alone(t, j) :: i == j)
  }

  lemma OneOfAName(t: seq<Entry>, i: int, j: int, name: string)
    requires Distinct(t) && Named(t, i, name) && Named(t, j, name)
    ensures i == j
  {
  }

  predicate IsClient(e: Entry) {
    e.Client?
  }

  ghost function Occupied(t: seq<Entry>): nat {
    Count(t, IsClient)
  }

  /**
   What add_client does: refuse a name in use or a full table, complete a pair if there is one to
   complete, else begin one.
   */
  ghost predicate Added(t: seq<Entry>, name: string, fd: int, index: int, t': seq<Entry>) {
    if index == -1 then
      && t' == t
      && ((exists i :: Named(t, i, name)) || (forall i | 0 <= i < |t| :: t[i].Client?))
    else
      && 0 <= index < |t| && t[index].Empty? && t' == t[index := Client(name, fd, true)]
      && (forall i :: !Named(t, i, name))
      && ((index % 2 == 1 && t[index - 1].Client?) ||
          ((forall i | i % 2 == 0 :: !Alone(t, i)) && (forall i | 0 <= i < index :: t[i].Client?)))
  }

  /** remove_client for the client in slot i: its opponent goes with it. */
  function Removed(t: seq<Entry>, i: int): (t': seq<Entry>)
    requires |t| == MAX_PLAYERS && 0 <= i < |t|
    ensures |t'| == |t|
    ensures forall j | 0 <= j < |t| :: t'[j] == if j == i || j == Opponent(i) then Empty else t[j]
  {
    t[i := Empty][Opponent(i) := Empty]
  }

  /** A client that was online and whose opponent slot was empty or online. */
  predicate Survives(t: seq<Entry>, i: int) {
    && 0 <= i < |t| && t[i].Client? && t[i].online
    && (0 <= Opponent(i) < |t| ==> t[Opponent(i)].Client? ==> t[Opponent(i)].online)
  }

  /** What a round of ping leaves: the survivors, each to prove itself anew. */
  function Swept(t: seq<Entry>): (t': seq<Entry>)
    ensures |t'| == |t|
    ensures forall i | 0 <= i < |t| :: t'[i] == if Survives(t, i) then t[i].(online := false) else Empty
  {
    seq(|t|, i requires 0 <= i < |t| => if Survives(t, i) then t[i].(online := false) else Empty)
  }

  function Answered(t: seq<Entry>, i: int): seq<Entry>
    requires 0 <= i < |t| && t[i].Client?
  {
    t[i := t[i].(online := true)]
  }

  lemma EmptyPaired()
    ensures Paired(seq(MAX_PLAYERS, _ => Empty)) && Occupied(seq(MAX_PLAYERS, _ => Empty)) == 0
  {
    CountNone(seq(MAX_PLAYERS, _ => Empty), IsClient);
  }

  /** With paired clients the first free slot after the pairs is an even one. */
  lemma FreshPairIsEven(t: seq<Entry>, index: int)
    requires Paired(t) && 0 <= index < |t| && t[index].Empty?
    requires (forall i | i % 2 == 0 :: !Alone(t, i)) && (forall i | 0 <= i < index :: t[i].Client?)
    ensures index % 2 == 0 && t[index + 1].Empty?
  {
    assert index % 2 == 1 ==> Alone(t, index - 1);
  }

  /** add_client keeps the pairs; an odd index always has an opponent and an even one never does. */
  lemma AddKeepsPairs(t: seq<Entry>, name: string, fd: int, index: int, t': seq<Entry>)
    requires Paired(t) && Added(t, name, fd, index, t')
    ensures Paired(t')
    ensures Occupied(t') == Occupied(t) + (if index == -1 then 0 else 1)
    ensures index != -1 ==> 0 <= Opponent(index) < |t| && (t'[Opponent(index)].Client? <==> index % 2 == 1)
    ensures index != -1 ==> (index % 2 == 1 <==> exists i :: Alone(t, i))
  {
    if index != -1 {
      CountUpdate(t, IsClient, index, Client(name, fd, true));
      if !(index % 2 == 1 && t[index - 1].Client?) {
        FreshPairIsEven(t, index);
      }
      forall i, j | 0 <= i < j < |t'| && t'[i].Client? && t'[j].Client?
        ensures t'[i].name != t'[j].name
      {
        assert !Named(t, i, name) && !Named(t, j, name);
      }
      forall i | Alone(t', i)
        ensures if index % 2 == 1 then Alone(t, i) && i != index - 1 else i == index
      {
        assert i != index && Opponent(i) != index ==> Alone(t, i);
      }
      assert index % 2 == 1 ==> Alone(t, index - 1);
    }
  }

  /** remove_client keeps the pairs. */
  lemma RemoveKeepsPairs(t: seq<Entry>, i: int)
    requires Paired(t) && 0 <= i < |t| && t[i].Client?
    ensures Paired(Removed(t, i))
    ensures Occupied(Removed(t, i)) == Occupied(t) - 1 - (if t[Opponent(i)].Client? then 1 else 0)
  {
    var t' := Removed(t, i);
    CountUpdate(t, IsClient, i, Empty);
    CountUpdate(t[i := Empty], IsClient, Opponent(i), Empty);
    forall j | Alone(t', j)
      ensures Alone(t, j)
    {
    }
  }

  /** A round of ping keeps the pairs. */
  lemma SweepKeepsPairs(t: seq<Entry>)
    requires Paired(t)
    ensures Paired(Swept(t))
  {
    var t' := Swept(t);
    forall j | Alone(t', j)
      ensures Alone(t, j)
    {
      assert Survives(t, j) && !Survives(t, Opponent(j));
      assert Opponent(Opponent(j)) == j;
    }
    forall i | 0 <= i < |t'| && i % 2 == 1 && t'[i].Client?
      ensures t'[i - 1].Client?
    {
      assert Survives(t, i) && Opponent(i) == i - 1 && Opponent(i - 1) == i;
      assert t[i - 1].Client?;
      assert Survives(t, i - 1);
    }
  }

  lemma AnswerKeepsPairs(t: seq<Entry>, i: int)
    requires Paired(t) && 0 <= i < |t| && t[i].Client?
    ensures Paired(Answered(t, i)) && Occupied(Answered(t, i)) == Occupied(t)
  {
    var t' := Answered(t, i);
    CountUpdate(t, IsClient, i, t'[i]);
    forall j | Alone(t', j)
      ensures Alone(t, j)
    {
    }
  }

  // Runs.

  /** The commands `add`, `quit` and `pong`, by slot, and a round of ping. */
  datatype Event = Joins(name: string, fd: int, index: int) | Quits(index: int) | Answers(index: int) | Round

  ghost predicate Step(t: seq<Entry>, e: Event, t': seq<Entry>) {
    match e
    case Joins(name, fd, index) => Added(t, name, fd, index, t')
    case Quits(i) => |t| == MAX_PLAYERS && 0 <= i < |t| && t[i].Client? && t' == Removed(t, i)
    case Answers(i) => 0 <= i < |t| && t[i].Client? && t' == Answered(t, i)
    case Round => t' == Swept(t)
  }

  /** The tables after each of a sequence of events, from the empty one. */
  ghost predicate IsRun(run: seq<seq<Entry>>, events: seq<Event>) {
    && |run| == |events| + 1 && run[0] == seq(MAX_PLAYERS, _ => Empty)
    && forall k | 0 <= k < |events| :: Step(run[k], events[k], run[k + 1])
  }

  /** Through every sequence of commands and rounds of ping the table stays paired. */
  lemma {:induction false} RunsStayPaired(run: seq<seq<Entry>>, events: seq<Event>, k: nat)
    requires IsRun(run, events) && k < |run|
    ensures Paired(run[k])
  {
    if k == 0 {
      EmptyPaired();
    } else {
      RunsStayPaired(run, events, k - 1);
      var t, t' := run[k - 1], run[k];
      assert Step(run[k - 1], events[k - 1], run[k - 1 + 1]);
      match events[k - 1]
      case Joins(name, fd, index) => AddKeepsPairs(t, name, fd, index, t');
      case Quits(i) => RemoveKeepsPairs(t, i);
      case Answers(i) => AnswerKeepsPairs(t, i);
      case Round => SweepKeepsPairs(t);
    }
  }

  /** Whether the client in slot j has joined or answered since the last round of ping. */
  predicate Heard(events: seq<Event>, j: int) {
    events != [] &&
    var before, last := events[..|events| - 1], events[|events| - 1];
    match last
    case Joins(_, _, index) => index == j || Heard(before, j)
    case Answers(index) => index == j || Heard(before, j)
    case Quits(_) => Heard(before, j)
    case Round => false
  }

  /** The flag `online` says whether a client has been heard of since the last round. */
  lemma {:induction false} OnlineIffHeard(run: seq<seq<Entry>>, events: seq<Event>, k: nat, j: nat)
    requires IsRun(run, events) && k < |run| && j < MAX_PLAYERS
    ensures |run[k]| == MAX_PLAYERS && (run[k][j].Client? ==> (run[k][j].online <==> Heard(events[..k], j)))
  {
    RunsStayPaired(run, events, k);
    if k > 0 {
      OnlineIffHeard(run, events, k - 1, j);
      assert Step(run[k - 1], events[k - 1], run[k - 1 + 1]);
      assert events[..k][..k - 1] == events[..k - 1] && events[..k][k - 1] == events[k - 1];
    }
  }

  /** An event that takes the client in slot i off table t, after the events before. */
  predicate Loses(t: seq<Entry>, before: seq<Event>, e: Event, i: nat)
    requires |t| == MAX_PLAYERS && i < |t|
  {
    match e
    case Quits(q) => q == i || q == Opponent(i)
    case Round => !Heard(before, i) || (t[Opponent(i)].Client? && !Heard(before, Opponent(i)))
    case _ => false
  }

  /**
   In every run a client leaves the table exactly when it or its opponent quits, or when at a round of
   ping one of the two has neither joined nor answered since the round before.
   */
  lemma LeavesIff(run: seq<seq<Entry>>, events: seq<Event>, k: nat, i: nat)
    requires IsRun(run, events) && k < |events| && i < MAX_PLAYERS
    ensures |run[k]| == |run[k + 1]| == MAX_PLAYERS
    ensures run[k][i].Client? ==>
              if Loses(run[k], events[..k], events[k], i) then run[k + 1][i] == Empty
              else run[k + 1][i].Client? && run[k + 1][i].name == run[k][i].name && run[k + 1][i].fd == run[k][i].fd
  {
    RunsStayPaired(run, events, k);
    RunsStayPaired(run, events, k + 1);
    OnlineIffHeard(run, events, k, i);
    OnlineIffHeard(run, events, k, Opponent(i));
    assert Step(run[k], events[k], run[k + 1]);
  }

  /** A pair, or a single client, that answers every round and does not quit is never removed. */
  lemma {:induction false} WhoAnswersStays(run: seq<seq<Entry>>, events: seq<Event>, a: nat, b: nat, i: nat)
    requires IsRun(run, events) && a <= b < |run| && i < MAX_PLAYERS && |run[a]| == MAX_PLAYERS && run[a][i].Client?
    requires forall k | a <= k < b && |run[k]| == MAX_PLAYERS :: !Loses(run[k], events[..k], events[k], i)
    ensures |run[b]| == MAX_PLAYERS && run[b][i].Client?
    ensures run[b][i].name == run[a][i].name && run[b][i].fd == run[a][i].fd
  {
    if a < b {
      WhoAnswersStays(run, events, a, b - 1, i);
      LeavesIff(run, events, b - 1, i);
    }
  }

  /** Clients of whom nothing is heard between two rounds are gone after the second. */
  lemma SilentClientsLeave(t: seq<Entry>)
    ensures forall i | 0 <= i < |t| :: Swept(Swept(t))[i] == Empty
  {
  }
}
