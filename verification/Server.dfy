/** The server of tic-tac-toe: its table of clients, changed in place, and the messages it sends. */
module Server {
  import opened Counting
  import opened Table

  datatype Message = NameTaken | NoEnemy | YouAreO | YouAreX | MoveTo(pos: int) | Ping

  /** A message and the descriptor it is sent to. */
  datatype Sent = Sent(fd: int, message: Message)

  /** Slot j of table t after the first loop of ping has looked at slots 0 to i - 1. */
  function PartlySwept(t: seq<Entry>, i: int, j: int): Entry
    requires |t| == MAX_PLAYERS && 0 <= j < |t|
  {
    var even := if j % 2 == 0 then j else j - 1;
    if i > even + 1 then
      if Survives(t, j) then t[j] else Empty
    else if i == even + 1 && t[even].Client? && !t[even].online then Empty
    else t[j]
  }

  /** s is the table after the first loop of ping has looked at the first i slots of t. */
  ghost predicate IsPartlySwept(t: seq<Entry>, i: int, s: seq<Entry>) {
    |t| == |s| == MAX_PLAYERS && forall j | 0 <= j < |s| :: s[j] == PartlySwept(t, i, j)
  }

  lemma SweepOne(t: seq<Entry>, i: int, s: seq<Entry>)
    requires IsPartlySwept(t, i, s) && 0 <= i < |t|
    ensures IsPartlySwept(t, i + 1, if s[i].Client? && !s[i].online then Removed(s, i) else s)
  {
    var s' := if s[i].Client? && !s[i].online then Removed(s, i) else s;
    var even := if i % 2 == 0 then i else i - 1;
    forall j | 0 <= j < |s'|
      ensures s'[j] == PartlySwept(t, i + 1, j)
    {
      assert s[i] == PartlySwept(t, i, i) && s[j] == PartlySwept(t, i, j);
      if j != even && j != even + 1 {
        assert s'[j] == s[j];
      } else {
        assert Opponent(even) == even + 1 && Opponent(even + 1) == even;
      }
    }
  }

  lemma PartlySweptDistinct(t: seq<Entry>, i: int, s: seq<Entry>)
    requires Distinct(t) && IsPartlySwept(t, i, s)
    ensures Distinct(s)
  {
    forall a, b | 0 <= a < b < |s| && s[a].Client? && s[b].Client?
      ensures s[a].name != s[b].name
    {
      assert s[a] == PartlySwept(t, i, a) && s[b] == PartlySwept(t, i, b);
      assert s[a] == t[a] && s[b] == t[b];
    }
  }

  /** The pings to the clients in the first n slots. */
  function Pings(t: seq<Entry>, n: nat): seq<Sent>
    requires n <= |t|
  {
    if n == 0 then [] else Pings(t, n - 1) + (if t[n - 1].Client? then [Sent(t[n - 1].fd, Ping)] else [])
  }

  /** Exactly the clients are pinged, each once. */
  lemma {:induction false} EveryClientIsPinged(t: seq<Entry>, n: nat, fd: int)
    requires n <= |t|
    ensures Sent(fd, Ping) in Pings(t, n) <==> exists i :: 0 <= i < n && t[i].Client? && t[i].fd == fd
    ensures |Pings(t, n)| == Count(t[..n], IsClient)
  {
    if n > 0 {
      EveryClientIsPinged(t, n - 1, fd);
      assert t[..n] == t[..n - 1] + [t[n - 1]];
      CountJoin(t[..n - 1], [t[n - 1]], IsClient);
    }
  }

  class Process {
    const clients: array<Entry>
    var clientsCount: int

    ghost function View(): seq<Entry>
      reads this, clients
    {
      clients[..]
    }

    ghost predicate Valid()
      reads this, clients
    {
      Paired(View()) && clientsCount == Occupied(View())
    }

    constructor ()
      ensures Valid() && fresh(clients)
      ensures forall i | 0 <= i < |View()| :: View()[i] == Empty
    {
      clients := new Entry[MAX_PLAYERS](_ => Empty);
      clientsCount := 0;
      new;
      assert clients[..] == seq(MAX_PLAYERS, _ => Empty);
      EmptyPaired();
    }

    /** get_by_name */
    method GetByName(name: string) returns (index: int)
      ensures index == -1 ==> forall i :: !Named(View(), i, name)
      ensures index != -1 ==> Named(View(), index, name)
    {
      for i := 0 to clients.Length
        invariant forall j | 0 <= j < i :: !Named(View(), j, name)
      {
        if clients[i].Client? && clients[i].name == name {
          return i;
        }
      }
      index := -1;
    }

    /** The second loop of add_client: the first pair that lacks its odd half. */
    method FindAlone() returns (index: int)
      requires clients.Length == MAX_PLAYERS
      ensures index == -1 ==> forall i | i % 2 == 0 :: !Alone(View(), i)
      ensures index != -1 ==>
                && 0 < index < clients.Length && index % 2 == 1
                && clients[index].Empty? && clients[index - 1].Client?
    {
      var i := 0;
      while i < MAX_PLAYERS
        invariant 0 <= i <= MAX_PLAYERS && i % 2 == 0
        invariant forall j | j % 2 == 0 && j < i :: !Alone(View(), j)
      {
        if clients[i].Client? && clients[i + 1].Empty? {
          return i + 1;
        }
        i := i + 2;
      }
      index := -1;
    }

    /** The third loop of add_client. */
    method FindFree() returns (index: int)
      requires clients.Length == MAX_PLAYERS
      ensures index == -1 ==> forall i | 0 <= i < clients.Length :: clients[i].Client?
      ensures index != -1 ==>
                && 0 <= index < clients.Length && clients[index].Empty?
                && forall i | 0 <= i < index :: clients[i].Client?
    {
      for i := 0 to MAX_PLAYERS
        invariant forall j | 0 <= j < i :: clients[j].Client?
      {
        if clients[i].Empty? {
          return i;
        }
      }
      index := -1;
    }

    /** add_client: -1 says that the name is taken, or that the table is full. */
    method AddClient(name: string, fd: int) returns (index: int)
      requires Valid()
      modifies this`clientsCount, clients
      ensures Valid() && Added(old(View()), name, fd, index, View())
      ensures index == -1 <==> (exists i :: Named(old(View()), i, name)) || (forall e | e in old(View()) :: e.Client?)
      ensures index == -1 ==> View() == old(View())
      ensures index != -1 ==> View() == old(View())[index := Client(name, fd, true)] && old(View())[index] == Empty
      ensures index != -1 ==> (index % 2 == 1 <==> exists i :: Alone(old(View()), i))
      ensures index != -1 ==>
                0 <= Opponent(index) < MAX_PLAYERS && (clients[Opponent(index)].Client? <==> index % 2 == 1)
    {
      ghost var t := View();
      var known := GetByName(name);
      if known != -1 {
        return -1;
      }
      assert View() == t;
      index := FindAlone();
      if index == -1 {
        assert forall i | i % 2 == 0 :: !Alone(View(), i) && View() == t;
        index := FindFree();
        assert index != -1 ==> forall i | 0 <= i < index :: t[i].Client?;
      }
      if index != -1 {
        clients[index] := Client(name, fd, true);
        clientsCount := clientsCount + 1;
        assert View() == t[index := Client(name, fd, true)];
        assert t[index].Empty?;
      }
      AddKeepsPairs(t, name, fd, index, View());
    }

    /** remove_client, for a name in the table; it forgets the opponent as well. */
    method RemoveClient(name: string) returns (ghost index: int)
      requires clients.Length == MAX_PLAYERS && Distinct(View()) && exists i :: Named(View(), i, name)
      modifies this`clientsCount, clients
      ensures Named(old(View()), index, name) && View() == Removed(old(View()), index)
      ensures clientsCount - Occupied(View()) == old(clientsCount - Occupied(View()))
    {
      ghost var t := View();
      var found := -1;
      for i := 0 to clients.Length
        invariant found == -1 ==> forall j | 0 <= j < i :: !Named(t, j, name)
        invariant found != -1 ==> Named(t, found, name)
      {
        if clients[i].Client? && clients[i].name == name {
          found := i;
        }
      }
      index := found;
      CountUpdate(t, IsClient, index, Empty);
      clients[found] := Empty;
      clientsCount := clientsCount - 1;
      assert View() == t[index := Empty];
      var opponent := Opponent(found);
      CountUpdate(View(), IsClient, opponent, Empty);
      if clients[opponent].Client? {
        clients[opponent] := Empty;
        clientsCount := clientsCount - 1;
      }
      assert View() == Removed(t, index);
    }

    /** The first loop of ping: whoever has been silent is removed, together with its opponent. */
    method Evict()
      requires Valid()
      modifies this`clientsCount, clients
      ensures clients.Length == MAX_PLAYERS && clientsCount == Occupied(View())
      ensures forall j | 0 <= j < clients.Length ::
              clients[j] == if Survives(old(View()), j) then old(clients[j]) else Empty
    {
      ghost var t := View();
      for i := 0 to MAX_PLAYERS
        invariant clientsCount == Occupied(View())
        invariant IsPartlySwept(t, i, View())
      {
        SweepOne(t, i, View());
        PartlySweptDistinct(t, i, View());
        if clients[i].Client? && !clients[i].online {
          assert Named(View(), i, clients[i].name);
          ghost var index := RemoveClient(clients[i].name);
        }
      }
      assert forall j | 0 <= j < clients.Length :: clients[j] == View()[j] == PartlySwept(t, MAX_PLAYERS, j);
    }

    /** A round of ping. */
    method PingRound() returns (sent: seq<Sent>)
      requires Valid()
      modifies this`clientsCount, clients
      ensures Valid() && View() == Swept(old(View()))
      ensures sent == Pings(View(), MAX_PLAYERS)
    {
      ghost var t := View();
      Evict();
      ghost var kept := View();
      sent := [];
      for i := 0 to MAX_PLAYERS
        invariant forall j | i <= j < clients.Length :: clients[j] == kept[j]
        invariant forall j | 0 <= j < i :: clients[j] == Swept(t)[j]
        invariant sent == Pings(Swept(t), i)
        invariant clientsCount == Occupied(View())
      {
        if clients[i].Client? {
          sent := sent + [Sent(clients[i].fd, Ping)];
          CountUpdate(View(), IsClient, i, clients[i].(online := false));
          ghost var before := View();
          clients[i] := clients[i].(online := false);
          assert View() == before[i := before[i].(online := false)];
        }
      }
      assert View() == Swept(t);
      SweepKeepsPairs(t);
    }

    /** The command `add`; coin is the parity of the random number. */
    method Add(name: string, fd: int, coin: bool) returns (sent: seq<Sent>, ghost index: int)
      requires Valid()
      modifies this`clientsCount, clients
      ensures Valid() && Added(old(View()), name, fd, index, View())
      ensures index == -1 ==> sent == [Sent(fd, NameTaken)]
      ensures index != -1 && index % 2 == 0 ==> sent == [Sent(fd, NoEnemy)]
      ensures index != -1 && index % 2 == 1 ==>
                && 0 < index < clients.Length && clients[index - 1].Client?
                && var other := clients[index - 1].fd;
                   sent == if coin then [Sent(fd, YouAreO), Sent(other, YouAreX)]
                           else [Sent(other, YouAreO), Sent(fd, YouAreX)]
    {
      var i := AddClient(name, fd);
      index := i;
      if i == -1 {
        sent := [Sent(fd, NameTaken)];
      } else if i % 2 == 0 {
        sent := [Sent(fd, NoEnemy)];
      } else {
        var first, second := if coin then i else Opponent(i), if coin then Opponent(i) else i;
        sent := [Sent(clients[first].fd, YouAreO), Sent(clients[second].fd, YouAreX)];
      }
    }

    /** The command `move`, of a client whose opponent is present. */
    method Relay(name: string, pos: int) returns (sent: seq<Sent>)
      requires Valid() && exists i :: Named(View(), i, name) && !Alone(View(), i)
      ensures exists i :: Named(View(), i, name) && 0 <= Opponent(i) < clients.Length && clients[Opponent(i)].Client?
                          && sent == [Sent(clients[Opponent(i)].fd, MoveTo(pos))]
    {
      var player := GetByName(name);
      ghost var i :| Named(View(), i, name) && !Alone(View(), i);
      assert i == player;
      sent := [Sent(clients[Opponent(player)].fd, MoveTo(pos))];
      assert Named(View(), player, name);
    }

    /** The command `pong`: an unknown name is ignored. */
    method Pong(name: string)
      requires Valid()
      modifies clients
      ensures Valid()
      ensures if exists i :: Named(old(View()), i, name)
              then exists i :: Named(old(View()), i, name) && View() == Answered(old(View()), i)
              else View() == old(View())
      ensures var t := old(View());
        |View()| == |t| && forall i | 0 <= i < |t| ::
          View()[i] == if Named(t, i, name) then t[i].(online := true) else t[i]
    {
      ghost var t := View();
      var player := GetByName(name);
      if player != -1 {
        AnswerKeepsPairs(t, player);
        clients[player] := clients[player].(online := true);
        assert Named(t, player, name) && View() == Answered(t, player);
      }
      assert player == -1 ==> View() == t;
      forall i | 0 <= i < |t| && Named(t, i, name)
        ensures i == player
      {
        if player != -1 {
          OneOfAName(t, i, player, name);
        }
      }
    }

    /** The command `quit`, of a client in the table. */
    method Quit(name: string)
      requires Valid() && exists i :: Named(View(), i, name)
      modifies this`clientsCount, clients
      ensures Valid() && exists i :: Named(old(View()), i, name) && View() == Removed(old(View()), i)
    {
      ghost var t := View();
      ghost var index := RemoveClient(name);
      RemoveKeepsPairs(t, index);
    }
  }
}
