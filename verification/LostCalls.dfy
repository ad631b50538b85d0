/**
 Runs of the Santa Claus problem in which a call is lost, a reindeer misses a
 delivery, elves are not helped, or more elves wait than are counted.
 */
module LostCalls {
  import opened Counting
  import opened Santa
  import opened SantaFacts
  import opened Deliveries
  import opened Helping
  import opened ElvesQueue
  import opened Schedules

  // Reindeers.

  /** Santa sleeps, and all reindeers sleep until the end of a delivery. */
  ghost predicate AllWaitForSanta(s: State) {
    && s.threads != [] && s.threads[0] == Thread(S(S111), Asleep)
    && forall t | 1 <= t <= s.r < |s.threads| :: s.threads[t] == Thread(R(R172), Asleep)
  }

  /**
   When in a run Santa sleeps although all reindeers wait for him, a delivery can still come
   if and only if all of them have been counted and an elf is about to call him.
   */
  lemma AllWaitIff(run: seq<State>, r: nat, e: nat, k: nat)
    requires IsRun(run, r, e) && k < |run| && r > 0 && AllWaitForSanta(run[k])
    ensures (exists path :: LeadsToDelivery(path, run[k])) <==>
            run[k].data.reindeers == r && exists t :: 0 <= t < |run[k].threads| && PastTest(run[k].threads[t].pc)
  {
    DeliveryComesIff(run, r, e, k);
    RunKnown(run, r, e, k);
    var s := run[k];
    assert DeliveriesOk(s);
    if s.data.reindeers == r {
      forall t | 1 <= t <= r
        ensures t in s.data.counted
      {
        AllCounted(s, t);
      }
    } else if forall t | 1 <= t <= r :: t in s.data.counted {
      CountedAll(s);
    } else {
      var t: nat :| 1 <= t <= r && t !in s.data.counted;
      assert LeftOut(s, t);
    }
  }

  /**
   The last reindeer can call before Santa listens: he then sleeps although all wait for him, and no
   delivery can come.
   */
  lemma CalledTooEarly(r: nat, e: nat) returns (run: seq<State>, s: State)
    requires r > 0
    ensures Ends(run, r, e, s) && AllWaitForSanta(s) && s.r == r
    ensures s.data.reindeers == r && s.data.deliveries == 0
    ensures Known(s) && !Hope(s)
  {
    run, s := ManyArrive(r, e, r - 1);
    run, s := LastReindeerCalls(run, r, e, s);
    run, s := SantaListens(run, r, e, s);
    RunKnown(run, r, e, |run| - 1);
    NobodyCalls(s);
  }

  lemma NobodyCalls(s: State)
    requires AllWaitForSanta(s) && s.data.reindeers == s.r && Roles(s)
    requires forall t | s.r < t < |s.threads| :: s.threads[t] == Thread(E(E184), Running)
    ensures !Hope(s)
  {
    forall t | 0 <= t < |s.threads|
      ensures !PastTest(s.threads[t].pc) && !MayCall(s.threads[t].pc)
    {
    }
  }

  /**
   And a reindeer that has not gone to sleep when a delivery ends is left out of all others, although
   it was called for.
   */
  lemma LeftBehind(r: nat, e: nat) returns (run: seq<State>, s: State)
    requires r > 0
    ensures Ends(run, r, e, s) && s.data.deliveries == 1
    ensures Known(s) && s.r == r && LeftOut(s, r)
  {
    run, s := ManyArrive(r, e, r - 1);
    run, s := SantaListens(run, r, e, s);
    run := ReindeerCounts(run, r, e, s, r);
    s := run[|run| - 1];
    run, s := LastReindeerWakesSanta(run, r, e, s);
    run, s := SantaDelivers(run, r, e, s);
    RunKnown(run, r, e, |run| - 1);
  }

  lemma LastReindeerWakesSanta(run: seq<State>, r: nat, e: nat, s: State) returns (longer: seq<State>, s': State)
    requires Ends(run, r, e, s) && s.r == r < |s.threads| && r > 0 && s.data.reindeers == r && s.data.sleeping
    requires s.threads[r] == Thread(R(R161), Running) && s.owner == map[Reindeers := r]
    requires s.threads[0] == Thread(S(S111), Asleep)
    ensures Ends(longer, r, e, s') && s'.r == r && s'.data == s.data && s'.owner == map[]
    ensures |s'.threads| == |s.threads| && s'.threads[0] == Thread(S(S111), Waking)
    ensures s'.threads[r] == Thread(R(R171), Running)
  {
    longer := Extend(run, r, e, s, r);
    s' := Exec(s, r);
    longer := Extend(longer, r, e, s', r);
    s' := Exec(s', r);
    assert s'.threads[r] == Thread(R(R163), Running) && s'.owner == map[];
    longer, s' := LastReindeerCallsSanta(longer, r, e, s');
  }

  lemma LastReindeerCallsSanta(run: seq<State>, r: nat, e: nat, s: State) returns (longer: seq<State>, s': State)
    requires Ends(run, r, e, s) && s.r == r < |s.threads| && r > 0 && s.data.sleeping
    requires Alone(s, r, R(R163)) && s.threads[0] == Thread(S(S111), Asleep)
    ensures Ends(longer, r, e, s') && s'.r == r && s'.data == s.data && s'.owner == map[]
    ensures |s'.threads| == |s.threads| && s'.threads[0] == Thread(S(S111), Waking)
    ensures s'.threads[r] == Thread(R(R171), Running)
  {
    longer := Extend(run, r, e, s, r);
    s' := Exec(s, r);
    longer := Extend(longer, r, e, s', r);
    s' := Exec(s', r);
    assert s'.threads[r] == Thread(R(R166), Running) && s'.owner == map[Sleep := r];
    longer := Extend(longer, r, e, s', r);
    s' := Exec(s', r);
    longer := Extend(longer, r, e, s', r);
    s' := Exec(s', r);
  }

  /**
   A return without a signal from the wait at line 172, which the model leaves out, makes a
   reindeer count twice: the count is then more than the reindeers that have come back.
   */
  lemma CountedTwice(r: nat, e: nat) returns (run: seq<State>, s: State, again: seq<State>)
    requires r > 1
    ensures Ends(run, r, e, s) && |s.threads| == 1 + r + e && s.threads[1] == Thread(R(R172), Asleep)
    ensures again != [] && again[0] == Spurious(s, 1)
    ensures forall k | 0 <= k < |again| - 1 :: Enabled(again[k], 1) && again[k + 1] == Exec(again[k], 1)
    ensures var last := again[|again| - 1]; last.data.counted == {1} && last.data.reindeers == 2
  {
    run, s := ManyArrive(r, e, 1);
    RunKnown(run, r, e, |run| - 1);
    assert s.data.counted == {1} by {
      OnlyOne(s.data.counted);
      AllBack(s);
    }
    again := CountsAgain(s, Spurious(s, 1));
  }

  lemma CountsAgain(s: State, s0: State) returns (again: seq<State>)
    requires Arrived(s, 1) && s0 == Spurious(s, 1) && s.data.counted == {1}
    ensures again != [] && again[0] == s0
    ensures forall k | 0 <= k < |again| - 1 :: Enabled(again[k], 1) && again[k + 1] == Exec(again[k], 1)
    ensures var last := again[|again| - 1]; last.data.counted == {1} && last.data.reindeers == 2
  {
    var s1 := Moved(s, 1, Thread(R(R173), Running)).(owner := map[ReindeersWaiting := 1]);
    var s2 := Moved(s, 1, Thread(R(R155), Running));
    assert s1 == Exec(s0, 1);
    assert s1.owner - {ReindeersWaiting} == map[];
    assert s2 == Exec(s1, 1);
    var more := CountsOnce(s2);
    again := [s0, s1] + more;
  }

  lemma CountsOnce(s: State) returns (more: seq<State>)
    requires Alone(s, 1, R(R155)) && s.data.deliveries < DELIVERS_NUMBER
    ensures |more| == 4 && more[0] == s
    ensures forall k | 0 <= k < 3 :: Enabled(more[k], 1) && more[k + 1] == Exec(more[k], 1)
    ensures more[3].data == Perform(s.data, CountReindeer, 1)
  {
    var s1 := Moved(s, 1, Thread(R(R157), Running));
    var s2 := Moved(s, 1, Thread(R(R158), Running)).(owner := map[Reindeers := 1]);
    var s3 := Moved(s2, 1, Thread(R(R161), Running)).(data := Perform(s.data, CountReindeer, 1));
    assert s1 == Exec(s, 1) && s2 == Exec(s1, 1) && s3 == Exec(s2, 1);
    more := [s, s1, s2, s3];
  }

  lemma OnlyOne(a: set<nat>)
    requires |a| == 1
    ensures forall x, y | x in a && y in a :: x == y
  {
    forall x, y | x in a && y in a
      ensures x == y
    {
      assert |a - {x}| == 0;
    }
  }

  /** With the first reindeer alone asleep it is the one that is counted. */
  lemma AllBack(s: State)
    requires Known(s) && s.r > 1 && Arrived(s, 1)
    ensures 1 in s.data.counted
  {
    assert s.data.counted != {};
    var t :| t in s.data.counted;
    assert Back(s.threads[t]);
    CountedIsReindeer(s, t);
  }

  // Elves.

  /** Two elves queue and a third comes after them, up to line 201. */
  lemma ThreeCome(run: seq<State>, r: nat, e: nat, s: State, a: nat, b: nat, c: nat)
      returns (longer: seq<State>, s': State)
    requires Ends(run, r, e, s) && s.owner == map[] && s.data.elves == 0 && a != b && b != c && a != c
    requires Alone(s, a, E(E184)) && Alone(s, b, E(E184)) && Alone(s, c, E(E184))
    ensures Ends(longer, r, e, s') && s'.r == s.r && s'.owner == map[]
    ensures s'.threads ==
            s.threads[a := Thread(E(E214), Asleep)][b := Thread(E(E214), Asleep)][c := Thread(E(E201), Running)]
    ensures s'.data == s.data.(elves := 3, queue := s'.data.queue)
  {
    longer, s' := ElfQueues(run, r, e, s, a);
    longer, s' := ElfQueues(longer, r, e, s', b);
    longer, s' := ThirdElfCounts(longer, r, e, s', c);
  }

  /**
   The third elf can call before Santa listens: he then sleeps although three elves wait for
   him, and he cannot come to help them before another delivery.
   */
  lemma ElvesNeglected(r: nat, e: nat) returns (run: seq<State>, s: State)
    requires r > 0 && e >= 3
    ensures Ends(run, r, e, s) && s.threads != [] && s.threads[0] == Thread(S(S111), Asleep)
    ensures s.data.elves == REQUIRED_ELVES_NUMBER && s.data.reindeers == 0
    ensures !exists path :: LeadsToHelp(path, s)
  {
    s := Start(r, e);
    run := [s];
    run, s := ThreeCome(run, r, e, s, r + 1, r + 2, r + 3);
    run, s := ElfKnocks(run, r, e, s, r + 3);
    run, s := SantaListens(run, r, e, s);
    forall t | 0 <= t < |s.threads|
      ensures !WillCall(s.threads[t].pc)
    {
    }
    HelpComesIff(run, r, e, |run| - 1);
  }

  lemma NobodySignalsHelped(pc: Pc)
    ensures Code(pc).Broadcast? ==> Code(pc).c != SantaHelped
  {
  }

  /**
   An elf that waits for the return of three others at line 190 goes on if and only if its wait
   returns without a signal: nothing that any thread does ends it.
   */
  lemma ElfReturnsIff(s: State, s': State, t: nat)
    requires t < |s.threads| && s.threads[t] == Thread(E(E190), Asleep) && Next(s, s')
    ensures t < |s'.threads|
    ensures s'.threads[t] != s.threads[t] <==> s' == Spurious(s, t)
    ensures MayWakeSpuriously(s, t)
  {
    if u: nat :| Enabled(s, u) && s' == Exec(s, u) {
      OthersUntouched(s, u, t);
      NobodySignalsHelped(s.threads[u].pc);
    } else {
      var u: nat :| MayWakeSpuriously(s, u) && s' == Spurious(s, u);
    }
  }

  /** Santa wakes up by himself while the third elf is on its way. */
  lemma SantaWakesAlone(run: seq<State>, r: nat, e: nat, s: State) returns (longer: seq<State>, s': State)
    requires Ends(run, r, e, s) && s.threads != [] && s.threads[0] == Thread(S(S111), Asleep)
    ensures s' == Spurious(s, 0) && Ends(longer, r, e, s')
  {
    s' := Spurious(s, 0);
    longer := run + [s'];
    assert MayWakeSpuriously(s, 0);
    forall k | 0 <= k < |longer| - 1
      ensures Next(longer[k], longer[k + 1])
    {
      if k < |run| - 1 {
        assert Next(run[k], run[k + 1]);
      }
    }
  }

  /** Santa helps two elves and misses the third. */
  lemma ThirdMissed(r: nat, e: nat) returns (run: seq<State>, s: State)
    requires r > 0 && e >= 4
    ensures Ends(run, r, e, s) && Alone(s, 0, S(S110)) && s.r == r && |s.threads| == 1 + r + e
    ensures s.data.elves == 0 && s.data.reindeers == 0 && s.data.sleeping
    ensures s.threads[r + 1] == s.threads[r + 2] == Thread(E(E214), Waking)
    ensures s.threads[r + 3] == Thread(E(E201), Running) && s.threads[r + 4] == Thread(E(E184), Running)
    ensures forall t | 0 <= t < |s.threads| :: s.threads[t].mode != Asleep
  {
    s := Start(r, e);
    run := [s];
    run, s := ThreeCome(run, r, e, s, r + 1, r + 2, r + 3);
    run, s := SantaListens(run, r, e, s);
    run, s := SantaWakesAlone(run, r, e, s);
    run, s := SantaHelps(run, r, e, s);
  }

  /** An elf that has been helped goes back to work. */
  lemma ElfReturns(run: seq<State>, r: nat, e: nat, s: State, t: nat) returns (longer: seq<State>, s': State)
    requires Ends(run, r, e, s) && t < |s.threads| && s.threads[t] == Thread(E(E214), Waking) && s.owner == map[]
    ensures s' == Moved(s, t, Thread(E(E184), Running)) && Ends(longer, r, e, s')
  {
    var s1 := Moved(s, t, Thread(E(E215), Running)).(owner := map[Elves := t]);
    longer := Extend(run, r, e, s, t);
    assert Exec(s, t) == s1;
    longer := Extend(longer, r, e, s1, t);
    assert s1.owner - {Elves} == map[];
    s' := Moved(s, t, Thread(E(E184), Running));
    assert Exec(s1, t) == s';
  }

  /** With four elves, all four can be asleep at line 214. */
  lemma FourSleep(r: nat, e: nat) returns (run: seq<State>, s: State)
    requires r > 0 && e >= 4
    ensures Ends(run, r, e, s) && |s.threads| == 1 + r + e
    ensures forall t | r < t <= r + 4 :: s.threads[t] == Thread(E(E214), Asleep)
  {
    run, s := ThirdMissed(r, e);
    run, s := ElfReturns(run, r, e, s, r + 1);
    run, s := ElfReturns(run, r, e, s, r + 2);
    run, s := ElfKnocks(run, r, e, s, r + 3);
    run, s := ThreeCome(run, r, e, s, r + 1, r + 2, r + 4);
    run, s := ElfKnocks(run, r, e, s, r + 4);
  }

  lemma {:induction false} CountRange<T>(s: seq<T>, p: T -> bool, i: nat, n: nat)
    requires i + n <= |s| && forall j | i <= j < i + n :: p(s[j])
    ensures Count(s, p) >= n
    decreases |s|
  {
    if n > 0 {
      if i > 0 {
        assert forall j | i - 1 <= j < i - 1 + n :: s[1..][j] == s[j + 1];
        CountRange(s[1..], p, i - 1, n);
      } else {
        assert forall j | 0 <= j < n - 1 :: s[1..][j] == s[j + 1];
        CountRange(s[1..], p, 0, n - 1);
      }
    }
  }

  lemma QueueOfElves(s: State)
    requires Roles(s)
    ensures Queue(s) <= |s.threads| - 1 - s.r
  {
    var front, elves := s.threads[..1 + s.r], s.threads[1 + s.r..];
    assert s.threads == front + elves;
    CountJoin(front, elves, InQueue);
    CountNone(front, InQueue);
    CountAtMostAll(elves, InQueue);
  }

  /**
   More than three elves can wait for Santa if and only if there are more than three; by
   AtMostThreeWait it takes a return of Santa's own wait without a signal.
   */
  lemma CrowdIff(r: nat, e: nat)
    requires r > 0
    ensures (exists run, s :: Ends(run, r, e, s) && Queue(s) > REQUIRED_ELVES_NUMBER) <==> e > REQUIRED_ELVES_NUMBER
  {
    if e > REQUIRED_ELVES_NUMBER {
      var run, s := FourSleep(r, e);
      CountRange(s.threads, InQueue, r + 1, 4);
      assert Queue(s) > REQUIRED_ELVES_NUMBER;
    }
    forall run, s | Ends(run, r, e, s)
      ensures Queue(s) <= e
    {
      RunKnown(run, r, e, |run| - 1);
      QueueOfElves(s);
    }
  }
}
