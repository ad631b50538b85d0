/** Pieces of runs of the Santa Claus problem in which one thread after the other goes on without interruption. */
module Schedules {
  import opened Santa

  /** A run that ends in a state. */
  ghost predicate Ends(run: seq<State>, r: nat, e: nat, s: State) {
    IsRun(run, r, e) && run[|run| - 1] == s
  }

  lemma Extend(run: seq<State>, r: nat, e: nat, s: State, t: nat) returns (longer: seq<State>)
    requires Ends(run, r, e, s) && Enabled(s, t)
    ensures Ends(longer, r, e, Exec(s, t))
  {
    longer := run + [Exec(s, t)];
    forall k | 0 <= k < |longer| - 1
      ensures Next(longer[k], longer[k + 1])
    {
      if k < |run| - 1 {
        assert Next(run[k], run[k + 1]);
      }
    }
  }

  /** Thread t is at pc, and no mutex is locked. */
  ghost predicate Alone(s: State, t: nat, pc: Pc) {
    t < |s.threads| && s.threads[t] == Thread(pc, Running) && s.owner == map[]
  }

  function Moved(s: State, t: nat, th: Thread): State
    requires t < |s.threads|
  {
    s.(threads := s.threads[t := th])
  }

  /** A reindeer comes back from line 155 to line 161 without interruption. */
  lemma ReindeerCounts(run: seq<State>, r: nat, e: nat, s: State, t: nat) returns (longer: seq<State>)
    requires Ends(run, r, e, s) && Alone(s, t, R(R155)) && s.data.deliveries < DELIVERS_NUMBER
    ensures Ends(longer, r, e, Moved(s, t, Thread(R(R161), Running)).(
      owner := map[Reindeers := t], data := Perform(s.data, CountReindeer, t)))
  {
    var s1 := Moved(s, t, Thread(R(R157), Running));
    longer := Extend(run, r, e, s, t);
    assert Exec(s, t) == s1;
    var s2 := Moved(s, t, Thread(R(R158), Running)).(owner := map[Reindeers := t]);
    longer := Extend(longer, r, e, s1, t);
    assert Exec(s1, t) == s2;
    longer := Extend(longer, r, e, s2, t);
    assert Exec(s2, t) == Moved(s2, t, Thread(R(R161), Running)).(data := Perform(s.data, CountReindeer, t));
  }

  /** From line 171 a reindeer goes to sleep until the end of a delivery. */
  lemma ReindeerRests(run: seq<State>, r: nat, e: nat, s: State, t: nat) returns (longer: seq<State>)
    requires Ends(run, r, e, s) && Alone(s, t, R(R171))
    ensures Ends(longer, r, e, Moved(s, t, Thread(R(R172), Asleep)))
  {
    var s1 := Moved(s, t, Thread(R(R172), Running)).(owner := map[ReindeersWaiting := t]);
    longer := Extend(run, r, e, s, t);
    assert Exec(s, t) == s1;
    longer := Extend(longer, r, e, s1, t);
    assert s1.owner - {ReindeersWaiting} == map[];
    assert Exec(s1, t) == Moved(s, t, Thread(R(R172), Asleep));
  }

  /** A reindeer that is not the last. */
  lemma ReindeerArrives(run: seq<State>, r: nat, e: nat, s: State, t: nat) returns (longer: seq<State>, s': State)
    requires Ends(run, r, e, s) && Alone(s, t, R(R155)) && s.data.deliveries == 0 && s.data.reindeers + 1 < s.r
    ensures s' == Moved(s, t, Thread(R(R172), Asleep)).(data := Perform(s.data, CountReindeer, t))
    ensures Ends(longer, r, e, s')
  {
    longer := ReindeerCounts(run, r, e, s, t);
    var s3 := longer[|longer| - 1];
    var s4 := Moved(s3, t, Thread(R(R170), Running));
    longer := Extend(longer, r, e, s3, t);
    assert Exec(s3, t) == s4;
    var s5 := Moved(s, t, Thread(R(R171), Running)).(data := Perform(s.data, CountReindeer, t));
    longer := Extend(longer, r, e, s4, t);
    assert s4.owner - {Reindeers} == map[];
    assert Exec(s4, t) == s5;
    longer := ReindeerRests(longer, r, e, s5, t);
    s' := Moved(s5, t, Thread(R(R172), Asleep));
  }

  /** The first n reindeers wait for a delivery, and nobody else has moved. */
  ghost predicate Arrived(s: State, n: nat) {
    && n <= s.r < |s.threads| && s.owner == map[]
    && s.data.reindeers == n && s.data.deliveries == 0 && s.data.sleeping
    && s.threads[0] == Thread(S(S110), Running)
    && (forall t | 1 <= t <= n :: s.threads[t] == Thread(R(R172), Asleep))
    && (forall t | n < t <= s.r :: s.threads[t] == Thread(R(R155), Running))
    && (forall t | s.r < t < |s.threads| :: s.threads[t] == Thread(E(E184), Running))
  }

  lemma {:induction false} ManyArrive(r: nat, e: nat, n: nat) returns (run: seq<State>, s: State)
    requires n < r
    ensures Ends(run, r, e, s) && s.r == r && Arrived(s, n)
  {
    if n == 0 {
      s := Start(r, e);
      run := [s];
    } else {
      run, s := ManyArrive(r, e, n - 1);
      run, s := ReindeerArrives(run, r, e, s, n);
    }
  }

  /** The last reindeer finds Santa asleep and calls him. */
  lemma LastReindeerCalls(run: seq<State>, r: nat, e: nat, s: State) returns (longer: seq<State>, s': State)
    requires Ends(run, r, e, s) && s.r == r > 0 && Arrived(s, r - 1)
    ensures Ends(longer, r, e, s') && s'.r == r && Arrived(s', r)
  {
    longer := ReindeerCounts(run, r, e, s, r);
    var s3 := longer[|longer| - 1];
    var s4 := Moved(s3, r, Thread(R(R162), Running));
    longer := Extend(longer, r, e, s3, r);
    assert Exec(s3, r) == s4;
    var s5 := Moved(s4, r, Thread(R(R163), Running)).(owner := map[]);
    longer := Extend(longer, r, e, s4, r);
    assert s4.owner - {Reindeers} == map[];
    assert Exec(s4, r) == s5;
    longer, s' := LastReindeerKnocks(longer, r, e, s5);
  }

  lemma LastReindeerKnocks(run: seq<State>, r: nat, e: nat, s: State) returns (longer: seq<State>, s': State)
    requires Ends(run, r, e, s) && r > 0 && Alone(s, r, R(R163)) && s.data.sleeping
    requires forall t | 0 <= t < |s.threads| :: !WaitsFor(s.threads[t], SantaTask)
    ensures Ends(longer, r, e, s') && s' == Moved(s, r, Thread(R(R172), Asleep))
  {
    var s1 := Moved(s, r, Thread(R(R164), Running)).(owner := map[Sleep := r]);
    longer := Extend(run, r, e, s, r);
    assert Exec(s, r) == s1;
    var s2 := Moved(s1, r, Thread(R(R166), Running));
    longer := Extend(longer, r, e, s1, r);
    assert Exec(s1, r) == s2;
    var s3 := Moved(s, r, Thread(R(R168), Running));
    longer := Extend(longer, r, e, s2, r);
    assert s2.owner - {Sleep} == map[];
    assert Exec(s2, r) == s3;
    var s4 := Moved(s, r, Thread(R(R171), Running));
    longer := Extend(longer, r, e, s3, r);
    assert WakeAll(s3.threads, SantaTask) == s3.threads;
    assert Exec(s3, r) == s4;
    longer := ReindeerRests(longer, r, e, s4, r);
    s' := Moved(s4, r, Thread(R(R172), Asleep));
  }

  // Elves.

  function Queued(d: Data, t: nat): Data {
    Perform(Perform(d, CountElf, t), Enlist, t)
  }

  /** An elf comes back from line 184 to line 194, at which it counts itself. */
  lemma ElfComes(run: seq<State>, r: nat, e: nat, s: State, t: nat) returns (longer: seq<State>)
    requires Ends(run, r, e, s) && Alone(s, t, E(E184)) && s.data.elves < REQUIRED_ELVES_NUMBER
    ensures Ends(longer, r, e, Moved(s, t, Thread(E(E194), Running)).(owner := map[ElvesWaiting := t, Elves := t]))
  {
    var s1 := Moved(s, t, Thread(E(E185), Running)).(owner := map[ElvesWaiting := t]);
    longer := Extend(run, r, e, s, t);
    assert Exec(s, t) == s1;
    var s2 := Moved(s1, t, Thread(E(E193), Running));
    longer := Extend(longer, r, e, s1, t);
    assert Exec(s1, t) == s2;
    var s3 := Moved(s1, t, Thread(E(E194), Running)).(owner := map[ElvesWaiting := t, Elves := t]);
    longer := Extend(longer, r, e, s2, t);
    assert Exec(s2, t) == s3;
  }

  /** An elf comes back from line 184 to line 199 without interruption. */
  lemma ElfCounts(run: seq<State>, r: nat, e: nat, s: State, t: nat) returns (longer: seq<State>)
    requires Ends(run, r, e, s) && Alone(s, t, E(E184)) && s.data.elves < REQUIRED_ELVES_NUMBER
    ensures Ends(longer, r, e, Moved(s, t, Thread(E(E199), Running)).(
      owner := map[Elves := t], data := Queued(s.data, t)))
  {
    longer := ElfComes(run, r, e, s, t);
    var s3 := longer[|longer| - 1];
    var s4 := Moved(s3, t, Thread(E(E195), Running)).(data := Perform(s.data, CountElf, t));
    longer := Extend(longer, r, e, s3, t);
    assert Exec(s3, t) == s4;
    var s5 := Moved(s4, t, Thread(E(E196), Running)).(owner := map[Elves := t]);
    longer := Extend(longer, r, e, s4, t);
    assert s4.owner - {ElvesWaiting} == map[Elves := t];
    assert Exec(s4, t) == s5;
    longer := Extend(longer, r, e, s5, t);
    assert Exec(s5, t) == Moved(s5, t, Thread(E(E199), Running)).(data := Queued(s.data, t));
  }

  /** An elf that is not the third goes to sleep. */
  lemma ElfQueues(run: seq<State>, r: nat, e: nat, s: State, t: nat) returns (longer: seq<State>, s': State)
    requires Ends(run, r, e, s) && Alone(s, t, E(E184)) && s.data.elves + 1 < REQUIRED_ELVES_NUMBER
    ensures s' == Moved(s, t, Thread(E(E214), Asleep)).(data := Queued(s.data, t))
    ensures Ends(longer, r, e, s')
  {
    longer := ElfCounts(run, r, e, s, t);
    var s1 := longer[|longer| - 1];
    var s2 := Moved(s1, t, Thread(E(E214), Running));
    longer := Extend(longer, r, e, s1, t);
    assert Exec(s1, t) == s2;
    longer := Extend(longer, r, e, s2, t);
    assert s2.owner - {Elves} == map[];
    s' := Moved(s, t, Thread(E(E214), Asleep)).(data := Queued(s.data, t));
    assert Exec(s2, t) == s';
  }

  /** The third elf, up to line 201. */
  lemma ThirdElfCounts(run: seq<State>, r: nat, e: nat, s: State, t: nat) returns (longer: seq<State>, s': State)
    requires Ends(run, r, e, s) && Alone(s, t, E(E184)) && s.data.elves + 1 == REQUIRED_ELVES_NUMBER
    ensures s' == Moved(s, t, Thread(E(E201), Running)).(data := Queued(s.data, t))
    ensures Ends(longer, r, e, s')
  {
    longer := ElfCounts(run, r, e, s, t);
    var s1 := longer[|longer| - 1];
    var s2 := Moved(s1, t, Thread(E(E200), Running));
    longer := Extend(longer, r, e, s1, t);
    assert Exec(s1, t) == s2;
    longer := Extend(longer, r, e, s2, t);
    assert s2.owner - {Elves} == map[];
    s' := Moved(s, t, Thread(E(E201), Running)).(data := Queued(s.data, t));
    assert Exec(s2, t) == s';
  }

  /** The third elf finds Santa asleep, calls him while he does not listen, and goes to sleep. */
  lemma ElfKnocks(run: seq<State>, r: nat, e: nat, s: State, t: nat) returns (longer: seq<State>, s': State)
    requires Ends(run, r, e, s) && Alone(s, t, E(E201)) && s.data.sleeping && s.data.reindeers != s.r
    requires forall u | 0 <= u < |s.threads| :: !WaitsFor(s.threads[u], SantaTask)
    ensures s' == Moved(s, t, Thread(E(E214), Asleep)) && Ends(longer, r, e, s')
  {
    var s1 := Moved(s, t, Thread(E(E202), Running)).(owner := map[Sleep := t]);
    longer := Extend(run, r, e, s, t);
    assert Exec(s, t) == s1;
    var s2 := Moved(s, t, Thread(E(E203), Running)).(owner := map[Sleep := t, Reindeers := t]);
    longer := Extend(longer, r, e, s1, t);
    assert Exec(s1, t) == s2;
    var s3 := Moved(s2, t, Thread(E(E208), Running));
    longer := Extend(longer, r, e, s2, t);
    assert Exec(s2, t) == s3;
    var s4 := Moved(s, t, Thread(E(E210), Running)).(owner := map[Sleep := t]);
    longer := Extend(longer, r, e, s3, t);
    assert s3.owner - {Reindeers} == map[Sleep := t];
    assert Exec(s3, t) == s4;
    longer, s' := ElfMakesCall(longer, r, e, s, s4, t);
  }

  lemma ElfMakesCall(run: seq<State>, r: nat, e: nat, s: State, s4: State, t: nat)
      returns (longer: seq<State>, s': State)
    requires t < |s.threads| && s4 == Moved(s, t, Thread(E(E210), Running)).(owner := map[Sleep := t])
    requires Ends(run, r, e, s4) && s.owner == map[]
    requires forall u | 0 <= u < |s.threads| :: !WaitsFor(s.threads[u], SantaTask)
    ensures s' == Moved(s, t, Thread(E(E214), Asleep)) && Ends(longer, r, e, s')
  {
    var s5 := Moved(s, t, Thread(E(E211), Running)).(owner := map[Sleep := t, Elves := t]);
    longer := Extend(run, r, e, s4, t);
    assert Exec(s4, t) == s5;
    var s6 := Moved(s5, t, Thread(E(E212), Running));
    longer := Extend(longer, r, e, s5, t);
    assert WakeAll(s5.threads, SantaTask) == s5.threads;
    assert Exec(s5, t) == s6;
    longer, s' := ElfLiesDown(longer, r, e, s6, t);
  }

  /** After its call an elf goes to sleep. */
  lemma ElfLiesDown(run: seq<State>, r: nat, e: nat, s: State, t: nat) returns (longer: seq<State>, s': State)
    requires Ends(run, r, e, s) && t < |s.threads| && s.threads[t] == Thread(E(E212), Running)
    requires s.owner == map[Sleep := t, Elves := t]
    ensures s' == Moved(s, t, Thread(E(E214), Asleep)).(owner := map[]) && Ends(longer, r, e, s')
  {
    var s1 := Moved(s, t, Thread(E(E214), Running)).(owner := map[Elves := t]);
    longer := Extend(run, r, e, s, t);
    assert s.owner - {Sleep} == map[Elves := t];
    assert Exec(s, t) == s1;
    longer := Extend(longer, r, e, s1, t);
    assert s1.owner - {Elves} == map[];
    s' := Moved(s, t, Thread(E(E214), Asleep)).(owner := map[]);
    assert Exec(s1, t) == s';
  }

  // Santa.

  /** Santa begins to wait for a call. */
  lemma SantaListens(run: seq<State>, r: nat, e: nat, s: State) returns (longer: seq<State>, s': State)
    requires Ends(run, r, e, s) && Alone(s, 0, S(S110))
    ensures s' == Moved(s, 0, Thread(S(S111), Asleep)) && Ends(longer, r, e, s')
  {
    var s1 := Moved(s, 0, Thread(S(S111), Running)).(owner := map[Sleep := 0]);
    longer := Extend(run, r, e, s, 0);
    assert Exec(s, 0) == s1;
    longer := Extend(longer, r, e, s1, 0);
    assert s1.owner - {Sleep} == map[];
    s' := Moved(s, 0, Thread(S(S111), Asleep));
    assert Exec(s1, 0) == s';
  }

  /** s' differs from s in Santa and in threads that he may have woken. */
  ghost predicate SantaAlone(s: State, s': State) {
    && s'.r == s.r && |s'.threads| == |s.threads|
    && forall t | 0 < t < |s.threads| ::
         s'.threads[t].pc == s.threads[t].pc && (s.threads[t].mode != Asleep ==> s'.threads[t] == s.threads[t])
                                              && (s.threads[t].mode == Asleep ==> s'.threads[t].mode != Running)
  }

  /** One step of Santa. */
  lemma SantaSteps(run: seq<State>, r: nat, e: nat, s: State) returns (longer: seq<State>, s': State)
    requires Ends(run, r, e, s) && Enabled(s, 0)
    ensures s' == Exec(s, 0) && Ends(longer, r, e, s') && SantaAlone(s, s')
  {
    longer := Extend(run, r, e, s, 0);
    s' := Exec(s, 0);
    forall t: nat | 0 < t < |s.threads|
      ensures s'.threads[t] == s.threads[t] ||
              (s.threads[t].mode == Asleep && s'.threads[t] == Thread(s.threads[t].pc, Waking))
    {
      OthersUntouched(s, 0, t);
    }
  }

  /** Woken, Santa looks for the reindeers. */
  lemma SantaLooks(run: seq<State>, r: nat, e: nat, s: State) returns (longer: seq<State>, s': State)
    requires Ends(run, r, e, s) && s.threads != [] && s.threads[0] == Thread(S(S111), Waking) && s.owner == map[]
    ensures Ends(longer, r, e, s') && SantaAlone(s, s') && s'.data == s.data.(sleeping := false)
    ensures s'.threads[0] == Thread(S(if s.data.reindeers == s.r then S121 else S130), Running)
    ensures s'.owner == map[Reindeers := 0]
  {
    longer, s' := SantaGetsUp(run, r, e, s);
    longer, s' := SantaSteps(longer, r, e, s');
    longer, s' := SantaSteps(longer, r, e, s');
  }

  lemma SantaGetsUp(run: seq<State>, r: nat, e: nat, s: State) returns (longer: seq<State>, s': State)
    requires Ends(run, r, e, s) && s.threads != [] && s.threads[0] == Thread(S(S111), Waking) && s.owner == map[]
    ensures Ends(longer, r, e, s') && SantaAlone(s, s') && s'.data == s.data.(sleeping := false)
    ensures Alone(s', 0, S(S117))
  {
    longer, s' := SantaSteps(run, r, e, s);
    longer, s' := SantaSteps(longer, r, e, s');
    longer, s' := SantaSteps(longer, r, e, s');
  }

  /** Santa delivers and has told the reindeers so, at line 123. */
  lemma SantaDelivers(run: seq<State>, r: nat, e: nat, s: State) returns (longer: seq<State>, s': State)
    requires Ends(run, r, e, s) && s.threads != [] && s.threads[0] == Thread(S(S111), Waking) && s.owner == map[]
    requires s.data.reindeers == s.r
    ensures Ends(longer, r, e, s') && SantaAlone(s, s') && s'.threads[0] == Thread(S(S123), Running)
    ensures s'.data.deliveries == s.data.deliveries + 1
  {
    longer, s' := SantaLooks(run, r, e, s);
    longer, s' := SantaSteps(longer, r, e, s');
    longer, s' := SantaSteps(longer, r, e, s');
  }

  /** Santa helps the elves and is about to wait for a call again. */
  lemma SantaHelps(run: seq<State>, r: nat, e: nat, s: State) returns (longer: seq<State>, s': State)
    requires Ends(run, r, e, s) && s.threads != [] && s.threads[0] == Thread(S(S111), Waking) && s.owner == map[]
    requires s.data.reindeers != s.r
    ensures Ends(longer, r, e, s') && SantaAlone(s, s') && Alone(s', 0, S(S110))
    ensures s'.data == s.data.(sleeping := true, elves := 0)
    ensures forall t | 0 < t < |s.threads| && s.threads[t].pc == E(E214) :: s'.threads[t].mode != Asleep
  {
    longer, s' := SantaLooks(run, r, e, s);
    longer, s' := SantaSteps(longer, r, e, s');
    assert Alone(s', 0, S(S134));
    longer, s' := SantaBroadcasts(longer, r, e, s');
    longer, s' := SantaResets(longer, r, e, s');
    longer, s' := SantaGoesToSleep(longer, r, e, s');
  }

  lemma SantaBroadcasts(run: seq<State>, r: nat, e: nat, s: State) returns (longer: seq<State>, s': State)
    requires Ends(run, r, e, s) && Alone(s, 0, S(S134))
    ensures Ends(longer, r, e, s') && SantaAlone(s, s') && Alone(s', 0, S(S140)) && s'.data == s.data
    ensures forall t | 0 < t < |s.threads| && s.threads[t].pc == E(E214) :: s'.threads[t].mode != Asleep
  {
    longer, s' := SantaSteps(run, r, e, s);
    longer, s' := SantaSteps(longer, r, e, s');
    longer, s' := SantaSteps(longer, r, e, s');
  }

  lemma SantaResets(run: seq<State>, r: nat, e: nat, s: State) returns (longer: seq<State>, s': State)
    requires Ends(run, r, e, s) && Alone(s, 0, S(S140))
    ensures Ends(longer, r, e, s') && SantaAlone(s, s') && Alone(s', 0, S(S145))
    ensures s'.data == s.data.(elves := 0)
  {
    longer, s' := SantaSteps(run, r, e, s);
    longer, s' := SantaSteps(longer, r, e, s');
    longer, s' := SantaSteps(longer, r, e, s');
    longer, s' := SantaSteps(longer, r, e, s');
  }

  lemma SantaGoesToSleep(run: seq<State>, r: nat, e: nat, s: State) returns (longer: seq<State>, s': State)
    requires Ends(run, r, e, s) && Alone(s, 0, S(S145))
    ensures Ends(longer, r, e, s') && SantaAlone(s, s') && Alone(s', 0, S(S110))
    ensures s'.data == s.data.(sleeping := true)
  {
    longer, s' := SantaSteps(run, r, e, s);
    longer, s' := SantaSteps(longer, r, e, s');
    longer, s' := SantaSteps(longer, r, e, s');
    longer, s' := SantaSteps(longer, r, e, s');
  }
}
