/**
 When Santa can come to help three elves at all, be it after a delivery: then
 somebody has to be left over to call him again.
 */
module Eventually {
  import opened Santa
  import opened SantaFacts
  import opened Deliveries
  import opened Helping

  /** An elf on its way to call that has not yet found Santa asleep and a reindeer missing. */
  predicate EarlyElf(pc: Pc) {
    ElfOnItsWay(pc) && !PastTest(pc)
  }

  /** A reindeer that is counting itself, or will call Santa. */
  predicate LastOnes(pc: Pc) {
    pc == R(R158) || MayCall(pc)
  }

  ghost predicate HasEarly(s: State) {
    exists t :: 0 <= t < |s.threads| && EarlyElf(s.threads[t].pc)
  }

  ghost predicate HasLast(s: State) {
    exists t :: 0 <= t < |s.threads| && LastOnes(s.threads[t].pc)
  }

  ghost predicate HasPast(s: State) {
    exists t :: 0 <= t < |s.threads| && PastTest(s.threads[t].pc)
  }

  /** An elf that has locked sleep_mutex and can still be told to wait. */
  predicate Stoppable(pc: Pc) {
    pc == E(E202) || pc == E(E206)
  }

  ghost predicate HasStoppable(s: State) {
    exists t :: 0 <= t < |s.threads| && Stoppable(s.threads[t].pc)
  }

  /** With all reindeers counted, one call brings Santa to deliver, and another one is left. */
  ghost predicate TwoCalls(s: State) {
    && s.threads != []
    && var z := s.threads[0];
       || (OnTheWay(z) && (HasEarly(s) || HasLast(s)))
       || (GoesToListen(z) && HasEarly(s) && HasLast(s))
       || (z == Thread(S(S111), Asleep) && HasPast(s) && (HasEarly(s) || HasLast(s)))
  }

  /** The elf that keeps Santa out at line 110 would call too early, unless all reindeers come before. */
  ghost predicate Rescued(s: State)
    requires Roles(s)
  {
    SantaPlace(s) == S110 && HasStoppable(s) && forall t :: !LeftOut(s, t)
  }

  /** Santa can help the three elves after another delivery, which is not his last. */
  ghost predicate Later(s: State)
    requires Roles(s)
  {
    && s.data.elves == REQUIRED_ELVES_NUMBER && s.data.deliveries + 1 < DELIVERS_NUMBER
    && if Coming(s) >= s.r then TwoCalls(s) else Rescued(s)
  }

  // Who is counted when all reindeers are, or will be in a moment.

  /** Then only the one that is counting itself is not. */
  lemma NobodyMissing(s: State, x: nat)
    requires Known(s) && Coming(s) >= s.r && 1 <= x <= s.r && x !in s.data.counted
    ensures s.threads[x].pc == R(R158)
  {
    RoomForOne(s, x);
    var t: nat :| t < |s.threads| && s.threads[t].pc == R(R158);
    NotCountedYet(s, t);
    if t != x {
      RoomForTwo(s, t, x);
    }
  }

  lemma RoomForTwo(s: State, t: nat, u: nat)
    requires Inv(s) && 1 <= t <= s.r && 1 <= u <= s.r && t != u
    requires t !in s.data.counted && u !in s.data.counted
    ensures s.data.reindeers + 2 <= s.r
  {
    var all, more := All(s.r), s.data.counted + {t, u};
    assert more <= all;
    assert all == more + (all - more);
    assert |all| == |more| + |all - more|;
    assert |more| == |s.data.counted| + 2;
  }

  /** A thread that has reindeers_mutex, and is not the one that counts itself, finds all counted. */
  lemma AllUnderMutex(s: State, u: nat)
    requires Known(s) && Coming(s) >= s.r && u < |s.threads|
    requires Has(s.threads[u], Reindeers) && s.threads[u].pc != R(R158)
    ensures s.data.reindeers == s.r
  {
    CountAtMost(s);
    if t: nat :| t < |s.threads| && s.threads[t].pc == R(R158) {
      RunsAt(s, t);
      Apart(s, u, t, Reindeers);
    }
  }

  /** No further reindeer comes to count itself. */
  lemma NobodyComes(s: State, u: nat)
    requires Known(s) && Coming(s) >= s.r && Enabled(s, u) && SantaPlace(s) != S123
    ensures s.threads[u].pc != R(R157)
  {
    if s.threads[u].pc == R(R157) {
      RunsAt(s, u);
      if CountsNow(s) {
        CountingLocks(s);
      } else {
        CountAtMost(s);
        AllCounted(s, u);
      }
    }
  }

  lemma CountingLocks(s: State)
    requires Known(s) && CountsNow(s)
    ensures Reindeers in s.owner
  {
    var t: nat :| t < |s.threads| && s.threads[t].pc == R(R158);
    RunsAt(s, t);
    assert Has(s.threads[t], Reindeers);
  }

  // How the kinds of callers come and go while all reindeers are counted.

  lemma EarlyGoesOn(th: Thread, d: Data, r: nat)
    requires EarlyElf(th.pc) && d.elves == REQUIRED_ELVES_NUMBER
    requires th.pc == E(E203) ==> d.reindeers == r
    ensures EarlyElf(ThreadAfter(th, d, r).pc)
  {
  }

  lemma EarlyStays(s: State, u: nat)
    requires Known(s) && Enabled(s, u) && Coming(s) >= s.r && s.data.elves == REQUIRED_ELVES_NUMBER && HasEarly(s)
    ensures HasEarly(Exec(s, u))
  {
    var t: nat :| t < |s.threads| && EarlyElf(s.threads[t].pc);
    if t == u {
      if s.threads[u].pc == E(E203) {
        RunsAt(s, u);
        AllUnderMutex(s, u);
      }
      EarlyGoesOn(s.threads[u], s.data, s.r);
    } else {
      OthersUntouched(s, u, t);
    }
    assert EarlyElf(Exec(s, u).threads[t].pc);
  }

  lemma EarlyFrom(th: Thread, d: Data, r: nat)
    requires EarlyElf(ThreadAfter(th, d, r).pc)
    ensures EarlyElf(th.pc) || th.pc == E(E194)
  {
  }

  lemma NoEarlyStays(s: State, u: nat)
    requires Known(s) && Enabled(s, u) && s.data.elves == REQUIRED_ELVES_NUMBER && !HasEarly(s)
    ensures !HasEarly(Exec(s, u))
  {
    forall t: nat | t < |s.threads|
      ensures !EarlyElf(Exec(s, u).threads[t].pc)
    {
      assert !EarlyElf(s.threads[t].pc);
      if t != u {
        OthersUntouched(s, u, t);
      } else if EarlyElf(Exec(s, u).threads[u].pc) {
        assert ElfOk(s.threads[u], s.data);
        EarlyFrom(s.threads[u], s.data, s.r);
      }
    }
  }

  lemma LastGoesOn(th: Thread, d: Data, r: nat)
    requires LastOnes(th.pc) && th.pc != R(R168) && (th.pc == R(R161) ==> d.reindeers == r)
    ensures LastOnes(ThreadAfter(th, d, r).pc)
  {
  }

  lemma LastStays(s: State, u: nat)
    requires Known(s) && Enabled(s, u) && Coming(s) >= s.r && HasLast(s) && s.threads[u].pc != R(R168)
    ensures HasLast(Exec(s, u))
  {
    var t: nat :| t < |s.threads| && LastOnes(s.threads[t].pc);
    if t == u {
      if s.threads[u].pc == R(R161) {
        RunsAt(s, u);
        AllUnderMutex(s, u);
      }
      LastGoesOn(s.threads[u], s.data, s.r);
    } else {
      OthersUntouched(s, u, t);
    }
    assert LastOnes(Exec(s, u).threads[t].pc);
  }

  lemma LastFrom(th: Thread, d: Data, r: nat)
    requires LastOnes(ThreadAfter(th, d, r).pc)
    ensures LastOnes(th.pc) || th.pc == R(R157)
  {
  }

  lemma NoLastStays(s: State, u: nat)
    requires Known(s) && Enabled(s, u) && Coming(s) >= s.r && SantaPlace(s) != S123 && !HasLast(s)
    ensures !HasLast(Exec(s, u))
  {
    NobodyComes(s, u);
    forall t: nat | t < |s.threads|
      ensures !LastOnes(Exec(s, u).threads[t].pc)
    {
      assert !LastOnes(s.threads[t].pc);
      if t != u {
        OthersUntouched(s, u, t);
      } else if LastOnes(Exec(s, u).threads[u].pc) {
        LastFrom(s.threads[u], s.data, s.r);
      }
    }
  }

  lemma NoPastStays(s: State, u: nat)
    requires Known(s) && Enabled(s, u) && Coming(s) >= s.r && !HasPast(s)
    ensures !HasPast(Exec(s, u))
  {
    forall t: nat | t < |s.threads|
      ensures !PastTest(Exec(s, u).threads[t].pc)
    {
      assert !PastTest(s.threads[t].pc);
      if t != u {
        OthersUntouched(s, u, t);
      } else {
        PastFrom(s.threads[u], s.data, s.r);
        if s.threads[u].pc == E(E203) {
          RunsAt(s, u);
          AllUnderMutex(s, u);
        }
      }
    }
  }

  lemma PastFrom(th: Thread, d: Data, r: nat)
    ensures PastTest(ThreadAfter(th, d, r).pc) ==> PastTest(th.pc) || (th.pc == E(E203) && d.reindeers != r)
  {
  }

  /** The call of the last reindeer leaves no other. */
  lemma LastHasCalled(s: State, u: nat)
    requires Known(s) && Enabled(s, u) && Coming(s) >= s.r && s.threads[u].pc == R(R168)
    ensures !HasLast(Exec(s, u))
  {
    assert 1 <= u <= s.r;
    if u !in s.data.counted {
      NobodyMissing(s, u);
    }
    assert FactOf(s, u);
    NoOtherReindeerCalls(s, u);
    forall t: nat | t < |s.threads|
      ensures !LastOnes(Exec(s, u).threads[t].pc)
    {
      AllCountedNobodyCounts(s, t);
      if t != u {
        OthersUntouched(s, u, t);
      }
      assert Roles(s);
    }
  }

  lemma AllCountedNobodyCounts(s: State, t: nat)
    requires Known(s) && s.data.reindeers == s.r && t < |s.threads|
    ensures s.threads[t].pc != R(R158)
  {
    if s.threads[t].pc == R(R158) {
      NotCountedYet(s, t);
      RoomForOne(s, t);
    }
  }

  /** The call of an elf leaves no other that has come past its test. */
  lemma PastHasCalled(s: State, u: nat)
    requires Known(s) && Enabled(s, u) && s.threads[u].pc == E(E211)
    ensures !HasPast(Exec(s, u))
  {
    RunsAt(s, u);
    forall t: nat | t < |s.threads|
      ensures !PastTest(Exec(s, u).threads[t].pc)
    {
      if t != u {
        OthersUntouched(s, u, t);
        RunsAt(s, t);
        Apart(s, t, u, Sleep);
        PastTestHolds(s.threads[t]);
      }
    }
  }

  /** While Santa is up, or holds sleep_mutex, no elf is past its test. */
  lemma NobodyPast(s: State)
    requires Known(s) && Enabled(s, 0)
    ensures !HasPast(s)
  {
    forall t: nat | t < |s.threads|
      ensures !PastTest(s.threads[t].pc)
    {
      if PastTest(s.threads[t].pc) {
        ElfKeepsSantaOut(s, t);
      }
    }
  }

  // A schedule that leads to the delivery.

  lemma TwoCallsStay(s: State, u: nat)
    requires Known(s) && Later(s) && Coming(s) >= s.r && Enabled(s, u) && Chosen(s, u)
    requires SantaPlace(s) != S121 && (s.owner != map[] ==> u == 0 || HoldsAny(s.threads[u]))
    ensures TwoCalls(Exec(s, u)) && Coming(Exec(s, u)) >= s.r
  {
    ComingNotLess(s, u);
    if HasEarly(s) {
      EarlyStays(s, u);
    }
    if s.threads[u].pc == R(R168) {
      LastReindeerFetches(s, u);
    } else {
      if HasLast(s) {
        LastStays(s, u);
      }
      if u == 0 {
        SantaKeepsTwo(s);
      } else {
        OthersKeepTwo(s, u);
      }
    }
  }

  lemma SantaKeepsTwo(s: State)
    requires Known(s) && Later(s) && Coming(s) >= s.r && Enabled(s, 0) && SantaPlace(s) != S121
    requires HasEarly(s) ==> HasEarly(Exec(s, 0))
    requires HasLast(s) ==> HasLast(Exec(s, 0))
    ensures TwoCalls(Exec(s, 0))
  {
    SantaComesOn(s);
  }

  /** Santa comes on to line 121 or to waiting for a call. */
  lemma SantaComesOn(s: State)
    requires Known(s) && Later(s) && Coming(s) >= s.r && Enabled(s, 0) && SantaPlace(s) != S121
    ensures (OnTheWay(s.threads[0]) && OnTheWay(Exec(s, 0).threads[0])) ||
            (GoesToListen(s.threads[0]) && GoesToListen(Exec(s, 0).threads[0]) && HasEarly(s) && HasLast(s))
  {
    NobodyPast(s);
    if OnTheWay(s.threads[0]) {
      if SantaPlace(s) == S118 {
        AllHaveCounted(s);
      }
      WayGoesOn(s.threads[0], s.data, s.r);
    } else {
      ListensOn(s.threads[0], s.data, s.r);
    }
  }

  lemma WayGoesOn(z: Thread, d: Data, r: nat)
    requires OnTheWay(z) && z.pc != S(S121) && (z.pc == S(S118) ==> d.reindeers == r)
    ensures OnTheWay(ThreadAfter(z, d, r))
  {
  }

  /** While nobody holds a mutex no elf is past its test. */
  lemma NobodyPastQuiet(s: State)
    requires Known(s) && s.owner == map[]
    ensures !HasPast(s)
  {
    forall t: nat | t < |s.threads|
      ensures !PastTest(s.threads[t].pc)
    {
      RunsAt(s, t);
      HoldsNothing(s, t);
    }
  }

  /** Nobody else holds a mutex, so that it is an early elf that is left. */
  lemma LastReindeerFetches(s: State, u: nat)
    requires Known(s) && Later(s) && Coming(s) >= s.r && Enabled(s, u) && s.threads[u].pc == R(R168)
    requires s.owner == map[] && s.threads[0] == Thread(S(S111), Asleep)
    requires HasEarly(s) ==> HasEarly(Exec(s, u))
    ensures TwoCalls(Exec(s, u))
  {
    NobodyPastQuiet(s);
    OnlyCalls(s, u);
  }

  lemma OthersKeepTwo(s: State, u: nat)
    requires Known(s) && Later(s) && Coming(s) >= s.r && Enabled(s, u) && u != 0 && s.threads[u].pc != R(R168)
    requires HasEarly(s) ==> HasEarly(Exec(s, u))
    requires HasLast(s) ==> HasLast(Exec(s, u))
    ensures TwoCalls(Exec(s, u))
  {
    OthersUntouched(s, u, 0);
    if s.threads[0] == Thread(S(S111), Asleep) && HasPast(s) && Exec(s, u).threads[0] == s.threads[0] {
      PastStays(s, u);
    }
  }

  lemma PastStays(s: State, u: nat)
    requires Known(s) && Enabled(s, u) && u != 0 && HasPast(s) && s.threads[0] == Thread(S(S111), Asleep)
    requires Exec(s, u).threads[0] == s.threads[0]
    ensures HasPast(Exec(s, u))
  {
    var t: nat :| t < |s.threads| && PastTest(s.threads[t].pc);
    if t == u {
      ElfGoesOn(s.threads[u], s.data, s.r);
    } else {
      OthersUntouched(s, u, t);
    }
    assert PastTest(Exec(s, u).threads[t].pc);
  }

  /** Of two callers, the one that does not hold a mutex while Santa waits is the last reindeer. */
  lemma LastAwake(s: State) returns (t: nat)
    requires Known(s) && Later(s) && Coming(s) >= s.r && s.owner == map[] && s.threads[0] == Thread(S(S111), Asleep)
    ensures 0 < t < |s.threads| && CallerAt(s.threads[t].pc) && s.threads[t].mode != Asleep
  {
    NobodyPastQuiet(s);
    t :| t < |s.threads| && LastOnes(s.threads[t].pc);
    RunsAt(s, t);
    LastHolds(s.threads[t]);
    assert Has(s.threads[t], Reindeers) ==> Reindeers in s.owner;
    assert FactOf(s, t) && FactOf(s, 0);
    CallersWait(s.threads[t].pc);
  }

  lemma LastHolds(th: Thread)
    requires LastOnes(th.pc) && (!Code(th.pc).Wait? ==> th.mode == Running)
    ensures Has(th, Reindeers) || CallerAt(th.pc)
  {
  }

  lemma NextOfTwo(s: State) returns (u: nat)
    requires Known(s) && Later(s) && Coming(s) >= s.r && SantaPlace(s) != S121
    ensures Enabled(s, u) && Chosen(s, u) && CloserToHelp(s, Exec(s, u))
    ensures s.owner != map[] ==> u == 0 || HoldsAny(s.threads[u])
  {
    if s.owner != map[] {
      var t := SomebodyHolds(s);
      u := HolderMoves(s, t);
    } else if s.threads[0] != Thread(S(S111), Asleep) {
      u := 0;
      SantaCanGo(s);
    } else {
      u := LastAwake(s);
      CallersWait(s.threads[u].pc);
    }
    if u == 0 {
      SantaComesCloser(s);
    } else {
      OtherCloser(s, u);
    }
  }

  lemma SantaComesCloser(s: State)
    requires Known(s) && Later(s) && Coming(s) >= s.r && Enabled(s, 0) && SantaPlace(s) != S121
    ensures CloserToHelp(s, Exec(s, 0))
  {
    SantaGoesCloser(s.threads[0], s.data, s.r);
  }

  lemma SantaGoesCloser(z: Thread, d: Data, r: nat)
    requires OnTheWay(z) || GoesToListen(z)
    requires z.pc != S(S121) && z.mode != Asleep && d.deliveries < DELIVERS_NUMBER
    ensures HelpLeft(ThreadAfter(z, d, r)) < HelpLeft(z)
  {
  }

  /** Santa sets out, and the other caller is left. */
  lemma SetsOut(s: State)
    requires Known(s) && Later(s) && s.r > 0 && SantaPlace(s) == S121
    ensures Enabled(s, 0) && Roles(Exec(s, 0)) && Helpful(Exec(s, 0))
  {
    RunsAt(s, 0);
    StepRoles(s, 0);
    ElvesStay(s, 0);
    LogAfter(s.data, S(S121), 0);
    assert SantaAt(S121, s.data, s.r);
    var t := WhoIsLeft(s);
    OthersUntouched(s, 0, t);
    assert InTime(Exec(s, 0).threads[0], Exec(s, 0).threads[t].pc);
  }

  lemma WhoIsLeft(s: State) returns (t: nat)
    requires Known(s) && Later(s) && SantaPlace(s) == S121
    ensures 0 < t < |s.threads| && WillCall(s.threads[t].pc)
  {
    assert SantaAt(S121, s.data, s.r);
    RunsAt(s, 0);
    if HasEarly(s) {
      t :| t < |s.threads| && EarlyElf(s.threads[t].pc);
    } else {
      t :| t < |s.threads| && LastOnes(s.threads[t].pc);
      RunsAt(s, t);
      LastHolds(s.threads[t]);
      Apart(s, 0, t, Reindeers);
    }
  }

  // Before that, all reindeers come.

  /** A reindeer that is not counted, or one that keeps it from going on, can go on. */
  lemma NextToGather(s: State) returns (u: nat)
    requires Known(s) && Later(s) && Coming(s) < s.r
    ensures Enabled(s, u) && 1 <= u <= s.r && s.threads[u].pc != R(R168)
  {
    assert DeliveriesOk(s);
    var x := NotCounted(s);
    assert !LeftOut(s, x);
    assert FactOf(s, x);
    Outside(s.threads[x]);
    u := x;
    if Wants(s.threads[x]).Some? && Wants(s.threads[x]).m in s.owner {
      u := s.owner[Wants(s.threads[x]).m];
      OwnerIsReindeer(s, u, Wants(s.threads[x]).m);
    }
  }

  lemma NotCounted(s: State) returns (x: nat)
    requires Inv(s) && s.data.reindeers < s.r
    ensures 1 <= x <= s.r && x !in s.data.counted
  {
    if forall v | 1 <= v <= s.r :: v in s.data.counted {
      CountedAll(s);
    }
    x :| 1 <= x <= s.r && x !in s.data.counted;
  }

  /** Where a reindeer is that has not come back. */
  lemma Outside(th: Thread)
    requires th.pc.R? && !Back(th) && (!Code(th.pc).Wait? ==> th.mode == Running)
    ensures th.pc == R(R175) || (th.mode != Asleep && Code(th.pc) != Exit && th.pc != R(R168))
    ensures Wants(th).Some? ==> Wants(th).m == Reindeers || Wants(th).m == ReindeersWaiting
  {
  }

  /** While an elf holds sleep_mutex that is not past its test, the reindeers have their mutexes among themselves. */
  lemma OwnerIsReindeer(s: State, u: nat, m: Mutex)
    requires Known(s) && Later(s) && Coming(s) < s.r && u < |s.threads| && Has(s.threads[u], m)
    requires m == Reindeers || m == ReindeersWaiting
    ensures Enabled(s, u) && 1 <= u <= s.r && s.threads[u].pc != R(R168)
  {
    var t: nat :| t < |s.threads| && Stoppable(s.threads[t].pc);
    RunsAt(s, t);
    if t != u {
      Apart(s, t, u, Sleep);
    }
    WhoHas(s.threads[u], m);
  }

  lemma WhoHas(th: Thread, m: Mutex)
    requires Has(th, m) && (m == Reindeers || m == ReindeersWaiting)
    ensures th.pc.R? || Has(th, Sleep) || (th.pc.S? && th.pc != S(S110))
    ensures th.pc.R? ==> Wants(th).NoMutex? && Code(th.pc) != Exit && th.pc != R(R168)
  {
  }

  lemma GatherStays(s: State, u: nat)
    requires Known(s) && Later(s) && Coming(s) < s.r && Enabled(s, u) && 1 <= u <= s.r && s.threads[u].pc != R(R168)
    ensures Roles(Exec(s, u)) && Later(Exec(s, u))
  {
    StepRoles(s, u);
    ElvesStay(s, u);
    DeliveriesStay(s, u);
    OthersUntouched(s, u, 0);
    var t: nat :| t < |s.threads| && Stoppable(s.threads[t].pc);
    OthersUntouched(s, u, t);
    assert Stoppable(Exec(s, u).threads[t].pc) && EarlyElf(Exec(s, u).threads[t].pc);
    if Coming(Exec(s, u)) >= s.r {
      CountsLast(s, u);
    } else {
      forall x: nat
        ensures !LeftOut(Exec(s, u), x)
      {
        NobodyNewLeftOut(s, u, x);
      }
    }
  }

  /** The one with which all are counted. */
  lemma CountsLast(s: State, u: nat)
    requires Known(s) && Coming(s) < s.r && Enabled(s, u) && s.threads[u].pc.R? && Coming(Exec(s, u)) >= s.r
    ensures HasLast(Exec(s, u))
  {
    if s.threads[u].pc == R(R157) {
      assert LastOnes(Exec(s, u).threads[u].pc);
    } else {
      ComingStays(s, u);
    }
  }

  lemma GatherCloser(s: State, u: nat)
    requires Known(s) && Later(s) && Coming(s) < s.r && Enabled(s, u) && 1 <= u <= s.r && s.threads[u].pc != R(R168)
    ensures Exec(s, u).threads[0] == s.threads[0]
    ensures ReindeerWork(Exec(s, u)) < ReindeerWork(s)
  {
    OthersUntouched(s, u, 0);
    OthersBroadcastAny(s.threads[u].pc);
    ReindeerWorkAfter(s, u);
    ReindeerGoesDown(s.threads[u], s.data, s.r);
  }

  ghost predicate LeadsToReset(path: seq<State>, s: State) {
    && IsPath(path) && path[0] == s
    && path[|path| - 1].threads != [] && path[|path| - 1].threads[0].pc == S(S142)
  }

  ghost function Gathering(s: State): nat {
    if Coming(s) < s.r then 1 else 0
  }

  ghost function WorkBefore(s: State): nat {
    if Coming(s) < s.r then ReindeerWork(s) else CallWork(s)
  }

  ghost predicate CloserToLater(s: State, s': State) {
    && s.threads != [] && s'.threads != []
    && (Gathering(s') < Gathering(s)
        || (Gathering(s') == Gathering(s)
            && (HelpLeft(s'.threads[0]) < HelpLeft(s.threads[0])
                || (HelpLeft(s'.threads[0]) == HelpLeft(s.threads[0]) && WorkBefore(s') < WorkBefore(s)))))
  }

  lemma GatherNext(s: State) returns (u: nat)
    requires Known(s) && Later(s) && Coming(s) < s.r
    ensures Enabled(s, u) && Roles(Exec(s, u)) && Later(Exec(s, u)) && CloserToLater(s, Exec(s, u))
  {
    u := NextToGather(s);
    GatherStays(s, u);
    GatherCloser(s, u);
    SameReindeers(s, u);
  }

  lemma TwoNext(s: State) returns (u: nat)
    requires Known(s) && Later(s) && Coming(s) >= s.r && SantaPlace(s) != S121
    ensures Enabled(s, u) && Roles(Exec(s, u)) && Later(Exec(s, u)) && CloserToLater(s, Exec(s, u))
  {
    u := NextOfTwo(s);
    TwoCallsStay(s, u);
    LaterStays(s, u);
    SameReindeers(s, u);
  }

  lemma LaterNext(s: State) returns (u: nat)
    requires Known(s) && Later(s) && SantaPlace(s) != S121
    ensures Enabled(s, u) && Roles(Exec(s, u)) && Later(Exec(s, u)) && CloserToLater(s, Exec(s, u))
  {
    if Coming(s) < s.r {
      u := GatherNext(s);
    } else {
      u := TwoNext(s);
    }
  }

  lemma {:induction false} LaterPossible(s: State) returns (path: seq<State>)
    requires Known(s) && Later(s) && s.r > 0
    ensures LeadsToReset(path, s)
    decreases Gathering(s), HelpLeft(s.threads[0]), WorkBefore(s)
  {
    var u: nat := 0;
    if SantaPlace(s) == S121 {
      SetsOut(s);
      StepKnown(s, 0);
      path := HelpPossible(Exec(s, 0));
    } else {
      u := LaterNext(s);
      StepKnown(s, u);
      SameReindeers(s, u);
      path := LaterPossible(Exec(s, u));
    }
    PathFrom(s, path);
    path := [s] + path;
  }

  lemma LaterStays(s: State, u: nat)
    requires Known(s) && Later(s) && Enabled(s, u) && SantaPlace(s) != S121 && Coming(s) >= s.r
    requires TwoCalls(Exec(s, u)) && Coming(Exec(s, u)) >= s.r
    ensures Roles(Exec(s, u)) && Later(Exec(s, u))
  {
    StepRoles(s, u);
    NotAtHelp(s, u);
    ElvesStay(s, u);
    DeliveriesStay(s, u);
  }

  lemma NotAtHelp(s: State, u: nat)
    requires Known(s) && Later(s) && Coming(s) >= s.r && u < |s.threads|
    ensures s.threads[u].pc != S(S142)
  {
    assert OnTheWay(s.threads[0]) || GoesToListen(s.threads[0]);
  }

  // Otherwise there is none.

  ghost predicate Never(s: State)
    requires Roles(s)
  {
    s.data.elves == REQUIRED_ELVES_NUMBER && !Helpful(s) && !Later(s)
  }

  /** At his last call for a delivery nobody is left, so that he helps nobody afterwards. */
  lemma NobodyLeft(s: State)
    requires Known(s) && Never(s) && SantaPlace(s) == S121 && Enabled(s, 0) && Roles(Exec(s, 0))
    ensures !Helpful(Exec(s, 0)) && !Later(Exec(s, 0))
  {
    LogAfter(s.data, S(S121), 0);
    assert SantaAt(S121, s.data, s.r);
    NobodyPast(s);
    if s.data.deliveries + 1 < DELIVERS_NUMBER {
      assert OnTheWay(s.threads[0]) && Coming(s) >= s.r;
      forall t: nat | t < |s.threads|
        ensures !WillCall(Exec(s, 0).threads[t].pc)
      {
        if t != 0 {
          OthersUntouched(s, 0, t);
        }
        assert !EarlyElf(s.threads[t].pc) && !LastOnes(s.threads[t].pc) && !PastTest(s.threads[t].pc);
        Kinds(s.threads[t].pc);
      }
    }
    AtEnd(Exec(s, 0));
  }

  lemma Kinds(pc: Pc)
    ensures WillCall(pc) ==> EarlyElf(pc) || LastOnes(pc) || PastTest(pc)
  {
  }

  /** While Santa ends a delivery there is no later help if there is none at once. */
  lemma AtEnd(s: State)
    requires Roles(s) && EndsDelivery(s.threads[0])
    ensures !Later(s) && !Helps(s.threads[0])
  {
  }

  /** All reindeers are counted, or will be in a moment, and no second call is left. */
  lemma NoTwoCallsStay(s: State, u: nat)
    requires Known(s) && Enabled(s, u) && s.data.elves == REQUIRED_ELVES_NUMBER
    requires Coming(s) >= s.r && !TwoCalls(s) && !EndsDelivery(s.threads[0]) && !Helps(s.threads[0])
    requires u == 0 ==> SantaPlace(s) != S121
    ensures !TwoCalls(Exec(s, u))
  {
    if !HasEarly(s) {
      NoEarlyStays(s, u);
    }
    if !HasLast(s) {
      NoLastStays(s, u);
    }
    if !HasPast(s) {
      NoPastStays(s, u);
    }
    if u == 0 {
      NobodyPast(s);
      NoPastStays(s, u);
      SantaGoesNoOtherWay(s);
    } else {
      OthersUntouched(s, u, 0);
      CallsSanta(s.threads[u].pc);
      if s.threads[u].pc == R(R168) {
        LastHasCalled(s, u);
        assert LastOnes(s.threads[u].pc);
      } else if s.threads[u].pc == E(E211) {
        PastHasCalled(s, u);
        assert PastTest(s.threads[u].pc);
      }
    }
  }

  lemma SantaGoesNoOtherWay(s: State)
    requires Known(s) && Enabled(s, 0) && Coming(s) >= s.r && SantaPlace(s) != S121
    requires !EndsDelivery(s.threads[0]) && !Helps(s.threads[0])
    ensures OnTheWay(Exec(s, 0).threads[0]) ==> OnTheWay(s.threads[0])
    ensures GoesToListen(Exec(s, 0).threads[0]) ==> GoesToListen(s.threads[0])
  {
    if SantaPlace(s) == S118 {
      AllHaveCounted(s);
    }
    OneWay(s.threads[0], s.data, s.r);
  }

  lemma OneWay(z: Thread, d: Data, r: nat)
    requires z.pc.S? && z.mode != Asleep && !EndsDelivery(z) && !Helps(z) && z.pc != S(S121)
    requires z.pc == S(S118) ==> d.reindeers == r
    ensures OnTheWay(ThreadAfter(z, d, r)) ==> OnTheWay(z)
    ensures GoesToListen(ThreadAfter(z, d, r)) ==> GoesToListen(z)
  {
  }

  /** A reindeer is missing, and nobody will call in time. */
  lemma NotRescuedStays(s: State, u: nat)
    requires Known(s) && Enabled(s, u) && Never(s) && Coming(s) < s.r && GoesToListen(s.threads[0])
    requires !CallsInTime(s) && s.data.deliveries + 1 < DELIVERS_NUMBER && Roles(Exec(s, u))
    ensures if Coming(Exec(s, u)) >= s.r then !TwoCalls(Exec(s, u)) else !Rescued(Exec(s, u))
  {
    if u == 0 {
      ComingStays(s, 0);
      NotRescuedBySanta(s);
    } else {
      UnheardStays(s, u);
      if Coming(Exec(s, u)) >= s.r {
        TooLateForTwo(s, u);
      } else {
        NotRescuedByOthers(s, u);
      }
    }
  }

  lemma NotRescuedBySanta(s: State)
    requires Known(s) && Enabled(s, 0) && !CallsInTime(s) && GoesToListen(s.threads[0]) && Roles(Exec(s, 0))
    ensures !Rescued(Exec(s, 0))
  {
    ComesTo110(s.threads[0], s.data, s.r);
    if SantaPlace(Exec(s, 0)) == S110 {
      forall t: nat | t < |s.threads|
        ensures !Stoppable(Exec(s, 0).threads[t].pc)
      {
        if t != 0 {
          OthersUntouched(s, 0, t);
        }
        assert !InTime(s.threads[0], s.threads[t].pc);
      }
    }
  }

  lemma StoppableFrom(th: Thread, d: Data, r: nat)
    requires Stoppable(ThreadAfter(th, d, r).pc)
    ensures th.pc == E(E201) || th.pc == E(E205)
  {
  }

  /** Nobody becomes stoppable, and whoever is left out stays so. */
  lemma NotRescuedByOthers(s: State, u: nat)
    requires Known(s) && Enabled(s, u) && Never(s) && Coming(s) < s.r && u != 0 && !CallsInTime(s)
    requires s.data.deliveries + 1 < DELIVERS_NUMBER && Roles(Exec(s, u)) && Exec(s, u).threads[0] == s.threads[0]
    ensures !Rescued(Exec(s, u))
  {
    if SantaPlace(s) == S110 {
      if x: nat :| LeftOut(s, x) {
        LeftOutStays(s, x, u);
      } else {
        forall t: nat | t < |s.threads|
          ensures !Stoppable(Exec(s, u).threads[t].pc)
        {
          assert !Stoppable(s.threads[t].pc) && !InTime(s.threads[0], s.threads[t].pc);
          if t != u {
            OthersUntouched(s, u, t);
          } else if Stoppable(Exec(s, u).threads[u].pc) {
            StoppableFrom(s.threads[u], s.data, s.r);
          }
        }
      }
    }
  }

  /** When the last reindeer comes, no elf is left that can be told to wait. */
  lemma TooLateForTwo(s: State, u: nat)
    requires Known(s) && Enabled(s, u) && Never(s) && Coming(s) < s.r && GoesToListen(s.threads[0]) && u != 0
    requires !CallsInTime(s) && s.data.deliveries + 1 < DELIVERS_NUMBER && Roles(Exec(s, u))
    requires Exec(s, u).threads[0] == s.threads[0] && !CallsInTime(Exec(s, u)) && Coming(Exec(s, u)) >= s.r
    ensures !TwoCalls(Exec(s, u))
  {
    LastLocks(s, u);
    NobodyStoppable(s, u);
    forall t: nat | t < |s.threads|
      ensures !EarlyElf(Exec(s, u).threads[t].pc)
    {
      if t != u {
        OthersUntouched(s, u, t);
        NotEarlyHere(s, t);
      }
    }
    if s.threads[0].pc == S(S111) {
      forall t: nat | t < |s.threads|
        ensures !PastTest(Exec(s, u).threads[t].pc)
      {
        assert !InTime(Exec(s, u).threads[0], Exec(s, u).threads[t].pc);
      }
    }
    ListeningNotComing(s.threads[0]);
  }

  lemma ListeningNotComing(z: Thread)
    requires GoesToListen(z)
    ensures !OnTheWay(z)
  {
  }

  lemma LastLocks(s: State, u: nat)
    requires Known(s) && Enabled(s, u) && u != 0 && Coming(s) < s.r && Coming(Exec(s, u)) >= s.r
    ensures s.threads[u].pc == R(R157) && Reindeers !in s.owner
    ensures Exec(s, u).threads[u].pc == R(R158)
  {
    if s.threads[u].pc != R(R157) {
      ComingStays(s, u);
    }
  }

  lemma NobodyStoppable(s: State, u: nat)
    requires Known(s) && Never(s) && Coming(s) < s.r && s.data.deliveries + 1 < DELIVERS_NUMBER
    requires Enabled(s, u) && s.threads[u].pc == R(R157) && Coming(Exec(s, u)) >= s.r
    ensures SantaPlace(s) == S110 ==> !HasStoppable(s)
  {
    NobodyLeftOut(s, u);
  }

  lemma NotEarlyHere(s: State, t: nat)
    requires Known(s) && !CallsInTime(s) && Reindeers !in s.owner && t < |s.threads|
    requires SantaPlace(s) == S110 ==> !HasStoppable(s)
    ensures !EarlyElf(s.threads[t].pc)
  {
    assert !InTime(s.threads[0], s.threads[t].pc);
    RunsAt(s, t);
    EarlyAndHasty(s.threads[t]);
    assert Has(s.threads[t], Reindeers) ==> Reindeers in s.owner;
  }

  /** If the one that comes is the last, nobody is left out. */
  lemma NobodyLeftOut(s: State, u: nat)
    requires Known(s) && Enabled(s, u) && s.threads[u].pc == R(R157) && Coming(Exec(s, u)) >= s.r
    ensures forall x :: !LeftOut(s, x)
  {
    forall x: nat
      ensures !LeftOut(s, x)
    {
      if LeftOut(s, x) {
        LeftOutStays(s, x, u);
        StepKnown(s, u);
        BackIsPast(Exec(s, u).threads[x]);
        SantaDoesNotReset(s, x, u);
        NobodyMissing(Exec(s, u), x);
      }
    }
  }

  lemma BackIsPast(th: Thread)
    requires Back(th)
    ensures th.pc != R(R158)
  {
  }

  /** The one that comes has reindeers_mutex, which Santa needs to reset the count. */
  lemma SantaDoesNotReset(s: State, x: nat, u: nat)
    requires Known(s) && Enabled(s, u) && LeftOut(s, x) && s.threads[u].pc == R(R157)
    ensures x !in Exec(s, u).data.counted
  {
    CountsAfter(s.data, R(R157), u);
    RunsAt(s, u);
    RunsAt(s, 0);
    assert Has(s.threads[0], Reindeers) ==> Reindeers in s.owner;
  }

  lemma EarlyAndHasty(th: Thread)
    requires !Code(th.pc).Wait? ==> th.mode == Running
    ensures EarlyElf(th.pc) ==> WillCall(th.pc)
    ensures EarlyElf(th.pc) && Hasty(th.pc) ==> Stoppable(th.pc) || Has(th, Reindeers)
  {
  }

  lemma NeverStep(s: State, u: nat)
    requires Known(s) && Never(s) && Enabled(s, u) && s.r > 0
    ensures Roles(Exec(s, u)) && Never(Exec(s, u))
  {
    StepRoles(s, u);
    NotAtReset(s, u);
    ElvesStay(s, u);
    if u == 0 && SantaPlace(s) == S121 {
      NobodyLeft(s);
    } else {
      DeliveriesStay(s, u);
      NoHelpStep(s, u);
      if s.data.deliveries + 1 < DELIVERS_NUMBER {
        NoLaterStays(s, u);
      }
    }
  }

  lemma NoLaterStays(s: State, u: nat)
    requires Known(s) && Never(s) && Enabled(s, u) && s.r > 0 && !Helps(s.threads[0]) && Roles(Exec(s, u))
    requires (u == 0 ==> SantaPlace(s) != S121) && s.data.deliveries + 1 < DELIVERS_NUMBER
    ensures !Later(Exec(s, u))
  {
    var z := s.threads[0];
    if EndsDelivery(z) {
      EndStays(s, u);
    } else if Coming(s) >= s.r {
      ComingNotLess(s, u);
      NoTwoCallsStay(s, u);
    } else if GoesToListen(z) {
      NotRescuedStays(s, u);
    } else {
      NothingElse(z);
      SantaEnded(s);
    }
  }

  /** Santa has ended, or is to deliver, for which all reindeers are counted. */
  lemma SantaEnded(s: State)
    requires Known(s) && Coming(s) < s.r && (SantaPlace(s) == S121 || SantaPlace(s) == S127)
    ensures s.data.deliveries >= DELIVERS_NUMBER
  {
    assert SantaAt(SantaPlace(s), s.data, s.r);
  }

  lemma EndStays(s: State, u: nat)
    requires Known(s) && Enabled(s, u) && EndsDelivery(s.threads[0]) && s.r > 0 && Roles(Exec(s, u))
    ensures !Later(Exec(s, u))
  {
    if u == 0 {
      EndsOn(s);
      if EndsDelivery(Exec(s, 0).threads[0]) {
        AtEnd(Exec(s, 0));
      } else {
        ComesTo110(s.threads[0], s.data, s.r);
      }
    } else {
      OthersUntouched(s, u, 0);
      AtEnd(Exec(s, u));
    }
  }

  lemma NeverStays(s: State, s': State)
    requires Known(s) && Never(s) && Steady(s, s') && s.r > 0
    ensures Roles(s') && Never(s')
  {
    if u: nat :| Enabled(s, u) && s' == Exec(s, u) {
      NeverStep(s, u);
    } else {
      var u: nat :| u != 0 && MayWakeSpuriously(s, u) && s' == Spurious(s, u);
      SamePlaces(s, u);
      SameKinds(s, u);
    }
  }

  lemma SameKinds(s: State, u: nat)
    requires Known(s) && u != 0 && MayWakeSpuriously(s, u) && Roles(Spurious(s, u))
    ensures Later(Spurious(s, u)) ==> Later(s)
  {
    var s' := Spurious(s, u);
    assert forall t: nat | t < |s.threads| :: s'.threads[t].pc == s.threads[t].pc;
    assert CountsNow(s') <==> CountsNow(s) by {
      assert forall t: nat | t < |s.threads| :: s'.threads[t].pc == R(R158) <==> s.threads[t].pc == R(R158);
    }
    SameCallers(s, u);
    if forall x :: !LeftOut(s', x) {
      forall x: nat
        ensures !LeftOut(s, x)
      {
        SameLeftOut(s, u, x);
      }
    }
  }

  lemma SameCallers(s: State, u: nat)
    requires u != 0 && u < |s.threads|
    ensures HasEarly(Spurious(s, u)) ==> HasEarly(s)
    ensures HasLast(Spurious(s, u)) ==> HasLast(s)
    ensures HasPast(Spurious(s, u)) ==> HasPast(s)
    ensures HasStoppable(Spurious(s, u)) ==> HasStoppable(s)
  {
    var s' := Spurious(s, u);
    assert forall t: nat | t < |s.threads| :: EarlyElf(s'.threads[t].pc) ==> EarlyElf(s.threads[t].pc);
    assert forall t: nat | t < |s.threads| :: LastOnes(s'.threads[t].pc) ==> LastOnes(s.threads[t].pc);
    assert forall t: nat | t < |s.threads| :: PastTest(s'.threads[t].pc) ==> PastTest(s.threads[t].pc);
    assert forall t: nat | t < |s.threads| :: Stoppable(s'.threads[t].pc) ==> Stoppable(s.threads[t].pc);
  }

  lemma {:induction false} NeverOnPath(path: seq<State>, k: nat)
    requires IsPath(path) && Known(path[0]) && Never(path[0]) && path[0].r > 0 && k < |path|
    ensures Known(path[k]) && Never(path[k]) && path[k].r > 0
  {
    if k > 0 {
      NeverOnPath(path, k - 1);
      assert Steady(path[k - 1], path[k - 1 + 1]);
      SteadyKeeps(path[k - 1], path[k]);
      NeverStays(path[k - 1], path[k]);
    }
  }

  /**
   In every state of every run in which three elves are counted, Santa can come to reset their
   count, after however many deliveries, if and only if he can before the next one, or a call
   will be left after it.
   */
  lemma HelpComesAtLastIff(run: seq<State>, r: nat, e: nat, k: nat)
    requires IsRun(run, r, e) && k < |run| && run[k].data.elves == REQUIRED_ELVES_NUMBER && r > 0
    ensures Known(run[k])
    ensures (exists path :: LeadsToReset(path, run[k])) <==> Helpful(run[k]) || Later(run[k])
  {
    RunKnown(run, r, e, k);
    var s := run[k];
    if Helpful(s) {
      var path := HelpPossible(s);
      assert LeadsToReset(path, s);
    } else if Later(s) {
      var path := LaterPossible(s);
      assert LeadsToReset(path, s);
    } else {
      forall path | LeadsToReset(path, s)
        ensures false
      {
        NeverOnPath(path, |path| - 1);
        NoHelpNoReset(path[|path| - 1]);
      }
    }
  }
}
