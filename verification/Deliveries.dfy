/**
 When Santa can still come to deliver. Calls for him can be lost, and reindeers
 can miss the end of a delivery; from every reachable state a further delivery
 is possible exactly if neither has happened.
 */
module Deliveries {
  import opened Counting
  import opened Santa
  import opened SantaFacts

  // Who is still to come or to call.

  /** Santa has been woken and has not looked for the reindeers, or has found them. */
  predicate OnTheWay(z: Thread) {
    match z.pc
    case S(p) =>
      (match p
       case S111 => z.mode == Waking
       case S112 | S113 | S117 | S118 | S121 => true
       case _ => false)
    case _ => false
  }

  /** An elf that has found Santa asleep and reindeers missing, and is about to call him. */
  predicate PastTest(pc: Pc) {
    match pc
    case E(p) => p == E208 || p == E210 || p == E211
    case _ => false
  }

  predicate MayCall(pc: Pc) {
    CallerAt(pc) || pc == R(R161)
  }

  ghost predicate ReindeerCalls(s: State) {
    exists t :: 1 <= t <= s.r < |s.threads| && MayCall(s.threads[t].pc)
  }

  /** While Santa waits for a call, an elf is about to make one. */
  ghost predicate ElfCalls(s: State) {
    && s.threads != [] && s.threads[0].pc == S(S111)
    && exists t :: 0 <= t < |s.threads| && PastTest(s.threads[t].pc)
  }

  ghost predicate Called(s: State) {
    s.threads != [] && (OnTheWay(s.threads[0]) || ReindeerCalls(s) || ElfCalls(s))
  }

  /**
   A reindeer that has come back, is not among those counted, and waits for a delivery that takes
   place without it.
   */
  ghost predicate LeftOut(s: State, t: nat)
    requires Roles(s)
  {
    1 <= t <= s.r && Back(s.threads[t]) && (t !in s.data.counted || SantaPlace(s) == S123)
  }

  /** A reindeer that needs neither Santa nor the mutexes he makes others hold to be asleep when the delivery ends. */
  predicate GoesToRest(pc: Pc) {
    match pc
    case R(p) => p == R166 || p == R168 || p == R171 || p == R172
    case _ => false
  }

  ghost predicate Resting(s: State) {
    forall t | 1 <= t <= s.r < |s.threads| :: GoesToRest(s.threads[t].pc)
  }

  /** A further delivery can still take place. */
  ghost predicate Hope(s: State)
    requires Roles(s)
  {
    && s.data.deliveries < DELIVERS_NUMBER
    && if SantaPlace(s) == S122 then Resting(s)
       else (forall t :: !LeftOut(s, t)) && (s.data.reindeers == s.r && SantaPlace(s) != S123 ==> Called(s))
  }

  // Without hope no step brings it back, and no delivery takes place.

  /** In a state where Santa delivers everybody is counted. */
  lemma DeliveringCounts(s: State, t: nat)
    requires Known(s) && 1 <= t <= s.r
    requires SantaPlace(s) == S121 || SantaPlace(s) == S122
    ensures t in s.data.counted && Back(s.threads[t])
  {
    AllCounted(s, t);
  }

  lemma LeftOutStays(s: State, t: nat, u: nat)
    requires Known(s) && LeftOut(s, t) && Enabled(s, u)
    ensures Roles(Exec(s, u)) && LeftOut(Exec(s, u), t)
    ensures Exec(s, u).data.deliveries == s.data.deliveries
    ensures SantaPlace(s) != S121 && SantaPlace(s) != S122
  {
    StepRoles(s, u);
    if SantaPlace(s) == S121 || SantaPlace(s) == S122 {
      DeliveringCounts(s, t);
    }
    WhoCounts(s.threads[u].pc);
    StaysBack(s, t, u);
    StaysUncounted(s, t, u);
  }

  lemma StaysBack(s: State, t: nat, u: nat)
    requires Known(s) && t < |s.threads| && Back(s.threads[t]) && Enabled(s, u) && SantaPlace(s) != S122
    ensures Back(Exec(s, u).threads[t])
  {
    if u == t {
      BackStays(s.threads[t], s.data, s.r);
    } else {
      OthersUntouched(s, u, t);
      BroadcastsAtEnd(s.threads[u].pc);
    }
  }

  lemma BroadcastsAtEnd(pc: Pc)
    ensures Code(pc) == Broadcast(DeliveryEnded) ==> pc == S(S122)
  {
  }

  lemma StaysUncounted(s: State, t: nat, u: nat)
    requires Known(s) && LeftOut(s, t) && Enabled(s, u)
    ensures t !in Exec(s, u).data.counted || Exec(s, u).threads[0] == s.threads[0]
  {
    CountsAfter(s.data, s.threads[u].pc, u);
    if SantaPlace(s) == S123 && u != 0 {
      OthersUntouched(s, u, 0);
      RunsAt(s, 0);
    }
  }

  /** While Santa is at line 122, a reindeer that waits for him to sleep goes on doing so. */
  lemma UnreadyStays(s: State, t: nat, u: nat)
    requires Known(s) && SantaPlace(s) == S122 && 1 <= t <= s.r && !GoesToRest(s.threads[t].pc) && Enabled(s, u)
    ensures Roles(Exec(s, u)) && Exec(s, u).data.deliveries == s.data.deliveries
    ensures if u == 0 then LeftOut(Exec(s, u), t) && SantaPlace(Exec(s, u)) == S123
            else SantaPlace(Exec(s, u)) == S122 && !GoesToRest(Exec(s, u).threads[t].pc)
  {
    StepRoles(s, u);
    DeliveringCounts(s, t);
    RunsAt(s, t);
    Apart(s, 0, t, Reindeers);
    assert FactOf(s, 0) && FactOf(s, t);
    WhoCounts(s.threads[u].pc);
    if u != 0 {
      OthersUntouched(s, u, 0);
    }
    if u != t {
      OthersUntouched(s, u, t);
    }
  }

  lemma UncalledStays(s: State, u: nat)
    requires Known(s) && Enabled(s, u) && s.data.reindeers == s.r && !Called(s)
    requires SantaPlace(s) != S122 && SantaPlace(s) != S123
    ensures Roles(Exec(s, u)) && Exec(s, u).data.deliveries == s.data.deliveries
    ensures Exec(s, u).data.reindeers == s.r && !Called(Exec(s, u))
    ensures SantaPlace(Exec(s, u)) != S122 && SantaPlace(Exec(s, u)) != S123
  {
    StepRoles(s, u);
    DeliveriesStay(s, u);
    FullStays(s, u);
    SantaUncalled(s, u);
    NobodyCallsNow(s, u);
  }

  /** Only Santa at line 121 makes a delivery. */
  lemma DeliveriesStay(s: State, u: nat)
    requires Roles(s) && Enabled(s, u) && (u == 0 ==> SantaPlace(s) != S121)
    ensures Exec(s, u).data.deliveries == s.data.deliveries
  {
    LogAfter(s.data, s.threads[u].pc, u);
  }

  lemma NobodyCallsNow(s: State, u: nat)
    requires Known(s) && Enabled(s, u) && s.data.reindeers == s.r && s.threads[u].pc != R(R158)
    requires !ReindeerCalls(s) && !ElfCalls(s)
    ensures !ReindeerCalls(Exec(s, u)) && !ElfCalls(Exec(s, u))
  {
    ReindeersUncalled(s, u);
    ElvesUncalled(s, u);
  }

  /** Once all reindeers are counted they stay so until the reset. */
  lemma FullStays(s: State, u: nat)
    requires Known(s) && Enabled(s, u) && s.data.reindeers == s.r && s.threads[u].pc != S(S123)
    ensures Exec(s, u).data.reindeers == s.r && s.threads[u].pc != R(R158)
  {
    CountsAfter(s.data, s.threads[u].pc, u);
    if s.threads[u].pc == R(R158) {
      NotCountedYet(s, u);
      RoomForOne(s, u);
    }
  }

  lemma ReindeersUncalled(s: State, u: nat)
    requires Known(s) && Enabled(s, u) && s.threads[u].pc != R(R158) && !ReindeerCalls(s)
    ensures !ReindeerCalls(Exec(s, u))
  {
    forall t | 1 <= t <= s.r
      ensures !MayCall(Exec(s, u).threads[t].pc)
    {
      assert !MayCall(s.threads[t].pc);
      BothFrom(s, u, t);
    }
  }

  lemma SantaUncalled(s: State, u: nat)
    requires Known(s) && Enabled(s, u) && !Called(s)
    requires SantaPlace(s) != S122 && SantaPlace(s) != S123
    ensures Exec(s, u).threads[0].pc.S? && !OnTheWay(Exec(s, u).threads[0])
    ensures SantaPlace(Exec(s, u)) != S122 && SantaPlace(Exec(s, u)) != S123
  {
    SantaComesTo(s, u);
    if u == 0 {
      StaysOffTheWay(s.threads[0], s.data, s.r);
    } else {
      OthersUntouched(s, u, 0);
      CallsSanta(s.threads[u].pc);
      assert PastTest(s.threads[u].pc) ==> s.threads[0].pc != S(S111);
    }
  }

  lemma StaysOffTheWay(z: Thread, d: Data, r: nat)
    requires z.pc.S? && !OnTheWay(z)
    ensures !OnTheWay(ThreadAfter(z, d, r))
  {
  }

  /** Who calls Santa. */
  lemma CallsSanta(pc: Pc)
    ensures Code(pc) == Broadcast(SantaTask) <==> pc == R(R168) || pc == E(E211)
  {
  }

  lemma ElvesUncalled(s: State, u: nat)
    requires Known(s) && Enabled(s, u) && s.data.reindeers == s.r && !ElfCalls(s)
    ensures !ElfCalls(Exec(s, u))
  {
    var s' := Exec(s, u);
    forall t: nat | t < |s'.threads| && PastTest(s'.threads[t].pc)
      ensures s'.threads[0].pc != S(S111)
    {
      if t == u {
        ElfGetsPast(s.threads[u], s.data, s.r);
      } else {
        OthersUntouched(s, u, t);
      }
      if u == 0 {
        ElfKeepsSantaOut(s, t);
      } else {
        OthersUntouched(s, u, 0);
      }
    }
  }

  /** While an elf is about to call, Santa waits for a call or for the elf to leave sleep_mutex. */
  lemma AsleepWhileElfCalls(s: State, t: nat)
    requires Known(s) && t < |s.threads| && PastTest(s.threads[t].pc)
    ensures s.threads[0].pc == S(S110) || (s.threads[0].pc == S(S111) && s.threads[0].mode != Running)
  {
    RunsAt(s, t);
    RunsAt(s, 0);
    Apart(s, 0, t, Sleep);
    assert FactOf(s, 0) && FactOf(s, t);
  }

  lemma ElfKeepsSantaOut(s: State, t: nat)
    requires Known(s) && t < |s.threads| && PastTest(s.threads[t].pc)
    ensures !Enabled(s, 0)
  {
    RunsAt(s, t);
    AsleepWhileElfCalls(s, t);
    PastTestHolds(s.threads[t]);
    assert Has(s.threads[t], Sleep) && Sleep in s.owner;
    RunsAt(s, 0);
    WantsToListen(s.threads[0]);
  }

  lemma WantsToListen(z: Thread)
    requires !Code(z.pc).Wait? ==> z.mode == Running
    ensures z.pc == S(S110) || (z.pc == S(S111) && z.mode == Waking) ==> Wants(z) == Some(Sleep)
  {
  }

  lemma ElfGetsPast(th: Thread, d: Data, r: nat)
    requires PastTest(ThreadAfter(th, d, r).pc) && d.reindeers == r
    ensures PastTest(th.pc)
  {
  }

  lemma HopelessStays(s: State, u: nat)
    requires Known(s) && !Hope(s) && Enabled(s, u)
    ensures Roles(Exec(s, u)) && !Hope(Exec(s, u)) && Exec(s, u).data.deliveries == s.data.deliveries
  {
    if s.data.deliveries >= DELIVERS_NUMBER {
      StepRoles(s, u);
      WhoCounts(s.threads[u].pc);
    } else if SantaPlace(s) == S122 {
      HopelessAtEnd(s, u);
    } else if t: nat :| LeftOut(s, t) {
      LeftOutStays(s, t, u);
      SantaComesTo(s, u);
    } else {
      UncalledStays(s, u);
    }
  }

  lemma HopelessAtEnd(s: State, u: nat)
    requires Known(s) && !Hope(s) && Enabled(s, u) && SantaPlace(s) == S122 && s.data.deliveries < DELIVERS_NUMBER
    ensures Roles(Exec(s, u)) && !Hope(Exec(s, u)) && Exec(s, u).data.deliveries == s.data.deliveries
  {
    var t: nat :| 1 <= t <= s.r && !GoesToRest(s.threads[t].pc);
    UnreadyStays(s, t, u);
  }

  /** How Santa comes to lines 122 and 123. */
  lemma SantaComesTo(s: State, u: nat)
    requires Known(s) && Enabled(s, u)
    ensures Exec(s, u).threads[0].pc.S?
    ensures SantaPlace(Exec(s, u)) == S122 ==> SantaPlace(s) == if u == 0 then S121 else S122
    ensures SantaPlace(Exec(s, u)) == S123 ==> SantaPlace(s) == if u == 0 then S122 else S123
  {
    if u == 0 {
      SantaGoes(s.threads[0], s.data, s.r);
    } else {
      OthersUntouched(s, u, 0);
    }
  }

  lemma SantaGoes(z: Thread, d: Data, r: nat)
    requires z.pc.S? && Code(z.pc) != Exit
    ensures ThreadAfter(z, d, r).pc.S?
    ensures ThreadAfter(z, d, r).pc == S(S122) ==> z.pc == S(S121)
    ensures ThreadAfter(z, d, r).pc == S(S123) ==> z.pc == S(S122)
  {
  }

  // The three moments at which hope is lost.

  /**
   Santa sets out on a delivery that is the last one, or that some reindeer cannot wait
   for asleep; or he ends one while some reindeer is not asleep; or the last reindeer
   calls him while he neither waits for a call nor has been called.
   */
  ghost predicate Loses(s: State, u: nat)
    requires Roles(s) && u < |s.threads|
  {
    || (u == 0 && SantaPlace(s) == S121 && (s.data.deliveries == DELIVERS_NUMBER - 1 || !Resting(s)))
    || (u == 0 && SantaPlace(s) == S122 && exists t :: 1 <= t <= s.r && s.threads[t] != Thread(R(R172), Asleep))
    || (s.threads[u].pc == R(R168) && SantaPlace(s) != S122
        && !OnTheWay(s.threads[0]) && s.threads[0] != Thread(S(S111), Asleep))
  }

  /** In the step in which Santa sets out. */
  lemma SettingOut(s: State)
    requires Known(s) && Hope(s) && Enabled(s, 0) && SantaPlace(s) == S121
    ensures Roles(Exec(s, 0)) && (Hope(Exec(s, 0)) <==> !Loses(s, 0))
    ensures Exec(s, 0).data.deliveries == s.data.deliveries + 1
  {
    StepRoles(s, 0);
    var s' := Exec(s, 0);
    assert FactOf(s, 0);
    forall t | 1 <= t <= s.r
      ensures s'.threads[t] == s.threads[t]
    {
      OthersUntouched(s, 0, t);
    }
  }

  /** In the step in which he ends a delivery. */
  lemma EndingDelivery(s: State)
    requires Known(s) && Hope(s) && Enabled(s, 0) && SantaPlace(s) == S122
    ensures Roles(Exec(s, 0)) && (Hope(Exec(s, 0)) <==> !Loses(s, 0))
  {
    StepRoles(s, 0);
    var s' := Exec(s, 0);
    forall t: nat | 1 <= t <= s.r
      ensures LeftOut(s', t) <==> s.threads[t] != Thread(R(R172), Asleep)
    {
      MissesEnd(s, t);
    }
    if Loses(s, 0) {
      var t: nat :| 1 <= t <= s.r && s.threads[t] != Thread(R(R172), Asleep);
      assert LeftOut(s', t);
    }
  }

  lemma MissesEnd(s: State, t: nat)
    requires Known(s) && Hope(s) && Enabled(s, 0) && SantaPlace(s) == S122 && 1 <= t <= s.r
    ensures Roles(Exec(s, 0)) && (LeftOut(Exec(s, 0), t) <==> s.threads[t] != Thread(R(R172), Asleep))
    ensures SantaPlace(Exec(s, 0)) == S123
  {
    StepInv(s, 0);
    DeliveringCounts(s, t);
    assert GoesToRest(s.threads[t].pc);
  }

  lemma RestingStays(s: State, u: nat)
    requires Known(s) && Hope(s) && Enabled(s, u) && SantaPlace(s) == S122 && u != 0
    ensures Roles(Exec(s, u)) && Hope(Exec(s, u))
  {
    StepRoles(s, u);
    OthersUntouched(s, u, 0);
    WhoCounts(s.threads[u].pc);
    forall t | 1 <= t <= s.r
      ensures GoesToRest(Exec(s, u).threads[t].pc)
    {
      OneRests(s, t, u);
    }
  }

  lemma OneRests(s: State, t: nat, u: nat)
    requires Known(s) && Enabled(s, u) && SantaPlace(s) == S122 && 1 <= t <= s.r && GoesToRest(s.threads[t].pc)
    ensures GoesToRest(Exec(s, u).threads[t].pc)
  {
    DeliveringCounts(s, t);
    if t == u {
      RestsOn(s.threads[t], s.data, s.r);
    } else {
      OthersUntouched(s, u, t);
    }
  }

  lemma RestsOn(th: Thread, d: Data, r: nat)
    requires GoesToRest(th.pc) && Back(th)
    ensures GoesToRest(ThreadAfter(th, d, r).pc)
  {
  }

  lemma NobodyNewLeftOut(s: State, u: nat, t: nat)
    requires Known(s) && !LeftOut(s, t) && Enabled(s, u) && SantaPlace(s) != S122
    requires u == 0 ==> SantaPlace(s) != S121
    ensures Roles(Exec(s, u)) && !LeftOut(Exec(s, u), t)
  {
    StepRoles(s, u);
    SantaComesTo(s, u);
    if 1 <= t <= s.r {
      if Back(Exec(s, u).threads[t]) {
        BackBefore(s, u, t);
        if Back(s.threads[t]) {
          CountStays(s, u, t);
        }
      }
    }
  }

  /** Who is back after a step was so before, or has just been counted. */
  lemma BackBefore(s: State, u: nat, t: nat)
    requires Known(s) && Enabled(s, u) && 1 <= t <= s.r
    requires Back(Exec(s, u).threads[t])
    ensures Back(s.threads[t]) || (t == u && s.threads[t].pc == R(R158) && t in Exec(s, u).data.counted)
    ensures !Back(s.threads[t]) ==> SantaPlace(s) != S123
  {
    if t != u {
      OthersUntouched(s, u, t);
    } else {
      BackFrom(s.threads[u], s.data, s.r);
      RunsAt(s, t);
      RunsAt(s, 0);
      Apart(s, 0, t, Reindeers);
    }
  }

  lemma CountStays(s: State, u: nat, t: nat)
    requires Known(s) && Enabled(s, u) && t in s.data.counted && s.threads[u].pc != S(S123)
    ensures t in Exec(s, u).data.counted
  {
    CountsAfter(s.data, s.threads[u].pc, u);
  }

  lemma BackFrom(th: Thread, d: Data, r: nat)
    requires Back(ThreadAfter(th, d, r))
    ensures Back(th) || th.pc == R(R158)
  {
  }

  /** Whoever was to call or to come, unless it is the call itself that takes place. */
  lemma CalledStays(s: State, u: nat)
    requires Known(s) && Enabled(s, u) && s.data.reindeers == s.r && Called(s)
    requires SantaPlace(s) != S122 && (u == 0 ==> SantaPlace(s) != S121)
    requires s.threads[u].pc != R(R168)
    ensures Called(Exec(s, u))
  {
    if OnTheWay(s.threads[0]) {
      if u != 0 {
        OthersUntouched(s, u, 0);
      }
    } else if ReindeerCalls(s) {
      CallingStays(s, u);
    } else {
      ElfCallingStays(s, u);
    }
  }

  lemma CallingStays(s: State, u: nat)
    requires Known(s) && Enabled(s, u) && s.data.reindeers == s.r && ReindeerCalls(s) && s.threads[u].pc != R(R168)
    ensures ReindeerCalls(Exec(s, u))
  {
    var t :| 1 <= t <= s.r && MayCall(s.threads[t].pc);
    if t != u {
      OthersUntouched(s, u, t);
    }
    assert MayCall(Exec(s, u).threads[t].pc);
  }

  lemma ElfCallingStays(s: State, u: nat)
    requires Known(s) && Enabled(s, u) && ElfCalls(s) && !OnTheWay(s.threads[0])
    ensures Called(Exec(s, u))
  {
    var t: nat :| t < |s.threads| && PastTest(s.threads[t].pc);
    AsleepWhileElfCalls(s, t);
    OthersUntouched(s, u, 0);
    if t == u {
      CallOrGoOn(s, u);
    } else {
      OthersUntouched(s, u, t);
      assert PastTest(Exec(s, u).threads[t].pc);
    }
  }

  lemma CallOrGoOn(s: State, u: nat)
    requires Known(s) && Enabled(s, u) && PastTest(s.threads[u].pc) && s.threads[0] == Thread(S(S111), Asleep)
    ensures Called(Exec(s, u))
  {
    var s' := Exec(s, u);
    ElfGoesOn(s.threads[u], s.data, s.r);
    if s.threads[u].pc == E(E211) {
      assert s'.threads[0] == Thread(S(S111), Waking);
    } else {
      OthersUntouched(s, u, 0);
      assert PastTest(s'.threads[u].pc) && s'.threads[0].pc == S(S111);
    }
  }

  lemma ElfGoesOn(th: Thread, d: Data, r: nat)
    requires PastTest(th.pc)
    ensures PastTest(ThreadAfter(th, d, r).pc) || th.pc == E(E211)
  {
  }

  /** The last reindeer's call. */
  lemma LastCall(s: State, u: nat)
    requires Known(s) && Hope(s) && Enabled(s, u) && SantaPlace(s) != S122 && s.threads[u].pc == R(R168)
    ensures Roles(Exec(s, u)) && (Called(Exec(s, u)) <==> !Loses(s, u))
    ensures Exec(s, u).data == s.data && s.data.reindeers == s.r && SantaPlace(Exec(s, u)) == SantaPlace(s)
    ensures SantaPlace(s) != S123
  {
    StepRoles(s, u);
    OnlyCalls(s, u);
    assert !LeftOut(s, u) && FactOf(s, u);
    if Loses(s, u) {
      NoOtherReindeerCalls(s, u);
      NoElfCalls(s, u);
    }
  }

  /** What a call changes. */
  lemma OnlyCalls(s: State, u: nat)
    requires Roles(s) && Enabled(s, u) && s.threads[u].pc == R(R168)
    ensures Exec(s, u).data == s.data && Exec(s, u).threads[0] == Woken(s.threads[0], SantaTask)
  {
  }

  lemma NoOtherReindeerCalls(s: State, u: nat)
    requires Known(s) && Enabled(s, u) && s.data.reindeers == s.r && s.threads[u].pc == R(R168)
    ensures !ReindeerCalls(Exec(s, u))
  {
    AllCounted(s, u);
    forall t | 1 <= t <= s.r
      ensures !MayCall(Exec(s, u).threads[t].pc)
    {
      if t != u {
        AllCounted(s, t);
        OthersUntouched(s, u, t);
        assert !Both(s.threads[u].pc, s.threads[t].pc);
      }
    }
  }

  lemma NoElfCalls(s: State, u: nat)
    requires Known(s) && Enabled(s, u) && s.threads[u].pc == R(R168)
    requires !OnTheWay(s.threads[0]) && s.threads[0] != Thread(S(S111), Asleep)
    ensures !ElfCalls(Exec(s, u))
  {
    OthersUntouched(s, u, 0);
    forall t: nat | t < |s.threads| && s.threads[0].pc == S(S111)
      ensures !PastTest(Exec(s, u).threads[t].pc)
    {
      if t != u {
        OthersUntouched(s, u, t);
      }
      if PastTest(s.threads[t].pc) {
        AsleepWhileElfCalls(s, t);
      }
    }
  }

  /** From a state with hope every step leads to one, except exactly those that lose it. */
  lemma HopeLostIff(s: State, u: nat)
    requires Known(s) && Hope(s) && Enabled(s, u) && s.r > 0
    ensures Roles(Exec(s, u)) && (Hope(Exec(s, u)) <==> !Loses(s, u))
    ensures !(u == 0 && SantaPlace(s) == S121) ==> Exec(s, u).data.deliveries == s.data.deliveries
  {
    StepRoles(s, u);
    var s', pc := Exec(s, u), s.threads[u].pc;
    WhoCounts(pc);
    if u == 0 && SantaPlace(s) == S121 {
      SettingOut(s);
    } else if u == 0 && SantaPlace(s) == S122 {
      EndingDelivery(s);
    } else if SantaPlace(s) == S122 {
      RestingStays(s, u);
    } else {
      forall t
        ensures !LeftOut(s', t)
      {
        NobodyNewLeftOut(s, u, t);
      }
      SantaComesTo(s, u);
      if pc == R(R168) {
        LastCall(s, u);
      } else {
        StillCalled(s, u);
      }
    }
  }

  lemma StillCalled(s: State, u: nat)
    requires Known(s) && Hope(s) && Enabled(s, u) && s.r > 0
    requires SantaPlace(s) != S122 && (u == 0 ==> SantaPlace(s) != S121) && s.threads[u].pc != R(R168)
    ensures Roles(Exec(s, u))
    ensures Exec(s, u).data.reindeers == s.r && SantaPlace(Exec(s, u)) != S123 ==> Called(Exec(s, u))
  {
    StepRoles(s, u);
    var s', pc := Exec(s, u), s.threads[u].pc;
    CountsAfter(s.data, pc, u);
    if pc == R(R158) {
      NotCountedYet(s, u);
      assert MayCall(s'.threads[u].pc);
    } else if s.data.reindeers == s.r && SantaPlace(s) != S123 {
      CalledStays(s, u);
    } else if u != 0 {
      OthersUntouched(s, u, 0);
    }
  }

  // With hope there is a schedule that leads to a delivery.

  /** The part of the work of an elf that has to be done before it holds no mutex. */
  function ElfLeft(th: Thread): nat {
    match th.pc
    case E(p) => if th.mode == Running then ElfSteps(p) else 0
    case _ => 0
  }

  function ElfSteps(p: ElfPc): nat {
    match p
    case E184 => 0
    case E185 => 16
    case E190 => 1
    case E193 => 15
    case E194 => 14
    case E195 => 13
    case E196 => 12
    case E199 => 11
    case E200 => 10
    case E201 => 9
    case E202 => 8
    case E206 => 8
    case E203 => 7
    case E204 => 6
    case E205 => 5
    case E208 => 5
    case E210 => 4
    case E211 => 3
    case E212 => 2
    case E214 => 1
    case E215 => 1
  }

  /** How far a reindeer is from being asleep until the end of a delivery. */
  function ReindeerLeft(th: Thread): nat {
    match th.pc
    case R(p) =>
      (match p
       case R172 => if th.mode == Waking then 30 else if th.mode == Running then 1 else 0
       case R173 => 29
       case R155 => 28
       case R157 => 27
       case R158 => 26
       case R161 => 25
       case R162 => 24
       case R163 => 23
       case R165 => if th.mode == Waking then 22 else if th.mode == Running then 20 else 19
       case R164 => 21
       case R166 => 18
       case R168 => 17
       case R170 => 16
       case R171 => 2
       case R175 => 0)
    case _ => 0
  }

  /** How far Santa is from waiting for a call, unless he finds all reindeers. */
  function SantaLeft(th: Thread): nat {
    match th.pc
    case S(p) =>
      (match p
       case S111 => if th.mode == Waking then 20 else if th.mode == Running then 1 else 0
       case S112 => 19
       case S113 => 18
       case S117 => 17
       case S118 => 16
       case S121 => 15
       case S130 => 14
       case S134 => 13
       case S135 => 12
       case S136 => 11
       case S140 => 10
       case S141 => 9
       case S142 => 8
       case S143 => 7
       case S122 => 10
       case S123 => 9
       case S124 => 8
       case S125 => 7
       case S145 => 6
       case S146 => 5
       case S148 => 4
       case S149 => 3
       case S110 => 2
       case S127 => 0)
    case _ => 0
  }

  /** All reindeers are counted and Santa is on his way to find them so. */
  predicate Found(s: State) {
    s.threads != [] && s.data.reindeers == s.r && OnTheWay(s.threads[0])
  }

  function ElfWork(s: State): nat {
    Sum(s.threads, ElfLeft)
  }

  function ReindeerWork(s: State): nat {
    Sum(s.threads, ReindeerLeft)
  }

  /** s' is nearer to a delivery: what counts first is whether Santa finds all reindeers. */
  predicate Nearer(s: State, s': State) {
    && s.threads != [] && s'.threads != []
    && (Found(s) ==> Found(s'))
    && ((Found(s') && !Found(s))
        || ElfWork(s') < ElfWork(s)
        || (ElfWork(s') == ElfWork(s)
            && (SantaLeft(s'.threads[0]) < SantaLeft(s.threads[0])
                || (SantaLeft(s'.threads[0]) == SantaLeft(s.threads[0]) && ReindeerWork(s') < ReindeerWork(s)))))
  }

  lemma FoundStays(s: State, u: nat)
    requires Known(s) && Enabled(s, u) && SantaPlace(s) != S121 && Found(s)
    ensures Found(Exec(s, u))
  {
    var pc := s.threads[u].pc;
    CountsAfter(s.data, pc, u);
    if pc == R(R158) {
      NotCountedYet(s, u);
      RoomForOne(s, u);
    }
    if u != 0 {
      OthersUntouched(s, u, 0);
    }
  }

  lemma ElfWorkAfter(s: State, u: nat)
    requires Known(s) && Enabled(s, u)
    ensures ElfWork(Exec(s, u)) + ElfLeft(s.threads[u]) == ElfWork(s) + ElfLeft(Exec(s, u).threads[u])
  {
    var s' := Exec(s, u);
    forall v: nat | v < |s.threads| && v != u
      ensures ElfLeft(s.threads[v]) == ElfLeft(s'.threads[v])
    {
      OthersUntouched(s, u, v);
    }
    SumStep(s.threads, s'.threads, ElfLeft, u);
  }

  lemma ReindeerWorkAfter(s: State, u: nat)
    requires Known(s) && Enabled(s, u) && u != 0
    ensures ReindeerWork(Exec(s, u)) + ReindeerLeft(s.threads[u]) ==
            ReindeerWork(s) + ReindeerLeft(Exec(s, u).threads[u])
  {
    var s' := Exec(s, u);
    OthersBroadcast(s.threads[u].pc);
    forall v: nat | v < |s.threads| && v != u
      ensures ReindeerLeft(s.threads[v]) == ReindeerLeft(s'.threads[v])
    {
      OthersUntouched(s, u, v);
      if s.threads[v].pc.R? {
        ReindeerWaits(s.threads[v].pc.r);
      }
    }
    SumStep(s.threads, s'.threads, ReindeerLeft, u);
  }

  lemma OthersBroadcast(pc: Pc)
    requires !pc.S?
    ensures Code(pc).Broadcast? ==> Code(pc).c == SantaTask
  {
  }

  lemma ReindeerWaits(p: ReindeerPc)
    ensures ReindeerCode(p).Wait? ==> ReindeerCode(p).c != SantaTask
  {
  }

  predicate HoldsAny(th: Thread) {
    th.mode == Running && LocksAt(th.pc) != FREE
  }

  lemma ElfComesNearer(s: State, u: nat)
    requires Known(s) && Enabled(s, u) && SantaPlace(s) != S121 && s.threads[u].pc.E? && HoldsAny(s.threads[u])
    ensures Nearer(s, Exec(s, u))
  {
    ElfWorkAfter(s, u);
    ElfGoesDown(s.threads[u], s.data, s.r);
    if Found(s) {
      FoundStays(s, u);
    }
  }

  lemma ElfGoesDown(th: Thread, d: Data, r: nat)
    requires th.pc.E? && HoldsAny(th)
    ensures ElfLeft(ThreadAfter(th, d, r)) < ElfLeft(th)
  {
  }

  lemma SantaComesNearer(s: State)
    requires Known(s) && Enabled(s, 0) && SantaPlace(s) != S121 && s.data.deliveries < DELIVERS_NUMBER
    ensures Nearer(s, Exec(s, 0))
  {
    ElfWorkAfter(s, 0);
    StepInv(s, 0);
    SantaGoesDown(s.threads[0], s.data, s.r);
    if Found(s) {
      FoundStays(s, 0);
    }
  }

  lemma SantaGoesDown(z: Thread, d: Data, r: nat)
    requires z.pc.S? && z.pc != S(S121) && z.pc != S(S127) && z.mode != Asleep && d.deliveries < DELIVERS_NUMBER
    requires z.mode == Waking ==> z.pc == S(S111)
    ensures SantaLeft(ThreadAfter(z, d, r)) < SantaLeft(z)
  {
  }

  lemma ReindeerComesNearer(s: State, u: nat)
    requires Known(s) && Enabled(s, u) && SantaPlace(s) != S121 && s.threads[u].pc.R?
    requires s.data.deliveries < DELIVERS_NUMBER && s.threads[u].pc != R(R168)
    ensures Nearer(s, Exec(s, u))
  {
    ElfWorkAfter(s, u);
    ReindeerWorkAfter(s, u);
    ReindeerGoesDown(s.threads[u], s.data, s.r);
    OthersUntouched(s, u, 0);
    CallsSanta(s.threads[u].pc);
    OthersBroadcastAny(s.threads[u].pc);
    if Found(s) {
      FoundStays(s, u);
    }
  }

  lemma OthersBroadcastAny(pc: Pc)
    requires pc.R? && pc != R(R168)
    ensures !Code(pc).Broadcast?
  {
  }

  lemma ReindeerGoesDown(th: Thread, d: Data, r: nat)
    requires th.pc.R? && th.mode != Asleep && th.pc != R(R175) && d.deliveries < DELIVERS_NUMBER
    requires th.mode == Waking ==> Code(th.pc).Wait?
    ensures ReindeerLeft(ThreadAfter(th, d, r)) < ReindeerLeft(th)
    ensures ElfLeft(ThreadAfter(th, d, r)) == ElfLeft(th)
  {
  }

  /** A call brings Santa onto his way, or, if he is to come anyway, its reindeer to rest. */
  lemma CallComesNearer(s: State, u: nat)
    requires Known(s) && Enabled(s, u) && s.threads[u].pc == R(R168) && s.data.reindeers == s.r
    requires SantaPlace(s) == S122 || s.threads[0] == Thread(S(S111), Asleep)
    ensures Nearer(s, Exec(s, u))
  {
    ElfWorkAfter(s, u);
    ReindeerWorkAfter(s, u);
    OthersUntouched(s, u, 0);
  }

  // The choice of who goes next.

  /** If any mutex is held, a thread that holds one can go on. */
  lemma {:induction false} HolderMoves(s: State, t: nat) returns (u: nat)
    requires Owned(s) && Waits(s) && t < |s.threads| && HoldsAny(s.threads[t])
    ensures Enabled(s, u) && HoldsAny(s.threads[u])
    decreases if Wants(s.threads[t]).Some? then 5 - RankOfWant(s, t) else 0
  {
    u := t;
    TextOwns(s.threads[t].pc);
    if Wants(s.threads[t]).Some? && Wants(s.threads[t]).m in s.owner {
      var v := s.owner[Wants(s.threads[t]).m];
      HasAny(s.threads[v], Wants(s.threads[t]).m);
      if Wants(s.threads[v]).Some? {
        LockOrder(s.threads[v], Wants(s.threads[t]).m);
      }
      u := HolderMoves(s, v);
    }
  }

  lemma HasAny(th: Thread, m: Mutex)
    requires Has(th, m)
    ensures HoldsAny(th)
  {
  }

  lemma SomebodyHolds(s: State) returns (t: nat)
    requires Owned(s) && s.owner != map[]
    ensures t < |s.threads| && HoldsAny(s.threads[t])
  {
    var m :| m in s.owner;
    t := s.owner[m];
    HasAny(s.threads[t], m);
  }

  /** When Santa and all reindeers sleep and nobody holds a mutex, nobody is to call him. */
  lemma AllAsleep(s: State)
    requires Known(s) && s.owner == map[] && s.threads[0] == Thread(S(S111), Asleep)
    requires forall t :: !LeftOut(s, t)
    requires forall t | 1 <= t <= s.r :: s.threads[t].mode == Asleep
    ensures s.data.reindeers == s.r && !Called(s)
  {
    forall v | 1 <= v <= s.r
      ensures s.threads[v].pc == R(R172) && v in s.data.counted
    {
      AsleepCounted(s, v);
    }
    CountedAll(s);
    forall v: nat | v < |s.threads|
      ensures !PastTest(s.threads[v].pc)
    {
      RunsAt(s, v);
      HoldsNothing(s, v);
    }
  }

  lemma AsleepCounted(s: State, v: nat)
    requires Known(s) && s.threads[0] == Thread(S(S111), Asleep)
    requires 1 <= v <= s.r && s.threads[v].mode == Asleep && !LeftOut(s, v)
    ensures s.threads[v].pc == R(R172) && v in s.data.counted
  {
    assert FactOf(s, v) && FactOf(s, 0);
    SleepsWhere(s.threads[v].pc.r);
  }

  lemma HoldsNothing(s: State, v: nat)
    requires Owned(s) && s.owner == map[] && v < |s.threads|
    requires !Code(s.threads[v].pc).Wait? ==> s.threads[v].mode == Running
    ensures !PastTest(s.threads[v].pc)
  {
    PastTestHolds(s.threads[v]);
    assert Has(s.threads[v], Sleep) ==> Sleep in s.owner;
  }

  lemma PastTestHolds(th: Thread)
    requires !Code(th.pc).Wait? ==> th.mode == Running
    ensures PastTest(th.pc) ==> Has(th, Sleep)
  {
  }

  /** While Santa waits for a call and nobody holds a mutex, some reindeer is awake. */
  lemma SomebodyAwake(s: State) returns (t: nat)
    requires Known(s) && Hope(s) && s.r > 0 && s.owner == map[] && s.threads[0] == Thread(S(S111), Asleep)
    ensures 1 <= t <= s.r && s.threads[t].mode != Asleep
  {
    if forall t | 1 <= t <= s.r :: s.threads[t].mode == Asleep {
      AllAsleep(s);
    }
    t :| 1 <= t <= s.r && s.threads[t].mode != Asleep;
  }

  lemma SleepsWhere(p: ReindeerPc)
    ensures ReindeerCode(p).Wait? <==> p == R165 || p == R172
  {
  }

  lemma CountedAll(s: State)
    requires Inv(s) && forall v | 1 <= v <= s.r :: v in s.data.counted
    ensures s.data.reindeers == s.r
  {
    assert s.data.counted == All(s.r);
  }

  /** A reindeer that is not yet asleep when Santa ends a delivery can go on, or another one can. */
  lemma NextToRest(s: State, t: nat) returns (u: nat)
    requires Known(s) && Hope(s) && SantaPlace(s) == S122 && 1 <= t <= s.r && s.threads[t] != Thread(R(R172), Asleep)
    ensures Enabled(s, u) && 1 <= u <= s.r && GoesToRest(s.threads[u].pc)
  {
    DeliveringCounts(s, t);
    RunsAt(s, t);
    u := t;
    assert GoesToRest(s.threads[t].pc);
    if s.threads[t].pc == R(R171) && ReindeersWaiting in s.owner {
      u := s.owner[ReindeersWaiting];
      WaitingHolder(s.threads[u]);
      assert GoesToRest(s.threads[u].pc);
      DeliveringCounts(s, u);
    }
  }

  /** While Santa ends a delivery: he goes on if all reindeers sleep, and else one of them can. */
  lemma NextAtEnd(s: State) returns (u: nat)
    requires Known(s) && Hope(s) && s.r > 0 && SantaPlace(s) == S122
    ensures Enabled(s, u) && !Loses(s, u) && Nearer(s, Exec(s, u))
  {
    if t: nat :| 1 <= t <= s.r && s.threads[t] != Thread(R(R172), Asleep) {
      u := NextToRest(s, t);
      OneMoreRests(s, u);
    } else {
      u := 0;
      RunsAt(s, 0);
      SantaComesNearer(s);
    }
  }

  lemma OneMoreRests(s: State, u: nat)
    requires Known(s) && Hope(s) && SantaPlace(s) == S122 && Enabled(s, u) && 1 <= u <= s.r
    ensures !Loses(s, u) && Nearer(s, Exec(s, u))
  {
    if s.threads[u].pc == R(R168) {
      CallComesNearer(s, u);
    } else {
      ReindeerComesNearer(s, u);
    }
  }

  lemma WaitingHolder(th: Thread)
    requires Has(th, ReindeersWaiting)
    ensures th.pc == R(R172) || th.pc == R(R173)
  {
  }

  /** A thread that holds a mutex, and Santa unless he waits for a call, come nearer with every step. */
  lemma HolderComesNearer(s: State, u: nat)
    requires Known(s) && Enabled(s, u) && s.data.deliveries < DELIVERS_NUMBER
    requires SantaPlace(s) != S121 && (u == 0 || HoldsAny(s.threads[u]))
    ensures Nearer(s, Exec(s, u)) && s.threads[u].pc != R(R168)
  {
    if u == 0 {
      SantaComesNearer(s);
    } else if s.threads[u].pc.R? {
      ReindeerComesNearer(s, u);
    } else {
      ElfComesNearer(s, u);
    }
  }

  /** If somebody holds a mutex or Santa does not wait for a call. */
  lemma NextWhileBusy(s: State) returns (u: nat)
    requires Known(s) && s.data.deliveries < DELIVERS_NUMBER && SantaPlace(s) != S121
    requires s.owner != map[] || s.threads[0] != Thread(S(S111), Asleep)
    ensures Enabled(s, u) && s.threads[u].pc != R(R168) && Nearer(s, Exec(s, u))
  {
    if s.owner != map[] {
      var t := SomebodyHolds(s);
      u := HolderMoves(s, t);
    } else {
      u := 0;
      RunsAt(s, 0);
      SantaCanGo(s);
    }
    HolderComesNearer(s, u);
  }

  lemma SantaCanGo(s: State)
    requires Known(s) && s.data.deliveries < DELIVERS_NUMBER && s.owner == map[]
    requires s.threads[0] != Thread(S(S111), Asleep)
    ensures Enabled(s, 0)
  {
    SantaSleepsAt(s.threads[0].pc.s);
  }

  lemma SantaSleepsAt(p: SantaPc)
    ensures SantaCode(p).Wait? ==> p == S111
    ensures SantaCode(p) == Exit ==> p == S127
  {
  }

  /** If nobody does and he waits. */
  lemma NextWhileQuiet(s: State) returns (u: nat)
    requires Known(s) && Hope(s) && s.r > 0 && s.owner == map[] && s.threads[0] == Thread(S(S111), Asleep)
    ensures Enabled(s, u) && !Loses(s, u) && Nearer(s, Exec(s, u))
  {
    u := SomebodyAwake(s);
    assert FactOf(s, u) && !LeftOut(s, u);
    if s.threads[u].pc == R(R168) {
      CallComesNearer(s, u);
    } else {
      ReindeerComesNearer(s, u);
    }
  }

  /** Someone can take a step that brings a delivery nearer and does not lose it. */
  lemma NextStep(s: State) returns (u: nat)
    requires Known(s) && Hope(s) && s.r > 0 && SantaPlace(s) != S121
    ensures Enabled(s, u) && !Loses(s, u) && Nearer(s, Exec(s, u))
  {
    if SantaPlace(s) == S122 {
      u := NextAtEnd(s);
    } else if s.owner != map[] || s.threads[0] != Thread(S(S111), Asleep) {
      u := NextWhileBusy(s);
    } else {
      u := NextWhileQuiet(s);
    }
  }

  // Paths from a state.

  /** A step of any thread, or a return without a signal from any wait but Santa's own. */
  ghost predicate Steady(s: State, s': State) {
    || (exists t: nat :: Enabled(s, t) && s' == Exec(s, t))
    || (exists t: nat :: t != 0 && MayWakeSpuriously(s, t) && s' == Spurious(s, t))
  }

  ghost predicate IsPath(path: seq<State>) {
    path != [] && forall k | 0 <= k < |path| - 1 :: Steady(path[k], path[k + 1])
  }

  lemma PathFrom(s: State, rest: seq<State>)
    requires IsPath(rest) && Steady(s, rest[0])
    ensures IsPath([s] + rest)
  {
    var path := [s] + rest;
    forall k | 0 <= k < |path| - 1
      ensures Steady(path[k], path[k + 1])
    {
      if k > 0 {
        assert Steady(rest[k - 1], rest[k - 1 + 1]);
      }
    }
  }

  /** With hope a delivery can be made. */
  lemma {:induction false} DeliveryPossible(s: State) returns (path: seq<State>)
    requires Known(s) && Hope(s) && s.r > 0
    ensures IsPath(path) && path[0] == s && path[|path| - 1].data.deliveries == s.data.deliveries + 1
    decreases if Found(s) then 0 else 1, ElfWork(s), SantaLeft(s.threads[0]), ReindeerWork(s)
  {
    if SantaPlace(s) == S121 {
      RunsAt(s, 0);
      assert Enabled(s, 0);
      path := [s, Exec(s, 0)];
    } else {
      var u := NextStep(s);
      HopeLostIff(s, u);
      StepKnown(s, u);
      SameReindeers(s, u);
      path := DeliveryPossible(Exec(s, u));
      PathFrom(s, path);
      path := [s] + path;
    }
  }

  lemma SameReindeers(s: State, u: nat)
    requires u < |s.threads|
    ensures Exec(s, u).r == s.r
  {
  }

  lemma SteadyKeeps(s: State, s': State)
    requires Known(s) && Steady(s, s')
    ensures Known(s') && s'.r == s.r
    ensures !Hope(s) ==> !Hope(s') && s'.data.deliveries == s.data.deliveries
  {
    if t: nat :| Enabled(s, t) && s' == Exec(s, t) {
      StepKnown(s, t);
      if !Hope(s) {
        HopelessStays(s, t);
      }
    } else {
      var t: nat :| t != 0 && MayWakeSpuriously(s, t) && s' == Spurious(s, t);
      SpuriousKnown(s, t);
      SpuriousHope(s, t);
    }
  }

  /** A return without a signal of any wait but Santa's own neither brings hope nor loses it. */
  lemma SpuriousHope(s: State, t: nat)
    requires Known(s) && t != 0 && MayWakeSpuriously(s, t)
    ensures Roles(Spurious(s, t)) && (Hope(Spurious(s, t)) <==> Hope(s))
  {
    SameCalls(s, t);
    if SantaPlace(s) == S122 {
      SameRest(s, t);
    } else {
      forall u: nat
        ensures LeftOut(Spurious(s, t), u) <==> LeftOut(s, u)
      {
        SameLeftOut(s, t, u);
      }
    }
  }

  lemma SameRest(s: State, t: nat)
    requires t < |s.threads|
    ensures Resting(Spurious(s, t)) <==> Resting(s)
  {
    assert forall u: nat | u < |s.threads| ::
        GoesToRest(Spurious(s, t).threads[u].pc) == GoesToRest(s.threads[u].pc);
  }

  lemma SameLeftOut(s: State, t: nat, u: nat)
    requires MayWakeSpuriously(s, t) && Roles(s) && Roles(Spurious(s, t))
    ensures LeftOut(Spurious(s, t), u) <==> LeftOut(s, u)
  {
    if t == u {
      BackAwake(s.threads[t]);
    }
  }

  lemma BackAwake(th: Thread)
    requires th.mode == Asleep && th.pc != R(R172)
    ensures Back(Thread(th.pc, Waking)) == Back(th)
  {
  }

  lemma SameCalls(s: State, t: nat)
    requires t != 0 && t < |s.threads|
    ensures Called(Spurious(s, t)) <==> Called(s)
  {
    var s' := Spurious(s, t);
    assert forall u: nat | u < |s.threads| :: s'.threads[u].pc == s.threads[u].pc;
    assert ReindeerCalls(s') <==> ReindeerCalls(s) by {
      assert forall u: nat | u < |s.threads| :: MayCall(s'.threads[u].pc) == MayCall(s.threads[u].pc);
    }
    assert ElfCalls(s') <==> ElfCalls(s) by {
      assert forall u: nat | u < |s.threads| :: PastTest(s'.threads[u].pc) == PastTest(s.threads[u].pc);
    }
  }

  lemma {:induction false} NoDeliveryWithoutHope(path: seq<State>, k: nat)
    requires IsPath(path) && Known(path[0]) && !Hope(path[0]) && k < |path|
    ensures Known(path[k]) && !Hope(path[k]) && path[k].data.deliveries == path[0].data.deliveries
  {
    if k > 0 {
      NoDeliveryWithoutHope(path, k - 1);
      assert Steady(path[k - 1], path[k - 1 + 1]);
      SteadyKeeps(path[k - 1], path[k]);
    }
  }

  ghost predicate LeadsToDelivery(path: seq<State>, s: State) {
    IsPath(path) && path[0] == s && path[|path| - 1].data.deliveries > s.data.deliveries
  }

  /**
   In every state of every run, Santa can come to deliver again if and only if there is
   hope: fewer than three deliveries have been made, no reindeer is left out, and, once
   all are counted, he is on his way or somebody is still to call him in time.
   */
  lemma DeliveryComesIff(run: seq<State>, r: nat, e: nat, k: nat)
    requires IsRun(run, r, e) && k < |run| && r > 0
    ensures Known(run[k])
    ensures (exists path :: LeadsToDelivery(path, run[k])) <==> Hope(run[k])
  {
    RunKnown(run, r, e, k);
    if Hope(run[k]) {
      var path := DeliveryPossible(run[k]);
      assert LeadsToDelivery(path, run[k]);
    } else {
      forall path | LeadsToDelivery(path, run[k])
        ensures false
      {
        NoDeliveryWithoutHope(path, |path| - 1);
      }
    }
  }

  /** A reindeer that is left out stays so even when Santa wakes up by himself, and no delivery is made any more. */
  lemma LeftOutForEver(s: State, s': State, t: nat)
    requires Known(s) && LeftOut(s, t) && Next(s, s')
    ensures Known(s') && LeftOut(s', t) && s'.data.deliveries == s.data.deliveries
  {
    if u: nat :| Enabled(s, u) && s' == Exec(s, u) {
      StepKnown(s, u);
      LeftOutStays(s, t, u);
    } else {
      var u: nat :| MayWakeSpuriously(s, u) && s' == Spurious(s, u);
      SpuriousKnown(s, u);
    }
  }

  // What Santa's own returns without a signal add.

  /** A further delivery can take place, Santa coming without a call if need be. */
  ghost predicate Chance(s: State)
    requires Roles(s)
  {
    && s.data.deliveries < DELIVERS_NUMBER
    && if SantaPlace(s) == S122 then Resting(s) else forall t :: !LeftOut(s, t)
  }

  lemma NoChanceStays(s: State, s': State)
    requires Known(s) && !Chance(s) && Next(s, s')
    ensures Known(s') && !Chance(s') && s'.data.deliveries == s.data.deliveries && s'.r == s.r
  {
    if u: nat :| Enabled(s, u) && s' == Exec(s, u) {
      StepKnown(s, u);
      NoChanceStep(s, u);
    } else {
      var u: nat :| MayWakeSpuriously(s, u) && s' == Spurious(s, u);
      SpuriousKnown(s, u);
      NoChanceSpurious(s, u);
    }
  }

  lemma NoChanceStep(s: State, u: nat)
    requires Known(s) && !Chance(s) && Enabled(s, u)
    ensures Roles(Exec(s, u)) && !Chance(Exec(s, u)) && Exec(s, u).data.deliveries == s.data.deliveries
  {
    if s.data.deliveries >= DELIVERS_NUMBER {
      StepRoles(s, u);
      WhoCounts(s.threads[u].pc);
    } else if SantaPlace(s) == S122 {
      NoChanceAtEnd(s, u);
    } else {
      var t: nat :| LeftOut(s, t);
      LeftOutStays(s, t, u);
      SantaComesTo(s, u);
    }
  }

  lemma NoChanceAtEnd(s: State, u: nat)
    requires Known(s) && !Chance(s) && Enabled(s, u) && SantaPlace(s) == S122 && s.data.deliveries < DELIVERS_NUMBER
    ensures Roles(Exec(s, u)) && !Chance(Exec(s, u)) && Exec(s, u).data.deliveries == s.data.deliveries
  {
    var t: nat :| 1 <= t <= s.r && !GoesToRest(s.threads[t].pc);
    UnreadyStays(s, t, u);
  }

  lemma NoChanceSpurious(s: State, u: nat)
    requires Known(s) && !Chance(s) && MayWakeSpuriously(s, u)
    ensures Roles(Spurious(s, u)) && !Chance(Spurious(s, u))
  {
    var s' := Spurious(s, u);
    assert forall t: nat | t < |s.threads| :: s'.threads[t].pc == s.threads[t].pc;
    if SantaPlace(s) != S122 && s.data.deliveries < DELIVERS_NUMBER {
      var t: nat :| LeftOut(s, t);
      assert LeftOut(s', t);
    }
  }

  /** A path of steps and of returns without a signal, Santa's included. */
  ghost predicate IsFreePath(path: seq<State>) {
    path != [] && forall k | 0 <= k < |path| - 1 :: Next(path[k], path[k + 1])
  }

  lemma SteadyIsNext(path: seq<State>)
    requires IsPath(path)
    ensures IsFreePath(path)
  {
    forall k | 0 <= k < |path| - 1
      ensures Next(path[k], path[k + 1])
    {
      assert Steady(path[k], path[k + 1]);
    }
  }

  lemma FreePathFrom(s: State, rest: seq<State>)
    requires IsFreePath(rest) && Next(s, rest[0])
    ensures IsFreePath([s] + rest)
  {
    var path := [s] + rest;
    forall k | 0 <= k < |path| - 1
      ensures Next(path[k], path[k + 1])
    {
      if k > 0 {
        assert Next(rest[k - 1], rest[k - 1 + 1]);
      }
    }
  }

  /** Woken by himself, Santa finds all reindeers. */
  lemma WakesByHimself(s: State)
    requires Known(s) && Chance(s) && s.data.reindeers == s.r && s.threads[0] == Thread(S(S111), Asleep)
    ensures MayWakeSpuriously(s, 0) && Roles(Spurious(s, 0)) && Hope(Spurious(s, 0))
  {
    var s' := Spurious(s, 0);
    forall t: nat
      ensures !LeftOut(s', t)
    {
      assert !LeftOut(s, t);
    }
    assert OnTheWay(s'.threads[0]);
  }

  /** If nobody is to call him, Santa first comes to waiting for a call. */
  lemma {:induction false} ChanceSuffices(s: State) returns (path: seq<State>)
    requires Known(s) && Chance(s) && s.r > 0
    ensures IsFreePath(path) && path[0] == s && path[|path| - 1].data.deliveries == s.data.deliveries + 1
    decreases if Found(s) then 0 else 1, ElfWork(s), SantaLeft(s.threads[0]), ReindeerWork(s)
  {
    if Hope(s) {
      path := DeliveryPossible(s);
      SteadyIsNext(path);
    } else if s.threads[0] == Thread(S(S111), Asleep) {
      WakesByHimself(s);
      SpuriousKnown(s, 0);
      path := DeliveryPossible(Spurious(s, 0));
      SteadyIsNext(path);
      FreePathFrom(s, path);
      path := [s] + path;
    } else {
      var u := NextWhileBusy(s);
      ChanceStays(s, u);
      StepKnown(s, u);
      SameReindeers(s, u);
      path := ChanceSuffices(Exec(s, u));
      FreePathFrom(s, path);
      path := [s] + path;
    }
  }

  lemma ChanceStays(s: State, u: nat)
    requires Known(s) && Chance(s) && !Hope(s) && Enabled(s, u)
    ensures Roles(Exec(s, u)) && Chance(Exec(s, u)) && Exec(s, u).data.deliveries == s.data.deliveries
  {
    UncalledStays(s, u);
    forall t: nat
      ensures !LeftOut(Exec(s, u), t)
    {
      NobodyNewLeftOut(s, u, t);
    }
  }

  lemma {:induction false} NoDeliveryWithoutChance(path: seq<State>, k: nat)
    requires IsFreePath(path) && Known(path[0]) && !Chance(path[0]) && k < |path|
    ensures Known(path[k]) && !Chance(path[k]) && path[k].data.deliveries == path[0].data.deliveries
  {
    if k > 0 {
      NoDeliveryWithoutChance(path, k - 1);
      assert Next(path[k - 1], path[k - 1 + 1]);
      NoChanceStays(path[k - 1], path[k]);
    }
  }

  ghost predicate LeadsFreely(path: seq<State>, s: State) {
    IsFreePath(path) && path[0] == s && path[|path| - 1].data.deliveries > s.data.deliveries
  }

  /**
   When Santa may wake up by himself, a further delivery is possible in a state of a run if and only
   if fewer than three have been made and no reindeer is left out, or, while he ends one, will be.
   */
  lemma DeliveryComesFreelyIff(run: seq<State>, r: nat, e: nat, k: nat)
    requires IsRun(run, r, e) && k < |run| && r > 0
    ensures Known(run[k])
    ensures (exists path :: LeadsFreely(path, run[k])) <==> Chance(run[k])
  {
    RunKnown(run, r, e, k);
    if Chance(run[k]) {
      var path := ChanceSuffices(run[k]);
      assert LeadsFreely(path, run[k]);
    } else {
      forall path | LeadsFreely(path, run[k])
        ensures false
      {
        NoDeliveryWithoutChance(path, |path| - 1);
      }
    }
  }
}
