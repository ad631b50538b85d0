/**
 When Santa, asleep although three elves are counted, can still come to help
 them before he delivers again.
 */
module Helping {
  import opened Counting
  import opened Santa
  import opened SantaFacts
  import opened Deliveries

  /** An elf between the count and its call for Santa, if it is the third. */
  predicate ElfOnItsWay(pc: Pc) {
    match pc
    case E(p) =>
      (match p
       case E195 | E196 | E199 | E200 | E201 | E202 | E203 | E204 | E205 | E206 | E208 | E210 | E211 => true
       case _ => false)
    case _ => false
  }

  predicate WillCall(pc: Pc) {
    ElfOnItsWay(pc) || CallerAt(pc)
  }

  /** A reindeer has locked reindeers_mutex to count itself. */
  ghost predicate CountsNow(s: State) {
    exists t :: 0 <= t < |s.threads| && s.threads[t].pc == R(R158)
  }

  /** The reindeers counted, with the one that nobody can stop any more. */
  ghost function Coming(s: State): int {
    s.data.reindeers + if CountsNow(s) then 1 else 0
  }

  /** Santa has been woken and has not looked for the reindeers. */
  predicate Roused(z: Thread) {
    match z.pc
    case S(p) =>
      (match p
       case S111 => z.mode == Waking
       case S112 | S113 | S117 | S118 => true
       case _ => false)
    case _ => false
  }

  /** Santa has turned to the elves and not yet reset their count. */
  predicate Helps(z: Thread) {
    match z.pc
    case S(p) =>
      (match p
       case S130 | S134 | S135 | S136 | S140 | S141 | S142 => true
       case _ => false)
    case _ => false
  }

  /** Santa has delivered or helped, and is on his way to wait for a call, or waits. */
  predicate GoesToListen(z: Thread) {
    match z.pc
    case S(p) =>
      (match p
       case S124 | S125 | S143 | S145 | S146 | S148 | S149 | S110 => true
       case S111 => z.mode != Waking
       case _ => false)
    case _ => false
  }

  predicate EndsDelivery(z: Thread) {
    z.pc == S(S122) || z.pc == S(S123)
  }

  /** An elf that has locked sleep_mutex. */
  predicate Hasty(pc: Pc) {
    match pc
    case E(p) =>
      (match p
       case E202 | E203 | E204 | E206 | E208 | E210 | E211 => true
       case _ => false)
    case _ => false
  }

  /** A call that Santa will hear: when he is at line 110, one of an elf that does not keep him out. */
  predicate InTime(z: Thread, pc: Pc) {
    WillCall(pc) && (z.pc == S(S110) ==> !Hasty(pc))
  }

  ghost predicate CallsInTime(s: State) {
    s.threads != [] && exists t :: 0 <= t < |s.threads| && InTime(s.threads[0], s.threads[t].pc)
  }

  /**
   Santa can help the three elves before he delivers again: he is about to; or a reindeer is
   missing that is not just about to be counted as the last, and he has been woken, or somebody
   will call him in time; or he has just delivered, not for the last time, and somebody will.
   */
  ghost predicate Helpful(s: State)
    requires Roles(s)
  {
    && s.data.elves == REQUIRED_ELVES_NUMBER && s.data.deliveries < DELIVERS_NUMBER
    && var z := s.threads[0];
       || Helps(z)
       || (Coming(s) < s.r && (Roused(z) || (GoesToListen(z) && CallsInTime(s))))
       || (EndsDelivery(z) && s.r > 0 && CallsInTime(s))
  }

  // A schedule that leads to help.

  lemma ComingStays(s: State, u: nat)
    requires Known(s) && Enabled(s, u) && s.threads[u].pc != R(R157) && s.threads[u].pc != S(S123)
    ensures Coming(Exec(s, u)) <= Coming(s)
  {
    var s', pc := Exec(s, u), s.threads[u].pc;
    CountsAfter(s.data, pc, u);
    if t: nat :| t < |s'.threads| && s'.threads[t].pc == R(R158) {
      if t == u {
        ToCount(s.threads[u], s.data, s.r);
      } else {
        OthersUntouched(s, u, t);
        RunsAt(s, t);
        RunsAt(s, u);
        Apart(s, u, t, Reindeers);
      }
    }
  }

  lemma ToCount(th: Thread, d: Data, r: nat)
    requires ThreadAfter(th, d, r).pc == R(R158)
    ensures th.pc == R(R157)
  {
  }

  /** Before Santa has turned to the elves, and unless he finds all reindeers, he is not lost on the way. */
  lemma RousedGoesOn(s: State)
    requires Known(s) && Enabled(s, 0) && Roused(s.threads[0]) && s.data.reindeers < s.r
    ensures Roused(Exec(s, 0).threads[0]) || Helps(Exec(s, 0).threads[0])
  {
  }

  lemma ElvesStay(s: State, u: nat)
    requires Known(s) && Enabled(s, u) && s.data.elves == REQUIRED_ELVES_NUMBER && s.threads[u].pc != S(S142)
    ensures Exec(s, u).data.elves == REQUIRED_ELVES_NUMBER
  {
    assert ElfOk(s.threads[u], s.data);
    ElvesAfter(s.data, s.threads[u].pc, u);
  }

  lemma ElvesAfter(d: Data, pc: Pc, t: nat)
    ensures pc != S(S142) && pc != E(E194) ==> DataAfter(d, pc, t).elves == d.elves
    ensures pc == S(S142) ==> DataAfter(d, pc, t).elves == 0
    ensures pc == E(E194) ==> DataAfter(d, pc, t).elves == d.elves + 1
  {
  }

  /** Whoever is chosen: Santa, a thread that holds a mutex, or, while Santa waits for a call, one that will make it. */
  ghost predicate Chosen(s: State, u: nat)
    requires Roles(s) && u < |s.threads|
  {
    u == 0 || HoldsAny(s.threads[u])
    || (s.threads[0] == Thread(S(S111), Asleep) && WillCall(s.threads[u].pc) && s.threads[u].mode != Asleep)
  }

  lemma HelpfulStays(s: State, u: nat)
    requires Known(s) && Enabled(s, u) && Helpful(s) && SantaPlace(s) != S142 && Chosen(s, u)
    ensures Roles(Exec(s, u)) && Helpful(Exec(s, u)) && Exec(s, u).data.deliveries == s.data.deliveries
  {
    StepRoles(s, u);
    ElvesStay(s, u);
    DeliveriesStay(s, u);
    if u == 0 {
      SantaStaysHelpful(s);
    } else {
      NotToCount(s.threads[u]);
      OthersStayHelpful(s, u);
    }
  }

  lemma NotToCount(th: Thread)
    requires HoldsAny(th) || WillCall(th.pc)
    ensures th.pc != R(R157)
  {
  }

  lemma SantaStaysHelpful(s: State)
    requires Known(s) && Enabled(s, 0) && Helpful(s) && SantaPlace(s) != S142
    requires Roles(Exec(s, 0)) && Exec(s, 0).data.elves == s.data.elves
    requires Exec(s, 0).data.deliveries == s.data.deliveries
    ensures Helpful(Exec(s, 0))
  {
    var z := s.threads[0];
    if Helps(z) {
      HelpsOn(z, s.data, s.r);
    } else if Roused(z) {
      ComingStays(s, 0);
      RousedGoesOn(s);
    } else {
      HeardAfterSanta(s);
      if GoesToListen(z) {
        ComingStays(s, 0);
        ListensOn(z, s.data, s.r);
      } else {
        EndsOn(s);
      }
    }
  }

  lemma HelpsOn(z: Thread, d: Data, r: nat)
    requires Helps(z) && z.pc != S(S142)
    ensures Helps(ThreadAfter(z, d, r))
  {
  }

  lemma ListensOn(z: Thread, d: Data, r: nat)
    requires GoesToListen(z) && z.mode != Asleep && d.deliveries < DELIVERS_NUMBER
    ensures GoesToListen(ThreadAfter(z, d, r))
  {
  }

  lemma EndsOn(s: State)
    requires Known(s) && Enabled(s, 0) && EndsDelivery(s.threads[0])
    ensures EndsDelivery(Exec(s, 0).threads[0]) ||
            (GoesToListen(Exec(s, 0).threads[0]) && Coming(Exec(s, 0)) == 0)
  {
    if SantaPlace(s) == S123 {
      CountsAfter(s.data, S(S123), 0);
      RunsAt(s, 0);
      forall t: nat | t < |s.threads|
        ensures Exec(s, 0).threads[t].pc != R(R158)
      {
        if t != 0 {
          OthersUntouched(s, 0, t);
          RunsAt(s, t);
          Apart(s, 0, t, Reindeers);
        }
      }
    }
  }

  /** Santa comes to line 110 while he holds sleep_mutex, so that nobody is hasty then. */
  lemma HeardAfterSanta(s: State)
    requires Known(s) && Enabled(s, 0) && CallsInTime(s) && (GoesToListen(s.threads[0]) || EndsDelivery(s.threads[0]))
    ensures CallsInTime(Exec(s, 0))
  {
    var t: nat :| t < |s.threads| && InTime(s.threads[0], s.threads[t].pc);
    assert t != 0;
    OthersUntouched(s, 0, t);
    ComesTo110(s.threads[0], s.data, s.r);
    if SantaPlace(s) == S149 {
      RunsAt(s, 0);
      RunsAt(s, t);
      Apart(s, 0, t, Sleep);
      HastyHolds(s.threads[t]);
    }
    assert InTime(Exec(s, 0).threads[0], Exec(s, 0).threads[t].pc);
  }

  lemma ComesTo110(z: Thread, d: Data, r: nat)
    requires z.pc.S?
    ensures ThreadAfter(z, d, r).pc == S(S110) ==> z.pc == S(S149)
  {
  }

  lemma HastyHolds(th: Thread)
    requires !Code(th.pc).Wait? ==> th.mode == Running
    ensures Hasty(th.pc) ==> Has(th, Sleep)
  {
  }

  lemma OthersStayHelpful(s: State, u: nat)
    requires Known(s) && Enabled(s, u) && Helpful(s) && u != 0 && Chosen(s, u) && s.threads[u].pc != R(R157)
    requires Roles(Exec(s, u)) && Exec(s, u).data.elves == s.data.elves
    requires Exec(s, u).data.deliveries == s.data.deliveries
    ensures Helpful(Exec(s, u))
  {
    OthersUntouched(s, u, 0);
    ComingStays(s, u);
    if GoesToListen(s.threads[0]) || EndsDelivery(s.threads[0]) {
      CallStays(s, u);
    }
  }

  /** Whoever will call in time stays so until its call wakes Santa. */
  lemma CallStays(s: State, u: nat)
    requires Known(s) && Enabled(s, u) && u != 0 && Chosen(s, u) && CallsInTime(s)
    requires s.data.elves == REQUIRED_ELVES_NUMBER
    requires (GoesToListen(s.threads[0]) && s.data.reindeers < s.r) || EndsDelivery(s.threads[0])
    ensures CallsInTime(Exec(s, u)) || Exec(s, u).threads[0] == Thread(S(S111), Waking)
  {
    var t: nat :| t < |s.threads| && InTime(s.threads[0], s.threads[t].pc);
    OthersUntouched(s, u, 0);
    if t != u {
      OthersUntouched(s, u, t);
      assert InTime(Exec(s, u).threads[0], Exec(s, u).threads[t].pc);
    } else {
      OwnCall(s, t);
    }
  }

  lemma OwnCall(s: State, t: nat)
    requires Known(s) && Enabled(s, t) && t != 0 && Chosen(s, t) && InTime(s.threads[0], s.threads[t].pc)
    requires s.data.elves == REQUIRED_ELVES_NUMBER
    requires (GoesToListen(s.threads[0]) && s.data.reindeers < s.r) || EndsDelivery(s.threads[0])
    ensures CallsInTime(Exec(s, t)) || Exec(s, t).threads[0] == Thread(S(S111), Waking)
  {
    var s' := Exec(s, t);
    assert FactOf(s, t) && FactOf(s, 0);
    OthersUntouched(s, t, 0);
    RunsAt(s, 0);
    RunsAt(s, t);
    Apart(s, 0, t, Sleep);
    OwnCallStays(s.threads[t], t, s.threads[0], s.data, s.r);
    if WillCall(s'.threads[t].pc) {
      assert InTime(s'.threads[0], s'.threads[t].pc);
    } else {
      CallsSanta(s.threads[t].pc);
    }
  }

  lemma OwnCallStays(th: Thread, t: nat, z: Thread, d: Data, r: nat)
    requires z.pc.S? && InTime(z, th.pc) && d.sleeping == SleepingPc(z.pc.s) && d.elves == REQUIRED_ELVES_NUMBER
    requires (GoesToListen(z) && d.reindeers < r) || EndsDelivery(z)
    requires Fact(th, t, z.pc.s, d, r) && th.mode != Asleep && (!Code(th.pc).Wait? ==> th.mode == Running)
    requires HoldsAny(th) || z == Thread(S(S111), Asleep)
    requires !(Has(th, Sleep) && Has(z, Sleep)) && (!Code(z.pc).Wait? ==> z.mode == Running)
    ensures InTime(z, ThreadAfter(th, d, r).pc) ||
            (Code(th.pc) == Broadcast(SantaTask) && z == Thread(S(S111), Asleep))
  {
  }

  /** How far a thread is from a call, or from holding no mutex. */
  function CallLeft(th: Thread): nat {
    ElfLeft(th) + ReindeerLeft(th) + if th.pc == E(E205) && th.mode == Waking then 10 else 0
  }

  function CallWork(s: State): nat {
    Sum(s.threads, CallLeft)
  }

  /** How far Santa is from resetting the count of the elves. */
  function HelpLeft(z: Thread): nat {
    match z.pc
    case S(p) =>
      (match p
       case S122 => 23
       case S123 => 22
       case S124 => 21
       case S125 => 20
       case S143 => 20
       case S145 => 19
       case S146 => 18
       case S148 => 17
       case S149 => 16
       case S110 => 15
       case S111 => if z.mode == Running then 14 else if z.mode == Asleep then 13 else 12
       case S112 => 11
       case S113 => 10
       case S117 => 9
       case S118 => 8
       case S130 => 7
       case S134 => 6
       case S135 => 5
       case S136 => 4
       case S140 => 3
       case S141 => 2
       case S142 => 1
       case _ => 0)
    case _ => 0
  }

  predicate CloserToHelp(s: State, s': State) {
    && s.threads != [] && s'.threads != []
    && (HelpLeft(s'.threads[0]) < HelpLeft(s.threads[0])
        || (HelpLeft(s'.threads[0]) == HelpLeft(s.threads[0]) && CallWork(s') < CallWork(s)))
  }

  lemma SantaCloser(s: State)
    requires Known(s) && Enabled(s, 0) && Helpful(s) && SantaPlace(s) != S142
    ensures CloserToHelp(s, Exec(s, 0))
  {
    SantaHelpsSooner(s.threads[0], s.data, s.r);
  }

  lemma SantaHelpsSooner(z: Thread, d: Data, r: nat)
    requires Helps(z) || (Roused(z) && d.reindeers < r) || GoesToListen(z) || EndsDelivery(z)
    requires z.pc != S(S142) && z.mode != Asleep && d.deliveries < DELIVERS_NUMBER
    ensures HelpLeft(ThreadAfter(z, d, r)) < HelpLeft(z)
  {
  }

  lemma OtherCloser(s: State, u: nat)
    requires Known(s) && Enabled(s, u) && u != 0 && Chosen(s, u) && s.data.deliveries < DELIVERS_NUMBER
    ensures CloserToHelp(s, Exec(s, u))
  {
    CallWorkAfter(s, u);
    CallGoesDown(s.threads[u], s.data, s.r);
    SantaNotFurther(s, u);
  }

  /** A call, if it is one, brings Santa closer. */
  lemma SantaNotFurther(s: State, u: nat)
    requires Known(s) && Enabled(s, u) && u != 0
    ensures HelpLeft(Exec(s, u).threads[0]) <= HelpLeft(s.threads[0])
  {
    OthersUntouched(s, u, 0);
    OnlySantaWaits(s.threads[0].pc.s);
  }

  lemma CallGoesDown(th: Thread, d: Data, r: nat)
    requires !th.pc.S? && th.mode != Asleep && Code(th.pc) != Exit && (th.mode == Waking ==> Code(th.pc).Wait?)
    requires HoldsAny(th) || WillCall(th.pc)
    requires d.deliveries < DELIVERS_NUMBER
    ensures CallLeft(ThreadAfter(th, d, r)) < CallLeft(th)
  {
    if th.pc.R? {
      ReindeerGoesDown(th, d, r);
    } else {
      ElfCallGoesDown(th, d, r);
    }
  }

  lemma CallWorkAfter(s: State, u: nat)
    requires Known(s) && Enabled(s, u) && u != 0
    ensures CallWork(Exec(s, u)) + CallLeft(s.threads[u]) == CallWork(s) + CallLeft(Exec(s, u).threads[u])
  {
    var s' := Exec(s, u);
    OthersBroadcast(s.threads[u].pc);
    forall v: nat | v < |s.threads| && v != u
      ensures CallLeft(s.threads[v]) == CallLeft(s'.threads[v])
    {
      OthersUntouched(s, u, v);
      NotForSanta(s.threads[v].pc);
    }
    SumStep(s.threads, s'.threads, CallLeft, u);
  }

  lemma NotForSanta(pc: Pc)
    ensures Code(pc).Wait? && Code(pc).c == SantaTask ==> pc.S?
  {
  }

  lemma ElfCallGoesDown(th: Thread, d: Data, r: nat)
    requires th.pc.E? && th.mode != Asleep && (th.mode == Waking ==> Code(th.pc).Wait?)
    requires HoldsAny(th) || WillCall(th.pc)
    ensures CallLeft(ThreadAfter(th, d, r)) < CallLeft(th)
  {
  }

  /** Whoever will call while Santa sleeps is awake. */
  lemma CallerAwake(s: State) returns (t: nat)
    requires Known(s) && CallsInTime(s) && s.threads[0] == Thread(S(S111), Asleep) && s.data.reindeers < s.r
    ensures 0 < t < |s.threads| && WillCall(s.threads[t].pc) && s.threads[t].mode != Asleep
  {
    t :| t < |s.threads| && InTime(s.threads[0], s.threads[t].pc);
    assert FactOf(s, t) && FactOf(s, 0);
    CallersWait(s.threads[t].pc);
  }

  lemma CallersWait(pc: Pc)
    requires WillCall(pc)
    ensures Code(pc).Wait? ==> pc == E(E205) || pc == R(R165)
    ensures Code(pc) != Exit && pc != R(R157)
  {
  }

  lemma NextForHelp(s: State) returns (u: nat)
    requires Known(s) && Helpful(s) && SantaPlace(s) != S142
    ensures Enabled(s, u) && Chosen(s, u) && CloserToHelp(s, Exec(s, u))
  {
    if s.owner != map[] {
      var t := SomebodyHolds(s);
      u := HolderMoves(s, t);
    } else if s.threads[0] != Thread(S(S111), Asleep) {
      u := 0;
      SantaCanGo(s);
    } else {
      u := CallerAwake(s);
      CallersWait(s.threads[u].pc);
    }
    if u == 0 {
      SantaCloser(s);
    } else {
      OtherCloser(s, u);
    }
  }

  lemma {:induction false} HelpPossible(s: State) returns (path: seq<State>)
    requires Known(s) && Helpful(s)
    ensures LeadsToHelp(path, s)
    decreases HelpLeft(s.threads[0]), CallWork(s)
  {
    if SantaPlace(s) == S142 {
      path := [s];
    } else {
      var u := NextForHelp(s);
      HelpfulStays(s, u);
      StepKnown(s, u);
      path := HelpPossible(Exec(s, u));
      PathFrom(s, path);
      path := [s] + path;
    }
  }

  /** Santa gets to resetting the count of the elves, and has not made a delivery before that. */
  ghost predicate LeadsToHelp(path: seq<State>, s: State) {
    && IsPath(path) && path[0] == s
    && var last := path[|path| - 1];
       last.data.deliveries == s.data.deliveries && last.threads != [] && last.threads[0].pc == S(S142)
  }

  // Otherwise there is none.

  lemma ComingNotLess(s: State, u: nat)
    requires Known(s) && Enabled(s, u) && s.threads[u].pc != S(S123)
    ensures Coming(Exec(s, u)) >= Coming(s)
  {
    var s', pc := Exec(s, u), s.threads[u].pc;
    CountsAfter(s.data, pc, u);
    if t: nat :| t < |s.threads| && s.threads[t].pc == R(R158) {
      if t != u {
        OthersUntouched(s, u, t);
        RunsAt(s, t);
        RunsAt(s, u);
        Apart(s, u, t, Reindeers);
        assert s'.threads[t].pc == R(R158);
      }
    }
  }

  lemma AllHaveCounted(s: State)
    requires Known(s) && SantaPlace(s) == S118 && Coming(s) >= s.r
    ensures s.data.reindeers == s.r
  {
    CountAtMost(s);
    if t: nat :| t < |s.threads| && s.threads[t].pc == R(R158) {
      RunsAt(s, t);
      RunsAt(s, 0);
      Apart(s, 0, t, Reindeers);
    }
  }

  lemma CountAtMost(s: State)
    requires Inv(s)
    ensures s.data.reindeers <= s.r
  {
    var all := All(s.r);
    assert all == s.data.counted + (all - s.data.counted);
    assert |all| == |s.data.counted| + |all - s.data.counted|;
  }

  /** While a reindeer is missing nobody new comes to call. */
  lemma NoNewCall(th: Thread, d: Data, r: nat)
    requires d.reindeers < r || th.pc != R(R161)
    requires !WillCall(th.pc) && ElfOk(th, d) && d.elves == REQUIRED_ELVES_NUMBER
    ensures !WillCall(ThreadAfter(th, d, r).pc)
  {
  }

  /** A hasty elf stays so until its call, which Santa does not hear at line 110. */
  lemma StaysHasty(th: Thread, t: nat, d: Data, r: nat)
    requires Hasty(th.pc) && d.sleeping && d.reindeers < r && Fact(th, t, S110, d, r)
    ensures var pc := ThreadAfter(th, d, r).pc; Hasty(pc) || !WillCall(pc)
  {
  }

  lemma UnheardStays(s: State, u: nat)
    requires Known(s) && Enabled(s, u) && u != 0 && !CallsInTime(s) && s.data.elves == REQUIRED_ELVES_NUMBER
    requires (GoesToListen(s.threads[0]) && s.data.reindeers < s.r) || EndsDelivery(s.threads[0])
    ensures Exec(s, u).threads[0] == s.threads[0] && !CallsInTime(Exec(s, u))
  {
    UnheardLetsSleep(s, u);
    forall t: nat | t < |s.threads|
      ensures !InTime(s.threads[0], Exec(s, u).threads[t].pc)
    {
      assert !InTime(s.threads[0], s.threads[t].pc);
      if t == u {
        OwnUnheard(s, u);
      } else {
        OthersUntouched(s, u, t);
      }
    }
  }

  lemma UnheardLetsSleep(s: State, u: nat)
    requires Known(s) && Enabled(s, u) && u != 0 && !CallsInTime(s)
    ensures Exec(s, u).threads[0] == s.threads[0]
  {
    OthersUntouched(s, u, 0);
    CallsSanta(s.threads[u].pc);
    assert !InTime(s.threads[0], s.threads[u].pc);
    OnlySantaWaits(s.threads[0].pc.s);
  }

  lemma OnlySantaWaits(p: SantaPc)
    ensures SantaCode(p).Wait? ==> p == S111 && SantaCode(p).c == SantaTask
  {
  }

  lemma OwnUnheard(s: State, u: nat)
    requires Known(s) && Enabled(s, u) && u != 0 && !InTime(s.threads[0], s.threads[u].pc)
    requires s.data.elves == REQUIRED_ELVES_NUMBER
    requires (GoesToListen(s.threads[0]) && s.data.reindeers < s.r) || EndsDelivery(s.threads[0])
    ensures !InTime(s.threads[0], Exec(s, u).threads[u].pc)
  {
    assert ElfOk(s.threads[u], s.data);
    assert FactOf(s, u) && FactOf(s, 0);
    if WillCall(s.threads[u].pc) {
      StaysHasty(s.threads[u], u, s.data, s.r);
    } else {
      RunsAt(s, 0);
      RunsAt(s, u);
      Apart(s, 0, u, Reindeers);
      NoNewCall(s.threads[u], s.data, s.r);
    }
  }

  /** Santa listens only when no elf keeps him out. */
  lemma UnheardBySanta(s: State)
    requires Known(s) && Enabled(s, 0) && !CallsInTime(s) && (GoesToListen(s.threads[0]) || EndsDelivery(s.threads[0]))
    ensures !CallsInTime(Exec(s, 0))
  {
    var z' := Exec(s, 0).threads[0];
    forall t: nat | t < |s.threads|
      ensures !InTime(z', Exec(s, 0).threads[t].pc)
    {
      assert !InTime(s.threads[0], s.threads[t].pc);
      if t != 0 {
        OthersUntouched(s, 0, t);
        if SantaPlace(s) == S110 {
          NobodyHasty(s, t);
        }
      }
    }
  }

  lemma NobodyHasty(s: State, t: nat)
    requires Known(s) && Enabled(s, 0) && SantaPlace(s) == S110 && 0 < t < |s.threads|
    ensures !Hasty(s.threads[t].pc)
  {
    RunsAt(s, t);
    RunsAt(s, 0);
    HastyHolds(s.threads[t]);
    assert Wants(s.threads[0]) == Some(Sleep);
    assert Has(s.threads[t], Sleep) ==> Sleep in s.owner;
  }

  // What keeps Santa from helping lasts until a delivery.

  ghost predicate NoHelp(s: State)
    requires Roles(s)
  {
    s.data.elves == REQUIRED_ELVES_NUMBER && !Helpful(s)
  }

  lemma NoHelpStep(s: State, u: nat)
    requires Known(s) && NoHelp(s) && Enabled(s, u)
    ensures Roles(Exec(s, u)) && (NoHelp(Exec(s, u)) || Exec(s, u).data.deliveries > s.data.deliveries)
  {
    StepRoles(s, u);
    NotAtReset(s, u);
    ElvesStay(s, u);
    LogAfter(s.data, s.threads[u].pc, u);
    if s.data.deliveries < DELIVERS_NUMBER && Exec(s, u).data.deliveries == s.data.deliveries {
      if u == 0 {
        SantaStaysUseless(s);
      } else {
        OthersStayUseless(s, u);
      }
    }
  }

  lemma NotAtReset(s: State, u: nat)
    requires Known(s) && NoHelp(s) && u < |s.threads|
    ensures s.threads[u].pc != S(S142) && !Helps(s.threads[0])
  {
    assert SantaAt(s.threads[0].pc.s, s.data, s.r);
    HelpsBeforeLast(s.threads[0], s.data, s.r);
  }

  lemma HelpsBeforeLast(z: Thread, d: Data, r: nat)
    requires z.pc.S? && SantaAt(z.pc.s, d, r)
    ensures Helps(z) ==> d.deliveries < DELIVERS_NUMBER
  {
  }

  lemma SantaStaysUseless(s: State)
    requires Known(s) && NoHelp(s) && Enabled(s, 0) && !Helps(s.threads[0]) && Roles(Exec(s, 0))
    requires s.data.deliveries < DELIVERS_NUMBER && Exec(s, 0).data.deliveries == s.data.deliveries
    ensures !Helpful(Exec(s, 0))
  {
    var z, z' := s.threads[0], Exec(s, 0).threads[0];
    if EndsDelivery(z) {
      EndsOn(s);
      if s.r > 0 {
        UnheardBySanta(s);
      }
      EndsToListen(z, s.data, s.r);
    } else if Coming(s) >= s.r {
      ComingNotLess(s, 0);
      AllComeFirst(s);
    } else if GoesToListen(z) {
      UnheardBySanta(s);
      ListensOn(z, s.data, s.r);
      ListeningIsNothingElse(z');
    } else {
      NothingElse(z);
    }
  }

  lemma EndsToListen(z: Thread, d: Data, r: nat)
    requires EndsDelivery(z)
    ensures var z' := ThreadAfter(z, d, r); !Helps(z') && !Roused(z') && (EndsDelivery(z') || GoesToListen(z'))
  {
  }

  lemma ListeningIsNothingElse(z: Thread)
    requires GoesToListen(z)
    ensures !Helps(z) && !Roused(z) && !EndsDelivery(z)
  {
  }

  lemma NothingElse(z: Thread)
    requires z.pc.S? && !Helps(z) && !Roused(z) && !GoesToListen(z) && !EndsDelivery(z)
    ensures z.pc == S(S121) || z.pc == S(S127)
  {
  }

  /** Once all reindeers are counted or about to be, Santa does not come to help, nor to the end of a delivery. */
  lemma AllComeFirst(s: State)
    requires Known(s) && Enabled(s, 0) && Coming(s) >= s.r
    requires !Helps(s.threads[0]) && !EndsDelivery(s.threads[0]) && SantaPlace(s) != S121
    ensures !Helps(Exec(s, 0).threads[0]) && !EndsDelivery(Exec(s, 0).threads[0])
  {
    if SantaPlace(s) == S118 {
      AllHaveCounted(s);
    }
    AllFirst(s.threads[0], s.data, s.r);
  }

  lemma AllFirst(z: Thread, d: Data, r: nat)
    requires z.pc.S? && !Helps(z) && !EndsDelivery(z) && z.pc != S(S121) && (z.pc == S(S118) ==> d.reindeers == r)
    ensures !Helps(ThreadAfter(z, d, r)) && !EndsDelivery(ThreadAfter(z, d, r))
  {
  }

  lemma OthersStayUseless(s: State, u: nat)
    requires Known(s) && NoHelp(s) && Enabled(s, u) && u != 0 && !Helps(s.threads[0]) && Roles(Exec(s, u))
    requires s.data.deliveries < DELIVERS_NUMBER
    ensures !Helpful(Exec(s, u))
  {
    var z := s.threads[0];
    OthersUntouched(s, u, 0);
    if EndsDelivery(z) {
      if s.r > 0 {
        UnheardStays(s, u);
      }
    } else if Coming(s) >= s.r {
      ComingNotLess(s, u);
    } else if GoesToListen(z) {
      UnheardStays(s, u);
      ListeningIsNothingElse(z);
    } else {
      NothingElse(z);
    }
  }

  lemma NoHelpStays(s: State, s': State)
    requires Known(s) && NoHelp(s) && Steady(s, s')
    ensures Roles(s') && (NoHelp(s') || s'.data.deliveries > s.data.deliveries)
  {
    if u: nat :| Enabled(s, u) && s' == Exec(s, u) {
      NoHelpStep(s, u);
    } else {
      var u: nat :| u != 0 && MayWakeSpuriously(s, u) && s' == Spurious(s, u);
      SamePlaces(s, u);
    }
  }

  lemma SamePlaces(s: State, u: nat)
    requires Roles(s) && u != 0 && u < |s.threads|
    ensures Roles(Spurious(s, u)) && (Helpful(Spurious(s, u)) ==> Helpful(s))
  {
    var s' := Spurious(s, u);
    assert forall t: nat | t < |s.threads| :: s'.threads[t].pc == s.threads[t].pc;
    assert CountsNow(s') <==> CountsNow(s) by {
      assert forall t: nat | t < |s.threads| :: s'.threads[t].pc == R(R158) <==> s.threads[t].pc == R(R158);
    }
    assert CallsInTime(s') ==> CallsInTime(s) by {
      assert forall t: nat | t < |s.threads| ::
          InTime(s'.threads[0], s'.threads[t].pc) ==> InTime(s.threads[0], s.threads[t].pc);
    }
  }

  lemma DeliveriesGrow(s: State, s': State)
    requires Steady(s, s')
    ensures s'.data.deliveries >= s.data.deliveries
  {
  }

  lemma {:induction false} NoHelpOnPath(path: seq<State>, k: nat)
    requires IsPath(path) && Known(path[0]) && NoHelp(path[0]) && k < |path|
    ensures Known(path[k]) && path[k].data.deliveries >= path[0].data.deliveries
    ensures NoHelp(path[k]) || path[k].data.deliveries > path[0].data.deliveries
  {
    if k > 0 {
      NoHelpOnPath(path, k - 1);
      assert Steady(path[k - 1], path[k - 1 + 1]);
      SteadyKeeps(path[k - 1], path[k]);
      DeliveriesGrow(path[k - 1], path[k]);
      if NoHelp(path[k - 1]) {
        NoHelpStays(path[k - 1], path[k]);
      }
    }
  }

  lemma NoHelpNoReset(s: State)
    requires Known(s) && NoHelp(s)
    ensures s.threads[0].pc != S(S142)
  {
    NotAtReset(s, 0);
  }

  /**
   In every state of every run in which three elves are counted, Santa can help them before
   another delivery if and only if Helpful says so.
   */
  lemma HelpComesIff(run: seq<State>, r: nat, e: nat, k: nat)
    requires IsRun(run, r, e) && k < |run| && run[k].data.elves == REQUIRED_ELVES_NUMBER
    ensures Known(run[k])
    ensures (exists path :: LeadsToHelp(path, run[k])) <==> Helpful(run[k])
  {
    RunKnown(run, r, e, k);
    var s := run[k];
    if Helpful(s) {
      var path := HelpPossible(s);
      assert LeadsToHelp(path, s);
    } else {
      forall path | LeadsToHelp(path, s)
        ensures false
      {
        NoHelpOnPath(path, |path| - 1);
        NoHelpNoReset(path[|path| - 1]);
      }
    }
  }

  /**
   An elf's call finds Santa at line 110 or asleep at line 111, because the elf holds
   sleep_mutex since it saw him asleep; it wakes him if and only if he has come to line 111.
   */
  lemma ElfCallCountsIff(run: seq<State>, r: nat, e: nat, k: nat, t: nat)
    requires IsRun(run, r, e) && k < |run| && t < |run[k].threads| && run[k].threads[t].pc == E(E211)
    ensures run[k].threads[0].pc == S(S110) || run[k].threads[0].pc == S(S111)
    ensures Exec(run[k], t).threads[0].mode == Waking <==> run[k].threads[0].pc == S(S111)
  {
    RunKnown(run, r, e, k);
    AsleepWhileElfCalls(run[k], t);
    RunsAt(run[k], 0);
  }
}
