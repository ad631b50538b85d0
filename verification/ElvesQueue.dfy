/**
 How many elves wait for Santa. The code bounds their counter; that the counter
 is that of the elves that wait depends on who is on its way when Santa resets it.
 */
module ElvesQueue {
  import opened Counting
  import opened Santa
  import opened SantaFacts
  import opened Deliveries
  import opened Helping

  /** An elf that has been counted and that Santa has not told that he helps it. */
  predicate InQueue(th: Thread) {
    match th.pc
    case E(p) =>
      (match p
       case E195 | E196 | E199 | E200 | E201 | E202 | E203 | E204 | E205 | E206 | E208 | E210 | E211 | E212 => true
       case E214 => th.mode != Waking
       case _ => false)
    case _ => false
  }

  function Queue(s: State): nat {
    Count(s.threads, InQueue)
  }

  /** An elf that has left its place in the queue's mutex and is on its way to call Santa, or to wait until it can. */
  predicate Late(pc: Pc) {
    match pc
    case E(p) =>
      (match p
       case E201 | E202 | E203 | E204 | E205 | E206 | E208 | E210 => true
       case _ => false)
    case _ => false
  }

  ghost predicate NobodyLate(s: State) {
    forall t | 0 <= t < |s.threads| :: !Late(s.threads[t].pc)
  }

  /** When Santa is about to reset the counter he has just woken all elves that slept. */
  ghost predicate AllTold(s: State) {
    s.threads != [] && s.threads[0].pc == S(S142) ==>
      forall t | 0 <= t < |s.threads| :: s.threads[t] != Thread(E(E214), Asleep)
  }

  lemma ToldStays(s: State, u: nat)
    requires Known(s) && AllTold(s) && Enabled(s, u)
    ensures AllTold(Exec(s, u))
  {
    var s' := Exec(s, u);
    if s'.threads[0].pc == S(S142) {
      forall t: nat | t < |s'.threads|
        ensures s'.threads[t] != Thread(E(E214), Asleep)
      {
        if u == 0 {
          ToldBySanta(s, t);
        } else {
          ToldUnderOther(s, u, t);
        }
      }
    }
  }

  lemma ToldBySanta(s: State, t: nat)
    requires Known(s) && Enabled(s, 0) && Exec(s, 0).threads[0].pc == S(S142) && t < |s.threads|
    ensures Exec(s, 0).threads[t] != Thread(E(E214), Asleep)
  {
    TellsElves(s.threads[0], s.data, s.r);
    if t != 0 {
      WakesElf(s, t);
    }
  }

  lemma WakesElf(s: State, t: nat)
    requires s.threads != [] && s.threads[0].pc == S(S141) && 0 < t < |s.threads|
    ensures Exec(s, 0).threads[t] == Woken(s.threads[t], SantaHelping)
  {
  }

  lemma ToldUnderOther(s: State, u: nat, t: nat)
    requires Known(s) && AllTold(s) && Enabled(s, u) && u != 0 && t < |s.threads|
    requires Exec(s, u).threads[0].pc == S(S142)
    ensures Exec(s, u).threads[t] != Thread(E(E214), Asleep)
  {
    OthersUntouched(s, u, 0);
    RunsAt(s, 0);
    if t == u {
      Apart(s, 0, u, Elves);
      FallsAsleep(s.threads[u], s.data, s.r);
    } else {
      OthersUntouched(s, u, t);
    }
  }

  lemma TellsElves(z: Thread, d: Data, r: nat)
    requires ThreadAfter(z, d, r).pc == S(S142)
    ensures z.pc == S(S141)
  {
  }

  lemma FallsAsleep(th: Thread, d: Data, r: nat)
    requires th.mode != Asleep
    ensures ThreadAfter(th, d, r) == Thread(E(E214), Asleep) ==> Has(th, Elves)
  {
  }

  /** A step takes an elf into the queue only at the count. */
  lemma QueueAfter(s: State, u: nat)
    requires Known(s) && Enabled(s, u)
    ensures Queue(Exec(s, u)) <= Queue(s) + if s.threads[u].pc == E(E194) then 1 else 0
  {
    var s', x := Exec(s, u), Exec(s, u).threads[u];
    CountUpdate(s.threads, InQueue, u, x);
    EntersQueue(s.threads[u], s.data, s.r);
    forall t: nat | t < |s.threads| && InQueue(s'.threads[t])
      ensures InQueue(s.threads[u := x][t])
    {
      if t != u {
        OthersUntouched(s, u, t);
      }
    }
    CountLess(s.threads[u := x], s'.threads, InQueue);
  }

  lemma EntersQueue(th: Thread, d: Data, r: nat)
    requires th.mode != Asleep && (th.mode == Waking ==> Code(th.pc).Wait?)
    ensures InQueue(ThreadAfter(th, d, r)) ==> InQueue(th) || th.pc == E(E194)
  {
  }

  /** At the reset the queue is empty exactly if nobody is late. */
  lemma EmptyIffNobodyLate(s: State)
    requires Known(s) && AllTold(s) && SantaPlace(s) == S142
    ensures Queue(s) == 0 <==> NobodyLate(s)
  {
    forall t: nat | t < |s.threads|
      ensures InQueue(s.threads[t]) <==> Late(s.threads[t].pc)
    {
      RunsAt(s, 0);
      RunsAt(s, t);
      if t != 0 {
        Apart(s, 0, t, Elves);
        QueuePlaces(s.threads[t]);
      }
    }
    if NobodyLate(s) {
      CountNone(s.threads, InQueue);
    } else {
      var t: nat :| t < |s.threads| && Late(s.threads[t].pc);
      CountPositive(s.threads, InQueue, t);
    }
  }

  lemma QueuePlaces(th: Thread)
    requires !Has(th, Elves) && th != Thread(E(E214), Asleep) && (!Code(th.pc).Wait? ==> th.mode == Running)
    ensures InQueue(th) <==> Late(th.pc)
  {
  }

  /** The reset. */
  lemma QueueAtReset(s: State)
    requires Known(s) && AllTold(s) && SantaPlace(s) == S142 && Enabled(s, 0)
    ensures Exec(s, 0).data.elves == 0
    ensures Queue(Exec(s, 0)) == 0 <==> NobodyLate(s)
  {
    EmptyIffNobodyLate(s);
    CountUpdate(s.threads, InQueue, 0, Exec(s, 0).threads[0]);
  }

  ghost predicate Counted(s: State) {
    Queue(s) <= s.data.elves
  }

  lemma QueueStaysCounted(s: State, u: nat)
    requires Known(s) && Counted(s) && Enabled(s, u) && s.threads[u].pc != S(S142)
    ensures Counted(Exec(s, u))
  {
    QueueAfter(s, u);
    ElvesAfter(s.data, s.threads[u].pc, u);
  }

  lemma SpuriousQueue(s: State, u: nat)
    requires MayWakeSpuriously(s, u)
    ensures Queue(Spurious(s, u)) <= Queue(s) && (AllTold(s) ==> AllTold(Spurious(s, u)))
  {
    CountLess(s.threads, Spurious(s, u).threads, InQueue);
  }

  /** Santa resets the counter between states k and k + 1. */
  ghost predicate ResetsAt(run: seq<State>, k: nat) {
    && k + 1 < |run| && run[k].threads != [] && run[k + 1].threads != []
    && run[k].threads[0].pc == S(S142) && run[k + 1].threads[0].pc == S(S143)
  }

  lemma {:induction false} RunTold(run: seq<State>, r: nat, e: nat, k: nat)
    requires IsRun(run, r, e) && k < |run|
    ensures Known(run[k]) && AllTold(run[k])
  {
    RunKnown(run, r, e, k);
    if k > 0 {
      RunTold(run, r, e, k - 1);
      var s := run[k - 1];
      assert Next(run[k - 1], run[k - 1 + 1]);
      if t: nat :| Enabled(s, t) && run[k] == Exec(s, t) {
        ToldStays(s, t);
      } else {
        var t: nat :| MayWakeSpuriously(s, t) && run[k] == Spurious(s, t);
        SpuriousQueue(s, t);
      }
    }
  }

  /** Only Santa's own step resets. */
  lemma WhoResets(s: State, s': State)
    requires Known(s) && Next(s, s') && s.threads[0].pc == S(S142) && s'.threads != [] && s'.threads[0].pc == S(S143)
    ensures Enabled(s, 0) && s' == Exec(s, 0)
  {
    if t: nat :| Enabled(s, t) && s' == Exec(s, t) {
      if t != 0 {
        OthersUntouched(s, t, 0);
      }
    }
  }

  lemma CountedNext(s: State, s': State)
    requires Known(s) && AllTold(s) && Counted(s) && Next(s, s')
    requires s.threads[0].pc == S(S142) && s'.threads != [] && s'.threads[0].pc == S(S143) ==> NobodyLate(s)
    ensures Counted(s')
  {
    if t: nat :| Enabled(s, t) && s' == Exec(s, t) {
      if s.threads[t].pc == S(S142) {
        OnlySanta(s, t);
        QueueAtReset(s);
      } else {
        QueueStaysCounted(s, t);
      }
    } else {
      var t: nat :| MayWakeSpuriously(s, t) && s' == Spurious(s, t);
      SpuriousQueue(s, t);
    }
  }

  lemma OnlySanta(s: State, t: nat)
    requires Roles(s) && t < |s.threads| && s.threads[t].pc.S?
    ensures t == 0
  {
  }

  lemma {:induction false} RunCounted(run: seq<State>, r: nat, e: nat, k: nat)
    requires IsRun(run, r, e) && k < |run| && forall j: nat | ResetsAt(run, j) :: NobodyLate(run[j])
    ensures Counted(run[k])
  {
    if k == 0 {
      CountNone(run[0].threads, InQueue);
    } else {
      RunCounted(run, r, e, k - 1);
      RunTold(run, r, e, k - 1);
      assert Next(run[k - 1], run[k - 1 + 1]);
      assert ResetsAt(run, k - 1) ==> NobodyLate(run[k - 1]);
      RunKnown(run, r, e, k);
      CountedNext(run[k - 1], run[k]);
    }
  }

  /**
   In every run, the elves that wait are never more than waiting_elves says if and only
   if no elf is between lines 201 and 210 whenever Santa resets it.
   */
  lemma QueueCountedIff(run: seq<State>, r: nat, e: nat)
    requires IsRun(run, r, e)
    ensures (forall k | 0 <= k < |run| :: Counted(run[k])) <==> (forall j: nat | ResetsAt(run, j) :: NobodyLate(run[j]))
  {
    if forall k | 0 <= k < |run| :: Counted(run[k]) {
      forall j: nat | ResetsAt(run, j)
        ensures NobodyLate(run[j])
      {
        RunTold(run, r, e, j);
        assert Next(run[j], run[j + 1]);
        WhoResets(run[j], run[j + 1]);
        QueueAtReset(run[j]);
        assert Counted(run[j + 1]);
      }
    }
    if forall j: nat | ResetsAt(run, j) :: NobodyLate(run[j]) {
      forall k | 0 <= k < |run|
        ensures Counted(run[k])
      {
        RunCounted(run, r, e, k);
      }
    }
  }

  // As long as Santa wakes up only when he is called, nobody is ever late.

  /** Santa is up and has not turned to the elves, nor told the reindeers that the delivery is over. */
  predicate Up(z: Thread) {
    OnTheWay(z) || z.pc == S(S122) || z.pc == S(S123)
  }

  /** A reindeer that is to call although a delivery took place without it. */
  ghost predicate Straggler(s: State, t: nat) {
    t < |s.threads| && CallerAt(s.threads[t].pc) && t !in s.data.counted
  }

  ghost predicate HasStraggler(s: State) {
    exists t :: Straggler(s, t)
  }

  /** Santa is up, and it was an elf that called him, or a straggler. */
  ghost predicate UpForElves(s: State) {
    && s.threads != []
    && (Helps(s.threads[0]) || (Up(s.threads[0]) && (s.data.reindeers != s.r || ReindeerCalls(s))))
  }

  /** The elves are three, and the third has called. */
  ghost predicate ThreeRest(s: State) {
    s.data.elves == REQUIRED_ELVES_NUMBER && forall t | 0 <= t < |s.threads| :: !ElfOnItsWay(s.threads[t].pc)
  }

  predicate IsThird(pc: Pc) {
    match pc
    case E(p) =>
      (match p
       case E200 | E201 | E202 | E203 | E204 | E205 | E206 | E208 | E210 | E211 => true
       case _ => false)
    case _ => false
  }

  ghost predicate OneThird(s: State) {
    forall t | 0 <= t < |s.threads| && IsThird(s.threads[t].pc) ::
      && s.data.elves == REQUIRED_ELVES_NUMBER
      && forall u | 0 <= u < |s.threads| && u != t :: !ElfOnItsWay(s.threads[u].pc)
  }

  ghost predicate Orderly(s: State) {
    && OneThird(s)
    && (HasStraggler(s) || UpForElves(s) ==> ThreeRest(s))
    && (HasStraggler(s) ==> s.threads != [] && !Up(s.threads[0]) && !Helps(s.threads[0]))
    && (forall t, u | Straggler(s, t) && Straggler(s, u) :: t == u)
  }

  lemma StartOrderly(r: nat, e: nat)
    ensures Orderly(Start(r, e))
  {
  }

  lemma OnItsWayFrom(th: Thread, d: Data, r: nat)
    ensures ElfOnItsWay(ThreadAfter(th, d, r).pc) ==> ElfOnItsWay(th.pc) || th.pc == E(E194)
    ensures IsThird(ThreadAfter(th, d, r).pc) ==>
              IsThird(th.pc) || (th.pc == E(E199) && d.elves == REQUIRED_ELVES_NUMBER)
  {
  }

  /** With three elves counted no other comes onto its way. */
  lemma OnItsWayStays(s: State, u: nat, t: nat)
    requires Known(s) && Enabled(s, u) && t < |s.threads| && s.data.elves == REQUIRED_ELVES_NUMBER
    ensures ElfOnItsWay(Exec(s, u).threads[t].pc) ==> ElfOnItsWay(s.threads[t].pc)
  {
    assert ElfOk(s.threads[u], s.data);
    OnItsWayFrom(s.threads[u], s.data, s.r);
    if t != u {
      OthersUntouched(s, u, t);
    }
  }

  lemma ThreeRestStays(s: State, u: nat)
    requires Known(s) && Enabled(s, u) && ThreeRest(s) && s.threads[u].pc != S(S142)
    ensures ThreeRest(Exec(s, u))
  {
    ElvesStay(s, u);
    forall t: nat | t < |s.threads|
      ensures !ElfOnItsWay(Exec(s, u).threads[t].pc)
    {
      OnItsWayStays(s, u, t);
    }
  }

  /** A third elf was so before, or has just found that it is. */
  lemma ThirdBefore(s: State, u: nat, t: nat)
    requires Known(s) && Enabled(s, u) && t < |s.threads| && IsThird(Exec(s, u).threads[t].pc)
    ensures IsThird(s.threads[t].pc) ||
            (t == u && s.threads[t].pc == E(E199) && s.data.elves == REQUIRED_ELVES_NUMBER)
  {
    if t == u {
      OnItsWayFrom(s.threads[u], s.data, s.r);
    } else {
      OthersUntouched(s, u, t);
    }
  }

  lemma OneThirdPair(s: State, u: nat, t: nat, v: nat)
    requires Known(s) && Enabled(s, u) && OneThird(s) && t < |s.threads| && v < |s.threads| && v != t
    requires IsThird(s.threads[t].pc) || (s.threads[t].pc == E(E199) && s.data.elves == REQUIRED_ELVES_NUMBER)
    ensures !ElfOnItsWay(Exec(s, u).threads[v].pc)
  {
    OnItsWayStays(s, u, v);
    RunsAt(s, t);
    RunsAt(s, v);
    Apart(s, t, v, Elves);
    OnItsWayPlaces(s.threads[v]);
  }

  lemma OnItsWayPlaces(th: Thread)
    requires !Code(th.pc).Wait? ==> th.mode == Running
    ensures ElfOnItsWay(th.pc) ==> IsThird(th.pc) || Has(th, Elves)
  {
  }

  lemma OneThirdStays(s: State, u: nat)
    requires Known(s) && Enabled(s, u) && OneThird(s) && (s.threads[u].pc == S(S142) ==> ThreeRest(s))
    ensures OneThird(Exec(s, u))
  {
    var s' := Exec(s, u);
    forall t: nat | t < |s'.threads| && IsThird(s'.threads[t].pc)
      ensures s'.data.elves == REQUIRED_ELVES_NUMBER
      ensures forall v | 0 <= v < |s'.threads| && v != t :: !ElfOnItsWay(s'.threads[v].pc)
    {
      ThirdBefore(s, u, t);
      NoResetUnderThird(s, u, t);
      ElvesStay(s, u);
      forall v: nat | v < |s'.threads| && v != t
        ensures !ElfOnItsWay(s'.threads[v].pc)
      {
        OneThirdPair(s, u, t, v);
      }
    }
  }

  lemma NoResetUnderThird(s: State, u: nat, t: nat)
    requires Known(s) && Enabled(s, u) && t < |s.threads| && (s.threads[u].pc == S(S142) ==> ThreeRest(s))
    requires IsThird(s.threads[t].pc) || (t == u && s.threads[t].pc == E(E199))
    ensures s.threads[u].pc != S(S142)
  {
    assert IsThird(s.threads[t].pc) ==> ElfOnItsWay(s.threads[t].pc);
  }

  /** Who becomes a straggler: a reindeer on its way to call Santa when he resets the count. */
  lemma NewStraggler(s: State, u: nat, x: nat)
    requires Known(s) && Enabled(s, u) && Straggler(Exec(s, u), x)
    ensures Straggler(s, x) || (s.threads[u].pc == S(S123) && CallerAt(s.threads[x].pc) && x in s.data.counted)
  {
    BothFrom(s, u, x);
    CountsAfter(s.data, s.threads[u].pc, u);
    assert FactOf(s, u);
  }

  lemma CountedIsReindeer(s: State, x: nat)
    requires Inv(s) && x in s.data.counted
    ensures 1 <= x <= s.r
  {
    assert x in All(s.r);
  }

  lemma OneOfTwo(s: State, u: nat, t: nat, v: nat)
    requires Known(s) && Enabled(s, u) && Orderly(s) && t != v && Straggler(Exec(s, u), t)
    ensures !Straggler(Exec(s, u), v)
  {
    NewStraggler(s, u, t);
    if s.threads[u].pc == S(S123) {
      OnlySanta(s, u);
      assert !Straggler(s, t);
    }
    if Straggler(Exec(s, u), v) {
      NewStraggler(s, u, v);
    }
  }

  lemma StragglersStayOne(s: State, u: nat)
    requires Known(s) && Enabled(s, u) && Orderly(s)
    ensures forall t, v | Straggler(Exec(s, u), t) && Straggler(Exec(s, u), v) :: t == v
  {
    forall t: nat, v: nat | Straggler(Exec(s, u), t) && Straggler(Exec(s, u), v)
      ensures t == v
    {
      if t != v {
        OneOfTwo(s, u, t, v);
      }
    }
  }

  /** A new straggler means that Santa was up for an elf. */
  lemma StragglerWasCalling(s: State, u: nat)
    requires Known(s) && Enabled(s, u) && HasStraggler(Exec(s, u))
    ensures HasStraggler(s) || (UpForElves(s) && s.threads[u].pc == S(S123))
  {
    var x: nat :| Straggler(Exec(s, u), x);
    NewStraggler(s, u, x);
    if !Straggler(s, x) {
      CountedIsReindeer(s, x);
      OnlySanta(s, u);
      assert MayCall(s.threads[x].pc);
    }
  }

  /** How Santa gets up: by a call. */
  lemma GetsUp(s: State, u: nat)
    requires Known(s) && Enabled(s, u) && (Up(Exec(s, u).threads[0]) || Helps(Exec(s, u).threads[0]))
    ensures Up(s.threads[0]) || Helps(s.threads[0]) ||
            (u != 0 && s.threads[0] == Thread(S(S111), Asleep)
             && (s.threads[u].pc == R(R168) || s.threads[u].pc == E(E211)))
  {
    if u == 0 {
      StaysUp(s.threads[0], s.data, s.r);
    } else {
      CallsSanta(s.threads[u].pc);
      OthersUntouched(s, u, 0);
    }
  }

  lemma StaysUp(z: Thread, d: Data, r: nat)
    requires z.pc.S? && z.mode != Asleep && (z.mode == Waking ==> z.pc == S(S111))
    ensures Up(ThreadAfter(z, d, r)) || Helps(ThreadAfter(z, d, r)) ==> Up(z) || Helps(z)
  {
  }

  /** The call of a straggler is its last act as one. */
  lemma StragglerCalls(s: State, u: nat)
    requires Known(s) && Enabled(s, u) && Orderly(s) && HasStraggler(s) && s.threads[u].pc == R(R168)
    ensures !HasStraggler(Exec(s, u))
  {
    var x: nat :| Straggler(s, x);
    assert FactOf(s, u) && FactOf(s, x);
    assert s.threads[x].pc.R? && 1 <= x <= s.r;
    RoomForOne(s, x);
    assert Straggler(s, u);
    forall t: nat
      ensures !Straggler(Exec(s, u), t)
    {
      if Straggler(Exec(s, u), t) {
        NewStraggler(s, u, t);
        AfterCall(s, u);
      }
    }
  }

  lemma AfterCall(s: State, u: nat)
    requires u < |s.threads| && s.threads[u].pc == R(R168)
    ensures Exec(s, u).threads[u].pc == R(R171)
  {
  }

  lemma StragglerKeepsSantaDown(s: State, u: nat)
    requires Known(s) && Enabled(s, u) && Orderly(s) && HasStraggler(Exec(s, u))
    ensures !Up(Exec(s, u).threads[0]) && !Helps(Exec(s, u).threads[0])
  {
    StragglerWasCalling(s, u);
    if HasStraggler(s) {
      if Up(Exec(s, u).threads[0]) || Helps(Exec(s, u).threads[0]) {
        GetsUp(s, u);
        assert !ElfOnItsWay(s.threads[u].pc);
        StragglerCalls(s, u);
      }
    } else {
      OnlySanta(s, u);
    }
  }

  /** If nobody is a straggler and Santa is not up for elves, only an elf's call changes that. */
  lemma UpForElvesFrom(s: State, u: nat)
    requires Known(s) && Enabled(s, u) && !HasStraggler(s) && !UpForElves(s) && UpForElves(Exec(s, u))
    ensures s.threads[u].pc == E(E211)
  {
    var s', pc := Exec(s, u), s.threads[u].pc;
    GetsUp(s, u);
    CountsAfter(s.data, pc, u);
    if Up(s.threads[0]) {
      UpStays(s, u);
    } else if pc == R(R168) {
      CallForReindeers(s, u);
    }
  }

  /** The call of a reindeer that is no straggler is one for reindeers. */
  lemma CallForReindeers(s: State, u: nat)
    requires Known(s) && Enabled(s, u) && !HasStraggler(s) && s.threads[u].pc == R(R168)
    requires !Helps(s.threads[0])
    ensures !UpForElves(Exec(s, u))
  {
    assert FactOf(s, u) && !Straggler(s, u);
    NoOtherReindeerCalls(s, u);
    OthersUntouched(s, u, 0);
  }

  lemma UpStays(s: State, u: nat)
    requires Known(s) && Enabled(s, u) && !UpForElves(s) && Up(s.threads[0])
    ensures !UpForElves(Exec(s, u))
  {
    var s', pc := Exec(s, u), s.threads[u].pc;
    CountsAfter(s.data, pc, u);
    if pc == R(R158) {
      NotCountedYet(s, u);
      RoomForOne(s, u);
    }
    if u != 0 {
      OthersUntouched(s, u, 0);
    }
    if ReindeerCalls(s') {
      CallsBefore(s, u);
    }
    SantaTurns(s.threads[0], s.data, s.r);
  }

  lemma CallsBefore(s: State, u: nat)
    requires Known(s) && Enabled(s, u) && ReindeerCalls(Exec(s, u))
    ensures ReindeerCalls(s) || s.threads[u].pc == R(R158)
  {
    var t: nat :| 1 <= t <= s.r && MayCall(Exec(s, u).threads[t].pc);
    BothFrom(s, u, t);
    assert MayCall(s.threads[t].pc) || s.threads[u].pc == R(R158);
  }

  lemma SantaTurns(z: Thread, d: Data, r: nat)
    requires Up(z) && d.reindeers == r
    ensures !Helps(ThreadAfter(z, d, r))
    ensures z.pc == S(S123) ==> !Up(ThreadAfter(z, d, r))
  {
  }

  lemma ThreeRestAfter(s: State, u: nat)
    requires Known(s) && Enabled(s, u) && Orderly(s) && (HasStraggler(Exec(s, u)) || UpForElves(Exec(s, u)))
    ensures ThreeRest(Exec(s, u))
  {
    if HasStraggler(s) || UpForElves(s) {
      if s.threads[u].pc == S(S142) {
        OnlySanta(s, u);
        NotAfterReset(s);
      } else {
        ThreeRestStays(s, u);
      }
    } else {
      if HasStraggler(Exec(s, u)) {
        StragglerWasCalling(s, u);
      }
      UpForElvesFrom(s, u);
      ThirdRests(s, u);
    }
  }

  lemma NotAfterReset(s: State)
    requires Known(s) && Enabled(s, 0) && Orderly(s) && SantaPlace(s) == S142
    ensures !HasStraggler(Exec(s, 0)) && !UpForElves(Exec(s, 0))
  {
    if HasStraggler(Exec(s, 0)) {
      StragglerWasCalling(s, 0);
    }
  }

  lemma ThirdRests(s: State, u: nat)
    requires Known(s) && Enabled(s, u) && OneThird(s) && s.threads[u].pc == E(E211)
    ensures ThreeRest(Exec(s, u))
  {
    assert IsThird(s.threads[u].pc);
    ElvesStay(s, u);
    forall t: nat | t < |s.threads|
      ensures !ElfOnItsWay(Exec(s, u).threads[t].pc)
    {
      if t != u {
        OnItsWayStays(s, u, t);
      }
    }
  }

  lemma OrderlyStays(s: State, u: nat)
    requires Known(s) && Enabled(s, u) && Orderly(s)
    ensures Orderly(Exec(s, u))
  {
    if s.threads[u].pc == S(S142) {
      OnlySanta(s, u);
      assert UpForElves(s);
    }
    OneThirdStays(s, u);
    StragglersStayOne(s, u);
    if HasStraggler(Exec(s, u)) || UpForElves(Exec(s, u)) {
      ThreeRestAfter(s, u);
    }
    if HasStraggler(Exec(s, u)) {
      StragglerKeepsSantaDown(s, u);
    }
  }

  lemma OrderlySpurious(s: State, u: nat)
    requires u != 0 && u < |s.threads| && Orderly(s)
    ensures Orderly(Spurious(s, u))
  {
    var s' := Spurious(s, u);
    assert forall t: nat | t < |s.threads| :: s'.threads[t].pc == s.threads[t].pc;
    forall x | Straggler(s', x)
      ensures Straggler(s, x)
    {
    }
    if ReindeerCalls(s') {
      var x :| 1 <= x <= s.r < |s'.threads| && MayCall(s'.threads[x].pc);
      assert MayCall(s.threads[x].pc);
    }
  }

  /** A run in which Santa's own wait never returns without a signal. */
  ghost predicate IsSteadyRun(run: seq<State>, r: nat, e: nat) {
    run != [] && run[0] == Start(r, e) && IsPath(run)
  }

  lemma SteadyIsRun(run: seq<State>, r: nat, e: nat)
    requires IsSteadyRun(run, r, e)
    ensures IsRun(run, r, e)
  {
    forall k | 0 <= k < |run| - 1
      ensures Next(run[k], run[k + 1])
    {
      assert Steady(run[k], run[k + 1]);
    }
  }

  lemma {:induction false} RunOrderly(run: seq<State>, r: nat, e: nat, k: nat)
    requires IsSteadyRun(run, r, e) && k < |run|
    ensures Orderly(run[k])
  {
    if k == 0 {
      StartOrderly(r, e);
    } else {
      RunOrderly(run, r, e, k - 1);
      SteadyIsRun(run, r, e);
      RunKnown(run, r, e, k - 1);
      var s := run[k - 1];
      assert Steady(run[k - 1], run[k - 1 + 1]);
      if t: nat :| Enabled(s, t) && run[k] == Exec(s, t) {
        OrderlyStays(s, t);
      } else {
        var t: nat :| t != 0 && MayWakeSpuriously(s, t) && run[k] == Spurious(s, t);
        OrderlySpurious(s, t);
      }
    }
  }

  /** As long as Santa wakes up only when he is called, at most three elves wait, and the counter covers them. */
  lemma AtMostThreeWait(run: seq<State>, r: nat, e: nat, k: nat)
    requires IsSteadyRun(run, r, e) && k < |run|
    ensures Queue(run[k]) <= run[k].data.elves <= REQUIRED_ELVES_NUMBER
  {
    SteadyIsRun(run, r, e);
    forall j: nat | ResetsAt(run, j)
      ensures NobodyLate(run[j])
    {
      RunOrderly(run, r, e, j);
      assert UpForElves(run[j]);
      forall t | 0 <= t < |run[j].threads|
        ensures !Late(run[j].threads[t].pc)
      {
        assert !ElfOnItsWay(run[j].threads[t].pc);
      }
    }
    RunCounted(run, r, e, k);
    RunKnown(run, r, e, k);
  }
}
