/** How the threads of the Santa Claus problem end after the third delivery. */
module Endings {
  import opened Santa
  import opened SantaFacts
  import opened Deliveries
  import Counting

  /** A reindeer that comes back from a delivery goes on holiday again before the third one, and ends after it. */
  lemma ReindeerLeaves(s: State, t: nat)
    requires t < |s.threads| && s.threads[t] == Thread(R(R155), Running)
    ensures s.data.deliveries >= 3 ==> Exec(s, t).threads[t].pc == R(R175)
    ensures s.data.deliveries < 3 ==> Exec(s, t).threads[t].pc == R(R157)
  {
  }

  /** No reindeer is about to count itself. */
  predicate Comes(pc: Pc) {
    pc == R(R157) || pc == R(R158)
  }

  ghost predicate NobodyComes(s: State) {
    s.data.deliveries >= DELIVERS_NUMBER ==> forall t | 0 <= t < |s.threads| :: !Comes(s.threads[t].pc)
  }

  lemma ComesFrom(th: Thread, d: Data, r: nat)
    requires Comes(ThreadAfter(th, d, r).pc)
    ensures Comes(th.pc) || (th.pc == R(R155) && d.deliveries < DELIVERS_NUMBER)
  {
  }

  lemma StepNobodyComes(s: State, u: nat)
    requires Known(s) && NobodyComes(s) && Enabled(s, u)
    ensures NobodyComes(Exec(s, u))
  {
    LogAfter(s.data, s.threads[u].pc, u);
    forall t: nat | t < |s.threads| && Exec(s, u).data.deliveries >= DELIVERS_NUMBER
      ensures !Comes(Exec(s, u).threads[t].pc)
    {
      if s.threads[u].pc == S(S121) {
        SettingOutNobodyComes(s, u, t);
      } else if t == u {
        if Comes(Exec(s, u).threads[u].pc) {
          ComesFrom(s.threads[u], s.data, s.r);
        }
      } else {
        OthersUntouched(s, u, t);
      }
    }
  }

  /** When Santa sets out all reindeers have been counted. */
  lemma SettingOutNobodyComes(s: State, u: nat, t: nat)
    requires Known(s) && Enabled(s, u) && s.threads[u].pc == S(S121) && t < |s.threads|
    ensures !Comes(Exec(s, u).threads[t].pc)
  {
    assert u == 0;
    if t != 0 {
      OthersUntouched(s, 0, t);
    }
    if 1 <= t <= s.r {
      DeliveringCounts(s, t);
      BackIsHere(s.threads[t]);
    }
  }

  lemma BackIsHere(th: Thread)
    requires Back(th)
    ensures !Comes(th.pc)
  {
  }

  lemma {:induction false} RunNobodyComes(run: seq<State>, r: nat, e: nat, k: nat)
    requires IsRun(run, r, e) && k < |run|
    ensures Known(run[k]) && NobodyComes(run[k])
  {
    RunKnown(run, r, e, k);
    if k > 0 {
      RunNobodyComes(run, r, e, k - 1);
      var s := run[k - 1];
      assert Next(run[k - 1], run[k - 1 + 1]);
      if t: nat :| Enabled(s, t) && run[k] == Exec(s, t) {
        StepNobodyComes(s, t);
      } else {
        var t: nat :| MayWakeSpuriously(s, t) && run[k] == Spurious(s, t);
        SamePcs(s, t);
      }
    }
  }

  lemma SamePcs(s: State, u: nat)
    requires u < |s.threads|
    ensures NobodyComes(s) ==> NobodyComes(Spurious(s, u))
  {
    assert forall t: nat | t < |s.threads| :: Spurious(s, u).threads[t].pc == s.threads[t].pc;
  }

  /** Once three deliveries are made, no step of a run counts a reindeer or makes another delivery. */
  lemma NobodyCountsAfterThree(run: seq<State>, r: nat, e: nat, k: nat)
    requires IsRun(run, r, e) && k + 1 < |run| && run[k].data.deliveries >= 3
    ensures run[k + 1].data.counted <= run[k].data.counted
    ensures run[k + 1].data.reindeers <= run[k].data.reindeers
    ensures run[k + 1].data.deliveries == run[k].data.deliveries == 3
  {
    RunNobodyComes(run, r, e, k);
    RunKnown(run, r, e, k + 1);
    DeliveriesAreComplete(run, r, e, k);
    DeliveriesAreComplete(run, r, e, k + 1);
    var s := run[k];
    assert Next(run[k], run[k + 1]);
    if t: nat :| Enabled(s, t) && run[k + 1] == Exec(s, t) {
      assert !Comes(s.threads[t].pc);
      CountsAfter(s.data, s.threads[t].pc, t);
      LogAfter(s.data, s.threads[t].pc, t);
    }
  }

  // Which reindeers end.

  ghost predicate AllEnded(s: State) {
    forall t | 1 <= t <= s.r < |s.threads| :: s.threads[t].pc == R(R175)
  }

  /** Some reindeer has missed the end of the last delivery. */
  ghost predicate SomebodyMissed(s: State) {
    exists t :: 1 <= t <= s.r < |s.threads| && Back(s.threads[t])
  }

  /** After the last delivery, with nobody counted any more. */
  ghost predicate AfterLast(s: State) {
    Known(s) && SantaPlace(s) == S127 && NobodyComes(s) && s.data.deliveries == 3 && s.data.counted == {}
  }

  predicate PastReset(p: SantaPc) {
    p == S124 || p == S125 || p == S127
  }

  ghost predicate NothingCounted(s: State)
    requires Roles(s)
  {
    PastReset(SantaPlace(s)) && s.data.deliveries >= 3 ==> s.data.counted == {}
  }

  lemma {:induction false} CountedAtEnd(run: seq<State>, r: nat, e: nat, k: nat)
    requires IsRun(run, r, e) && k < |run|
    ensures Known(run[k]) && NothingCounted(run[k])
  {
    RunKnown(run, r, e, k);
    if k > 0 {
      CountedAtEnd(run, r, e, k - 1);
      RunNobodyComes(run, r, e, k - 1);
      var s := run[k - 1];
      assert Next(run[k - 1], run[k - 1 + 1]);
      if t: nat :| Enabled(s, t) && run[k] == Exec(s, t) {
        StepCountedAtEnd(s, t);
      } else {
        var t: nat :| MayWakeSpuriously(s, t) && run[k] == Spurious(s, t);
      }
    }
  }

  lemma StepCountedAtEnd(s: State, u: nat)
    requires Known(s) && NobodyComes(s) && Enabled(s, u) && Roles(Exec(s, u))
    requires NothingCounted(s)
    ensures NothingCounted(Exec(s, u))
  {
    if u == 0 {
      if PastReset(SantaPlace(Exec(s, u))) {
        ToReset(s.threads[0], s.data, s.r);
        CountedAfterReset(s.threads[0], s.data, s.r);
      }
    } else {
      OthersUntouched(s, u, 0);
      OthersCount(s.data, s.threads[u].pc, u);
    }
  }

  lemma OthersCount(d: Data, pc: Pc, u: nat)
    requires !pc.S?
    ensures DataAfter(d, pc, u).deliveries == d.deliveries
    ensures !Comes(pc) ==> DataAfter(d, pc, u).counted == d.counted
  {
  }

  lemma CountedAfterReset(z: Thread, d: Data, r: nat)
    requires z.pc.S? && (PastReset(z.pc.s) || z.pc == S(S123))
    ensures var d' := DataAfter(d, z.pc, 0);
      d'.deliveries == d.deliveries && d'.counted == if z.pc == S(S123) then {} else d.counted
  {
  }

  lemma ToReset(z: Thread, d: Data, r: nat)
    requires z.pc.S? && ThreadAfter(z, d, r).pc.S? && PastReset(ThreadAfter(z, d, r).pc.s)
    ensures PastReset(z.pc.s) || z.pc == S(S123)
  {
  }

  /** Steps to the end of a thread that has not missed the last delivery. */
  function EndLeft(th: Thread): nat {
    match th.pc
    case R(p) =>
      (match p
       case R172 => 3
       case R173 => 2
       case R155 => 1
       case _ => 0)
    case _ => 0
  }

  function EndWork(s: State): nat {
    Counting.Sum(s.threads, EndLeft)
  }

  /** Where a reindeer is that has neither ended nor missed the last delivery. */
  lemma OnTheWayOut(th: Thread)
    requires th.pc.R? && !Back(th) && !Comes(th.pc) && (!Code(th.pc).Wait? ==> th.mode == Running)
    ensures th.pc == R(R175) || th.pc == R(R155) || th.pc == R(R173) || th == Thread(R(R172), Waking)
  {
  }

  lemma NextToEnd(s: State) returns (u: nat)
    requires AfterLast(s) && !SomebodyMissed(s) && !AllEnded(s)
    ensures Enabled(s, u) && 1 <= u <= s.r
    ensures s.threads[u].pc == R(R155) || s.threads[u].pc == R(R173) || s.threads[u] == Thread(R(R172), Waking)
  {
    var t: nat :| 1 <= t <= s.r && s.threads[t].pc != R(R175);
    RunsAt(s, t);
    OnTheWayOut(s.threads[t]);
    u := t;
    if s.threads[t].pc == R(R172) && ReindeersWaiting in s.owner {
      u := s.owner[ReindeersWaiting];
      WaitingHolder(s.threads[u]);
      RunsAt(s, u);
      OnTheWayOut(s.threads[u]);
    }
  }

  /** What such a step makes of the thread. */
  lemma EndComesNearer(th: Thread, d: Data, r: nat)
    requires th.pc == R(R155) || th.pc == R(R173) || th == Thread(R(R172), Waking)
    requires d.deliveries == 3
    ensures !Back(ThreadAfter(th, d, r)) && EndLeft(ThreadAfter(th, d, r)) < EndLeft(th)
    ensures forall t: nat :: DataAfter(d, th.pc, t) == d
    ensures !Code(th.pc).Broadcast?
  {
  }

  lemma EndStep(s: State, u: nat)
    requires AfterLast(s) && !SomebodyMissed(s) && Enabled(s, u) && 1 <= u <= s.r
    requires s.threads[u].pc == R(R155) || s.threads[u].pc == R(R173) || s.threads[u] == Thread(R(R172), Waking)
    ensures AfterLast(Exec(s, u)) && !SomebodyMissed(Exec(s, u)) && EndWork(Exec(s, u)) < EndWork(s)
    ensures Steady(s, Exec(s, u))
  {
    StepKnown(s, u);
    StepNobodyComes(s, u);
    EndComesNearer(s.threads[u], s.data, s.r);
    var th' := ThreadAfter(s.threads[u], s.data, s.r);
    assert Exec(s, u).threads == s.threads[u := th'];
    Counting.SumUpdate(s.threads, EndLeft, u, th');
    NobodyMisses(s, u);
  }

  lemma NobodyMisses(s: State, u: nat)
    requires !SomebodyMissed(s) && u < |s.threads| && s.r < |s.threads|
    requires Exec(s, u).threads == s.threads[u := ThreadAfter(s.threads[u], s.data, s.r)]
    requires !Back(ThreadAfter(s.threads[u], s.data, s.r))
    ensures !SomebodyMissed(Exec(s, u))
  {
    forall t: nat | 1 <= t <= s.r
      ensures !Back(Exec(s, u).threads[t])
    {
      assert t != u ==> Exec(s, u).threads[t] == s.threads[t];
    }
  }

  lemma {:induction false} AllCanEnd(s: State) returns (path: seq<State>)
    requires AfterLast(s) && !SomebodyMissed(s)
    ensures IsPath(path) && path[0] == s && path[|path| - 1].r == s.r && AllEnded(path[|path| - 1])
    decreases EndWork(s)
  {
    if AllEnded(s) {
      path := [s];
    } else {
      var u := NextToEnd(s);
      EndStep(s, u);
      SameReindeers(s, u);
      path := AllCanEnd(Exec(s, u));
      PathFrom(s, path);
      path := [s] + path;
    }
  }

  lemma {:induction false} MissedStays(path: seq<State>, t: nat, k: nat)
    requires IsFreePath(path) && Known(path[0]) && LeftOut(path[0], t) && k < |path|
    ensures Known(path[k]) && LeftOut(path[k], t) && path[k].r == path[0].r
  {
    if k > 0 {
      MissedStays(path, t, k - 1);
      assert Next(path[k - 1], path[k - 1 + 1]);
      LeftOutForEver(path[k - 1], path[k], t);
      SameNumbers(path[k - 1], path[k]);
    }
  }

  lemma SameNumbers(s: State, s': State)
    requires Next(s, s')
    ensures s'.r == s.r
  {
  }

  ghost predicate EndsAll(path: seq<State>, s: State) {
    IsFreePath(path) && path[0] == s && path[|path| - 1].r == s.r && AllEnded(path[|path| - 1])
  }

  /**
   When in a run Santa has ended, all reindeer threads can end if and only if none of them was
   awake when he broadcast the end of the last delivery, and so is left waiting for another one.
   */
  lemma ReindeersEndIff(run: seq<State>, r: nat, e: nat, k: nat)
    requires IsRun(run, r, e) && k < |run| && run[k].threads != [] && run[k].threads[0].pc == S(S127)
    ensures (exists path :: EndsAll(path, run[k])) <==> !SomebodyMissed(run[k])
  {
    RunNobodyComes(run, r, e, k);
    DeliveriesAreComplete(run, r, e, k);
    CountedAtEnd(run, r, e, k);
    var s := run[k];
    if SomebodyMissed(s) {
      var t: nat :| 1 <= t <= s.r && Back(s.threads[t]);
      forall path: seq<State> | EndsAll(path, s)
        ensures false
      {
        MissedStays(path, t, |path| - 1);
        BackNotEnded(path[|path| - 1].threads[t]);
      }
    } else {
      var path := AllCanEnd(s);
      SteadyIsNext(path);
      assert EndsAll(path, s);
    }
  }

  lemma BackNotEnded(th: Thread)
    requires Back(th)
    ensures th.pc != R(R175)
  {
  }
}
