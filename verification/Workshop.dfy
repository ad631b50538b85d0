/** The shared variables, mutexes and threads of the Santa Claus program, changed in place. */
module Workshop {
  import opened Santa

  /** Each state follows from the one before by a step. */
  ghost predicate Chained(run: seq<State>) {
    forall k | 0 <= k < |run| - 1 :: Next(run[k], run[k + 1])
  }

  lemma ChainedOn(run: seq<State>, s: State)
    requires run != [] && Chained(run) && Next(run[|run| - 1], s)
    ensures Chained(run + [s])
  {
    var longer := run + [s];
    forall k | 0 <= k < |longer| - 1
      ensures Next(longer[k], longer[k + 1])
    {
      if k < |run| - 1 {
        assert Next(run[k], run[k + 1]);
      }
    }
  }

  class Program {
    const r: nat
    var owner: map<Mutex, nat>
    var threads: seq<Thread>
    var waitingReindeers: int
    var waitingElves: int
    var deliveries: int
    var santaSleeping: bool
    const elvesQueue: array<int>
    ghost var counted: set<nat>
    ghost var log: seq<set<nat>>

    ghost function View(): State
      reads this, elvesQueue
    {
      State(r, owner, threads, Shared())
    }

    ghost function Shared(): Data
      reads this, elvesQueue
    {
      Data(waitingReindeers, waitingElves, deliveries, santaSleeping, elvesQueue[..], counted, log)
    }

    constructor (r: nat, e: nat)
      ensures View() == Start(r, e) && fresh(elvesQueue)
      ensures waitingReindeers == waitingElves == deliveries == 0 && santaSleeping && owner == map[]
      ensures |threads| == 1 + r + e && threads[0] == Thread(S(S110), Running)
      ensures forall t | 1 <= t < |threads| :: threads[t] == Thread(if t <= r then R(R155) else E(E184), Running)
    {
      this.r := r;
      owner := map[];
      threads := seq(1 + r + e, i => Thread(if i == 0 then S(S110) else if i <= r then R(R155) else E(E184), Running));
      waitingReindeers, waitingElves, deliveries, santaSleeping := 0, 0, 0, true;
      elvesQueue := new int[REQUIRED_ELVES_NUMBER](_ => 0);
      counted, log := {}, [];
      new;
      assert elvesQueue[..] == Start(r, e).data.queue;
    }

    /** An assignment to the shared variables by thread t; the one to elves_queue has to be within its bounds. */
    method Assign(a: Action, t: nat)
      requires a == Enlist ==> 0 < waitingElves <= elvesQueue.Length
      modifies this`waitingReindeers, this`waitingElves, this`deliveries, this`santaSleeping, this`counted, this`log
      modifies elvesQueue
      ensures Shared() == Perform(old(Shared()), a, t)
    {
      match a
      case WakeUp => santaSleeping := false;
      case FallAsleep => santaSleeping := true;
      case CountDelivery =>
        deliveries := deliveries + 1;
        log := log + [counted];
      case ResetReindeers =>
        waitingReindeers := 0;
        counted := {};
      case CountReindeer =>
        waitingReindeers := waitingReindeers + 1;
        counted := counted + {t};
      case ResetElves => waitingElves := 0;
      case CountElf => waitingElves := waitingElves + 1;
      case Enlist => elvesQueue[waitingElves - 1] := t;
    }

    method Check(test: Test) returns (b: bool)
      ensures b == Holds(test, Shared(), r)
    {
      b := match test
        case AllReindeersWait => waitingReindeers == r
        case AllDelivered => deliveries == DELIVERS_NUMBER
        case MoreToDeliver => deliveries < DELIVERS_NUMBER
        case SantaAwake => !santaSleeping
        case ElvesFull => waitingElves == REQUIRED_ELVES_NUMBER
        case SantaBusy => !santaSleeping || waitingReindeers == r;
    }

    /** pthread_cond_broadcast: one waiting thread after the other is woken. */
    method WakeEverybody(c: Cond)
      modifies this`threads
      ensures threads == WakeAll(old(threads), c)
    {
      for i := 0 to |threads|
        invariant |threads| == |old(threads)|
        invariant forall j | 0 <= j < i :: threads[j] == Woken(old(threads)[j], c)
        invariant forall j | i <= j < |threads| :: threads[j] == old(threads)[j]
      {
        threads := threads[i := Woken(threads[i], c)];
      }
    }

    /** Thread t, which can go on, executes one statement. */
    method Step(t: nat)
      requires Inv(View()) && Enabled(View(), t)
      modifies this, elvesQueue
      ensures View() == Exec(old(View()), t)
      ensures Inv(View())
    {
      ghost var before := View();
      StepInv(before, t);
      assert ElfOk(before.threads[t], before.data);
      var th := threads[t];
      var next := Thread(After(th.pc), Running);
      match Code(th.pc) {
        case Lock(m) =>
          owner := owner[m := t];
        case Unlock(m) =>
          owner := owner - {m};
        case Wait(_, m) =>
          if th.mode == Waking {
            owner := owner[m := t];
          } else {
            owner := owner - {m};
            next := Thread(th.pc, Asleep);
          }
        case Broadcast(c) =>
          WakeEverybody(c);
        case Do(a) =>
          Assign(a, t);
        case If(test, otherwise) =>
          var b := Check(test);
          next := Thread(if b then After(th.pc) else otherwise, Running);
      }
      threads := threads[t := next];
    }

    /** Whether thread t can go on. */
    method Allows(t: nat) returns (ok: bool)
      ensures ok == Enabled(View(), t)
    {
      if t >= |threads| || threads[t].mode == Asleep || Code(threads[t].pc) == Exit {
        return false;
      }
      var want := Wants(threads[t]);
      ok := want.NoMutex? || want.m !in owner;
    }

    /**
     The program under a schedule of threads. Those that cannot go on are passed over, and
     no others.
     */
    method Run(schedule: seq<nat>) returns (ghost run: seq<State>)
      requires Inv(View())
      modifies this, elvesQueue
      ensures Inv(View()) && View() == Scheduled(old(View()), schedule)
      ensures run != [] && run[0] == old(View()) && run[|run| - 1] == View()
      ensures Chained(run)
    {
      run := [View()];
      for k := 0 to |schedule|
        invariant Inv(View()) && View() == Scheduled(old(View()), schedule[..k])
        invariant run != [] && run[0] == old(View()) && run[|run| - 1] == View()
        invariant Chained(run)
      {
        assert schedule[..k + 1][..k] == schedule[..k];
        var ok := Allows(schedule[k]);
        if ok {
          Step(schedule[k]);
          ChainedOn(run, View());
          run := run + [View()];
        }
      }
      assert schedule[..|schedule|] == schedule;
    }
  }
}
