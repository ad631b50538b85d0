/**
 The Santa Claus problem: one Santa, r reindeers and any number of elves under
 five mutexes and five condition variables, in any schedule. REINDEERS_NUMBER is
 the number of reindeer threads, as in the source.
 */
module Santa {
  const DELIVERS_NUMBER: int := 3
  const REQUIRED_ELVES_NUMBER: int := 3

  /** Places in santa_function, reindeer_function and elf_function, named after their lines. */
  datatype SantaPc =
    | S110 | S111 | S112 | S113 | S117 | S118 | S121 | S122 | S123 | S124 | S125 | S127
    | S130 | S134 | S135 | S136 | S140 | S141 | S142 | S143 | S145 | S146 | S148 | S149

  datatype ReindeerPc =
    | R155 | R157 | R158 | R161 | R162 | R163 | R164 | R165 | R166 | R168 | R170 | R171 | R172 | R173 | R175

  datatype ElfPc =
    | E184 | E185 | E190 | E193 | E194 | E195 | E196 | E199 | E200 | E201 | E202 | E203 | E204 | E205 | E206
    | E208 | E210 | E211 | E212 | E214 | E215

  datatype Pc = S(s: SantaPc) | R(r: ReindeerPc) | E(e: ElfPc)

  datatype Mutex = ElvesWaiting | Sleep | Reindeers | Elves | ReindeersWaiting

  datatype Cond = SantaTask | SantaSleeping | SantaHelping | SantaHelped | DeliveryEnded

  datatype Action =
    | WakeUp | FallAsleep | CountDelivery | ResetReindeers | CountReindeer | ResetElves | CountElf | Enlist

  datatype Test = AllReindeersWait | AllDelivered | MoreToDeliver | SantaAwake | ElvesFull | SantaBusy

  datatype Instr =
    | Lock(m: Mutex)
    | Unlock(m: Mutex)
    | Wait(c: Cond, m: Mutex)
    | Broadcast(c: Cond)
    | Do(a: Action)
    | If(test: Test, otherwise: Pc)
    | Exit

  function SantaCode(pc: SantaPc): Instr {
    match pc
    case S110 => Lock(Sleep)
    case S111 => Wait(SantaTask, Sleep)
    case S112 => Do(WakeUp)
    case S113 => Unlock(Sleep)
    case S117 => Lock(Reindeers)
    case S118 => If(AllReindeersWait, S(S130))
    case S121 => Do(CountDelivery)
    case S122 => Broadcast(DeliveryEnded)
    case S123 => Do(ResetReindeers)
    case S124 => Unlock(Reindeers)
    case S125 => If(AllDelivered, S(S145))
    case S127 => Exit
    case S130 => Unlock(Reindeers)
    case S134 => Lock(Elves)
    case S135 => Broadcast(SantaHelping)
    case S136 => Unlock(Elves)
    case S140 => Lock(Elves)
    case S141 => Broadcast(SantaHelping)
    case S142 => Do(ResetElves)
    case S143 => Unlock(Elves)
    case S145 => Lock(Sleep)
    case S146 => Do(FallAsleep)
    case S148 => Broadcast(SantaSleeping)
    case S149 => Unlock(Sleep)
  }

  function ReindeerCode(pc: ReindeerPc): Instr {
    match pc
    case R155 => If(MoreToDeliver, R(R175))
    case R157 => Lock(Reindeers)
    case R158 => Do(CountReindeer)
    case R161 => If(AllReindeersWait, R(R170))
    case R162 => Unlock(Reindeers)
    case R163 => Lock(Sleep)
    case R164 => If(SantaAwake, R(R166))
    case R165 => Wait(SantaSleeping, Sleep)
    case R166 => Unlock(Sleep)
    case R168 => Broadcast(SantaTask)
    case R170 => Unlock(Reindeers)
    case R171 => Lock(ReindeersWaiting)
    case R172 => Wait(DeliveryEnded, ReindeersWaiting)
    case R173 => Unlock(ReindeersWaiting)
    case R175 => Exit
  }

  function ElfCode(pc: ElfPc): Instr {
    match pc
    case E184 => Lock(ElvesWaiting)
    case E185 => If(ElvesFull, E(E193))
    case E190 => Wait(SantaHelped, ElvesWaiting)
    case E193 => Lock(Elves)
    case E194 => Do(CountElf)
    case E195 => Unlock(ElvesWaiting)
    case E196 => Do(Enlist)
    case E199 => If(ElvesFull, E(E214))
    case E200 => Unlock(Elves)
    case E201 => Lock(Sleep)
    case E202 => Lock(Reindeers)
    case E203 => If(SantaBusy, E(E208))
    case E204 => Unlock(Reindeers)
    case E205 => Wait(SantaSleeping, Sleep)
    case E206 => Lock(Reindeers)
    case E208 => Unlock(Reindeers)
    case E210 => Lock(Elves)
    case E211 => Broadcast(SantaTask)
    case E212 => Unlock(Sleep)
    case E214 => Wait(SantaHelping, Elves)
    case E215 => Unlock(Elves)
  }

  /** The statement at pc. */
  function Code(pc: Pc): Instr {
    match pc
    case S(p) => SantaCode(p)
    case R(p) => ReindeerCode(p)
    case E(p) => ElfCode(p)
  }

  function SantaAfter(pc: SantaPc): SantaPc {
    match pc
    case S110 => S111
    case S111 => S112
    case S112 => S113
    case S113 => S117
    case S117 => S118
    case S118 => S121
    case S121 => S122
    case S122 => S123
    case S123 => S124
    case S124 => S125
    case S125 => S127
    case S127 => S127
    case S130 => S134
    case S134 => S135
    case S135 => S136
    case S136 => S140
    case S140 => S141
    case S141 => S142
    case S142 => S143
    case S143 => S145
    case S145 => S146
    case S146 => S148
    case S148 => S149
    case S149 => S110
  }

  function ReindeerAfter(pc: ReindeerPc): ReindeerPc {
    match pc
    case R155 => R157
    case R157 => R158
    case R158 => R161
    case R161 => R162
    case R162 => R163
    case R163 => R164
    case R164 => R165
    case R165 => R164
    case R166 => R168
    case R168 => R171
    case R170 => R171
    case R171 => R172
    case R172 => R173
    case R173 => R155
    case R175 => R175
  }

  function ElfAfter(pc: ElfPc): ElfPc {
    match pc
    case E184 => E185
    case E185 => E190
    case E190 => E185
    case E193 => E194
    case E194 => E195
    case E195 => E196
    case E196 => E199
    case E199 => E200
    case E200 => E201
    case E201 => E202
    case E202 => E203
    case E203 => E204
    case E204 => E205
    case E205 => E206
    case E206 => E203
    case E208 => E210
    case E210 => E211
    case E211 => E212
    case E212 => E214
    case E214 => E215
    case E215 => E184
  }

  /** Where control goes after pc; after a test, when it holds. */
  function After(pc: Pc): Pc {
    match pc
    case S(p) => S(SantaAfter(p))
    case R(p) => R(ReindeerAfter(p))
    case E(p) => E(ElfAfter(p))
  }

  /** In pthread_cond_wait a thread is asleep until it is woken, and then has to lock the mutex again. */
  datatype Mode = Running | Asleep | Waking

  datatype Thread = Thread(pc: Pc, mode: Mode)

  /**
   The shared variables, with two histories: which reindeers have been counted
   since the last reset, and which had been counted at each delivery.
   */
  datatype Data = Data(
    reindeers: int, elves: int, deliveries: int, sleeping: bool, queue: seq<int>,
    counted: set<nat>, log: seq<set<nat>>)

  /** Thread 0 is Santa, threads 1 to r are the reindeers, the others are elves. */
  datatype State = State(r: nat, owner: map<Mutex, nat>, threads: seq<Thread>, data: Data)

  predicate Holds(test: Test, d: Data, r: nat) {
    match test
    case AllReindeersWait => d.reindeers == r
    case AllDelivered => d.deliveries == DELIVERS_NUMBER
    case MoreToDeliver => d.deliveries < DELIVERS_NUMBER
    case SantaAwake => !d.sleeping
    case ElvesFull => d.elves == REQUIRED_ELVES_NUMBER
    case SantaBusy => !d.sleeping || d.reindeers == r
  }

  /** A write outside elves_queue is left out; EnlistInBounds shows that there is none. */
  function Perform(d: Data, a: Action, t: nat): Data {
    match a
    case WakeUp => d.(sleeping := false)
    case FallAsleep => d.(sleeping := true)
    case CountDelivery => d.(deliveries := d.deliveries + 1, log := d.log + [d.counted])
    case ResetReindeers => d.(reindeers := 0, counted := {})
    case CountReindeer => d.(reindeers := d.reindeers + 1, counted := d.counted + {t})
    case ResetElves => d.(elves := 0)
    case CountElf => d.(elves := d.elves + 1)
    case Enlist => if 0 < d.elves <= |d.queue| then d.(queue := d.queue[d.elves - 1 := t]) else d
  }

  predicate WaitsFor(th: Thread, c: Cond) {
    th.mode == Asleep && Code(th.pc).Wait? && Code(th.pc).c == c
  }

  function Woken(th: Thread, c: Cond): Thread {
    if WaitsFor(th, c) then Thread(th.pc, Waking) else th
  }

  function WakeAll(threads: seq<Thread>, c: Cond): seq<Thread> {
    seq(|threads|, i requires 0 <= i < |threads| => Woken(threads[i], c))
  }

  /** The mutex that a thread has to lock next, if it is about to lock one. */
  datatype Want = NoMutex | Some(m: Mutex)

  function Wants(th: Thread): Want {
    match Code(th.pc)
    case Lock(m) => if th.mode == Running then Some(m) else NoMutex
    case Wait(_, m) => if th.mode == Waking then Some(m) else NoMutex
    case _ => NoMutex
  }

  predicate Enabled(s: State, t: nat) {
    && t < |s.threads|
    && s.threads[t].mode != Asleep
    && Code(s.threads[t].pc) != Exit
    && (Wants(s.threads[t]).Some? ==> Wants(s.threads[t]).m !in s.owner)
  }

  function OwnerAfter(owner: map<Mutex, nat>, th: Thread, t: nat): map<Mutex, nat> {
    match Code(th.pc)
    case Lock(m) => owner[m := t]
    case Unlock(m) => owner - {m}
    case Wait(_, m) => if th.mode == Waking then owner[m := t] else owner - {m}
    case _ => owner
  }

  function ThreadAfter(th: Thread, d: Data, r: nat): Thread {
    match Code(th.pc)
    case Wait(_, _) => if th.mode == Waking then Thread(After(th.pc), Running) else Thread(th.pc, Asleep)
    case If(test, otherwise) => Thread(if Holds(test, d, r) then After(th.pc) else otherwise, Running)
    case _ => Thread(After(th.pc), Running)
  }

  function OthersAfter(threads: seq<Thread>, pc: Pc): (others: seq<Thread>)
    ensures |others| == |threads|
  {
    match Code(pc)
    case Broadcast(c) => WakeAll(threads, c)
    case _ => threads
  }

  function DataAfter(d: Data, pc: Pc, t: nat): Data {
    match Code(pc)
    case Do(a) => Perform(d, a, t)
    case _ => d
  }

  /** One step of thread t. */
  function Exec(s: State, t: nat): State
    requires t < |s.threads|
  {
    var th := s.threads[t];
    State(s.r, OwnerAfter(s.owner, th, t), OthersAfter(s.threads, th.pc)[t := ThreadAfter(th, s.data, s.r)],
          DataAfter(s.data, th.pc, t))
  }

  /** pthread_cond_wait may return without a signal, except that of the reindeers at line 172. */
  predicate MayWakeSpuriously(s: State, t: nat) {
    t < |s.threads| && s.threads[t].mode == Asleep && s.threads[t].pc != R(R172)
  }

  function Spurious(s: State, t: nat): State
    requires t < |s.threads|
  {
    s.(threads := s.threads[t := Thread(s.threads[t].pc, Waking)])
  }

  ghost predicate Next(s: State, s': State) {
    || (exists t: nat :: Enabled(s, t) && s' == Exec(s, t))
    || (exists t: nat :: MayWakeSpuriously(s, t) && s' == Spurious(s, t))
  }

  function Start(r: nat, e: nat): State {
    State(r, map[],
          seq(1 + r + e, i => Thread(if i == 0 then S(S110) else if i <= r then R(R155) else E(E184), Running)),
          Data(0, 0, 0, true, seq(REQUIRED_ELVES_NUMBER, _ => 0), {}, []))
  }

  ghost predicate IsRun(run: seq<State>, r: nat, e: nat) {
    run != [] && run[0] == Start(r, e) && forall k | 0 <= k < |run| - 1 :: Next(run[k], run[k + 1])
  }

  /** What becomes of a state when thread t is to go next; one that cannot go on is passed over. */
  function Turn(s: State, t: nat): State {
    if Enabled(s, t) then Exec(s, t) else s
  }

  /** Where a schedule leads. */
  function Scheduled(s: State, schedule: seq<nat>): State {
    if schedule == [] then s else Turn(Scheduled(s, schedule[..|schedule| - 1]), schedule[|schedule| - 1])
  }

  /** Some schedule of as many turns leads through any steps that the threads can take. */
  lemma {:induction false} SchedulesReach(run: seq<State>, k: nat) returns (schedule: seq<nat>)
    requires k < |run| && OnlySteps(run)
    ensures |schedule| == k && Scheduled(run[0], schedule) == run[k]
  {
    if k == 0 {
      schedule := [];
    } else {
      schedule := SchedulesReach(run, k - 1);
      schedule := OneMoreTurn(run, k - 1, schedule);
    }
  }

  lemma OneMoreTurn(run: seq<State>, k: nat, schedule: seq<nat>) returns (longer: seq<nat>)
    requires OnlySteps(run) && k + 1 < |run| && Scheduled(run[0], schedule) == run[k]
    ensures |longer| == |schedule| + 1 && Scheduled(run[0], longer) == run[k + 1]
  {
    var t := StepIsTurn(run, k);
    ScheduleGoesOn(run[0], schedule, t);
    longer := schedule + [t];
  }

  lemma StepIsTurn(run: seq<State>, k: nat) returns (t: nat)
    requires OnlySteps(run) && k + 1 < |run|
    ensures Turn(run[k], t) == run[k + 1]
  {
    assert Steps(run[k], run[k + 1]);
    t :| Enabled(run[k], t) && run[k + 1] == Exec(run[k], t);
  }

  lemma ScheduleGoesOn(s: State, schedule: seq<nat>, t: nat)
    ensures Scheduled(s, schedule + [t]) == Turn(Scheduled(s, schedule), t)
  {
    assert (schedule + [t])[..|schedule|] == schedule;
  }

  ghost predicate Steps(s: State, s': State) {
    exists t: nat :: Enabled(s, t) && s' == Exec(s, t)
  }

  /** Nobody wakes up by himself. */
  ghost predicate OnlySteps(run: seq<State>) {
    forall j | 0 <= j < |run| - 1 :: Steps(run[j], run[j + 1])
  }

  /** A thread that runs can go on unless it locks a mutex or has ended, and a mutex that nobody has keeps nobody. */
  lemma RunnersGoOn(s: State, t: nat)
    requires t < |s.threads| && s.threads[t].mode == Running && s.threads[t].pc != S(S127) && s.threads[t].pc != R(R175)
    requires forall m :: Code(s.threads[t].pc) == Lock(m) ==> m !in s.owner
    ensures Next(s, Exec(s, t)) && Exec(s, t).threads[t] == ThreadAfter(s.threads[t], s.data, s.r)
  {
    OnlyTwoEnd(s.threads[t].pc);
    assert Enabled(s, t);
  }

  lemma OnlyTwoEnd(pc: Pc)
    ensures Code(pc) == Exit <==> pc == S(S127) || pc == R(R175)
  {
  }

  /** Where a thread goes from each test of the program. */
  lemma TestsDecide(s: State, t: nat)
    requires t < |s.threads|
    ensures var pc, pc', d := s.threads[t].pc, Exec(s, t).threads[t].pc, s.data;
      && (pc == S(S118) ==> pc' == if d.reindeers == s.r then S(S121) else S(S130))
      && (pc == S(S125) ==> pc' == if d.deliveries == 3 then S(S127) else S(S145))
      && (pc == R(R155) ==> pc' == if d.deliveries < 3 then R(R157) else R(R175))
      && (pc == R(R161) ==> pc' == if d.reindeers == s.r then R(R162) else R(R170))
      && (pc == R(R164) ==> pc' == if d.sleeping then R(R166) else R(R165))
      && (pc == E(E185) ==> pc' == if d.elves == 3 then E(E190) else E(E193))
      && (pc == E(E199) ==> pc' == if d.elves == 3 then E(E200) else E(E214))
      && (pc == E(E203) ==> pc' == if d.sleeping && d.reindeers != s.r then E(E208) else E(E204))
  {
  }

  /** And one that has been woken can when its mutex is free; every wait but that of line 172 may be so by itself. */
  lemma SleepersGoOn(s: State, t: nat)
    requires t < |s.threads| && Code(s.threads[t].pc).Wait?
    ensures s.threads[t].mode == Asleep && s.threads[t].pc != R(R172) ==>
              Next(s, s.(threads := s.threads[t := Thread(s.threads[t].pc, Waking)]))
    ensures s.threads[t].mode == Waking && Code(s.threads[t].pc).m !in s.owner ==>
              Next(s, Exec(s, t)) && Exec(s, t).threads[t] == Thread(After(s.threads[t].pc), Running)
  {
    if s.threads[t].mode == Asleep && s.threads[t].pc != R(R172) {
      assert MayWakeSpuriously(s, t);
    }
    if s.threads[t].mode == Waking && Code(s.threads[t].pc).m !in s.owner {
      assert Enabled(s, t);
    }
  }

  // Mutexes.

  datatype Locks = Locks(elvesWaiting: bool, sleep: bool, reindeers: bool, elves: bool, reindeersWaiting: bool)

  const FREE := Locks(false, false, false, false, false)

  function With(l: Locks, m: Mutex, b: bool): Locks {
    match m
    case ElvesWaiting => l.(elvesWaiting := b)
    case Sleep => l.(sleep := b)
    case Reindeers => l.(reindeers := b)
    case Elves => l.(elves := b)
    case ReindeersWaiting => l.(reindeersWaiting := b)
  }

  predicate Among(m: Mutex, l: Locks) {
    match m
    case ElvesWaiting => l.elvesWaiting
    case Sleep => l.sleep
    case Reindeers => l.reindeers
    case Elves => l.elves
    case ReindeersWaiting => l.reindeersWaiting
  }

  function SantaLocks(pc: SantaPc): Locks {
    match pc
    case S111 | S112 | S113 | S146 | S148 | S149 => Locks(false, true, false, false, false)
    case S118 | S121 | S122 | S123 | S124 | S130 => Locks(false, false, true, false, false)
    case S135 | S136 | S141 | S142 | S143 => Locks(false, false, false, true, false)
    case _ => FREE
  }

  function ReindeerLocks(pc: ReindeerPc): Locks {
    match pc
    case R164 | R165 | R166 => Locks(false, true, false, false, false)
    case R158 | R161 | R162 | R170 => Locks(false, false, true, false, false)
    case R172 | R173 => Locks(false, false, false, false, true)
    case _ => FREE
  }

  function ElfLocks(pc: ElfPc): Locks {
    match pc
    case E202 | E205 | E206 | E210 => Locks(false, true, false, false, false)
    case E203 | E204 | E208 => Locks(false, true, true, false, false)
    case E211 | E212 => Locks(false, true, false, true, false)
    case E196 | E199 | E200 | E214 | E215 => Locks(false, false, false, true, false)
    case E194 | E195 => Locks(true, false, false, true, false)
    case E185 | E190 | E193 => Locks(true, false, false, false, false)
    case _ => FREE
  }

  /** The mutexes that a thread holds when it runs at pc. */
  function LocksAt(pc: Pc): Locks {
    match pc
    case S(p) => SantaLocks(p)
    case R(p) => ReindeerLocks(p)
    case E(p) => ElfLocks(p)
  }

  predicate HeldAt(pc: Pc, m: Mutex) {
    Among(m, LocksAt(pc))
  }

  /** In pthread_cond_wait a thread holds nothing. */
  predicate Has(th: Thread, m: Mutex) {
    th.mode == Running && HeldAt(th.pc, m)
  }

  /** A mutex belongs to the thread whose program text says so, and to no other. */
  ghost predicate Owned(s: State) {
    && (forall m | m in s.owner :: s.owner[m] < |s.threads| && Has(s.threads[s.owner[m]], m))
    && (forall t, m | 0 <= t < |s.threads| && Has(s.threads[t], m) :: m in s.owner && s.owner[m] == t)
  }

  ghost predicate Waits(s: State) {
    forall t | 0 <= t < |s.threads| && s.threads[t].mode != Running :: Code(s.threads[t].pc).Wait?
  }

  /** The order in which mutexes are locked. */
  function Rank(m: Mutex): nat {
    match m
    case ElvesWaiting => 0
    case Sleep => 1
    case Reindeers => 2
    case Elves => 3
    case ReindeersWaiting => 4
  }

  /** Locking and unlocking at pc agree with LocksAt, whichever way a test goes. */
  predicate Agrees(pc: Pc) {
    match Code(pc)
    case Lock(m) => !Among(m, LocksAt(pc)) && LocksAt(After(pc)) == With(LocksAt(pc), m, true)
    case Unlock(m) => Among(m, LocksAt(pc)) && LocksAt(After(pc)) == With(LocksAt(pc), m, false)
    case Wait(_, m) => LocksAt(pc) == LocksAt(After(pc)) == With(FREE, m, true)
    case If(_, otherwise) => LocksAt(After(pc)) == LocksAt(otherwise) == LocksAt(pc)
    case Broadcast(_) => LocksAt(After(pc)) == LocksAt(pc)
    case Do(_) => LocksAt(After(pc)) == LocksAt(pc)
    case Exit => LocksAt(pc) == FREE
  }

  lemma SantaOwns(p: SantaPc)
    ensures Agrees(S(p))
  {
    if Delivers(p) {
      SantaOwnsDelivering(p);
    } else {
      SantaOwnsHelping(p);
    }
  }

  predicate Delivers(p: SantaPc) {
    match p
    case S130 | S134 | S135 | S136 | S140 | S141 | S142 | S143 | S145 | S146 | S148 | S149 => false
    case _ => true
  }

  lemma SantaOwnsDelivering(p: SantaPc)
    requires Delivers(p)
    ensures Agrees(S(p))
  {
  }

  lemma SantaOwnsHelping(p: SantaPc)
    requires !Delivers(p)
    ensures Agrees(S(p))
  {
  }

  predicate ComesBack(p: ReindeerPc) {
    match p
    case R155 | R157 | R158 | R161 | R162 | R163 | R164 => true
    case _ => false
  }

  lemma ReindeerOwns(p: ReindeerPc)
    ensures Agrees(R(p))
  {
    if ComesBack(p) {
      ReindeerOwnsComing(p);
    } else {
      ReindeerOwnsWaiting(p);
    }
  }

  lemma ReindeerOwnsComing(p: ReindeerPc)
    requires ComesBack(p)
    ensures Agrees(R(p))
  {
  }

  lemma ReindeerOwnsWaiting(p: ReindeerPc)
    requires !ComesBack(p)
    ensures Agrees(R(p))
  {
  }

  predicate Queues(p: ElfPc) {
    match p
    case E184 | E185 | E190 | E193 | E194 | E195 | E196 | E199 | E200 | E201 => true
    case _ => false
  }

  lemma ElfOwns(p: ElfPc)
    ensures Agrees(E(p))
  {
    if Queues(p) {
      ElfOwnsQueueing(p);
    } else {
      ElfOwnsHelped(p);
    }
  }

  lemma ElfOwnsQueueing(p: ElfPc)
    requires Queues(p)
    ensures Agrees(E(p))
  {
  }

  lemma ElfOwnsHelped(p: ElfPc)
    requires !Queues(p)
    ensures Agrees(E(p))
  {
  }

  lemma TextOwns(pc: Pc)
    ensures Agrees(pc)
  {
    match pc
    case S(p) => SantaOwns(p);
    case R(p) => ReindeerOwns(p);
    case E(p) => ElfOwns(p);
  }

  /** Every mutex is locked after those held already in the one order, also when a wait ends. */
  lemma LockOrder(th: Thread, held: Mutex)
    requires Wants(th).Some? && Has(th, held)
    ensures Rank(held) < Rank(Wants(th).m)
  {
  }

  lemma OthersUntouched(s: State, t: nat, u: nat)
    requires t < |s.threads| && u < |s.threads| && u != t
    ensures Exec(s, t).threads[u] == s.threads[u] ||
            (s.threads[u].mode == Asleep && Exec(s, t).threads[u] == Thread(s.threads[u].pc, Waking))
    ensures Exec(s, t).threads[u] != s.threads[u] ==>
            Code(s.threads[t].pc).Broadcast? && WaitsFor(s.threads[u], Code(s.threads[t].pc).c)
  {
  }

  lemma OthersHold(s: State, t: nat, u: nat, m: Mutex)
    requires t < |s.threads| && u < |s.threads| && u != t
    ensures Has(Exec(s, t).threads[u], m) == Has(s.threads[u], m)
  {
    OthersUntouched(s, t, u);
  }

  /** What a step does to the ownership of one mutex, for the thread that takes it. */
  lemma SelfHolds(th: Thread, d: Data, r: nat, m: Mutex)
    requires th.mode != Asleep && Code(th.pc) != Exit && (th.mode == Waking ==> Code(th.pc).Wait?)
    ensures Has(ThreadAfter(th, d, r), m) <==>
            (Wants(th) == Some(m) || (Has(th, m) && !(Code(th.pc) == Unlock(m)) && !Code(th.pc).Wait?))
    ensures Has(th, m) ==> Wants(th) != Some(m)
    ensures Code(th.pc) == Unlock(m) ==> Has(th, m)
    ensures Code(th.pc).Wait? && th.mode == Running ==> (Has(th, m) <==> m == Code(th.pc).m)
  {
    TextOwns(th.pc);
  }

  lemma StepOwned(s: State, t: nat)
    requires Owned(s) && Waits(s) && Enabled(s, t)
    ensures Owned(Exec(s, t)) && Waits(Exec(s, t))
  {
    var s' := Exec(s, t);
    forall m | m in s'.owner
      ensures s'.owner[m] < |s'.threads| && Has(s'.threads[s'.owner[m]], m)
    {
      OwnerHas(s, t, m);
    }
    forall u, m | 0 <= u < |s'.threads| && Has(s'.threads[u], m)
      ensures m in s'.owner && s'.owner[m] == u
    {
      HolderOwns(s, t, u, m);
    }
    StepWaits(s, t);
  }

  lemma OwnerHas(s: State, t: nat, m: Mutex)
    requires Owned(s) && Waits(s) && Enabled(s, t) && m in Exec(s, t).owner
    ensures Exec(s, t).owner[m] < |s.threads| && Has(Exec(s, t).threads[Exec(s, t).owner[m]], m)
  {
    var u := Exec(s, t).owner[m];
    SelfHolds(s.threads[t], s.data, s.r, m);
    if u != t {
      OthersHold(s, t, u, m);
    }
  }

  lemma HolderOwns(s: State, t: nat, u: nat, m: Mutex)
    requires Owned(s) && Waits(s) && Enabled(s, t) && u < |s.threads| && Has(Exec(s, t).threads[u], m)
    ensures m in Exec(s, t).owner && Exec(s, t).owner[m] == u
  {
    SelfHolds(s.threads[t], s.data, s.r, m);
    if u != t {
      OthersHold(s, t, u, m);
      assert m in s.owner && s.owner[m] == u;
      if Has(s.threads[t], m) {
        OnlyOneHolds(s, t, u, m);
      }
    }
  }

  lemma StepWaits(s: State, t: nat)
    requires Waits(s) && Enabled(s, t)
    ensures Waits(Exec(s, t))
  {
    forall u | 0 <= u < |s.threads| && Exec(s, t).threads[u].mode != Running
      ensures Code(Exec(s, t).threads[u].pc).Wait?
    {
      if u != t {
        OthersUntouched(s, t, u);
      }
    }
  }

  lemma SpuriousOwned(s: State, t: nat)
    requires Owned(s) && Waits(s) && MayWakeSpuriously(s, t)
    ensures Owned(Spurious(s, t)) && Waits(Spurious(s, t))
  {
    var s' := Spurious(s, t);
    forall u, m | 0 <= u < |s'.threads|
      ensures Has(s'.threads[u], m) == Has(s.threads[u], m)
    {
    }
  }

  /** Thread t waits for a mutex that thread u has. */
  ghost predicate Blocks(s: State, t: nat, u: nat) {
    && t < |s.threads| && Wants(s.threads[t]).Some?
    && Wants(s.threads[t]).m in s.owner && s.owner[Wants(s.threads[t]).m] == u
  }

  /** Threads of which each waits for a mutex that the next one has, and the last for one that the first has. */
  ghost predicate CircularWait(s: State, cycle: seq<nat>) {
    && cycle != []
    && (forall k | 0 <= k < |cycle| - 1 :: Blocks(s, cycle[k], cycle[k + 1]))
    && Blocks(s, cycle[|cycle| - 1], cycle[0])
  }

  function RankOfWant(s: State, t: nat): nat
    requires t < |s.threads| && Wants(s.threads[t]).Some?
  {
    Rank(Wants(s.threads[t]).m)
  }

  lemma BlockedRises(s: State, t: nat, u: nat)
    requires Owned(s) && Blocks(s, t, u)
    ensures u < |s.threads|
    ensures Wants(s.threads[u]).Some? ==> RankOfWant(s, t) < RankOfWant(s, u)
  {
    if Wants(s.threads[u]).Some? {
      LockOrder(s.threads[u], Wants(s.threads[t]).m);
    }
  }

  lemma {:induction false} WantsRise(s: State, cycle: seq<nat>, k: nat)
    requires Owned(s) && CircularWait(s, cycle) && k < |cycle|
    ensures cycle[0] < |s.threads| && Wants(s.threads[cycle[0]]).Some?
    ensures cycle[k] < |s.threads| && Wants(s.threads[cycle[k]]).Some?
    ensures RankOfWant(s, cycle[0]) + k <= RankOfWant(s, cycle[k])
  {
    if k + 1 < |cycle| {
      assert Blocks(s, cycle[k], cycle[k + 1]);
    }
    if k > 0 {
      WantsRise(s, cycle, k - 1);
      assert Blocks(s, cycle[k - 1], cycle[k - 1 + 1]);
      BlockedRises(s, cycle[k - 1], cycle[k]);
    }
  }

  lemma NoCircularWait(s: State, cycle: seq<nat>)
    requires Owned(s)
    ensures !CircularWait(s, cycle)
  {
    if CircularWait(s, cycle) {
      var last := |cycle| - 1;
      WantsRise(s, cycle, last);
      BlockedRises(s, cycle[last], cycle[0]);
    }
  }

  /** Behind every thread that waits for a mutex there is one that can go on. */
  lemma {:induction false} MutexWaitsEnd(s: State, t: nat) returns (u: nat)
    requires Owned(s) && Waits(s) && t < |s.threads| && Wants(s.threads[t]).Some?
    ensures Enabled(s, u)
    decreases 5 - RankOfWant(s, t)
  {
    var m := Wants(s.threads[t]).m;
    if m !in s.owner {
      u := t;
    } else {
      u := s.owner[m];
      TextOwns(s.threads[u].pc);
      if Wants(s.threads[u]).Some? {
        LockOrder(s.threads[u], m);
        u := MutexWaitsEnd(s, u);
      }
    }
  }

  // Roles.

  ghost predicate Roles(s: State) {
    && s.r < |s.threads|
    && s.threads[0].pc.S?
    && (forall t | 1 <= t <= s.r :: s.threads[t].pc.R?)
    && (forall t | s.r < t < |s.threads| :: s.threads[t].pc.E?)
  }

  predicate SameRole(a: Pc, b: Pc) {
    a.S? == b.S? && a.R? == b.R? && a.E? == b.E?
  }

  lemma TextKeepsRole(pc: Pc)
    ensures SameRole(pc, After(pc))
    ensures Code(pc).If? ==> SameRole(pc, Code(pc).otherwise)
  {
  }

  lemma StepRoles(s: State, t: nat)
    requires Roles(s) && Enabled(s, t)
    ensures Roles(Exec(s, t))
  {
    var s' := Exec(s, t);
    TextKeepsRole(s.threads[t].pc);
    forall u | 0 <= u < |s.threads|
      ensures SameRole(s.threads[u].pc, s'.threads[u].pc)
    {
      if u != t {
        OthersUntouched(s, t, u);
      }
    }
  }

  // Elves.

  /**
   Between the check of waiting_elves and its increment there is room; between the increment and the
   use it is not zero.
   */
  predicate ElfOk(th: Thread, d: Data) {
    match th.pc
    case E(E193) | E(E194) => d.elves < REQUIRED_ELVES_NUMBER
    case E(E195) | E(E196) | E(E199) => d.elves > 0
    case _ => true
  }

  ghost predicate ElvesOk(s: State) {
    && |s.data.queue| == REQUIRED_ELVES_NUMBER
    && 0 <= s.data.elves <= REQUIRED_ELVES_NUMBER
    && forall t | 0 <= t < |s.threads| :: ElfOk(s.threads[t], s.data)
  }

  lemma OnlyOneHolds(s: State, t: nat, u: nat, m: Mutex)
    requires Owned(s) && t < |s.threads| && u < |s.threads| && Has(s.threads[t], m) && Has(s.threads[u], m)
    ensures t == u
  {
    assert m in s.owner && s.owner[m] == t;
    assert m in s.owner && s.owner[m] == u;
  }

  lemma ElfStillOk(s: State, t: nat, u: nat)
    requires Owned(s) && Waits(s) && ElvesOk(s) && Enabled(s, t) && u < |s.threads| && u != t
    ensures ElfOk(s.threads[u], DataAfter(s.data, s.threads[t].pc, t))
  {
    var pc, other := s.threads[t].pc, s.threads[u].pc;
    assert ElfOk(s.threads[u], s.data);
    assert Code(pc).Do? ==> s.threads[t].mode == Running;
    assert !Code(other).Wait? ==> s.threads[u].mode == Running;
    if pc == S(S142) && (other == E(E195) || other == E(E196) || other == E(E199)) {
      assert Has(s.threads[t], Elves);
      if Has(s.threads[u], Elves) {
        OnlyOneHolds(s, t, u, Elves);
      }
    } else if pc == E(E194) && (other == E(E193) || other == E(E194)) {
      assert Has(s.threads[t], ElvesWaiting);
      if Has(s.threads[u], ElvesWaiting) {
        OnlyOneHolds(s, t, u, ElvesWaiting);
      }
    }
  }

  lemma StepElves(s: State, t: nat)
    requires Owned(s) && Waits(s) && ElvesOk(s) && Enabled(s, t)
    ensures ElvesOk(Exec(s, t))
  {
    var s', th := Exec(s, t), s.threads[t];
    assert ElfOk(th, s.data);
    assert ElfOk(s'.threads[t], s'.data);
    forall u | 0 <= u < |s'.threads|
      ensures ElfOk(s'.threads[u], s'.data)
    {
      if u != t {
        ElfStillOk(s, t, u);
        OthersUntouched(s, t, u);
      }
    }
  }

  // Reindeers and deliveries.

  /** The reindeer threads. */
  function All(r: nat): (all: set<nat>)
    ensures forall t :: t in all <==> 1 <= t <= r
    ensures |all| == r
  {
    if r == 0 then {} else All(r - 1) + {r}
  }

  /** A reindeer that has been counted and not yet been told that the delivery is over. */
  predicate Back(th: Thread) {
    match th.pc
    case R(p) =>
      (match p
       case R161 | R162 | R163 | R164 | R165 | R166 | R168 | R170 | R171 => true
       case R172 => th.mode != Waking
       case _ => false)
    case _ => false
  }

  /** The count is the number of reindeers counted, and a counted one leaves only while Santa is about to reset. */
  ghost predicate ReindeersOk(s: State) {
    && s.data.counted <= All(s.r)
    && s.data.reindeers == |s.data.counted|
    && forall t | t in s.data.counted :: t < |s.threads| && (Back(s.threads[t]) || s.threads[0].pc == S(S123))
  }

  /** How Santa's place in the program bounds the deliveries; while he delivers, all reindeers wait. */
  predicate SantaAt(p: SantaPc, d: Data, r: nat) {
    match p
    case S121 => d.deliveries < DELIVERS_NUMBER && d.reindeers == r
    case S122 => d.deliveries <= DELIVERS_NUMBER && d.reindeers == r
    case S123 | S124 | S125 => d.deliveries <= DELIVERS_NUMBER
    case S127 => d.deliveries == DELIVERS_NUMBER
    case _ => d.deliveries < DELIVERS_NUMBER
  }

  ghost predicate DeliveriesOk(s: State) {
    && s.threads != [] && s.threads[0].pc.S? && SantaAt(s.threads[0].pc.s, s.data, s.r)
    && s.data.deliveries == |s.data.log|
    && forall k | 0 <= k < |s.data.log| :: s.data.log[k] == All(s.r)
  }

  lemma FullSubset(a: set<nat>, b: set<nat>)
    requires a <= b && |a| == |b|
    ensures a == b
  {
    assert b == a + (b - a);
    assert |b| == |a| + |b - a|;
  }

  /** A reindeer that is about to count itself has not been counted since the last reset. */
  lemma NotCountedYet(s: State, t: nat)
    requires Owned(s) && Waits(s) && Roles(s) && ReindeersOk(s)
    requires t < |s.threads| && s.threads[t].pc == R(R158)
    ensures t !in s.data.counted && 1 <= t <= s.r
  {
    assert s.threads[t].mode == Running && Has(s.threads[t], Reindeers);
    if s.threads[0].pc == S(S123) {
      assert s.threads[0].mode == Running && Has(s.threads[0], Reindeers);
      OnlyOneHolds(s, 0, t, Reindeers);
    }
  }

  lemma BackStays(th: Thread, d: Data, r: nat)
    requires Back(th) && th.mode != Asleep && (th.mode == Waking ==> Code(th.pc).Wait?)
    ensures Back(ThreadAfter(th, d, r))
  {
  }

  /** What becomes of a counted reindeer in a step that does not reset. */
  lemma CountedStays(s: State, t: nat, u: nat)
    requires Owned(s) && Waits(s) && Roles(s) && ReindeersOk(s) && Enabled(s, t)
    requires u in s.data.counted && s.threads[t].pc != S(S123)
    ensures u < |s.threads|
    ensures Back(Exec(s, t).threads[u]) || Exec(s, t).threads[0].pc == S(S123)
  {
    var s' := Exec(s, t);
    if Back(s.threads[u]) {
      if u == t {
        BackStays(s.threads[t], s.data, s.r);
      } else {
        OthersUntouched(s, t, u);
        if !Back(s'.threads[u]) {
          assert Code(s.threads[t].pc) == Broadcast(DeliveryEnded);
          BroadcastsDelivery(s.threads[t].pc);
        }
      }
    } else if t != 0 {
      OthersUntouched(s, t, 0);
    }
  }

  lemma BroadcastsDelivery(pc: Pc)
    requires Code(pc) == Broadcast(DeliveryEnded)
    ensures pc == S(S122)
  {
  }

  lemma WhoCounts(pc: Pc)
    ensures Code(pc) == Do(CountReindeer) ==> pc == R(R158)
    ensures Code(pc) == Do(ResetReindeers) ==> pc == S(S123)
    ensures Code(pc) == Do(CountDelivery) ==> pc == S(S121)
  {
  }

  lemma CountsAfter(d: Data, pc: Pc, t: nat)
    ensures pc != R(R158) && pc != S(S123) ==>
              DataAfter(d, pc, t).counted == d.counted && DataAfter(d, pc, t).reindeers == d.reindeers
    ensures pc == R(R158) ==>
              DataAfter(d, pc, t).counted == d.counted + {t} && DataAfter(d, pc, t).reindeers == d.reindeers + 1
    ensures pc == S(S123) ==> DataAfter(d, pc, t).counted == {} && DataAfter(d, pc, t).reindeers == 0
  {
  }

  lemma StepReindeers(s: State, t: nat)
    requires Owned(s) && Waits(s) && Roles(s) && ReindeersOk(s) && Enabled(s, t)
    ensures ReindeersOk(Exec(s, t))
  {
    var s', pc := Exec(s, t), s.threads[t].pc;
    CountsAfter(s.data, pc, t);
    if pc == R(R158) {
      NotCountedYet(s, t);
      assert s'.threads[t] == Thread(R(R161), Running);
    }
    if pc != S(S123) {
      forall u | u in s.data.counted
        ensures u < |s'.threads| && (Back(s'.threads[u]) || s'.threads[0].pc == S(S123))
      {
        CountedStays(s, t, u);
      }
    }
  }

  /** While Santa delivers no reindeer can count itself. */
  lemma NobodyCountsDuringDelivery(s: State, t: nat)
    requires Owned(s) && Waits(s) && Roles(s) && t < |s.threads| && s.threads[t].pc == R(R158)
    ensures s.threads[0].pc != S(S121) && s.threads[0].pc != S(S122)
  {
    assert s.threads[t].mode == Running && Has(s.threads[t], Reindeers);
    if s.threads[0].pc == S(S121) || s.threads[0].pc == S(S122) {
      assert s.threads[0].mode == Running && Has(s.threads[0], Reindeers);
      OnlyOneHolds(s, 0, t, Reindeers);
    }
  }

  lemma SantaMoves(p: SantaPc, mode: Mode, d: Data, r: nat)
    requires SantaAt(p, d, r) && SantaCode(p) != Exit
    ensures ThreadAfter(Thread(S(p), mode), d, r).pc.S?
    ensures SantaAt(ThreadAfter(Thread(S(p), mode), d, r).pc.s, DataAfter(d, S(p), 0), r)
  {
  }

  lemma StepDeliveries(s: State, t: nat)
    requires Owned(s) && Waits(s) && Roles(s) && ReindeersOk(s) && DeliveriesOk(s) && Enabled(s, t)
    ensures DeliveriesOk(Exec(s, t))
  {
    if t == 0 {
      SantaDeliveries(s);
    } else {
      OthersDeliveries(s, t);
    }
  }

  lemma SantaDeliveries(s: State)
    requires Owned(s) && Waits(s) && Roles(s) && ReindeersOk(s) && DeliveriesOk(s) && Enabled(s, 0)
    ensures DeliveriesOk(Exec(s, 0))
  {
    var pc := s.threads[0].pc;
    WhoCounts(pc);
    SantaMoves(pc.s, s.threads[0].mode, s.data, s.r);
    LogAfter(s.data, pc, 0);
    if pc == S(S121) {
      FullSubset(s.data.counted, All(s.r));
    }
  }

  lemma OthersDeliveries(s: State, t: nat)
    requires Owned(s) && Waits(s) && Roles(s) && ReindeersOk(s) && DeliveriesOk(s) && Enabled(s, t) && t != 0
    ensures DeliveriesOk(Exec(s, t))
  {
    var pc := s.threads[t].pc;
    WhoCounts(pc);
    OthersUntouched(s, t, 0);
    LogAfter(s.data, pc, t);
    CountsAfter(s.data, pc, t);
    if pc == R(R158) {
      NobodyCountsDuringDelivery(s, t);
    }
  }

  lemma LogAfter(d: Data, pc: Pc, t: nat)
    ensures var d' := DataAfter(d, pc, t);
      if pc == S(S121) then d'.deliveries == d.deliveries + 1 && d'.log == d.log + [d.counted]
      else d'.deliveries == d.deliveries && d'.log == d.log
  {
  }

  // Every run.

  ghost predicate Inv(s: State) {
    Owned(s) && Waits(s) && Roles(s) && ElvesOk(s) && ReindeersOk(s) && DeliveriesOk(s)
  }

  lemma StartInv(r: nat, e: nat)
    ensures Inv(Start(r, e))
  {
  }

  lemma StepInv(s: State, t: nat)
    requires Inv(s) && Enabled(s, t)
    ensures Inv(Exec(s, t))
  {
    StepOwned(s, t);
    StepRoles(s, t);
    StepElves(s, t);
    StepReindeers(s, t);
    StepDeliveries(s, t);
  }

  lemma SpuriousInv(s: State, t: nat)
    requires Inv(s) && MayWakeSpuriously(s, t)
    ensures Inv(Spurious(s, t))
  {
    SpuriousOwned(s, t);
    assert ElfOk(s.threads[t], s.data);
  }

  lemma {:induction false} RunInv(run: seq<State>, r: nat, e: nat, k: nat)
    requires IsRun(run, r, e) && k < |run|
    ensures Inv(run[k]) && run[k].r == r && |run[k].threads| == 1 + r + e
  {
    if k == 0 {
      StartInv(r, e);
    } else {
      RunInv(run, r, e, k - 1);
      var s := run[k - 1];
      assert Next(run[k - 1], run[k - 1 + 1]);
      if t: nat :| Enabled(s, t) && run[k] == Exec(s, t) {
        StepInv(s, t);
      } else {
        var t: nat :| MayWakeSpuriously(s, t) && run[k] == Spurious(s, t);
        SpuriousInv(s, t);
      }
    }
  }

  /**
   In every run the count of reindeers stays within 0 to r, every delivery is made
   with all r reindeers back, and Santa's thread ends after exactly three.
   */
  lemma DeliveriesAreComplete(run: seq<State>, r: nat, e: nat, k: nat)
    requires IsRun(run, r, e) && k < |run|
    ensures var d := run[k].data;
      && 0 <= d.reindeers <= r
      && d.deliveries == |d.log| <= DELIVERS_NUMBER
      && (forall i | 0 <= i < |d.log| :: d.log[i] == All(r))
      && (run[k].threads != [] && run[k].threads[0].pc == S(S127) ==> d.deliveries == DELIVERS_NUMBER)
  {
    RunInv(run, r, e, k);
    assert |All(r)| == |run[k].data.counted| + |All(r) - run[k].data.counted| by {
      assert All(r) == run[k].data.counted + (All(r) - run[k].data.counted);
    }
  }

  /** In every run no reindeer counts itself twice without a reset in between. */
  lemma ReindeersCountOnce(run: seq<State>, r: nat, e: nat, k: nat, t: nat)
    requires IsRun(run, r, e) && k < |run| && t < 1 + r + e
    ensures t < |run[k].threads|
    ensures run[k].threads[t].pc == R(R158) ==> t !in run[k].data.counted
  {
    RunInv(run, r, e, k);
    if run[k].threads[t].pc == R(R158) {
      NotCountedYet(run[k], t);
    }
  }

  /** In every run at most three elves are counted, and every write to elves_queue is within its bounds. */
  lemma EnlistInBounds(run: seq<State>, r: nat, e: nat, k: nat, t: nat)
    requires IsRun(run, r, e) && k < |run| && t < 1 + r + e
    ensures t < |run[k].threads|
    ensures 0 <= run[k].data.elves <= REQUIRED_ELVES_NUMBER
    ensures Code(run[k].threads[t].pc) == Do(Enlist) ==> 0 <= run[k].data.elves - 1 < |run[k].data.queue|
  {
    RunInv(run, r, e, k);
    assert ElfOk(run[k].threads[t], run[k].data);
  }

  /** An elf that has entered its number finds it behind those of the elves counted before. */
  ghost predicate Entered(s: State) {
    forall t | 0 <= t < |s.threads| && s.threads[t].pc == E(E199) ::
      0 < s.data.elves <= |s.data.queue| && s.data.queue[s.data.elves - 1] == t
  }

  lemma QueueWritten(d: Data, pc: Pc, t: nat)
    ensures pc != E(E194) && pc != S(S142) ==> DataAfter(d, pc, t).elves == d.elves
    ensures pc != E(E196) ==> DataAfter(d, pc, t).queue == d.queue
    ensures pc == E(E196) && 0 < d.elves <= |d.queue| ==> DataAfter(d, pc, t).queue == d.queue[d.elves - 1 := t]
  {
  }

  lemma EntersFrom(th: Thread, d: Data, r: nat)
    requires ThreadAfter(th, d, r).pc == E(E199)
    ensures th.pc == E(E196)
  {
  }

  lemma StepEntered(s: State, u: nat)
    requires Inv(s) && Entered(s) && Enabled(s, u)
    ensures Entered(Exec(s, u))
  {
    var pc := s.threads[u].pc;
    QueueWritten(s.data, pc, u);
    forall t: nat | t < |s.threads| && Exec(s, u).threads[t].pc == E(E199)
      ensures 0 < Exec(s, u).data.elves <= |Exec(s, u).data.queue|
      ensures Exec(s, u).data.queue[Exec(s, u).data.elves - 1] == t
    {
      if t == u {
        EntersFrom(s.threads[u], s.data, s.r);
        assert ElfOk(s.threads[u], s.data);
      } else {
        OthersUntouched(s, u, t);
        QueueIsGuarded(s, t, u);
      }
    }
  }

  /** While an elf is between 194 and 199, no other thread writes the counter or the queue. */
  lemma QueueIsGuarded(s: State, t: nat, u: nat)
    requires Inv(s) && Enabled(s, u) && t < |s.threads| && t != u && s.threads[t].pc == E(E199)
    ensures s.threads[u].pc != E(E194) && s.threads[u].pc != S(S142) && s.threads[u].pc != E(E196)
  {
    assert s.threads[t].mode == Running && Has(s.threads[t], Elves);
    if Has(s.threads[u], Elves) {
      OnlyOneHolds(s, t, u, Elves);
    }
    assert !Code(s.threads[u].pc).Wait? ==> s.threads[u].mode == Running;
  }

  lemma NextEntered(s: State, s': State)
    requires Inv(s) && Entered(s) && Next(s, s')
    ensures Entered(s')
  {
    if t: nat :| Enabled(s, t) && s' == Exec(s, t) {
      StepEntered(s, t);
    } else {
      var t: nat :| MayWakeSpuriously(s, t) && s' == Spurious(s, t);
      assert forall u: nat | u < |s.threads| :: s'.threads[u].pc == s.threads[u].pc;
    }
  }

  /** In every run an elf at line 199 has its own number in elves_queue, at the place that the counter gives. */
  lemma {:induction false} OwnNumberEntered(run: seq<State>, r: nat, e: nat, k: nat)
    requires IsRun(run, r, e) && k < |run|
    ensures Inv(run[k]) && Entered(run[k])
  {
    RunInv(run, r, e, k);
    if k > 0 {
      OwnNumberEntered(run, r, e, k - 1);
      assert Next(run[k - 1], run[k - 1 + 1]);
      NextEntered(run[k - 1], run[k]);
    }
  }

  /** In no run is there a circular wait on mutexes, and a thread that waits for one has another that can go on. */
  lemma MutexesNeverDeadlock(run: seq<State>, r: nat, e: nat, k: nat, cycle: seq<nat>)
    requires IsRun(run, r, e) && k < |run|
    ensures !CircularWait(run[k], cycle)
    ensures forall t: nat | t < |run[k].threads| && Wants(run[k].threads[t]).Some? ::
              exists u: nat :: Enabled(run[k], u)
  {
    RunInv(run, r, e, k);
    NoCircularWait(run[k], cycle);
    forall t: nat | t < |run[k].threads| && Wants(run[k].threads[t]).Some?
      ensures exists u: nat :: Enabled(run[k], u)
    {
      var u := MutexWaitsEnd(run[k], t);
    }
  }
}
