/**
 What the shared variables of the Santa Claus problem say about places in the
 program, in every run: who sleeps, who waits for Santa to sleep, and which
 reindeer is to call him.
 */
module SantaFacts {
  import opened Santa

  /** Where Santa is while santa_sleeping is set. */
  predicate SleepingPc(p: SantaPc) {
    match p
    case S110 | S111 | S112 | S148 | S149 => true
    case _ => false
  }

  /** A reindeer between the count and its call for Santa, once it has found that it is the last. */
  predicate Caller(p: ReindeerPc) {
    match p
    case R162 | R163 | R164 | R165 | R166 | R168 => true
    case _ => false
  }

  function SantaPlace(s: State): SantaPc
    requires s.threads != [] && s.threads[0].pc.S?
  {
    s.threads[0].pc.s
  }

  predicate ReindeerFact(p: ReindeerPc, mode: Mode, t: nat, santa: SantaPc, d: Data, r: nat) {
    && (p == R161 ==> t in d.counted)
    && (Caller(p) && t in d.counted ==> d.reindeers == r)
    && (p == R165 && mode == Running ==> !d.sleeping)
    && (p == R165 && mode == Asleep ==> !d.sleeping || santa == S148)
    && (p == R175 ==> d.deliveries >= DELIVERS_NUMBER)
  }

  predicate ElfFact(p: ElfPc, mode: Mode, santa: SantaPc, d: Data, r: nat) {
    match p
    case E204 => !d.sleeping || d.reindeers == r
    case E205 =>
      && (mode == Running ==> !d.sleeping || d.reindeers == r)
      && (mode == Asleep ==> !d.sleeping || d.reindeers == r || santa == S148)
    case E208 | E210 | E211 => d.sleeping
    case _ => true
  }

  predicate Fact(th: Thread, t: nat, santa: SantaPc, d: Data, r: nat) {
    match th.pc
    case S(p) => d.sleeping == SleepingPc(p)
    case R(p) => ReindeerFact(p, th.mode, t, santa, d, r)
    case E(p) => ElfFact(p, th.mode, santa, d, r)
  }

  ghost predicate FactOf(s: State, t: nat)
    requires Roles(s) && t < |s.threads|
  {
    Fact(s.threads[t], t, SantaPlace(s), s.data, s.r)
  }

  /** Only one of the reindeers counted is to call. */
  ghost predicate OneCaller(s: State) {
    forall t, u | t in s.data.counted && u in s.data.counted && t != u && t < |s.threads| && u < |s.threads| ::
      !Both(s.threads[t].pc, s.threads[u].pc)
  }

  predicate CallerAt(pc: Pc) {
    pc.R? && Caller(pc.r)
  }

  ghost predicate Known(s: State) {
    && Inv(s)
    && (forall t: nat | t < |s.threads| :: FactOf(s, t))
    && OneCaller(s)
  }

  // Every step keeps these facts.

  lemma StartKnown(r: nat, e: nat)
    ensures Known(Start(r, e))
  {
    StartInv(r, e);
  }

  /** As long as a reindeer has not been counted the count is short of r. */
  lemma RoomForOne(s: State, t: nat)
    requires Inv(s) && 1 <= t <= s.r && t !in s.data.counted
    ensures s.data.reindeers < s.r
  {
    var all := All(s.r);
    assert s.data.counted + {t} <= all;
    assert all == (s.data.counted + {t}) + (all - (s.data.counted + {t}));
    assert |all| == |s.data.counted + {t}| + |all - (s.data.counted + {t})|;
  }

  lemma AllCounted(s: State, t: nat)
    requires Inv(s) && s.data.reindeers == s.r && 1 <= t <= s.r
    ensures t in s.data.counted
  {
    FullSubset(s.data.counted, All(s.r));
  }

  /** Two threads never run at places that hold the same mutex. */
  lemma Apart(s: State, t: nat, u: nat, m: Mutex)
    requires Owned(s) && t < |s.threads| && u < |s.threads| && t != u
    ensures !(Has(s.threads[t], m) && Has(s.threads[u], m))
  {
    if Has(s.threads[t], m) && Has(s.threads[u], m) {
      OnlyOneHolds(s, t, u, m);
    }
  }

  lemma RunsAt(s: State, t: nat)
    requires Waits(s) && t < |s.threads|
    ensures !Code(s.threads[t].pc).Wait? ==> s.threads[t].mode == Running
  {
  }

  /** What Santa's own steps do to santa_sleeping. */
  lemma SantaFact(s: State)
    requires Known(s) && Enabled(s, 0)
    ensures FactOf(Exec(s, 0), 0)
  {
    StepInv(s, 0);
    assert FactOf(s, 0);
    SantaSleeps(s.threads[0], s.data, s.r);
  }

  lemma SantaSleeps(th: Thread, d: Data, r: nat)
    requires th.pc.S? && Code(th.pc) != Exit && d.sleeping == SleepingPc(th.pc.s)
    ensures ThreadAfter(th, d, r).pc.S?
    ensures DataAfter(d, th.pc, 0).sleeping == SleepingPc(ThreadAfter(th, d, r).pc.s)
  {
  }

  /** What a statement of a reindeer or an elf leaves of the variables. */
  lemma OthersData(d: Data, pc: Pc, t: nat)
    requires !pc.S?
    ensures DataAfter(d, pc, t).sleeping == d.sleeping && DataAfter(d, pc, t).deliveries == d.deliveries
  {
  }

  /** A thread's own fact after its step. */
  lemma OwnFact(s: State, t: nat)
    requires Known(s) && Enabled(s, t)
    ensures StepRolesOf(s, t) && FactOf(Exec(s, t), t)
  {
    StepInv(s, t);
    var s', th := Exec(s, t), s.threads[t];
    assert FactOf(s, t);
    if t == 0 {
      SantaFact(s);
    } else {
      OthersData(s.data, th.pc, t);
      OthersUntouched(s, t, 0);
      CountsAfter(s.data, th.pc, t);
      if th.pc.R? {
        OwnReindeerFact(th.pc.r, th.mode, t, SantaPlace(s), s.data, s.r);
      } else {
        OwnElfFact(th.pc.e, th.mode, t, SantaPlace(s), s.data, s.r);
      }
    }
  }

  ghost predicate StepRolesOf(s: State, t: nat) {
    t < |s.threads| && Roles(Exec(s, t))
  }

  lemma OwnReindeerFact(p: ReindeerPc, mode: Mode, t: nat, santa: SantaPc, d: Data, r: nat)
    requires ReindeerFact(p, mode, t, santa, d, r) && p != R175 && mode != Asleep
    requires mode == Waking ==> ReindeerCode(p).Wait?
    ensures var th := ThreadAfter(Thread(R(p), mode), d, r);
            Fact(th, t, santa, DataAfter(d, R(p), t), r)
  {
  }

  lemma OwnElfFact(p: ElfPc, mode: Mode, t: nat, santa: SantaPc, d: Data, r: nat)
    requires ElfFact(p, mode, santa, d, r) && mode != Asleep
    requires mode == Waking ==> ElfCode(p).Wait?
    ensures var th := ThreadAfter(Thread(E(p), mode), d, r);
            Fact(th, t, santa, DataAfter(d, E(p), t), r)
  {
  }

  /** The fact of another thread while Santa takes a step. */
  lemma FactUnderSanta(s: State, u: nat)
    requires Known(s) && Enabled(s, 0) && 0 < u < |s.threads|
    ensures StepRolesOf(s, 0) && FactOf(Exec(s, 0), u)
  {
    StepInv(s, 0);
    OthersUntouched(s, 0, u);
    SantaFact(s);
    RunsAt(s, u);
    RunsAt(s, 0);
    assert FactOf(s, u) && FactOf(s, 0);
    Apart(s, 0, u, Sleep);
    Apart(s, 0, u, Reindeers);
    var p, s' := SantaPlace(s), Exec(s, 0);
    if s.threads[u].pc.R? {
      ReindeerUnderSanta(s.threads[u].pc.r, s.threads[u].mode, u, s.threads[0], s.data, s.r);
    } else {
      ElfUnderSanta(s.threads[u].pc.e, s.threads[u].mode, s.threads[0], s.data, s.r);
    }
  }

  lemma ReindeerUnderSanta(q: ReindeerPc, mode: Mode, u: nat, z: Thread, d: Data, r: nat)
    requires z.pc.S? && Code(z.pc) != Exit && (!Code(z.pc).Wait? ==> z.mode == Running)
    requires d.sleeping == SleepingPc(z.pc.s) && ReindeerFact(q, mode, u, z.pc.s, d, r)
    requires !(Has(Thread(R(q), mode), Sleep) && Has(z, Sleep))
    requires !(Has(Thread(R(q), mode), Reindeers) && Has(z, Reindeers))
    requires !ReindeerCode(q).Wait? ==> mode == Running
    ensures var z', d' := ThreadAfter(z, d, r), DataAfter(d, z.pc, 0);
      z'.pc.S? &&
      (if Code(z.pc).Broadcast? && WaitsFor(Thread(R(q), mode), Code(z.pc).c)
       then ReindeerFact(q, Waking, u, z'.pc.s, d', r) else ReindeerFact(q, mode, u, z'.pc.s, d', r))
  {
  }

  lemma ElfUnderSanta(q: ElfPc, mode: Mode, z: Thread, d: Data, r: nat)
    requires z.pc.S? && Code(z.pc) != Exit && (!Code(z.pc).Wait? ==> z.mode == Running)
    requires d.sleeping == SleepingPc(z.pc.s) && ElfFact(q, mode, z.pc.s, d, r)
    requires !(Has(Thread(E(q), mode), Sleep) && Has(z, Sleep))
    requires !ElfCode(q).Wait? ==> mode == Running
    ensures var z', d' := ThreadAfter(z, d, r), DataAfter(d, z.pc, 0);
      z'.pc.S? &&
      (if Code(z.pc).Broadcast? && WaitsFor(Thread(E(q), mode), Code(z.pc).c)
       then ElfFact(q, Waking, z'.pc.s, d', r) else ElfFact(q, mode, z'.pc.s, d', r))
  {
  }

  /** The fact of another thread while a reindeer or an elf takes a step. */
  lemma FactUnderOther(s: State, t: nat, u: nat)
    requires Known(s) && Enabled(s, t) && t != 0 && u < |s.threads| && u != t
    ensures StepRolesOf(s, t) && FactOf(Exec(s, t), u)
  {
    StepInv(s, t);
    var pc := s.threads[t].pc;
    OthersUntouched(s, t, u);
    OthersUntouched(s, t, 0);
    OthersData(s.data, pc, t);
    CountsAfter(s.data, pc, t);
    assert FactOf(s, u);
    if pc == R(R158) {
      NotCountedYet(s, t);
      RoomForOne(s, t);
      RunsAt(s, u);
      Apart(s, t, u, Reindeers);
    }
  }

  lemma FactsStay(s: State, t: nat)
    requires Known(s) && Enabled(s, t)
    ensures StepRolesOf(s, t) && forall u: nat | u < |s.threads| :: FactOf(Exec(s, t), u)
  {
    StepInv(s, t);
    forall u: nat | u < |s.threads|
      ensures FactOf(Exec(s, t), u)
    {
      if u == t {
        OwnFact(s, t);
      } else if t == 0 {
        FactUnderSanta(s, u);
      } else {
        FactUnderOther(s, t, u);
      }
    }
  }

  /** Reindeer a may call, and b may call or find that it is the last. */
  predicate Both(a: Pc, b: Pc) {
    CallerAt(a) && (CallerAt(b) || b == R(R161))
  }

  lemma BothFrom(s: State, t: nat, u: nat)
    requires Known(s) && Enabled(s, t) && u < |s.threads|
    ensures u == t || Exec(s, t).threads[u].pc == s.threads[u].pc
    ensures var pc := Exec(s, t).threads[t].pc;
      && (CallerAt(pc) ==> CallerAt(s.threads[t].pc) || (s.threads[t].pc == R(R161) && s.data.reindeers == s.r))
      && (pc == R(R161) ==> s.threads[t].pc == R(R158))
  {
    if u != t {
      OthersUntouched(s, t, u);
    }
  }

  lemma OnePair(s: State, t: nat, a: nat, b: nat)
    requires Known(s) && Enabled(s, t) && a < |s.threads| && b < |s.threads| && a != b
    requires a in Exec(s, t).data.counted && b in Exec(s, t).data.counted
    ensures !Both(Exec(s, t).threads[a].pc, Exec(s, t).threads[b].pc)
  {
    var pc := s.threads[t].pc;
    CountsAfter(s.data, pc, t);
    BothFrom(s, t, a);
    BothFrom(s, t, b);
    if pc == R(R158) {
      NotCountedYet(s, t);
      RoomForOne(s, t);
      assert a != t ==> FactOf(s, a);
      assert b != t ==> FactOf(s, b);
    } else {
      assert a in s.data.counted && b in s.data.counted;
      assert !Both(s.threads[a].pc, s.threads[b].pc) && !Both(s.threads[b].pc, s.threads[a].pc);
      if s.threads[a].pc == R(R161) && s.threads[b].pc == R(R161) {
        RunsAt(s, a);
        RunsAt(s, b);
        Apart(s, a, b, Reindeers);
      }
    }
  }

  lemma OneCallerStays(s: State, t: nat)
    requires Known(s) && Enabled(s, t)
    ensures OneCaller(Exec(s, t))
  {
    var s' := Exec(s, t);
    forall a, b | a in s'.data.counted && b in s'.data.counted && a != b && a < |s'.threads| && b < |s'.threads|
      ensures !Both(s'.threads[a].pc, s'.threads[b].pc)
    {
      OnePair(s, t, a, b);
    }
  }

  lemma StepKnown(s: State, t: nat)
    requires Known(s) && Enabled(s, t)
    ensures Known(Exec(s, t))
  {
    StepInv(s, t);
    FactsStay(s, t);
    OneCallerStays(s, t);
  }

  lemma SpuriousKnown(s: State, t: nat)
    requires Known(s) && MayWakeSpuriously(s, t)
    ensures Known(Spurious(s, t))
  {
    SpuriousInv(s, t);
    var s' := Spurious(s, t);
    forall u: nat | u < |s'.threads|
      ensures FactOf(s', u)
    {
      assert FactOf(s, u);
    }
  }

  lemma {:induction false} RunKnown(run: seq<State>, r: nat, e: nat, k: nat)
    requires IsRun(run, r, e) && k < |run|
    ensures Known(run[k]) && run[k].r == r && |run[k].threads| == 1 + r + e
  {
    if k == 0 {
      StartKnown(r, e);
    } else {
      RunKnown(run, r, e, k - 1);
      var s := run[k - 1];
      assert Next(run[k - 1], run[k - 1 + 1]);
      if t: nat :| Enabled(s, t) && run[k] == Exec(s, t) {
        StepKnown(s, t);
      } else {
        var t: nat :| MayWakeSpuriously(s, t) && run[k] == Spurious(s, t);
        SpuriousKnown(s, t);
      }
    }
  }
}
