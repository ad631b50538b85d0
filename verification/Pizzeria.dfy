/**
 The pizzeria: cooks and suppliers that share an oven and a table under five
 semaphores. Every process runs its loop one shared-memory access or semaphore
 operation at a time, and any process may take the next step.
 */
module Pizzeria {
  import opened Counting
  import opened RingBuffer

  /** A place in the program, named after the line it stands on: C of cook.c, S of supplier.c. */
  datatype Pc =
    | C24 | C29 | C31 | C62 | C63 | C64 | C35
    | C39 | C75 | C76 | C77 | C78 | C43 | C45
    | C48 | C50 | C68 | C69 | C70 | C54 | C57
    | S17 | S19 | S36 | S37 | S38 | S39 | S23 | S26 | S29

  datatype Sem = OvenSem | TableSem | OvenFull | TableFull | TableEmpty

  datatype Place = Oven | Table

  datatype Instr = Prepare | Lock(sem: Sem) | Unlock(sem: Sem) | Touch(at: Place, op: Op) | Deliver

  /** The statement at pc. */
  function Code(pc: Pc): Instr {
    match pc
    case C24 => Prepare
    case C29 => Lock(OvenFull)
    case C31 => Lock(OvenSem)
    case C62 => Touch(Oven, Write)
    case C63 => Touch(Oven, AdvancePlace)
    case C64 => Touch(Oven, Increment)
    case C35 => Unlock(OvenSem)
    case C39 => Lock(OvenSem)
    case C75 => Touch(Oven, Fetch)
    case C76 => Touch(Oven, Clear)
    case C77 => Touch(Oven, AdvanceTake)
    case C78 => Touch(Oven, Decrement)
    case C43 => Unlock(OvenSem)
    case C45 => Unlock(OvenFull)
    case C48 => Lock(TableFull)
    case C50 => Lock(TableSem)
    case C68 => Touch(Table, Write)
    case C69 => Touch(Table, AdvancePlace)
    case C70 => Touch(Table, Increment)
    case C54 => Unlock(TableSem)
    case C57 => Unlock(TableEmpty)
    case S17 => Lock(TableEmpty)
    case S19 => Lock(TableSem)
    case S36 => Touch(Table, Fetch)
    case S37 => Touch(Table, Clear)
    case S38 => Touch(Table, AdvanceTake)
    case S39 => Touch(Table, Decrement)
    case S23 => Unlock(TableSem)
    case S26 => Unlock(TableFull)
    case S29 => Deliver
  }

  /** Where control goes after pc; both loops are endless. */
  function After(pc: Pc): Pc {
    match pc
    case C24 => C29
    case C29 => C31
    case C31 => C62
    case C62 => C63
    case C63 => C64
    case C64 => C35
    case C35 => C39
    case C39 => C75
    case C75 => C76
    case C76 => C77
    case C77 => C78
    case C78 => C43
    case C43 => C45
    case C45 => C48
    case C48 => C50
    case C50 => C68
    case C68 => C69
    case C69 => C70
    case C70 => C54
    case C54 => C57
    case C57 => C24
    case S17 => S19
    case S19 => S36
    case S36 => S37
    case S37 => S38
    case S38 => S39
    case S39 => S23
    case S23 => S26
    case S26 => S29
    case S29 => S17
  }

  /** A process: where it is, and its local variable `type`. */
  datatype Proc = Proc(pc: Pc, pizza: int)

  datatype Sems = Sems(oven: int, table: int, ovenFull: int, tableFull: int, tableEmpty: int)

  function Value(sems: Sems, sem: Sem): int {
    match sem
    case OvenSem => sems.oven
    case TableSem => sems.table
    case OvenFull => sems.ovenFull
    case TableFull => sems.tableFull
    case TableEmpty => sems.tableEmpty
  }

  /** `semop` with operation d. */
  function Adjust(sems: Sems, sem: Sem, d: int): Sems {
    match sem
    case OvenSem => sems.(oven := sems.oven + d)
    case TableSem => sems.(table := sems.table + d)
    case OvenFull => sems.(ovenFull := sems.ovenFull + d)
    case TableFull => sems.(tableFull := sems.tableFull + d)
    case TableEmpty => sems.(tableEmpty := sems.tableEmpty + d)
  }

  /**
   The system: rings of k slots, processes of which the first `cooks` are cooks, and the
   histories of all pizzas prepared and delivered.
   */
  datatype State = State(
    k: int, cooks: nat, sems: Sems, oven: Ring, table: Ring, procs: seq<Proc>,
    prepared: seq<int>, delivered: seq<int>)

  function RingAt(s: State, at: Place): Ring {
    if at == Oven then s.oven else s.table
  }

  predicate WellFormed(s: State) {
    InBounds(s.oven, s.k) && InBounds(s.table, s.k)
  }

  /** A process can always go on unless it locks a semaphore that is down to zero. */
  predicate Enabled(s: State, i: nat) {
    && i < |s.procs|
    && var instr := Code(s.procs[i].pc);
       instr.Lock? ==> Value(s.sems, instr.sem) > 0
  }

  function SemsAfter(sems: Sems, instr: Instr): Sems {
    match instr
    case Lock(sem) => Adjust(sems, sem, -1)
    case Unlock(sem) => Adjust(sems, sem, 1)
    case _ => sems
  }

  /** The ring at one place after a statement of a process with pizza x. */
  function RingAfter(r: Ring, at: Place, instr: Instr, x: int): Ring
    requires InBounds(r, |r.cells|)
  {
    if instr.Touch? && instr.at == at then Apply(r, instr.op, x) else r
  }

  /** The variable `type` after a statement; x is what `rand` returns. */
  function PizzaAfter(s: State, p: Proc, x: int): int
    requires WellFormed(s)
  {
    match Code(p.pc)
    case Prepare => x
    case Touch(at, Fetch) => RingAt(s, at).cells[RingAt(s, at).take]
    case _ => p.pizza
  }

  /** One step of process i. */
  function Exec(s: State, i: nat, x: int): State
    requires WellFormed(s) && i < |s.procs|
  {
    var p := s.procs[i];
    var instr := Code(p.pc);
    State(
      s.k, s.cooks, SemsAfter(s.sems, instr),
      RingAfter(s.oven, Oven, instr, p.pizza), RingAfter(s.table, Table, instr, p.pizza),
      s.procs[i := Proc(After(p.pc), PizzaAfter(s, p, x))],
      if instr == Prepare then s.prepared + [x] else s.prepared,
      if instr == Deliver then s.delivered + [p.pizza] else s.delivered)
  }

  /** Who is to go next, and what `rand` returns if that is a cook; a process that waits stays where it is. */
  function Turn(s: State, turn: (nat, nat)): (s': State)
    requires WellFormed(s)
    ensures WellFormed(s')
  {
    if Enabled(s, turn.0) then
      StaysWellFormed(s, turn.0, turn.1);
      Exec(s, turn.0, turn.1)
    else s
  }

  lemma StaysWellFormed(s: State, i: nat, x: int)
    requires WellFormed(s) && i < |s.procs|
    ensures WellFormed(Exec(s, i, x))
  {
  }

  /** Where a schedule leads. */
  function Scheduled(s: State, schedule: seq<(nat, nat)>): (s': State)
    requires WellFormed(s)
    ensures WellFormed(s')
  {
    if schedule == [] then s
    else Turn(Scheduled(s, schedule[..|schedule| - 1]), schedule[|schedule| - 1])
  }

  /** The state that main.c sets up for n cooks and m suppliers. */
  function Start(k: nat, n: nat, m: nat): State {
    State(k, n, Sems(1, 1, k, k, 0), EmptyRing(k), EmptyRing(k),
          seq(n + m, i => Proc(if i < n then C24 else S17, 0)), [], [])
  }

  ghost predicate Next(s: State, s': State) {
    WellFormed(s) && exists i: nat, x: nat :: Enabled(s, i) && s' == Exec(s, i, x)
  }

  /** A finite run: from the start for n cooks and m suppliers, one step at a time. */
  ghost predicate IsRun(run: seq<State>, k: nat, n: nat, m: nat) {
    && run != []
    && run[0] == Start(k, n, m)
    && forall t | 0 <= t < |run| - 1 :: Next(run[t], run[t + 1])
  }

  // Where a process stands.

  predicate CookPc(pc: Pc) {
    match pc
    case S17 | S19 | S36 | S37 | S38 | S39 | S23 | S26 | S29 => false
    case _ => true
  }

  /** Between locking and unlocking the semaphore that guards a place. */
  predicate Section(at: Place, pc: Pc) {
    match pc
    case C62 | C63 | C64 | C35 | C75 | C76 | C77 | C78 | C43 => at == Oven
    case C68 | C69 | C70 | C54 | S36 | S37 | S38 | S39 | S23 => at == Table
    case _ => false
  }

  /**
   Holding a unit of a place's capacity: a cook between locking and unlocking
   OVEN_FULL_SEMAPHORE; a process that has locked one of the two counting
   semaphores of the table and not yet unlocked the other.
   */
  predicate Token(at: Place, pc: Pc) {
    match pc
    case C31 | C62 | C63 | C64 | C35 | C39 | C75 | C76 | C77 | C78 | C43 | C45 => at == Oven
    case C50 | C68 | C69 | C70 | C54 | C57 | S19 | S36 | S37 | S38 | S39 | S23 | S26 => at == Table
    case _ => false
  }

  /**
   Answering for a pizza in a ring: a cook that has put one into the oven and not
   yet taken one out; a cook that has placed one on the table and not announced it,
   or a supplier that has claimed one and not fetched it.
   */
  predicate Answers(at: Place, pc: Pc) {
    match pc
    case C63 | C64 | C35 | C39 | C75 => at == Oven
    case C69 | C70 | C54 | C57 | S19 | S36 => at == Table
    case _ => false
  }

  function StageOf(pc: Pc): Stage {
    match pc
    case C63 | C69 => Written
    case C64 | C70 => PlaceMoved
    case C76 | S37 => Fetched
    case C77 | S38 => Cleared
    case C78 | S39 => TakeMoved
    case _ => Quiet
  }

  /** Whose pizza is in whose hands: just prepared, taken out of the oven, on its way to a customer. */
  datatype Hand = Nothing | Raw | Baked | Order

  function HandOf(pc: Pc): Hand {
    match pc
    case C29 | C31 | C62 => Raw
    case C76 | C77 | C78 | C43 | C45 | C48 | C50 | C68 => Baked
    case S37 | S38 | S39 | S23 | S26 | S29 => Order
    case _ => Nothing
  }

  function InSection(at: Place): Proc -> bool { (p: Proc) => Section(at, p.pc) }
  function HasToken(at: Place): Proc -> bool { (p: Proc) => Token(at, p.pc) }
  function AnswersFor(at: Place): Proc -> bool { (p: Proc) => Answers(at, p.pc) }

  function Held(p: Proc, hand: Hand): multiset<int> {
    if HandOf(p.pc) == hand then multiset{p.pizza} else multiset{}
  }

  ghost function Holding(hand: Hand): Proc -> multiset<int> { (p: Proc) => Held(p, hand) }

  /** Where the pizzas of a kind of hand come from. */
  function Source(s: State, hand: Hand): seq<int>
    requires hand != Nothing
  {
    match hand
    case Raw => s.prepared
    case Baked => s.oven.taken
    case Order => s.table.taken
  }

  /** Where they go. */
  function Target(s: State, hand: Hand): seq<int>
    requires hand != Nothing
  {
    match hand
    case Raw => s.oven.put
    case Baked => s.table.put
    case Order => s.delivered
  }

  // The invariant, part by part.

  ghost predicate Roles(s: State) {
    s.cooks <= |s.procs| && forall i | 0 <= i < |s.procs| :: CookPc(s.procs[i].pc) <==> i < s.cooks
  }

  predicate NonNegative(sems: Sems) {
    sems.oven >= 0 && sems.table >= 0 && sems.ovenFull >= 0 && sems.tableFull >= 0 && sems.tableEmpty >= 0
  }

  /** What each semaphore counts. */
  ghost predicate Tokens(s: State) {
    && NonNegative(s.sems)
    && s.sems.oven + Count(s.procs, InSection(Oven)) == 1
    && s.sems.table + Count(s.procs, InSection(Table)) == 1
    && s.sems.ovenFull + Count(s.procs, HasToken(Oven)) == s.k
    && s.sems.tableFull + s.sems.tableEmpty + Count(s.procs, HasToken(Table)) == s.k
  }

  /** How many pizzas are in the oven and on the table. */
  ghost predicate Lengths(s: State) {
    && Length(s.oven) == Count(s.procs, AnswersFor(Oven))
    && Length(s.table) == s.sems.tableEmpty + Count(s.procs, AnswersFor(Table))
  }

  function Guard(at: Place): Sem {
    if at == Oven then OvenSem else TableSem
  }

  /** The ring is a queue as far as the process in its section has come; with nobody there, all the way. */
  ghost predicate Queued(s: State, at: Place) {
    && (Value(s.sems, Guard(at)) == 1 ==> Refines(RingAt(s, at), s.k, Quiet))
    && forall i | 0 <= i < |s.procs| && Section(at, s.procs[i].pc) ::
        Refines(RingAt(s, at), s.k, StageOf(s.procs[i].pc))
  }

  predicate PizzaOk(p: Proc) {
    HandOf(p.pc) != Nothing ==> p.pizza >= 0
  }

  /** No pizza looks like an empty slot. */
  ghost predicate Values(s: State) {
    && (forall i | 0 <= i < |s.procs| :: PizzaOk(s.procs[i]))
    && (forall x | x in s.oven.put :: x >= 0)
    && (forall x | x in s.table.put :: x >= 0)
  }

  /** Every pizza that left one place has arrived at the next or is in somebody's hands. */
  ghost predicate Ledger(s: State, hand: Hand)
    requires hand != Nothing
  {
    multiset(Source(s, hand)) == Bag(s.procs, Holding(hand)) + multiset(Target(s, hand))
  }

  ghost predicate Inv(s: State) {
    && WellFormed(s) && Roles(s) && Tokens(s) && Lengths(s)
    && Queued(s, Oven) && Queued(s, Table) && Values(s)
    && Ledger(s, Raw) && Ledger(s, Baked) && Ledger(s, Order)
  }

  // The invariant holds at the start.

  lemma {:induction false} BagNone(procs: seq<Proc>, f: Proc -> multiset<int>)
    requires forall i | 0 <= i < |procs| :: f(procs[i]) == multiset{}
    ensures Bag(procs, f) == multiset{}
  {
    if procs != [] {
      BagNone(procs[1..], f);
    }
  }

  lemma StartCounts(k: nat, n: nat, m: nat, at: Place)
    ensures var procs := Start(k, n, m).procs;
      && Count(procs, InSection(at)) == 0 && Count(procs, HasToken(at)) == 0 && Count(procs, AnswersFor(at)) == 0
  {
    var procs := Start(k, n, m).procs;
    CountNone(procs, InSection(at));
    CountNone(procs, HasToken(at));
    CountNone(procs, AnswersFor(at));
  }

  lemma StartTokens(k: nat, n: nat, m: nat)
    ensures Tokens(Start(k, n, m)) && Lengths(Start(k, n, m))
  {
    StartCounts(k, n, m, Oven);
    StartCounts(k, n, m, Table);
  }

  lemma StartShape(k: nat, n: nat, m: nat)
    ensures Roles(Start(k, n, m)) && Values(Start(k, n, m))
  {
  }

  lemma StartLedger(k: nat, n: nat, m: nat, hand: Hand)
    requires hand != Nothing
    ensures Ledger(Start(k, n, m), hand)
  {
    BagNone(Start(k, n, m).procs, Holding(hand));
  }

  lemma StartQueues(k: nat, n: nat, m: nat)
    requires k > 0
    ensures WellFormed(Start(k, n, m)) && Queued(Start(k, n, m), Oven) && Queued(Start(k, n, m), Table)
  {
    EmptyRefines(k);
  }

  lemma StartInv(k: nat, n: nat, m: nat)
    requires k > 0
    ensures Inv(Start(k, n, m))
  {
    StartTokens(k, n, m);
    StartLedger(k, n, m, Raw);
    StartLedger(k, n, m, Baked);
    StartLedger(k, n, m, Order);
    StartQueues(k, n, m);
    StartShape(k, n, m);
  }

  // What one statement does, read off the program text alone.

  function One(b: bool): int {
    if b then 1 else 0
  }

  /** By how much a statement changes a semaphore. */
  function Gain(instr: Instr, sem: Sem): int {
    match instr
    case Lock(x) => -One(x == sem)
    case Unlock(x) => One(x == sem)
    case _ => 0
  }

  function Growth(instr: Instr, at: Place): int {
    One(instr == Touch(at, Write)) - One(instr == Touch(at, Fetch))
  }

  lemma TextBalancesSections(pc: Pc, at: Place)
    ensures One(Section(at, After(pc))) == One(Section(at, pc)) - Gain(Code(pc), Guard(at))
  {
  }

  lemma TextBalancesTokens(pc: Pc)
    ensures One(Token(Oven, After(pc))) == One(Token(Oven, pc)) - Gain(Code(pc), OvenFull)
    ensures One(Token(Table, After(pc))) ==
            One(Token(Table, pc)) - Gain(Code(pc), TableFull) - Gain(Code(pc), TableEmpty)
  {
  }

  lemma TextBalancesRings(pc: Pc)
    ensures One(Answers(Oven, After(pc))) == One(Answers(Oven, pc)) + Growth(Code(pc), Oven)
    ensures One(Answers(Table, After(pc))) ==
            One(Answers(Table, pc)) + Growth(Code(pc), Table) - Gain(Code(pc), TableEmpty)
  {
  }

  /** A ring is touched inside its section only, in the order of one put or one take. */
  lemma TextFollowsStages(pc: Pc, at: Place)
    ensures Code(pc).Touch? && Code(pc).at == at ==>
              && Section(at, pc) && Section(at, After(pc))
              && StageOf(pc) == StageBefore(Code(pc).op) && StageOf(After(pc)) == StageAfter(Code(pc).op)
              && (Code(pc).op == Write ==> Token(at, pc) && !Answers(at, pc))
              && (Code(pc).op == Fetch ==> Answers(at, pc))
    ensures !(Code(pc).Touch? && Code(pc).at == at) ==>
              && (Section(at, pc) || Section(at, After(pc)) ==> StageOf(pc) == Quiet && StageOf(After(pc)) == Quiet)
              && (Section(at, After(pc)) && !Section(at, pc) ==> Code(pc) == Lock(Guard(at)))
              && (Section(at, pc) && !Section(at, After(pc)) ==> Code(pc) == Unlock(Guard(at)))
    ensures Answers(at, pc) ==> Token(at, pc)
  {
  }

  lemma SemsGain(sems: Sems, instr: Instr, sem: Sem)
    ensures Value(SemsAfter(sems, instr), sem) == Value(sems, sem) + Gain(instr, sem)
  {
  }

  lemma RingGrows(r: Ring, at: Place, instr: Instr, x: int)
    requires InBounds(r, |r.cells|)
    ensures Length(RingAfter(r, at, instr, x)) == Length(r) + Growth(instr, at)
    ensures InBounds(RingAfter(r, at, instr, x), |r.cells|)
  {
  }

  // Every step keeps the invariant.

  lemma CountAfter(s: State, i: nat, x: int, p: Proc -> bool)
    requires WellFormed(s) && i < |s.procs|
    ensures var s' := Exec(s, i, x);
      Count(s'.procs, p) == Count(s.procs, p) + One(p(s'.procs[i])) - One(p(s.procs[i]))
  {
    CountUpdate(s.procs, p, i, Exec(s, i, x).procs[i]);
  }

  lemma StepSems(sems: Sems, instr: Instr)
    requires NonNegative(sems) && (instr.Lock? ==> Value(sems, instr.sem) > 0)
    ensures var sems' := SemsAfter(sems, instr);
      && NonNegative(sems')
      && sems'.oven == sems.oven + Gain(instr, OvenSem)
      && sems'.table == sems.table + Gain(instr, TableSem)
      && sems'.ovenFull == sems.ovenFull + Gain(instr, OvenFull)
      && sems'.tableFull == sems.tableFull + Gain(instr, TableFull)
      && sems'.tableEmpty == sems.tableEmpty + Gain(instr, TableEmpty)
  {
  }

  lemma StepTokens(s: State, i: nat, x: int)
    requires WellFormed(s) && Tokens(s) && Enabled(s, i)
    ensures Tokens(Exec(s, i, x))
  {
    TextBalancesSections(s.procs[i].pc, Oven);
    TextBalancesSections(s.procs[i].pc, Table);
    TextBalancesTokens(s.procs[i].pc);
    StepSems(s.sems, Code(s.procs[i].pc));
    CountAfter(s, i, x, InSection(Oven));
    CountAfter(s, i, x, InSection(Table));
    CountAfter(s, i, x, HasToken(Oven));
    CountAfter(s, i, x, HasToken(Table));
  }

  lemma StepLengths(s: State, i: nat, x: int)
    requires WellFormed(s) && Lengths(s) && Enabled(s, i)
    ensures Lengths(Exec(s, i, x))
  {
    var p := s.procs[i];
    TextBalancesRings(p.pc);
    RingGrows(s.oven, Oven, Code(p.pc), p.pizza);
    RingGrows(s.table, Table, Code(p.pc), p.pizza);
    SemsGain(s.sems, Code(p.pc), TableEmpty);
    CountAfter(s, i, x, AnswersFor(Oven));
    CountAfter(s, i, x, AnswersFor(Table));
  }

  /** Two processes are never in the same section. */
  lemma Exclusive(s: State, i: nat, j: nat, at: Place)
    requires Tokens(s) && i < |s.procs| && j < |s.procs| && i != j
    ensures !(Section(at, s.procs[i].pc) && Section(at, s.procs[j].pc))
  {
    if Section(at, s.procs[i].pc) && Section(at, s.procs[j].pc) {
      CountTwo(s.procs, InSection(at), if i < j then i else j, if i < j then j else i);
    }
  }

  /**
   There is room for a pizza that a process with a token is about to put, and a
   pizza for whoever answers for one.
   */
  lemma RoomAndSupply(s: State, i: nat, at: Place)
    requires Tokens(s) && Lengths(s) && i < |s.procs|
    ensures 0 <= Length(RingAt(s, at)) <= s.k
    ensures Token(at, s.procs[i].pc) && !Answers(at, s.procs[i].pc) ==> Length(RingAt(s, at)) < s.k
    ensures Answers(at, s.procs[i].pc) ==> Length(RingAt(s, at)) > 0
  {
    var bare := Proc(C24, 0);
    var others := s.procs[i := bare];
    CountUpdate(s.procs, AnswersFor(at), i, bare);
    CountUpdate(s.procs, HasToken(at), i, bare);
    forall j | 0 <= j < |others| {
      TextFollowsStages(others[j].pc, at);
    }
    CountMonotone(others, AnswersFor(at), HasToken(at));
    TextFollowsStages(s.procs[i].pc, at);
  }

  /** What a step does to a ring in the section of the process that takes it. */
  lemma RingAdvances(s: State, i: nat, at: Place)
    requires WellFormed(s) && Tokens(s) && Lengths(s) && Queued(s, at) && i < |s.procs|
    requires Section(at, s.procs[i].pc)
    ensures var p := s.procs[i];
      Refines(RingAfter(RingAt(s, at), at, Code(p.pc), p.pizza), s.k, StageOf(After(p.pc)))
  {
    var p := s.procs[i];
    RoomAndSupply(s, i, at);
    TextFollowsStages(p.pc, at);
    if Code(p.pc).Touch? && Code(p.pc).at == at {
      ApplyRefines(RingAt(s, at), s.k, Code(p.pc).op, p.pizza);
    }
  }

  lemma StepQueued(s: State, i: nat, x: int, at: Place)
    requires WellFormed(s) && Tokens(s) && Lengths(s) && Queued(s, at) && Enabled(s, i)
    ensures Queued(Exec(s, i, x), at)
  {
    var s', p := Exec(s, i, x), s.procs[i];
    TextFollowsStages(p.pc, at);
    SemsGain(s.sems, Code(p.pc), Guard(at));
    if Section(at, p.pc) {
      RingAdvances(s, i, at);
      CountPositive(s.procs, InSection(at), i);
    } else {
      assert RingAt(s', at) == RingAt(s, at);
    }
    forall j | 0 <= j < |s'.procs| && Section(at, s'.procs[j].pc)
      ensures Refines(RingAt(s', at), s.k, StageOf(s'.procs[j].pc))
    {
      if j != i {
        Exclusive(s, i, j, at);
      }
    }
  }

  /** Whoever fetches gets the oldest pizza of the ring, never the mark of an empty slot. */
  lemma FetchesOldest(s: State, i: nat, at: Place)
    requires WellFormed(s) && Tokens(s) && Lengths(s) && Queued(s, at) && Values(s) && i < |s.procs|
    requires Code(s.procs[i].pc) == Touch(at, Fetch)
    ensures var r := RingAt(s, at);
      r.taken < r.put && r.cells[r.take] == Queue(r)[0] >= 0
  {
    var r := RingAt(s, at);
    TextFollowsStages(s.procs[i].pc, at);
    RoomAndSupply(s, i, at);
    FetchRefines(r, s.k);
    assert r.put[|r.taken|] in r.put;
  }

  /** Whoever writes overwrites an empty slot. */
  lemma WritesEmptySlot(s: State, i: nat, at: Place)
    requires WellFormed(s) && Tokens(s) && Lengths(s) && Queued(s, at) && i < |s.procs|
    requires Code(s.procs[i].pc) == Touch(at, Write)
    ensures RingAt(s, at).cells[RingAt(s, at).place] == EMPTY && Length(RingAt(s, at)) < s.k
  {
    TextFollowsStages(s.procs[i].pc, at);
    RoomAndSupply(s, i, at);
    WriteRefines(RingAt(s, at), s.k, 0);
  }

  /** How each statement moves a pizza from or into the hands of the process. */
  lemma TextMovesPizzas(pc: Pc)
    ensures HandOf(pc) == Nothing && HandOf(After(pc)) != Nothing <==>
            Code(pc) == Prepare || (Code(pc).Touch? && Code(pc).op == Fetch)
    ensures HandOf(pc) != Nothing && HandOf(After(pc)) == Nothing <==>
            Code(pc) == Deliver || (Code(pc).Touch? && Code(pc).op == Write)
    ensures HandOf(pc) != Nothing && HandOf(After(pc)) != Nothing ==> HandOf(After(pc)) == HandOf(pc)
    ensures HandOf(After(pc)) == Raw && HandOf(pc) == Nothing <==> Code(pc) == Prepare
    ensures HandOf(pc) == Raw && HandOf(After(pc)) == Nothing <==> Code(pc) == Touch(Oven, Write)
    ensures HandOf(After(pc)) == Baked && HandOf(pc) == Nothing <==> Code(pc) == Touch(Oven, Fetch)
    ensures HandOf(pc) == Baked && HandOf(After(pc)) == Nothing <==> Code(pc) == Touch(Table, Write)
    ensures HandOf(After(pc)) == Order && HandOf(pc) == Nothing <==> Code(pc) == Touch(Table, Fetch)
    ensures HandOf(pc) == Order && HandOf(After(pc)) == Nothing <==> Code(pc) == Deliver
  {
  }

  lemma PutValues(r: Ring, at: Place, instr: Instr, x: int)
    requires InBounds(r, |r.cells|) && forall y | y in r.put :: y >= 0
    requires instr == Touch(at, Write) ==> x >= 0
    ensures forall y | y in RingAfter(r, at, instr, x).put :: y >= 0
  {
  }

  lemma StepHand(s: State, i: nat, x: nat)
    requires Inv(s) && Enabled(s, i)
    ensures PizzaOk(Proc(After(s.procs[i].pc), PizzaAfter(s, s.procs[i], x)))
    ensures Code(s.procs[i].pc).Touch? && Code(s.procs[i].pc).op == Write ==> s.procs[i].pizza >= 0
  {
    var p := s.procs[i];
    assert PizzaOk(p);
    TextMovesPizzas(p.pc);
    if Code(p.pc).Touch? && Code(p.pc).op == Fetch {
      FetchesOldest(s, i, Code(p.pc).at);
    }
  }

  lemma StepValues(s: State, i: nat, x: nat)
    requires Inv(s) && Enabled(s, i)
    ensures Values(Exec(s, i, x))
  {
    var p := s.procs[i];
    StepHand(s, i, x);
    PutValues(s.oven, Oven, Code(p.pc), p.pizza);
    PutValues(s.table, Table, Code(p.pc), p.pizza);
  }

  lemma SourceAfter(s: State, i: nat, x: int, hand: Hand)
    requires WellFormed(s) && i < |s.procs| && hand != Nothing
    ensures var p := s.procs[i];
      Source(Exec(s, i, x), hand) ==
      if HandOf(p.pc) != hand && HandOf(After(p.pc)) == hand then Source(s, hand) + [PizzaAfter(s, p, x)]
      else Source(s, hand)
  {
    TextMovesPizzas(s.procs[i].pc);
  }

  lemma TargetAfter(s: State, i: nat, x: int, hand: Hand)
    requires WellFormed(s) && i < |s.procs| && hand != Nothing
    ensures var p := s.procs[i];
      Target(Exec(s, i, x), hand) ==
      if HandOf(p.pc) == hand && HandOf(After(p.pc)) != hand then Target(s, hand) + [p.pizza] else Target(s, hand)
  {
    TextMovesPizzas(s.procs[i].pc);
  }

  /** A pizza that stays in the same hands stays the same pizza. */
  lemma HandKeeps(s: State, i: nat, x: int)
    requires WellFormed(s) && i < |s.procs|
    requires HandOf(s.procs[i].pc) == HandOf(After(s.procs[i].pc)) != Nothing
    ensures PizzaAfter(s, s.procs[i], x) == s.procs[i].pizza
  {
  }

  lemma Balance(src: multiset<int>, src': multiset<int>, bag: multiset<int>, bag': multiset<int>,
                tgt: multiset<int>, tgt': multiset<int>, held: multiset<int>, held': multiset<int>)
    requires src == bag + tgt
    requires bag' + held == bag + held'
    requires src' + held + tgt == src + held' + tgt'
    ensures src' == bag' + tgt'
  {
    forall v: int
      ensures src'[v] == (bag' + tgt')[v]
    {
      assert (bag' + held)[v] == (bag + held')[v];
      assert (src' + held + tgt)[v] == (src + held' + tgt')[v];
    }
    assert src' == (bag' + tgt');
  }

  lemma StepLedger(s: State, i: nat, x: int, hand: Hand)
    requires WellFormed(s) && i < |s.procs| && hand != Nothing && Ledger(s, hand)
    ensures Ledger(Exec(s, i, x), hand)
  {
    var p, s' := s.procs[i], Exec(s, i, x);
    var p' := s'.procs[i];
    SourceAfter(s, i, x, hand);
    TargetAfter(s, i, x, hand);
    if HandOf(p.pc) == HandOf(p'.pc) == hand {
      HandKeeps(s, i, x);
    }
    BagUpdate(s.procs, Holding(hand), i, p');
    Balance(multiset(Source(s, hand)), multiset(Source(s', hand)),
            Bag(s.procs, Holding(hand)), Bag(s'.procs, Holding(hand)),
            multiset(Target(s, hand)), multiset(Target(s', hand)), Held(p, hand), Held(p', hand));
  }

  lemma StepShape(s: State, i: nat, x: int)
    requires WellFormed(s) && Roles(s) && i < |s.procs|
    ensures WellFormed(Exec(s, i, x)) && Roles(Exec(s, i, x))
  {
    var p := s.procs[i];
    RingGrows(s.oven, Oven, Code(p.pc), p.pizza);
    RingGrows(s.table, Table, Code(p.pc), p.pizza);
    assert CookPc(p.pc) == CookPc(After(p.pc));
  }

  lemma StepInv(s: State, i: nat, x: nat)
    requires Inv(s) && Enabled(s, i)
    ensures Inv(Exec(s, i, x))
  {
    StepShape(s, i, x);
    StepTokens(s, i, x);
    StepLengths(s, i, x);
    StepQueued(s, i, x, Oven);
    StepQueued(s, i, x, Table);
    StepValues(s, i, x);
    StepLedger(s, i, x, Raw);
    StepLedger(s, i, x, Baked);
    StepLedger(s, i, x, Order);
  }

  // What every run keeps.

  /** Every state of every run satisfies the invariant. */
  lemma {:induction false} RunInv(run: seq<State>, k: nat, n: nat, m: nat, t: nat)
    requires IsRun(run, k, n, m) && k > 0 && t < |run|
    ensures Inv(run[t]) && run[t].k == k && run[t].cooks == n && |run[t].procs| == n + m
  {
    if t == 0 {
      StartInv(k, n, m);
    } else {
      RunInv(run, k, n, m, t - 1);
      assert Next(run[t - 1], run[t - 1 + 1]);
      var i: nat, x: nat :| Enabled(run[t - 1], i) && run[t] == Exec(run[t - 1], i, x);
      StepInv(run[t - 1], i, x);
    }
  }

  /** Whether or not somebody is in its section, a ring is some stage of a queue. */
  lemma AlwaysSomeStage(s: State, at: Place) returns (stage: Stage)
    requires Inv(s)
    ensures Refines(RingAt(s, at), s.k, stage)
    ensures Value(s.sems, Guard(at)) == 1 ==> stage == Quiet
    ensures stage == Written || stage == PlaceMoved ==> Length(RingAt(s, at)) > 0
    ensures stage == Cleared || stage == TakeMoved ==> Length(RingAt(s, at)) < s.k
  {
    stage := Quiet;
    if Value(s.sems, Guard(at)) != 1 {
      var i := CountWitness(s.procs, InSection(at));
      stage := StageOf(s.procs[i].pc);
      RoomAndSupply(s, i, at);
      TextFollowsStages(s.procs[i].pc, at);
    }
  }

  /**
   Both rings, at every point of every run: what has been taken is a prefix of
   what has been put, never more than k pizzas are there or counted, and while
   the section is free the three fields agree with each other.
   */
  lemma RingsStayQueues(run: seq<State>, k: nat, n: nat, m: nat, t: nat, at: Place)
    requires IsRun(run, k, n, m) && k > 0 && t < |run|
    ensures var r := RingAt(run[t], at);
      && r.taken <= r.put && 0 <= Length(r) <= k && 0 <= r.pizzas <= k
      && (Value(run[t].sems, Guard(at)) == 1 ==> r.pizzas == Length(r) && r.place == Slot(r.take + r.pizzas, k))
  {
    RunInv(run, k, n, m, t);
    var stage := AlwaysSomeStage(run[t], at);
    if stage == Quiet {
      PlaceFollowsTake(RingAt(run[t], at), k);
    }
  }

  /** No put ever overwrites a pizza, and no take ever comes away with the mark of an empty slot. */
  lemma PutsAndTakesAreSafe(run: seq<State>, k: nat, n: nat, m: nat, t: nat, i: nat, at: Place)
    requires IsRun(run, k, n, m) && k > 0 && t < |run| && i < n + m
    ensures i < |run[t].procs| && WellFormed(run[t])
    ensures var r, instr := RingAt(run[t], at), Code(run[t].procs[i].pc);
      && (instr == Touch(at, Write) ==> r.cells[r.place] == EMPTY)
      && (instr == Touch(at, Fetch) ==> r.taken < r.put && r.cells[r.take] == Queue(r)[0] != EMPTY)
  {
    RunInv(run, k, n, m, t);
    if Code(run[t].procs[i].pc) == Touch(at, Write) {
      WritesEmptySlot(run[t], i, at);
    } else if Code(run[t].procs[i].pc) == Touch(at, Fetch) {
      FetchesOldest(run[t], i, at);
    }
  }

  /** At most one process is in a section, and each semaphore is what is left after the holders. */
  lemma SemaphoresCount(run: seq<State>, k: nat, n: nat, m: nat, t: nat, i: nat, j: nat, at: Place)
    requires IsRun(run, k, n, m) && k > 0 && t < |run| && i < j < n + m
    ensures |run[t].procs| == n + m
    ensures !(Section(at, run[t].procs[i].pc) && Section(at, run[t].procs[j].pc))
    ensures Tokens(run[t])
  {
    RunInv(run, k, n, m, t);
    Exclusive(run[t], i, j, at);
  }

  /** Every pizza ever prepared is in a cook's hands, in the oven, on the table, on its way or delivered, once. */
  ghost predicate Conserved(s: State)
    requires |s.oven.taken| <= |s.oven.put| && |s.table.taken| <= |s.table.put|
  {
    multiset(s.prepared) ==
    Bag(s.procs, Holding(Raw)) + multiset(Queue(s.oven)) + Bag(s.procs, Holding(Baked))
    + multiset(Queue(s.table)) + Bag(s.procs, Holding(Order)) + multiset(s.delivered)
  }

  lemma TakenAndQueued(r: Ring)
    requires r.taken <= r.put
    ensures multiset(r.put) == multiset(r.taken) + multiset(Queue(r))
  {
    assert r.put == r.taken + Queue(r);
  }

  lemma InvConserves(s: State)
    requires Inv(s)
    ensures s.oven.taken <= s.oven.put && s.table.taken <= s.table.put
    ensures Conserved(s)
  {
    var a := AlwaysSomeStage(s, Oven);
    var b := AlwaysSomeStage(s, Table);
    TakenAndQueued(s.oven);
    TakenAndQueued(s.table);
    assert Ledger(s, Raw) && Ledger(s, Baked) && Ledger(s, Order);
  }

  lemma PizzasAreConserved(run: seq<State>, k: nat, n: nat, m: nat, t: nat)
    requires IsRun(run, k, n, m) && k > 0 && t < |run|
    ensures run[t].oven.taken <= run[t].oven.put && run[t].table.taken <= run[t].table.put
    ensures Conserved(run[t])
  {
    RunInv(run, k, n, m, t);
    InvConserves(run[t]);
  }

  // No deadlock, and the shop can always close.

  /**
   Nobody waits for a counting semaphore inside a section, a cook gives its place
   in the oven back before it waits for the table, and nobody waits for a section
   inside another one.
   */
  lemma WaitsHoldLittle(pc: Pc)
    requires Code(pc).Lock?
    ensures !Section(Oven, pc) && !Section(Table, pc)
    ensures Code(pc).sem == TableFull || Code(pc).sem == TableEmpty ==> !Token(Oven, pc) && !Token(Table, pc)
    ensures Code(pc).sem == OvenFull ==> !Token(Oven, pc) && !Token(Table, pc)
  {
  }

  /** A step of a process that does not start a new pizza. */
  predicate Closing(s: State, i: nat) {
    Enabled(s, i) && s.procs[i].pc != C24
  }

  /** Nothing in anybody's hands, nothing in the rings, every semaphore as it was at the start. */
  ghost predicate AtRest(s: State) {
    && s.sems == Sems(1, 1, s.k, s.k, 0)
    && Length(s.oven) == 0 && Length(s.table) == 0
    && forall i | 0 <= i < |s.procs| :: s.procs[i].pc == if i < s.cooks then C24 else S17
  }

  /** Steps to the end of the loop; those of a cook include the way of its pizza to the customer. */
  function Distance(pc: Pc): nat {
    match pc
    case C24 => 0
    case C29 => 30
    case C31 => 29
    case C62 => 28
    case C63 => 27
    case C64 => 26
    case C35 => 25
    case C39 => 24
    case C75 => 23
    case C76 => 22
    case C77 => 21
    case C78 => 20
    case C43 => 19
    case C45 => 18
    case C48 => 17
    case C50 => 16
    case C68 => 15
    case C69 => 14
    case C70 => 13
    case C54 => 12
    case C57 => 11
    case S17 => 0
    case S19 => 8
    case S36 => 7
    case S37 => 6
    case S38 => 5
    case S39 => 4
    case S23 => 3
    case S26 => 2
    case S29 => 1
  }

  function DistanceOf(): Proc -> nat { (p: Proc) => Distance(p.pc) }

  ghost function Work(s: State): int {
    Sum(s.procs, DistanceOf()) + 10 * s.sems.tableEmpty
  }

  lemma TextGoesDown(pc: Pc)
    requires pc != C24
    ensures pc == S17 || Distance(After(pc)) + 10 * Gain(Code(pc), TableEmpty) == Distance(pc) - 1
    ensures pc == S17 ==> Distance(After(pc)) + 10 * Gain(Code(pc), TableEmpty) < 0
  {
  }

  /** Each state follows from the one before by a step. */
  ghost predicate Chained(run: seq<State>) {
    forall t | 0 <= t < |run| - 1 :: Next(run[t], run[t + 1])
  }

  lemma ChainedOn(run: seq<State>, s: State)
    requires run != [] && Chained(run) && Next(run[|run| - 1], s)
    ensures Chained(run + [s])
  {
    var longer := run + [s];
    forall t | 0 <= t < |longer| - 1
      ensures Next(longer[t], longer[t + 1])
    {
      if t < |run| - 1 {
        assert Next(run[t], run[t + 1]);
      }
    }
  }

  /** Some schedule of as many turns leads through any steps that can be taken. */
  lemma {:induction false} SchedulesReach(run: seq<State>, t: nat) returns (schedule: seq<(nat, nat)>)
    requires t < |run| && Chained(run) && WellFormed(run[0])
    ensures |schedule| == t && Scheduled(run[0], schedule) == run[t]
  {
    if t == 0 {
      schedule := [];
    } else {
      schedule := SchedulesReach(run, t - 1);
      schedule := OneMoreTurn(run, t - 1, schedule);
    }
  }

  lemma OneMoreTurn(run: seq<State>, t: nat, schedule: seq<(nat, nat)>) returns (longer: seq<(nat, nat)>)
    requires t + 1 < |run| && Chained(run) && WellFormed(run[0]) && Scheduled(run[0], schedule) == run[t]
    ensures |longer| == |schedule| + 1 && Scheduled(run[0], longer) == run[t + 1]
  {
    var turn := StepIsTurn(run, t);
    ScheduleGoesOn(run[0], schedule, turn);
    longer := schedule + [turn];
  }

  lemma StepIsTurn(run: seq<State>, t: nat) returns (turn: (nat, nat))
    requires Chained(run) && t + 1 < |run|
    ensures WellFormed(run[t]) && Turn(run[t], turn) == run[t + 1]
  {
    assert Next(run[t], run[t + 1]);
    var i: nat, x: nat :| Enabled(run[t], i) && run[t + 1] == Exec(run[t], i, x);
    turn := (i, x);
  }

  lemma ScheduleGoesOn(s: State, schedule: seq<(nat, nat)>, turn: (nat, nat))
    requires WellFormed(s)
    ensures Scheduled(s, schedule + [turn]) == Turn(Scheduled(s, schedule), turn)
  {
    assert (schedule + [turn])[..|schedule|] == schedule;
  }

  ghost predicate ClosingNext(s: State, s': State) {
    WellFormed(s) && exists i: nat, x: nat :: Closing(s, i) && s' == Exec(s, i, x)
  }

  /** Once no pizza is started any more, every step of whatever process brings the end nearer. */
  lemma ClosingProgress(s: State, i: nat, x: int)
    requires Inv(s) && Closing(s, i)
    ensures Work(Exec(s, i, x)) < Work(s)
  {
    var pc := s.procs[i].pc;
    SumUpdate(s.procs, DistanceOf(), i, Exec(s, i, x).procs[i]);
    SemsGain(s.sems, Code(pc), TableEmpty);
    TextGoesDown(pc);
  }

  lemma ClosingKeeps(s: State, s': State)
    requires Inv(s) && ClosingNext(s, s')
    ensures Inv(s') && Work(s') < Work(s)
    ensures s'.prepared == s.prepared && s'.cooks == s.cooks && |s'.procs| == |s.procs|
  {
    var i: nat, x: nat :| Closing(s, i) && s' == Exec(s, i, x);
    ClosingProgress(s, i, x);
    StepInv(s, i, x);
  }

  lemma SomebodyInside(s: State, at: Place)
    requires Inv(s) && Value(s.sems, Guard(at)) == 0
    ensures exists i: nat :: Closing(s, i)
  {
    var i := CountWitness(s.procs, InSection(at));
    InsideGoesOn(s.procs[i].pc, at);
    assert Closing(s, i);
  }

  lemma InsideGoesOn(pc: Pc, at: Place)
    requires Section(at, pc)
    ensures !Code(pc).Lock? && pc != C24
  {
  }

  /** With all sections free, a process that is not at its first, counting or preparing step can go on. */
  lemma QuietBlocked(sems: Sems, pc: Pc)
    requires sems.oven == 1 && sems.table == 1
    requires pc == C24 || (Code(pc).Lock? && Value(sems, Code(pc).sem) <= 0)
    ensures !Token(Oven, pc) && !Token(Table, pc) && !Answers(Oven, pc) && !Answers(Table, pc)
    ensures pc.C24? || pc.C29? || pc.C48? || pc.S17?
  {
  }

  /** As long as the shop is not at rest, some process can go on without a new pizza. */
  lemma ClosingPossible(s: State)
    requires Inv(s) && s.cooks < |s.procs|
    ensures AtRest(s) || exists i: nat :: Closing(s, i)
  {
    if s.sems.oven == 0 {
      SomebodyInside(s, Oven);
    } else if s.sems.table == 0 {
      SomebodyInside(s, Table);
    } else if forall i: nat :: !Closing(s, i) {
      forall i | 0 <= i < |s.procs|
        ensures !Token(Oven, s.procs[i].pc) && !Token(Table, s.procs[i].pc)
        ensures s.procs[i].pc.C24? || s.procs[i].pc.C29? || s.procs[i].pc.C48? || s.procs[i].pc.S17?
        ensures !Answers(Oven, s.procs[i].pc) && !Answers(Table, s.procs[i].pc)
      {
        assert !Closing(s, i);
        QuietBlocked(s.sems, s.procs[i].pc);
      }
      CountNone(s.procs, HasToken(Oven));
      CountNone(s.procs, HasToken(Table));
      CountNone(s.procs, AnswersFor(Oven));
      CountNone(s.procs, AnswersFor(Table));
      var supplier := s.cooks;
      assert CookPc(s.procs[supplier].pc) <==> supplier < s.cooks;
      assert !Closing(s, supplier);
      assert s.sems.tableEmpty == 0;
      forall i | 0 <= i < |s.procs|
        ensures s.procs[i].pc == if i < s.cooks then C24 else S17
      {
        assert CookPc(s.procs[i].pc) <==> i < s.cooks;
        assert !Closing(s, i);
      }
    }
  }

  /** No deadlock: with a cook and a supplier, every state of every run has a process that can go on. */
  lemma NoDeadlock(run: seq<State>, k: nat, n: nat, m: nat, t: nat)
    requires IsRun(run, k, n, m) && k > 0 && n > 0 && m > 0 && t < |run|
    ensures exists i: nat :: Enabled(run[t], i)
  {
    RunInv(run, k, n, m, t);
    ClosingPossible(run[t]);
    if AtRest(run[t]) {
      assert run[t].procs[0].pc == C24;
      assert Enabled(run[t], 0);
    } else {
      var i: nat :| Closing(run[t], i);
      assert Enabled(run[t], i);
    }
  }

  ghost predicate IsClosing(path: seq<State>) {
    path != [] && forall t | 0 <= t < |path| - 1 :: ClosingNext(path[t], path[t + 1])
  }

  lemma ClosingTail(path: seq<State>)
    requires IsClosing(path) && |path| > 1
    ensures IsClosing(path[1..]) && ClosingNext(path[0], path[1..][0])
  {
    var tail := path[1..];
    assert ClosingNext(path[0], path[0 + 1]);
    forall t | 0 <= t < |tail| - 1
      ensures ClosingNext(tail[t], tail[t + 1])
    {
      assert ClosingNext(path[t + 1], path[t + 1 + 1]);
    }
  }

  /** However the processes are scheduled, closing takes no more steps than there is work left. */
  lemma {:induction false} ClosingEnds(path: seq<State>)
    requires IsClosing(path) && Inv(path[0])
    ensures |path| - 1 <= Work(path[0])
    decreases |path|
  {
    if |path| > 1 {
      ClosingTail(path);
      ClosingKeeps(path[0], path[1..][0]);
      ClosingEnds(path[1..]);
    }
  }

  /** At rest every pizza ever prepared has been delivered. */
  lemma RestHasDelivered(s: State)
    requires Inv(s) && AtRest(s)
    ensures multiset(s.prepared) == multiset(s.delivered)
  {
    BagNone(s.procs, Holding(Raw));
    BagNone(s.procs, Holding(Baked));
    BagNone(s.procs, Holding(Order));
    InvConserves(s);
    assert Queue(s.oven) == [] && Queue(s.table) == [];
  }

  lemma ClosingPrefixed(s: State, rest: seq<State>)
    requires IsClosing(rest) && ClosingNext(s, rest[0])
    ensures IsClosing([s] + rest)
  {
    var path := [s] + rest;
    forall t | 0 <= t < |path| - 1
      ensures ClosingNext(path[t], path[t + 1])
    {
      if t > 0 {
        assert ClosingNext(rest[t - 1], rest[t - 1 + 1]);
      }
    }
  }

  lemma OneClosingStep(s: State) returns (s': State)
    requires Inv(s) && s.cooks < |s.procs| && !AtRest(s)
    ensures ClosingNext(s, s') && Inv(s') && Work(s') < Work(s)
    ensures s'.prepared == s.prepared && s'.cooks == s.cooks && |s'.procs| == |s.procs|
  {
    ClosingPossible(s);
    var i: nat :| Closing(s, i);
    s' := Exec(s, i, 0);
    assert ClosingNext(s, s');
    ClosingKeeps(s, s');
  }

  lemma WorkNatural(s: State)
    requires Inv(s)
    ensures Work(s) >= 0
  {
  }

  /** From any state of any run the shop can close with everything delivered. */
  lemma {:induction false} CanClose(s: State) returns (path: seq<State>, last: State)
    requires Inv(s) && s.cooks < |s.procs|
    ensures IsClosing(path) && path[0] == s && path[|path| - 1] == last
    ensures Inv(last) && AtRest(last) && last.prepared == s.prepared
    ensures multiset(last.delivered) == multiset(s.prepared)
    decreases Work(s)
  {
    if AtRest(s) {
      path, last := [s], s;
      RestHasDelivered(s);
    } else {
      var s' := OneClosingStep(s);
      WorkNatural(s');
      path, last := CanClose(s');
      ClosingPrefixed(s, path);
      path := [s] + path;
    }
  }

  lemma {:induction false} ClosingPathKeeps(path: seq<State>, j: nat)
    requires IsClosing(path) && Inv(path[0]) && j < |path|
    ensures Inv(path[j]) && path[j].prepared == path[0].prepared
    ensures path[j].cooks == path[0].cooks && |path[j].procs| == |path[0].procs|
  {
    if j > 0 {
      ClosingPathKeeps(path, j - 1);
      assert ClosingNext(path[j - 1], path[j - 1 + 1]);
      ClosingKeeps(path[j - 1], path[j]);
    }
  }

  /**
   Whenever, in whatever run, no new pizza is started any more: every schedule
   ends within a bound, and only with all that was prepared delivered; and there
   is one that does.
   */
  lemma EveryRunCloses(run: seq<State>, k: nat, n: nat, m: nat, t: nat, path: seq<State>) returns (closing: seq<State>)
    requires IsRun(run, k, n, m) && k > 0 && m > 0 && t < |run|
    requires IsClosing(path) && path[0] == run[t]
    ensures |path| - 1 <= Work(run[t])
    ensures var last := path[|path| - 1];
      (exists i: nat :: Closing(last, i)) || (AtRest(last) && multiset(last.delivered) == multiset(run[t].prepared))
    ensures IsClosing(closing) && closing[0] == run[t] && AtRest(closing[|closing| - 1])
  {
    RunInv(run, k, n, m, t);
    ClosingEnds(path);
    ClosingPathKeeps(path, |path| - 1);
    ClosingPossible(path[|path| - 1]);
    if AtRest(path[|path| - 1]) {
      RestHasDelivered(path[|path| - 1]);
    }
    var last;
    closing, last := CanClose(run[t]);
  }

  // Every cook can prepare whatever it likes, and every supplier deliver it.

  /** Only a semaphore can make a process wait. */
  lemma GoesOnUnlessLocked(s: State, i: nat)
    requires i < |s.procs|
    requires forall sem :: Code(s.procs[i].pc) == Lock(sem) ==> Value(s.sems, sem) > 0
    ensures Enabled(s, i)
  {
  }

  /** All processes but one are at the start of their loops. */
  ghost predicate Solo(s: State, i: nat) {
    i < |s.procs| && forall j | 0 <= j < |s.procs| && j != i :: s.procs[j].pc == if j < s.cooks then C24 else S17
  }

  lemma SoloCount(s: State, i: nat, p: Proc -> bool)
    requires Solo(s, i) && forall x :: !p(Proc(C24, x)) && !p(Proc(S17, x))
    ensures Count(s.procs, p) == if p(s.procs[i]) then 1 else 0
  {
    var bare := Proc(C24, 0);
    var others := s.procs[i := bare];
    CountUpdate(s.procs, p, i, bare);
    forall j | 0 <= j < |others|
      ensures !p(others[j])
    {
      assert others[j] == Proc(others[j].pc, others[j].pizza);
    }
    CountNone(others, p);
  }

  /** What the semaphores are when one process is on its way alone. */
  lemma SoloSems(s: State, i: nat)
    requires Inv(s) && Solo(s, i)
    ensures var pc := s.procs[i].pc;
      && s.sems.oven == 1 - One(Section(Oven, pc)) && s.sems.table == 1 - One(Section(Table, pc))
      && s.sems.ovenFull == s.k - One(Token(Oven, pc))
      && s.sems.tableFull + s.sems.tableEmpty == s.k - One(Token(Table, pc))
      && Length(s.table) == s.sems.tableEmpty + One(Answers(Table, pc))
      && Length(s.oven) == One(Answers(Oven, pc))
  {
    SoloSections(s, i);
    SoloCount(s, i, HasToken(Oven));
    SoloCount(s, i, HasToken(Table));
    SoloCount(s, i, AnswersFor(Oven));
    SoloCount(s, i, AnswersFor(Table));
  }

  lemma SoloSections(s: State, i: nat)
    requires Inv(s) && Solo(s, i)
    ensures var pc := s.procs[i].pc;
      s.sems.oven == 1 - One(Section(Oven, pc)) && s.sems.table == 1 - One(Section(Table, pc))
  {
    SoloCount(s, i, InSection(Oven));
    SoloCount(s, i, InSection(Table));
  }

  /** Alone, a cook never waits before its pizza is announced, nor a supplier once one is. */
  lemma SoloGoesOn(s: State, i: nat)
    requires Inv(s) && Solo(s, i) && s.k > 0
    requires if i < s.cooks then s.sems.tableEmpty == 0 else s.procs[i].pc == S17 ==> s.sems.tableEmpty > 0
    ensures Enabled(s, i)
  {
    SoloSems(s, i);
    assert CookPc(s.procs[i].pc) <==> i < s.cooks;
    SoloLocks(s.sems, s.k, s.procs[i].pc);
  }

  lemma SoloLocks(sems: Sems, k: int, pc: Pc)
    requires k > 0 && (CookPc(pc) ==> sems.tableEmpty == 0) && (pc == S17 ==> sems.tableEmpty > 0)
    requires sems.oven == 1 - One(Section(Oven, pc)) && sems.table == 1 - One(Section(Table, pc))
    requires sems.ovenFull == k - One(Token(Oven, pc))
    requires sems.tableFull + sems.tableEmpty == k - One(Token(Table, pc))
    ensures Code(pc).Lock? ==> Value(sems, Code(pc).sem) > 0
  {
  }

  /** A path of steps from one state to another. */
  ghost predicate Goes(path: seq<State>, s: State, last: State) {
    && path != [] && path[0] == s && path[|path| - 1] == last
    && forall t | 0 <= t < |path| - 1 :: Next(path[t], path[t + 1])
  }

  lemma GoesFrom(s: State, s': State, path: seq<State>, last: State)
    requires Next(s, s') && Goes(path, s', last)
    ensures Goes([s] + path, s, last)
  {
    var longer := [s] + path;
    forall t | 0 <= t < |longer| - 1
      ensures Next(longer[t], longer[t + 1])
    {
      if t > 0 {
        assert Next(path[t - 1], path[t - 1 + 1]);
      }
    }
  }

  lemma {:induction false} GoesThrough(a: seq<State>, s: State, m: State, b: seq<State>, last: State)
    requires Goes(a, s, m) && Goes(b, m, last)
    ensures Goes(a[..|a| - 1] + b, s, last)
    decreases |a|
  {
    if |a| == 1 {
      assert a[..0] + b == b;
    } else {
      var rest := a[1..];
      assert Next(a[0], a[0 + 1]);
      forall t | 0 <= t < |rest| - 1
        ensures Next(rest[t], rest[t + 1])
      {
        assert Next(a[t + 1], a[t + 1 + 1]);
      }
      GoesThrough(rest, a[1], m, b, last);
      GoesFrom(s, a[1], rest[..|rest| - 1] + b, last);
      assert [s] + (rest[..|rest| - 1] + b) == a[..|a| - 1] + b;
    }
  }

  /** What stays while one process goes on alone. */
  ghost predicate Alone(s: State, i: nat, k: int, cooks: nat, n: nat) {
    Inv(s) && Solo(s, i) && s.k == k > 0 && s.cooks == cooks && |s.procs| == n
  }

  lemma SoloStep(s: State, i: nat, x: nat)
    requires Alone(s, i, s.k, s.cooks, |s.procs|) && Enabled(s, i)
    ensures WellFormed(s) && Alone(Exec(s, i, x), i, s.k, s.cooks, |s.procs|) && Next(s, Exec(s, i, x))
  {
    StepInv(s, i, x);
  }

  lemma SoloMoves(s: State, i: nat, x: nat)
    requires WellFormed(s) && i < |s.procs|
    ensures var pc, s' := s.procs[i].pc, Exec(s, i, x);
      && s'.procs[i].pc == After(pc)
      && s'.sems.tableEmpty == s.sems.tableEmpty + Gain(Code(pc), TableEmpty)
      && s'.prepared == (if pc == C24 then s.prepared + [x] else s.prepared)
      && s'.delivered == (if pc == S29 then s.delivered + [s.procs[i].pizza] else s.delivered)
  {
    SemsGain(s.sems, Code(s.procs[i].pc), TableEmpty);
    OnlyHere(s.procs[i].pc);
  }

  lemma OnlyHere(pc: Pc)
    ensures Code(pc) == Prepare <==> pc == C24
    ensures Code(pc) == Deliver <==> pc == S29
  {
  }

  /** A cook carries its pizza through the oven to the table. */
  lemma {:induction false} CookCarries(s: State, i: nat) returns (path: seq<State>, last: State)
    requires Alone(s, i, s.k, s.cooks, |s.procs|) && i < s.cooks && s.procs[i].pc != C24 && s.sems.tableEmpty == 0
    ensures Goes(path, s, last) && Alone(last, i, s.k, s.cooks, |s.procs|)
    ensures last.procs[i].pc == C24 && last.sems.tableEmpty == 1
    ensures last.prepared == s.prepared && last.delivered == s.delivered
    decreases Distance(s.procs[i].pc)
  {
    SoloGoesOn(s, i);
    SoloStep(s, i, 0);
    SoloMoves(s, i, 0);
    var s' := Exec(s, i, 0);
    assert CookPc(s.procs[i].pc) <==> i < s.cooks;
    CookAhead(s.procs[i].pc);
    if s.procs[i].pc == C57 {
      path, last := [s'], s';
    } else {
      path, last := CookCarries(s', i);
    }
    GoesFrom(s, s', path, last);
    path := [s] + path;
  }

  lemma CookAhead(pc: Pc)
    requires CookPc(pc) && pc != C24
    ensures Distance(After(pc)) < Distance(pc) && (After(pc) == C24 <==> pc == C57) && pc != S29
    ensures Gain(Code(pc), TableEmpty) == One(pc == C57)
  {
  }

  /** A supplier takes a pizza off the table and goes to the customer. */
  lemma {:induction false} SupplierCarries(s: State, j: nat) returns (path: seq<State>, last: State)
    requires Alone(s, j, s.k, s.cooks, |s.procs|) && s.cooks <= j
    requires s.procs[j].pc == S17 ==> s.sems.tableEmpty > 0
    ensures Goes(path, s, last) && Alone(last, j, s.k, s.cooks, |s.procs|)
    ensures last.procs[j].pc == S29 && last.prepared == s.prepared && last.delivered == s.delivered
    ensures last.sems.tableEmpty == s.sems.tableEmpty - One(s.procs[j].pc == S17)
    decreases SupplierAhead(s.procs[j].pc)
  {
    if s.procs[j].pc == S29 {
      path, last := [s], s;
    } else {
      SoloGoesOn(s, j);
      SoloStep(s, j, 0);
      SoloMoves(s, j, 0);
      var s' := Exec(s, j, 0);
      assert CookPc(s.procs[j].pc) <==> j < s.cooks;
      SupplierGoesOn(s.procs[j].pc);
      path, last := SupplierCarries(s', j);
      GoesFrom(s, s', path, last);
      path := [s] + path;
    }
  }

  function SupplierAhead(pc: Pc): nat {
    if pc == S17 then 9 else Distance(pc)
  }

  lemma SupplierGoesOn(pc: Pc)
    requires !CookPc(pc) && pc != S29
    ensures SupplierAhead(After(pc)) < SupplierAhead(pc) && After(pc) != S17 && pc != C24
    ensures Gain(Code(pc), TableEmpty) == -One(pc == S17)
  {
  }

  lemma LastOne(a: seq<int>, b: seq<int>, x: int, y: int)
    requires multiset(a) == multiset(b) && multiset(a + [x]) == multiset(b + [y])
    ensures x == y
  {
    assert multiset(a + [x]) == multiset(a) + multiset{x};
    assert multiset(b + [y]) == multiset(b) + multiset{y};
    assert (multiset(a) + multiset{x})[x] == multiset(a)[x] + 1;
    assert (multiset(b) + multiset{y})[x] == multiset(b)[x] + if x == y then 1 else 0;
  }

  /** From rest, cook i prepares x, and it comes into the hands of supplier j at the customer's. */
  lemma PairCarries(s: State, i: nat, j: nat, x: nat) returns (path: seq<State>, last: State)
    requires Inv(s) && AtRest(s) && s.k > 0 && i < s.cooks <= j < |s.procs|
    ensures WellFormed(s) && Next(s, Exec(s, i, x)) && Goes(path, Exec(s, i, x), last)
    ensures Alone(last, j, s.k, s.cooks, |s.procs|) && last.procs[j].pc == S29 && last.sems.tableEmpty == 0
    ensures last.prepared == s.prepared + [x] && last.delivered == s.delivered
  {
    assert Solo(s, i);
    GoesOnUnlessLocked(s, i);
    SoloStep(s, i, x);
    SoloMoves(s, i, x);
    var first, middle := CookCarries(Exec(s, i, x), i);
    assert Solo(middle, j);
    var second;
    second, last := SupplierCarries(middle, j);
    GoesThrough(first, Exec(s, i, x), middle, second, last);
    path := first[..|first| - 1] + second;
  }

  lemma SupplierDelivers(last: State, j: nat)
    requires Alone(last, j, last.k, last.cooks, |last.procs|) && last.cooks <= j
    requires last.procs[j].pc == S29 && last.sems.tableEmpty == 0
    ensures WellFormed(last) && Next(last, Exec(last, j, 0)) && Inv(Exec(last, j, 0)) && AtRest(Exec(last, j, 0))
    ensures Exec(last, j, 0).prepared == last.prepared
    ensures Exec(last, j, 0).delivered == last.delivered + [last.procs[j].pizza]
  {
    GoesOnUnlessLocked(last, j);
    SoloStep(last, j, 0);
    SoloMoves(last, j, 0);
    SoloRests(Exec(last, j, 0), j);
  }

  /** What the supplier has is that pizza. */
  lemma SupplierHas(s: State, last: State, j: nat, x: nat)
    requires Inv(s) && AtRest(s) && Alone(last, j, s.k, s.cooks, |s.procs|) && s.cooks <= j
    requires last.procs[j].pc == S29 && last.sems.tableEmpty == 0
    requires last.prepared == s.prepared + [x] && last.delivered == s.delivered
    ensures last.procs[j] == Proc(S29, x) && WellFormed(last) && Next(last, Exec(last, j, 0))
    ensures Exec(last, j, 0).prepared == last.prepared && Exec(last, j, 0).delivered == s.delivered + [x]
  {
    SupplierDelivers(last, j);
    RestHasDelivered(s);
    RestHasDelivered(Exec(last, j, 0));
    LastOne(s.prepared, s.delivered, x, last.procs[j].pizza);
  }

  lemma SoloRests(s: State, j: nat)
    requires Alone(s, j, s.k, s.cooks, |s.procs|) && s.cooks <= j && s.procs[j].pc == S17 && s.sems.tableEmpty == 0
    ensures AtRest(s)
  {
    SoloSems(s, j);
  }

  lemma ClosingGoes(path: seq<State>, s: State, last: State)
    requires IsClosing(path) && path[0] == s && path[|path| - 1] == last && Inv(s)
    ensures Goes(path, s, last) && last.k == s.k && last.cooks == s.cooks && |last.procs| == |s.procs|
  {
    ClosingPathKeeps(path, |path| - 1);
    SameRings(path, |path| - 1);
    forall t | 0 <= t < |path| - 1
      ensures Next(path[t], path[t + 1])
    {
      assert ClosingNext(path[t], path[t + 1]);
    }
  }

  lemma {:induction false} SameRings(path: seq<State>, j: nat)
    requires IsClosing(path) && j < |path|
    ensures path[j].k == path[0].k
  {
    if j > 0 {
      SameRings(path, j - 1);
      assert ClosingNext(path[j - 1], path[j - 1 + 1]);
    }
  }

  /**
   From every state of every run, for every cook i, supplier j and pizza x, the run can go on
   to a state a in which i prepares x, and from there to a state b in which j delivers it, with
   everything that had been prepared before delivered as well.
   */
  lemma EveryPairDelivers(run: seq<State>, k: nat, n: nat, m: nat, t: nat, i: nat, j: nat, x: nat)
      returns (before: seq<State>, a: State, path: seq<State>, b: State)
    requires IsRun(run, k, n, m) && k > 0 && t < |run| && i < n <= j < n + m
    ensures Goes(before, run[t], a) && WellFormed(a) && i < |a.procs| && a.procs[i].pc == C24
    ensures Next(a, Exec(a, i, x)) && Goes(path, Exec(a, i, x), b)
    ensures WellFormed(b) && j < |b.procs| && b.procs[j] == Proc(S29, x) && Next(b, Exec(b, j, 0))
    ensures b.prepared == run[t].prepared + [x] == Exec(b, j, 0).prepared
    ensures multiset(a.delivered) == multiset(run[t].prepared) && Exec(b, j, 0).delivered == a.delivered + [x]
  {
    RunInv(run, k, n, m, t);
    before, a := CanClose(run[t]);
    ClosingGoes(before, run[t], a);
    path, b := PairCarries(a, i, j, x);
    SupplierHas(a, b, j, x);
  }
}
