/**
 The acknowledged signals of cw04/zad3b: a sender and a catcher, whose handlers
 may interrupt them, and each other, between any two statements.
 */
module Signals {

  /** The command-line argument `mode` of each program; Other stands for every unknown one. */
  datatype Mode = Kill | SigQueue | SigRt | Other

  /** SIGUSR1 and SIGUSR2, or the two real-time signals used instead. */
  datatype Sig = First | Second

  /** The sender's main, by line. M73 is the test of the loop. */
  datatype Main = M73 | M74 | M75 | M77 | M86 | M92 | M101

  /** The sender's handlers, by line. F20 is the end of handler1; F23 reports, F25 exits. */
  datatype SFrame = F14 | F15 | F20 | F23 | F25

  /** The catcher's handlers, by line. G28 is the end of handler1. */
  datatype CFrame = G11 | G18 | G28 | G39 | G48

  /** Handlers that have interrupted a process, the innermost on top. */
  datatype Stack<F> = Empty | Push(top: F, below: Stack<F>)

  /**
   Both processes and what the system keeps for them. Frames are the handlers that
   have interrupted a process; first and second are pending signals.
   lost counts the signals merged into one that was pending already.
   */
  datatype State = State(
    n: int, mode: Mode, cmode: Mode, lost: nat,
    main: Main, i: int, count: int, wait: bool, frames: Stack<SFrame>, first: nat, second: nat,
    exited: bool, reported: bool,
    caught: int, cframes: Stack<CFrame>, cfirst: nat, csecond: nat, cexited: bool)

  datatype Move = SenderRuns | CatcherRuns | SenderGets(sig: Sig) | CatcherGets(sig: Sig)

  function Handles(f: SFrame): Sig {
    if f == F23 || f == F25 then Second else First
  }

  function CHandles(f: CFrame): Sig {
    if f == G39 || f == G48 then Second else First
  }

  /** A signal is blocked while its own handler runs. */
  predicate Blocked(frames: Stack<SFrame>, sig: Sig) {
    frames != Empty && (Handles(frames.top) == sig || Blocked(frames.below, sig))
  }

  predicate CBlocked(frames: Stack<CFrame>, sig: Sig) {
    frames != Empty && (CHandles(frames.top) == sig || CBlocked(frames.below, sig))
  }

  predicate MainEnabled(s: State) {
    match s.main
    case M74 | M86 => !s.wait
    case M101 => false
    case _ => true
  }

  predicate Enabled(s: State, move: Move) {
    match move
    case SenderRuns => !s.exited && (s.frames == Empty ==> MainEnabled(s))
    case CatcherRuns => !s.cexited && s.cframes != Empty
    case SenderGets(sig) => !s.exited && !Blocked(s.frames, sig) && (if sig == First then s.first else s.second) > 0
    case CatcherGets(sig) =>
      !s.cexited && !CBlocked(s.cframes, sig) && (if sig == First then s.cfirst else s.csecond) > 0
  }

  /** A standard signal that is pending already absorbs another one; real-time signals queue up. */
  predicate Merges(mode: Mode, pending: nat) {
    mode != SigRt && pending > 0
  }

  function Pend(mode: Mode, pending: nat): nat {
    if Merges(mode, pending) then pending else pending + 1
  }

  function Loss(mode: Mode, pending: nat): nat {
    if Merges(mode, pending) then 1 else 0
  }

  /** A program in this mode handles the real-time signals, in any other mode the standard ones. */
  predicate RealTime(mode: Mode) {
    mode == SigRt
  }

  /**
   A signal of the sender. The catcher blocks real-time signals that it does not handle;
   a standard signal that it does not handle ends it.
   */
  function Send(s: State, sig: Sig): State {
    if s.mode == Other || s.cexited then s
    else if RealTime(s.mode) && !RealTime(s.cmode) then s
    else if RealTime(s.cmode) && !RealTime(s.mode) then s.(cexited := true, cframes := Empty)
    else if sig == First then s.(cfirst := Pend(s.mode, s.cfirst), lost := s.lost + Loss(s.mode, s.cfirst))
    else s.(csecond := Pend(s.mode, s.csecond), lost := s.lost + Loss(s.mode, s.csecond))
  }

  /** A signal of the catcher; the sender blocks none, so that one which it does not handle ends it. */
  function SendBack(s: State, sig: Sig): State {
    if s.cmode == Other || s.exited then s
    else if RealTime(s.mode) != RealTime(s.cmode) then s.(exited := true, frames := Empty)
    else if sig == First then s.(first := Pend(s.cmode, s.first), lost := s.lost + Loss(s.cmode, s.first))
    else s.(second := Pend(s.cmode, s.second), lost := s.lost + Loss(s.cmode, s.second))
  }

  function MainStep(s: State): State {
    match s.main
    case M73 => s.(main := if s.i < s.n then M74 else M86)
    case M74 => s.(main := M75)
    case M75 => s.(wait := true, main := M77)
    case M77 => Send(s, First).(i := s.i + 1, main := M73)
    case M86 => s.(main := M92)
    case M92 => Send(s, Second).(main := M101)
    case M101 => s
  }

  function HandlerStep(s: State): State
    requires s.frames != Empty
  {
    var rest := s.frames.below;
    match s.frames.top
    case F14 => s.(count := s.count + 1, frames := Push(F15, rest))
    case F15 => s.(wait := false, frames := Push(F20, rest))
    case F20 => s.(frames := rest)
    case F23 => s.(reported := true, frames := Push(F25, rest))
    case F25 => s.(exited := true, frames := Empty)
  }

  function CatcherStep(s: State): State
    requires s.cframes != Empty
  {
    var rest := s.cframes.below;
    match s.cframes.top
    case G11 => s.(caught := s.caught + 1, cframes := Push(G18, rest))
    case G18 => SendBack(s, First).(cframes := Push(G28, rest))
    case G28 => s.(cframes := rest)
    case G39 => SendBack(s, Second).(cframes := Push(G48, rest))
    case G48 => s.(cexited := true, cframes := Empty)
  }

  function Exec(s: State, move: Move): State
    requires Enabled(s, move)
  {
    match move
    case SenderRuns => if s.frames == Empty then MainStep(s) else HandlerStep(s)
    case CatcherRuns => CatcherStep(s)
    case SenderGets(First) => s.(first := s.first - 1, frames := Push(F14, s.frames))
    case SenderGets(Second) => s.(second := s.second - 1, frames := Push(F23, s.frames))
    case CatcherGets(First) => s.(cfirst := s.cfirst - 1, cframes := Push(G11, s.cframes))
    case CatcherGets(Second) => s.(csecond := s.csecond - 1, cframes := Push(G39, s.cframes))
  }

  function Start(n: int, mode: Mode, cmode: Mode): State {
    State(n, mode, cmode, 0, M73, 0, 0, false, Empty, 0, 0, false, false, 0, Empty, 0, 0, false)
  }

  /** A move that is not possible is passed over. */
  function Turn(s: State, move: Move): State {
    if Enabled(s, move) then Exec(s, move) else s
  }

  /** Where a schedule of moves leads. */
  function Scheduled(s: State, schedule: seq<Move>): State {
    if schedule == [] then s else Turn(Scheduled(s, schedule[..|schedule| - 1]), schedule[|schedule| - 1])
  }

  ghost predicate Next(s: State, s': State) {
    exists move :: Enabled(s, move) && s' == Exec(s, move)
  }

  /** Each state follows from the one before by a move. */
  ghost predicate Chained(run: seq<State>) {
    forall k | 0 <= k < |run| - 1 :: Next(run[k], run[k + 1])
  }

  /** Some schedule of as many moves leads through any steps that can be taken. */
  lemma {:induction false} SchedulesReach(run: seq<State>, k: nat) returns (schedule: seq<Move>)
    requires k < |run| && Chained(run)
    ensures |schedule| == k && Scheduled(run[0], schedule) == run[k]
  {
    if k == 0 {
      schedule := [];
    } else {
      schedule := SchedulesReach(run, k - 1);
      schedule := OneMoreMove(run, k - 1, schedule);
    }
  }

  lemma OneMoreMove(run: seq<State>, k: nat, schedule: seq<Move>) returns (longer: seq<Move>)
    requires Chained(run) && k + 1 < |run| && Scheduled(run[0], schedule) == run[k]
    ensures |longer| == |schedule| + 1 && Scheduled(run[0], longer) == run[k + 1]
  {
    var move := StepIsTurn(run, k);
    ScheduleGoesOn(run[0], schedule, move);
    longer := schedule + [move];
  }

  lemma StepIsTurn(run: seq<State>, k: nat) returns (move: Move)
    requires Chained(run) && k + 1 < |run|
    ensures Turn(run[k], move) == run[k + 1]
  {
    assert Next(run[k], run[k + 1]);
    move :| Enabled(run[k], move) && run[k + 1] == Exec(run[k], move);
  }

  lemma ScheduleGoesOn(s: State, schedule: seq<Move>, move: Move)
    ensures Scheduled(s, schedule + [move]) == Turn(Scheduled(s, schedule), move)
  {
    assert (schedule + [move])[..|schedule|] == schedule;
  }

  ghost predicate IsRun(run: seq<State>, n: int, mode: Mode, cmode: Mode) {
    run != [] && run[0] == Start(n, mode, cmode) && Chained(run)
  }

  /** Both programs know their modes, and handle the signals that the other one sends. */
  predicate Fit(mode: Mode, cmode: Mode) {
    mode != Other && cmode != Other && RealTime(mode) == RealTime(cmode)
  }

  // What can happen at any time.

  /** A process that no handler has interrupted, or only one that is not among those given. */
  predicate Outside<F(==)>(frames: Stack<F>, handler: set<F>) {
    frames == Empty || (frames.below == Empty && frames.top !in handler)
  }

  /** A signal that is pending interrupts its process wherever that is, unless its own handler runs. */
  lemma SignalsInterrupt(s: State)
    ensures s.first > 0 && !s.exited && Outside(s.frames, {F14, F15, F20}) ==>
              Next(s, s.(first := s.first - 1, frames := Push(F14, s.frames)))
    ensures s.second > 0 && !s.exited && Outside(s.frames, {F23, F25}) ==>
              Next(s, s.(second := s.second - 1, frames := Push(F23, s.frames)))
    ensures s.cfirst > 0 && !s.cexited && Outside(s.cframes, {G11, G18, G28}) ==>
              Next(s, s.(cfirst := s.cfirst - 1, cframes := Push(G11, s.cframes)))
    ensures s.csecond > 0 && !s.cexited && Outside(s.cframes, {G39, G48}) ==>
              Next(s, s.(csecond := s.csecond - 1, cframes := Push(G39, s.cframes)))
  {
    if s.first > 0 && !s.exited && Outside(s.frames, {F14, F15, F20}) {
      assert Enabled(s, SenderGets(First));
    }
    if s.second > 0 && !s.exited && Outside(s.frames, {F23, F25}) {
      assert Enabled(s, SenderGets(Second));
    }
    if s.cfirst > 0 && !s.cexited && Outside(s.cframes, {G11, G18, G28}) {
      assert Enabled(s, CatcherGets(First));
    }
    if s.csecond > 0 && !s.cexited && Outside(s.cframes, {G39, G48}) {
      assert Enabled(s, CatcherGets(Second));
    }
  }

  /** While a handler runs its own signal waits, also when the other handler has interrupted it. */
  lemma OwnSignalWaits(s: State, f: SFrame, g: CFrame)
    requires s.frames == Push(f, Empty) || (s.frames.Push? && s.frames.below == Push(f, Empty))
    requires s.cframes == Push(g, Empty) || (s.cframes.Push? && s.cframes.below == Push(g, Empty))
    ensures f in {F14, F15, F20} ==> !Enabled(s, SenderGets(First))
    ensures f in {F23, F25} ==> !Enabled(s, SenderGets(Second))
    ensures g in {G11, G18, G28} ==> !Enabled(s, CatcherGets(First))
    ensures g in {G39, G48} ==> !Enabled(s, CatcherGets(Second))
  {
  }

  /** A process goes on in its handlers and in its main, unless the sender waits at 74 or 86 or has come to 101. */
  lemma ProcessesGoOn(s: State)
    ensures !s.exited && s.frames != Empty ==> Next(s, HandlerStep(s))
    ensures !s.exited && s.frames == Empty && s.main != M101 && ((s.main != M74 && s.main != M86) || !s.wait) ==>
              Next(s, MainStep(s))
    ensures !s.cexited && s.cframes != Empty ==> Next(s, CatcherStep(s))
  {
    if !s.exited && (s.frames == Empty ==> MainEnabled(s)) {
      assert Enabled(s, SenderRuns);
    }
    if !s.cexited && s.cframes != Empty {
      assert Enabled(s, CatcherRuns);
    }
  }

  /** Two signals in a row, before the first is received: a standard one is lost, a real-time one is kept. */
  lemma SignalsMerge(s: State)
    requires !s.cexited && s.cfirst == s.csecond == 0 && Fit(s.mode, s.cmode)
    ensures var s' := Send(Send(s, First), First);
      if s.mode == SigRt then s'.cfirst == 2 && s'.lost == s.lost else s'.cfirst == 1 && s'.lost == s.lost + 1
    ensures var s' := Send(Send(s, Second), Second);
      if s.mode == SigRt then s'.csecond == 2 && s'.lost == s.lost else s'.csecond == 1 && s'.lost == s.lost + 1
  {
  }

  lemma AnswersMerge(s: State)
    requires !s.exited && s.first == s.second == 0 && Fit(s.mode, s.cmode)
    ensures var s' := SendBack(SendBack(s, First), First);
      if s.mode == SigRt then s'.first == 2 && s'.lost == s.lost else s'.first == 1 && s'.lost == s.lost + 1
    ensures var s' := SendBack(SendBack(s, Second), Second);
      if s.mode == SigRt then s'.second == 2 && s'.lost == s.lost else s'.second == 1 && s'.lost == s.lost + 1
  {
  }

  /** A signal for which the receiver has no handler ends it, unless it is a real-time one, which the catcher blocks. */
  lemma SignalsUnhandled(s: State, sig: Sig)
    requires !s.cexited && !s.exited && (s.mode == SigRt <==> s.cmode != SigRt)
    ensures s.mode == SigRt ==> Send(s, sig) == s
    ensures s.mode == Kill || s.mode == SigQueue ==> Send(s, sig).cexited && Send(s, sig).cframes == Empty
    ensures s.cmode == Kill || s.cmode == SigQueue || s.cmode == SigRt ==>
              SendBack(s, sig).exited && SendBack(s, sig).frames == Empty
  {
  }

  // The invariant: one signal is under way, and it is somewhere.

  function One(b: bool): nat {
    if b then 1 else 0
  }

  predicate Idle(s: State) { s.frames == Empty }
  predicate At(s: State, f: SFrame) { s.frames == Push(f, Empty) }
  predicate CAt(s: State, f: CFrame) { s.cframes == Push(f, Empty) || s.cframes == Push(f, Push(G28, Empty)) }

  /** The handlers never nest deeper than handler2 of the catcher on the end of its handler1. */
  predicate Shapes(s: State) {
    && (Idle(s) || At(s, F14) || At(s, F15) || At(s, F20) || At(s, F23) || At(s, F25))
    && (s.cframes == Empty || s.cframes == Push(G11, Empty) || s.cframes == Push(G18, Empty)
        || s.cframes == Push(G28, Empty) || CAt(s, G39) || CAt(s, G48))
  }

  /** The acknowledged signal, on its way there and back; if it is nowhere the sender may send. */
  function Token(s: State): nat {
    One(!s.wait) + One(s.main == M77)
    + s.cfirst + One(s.cframes == Push(G11, Empty)) + One(s.cframes == Push(G18, Empty)) + s.first
    + One(At(s, F14)) + One(At(s, F15))
  }

  /** The closing signal, once sent: on its way there, answered, received or over. */
  function Closing(s: State): nat {
    s.csecond + One(CAt(s, G39)) + s.second + One(At(s, F23)) + One(At(s, F25)) + One(s.exited)
  }

  predicate Counts(s: State) {
    && s.count >= 0
    && s.i == s.caught + s.cfirst + One(s.cframes == Push(G11, Empty))
    && s.caught == s.count + One(s.cframes == Push(G18, Empty)) + s.first + One(At(s, F14))
  }

  predicate Loop(s: State) {
    match s.main
    case M73 => 0 <= s.i <= s.n
    case M74 => 0 <= s.i < s.n
    case M75 => 0 <= s.i < s.n && !s.wait
    case M77 => 0 <= s.i < s.n && s.wait
    case M86 => s.i == s.n
    case M92 => s.i == s.n && !s.wait
    case M101 => s.i == s.n && !s.wait
  }


  predicate Inv(s: State) {
    && Fit(s.mode, s.cmode) && s.lost == 0
    && Shapes(s) && Counts(s) && Loop(s)
    && Token(s) == 1
    && Closing(s) == One(s.main == M101)
    && (s.cexited || CAt(s, G48) ==> s.main == M101 && s.csecond == 0 && !CAt(s, G39))
    && (s.cexited ==> s.cframes == Empty)
    && (s.second > 0 || At(s, F23) || At(s, F25) || s.exited ==> s.cexited || CAt(s, G48))
    && (s.exited ==> Idle(s))
    && (At(s, F25) || s.exited ==> s.reported)
    && (At(s, F14) || At(s, F15) || At(s, F20) ==> s.main != M101)
    && (s.reported ==> At(s, F25) || s.exited)
    && (At(s, F20) ==> !s.wait)
  }

  lemma StartInv(n: int, mode: Mode, cmode: Mode)
    requires n >= 0 && Fit(mode, cmode)
    ensures Inv(Start(n, mode, cmode))
  {
  }

  lemma MainInv(s: State)
    requires Inv(s) && Enabled(s, SenderRuns) && s.frames == Empty
    ensures Inv(Exec(s, SenderRuns))
  {
  }

  lemma HandlerInv(s: State)
    requires Inv(s) && Enabled(s, SenderRuns) && s.frames != Empty
    ensures Inv(Exec(s, SenderRuns))
  {
  }

  lemma CatcherInv(s: State, f: CFrame)
    requires Inv(s) && Enabled(s, CatcherRuns) && s.cframes.top == f
    ensures Inv(Exec(s, CatcherRuns))
  {
  }

  lemma SenderGetsInv(s: State, sig: Sig)
    requires Inv(s) && Enabled(s, SenderGets(sig))
    ensures Inv(Exec(s, SenderGets(sig)))
  {
  }

  lemma CatcherGetsInv(s: State, sig: Sig)
    requires Inv(s) && Enabled(s, CatcherGets(sig))
    ensures Inv(Exec(s, CatcherGets(sig)))
  {
  }

  lemma StepInv(s: State, move: Move)
    requires Inv(s) && Enabled(s, move)
    ensures Inv(Exec(s, move))
  {
    match move
    case SenderRuns =>
      if s.frames == Empty {
        MainInv(s);
      } else {
        HandlerInv(s);
      }
    case CatcherRuns =>
      CatcherInv(s, s.cframes.top);
    case SenderGets(sig) => SenderGetsInv(s, sig);
    case CatcherGets(sig) => CatcherGetsInv(s, sig);
  }

  lemma ExecKeeps(s: State, move: Move)
    requires Enabled(s, move)
    ensures Exec(s, move).n == s.n && Exec(s, move).mode == s.mode && Exec(s, move).cmode == s.cmode
  {
  }

  // Modes that do not fit: the sender gets no answer, and never sends a second signal.

  predicate LoneSender(s: State) {
    match s.main
    case M73 => s.i == One(s.wait) && s.i <= s.n
    case M74 => s.i == One(s.wait) && s.i < s.n
    case M75 => s.i == 0 < s.n && !s.wait
    case M77 => s.i == 0 < s.n && s.wait
    case M86 => s.i == One(s.wait) == s.n
    case M92 => s.i == 0 == s.n && !s.wait
    case M101 => s.i == 0 == s.n && !s.wait
  }

  /** What the catcher does about the one signal that has been sent, if it is one that it handles. */
  predicate LoneCatcher(s: State) {
    && s.caught >= 0
    && s.caught + s.cfirst + One(s.cframes == Push(G11, Empty)) <= s.i
    && s.csecond + One(s.cframes == Push(G39, Empty)) + One(s.cframes == Push(G48, Empty)) <= One(s.main == M101)
    && (s.cframes == Push(G18, Empty) || s.cframes == Push(G28, Empty) ==> s.caught > 0)
    && (s.cframes == Empty || s.cframes == Push(G11, Empty) || s.cframes == Push(G18, Empty)
        || s.cframes == Push(G28, Empty) || s.cframes == Push(G39, Empty) || s.cframes == Push(G48, Empty))
    && (s.cframes != Empty || s.cfirst > 0 || s.csecond > 0 ==> s.cmode == Other)
    && (s.cexited ==> s.cframes == Empty)
  }

  predicate Lone(s: State) {
    && !Fit(s.mode, s.cmode) && s.n >= 0 && s.lost == 0
    && s.frames == Empty && s.first == 0 && s.second == 0 && !s.exited && !s.reported && s.count == 0
    && LoneSender(s) && LoneCatcher(s)
  }

  lemma LoneMainInv(s: State)
    requires Lone(s) && Enabled(s, SenderRuns)
    ensures Lone(Exec(s, SenderRuns))
  {
  }

  lemma LoneCatcherInv(s: State)
    requires Lone(s) && Enabled(s, CatcherRuns)
    ensures Lone(Exec(s, CatcherRuns))
  {
  }

  lemma LoneGetsInv(s: State, sig: Sig)
    requires Lone(s) && Enabled(s, CatcherGets(sig))
    ensures Lone(Exec(s, CatcherGets(sig)))
  {
  }

  /** What every state of every run satisfies, whatever the modes. */
  predicate AnyInv(s: State) {
    Inv(s) || Lone(s)
  }

  lemma AnyStepInv(s: State, move: Move)
    requires AnyInv(s) && Enabled(s, move)
    ensures AnyInv(Exec(s, move))
  {
    if Inv(s) {
      StepInv(s, move);
    } else {
      match move
      case SenderRuns => LoneMainInv(s);
      case CatcherRuns => LoneCatcherInv(s);
      case CatcherGets(sig) => LoneGetsInv(s, sig);
      case SenderGets(_) => assert false;
    }
  }

  lemma AnyStartInv(n: int, mode: Mode, cmode: Mode)
    requires n >= 0
    ensures AnyInv(Start(n, mode, cmode))
  {
    if Fit(mode, cmode) {
      StartInv(n, mode, cmode);
    }
  }

  ghost predicate CanMove(s: State) {
    exists move :: Enabled(s, move)
  }

  lemma {:induction false} RunInv(run: seq<State>, n: int, mode: Mode, cmode: Mode, k: nat)
    requires IsRun(run, n, mode, cmode) && n >= 0 && k < |run|
    ensures AnyInv(run[k]) && run[k].n == n && run[k].mode == mode && run[k].cmode == cmode
    ensures Fit(mode, cmode) ==> Inv(run[k])
  {
    if k == 0 {
      AnyStartInv(n, mode, cmode);
    } else {
      RunInv(run, n, mode, cmode, k - 1);
      assert Next(run[k - 1], run[k - 1 + 1]);
      var move :| Enabled(run[k - 1], move) && run[k] == Exec(run[k - 1], move);
      AnyStepInv(run[k - 1], move);
      ExecKeeps(run[k - 1], move);
    }
  }

  /**
   Whatever the modes, no signal is ever merged into one that is pending, and when the
   sender's last handler reports, both processes have counted exactly n signals.
   */
  lemma NoSignalIsLost(run: seq<State>, n: int, mode: Mode, cmode: Mode, k: nat)
    requires IsRun(run, n, mode, cmode) && n >= 0 && k < |run|
    ensures run[k].lost == 0
    ensures run[k].first <= 1 && run[k].second <= 1 && run[k].cfirst <= 1 && run[k].csecond <= 1
    ensures At(run[k], F23) || run[k].reported ==> run[k].count == run[k].caught == n
    ensures 0 <= run[k].count <= run[k].caught <= run[k].i <= n && run[k].i <= run[k].count + 1
  {
    RunInv(run, n, mode, cmode, k);
  }

  /**
   In every run between fitting programs a pending acknowledgement, or closing signal, interrupts
   the sender at whatever statement of its main it is; the catcher is interrupted by the closing
   signal also at the end of its first handler, and by any other signal once that has ended.
   */
  lemma PendingInterrupts(run: seq<State>, n: int, mode: Mode, cmode: Mode, k: nat)
    requires IsRun(run, n, mode, cmode) && n >= 0 && Fit(mode, cmode) && k < |run|
    ensures var s := run[k];
      && (s.first > 0 ==> Next(s, s.(first := 0, frames := Push(F14, Empty))))
      && (s.second > 0 ==> Next(s, s.(second := 0, frames := Push(F23, Empty))))
      && (s.csecond > 0 ==> (s.cframes == Empty || s.cframes == Push(G28, Empty))
                            && Next(s, s.(csecond := 0, cframes := Push(G39, s.cframes))))
      && (s.cfirst > 0 ==> if s.cframes == Empty then Next(s, s.(cfirst := 0, cframes := Push(G11, Empty)))
                           else Next(s, s.(cframes := Empty)))
  {
    RunInv(run, n, mode, cmode, k);
    var s := run[k];
    assert s.first > 0 ==> s.first == 1 && s.frames == Empty && !s.exited;
    assert s.second > 0 ==> s.second == 1 && s.frames == Empty && !s.exited;
    SignalsInterrupt(s);
    ProcessesGoOn(s);
  }

  /** The first acknowledgement can be received before the sender tests its loop again, as well as while it waits. */
  lemma InterruptsTheTest(n: int, mode: Mode, cmode: Mode) returns (run: seq<State>)
    requires n >= 1 && Fit(mode, cmode)
    ensures IsRun(run, n, mode, cmode)
    ensures var s := run[|run| - 1];
      s.main == M73 && s.i == 1 && s.wait && s.count == 0 && s.frames == Push(F14, Empty)
  {
    var s0 := Start(n, mode, cmode);
    var s1 := s0.(main := M74);
    var s2 := s0.(main := M75);
    var s3 := s0.(main := M77, wait := true);
    var s4 := s3.(main := M73, i := 1, cfirst := 1);
    var s5 := s4.(cfirst := 0, cframes := Push(G11, Empty));
    var s6 := s5.(caught := 1, cframes := Push(G18, Empty));
    var s7 := s6.(first := 1, cframes := Push(G28, Empty));
    var s8 := s7.(first := 0, frames := Push(F14, Empty));
    run := [s0, s1, s2, s3, s4, s5, s6, s7, s8];
    assert s1 == Exec(s0, SenderRuns) && s2 == Exec(s1, SenderRuns) && s3 == Exec(s2, SenderRuns);
    assert s4 == Exec(s3, SenderRuns) && s5 == Exec(s4, CatcherGets(First)) && s6 == Exec(s5, CatcherRuns);
    assert s7 == Exec(s6, CatcherRuns) && s8 == Exec(s7, SenderGets(First));
    assert Next(s0, s1) && Next(s1, s2) && Next(s2, s3) && Next(s3, s4);
    assert Next(s4, s5) && Next(s5, s6) && Next(s6, s7) && Next(s7, s8);
  }

  // Progress.

  function Phase(main: Main): int {
    match main
    case M73 => 10
    case M74 => 9
    case M75 => 8
    case M77 => 7
    case M86 => 9
    case M92 => 8
    case M101 => 0
  }

  function FrameWork(frames: Stack<SFrame>): nat {
    match frames
    case Push(F14, Empty) => 3
    case Push(F15, Empty) => 2
    case Push(F20, Empty) => 1
    case Push(F23, Empty) => 3
    case Push(F25, Empty) => 2
    case _ => 0
  }

  function CFrameWork(frames: Stack<CFrame>): nat {
    match frames
    case Push(G11, Empty) => 7
    case Push(G18, Empty) => 6
    case Push(G28, Empty) => 1
    case Push(G39, Empty) => 6
    case Push(G39, Push(G28, Empty)) => 6
    case Push(G48, Empty) => 1
    case Push(G48, Push(G28, Empty)) => 1
    case _ => 0
  }

  /** A bound on the steps that are left: twelve for every signal not yet sent, and those of the phase reached. */
  function Work(s: State): int {
    12 * (s.n - s.i) + Phase(s.main) + 8 * s.cfirst + 4 * s.first + 7 * s.csecond + 4 * s.second
    + FrameWork(s.frames) + CFrameWork(s.cframes)
  }

  lemma MainWorks(s: State)
    requires Inv(s) && Enabled(s, SenderRuns) && s.frames == Empty
    ensures Work(Exec(s, SenderRuns)) < Work(s)
  {
  }

  lemma HandlerWorks(s: State)
    requires Inv(s) && Enabled(s, SenderRuns) && s.frames != Empty
    ensures Work(Exec(s, SenderRuns)) < Work(s)
  {
  }

  lemma CatcherWorks(s: State, f: CFrame)
    requires Inv(s) && Enabled(s, CatcherRuns) && s.cframes.top == f
    ensures Work(Exec(s, CatcherRuns)) < Work(s)
  {
  }

  lemma DeliveryWorks(s: State, move: Move)
    requires Inv(s) && Enabled(s, move) && (move.SenderGets? || move.CatcherGets?)
    ensures Work(Exec(s, move)) < Work(s)
  {
  }

  /** Every step of whatever process brings the end nearer. */
  lemma StepWorks(s: State, move: Move)
    requires Inv(s) && Enabled(s, move)
    ensures 0 <= Work(Exec(s, move)) < Work(s)
  {
    StepInv(s, move);
    match move
    case SenderRuns =>
      if s.frames == Empty {
        MainWorks(s);
      } else {
        HandlerWorks(s);
      }
    case CatcherRuns => CatcherWorks(s, s.cframes.top);
    case SenderGets(_) => DeliveryWorks(s, move);
    case CatcherGets(_) => DeliveryWorks(s, move);
  }

  lemma LoneWorks(s: State, move: Move)
    requires Lone(s) && Enabled(s, move)
    ensures Work(Exec(s, move)) < Work(s)
  {
  }

  lemma LoneWorkNatural(s: State)
    requires Lone(s)
    ensures Work(s) >= 0
  {
  }

  lemma AnyStepWorks(s: State, move: Move)
    requires AnyInv(s) && Enabled(s, move)
    ensures 0 <= Work(Exec(s, move)) < Work(s)
  {
    if Inv(s) {
      StepWorks(s, move);
    } else {
      LoneWorks(s, move);
      AnyStepInv(s, move);
      LoneWorkNatural(Exec(s, move));
    }
  }

  /** Both processes have ended. */
  predicate Final(s: State) {
    s.exited && s.cexited
  }

  lemma NotFinalMoves(s: State) returns (move: Move)
    requires Inv(s) && !Final(s)
    ensures Enabled(s, move)
  {
    if s.frames != Empty {
      move := SenderRuns;
    } else if s.cframes != Empty {
      move := CatcherRuns;
    } else if s.cfirst > 0 {
      move := CatcherGets(First);
    } else if s.csecond > 0 {
      move := CatcherGets(Second);
    } else if s.first > 0 {
      move := SenderGets(First);
    } else if s.second > 0 {
      move := SenderGets(Second);
    } else {
      move := SenderRuns;
    }
  }

  lemma NextWorks(s: State, s': State)
    requires AnyInv(s) && Next(s, s')
    ensures 0 <= Work(s') < Work(s)
  {
    var move :| Enabled(s, move) && s' == Exec(s, move);
    AnyStepWorks(s, move);
  }

  lemma {:induction false} Descends(run: seq<State>, k: nat)
    requires k < |run| && forall j | 0 <= j < |run| - 1 :: Work(run[j + 1]) < Work(run[j])
    ensures Work(run[k]) + k <= Work(run[0])
  {
    if k > 0 {
      Descends(run, k - 1);
      assert Work(run[k - 1 + 1]) < Work(run[k - 1]);
    }
  }

  /** Whatever the modes, a run takes at most twelve steps for each signal and ten more. */
  lemma RunsAreShort(run: seq<State>, n: int, mode: Mode, cmode: Mode, k: nat)
    requires IsRun(run, n, mode, cmode) && n >= 0 && k < |run|
    ensures Work(run[k]) + k <= 12 * n + 10
  {
    forall j | 0 <= j < |run| - 1
      ensures Work(run[j + 1]) < Work(run[j])
    {
      RunInv(run, n, mode, cmode, j);
      NextWorks(run[j], run[j + 1]);
    }
    Descends(run, k);
  }

  /**
   However the two processes are scheduled and interrupted, a run that cannot be
   continued has ended both of them, with all n signals counted by both.
   */
  lemma RunsEndWell(run: seq<State>, n: int, mode: Mode, cmode: Mode)
    requires IsRun(run, n, mode, cmode) && n >= 0 && Fit(mode, cmode)
    ensures |run| - 1 <= 12 * n + 10
    ensures CanMove(run[|run| - 1]) ||
            (Final(run[|run| - 1]) && run[|run| - 1].count == run[|run| - 1].caught == n)
  {
    var last := run[|run| - 1];
    RunInv(run, n, mode, cmode, |run| - 1);
    RunsAreShort(run, n, mode, cmode, |run| - 1);
    assert Work(last) >= 0;
    if !Final(last) {
      var move := NotFinalMoves(last);
    } else {
      NoSignalIsLost(run, n, mode, cmode, |run| - 1);
    }
  }

  // Modes that do not fit.

  /** The sender waits for an acknowledgement that nobody is to send. */
  ghost predicate Stalled(s: State) {
    !CanMove(s) && !s.exited
  }

  /** The sender has sent one signal and waits. */
  lemma FirstSent(n: int, mode: Mode, cmode: Mode) returns (run: seq<State>)
    requires n >= 1
    ensures IsRun(run, n, mode, cmode)
    ensures run[|run| - 1] ==
            Send(Start(n, mode, cmode).(wait := true), First).(main := if 1 < n then M74 else M86, i := 1)
  {
    var s0 := Start(n, mode, cmode);
    var s1 := s0.(main := M74);
    var s2 := s0.(main := M75);
    var s3 := s0.(main := M77, wait := true);
    var s4 := Send(s3, First).(main := M73, i := 1);
    var s5 := s4.(main := if 1 < n then M74 else M86);
    run := [s0, s1, s2, s3, s4, s5];
    assert s1 == Exec(s0, SenderRuns) && s2 == Exec(s1, SenderRuns) && s3 == Exec(s2, SenderRuns);
    assert s4 == Exec(s3, SenderRuns) && s5 == Exec(s4, SenderRuns);
    assert Next(s0, s1) && Next(s1, s2) && Next(s2, s3) && Next(s3, s4) && Next(s4, s5);
  }

  lemma RunGoesOn(run: seq<State>, n: int, mode: Mode, cmode: Mode, s: State)
    requires IsRun(run, n, mode, cmode) && Next(run[|run| - 1], s)
    ensures IsRun(run + [s], n, mode, cmode)
  {
    var longer := run + [s];
    forall k | 0 <= k < |longer| - 1
      ensures Next(longer[k], longer[k + 1])
    {
      if k < |run| - 1 {
        assert Next(run[k], run[k + 1]);
      }
    }
  }

  /**
   A sender in an unknown mode sends nothing, and a signal that the catcher blocks or that ends it is
   not answered.
   */
  lemma UnansweredStalls(n: int, mode: Mode, cmode: Mode) returns (run: seq<State>)
    requires n >= 1 && (mode == Other || RealTime(mode) != RealTime(cmode))
    ensures IsRun(run, n, mode, cmode) && Stalled(run[|run| - 1])
  {
    run := FirstSent(n, mode, cmode);
  }

  /** A catcher in an unknown mode counts a signal and does not acknowledge it. */
  lemma UnacknowledgedStalls(n: int, mode: Mode) returns (run: seq<State>)
    requires n >= 1 && (mode == Kill || mode == SigQueue)
    ensures IsRun(run, n, mode, Other) && Stalled(run[|run| - 1])
  {
    run := FirstSent(n, mode, Other);
    var s5 := run[|run| - 1];
    var s6 := s5.(cfirst := 0, cframes := Push(G11, Empty));
    assert s6 == Exec(s5, CatcherGets(First));
    RunGoesOn(run, n, mode, Other, s6);
    run := CatcherOnlyCounts(run + [s6], n, mode);
  }

  lemma CatcherOnlyCounts(run: seq<State>, n: int, mode: Mode) returns (longer: seq<State>)
    requires IsRun(run, n, mode, Other)
    requires var s := run[|run| - 1]; s.cmode == Other && s.cframes == Push(G11, Empty) && !s.cexited && !s.exited
    requires var s := run[|run| - 1]; s.wait && (s.main == M74 || s.main == M86) && s.frames == Empty
    requires var s := run[|run| - 1]; s.first == s.second == s.cfirst == s.csecond == 0
    ensures IsRun(longer, n, mode, Other) && Stalled(longer[|longer| - 1])
  {
    var s6 := run[|run| - 1];
    var s7 := s6.(caught := s6.caught + 1, cframes := Push(G18, Empty));
    assert s7 == Exec(s6, CatcherRuns);
    RunGoesOn(run, n, mode, Other, s7);
    var s8 := s7.(cframes := Push(G28, Empty));
    assert s8 == Exec(s7, CatcherRuns);
    RunGoesOn(run + [s7], n, mode, Other, s8);
    var s9 := s8.(cframes := Empty);
    assert s9 == Exec(s8, CatcherRuns);
    RunGoesOn(run + [s7] + [s8], n, mode, Other, s9);
    longer := run + [s7] + [s8] + [s9];
  }

  /** A run that cannot be continued has ended both processes with all signals counted by both. */
  ghost predicate EndsWell(s: State) {
    CanMove(s) || (Final(s) && s.count == s.caught == s.n)
  }

  /** All runs end well if and only if both modes are known and both programs use the same kind of signals. */
  lemma RunsEndWellIff(n: int, mode: Mode, cmode: Mode)
    requires n >= 1
    ensures (forall run | IsRun(run, n, mode, cmode) :: EndsWell(run[|run| - 1])) <==> Fit(mode, cmode)
  {
    if Fit(mode, cmode) {
      forall run | IsRun(run, n, mode, cmode)
        ensures EndsWell(run[|run| - 1])
      {
        RunsEndWell(run, n, mode, cmode);
        RunInv(run, n, mode, cmode, |run| - 1);
      }
    } else {
      var run;
      if mode == Other || RealTime(mode) != RealTime(cmode) {
        run := UnansweredStalls(n, mode, cmode);
      } else {
        run := UnacknowledgedStalls(n, mode);
      }
      assert IsRun(run, n, mode, cmode) && !EndsWell(run[|run| - 1]);
    }
  }
}
