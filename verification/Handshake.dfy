/** The two processes of the acknowledged signals, with their globals and handlers changed in place. */
module Handshake {
  import opened Signals

  class Link {
    // The sender.
    const signalsNumber: int
    const mode: Mode
    var main: Main
    var i: int
    var count: int
    var wait: bool
    var frames: Stack<SFrame>
    var exited: bool
    ghost var reported: bool
    // The catcher.
    const cmode: Mode
    var caught: int
    var cframes: Stack<CFrame>
    var cexited: bool
    // Pending signals.
    var first: nat
    var second: nat
    var cfirst: nat
    var csecond: nat
    ghost var lost: nat

    ghost function View(): State
      reads this
    {
      State(signalsNumber, mode, cmode, lost, main, i, count, wait, frames, first, second, exited, reported,
            caught, cframes, cfirst, csecond, cexited)
    }

    constructor (n: int, mode: Mode, cmode: Mode)
      ensures View() == Start(n, mode, cmode)
      ensures main == M73 && i == count == caught == 0 && !wait && !exited && !cexited
      ensures frames == Empty && cframes == Empty && first == second == cfirst == csecond == 0
    {
      signalsNumber, this.mode, this.cmode := n, mode, cmode;
      main, i, count, wait, frames, exited, reported := M73, 0, 0, false, Empty, false, false;
      caught, cframes, cexited := 0, Empty, false;
      first, second, cfirst, csecond, lost := 0, 0, 0, 0, 0;
    }

    /** kill or sigqueue, from the sender to the catcher. */
    method ToCatcher(sig: Sig)
      modifies this`cfirst, this`csecond, this`cexited, this`cframes, this`lost
      ensures View() == Send(old(View()), sig)
    {
      if mode != Other && !cexited {
        if RealTime(mode) != RealTime(cmode) {
          if RealTime(cmode) {
            cexited := true;
            cframes := Empty;
          }
        } else if sig == First {
          lost := lost + Loss(mode, cfirst);
          cfirst := Pend(mode, cfirst);
        } else {
          lost := lost + Loss(mode, csecond);
          csecond := Pend(mode, csecond);
        }
      }
    }

    /** kill or sigqueue, from the catcher to the sender. */
    method ToSender(sig: Sig)
      modifies this`first, this`second, this`exited, this`frames, this`lost
      ensures View() == SendBack(old(View()), sig)
    {
      if cmode != Other && !exited {
        if RealTime(mode) != RealTime(cmode) {
          exited := true;
          frames := Empty;
        } else if sig == First {
          lost := lost + Loss(cmode, first);
          first := Pend(cmode, first);
        } else {
          lost := lost + Loss(cmode, second);
          second := Pend(cmode, second);
        }
      }
    }

    /** The sender's main executes one statement. */
    method RunMain()
      requires Enabled(View(), SenderRuns) && frames == Empty
      modifies this
      ensures View() == Exec(old(View()), SenderRuns)
    {
      match main
      case M73 => main := if i < signalsNumber then M74 else M86;
      case M74 => main := M75;
      case M75 =>
        wait := true;
        main := M77;
      case M77 =>
        ToCatcher(First);
        i := i + 1;
        main := M73;
      case M86 => main := M92;
      case M92 =>
        ToCatcher(Second);
        main := M101;
    }

    /** The sender's innermost handler executes one statement. */
    method RunHandler()
      requires Enabled(View(), SenderRuns) && frames != Empty
      modifies this
      ensures View() == Exec(old(View()), SenderRuns)
    {
      var rest := frames.below;
      match frames.top
      case F14 =>
        count := count + 1;
        frames := Push(F15, rest);
      case F15 =>
        wait := false;
        frames := Push(F20, rest);
      case F20 => frames := rest;
      case F23 =>
        reported := true;
        frames := Push(F25, rest);
      case F25 =>
        exited := true;
        frames := Empty;
    }

    /** The catcher's innermost handler executes one statement. */
    method RunCatcher()
      requires Enabled(View(), CatcherRuns)
      modifies this
      ensures View() == Exec(old(View()), CatcherRuns)
    {
      var rest := cframes.below;
      match cframes.top
      case G11 =>
        caught := caught + 1;
        cframes := Push(G18, rest);
      case G18 =>
        ToSender(First);
        cframes := Push(G28, rest);
      case G28 => cframes := rest;
      case G39 =>
        ToSender(Second);
        cframes := Push(G48, rest);
      case G48 =>
        cexited := true;
        cframes := Empty;
    }

    /** A pending signal interrupts its process. */
    method Deliver(move: Move)
      requires Enabled(View(), move) && (move.SenderGets? || move.CatcherGets?)
      modifies this
      ensures View() == Exec(old(View()), move)
    {
      match move
      case SenderGets(First) =>
        first := first - 1;
        frames := Push(F14, frames);
      case SenderGets(Second) =>
        second := second - 1;
        frames := Push(F23, frames);
      case CatcherGets(First) =>
        cfirst := cfirst - 1;
        cframes := Push(G11, cframes);
      case CatcherGets(Second) =>
        csecond := csecond - 1;
        cframes := Push(G39, cframes);
    }

    method Step(move: Move)
      requires Enabled(View(), move)
      modifies this
      ensures View() == Exec(old(View()), move)
    {
      match move
      case SenderRuns =>
        if frames == Empty {
          RunMain();
        } else {
          RunHandler();
        }
      case CatcherRuns => RunCatcher();
      case _ => Deliver(move);
    }

    /** Whether a move is possible. */
    method Allows(move: Move) returns (ok: bool)
      ensures ok == Enabled(View(), move)
    {
      match move
      case SenderRuns =>
        ok := !exited && (frames != Empty || (main != M101 && (!wait || (main != M74 && main != M86))));
      case CatcherRuns =>
        ok := !cexited && cframes != Empty;
      case SenderGets(sig) =>
        ok := !exited && !Blocked(frames, sig) && (if sig == First then first else second) > 0;
      case CatcherGets(sig) =>
        ok := !cexited && !CBlocked(cframes, sig) && (if sig == First then cfirst else csecond) > 0;
    }

    /**
     Both processes under a schedule; moves that are not possible are passed over. The states
     are a run of the state machine, and if in the end no move is possible and the modes fit,
     all is well.
     */
    method Run(schedule: seq<Move>) returns (ghost run: seq<State>)
      requires AnyInv(View())
      modifies this
      ensures run != [] && run[0] == old(View()) && run[|run| - 1] == View()
      ensures forall k | 0 <= k < |run| - 1 :: Next(run[k], run[k + 1])
      ensures View() == Scheduled(old(View()), schedule)
      ensures AnyInv(View()) && lost == 0
      ensures !CanMove(View()) && Fit(mode, cmode) ==> exited && cexited && count == caught == signalsNumber
    {
      run := [View()];
      for k := 0 to |schedule|
        invariant AnyInv(View()) && View() == Scheduled(old(View()), schedule[..k])
        invariant run != [] && run[0] == old(View()) && run[|run| - 1] == View()
        invariant forall k | 0 <= k < |run| - 1 :: Next(run[k], run[k + 1])
      {
        assert schedule[..k + 1][..k] == schedule[..k];
        var ok := Allows(schedule[k]);
        if ok {
          AnyStepInv(View(), schedule[k]);
          Step(schedule[k]);
          assert Next(run[|run| - 1], View());
          run := run + [View()];
        }
      }
      assert schedule[..|schedule|] == schedule;
      if Fit(mode, cmode) && !Final(View()) {
        ghost var move := NotFinalMoves(View());
      }
    }
  }
}
