/** One client of tic-tac-toe, with its board changed in place. */
module Player {
  import opened Board
  import opened Game

  /** The last of the first n columns that one symbol fills. */
  function LastColumn(b: Board, n: nat): Object
    requires |b.objects| == 9 && n <= 3
  {
    if n == 0 then Free else Or(LineAt(b, n - 1, n + 2, n + 5), LastColumn(b, n - 1))
  }

  function LastRow(b: Board, n: nat): Object
    requires |b.objects| == 9 && n <= 3
  {
    if n == 0 then Free else Or(LineAt(b, 3 * n - 3, 3 * n - 2, 3 * n - 1), LastRow(b, n - 1))
  }

  /** The loops of check_winner find what Winner says. */
  lemma LoopsFindWinner(b: Board)
    requires |b.objects| == 9
    ensures Winner(b) == Or(Or(LastColumn(b, 3), LastRow(b, 3)), Or(LineAt(b, 0, 4, 8), LineAt(b, 2, 4, 6)))
  {
    assert LastColumn(b, 1) == LineAt(b, 0, 3, 6) && LastColumn(b, 2) == Or(LineAt(b, 1, 4, 7), LastColumn(b, 1));
    assert LastRow(b, 1) == LineAt(b, 0, 1, 2) && LastRow(b, 2) == Or(LineAt(b, 3, 4, 5), LastRow(b, 1));
    assert LastColumn(b, 3) == Or(LineAt(b, 2, 5, 8), Or(LineAt(b, 1, 4, 7), LineAt(b, 0, 3, 6)));
    assert LastRow(b, 3) == Or(LineAt(b, 6, 7, 8), Or(LineAt(b, 3, 4, 5), LineAt(b, 0, 1, 2)));
  }

  class Process {
    const objects: array<Object>
    var move: bool
    var state: Phase
    var ending: bool
    var arg: int
    var isClientO: bool
    var verdict: Verdict

    ghost function BoardView(): Board
      reads this, objects
    {
      Board(move, objects[..])
    }

    ghost function View(): Client
      reads this, objects
    {
      Client(BoardView(), state, ending, arg, verdict)
    }

    ghost function Me(): Symbol
      reads this
    {
      if isClientO then O else X
    }

    ghost predicate Valid()
      reads this
    {
      objects.Length == 9
    }

    /** new_board, for the symbol that the server announces. */
    constructor (asO: bool)
      ensures Valid() && fresh(objects) && isClientO == asO
      ensures View() == if asO then Start().o else Start().x
    {
      objects := new Object[9](_ => Free);
      move, isClientO := true, asO;
      state, ending, arg, verdict := if asO then Moving else WaitingForMove, false, 0, Undecided;
      new;
      assert objects[..] == NewBoard().objects;
    }

    /**
     move: refuses a square that is not on the board or not free. Its bound lets 9
     pass, which is not a square; callers must not ask for it.
     */
    method Move(position: int) returns (ok: bool)
      requires Valid() && position != 9
      modifies this`move, objects
      ensures Valid() && ok == Legal(old(BoardView()), position)
      ensures BoardView() == if ok then Put(old(BoardView()), position) else old(BoardView())
      ensures ok <==> 0 <= position < 9 && old(objects[..])[position] == Free
      ensures ok ==> objects[..] == old(objects[..])[position := if old(move) then O else X] && move != old(move)
    {
      if position < 0 || position > 9 || objects[position] != Free {
        return false;
      }
      objects[position] := if move then O else X;
      move := !move;
      ok := true;
    }

    /** The first loop of check_winner. */
    method FindColumn() returns (column: Object)
      requires Valid()
      ensures column == LastColumn(BoardView(), 3)
    {
      ghost var b := BoardView();
      column := Free;
      for x := 0 to 3
        invariant column == LastColumn(b, x)
      {
        if objects[x] == objects[x + 3] && objects[x] == objects[x + 6] && objects[x] != Free {
          column := objects[x];
        }
      }
    }

    /** The second loop of check_winner. */
    method FindRow() returns (row: Object)
      requires Valid()
      ensures row == LastRow(BoardView(), 3)
    {
      ghost var b := BoardView();
      row := Free;
      for y := 0 to 3
        invariant row == LastRow(b, y)
      {
        if objects[3 * y] == objects[3 * y + 1] && objects[3 * y] == objects[3 * y + 2] && objects[3 * y] != Free {
          row := objects[3 * y];
        }
      }
    }

    /** check_winner */
    method CheckWinner() returns (winner: Object)
      requires Valid()
      ensures winner == Winner(BoardView())
    {
      LoopsFindWinner(BoardView());
      winner := FindColumn();
      if winner != Free {
        return;
      }
      winner := FindRow();
      if winner != Free {
        return;
      }
      if objects[0] == objects[4] && objects[0] == objects[8] && objects[0] != Free {
        return objects[0];
      }
      if objects[2] == objects[4] && objects[2] == objects[6] && objects[2] != Free {
        winner := objects[2];
      }
    }

    /** The loop of check_game that looks for a free square. */
    method IsFull() returns (full: bool)
      requires Valid()
      ensures full == Full(BoardView())
    {
      full := true;
      for i := 0 to 9
        invariant full
        invariant forall j | 0 <= j < i :: objects[j] != Free
      {
        if objects[i] == Free {
          assert BoardView().objects[i] == Free;
          return false;
        }
      }
    }

    /** check_game, followed by what its caller does if the game goes on. */
    method Check(otherwise: Phase)
      requires Valid()
      modifies this`state, this`verdict
      ensures View() == CheckGame(old(View()), Me(), otherwise)
      ensures verdict == Win ==> HasLine(BoardView(), Me())
      ensures verdict == Lost ==> HasLine(BoardView(), Other(Me()))
      ensures verdict == Win || verdict == Lost <==> HasLine(BoardView(), O) || HasLine(BoardView(), X)
      ensures verdict == Draw <==> Full(BoardView()) && !HasLine(BoardView(), O) && !HasLine(BoardView(), X)
      ensures state == if verdict == Undecided then otherwise else Quit
    {
      var winner := CheckWinner();
      var full := IsFull();
      if winner != Free {
        verdict := if (isClientO && winner == O) || (!isClientO && winner == X) then Win else Lost;
      } else {
        verdict := if full then Draw else Undecided;
      }
      state := if winner != Free || full then Quit else otherwise;
    }

    /** The first half of a turn: a move that the player may make is put on the board and sent. */
    method Play(pos: int) returns (message: int)
      requires Valid() && state == Moving && !ending && Legal(BoardView(), pos)
      modifies this, objects
      ensures Valid() && isClientO == old(isClientO) && message == pos
      ensures View() == old(View().(board := Put(BoardView(), pos), ending := true))
    {
      var ok := Move(pos);
      message := pos;
      ending := true;
    }

    /** The second half of a turn. */
    method Finish()
      requires Valid() && ending
      modifies this
      ensures View() == CheckGame(old(View().(ending := false)), Me(), WaitingForMove)
    {
      ending := false;
      Check(WaitingForMove);
    }

    /** The listening thread gets a move. */
    method Receive(pos: int)
      modifies this`state, this`arg
      ensures View() == old(View()).(state := OpponentMove, arg := pos)
    {
      state, arg := OpponentMove, pos;
    }

    /** The opponent's move is put on the board. */
    method Apply()
      requires Valid() && state == OpponentMove && !ending && arg != 9
      modifies this, objects
      ensures Valid() && isClientO == old(isClientO)
      ensures View() == old(
        CheckGame(if Legal(View().board, arg) then View().(board := Put(View().board, arg)) else View(), Me(), Moving))
    {
      var ok := Move(arg);
      Check(Moving);
    }
  }
}
