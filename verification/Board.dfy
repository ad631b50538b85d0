/** The board of tic-tac-toe and what client.c computes from it. */
module Board {

  datatype Object = Free | O | X

  /** `move` says that O is to move. */
  datatype Board = Board(move: bool, objects: seq<Object>)

  type Symbol = s: Object | s != Free witness O

  function NewBoard(): Board {
    Board(true, seq(9, _ => Free))
  }

  function Mover(b: Board): Symbol {
    if b.move then O else X
  }

  predicate Legal(b: Board, pos: int) {
    0 <= pos < |b.objects| && b.objects[pos] == Free
  }

  function Put(b: Board, pos: int): Board
    requires Legal(b, pos)
  {
    Board(!b.move, b.objects[pos := Mover(b)])
  }

  predicate Three(b: Board, i: int, j: int, k: int, s: Object)
    requires |b.objects| == 9 && 0 <= i < 9 && 0 <= j < 9 && 0 <= k < 9
  {
    b.objects[i] == s && b.objects[j] == s && b.objects[k] == s
  }

  /** Three in a column, in a row or in a diagonal. */
  predicate HasLine(b: Board, s: Symbol)
    requires |b.objects| == 9
  {
    || Three(b, 0, 3, 6, s) || Three(b, 1, 4, 7, s) || Three(b, 2, 5, 8, s)
    || Three(b, 0, 1, 2, s) || Three(b, 3, 4, 5, s) || Three(b, 6, 7, 8, s)
    || Three(b, 0, 4, 8, s) || Three(b, 2, 4, 6, s)
  }

  predicate Full(b: Board) {
    forall i | 0 <= i < |b.objects| :: b.objects[i] != Free
  }

  /** The symbol that fills three squares, if one does. */
  function LineAt(b: Board, i: int, j: int, k: int): (s: Object)
    requires |b.objects| == 9 && 0 <= i < 9 && 0 <= j < 9 && 0 <= k < 9
    ensures s != Free ==> Three(b, i, j, k, s)
    ensures s == Free ==> !Three(b, i, j, k, O) && !Three(b, i, j, k, X)
  {
    if b.objects[i] == b.objects[j] && b.objects[i] == b.objects[k] then b.objects[i] else Free
  }

  function Or(s: Object, t: Object): Object {
    if s != Free then s else t
  }

  /** check_winner: columns before rows before diagonals, and among columns or rows the last. */
  function Winner(b: Board): (s: Object)
    requires |b.objects| == 9
    ensures s != Free ==> HasLine(b, s)
    ensures s == Free ==> !HasLine(b, O) && !HasLine(b, X)
  {
    Or(Or(LineAt(b, 2, 5, 8), Or(LineAt(b, 1, 4, 7), LineAt(b, 0, 3, 6))),
       Or(Or(LineAt(b, 6, 7, 8), Or(LineAt(b, 3, 4, 5), LineAt(b, 0, 1, 2))),
          Or(LineAt(b, 0, 4, 8), LineAt(b, 2, 4, 6))))
  }

  predicate Over(b: Board)
    requires |b.objects| == 9
  {
    Winner(b) != Free || Full(b)
  }

  datatype Verdict = Undecided | Win | Lost | Draw

  /** What check_game tells the player with symbol me. */
  function VerdictFor(b: Board, me: Symbol): Verdict
    requires |b.objects| == 9
  {
    if Winner(b) == me then Win
    else if Winner(b) != Free then Lost
    else if Full(b) then Draw
    else Undecided
  }

  /** The board after a sequence of moves, each on a free square. */
  function Replay(moves: seq<int>): (b: Board)
    requires Playable(moves)
    ensures |b.objects| == 9
    decreases |moves|, 1
  {
    if moves == [] then NewBoard() else Put(Replay(moves[..|moves| - 1]), moves[|moves| - 1])
  }

  predicate Playable(moves: seq<int>)
    decreases |moves|, 0
  {
    moves == [] ||
    (Playable(moves[..|moves| - 1]) && Legal(Replay(moves[..|moves| - 1]), moves[|moves| - 1]))
  }

  /** A game: no move is made after the end. */
  predicate Proper(moves: seq<int>) {
    Playable(moves) &&
    (moves == [] || (Proper(moves[..|moves| - 1]) && !Over(Replay(moves[..|moves| - 1]))))
  }

  function Squares(b: Board, s: Object): nat {
    Tally(b.objects, s)
  }

  function Tally(objects: seq<Object>, s: Object): nat {
    if objects == [] then 0 else Tally(objects[1..], s) + (if objects[0] == s then 1 else 0)
  }

  lemma {:induction false} TallyUpdate(objects: seq<Object>, pos: int, t: Object, s: Object)
    requires 0 <= pos < |objects|
    ensures Tally(objects[pos := t], s) + (if objects[pos] == s then 1 else 0) ==
            Tally(objects, s) + (if t == s then 1 else 0)
  {
    if pos == 0 {
      assert objects[0 := t][1..] == objects[1..];
    } else {
      assert objects[pos := t][1..] == objects[1..][pos - 1 := t];
      TallyUpdate(objects[1..], pos - 1, t, s);
    }
  }

  lemma {:induction false} TallyAll(objects: seq<Object>)
    ensures Tally(objects, O) + Tally(objects, X) + Tally(objects, Free) == |objects|
  {
    if objects != [] {
      TallyAll(objects[1..]);
    }
  }

  lemma {:induction false} TallyFree(objects: seq<Object>)
    ensures Tally(objects, Free) == 0 <==> forall i | 0 <= i < |objects| :: objects[i] != Free
  {
    if objects != [] {
      TallyFree(objects[1..]);
      assert forall i | 0 < i < |objects| :: objects[i] == objects[1..][i - 1];
      if forall i | 0 <= i < |objects| :: objects[i] != Free {
        assert forall i | 0 <= i < |objects[1..]| :: objects[1..][i] == objects[i + 1];
      }
    }
  }

  lemma {:induction false} TallyNew(n: nat, s: Symbol)
    ensures Tally(seq(n, _ => Free), s) == 0
  {
    if n > 0 {
      assert seq(n, _ => Free)[1..] == seq(n - 1, _ => Free);
      TallyNew(n - 1, s);
    }
  }

  /** O moves first and the two take turns: the board counts every move, and `move` says who is ahead. */
  lemma {:induction false} ReplayTurns(moves: seq<int>)
    requires Playable(moves)
    ensures var b := Replay(moves);
      && b.move == (|moves| % 2 == 0)
      && Squares(b, O) == Squares(b, X) + (if b.move then 0 else 1)
      && Squares(b, O) + Squares(b, X) == |moves| <= 9
      && (Full(b) <==> |moves| == 9)
  {
    var b := Replay(moves);
    if moves == [] {
      TallyNew(9, O);
      TallyNew(9, X);
    } else {
      var before := moves[..|moves| - 1];
      var pos := moves[|moves| - 1];
      ReplayTurns(before);
      TallyUpdate(Replay(before).objects, pos, Mover(Replay(before)), O);
      TallyUpdate(Replay(before).objects, pos, Mover(Replay(before)), X);
    }
    TallyAll(b.objects);
    TallyFree(b.objects);
  }

  /** A move completes lines of its own symbol only. */
  lemma PutKeepsOthersLines(b: Board, pos: int, s: Symbol)
    requires |b.objects| == 9 && Legal(b, pos) && s != Mover(b)
    ensures HasLine(Put(b, pos), s) ==> HasLine(b, s)
  {
  }

  /** In a game only the player who moved last can have a line: the other had none before, and gets none. */
  lemma OnlyLastMoverHasLine(moves: seq<int>)
    requires Proper(moves) && moves != []
    ensures var before := Replay(moves[..|moves| - 1]);
      !HasLine(Replay(moves), if before.move then X else O)
  {
    var before := Replay(moves[..|moves| - 1]);
    PutKeepsOthersLines(before, moves[|moves| - 1], if before.move then X else O);
  }

  /** In a game at most one symbol has a line, and check_winner finds whose. */
  lemma OneLineOwner(moves: seq<int>, s: Symbol)
    requires Proper(moves)
    ensures !(HasLine(Replay(moves), O) && HasLine(Replay(moves), X))
    ensures HasLine(Replay(moves), s) <==> Winner(Replay(moves)) == s
  {
    if moves != [] {
      OnlyLastMoverHasLine(moves);
    }
  }

  /** A player is told Win exactly for its own line, Lost for the other's, and Draw after nine moves without any. */
  lemma VerdictsFollowLines(moves: seq<int>, s: Symbol)
    requires Proper(moves)
    ensures var b, verdict, other := Replay(moves), VerdictFor(Replay(moves), s), if s == O then X else O;
      && (verdict == Win <==> HasLine(b, s))
      && (verdict == Lost <==> HasLine(b, other))
      && (verdict == Draw <==> |moves| == 9 && !HasLine(b, s) && !HasLine(b, other))
  {
    OneLineOwner(moves, s);
    OneLineOwner(moves, if s == O then X else O);
    ReplayTurns(moves);
  }

  /** The squares numbered as in a magic square. */
  function Magic(i: int): int
    requires 0 <= i < 9
  {
    [2, 7, 6, 9, 5, 1, 4, 3, 8][i]
  }

  ghost predicate HasFifteen(b: Board, s: Symbol)
    requires |b.objects| == 9
  {
    exists i, j, k | 0 <= i < j < k < 9 :: Three(b, i, j, k, s) && Magic(i) + Magic(j) + Magic(k) == 15
  }

  /** The lines are the eight ways to make 15 of three different numbers up to nine. */
  lemma LinesAreFifteen(b: Board, s: Symbol)
    requires |b.objects| == 9
    ensures HasLine(b, s) <==> HasFifteen(b, s)
  {
    if HasFifteen(b, s) {
      var i, j, k :| 0 <= i < j < k < 9 && Three(b, i, j, k, s) && Magic(i) + Magic(j) + Magic(k) == 15;
      FifteenIsLine(i, j, k);
    }
    assert Three(b, 0, 3, 6, s) || Three(b, 1, 4, 7, s) || Three(b, 2, 5, 8, s) ==> HasFifteen(b, s);
    assert Three(b, 0, 1, 2, s) || Three(b, 3, 4, 5, s) || Three(b, 6, 7, 8, s) ==> HasFifteen(b, s);
    assert Three(b, 0, 4, 8, s) || Three(b, 2, 4, 6, s) ==> HasFifteen(b, s);
  }

  lemma FifteenIsLine(i: int, j: int, k: int)
    requires 0 <= i < j < k < 9 && Magic(i) + Magic(j) + Magic(k) == 15
    ensures (i, j, k) in {(0, 3, 6), (1, 4, 7), (2, 5, 8), (0, 1, 2), (3, 4, 5), (6, 7, 8), (0, 4, 8), (2, 4, 6)}
  {
  }

  lemma VerdictsComplement(b: Board)
    requires |b.objects| == 9
    ensures VerdictFor(b, O) == Win <==> VerdictFor(b, X) == Lost
    ensures VerdictFor(b, O) == Lost <==> VerdictFor(b, X) == Win
    ensures VerdictFor(b, O) == Draw <==> VerdictFor(b, X) == Draw
    ensures VerdictFor(b, O) == Undecided <==> !Over(b)
    ensures VerdictFor(b, X) == Undecided <==> !Over(b)
  {
  }

  lemma LastIsLegal(moves: seq<int>)
    requires Proper(moves) && moves != []
    ensures var before := moves[..|moves| - 1];
      && Proper(before) && Legal(Replay(before), moves[|moves| - 1]) && !Over(Replay(before))
      && before + [moves[|moves| - 1]] == moves
  {
  }

  lemma ReplayAppend(moves: seq<int>, pos: int)
    requires Proper(moves) && Legal(Replay(moves), pos) && !Over(Replay(moves))
    ensures Proper(moves + [pos]) && Replay(moves + [pos]) == Put(Replay(moves), pos)
  {
    assert (moves + [pos])[..|moves|] == moves;
  }
}
