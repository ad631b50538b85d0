/**
 Two clients of tic-tac-toe that play over the server. Each keeps its own board;
 a move travels to the other as a message. A turn is two steps, because the
 listening thread of client.c may receive a message between the sending of a move
 and the end of the turn.
 */
module Game {
  import opened Board

  datatype Phase = WaitingForMove | OpponentMove | Moving | Quit

  /** The globals of one client; ending says that it has sent its move and not yet finished its turn. */
  datatype Client = Client(board: Board, state: Phase, ending: bool, arg: int, verdict: Verdict)

  /** Both clients, the moves on their way to each, and the moves made so far. */
  datatype Game = Game(o: Client, x: Client, toO: seq<int>, toX: seq<int>, moves: seq<int>)

  datatype Step = Play(s: Symbol, pos: int) | Finish(s: Symbol) | Receive(s: Symbol) | Apply(s: Symbol)

  function Other(s: Symbol): Symbol {
    if s == O then X else O
  }

  function Player(g: Game, s: Symbol): Client {
    if s == O then g.o else g.x
  }

  function Inbox(g: Game, s: Symbol): seq<int> {
    if s == O then g.toO else g.toX
  }

  function WithPlayer(g: Game, s: Symbol, c: Client): Game {
    if s == O then g.(o := c) else g.(x := c)
  }

  function WithInbox(g: Game, s: Symbol, inbox: seq<int>): Game {
    if s == O then g.(toO := inbox) else g.(toX := inbox)
  }

  predicate WellFormed(g: Game) {
    |g.o.board.objects| == 9 && |g.x.board.objects| == 9
  }

  predicate Enabled(g: Game, step: Step) {
    match step
    case Play(s, pos) => Player(g, s).state == Moving && !Player(g, s).ending && Legal(Player(g, s).board, pos)
    case Finish(s) => Player(g, s).ending
    case Receive(s) => Inbox(g, s) != [] && Player(g, s).state != Quit
    case Apply(s) => Player(g, s).state == OpponentMove && !Player(g, s).ending
  }

  /** check_game, and the state that the caller sets if the game goes on. */
  function CheckGame(c: Client, me: Symbol, otherwise: Phase): Client
    requires |c.board.objects| == 9
  {
    c.(state := if Over(c.board) then Quit else otherwise, verdict := VerdictFor(c.board, me))
  }

  function Exec(g: Game, step: Step): Game
    requires WellFormed(g) && Enabled(g, step)
  {
    match step
    case Play(s, pos) =>
      var c := Player(g, s);
      var sent := WithPlayer(g, s, c.(board := Put(c.board, pos), ending := true));
      WithInbox(sent, Other(s), Inbox(g, Other(s)) + [pos]).(moves := g.moves + [pos])
    case Finish(s) =>
      WithPlayer(g, s, CheckGame(Player(g, s).(ending := false), s, WaitingForMove))
    case Receive(s) =>
      WithInbox(WithPlayer(g, s, Player(g, s).(state := OpponentMove, arg := Inbox(g, s)[0])), s, Inbox(g, s)[1..])
    case Apply(s) =>
      var c := Player(g, s);
      WithPlayer(g, s, CheckGame(if Legal(c.board, c.arg) then c.(board := Put(c.board, c.arg)) else c, s, Moving))
  }

  /** Both clients have been told their symbols. */
  function Start(): Game {
    Game(Client(NewBoard(), Moving, false, 0, Undecided), Client(NewBoard(), WaitingForMove, false, 0, Undecided),
         [], [], [])
  }

  /** A message is received in time unless it meets a client that has not finished its own turn. */
  predicate Timely(g: Game, step: Step) {
    step.Receive? ==> !Player(g, step.s).ending
  }

  ghost predicate Next(g: Game, g': Game) {
    WellFormed(g) && exists step :: Enabled(g, step) && Timely(g, step) && g' == Exec(g, step)
  }

  ghost predicate IsRun(run: seq<Game>) {
    run != [] && run[0] == Start() && forall k | 0 <= k < |run| - 1 :: Next(run[k], run[k + 1])
  }

  // The invariant of timely runs.

  /** The player whose turn it is after the moves made so far. */
  function Turn(g: Game): Symbol
    requires Proper(g.moves)
  {
    Mover(Replay(g.moves))
  }

  /** The player who moved last has that move on its board, and is finishing its turn or has finished it. */
  predicate LastMover(c: Client, inbox: seq<int>, b: Board, me: Symbol)
    requires |b.objects| == 9
  {
    && c.board == b && inbox == []
    && (c.ending ==> c.state == Moving && c.verdict == Undecided)
    && (!c.ending ==> c == CheckGame(c, me, WaitingForMove))
  }

  /** The last move is on its way. */
  predicate InFlight(c: Client, inbox: seq<int>, moves: seq<int>)
    requires Proper(moves)
  {
    && moves != [] && c.board == Replay(moves[..|moves| - 1]) && inbox == [moves[|moves| - 1]]
    && c.verdict == Undecided
    && c.state == if c.ending then Moving else WaitingForMove
  }

  /** The last move has been received and not been made yet. */
  predicate Received(c: Client, inbox: seq<int>, moves: seq<int>)
    requires Proper(moves)
  {
    && moves != [] && c.board == Replay(moves[..|moves| - 1]) && inbox == []
    && c.verdict == Undecided
    && !c.ending && c.state == OpponentMove && c.arg == moves[|moves| - 1]
  }

  /** All moves are on the board. */
  predicate UpToDate(c: Client, inbox: seq<int>, b: Board, me: Symbol)
    requires |b.objects| == 9
  {
    c.board == b && inbox == [] && !c.ending && c == CheckGame(c, me, Moving)
  }

  ghost predicate Inv(g: Game) {
    && Proper(g.moves)
    && var b, next := Replay(g.moves), Turn(g);
       var last := Other(next);
       && LastMover(Player(g, last), Inbox(g, last), b, last)
       && (g.moves == [] ==> !Player(g, last).ending)
       && (InFlight(Player(g, next), Inbox(g, next), g.moves)
           || Received(Player(g, next), Inbox(g, next), g.moves)
           || UpToDate(Player(g, next), Inbox(g, next), b, next))
  }

  lemma PlayTurn(g: Game, s: Symbol, pos: int)
    requires Inv(g) && Enabled(g, Play(s, pos))
    ensures s == Turn(g) && Player(g, s).board == Replay(g.moves) && !Over(Replay(g.moves))
    ensures LastMover(Player(g, Other(s)), Inbox(g, Other(s)), Replay(g.moves), Other(s))
    ensures Inbox(g, s) == []
  {
  }

  lemma StartInv()
    ensures Inv(Start()) && WellFormed(Start())
  {
    assert !Full(NewBoard()) by {
      assert NewBoard().objects[0] == Free;
    }
  }

  lemma InvWellFormed(g: Game)
    requires Inv(g)
    ensures WellFormed(g)
  {
  }

  lemma PlayInv(g: Game, s: Symbol, pos: int)
    requires Inv(g) && WellFormed(g) && Enabled(g, Play(s, pos))
    ensures Inv(Exec(g, Play(s, pos)))
  {
    var g' := Exec(g, Play(s, pos));
    PlayTurn(g, s, pos);
    ReplayAppend(g.moves, pos);
    assert g'.moves[..|g'.moves| - 1] == g.moves;
    assert Turn(g') == Other(s);
  }

  lemma FinishInv(g: Game, s: Symbol)
    requires Inv(g) && WellFormed(g) && Enabled(g, Finish(s))
    ensures Inv(Exec(g, Finish(s)))
  {
    var g', next := Exec(g, Finish(s)), Turn(g);
    if s == next {
      assert InFlight(Player(g, s), Inbox(g, s), g.moves);
      assert !Over(Player(g, s).board);
      assert InFlight(Player(g', s), Inbox(g', s), g'.moves);
      assert Player(g', Other(s)) == Player(g, Other(s));
    } else {
      assert LastMover(Player(g', s), Inbox(g', s), Replay(g.moves), s);
      assert Player(g', next) == Player(g, next);
    }
  }

  lemma ReceiveInv(g: Game, s: Symbol)
    requires Inv(g) && WellFormed(g) && Enabled(g, Receive(s)) && !Player(g, s).ending
    ensures Inv(Exec(g, Receive(s)))
  {
  }

  /** What the one who applies a move then has. */
  lemma ApplyCatchesUp(g: Game, s: Symbol)
    requires Inv(g) && WellFormed(g) && Enabled(g, Apply(s))
    ensures s == Turn(g)
    ensures UpToDate(Player(Exec(g, Apply(s)), s), Inbox(Exec(g, Apply(s)), s), Replay(g.moves), s)
  {
    assert Received(Player(g, s), Inbox(g, s), g.moves);
    assert Replay(g.moves) == Put(Replay(g.moves[..|g.moves| - 1]), g.moves[|g.moves| - 1]);
    assert Player(Exec(g, Apply(s)), s).board == Replay(g.moves);
  }

  lemma ApplyInv(g: Game, s: Symbol)
    requires Inv(g) && WellFormed(g) && Enabled(g, Apply(s))
    ensures Inv(Exec(g, Apply(s)))
  {
    ApplyCatchesUp(g, s);
    var g' := Exec(g, Apply(s));
    assert Player(g', Other(s)) == Player(g, Other(s)) && Inbox(g', Other(s)) == Inbox(g, Other(s));
  }

  lemma StepInv(g: Game, step: Step)
    requires Inv(g) && WellFormed(g) && Enabled(g, step) && Timely(g, step)
    ensures Inv(Exec(g, step)) && WellFormed(Exec(g, step))
  {
    match step {
      case Play(s, pos) => PlayInv(g, s, pos);
      case Finish(s) => FinishInv(g, s);
      case Receive(s) => ReceiveInv(g, s);
      case Apply(s) => ApplyInv(g, s);
    }
    InvWellFormed(Exec(g, step));
  }

  lemma {:induction false} RunInv(run: seq<Game>, k: nat)
    requires IsRun(run) && k < |run|
    ensures Inv(run[k]) && WellFormed(run[k])
  {
    if k == 0 {
      StartInv();
    } else {
      RunInv(run, k - 1);
      assert Next(run[k - 1], run[k - 1 + 1]);
      var step :| Enabled(run[k - 1], step) && Timely(run[k - 1], step) && run[k] == Exec(run[k - 1], step);
      StepInv(run[k - 1], step);
    }
  }

  // What every timely run keeps.

  /** A client may put a symbol on its board. */
  predicate MayPlay(c: Client) {
    c.state == Moving && !c.ending
  }

  /**
   The board of one client is that of all moves, or lacks the last one, which is in its inbox or is
   being read outside a turn.
   */
  ghost predicate InStep(c: Client, inbox: seq<int>, moves: seq<int>)
    requires Proper(moves)
  {
    || (c.board == Replay(moves) && inbox == [])
    || (moves != [] && c.board == Replay(moves[..|moves| - 1])
        && (inbox == [moves[|moves| - 1]]
            || (inbox == [] && !c.ending && c.state == OpponentMove && c.arg == moves[|moves| - 1])))
  }

  /**
   The clients stay in step: their boards are the same but for one move on its way, and they never
   both have the turn.
   */
  lemma ClientsStayInStep(run: seq<Game>, k: nat)
    requires IsRun(run) && k < |run|
    ensures Proper(run[k].moves)
    ensures InStep(run[k].o, run[k].toO, run[k].moves) && InStep(run[k].x, run[k].toX, run[k].moves)
    ensures run[k].o.board == Replay(run[k].moves) || run[k].x.board == Replay(run[k].moves)
    ensures !(MayPlay(run[k].o) && MayPlay(run[k].x))
    ensures MayPlay(run[k].o) ==> run[k].o.board == run[k].x.board && run[k].o.board.move
    ensures MayPlay(run[k].x) ==> run[k].o.board == run[k].x.board && !run[k].x.board.move
  {
    RunInv(run, k);
  }

  lemma BehindByOne(g: Game, s: Symbol)
    requires Inv(g) && Player(g, s).board != Replay(g.moves)
    ensures g.moves != [] && Player(g, s).board == Replay(g.moves[..|g.moves| - 1])
  {
  }

  /** Turns alternate, and at most one symbol has a line. */
  predicate Fair(b: Board) {
    && |b.objects| == 9
    && Squares(b, O) == Squares(b, X) + (if b.move then 0 else 1)
    && !(HasLine(b, O) && HasLine(b, X))
  }

  lemma ReplayIsFair(moves: seq<int>)
    requires Proper(moves)
    ensures Fair(Replay(moves)) && |moves| <= 9
  {
    ReplayTurns(moves);
    OneLineOwner(moves, O);
  }

  lemma InvIsFair(g: Game, s: Symbol)
    requires Inv(g)
    ensures |g.moves| <= 9 && Fair(Player(g, s).board)
  {
    ReplayIsFair(g.moves);
    if Player(g, s).board != Replay(g.moves) {
      BehindByOne(g, s);
      ReplayIsFair(g.moves[..|g.moves| - 1]);
    }
  }

  /** What each client sees on its board is fair. */
  lemma BoardsStayFair(run: seq<Game>, k: nat, s: Symbol)
    requires IsRun(run) && k < |run|
    ensures |run[k].moves| <= 9 && Fair(Player(run[k], s).board)
  {
    RunInv(run, k);
    InvIsFair(run[k], s);
  }

  ghost predicate CanStep(g: Game) {
    exists step :: Enabled(g, step) && Timely(g, step)
  }

  lemma FreeSquare(b: Board)
    requires |b.objects| == 9 && !Full(b)
    ensures exists pos :: Legal(b, pos)
  {
    var pos :| 0 <= pos < |b.objects| && b.objects[pos] == Free;
    assert Legal(b, pos);
  }

  /** As long as not both clients have ended, one of them can go on in time. */
  lemma NotOverMoves(g: Game)
    requires Inv(g) && WellFormed(g)
    ensures CanStep(g) || (g.o.state == Quit && g.x.state == Quit && !g.o.ending && !g.x.ending)
  {
    var next := Turn(g);
    var c := Player(g, next);
    if g.o.ending {
      assert Enabled(g, Finish(O)) && Timely(g, Finish(O));
    } else if g.x.ending {
      assert Enabled(g, Finish(X)) && Timely(g, Finish(X));
    } else if Inbox(g, next) != [] {
      assert Enabled(g, Receive(next)) && Timely(g, Receive(next));
    } else if c.state == OpponentMove {
      assert Enabled(g, Apply(next)) && Timely(g, Apply(next));
    } else if !Over(c.board) {
      FreeSquare(c.board);
      var pos :| Legal(c.board, pos);
      assert Enabled(g, Play(next, pos)) && Timely(g, Play(next, pos));
    }
  }

  function OnTheWay(g: Game): nat {
    |g.toO| + |g.toX|
  }

  function ClientWork(c: Client): nat {
    (if c.ending then 1 else 0) + (if c.state == OpponentMove then 1 else 0)
  }

  /** A bound on the steps that are left. */
  function Work(g: Game): int {
    4 * (9 - |g.moves|) + 2 * OnTheWay(g) + ClientWork(g.o) + ClientWork(g.x)
  }

  lemma StepWorks(g: Game, step: Step)
    requires WellFormed(g) && Enabled(g, step)
    ensures Work(Exec(g, step)) < Work(g)
  {
  }

  lemma WorkNatural(g: Game)
    requires Inv(g)
    ensures Work(g) >= 0
  {
    ReplayTurns(g.moves);
  }

  lemma NextWorks(g: Game, g': Game)
    requires Next(g, g')
    ensures Work(g') < Work(g)
  {
    var step :| Enabled(g, step) && Timely(g, step) && g' == Exec(g, step);
    StepWorks(g, step);
  }

  lemma {:induction false} RunsAreShort(run: seq<Game>, k: nat)
    requires IsRun(run) && k < |run|
    ensures Work(run[k]) + k <= 36
  {
    if k > 0 {
      RunsAreShort(run, k - 1);
      assert Next(run[k - 1], run[k - 1 + 1]);
      NextWorks(run[k - 1], run[k]);
    }
  }

  /**
   At the end both boards are the same; the player with a line has been told Win and the other one
   Lost, or, if nobody has a line after nine moves, both of them Draw.
   */
  ghost predicate EndedFairly(g: Game) {
    && Proper(g.moves)
    && g.o.state == Quit && g.x.state == Quit
    && g.o.board == g.x.board == Replay(g.moves) && Over(Replay(g.moves))
    && (g.o.verdict == Win <==> HasLine(g.o.board, O)) && (g.x.verdict == Win <==> HasLine(g.x.board, X))
    && (g.o.verdict == Win <==> g.x.verdict == Lost)
    && (g.o.verdict == Lost <==> g.x.verdict == Win)
    && (g.o.verdict == Draw <==> g.x.verdict == Draw)
    && (g.o.verdict == Draw <==> |g.moves| == 9 && !HasLine(g.o.board, O) && !HasLine(g.x.board, X))
    && g.o.verdict != Undecided
  }

  lemma QuitIsFair(g: Game)
    requires Inv(g) && WellFormed(g)
    requires g.o.state == Quit && g.x.state == Quit && !g.o.ending && !g.x.ending
    ensures EndedFairly(g)
  {
    VerdictsComplement(Replay(g.moves));
    VerdictsFollowLines(g.moves, O);
    VerdictsFollowLines(g.moves, X);
  }

  /** However the two clients are scheduled, a timely run that cannot be continued is a finished game. */
  lemma RunsEndFairly(run: seq<Game>)
    requires IsRun(run)
    ensures |run| - 1 <= 36
    ensures CanStep(run[|run| - 1]) || EndedFairly(run[|run| - 1])
  {
    var last := run[|run| - 1];
    RunInv(run, |run| - 1);
    RunsAreShort(run, |run| - 1);
    WorkNatural(last);
    NotOverMoves(last);
    if !CanStep(last) {
      QuitIsFair(last);
    }
  }

  // An untimely message is lost.

  /** The next step that a client takes by itself once it has received a move. */
  function Reaction(g: Game, s: Symbol): Step {
    if Player(g, s).ending then Finish(s) else Apply(s)
  }

  /** A move that has been received reaches the board exactly when it was not received in the middle of a turn. */
  lemma ReceiptCountsIffTimely(g: Game, s: Symbol)
    requires Inv(g) && WellFormed(g) && Enabled(g, Receive(s))
    ensures var g' := Exec(g, Receive(s));
      && WellFormed(g') && Enabled(g', Reaction(g', s))
      && (Player(Exec(g', Reaction(g', s)), s).board == Replay(g.moves) <==> !Player(g, s).ending)
  {
    var g' := Exec(g, Receive(s));
    assert s == Turn(g);
    ReplayTurns(g.moves);
    ReplayTurns(g.moves[..|g.moves| - 1]);
    if !Player(g, s).ending {
      ReceiveInv(g, s);
      ApplyInv(g', s);
    }
  }

  /** Both clients wait for a move, and none is on its way. */
  predicate BothWait(g: Game) {
    && g.o.state == WaitingForMove && !g.o.ending && g.toO == []
    && g.x.state == WaitingForMove && !g.x.ending && g.toX == []
  }

  lemma BothWaitForEver(g: Game, step: Step)
    requires BothWait(g)
    ensures !Enabled(g, step)
  {
  }

  /** Whoever is in the middle of a turn ends it. */
  function Finished(g: Game, s: Symbol): Game
    requires WellFormed(g)
  {
    if Player(g, s).ending then Exec(g, Finish(s)) else g
  }

  /**
   When a move is received in the middle of a turn, and all turns are then ended, in either
   order, both clients wait for ever if and only if that move did not end the game.
   */
  lemma UntimelyReceiptStallsIff(g: Game, s: Symbol)
    requires Inv(g) && WellFormed(g) && Enabled(g, Receive(s)) && Player(g, s).ending
    ensures var g' := Exec(g, Receive(s));
      && WellFormed(g') && WellFormed(Finished(g', s)) && WellFormed(Finished(g', Other(s)))
      && Finished(Finished(g', s), Other(s)) == Finished(Finished(g', Other(s)), s)
      && (BothWait(Finished(Finished(g', s), Other(s))) <==> !Over(Replay(g.moves)))
  {
    assert s == Turn(g);
  }

  // Runs in which messages are received at any time.

  ghost predicate AnyNext(g: Game, g': Game) {
    WellFormed(g) && exists step :: Enabled(g, step) && g' == Exec(g, step)
  }

  ghost predicate IsAnyRun(run: seq<Game>) {
    run != [] && run[0] == Start() && forall k | 0 <= k < |run| - 1 :: AnyNext(run[k], run[k + 1])
  }

  /** Both boards follow the moves. */
  ghost predicate BothInStep(g: Game) {
    Proper(g.moves) && InStep(g.o, g.toO, g.moves) && InStep(g.x, g.toX, g.moves)
  }

  lemma UntimelyReceiptIsOutOfStep(g: Game, s: Symbol)
    requires Inv(g) && WellFormed(g) && Enabled(g, Receive(s)) && Player(g, s).ending
    ensures !BothInStep(Exec(g, Receive(s)))
  {
    assert s == Turn(g);
    var c := Player(Exec(g, Receive(s)), s);
    assert c.ending && c.board == Replay(g.moves[..|g.moves| - 1]) && Inbox(Exec(g, Receive(s)), s) == [];
    LacksLast(g.moves);
    assert !InStep(c, [], g.moves);
  }

  lemma LacksLast(moves: seq<int>)
    requires Proper(moves) && moves != []
    ensures Replay(moves[..|moves| - 1]) != Replay(moves)
  {
    ReplayTurns(moves);
    ReplayTurns(moves[..|moves| - 1]);
  }

  lemma InStepIsTimely(g: Game, g': Game)
    requires Inv(g) && AnyNext(g, g') && BothInStep(g')
    ensures Next(g, g')
  {
    var step :| Enabled(g, step) && g' == Exec(g, step);
    if !Timely(g, step) {
      UntimelyReceiptIsOutOfStep(g, step.s);
    }
  }

  lemma NextInv(g: Game, g': Game)
    requires Inv(g) && Next(g, g')
    ensures Inv(g')
  {
    var step :| Enabled(g, step) && Timely(g, step) && g' == Exec(g, step);
    StepInv(g, step);
  }

  lemma {:induction false} TimelyUntil(run: seq<Game>, k: nat)
    requires IsAnyRun(run) && k < |run| && forall j | 0 <= j < |run| :: BothInStep(run[j])
    ensures Inv(run[k]) && (k > 0 ==> Next(run[k - 1], run[k]))
  {
    if k == 0 {
      StartInv();
    } else {
      TimelyUntil(run, k - 1);
      assert AnyNext(run[k - 1], run[k - 1 + 1]);
      InStepIsTimely(run[k - 1], run[k]);
      NextInv(run[k - 1], run[k]);
    }
  }

  /** In every run, timely or not, both boards follow the moves throughout if and only if no receipt is untimely. */
  lemma InStepIffTimely(run: seq<Game>)
    requires IsAnyRun(run)
    ensures (forall k | 0 <= k < |run| :: BothInStep(run[k])) <==> IsRun(run)
  {
    if forall k | 0 <= k < |run| :: BothInStep(run[k]) {
      forall k | 0 <= k < |run| - 1
        ensures Next(run[k], run[k + 1])
      {
        TimelyUntil(run, k + 1);
      }
    }
    if IsRun(run) {
      forall k | 0 <= k < |run|
        ensures BothInStep(run[k])
      {
        ClientsStayInStep(run, k);
      }
    }
  }

  lemma RunGoesOn(run: seq<Game>, g: Game)
    requires IsRun(run) && Next(run[|run| - 1], g)
    ensures IsRun(run + [g])
  {
    var longer := run + [g];
    forall k | 0 <= k < |longer| - 1
      ensures Next(longer[k], longer[k + 1])
    {
      if k < |run| - 1 {
        assert Next(run[k], run[k + 1]);
      }
    }
  }

  lemma Extend(run: seq<Game>, step: Step) returns (longer: seq<Game>, g: Game)
    requires IsRun(run)
    requires WellFormed(run[|run| - 1]) && Enabled(run[|run| - 1], step) && Timely(run[|run| - 1], step)
    ensures g == Exec(run[|run| - 1], step) && WellFormed(g)
    ensures IsRun(longer) && longer == run + [g]
  {
    var last := run[|run| - 1];
    RunInv(run, |run| - 1);
    StepInv(last, step);
    g := Exec(last, step);
    assert Next(last, g);
    RunGoesOn(run, g);
    longer := run + [g];
  }

  // Every game can be played.

  /** All moves are on both boards, and no turn is unfinished. */
  ghost predicate Settled(g: Game) {
    && Inv(g)
    && UpToDate(Player(g, Turn(g)), Inbox(g, Turn(g)), Replay(g.moves), Turn(g))
    && !Player(g, Other(Turn(g))).ending
  }

  /** The last move is on its way, and the player who gets it has finished its turn. */
  ghost predicate OnItsWay(g: Game) {
    Inv(g) && Inbox(g, Turn(g)) != [] && !Player(g, Turn(g)).ending
  }

  lemma MoveIsSent(g: Game, pos: int)
    requires Settled(g) && WellFormed(g) && Legal(Replay(g.moves), pos) && !Over(Replay(g.moves))
    ensures Enabled(g, Play(Turn(g), pos))
    ensures var g' := Exec(g, Play(Turn(g), pos));
      OnItsWay(g') && g'.moves == g.moves + [pos] && Player(g', Other(Turn(g'))).ending
  {
    var s := Turn(g);
    var g' := Exec(g, Play(s, pos));
    PlayInv(g, s, pos);
    ReplayAppend(g.moves, pos);
    assert Turn(g') == Other(s);
    assert Player(g', Turn(g')) == Player(g, Other(s)) && Inbox(g', Turn(g')) == Inbox(g, Other(s)) + [pos];
  }

  lemma TurnEnds(g: Game)
    requires OnItsWay(g) && WellFormed(g) && Player(g, Other(Turn(g))).ending
    ensures var g' := Exec(g, Finish(Other(Turn(g))));
      OnItsWay(g') && g'.moves == g.moves && !Player(g', Other(Turn(g'))).ending
  {
    FinishInv(g, Other(Turn(g)));
    var g' := Exec(g, Finish(Other(Turn(g))));
    assert Player(g', Turn(g)) == Player(g, Turn(g)) && Inbox(g', Turn(g)) == Inbox(g, Turn(g));
  }

  lemma MoveIsReceived(g: Game)
    requires OnItsWay(g) && WellFormed(g) && !Player(g, Other(Turn(g))).ending
    ensures Enabled(g, Receive(Turn(g)))
    ensures var g' := Exec(g, Receive(Turn(g)));
      && Inv(g') && WellFormed(g') && g'.moves == g.moves && Enabled(g', Apply(Turn(g)))
      && !Player(g', Other(Turn(g))).ending
  {
    assert InFlight(Player(g, Turn(g)), Inbox(g, Turn(g)), g.moves);
    ReceiveInv(g, Turn(g));
    InvWellFormed(Exec(g, Receive(Turn(g))));
  }

  lemma MoveIsMade(g: Game, s: Symbol)
    requires Inv(g) && WellFormed(g) && Enabled(g, Apply(s)) && !Player(g, Other(s)).ending
    ensures Settled(Exec(g, Apply(s))) && Exec(g, Apply(s)).moves == g.moves
  {
    ApplyInv(g, s);
    ApplyCatchesUp(g, s);
    assert Player(Exec(g, Apply(s)), Other(s)) == Player(g, Other(s));
  }

  lemma TurnIsTaken(run: seq<Game>, pos: int) returns (longer: seq<Game>, g: Game)
    requires IsRun(run) && Settled(run[|run| - 1])
    requires Legal(Replay(run[|run| - 1].moves), pos) && !Over(Replay(run[|run| - 1].moves))
    ensures IsRun(longer) && g == longer[|longer| - 1] && g.moves == run[|run| - 1].moves + [pos]
    ensures OnItsWay(g) && !Player(g, Other(Turn(g))).ending
  {
    g := run[|run| - 1];
    InvWellFormed(g);
    MoveIsSent(g, pos);
    longer, g := Extend(run, Play(Turn(g), pos));
    TurnEnds(g);
    longer, g := Extend(longer, Finish(Other(Turn(g))));
  }

  lemma TurnIsPassed(run: seq<Game>) returns (longer: seq<Game>, g: Game)
    requires IsRun(run) && OnItsWay(run[|run| - 1])
    requires !Player(run[|run| - 1], Other(Turn(run[|run| - 1]))).ending
    ensures IsRun(longer) && g == longer[|longer| - 1] && Settled(g) && g.moves == run[|run| - 1].moves
  {
    g := run[|run| - 1];
    InvWellFormed(g);
    MoveIsReceived(g);
    longer, g := Extend(run, Receive(Turn(g)));
    MoveIsMade(g, Turn(g));
    longer, g := Extend(longer, Apply(Turn(g)));
  }

  lemma {:induction false} GameIsPlayed(moves: seq<int>) returns (run: seq<Game>)
    requires Proper(moves)
    ensures IsRun(run) && Settled(run[|run| - 1]) && run[|run| - 1].moves == moves
  {
    if moves == [] {
      run := [Start()];
      StartInv();
    } else {
      LastIsLegal(moves);
      run := GameIsPlayed(moves[..|moves| - 1]);
      var g;
      run, g := TurnIsTaken(run, moves[|moves| - 1]);
      run, g := TurnIsPassed(run);
    }
  }

  lemma SettledEnds(g: Game)
    requires Settled(g)
    ensures g.o.board == g.x.board == Replay(g.moves) && g.toO == g.toX == []
    ensures Over(Replay(g.moves)) ==> EndedFairly(g)
  {
    InvWellFormed(g);
    if Over(Replay(g.moves)) {
      QuitIsFair(g);
    }
  }

  /** Every game that the rules of the board allow is played by some timely run, and fairly ended if it is over. */
  lemma EveryGameIsPlayed(moves: seq<int>) returns (run: seq<Game>)
    requires Proper(moves)
    ensures IsRun(run)
    ensures var g := run[|run| - 1];
      && g.moves == moves && g.o.board == g.x.board == Replay(moves) && g.toO == g.toX == []
      && (Over(Replay(moves)) ==> EndedFairly(g))
  {
    run := GameIsPlayed(moves);
    SettledEnds(run[|run| - 1]);
  }

  // The answer can overtake the end of the turn.

  /** O plays at p; X receives the move and makes it before O ends its turn. */
  lemma Overtaken(run: seq<Game>, b: Board, p: int) returns (longer: seq<Game>, g: Game)
    requires IsRun(run)
    requires var g := run[|run| - 1];
      && g.o == Client(b, Moving, false, g.o.arg, Undecided) && g.toO == []
      && g.x == Client(b, WaitingForMove, false, g.x.arg, Undecided) && g.toX == []
    requires |b.objects| == 9 && Legal(b, p) && !Over(Put(b, p))
    ensures IsRun(longer) && g == longer[|longer| - 1] && WellFormed(g)
    ensures g.o.ending && g.o.state == Moving && g.toO == []
    ensures g.x.board == Put(b, p) && g.x.state == Moving && !g.x.ending
    ensures g.moves == run[|run| - 1].moves + [p]
  {
    RunInv(run, |run| - 1);
    longer, g := Extend(run, Play(O, p));
    longer, g := Extend(longer, Receive(X));
    assert g.x == Client(b, OpponentMove, false, p, Undecided) && g.o.ending && g.toO == [];
    longer, g := Extend(longer, Apply(X));
  }

  /** The answer can overtake the end of the turn whenever O plays at p and X can answer at q. */
  lemma Overtaking(run: seq<Game>, b: Board, p: int, q: int) returns (longer: seq<Game>, g: Game)
    requires IsRun(run)
    requires var g := run[|run| - 1];
      && g.o == Client(b, Moving, false, g.o.arg, Undecided) && g.toO == []
      && g.x == Client(b, WaitingForMove, false, g.x.arg, Undecided) && g.toX == []
    requires |b.objects| == 9 && Legal(b, p) && !Over(Put(b, p)) && Legal(Put(b, p), q)
    ensures IsRun(longer) && g == longer[|longer| - 1]
    ensures g.o.ending && !g.x.ending && g.o.state == Moving && g.toO == [q]
    ensures g.moves == run[|run| - 1].moves + [p] + [q]
  {
    longer, g := Overtaken(run, b, p);
    longer, g := Extend(longer, Play(X, q));
    assert g.x.ending && g.toO == [q] && g.o.ending && g.o.state == Moving;
    longer, g := Extend(longer, Finish(X));
  }

  /** After O's first and X's second square nobody has won. */
  lemma TwoMoves(b: Board, moves: seq<int>)
    requires b == NewBoard() && moves == [0, 1]
    ensures Legal(b, 0) && !Over(Put(b, 0)) && Legal(Put(b, 0), 1) && !Over(Put(Put(b, 0), 1))
    ensures Playable(moves) && Replay(moves) == Put(Put(b, 0), 1)
  {
    assert moves[..1] == [0] && moves[..1][..0] == [];
    assert Replay([]) == b;
    var after := Put(Put(b, 0), 1);
    assert after.objects[2] == after.objects[3] == after.objects[4] == after.objects[8] == Free;
    assert after.objects[0] == O && after.objects[1] == X;
  }

  /** It can happen in the first turn, and the game then stops with two moves made. */
  lemma FirstTurnCanStall() returns (run: seq<Game>, g: Game)
    ensures IsRun(run) && g == run[|run| - 1] && WellFormed(g) && Enabled(g, Receive(O)) && g.moves == [0, 1]
    ensures var g' := Exec(g, Receive(O));
      WellFormed(g') && Enabled(g', Finish(O)) && BothWait(Exec(g', Finish(O)))
  {
    TwoMoves(NewBoard(), [0, 1]);
    run, g := Overtaking([Start()], NewBoard(), 0, 1);
    RunInv(run, |run| - 1);
    UntimelyReceiptStallsIff(g, O);
  }
}
