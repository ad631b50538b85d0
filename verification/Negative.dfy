/**
 The negative of a grey picture, computed by any number of threads of which each
 looks at its part of the values or of the columns, one pixel at a time and in
 any interleaving.
 */
module Negative {
  import opened Counting

  type Image = seq<seq<int>>

  const GREYS: int := 256

  predicate Rectangular(image: Image, height: int, width: int) {
    |image| == height && width >= 0 && forall r | 0 <= r < height :: |image[r]| == width
  }

  predicate Grey(image: Image) {
    forall r, c | 0 <= r < |image| && 0 <= c < |image[r]| :: 0 <= image[r][c] < GREYS
  }

  function Invert(image: Image): (negative: Image)
    ensures |negative| == |image|
    ensures forall r | 0 <= r < |image| :: |negative[r]| == |image[r]|
    ensures forall r, c | 0 <= r < |image| && 0 <= c < |image[r]| :: negative[r][c] == 255 - image[r][c]
  {
    seq(|image|, r requires 0 <= r < |image| => seq(|image[r]|, c requires 0 <= c < |image[r]| => 255 - image[r][c]))
  }

  datatype Method = Numbers | Block

  // How n things are shared by k threads.

  /** The first thing of thread t; n / k truncates, also inside `ceil`. */
  function From(n: int, k: int, t: int): int
    requires k > 0
  {
    n / k * t
  }

  /** One past the last thing of thread t; the last thread takes what is left over. */
  function End(n: int, k: int, t: int): int
    requires k > 0
  {
    if t != k - 1 then n / k * (t + 1) else n
  }

  predicate Share(n: int, k: int, t: int, v: int)
    requires k > 0
  {
    From(n, k, t) <= v < End(n, k, t)
  }

  function ShareOf(n: int, k: int, v: int): int
    requires k > 0
  {
    if n / k == 0 || v / (n / k) > k - 1 then k - 1 else v / (n / k)
  }

  lemma Monotone(a: int, i: int, j: int)
    requires a >= 0 && i <= j
    ensures a * i <= a * j
  {
    assert a * (j - i) >= 0;
  }

  lemma QuotientBounds(v: int, a: int)
    requires a > 0 && v >= 0
    ensures a * (v / a) <= v < a * (v / a + 1) && v / a >= 0
  {
  }

  lemma ShareSmall(n: int, k: int)
    requires k > 0 && n >= 0
    ensures n / k >= 0
  {
  }

  /** Every thing is in the share of exactly one thread, also when there are more threads than things. */
  lemma ShareUnique(n: int, k: int, t: int, v: int)
    requires k > 0 && 0 <= v < n && 0 <= t < k
    ensures 0 <= ShareOf(n, k, v) < k
    ensures Share(n, k, t, v) <==> t == ShareOf(n, k, v)
  {
    var a, o := n / k, ShareOf(n, k, v);
    ShareSmall(n, k);
    if a == 0 {
      assert a * t == 0 && a * (t + 1) == 0;
    } else {
      var q := v / a;
      QuotientBounds(v, a);
      if t < o {
        Monotone(a, t + 1, o);
        Monotone(a, o, q);
      } else if t > o {
        Monotone(a, q + 1, t);
      } else if o == k - 1 {
        Monotone(a, k - 1, q);
      }
    }
  }

  // The shares that the documentation asks for.

  function Ceiling(n: int, k: int): int
    requires k > 0
  {
    (n + k - 1) / k
  }

  predicate DocumentedShare(n: int, k: int, t: int, v: int)
    requires k > 0
  {
    t * Ceiling(n, k) <= v < (t + 1) * Ceiling(n, k)
  }

  lemma CeilingIs(n: int, k: int)
    requires k > 0 && n >= 0
    ensures Ceiling(n, k) == n / k + if n % k == 0 then 0 else 1
  {
    var q, m := n / k, n % k;
    assert n == k * q + m;
    if m == 0 {
      assert n + k - 1 == k * q + (k - 1);
      QuotientIs(n + k - 1, k, q, k - 1);
    } else {
      assert n + k - 1 == k * (q + 1) + (m - 1);
      QuotientIs(n + k - 1, k, q + 1, m - 1);
    }
  }

  lemma QuotientIs(n: int, k: int, q: int, m: int)
    requires k > 0 && 0 <= m < k && n == k * q + m
    ensures n / k == q
  {
    var d := n / k - q;
    assert k * d == m - n % k;
    if d >= 1 {
      Monotone(k, 1, d);
    } else if d <= -1 {
      Monotone(k, d, -1);
    }
  }

  /** The first thing that the first of two or more threads should have beyond n / k is with another one. */
  lemma ShareLacks(n: int, k: int)
    requires k > 0 && n >= 0 && n % k != 0
    ensures 0 <= n / k < n && k > 1
    ensures DocumentedShare(n, k, 0, n / k) && !Share(n, k, 0, n / k)
  {
    CeilingIs(n, k);
    ShareSmall(n, k);
    Monotone(n / k, 1, k);
  }

  /** All threads have equally many things if and only if the number of threads divides that of the things. */
  lemma EqualIff(n: int, k: int)
    requires k > 0 && n >= 0
    ensures n % k == 0 <==>
            forall t, u | 0 <= t < k && 0 <= u < k :: Size(n, k, t) == Size(n, k, u)
  {
    forall t | 0 <= t < k
      ensures Size(n, k, t) == n / k + if t == k - 1 then n % k else 0
    {
      SizeIs(n, k, t);
    }
    if n % k != 0 {
      assert Size(n, k, 0) != Size(n, k, k - 1);
    }
  }

  function Size(n: int, k: int, t: int): int
    requires k > 0
  {
    End(n, k, t) - From(n, k, t)
  }

  lemma SizeIs(n: int, k: int, t: int)
    requires k > 0 && n >= 0 && 0 <= t < k
    ensures Size(n, k, t) == n / k + if t == k - 1 then n % k else 0
  {
    if t == k - 1 {
      assert n == n / k * k + n % k;
      assert n / k * (k - 1) + n / k == n / k * k;
    } else {
      assert n / k * (t + 1) == n / k * t + n / k;
    }
  }

  /** The values are divided equally among the threads if and only if their number divides 256. */
  lemma EqualValuesIff(k: int)
    requires k > 0
    ensures GREYS % k == 0 <==>
            forall t, u | 0 <= t < k && 0 <= u < k :: Size(GREYS, k, t) == Size(GREYS, k, u)
  {
    EqualIff(GREYS, k);
  }

  /** With five columns and two threads the middle column goes to the other thread. */
  lemma FiveByTwo()
    ensures DocumentedShare(5, 2, 0, 2) && Share(5, 2, 1, 2) && !Share(5, 2, 0, 2)
  {
  }

  lemma ShareFits(n: int, k: int, t: int, v: int)
    requires k > 0 && n >= 0 && n % k == 0 && 0 <= t < k && 0 <= v < n
    ensures Share(n, k, t, v) <==> DocumentedShare(n, k, t, v)
  {
    CeilingIs(n, k);
    assert n == n / k * k;
  }

  /**
   The threads have the shares that the documentation asks for if and only if the number of threads
   divides that of the things.
   */
  lemma DocumentedIff(n: int, k: int)
    requires k > 0 && n >= 0
    ensures n % k == 0 <==>
            forall t, v | 0 <= t < k && 0 <= v < n :: Share(n, k, t, v) <==> DocumentedShare(n, k, t, v)
  {
    if n % k == 0 {
      forall t, v | 0 <= t < k && 0 <= v < n
        ensures Share(n, k, t, v) <==> DocumentedShare(n, k, t, v)
      {
        ShareFits(n, k, t, v);
      }
    } else {
      ShareLacks(n, k);
    }
  }

  // The threads.

  /** Where a thread is in its two nested loops. */
  datatype Pos = Pos(row: int, col: int)

  datatype Job = Job(image: Image, height: int, width: int, threads: int, kind: Method)

  ghost predicate Sensible(job: Job) {
    && job.threads > 0 && job.height >= 0 && job.width >= 0
    && Rectangular(job.image, job.height, job.width) && Grey(job.image)
  }

  function FirstCol(job: Job, t: int): int
    requires job.threads > 0
  {
    if job.kind == Numbers then 0 else From(job.width, job.threads, t)
  }

  function EndCol(job: Job, t: int): int
    requires job.threads > 0
  {
    if job.kind == Numbers then job.width else End(job.width, job.threads, t)
  }

  /** Whether thread t writes a pixel of this value when it comes by. */
  predicate Picks(job: Job, t: int, pixel: int)
    requires job.threads > 0
  {
    job.kind == Block || Share(GREYS, job.threads, t, pixel)
  }

  /** The thread that has to write a pixel. */
  function Owner(job: Job, r: int, c: int): int
    requires Sensible(job) && 0 <= r < job.height && 0 <= c < job.width
  {
    if job.kind == Numbers then ShareOf(GREYS, job.threads, job.image[r][c]) else ShareOf(job.width, job.threads, c)
  }

  /** The picture so far, how often each of its pixels has been written, and where the threads are. */
  datatype State = State(out: Image, writes: seq<seq<nat>>, pos: seq<Pos>)

  ghost predicate Shaped(job: Job, s: State) {
    && Rectangular(s.out, job.height, job.width)
    && |s.writes| == job.height && (forall r | 0 <= r < job.height :: |s.writes[r]| == job.width)
    && |s.pos| == job.threads
    && forall t | 0 <= t < job.threads :: 0 <= s.pos[t].row <= job.height && 0 <= FirstCol(job, t) <= s.pos[t].col
  }

  predicate Done(job: Job, p: Pos) {
    p.row >= job.height
  }

  /** Thread t is at a pixel, and not at the end of its part of a row. */
  predicate Inside(job: Job, t: int, p: Pos)
    requires job.threads > 0
  {
    p.col < EndCol(job, t)
  }

  function Advance(job: Job, t: int, p: Pos): Pos
    requires job.threads > 0
  {
    if Inside(job, t, p) then Pos(p.row, p.col + 1) else Pos(p.row + 1, FirstCol(job, t))
  }

  lemma EndColInRow(job: Job, t: int)
    requires Sensible(job) && 0 <= t < job.threads
    ensures 0 <= FirstCol(job, t) && EndCol(job, t) <= job.width
  {
    if job.kind == Block {
      var a := job.width / job.threads;
      ShareSmall(job.width, job.threads);
      Monotone(a, 0, t);
      Monotone(a, t + 1, job.threads);
    }
  }

  /** One step of thread t: it looks at a pixel and writes it if it has to, or goes on to the next row. */
  function Exec(job: Job, s: State, t: int): State
    requires Sensible(job) && Shaped(job, s) && 0 <= t < job.threads && !Done(job, s.pos[t])
  {
    var p := s.pos[t];
    EndColInRow(job, t);
    if Inside(job, t, p) && Picks(job, t, job.image[p.row][p.col]) then
      State(s.out[p.row := s.out[p.row][p.col := 255 - job.image[p.row][p.col]]],
            s.writes[p.row := s.writes[p.row][p.col := s.writes[p.row][p.col] + 1]],
            s.pos[t := Advance(job, t, p)])
    else
      s.(pos := s.pos[t := Advance(job, t, p)])
  }

  function Start(job: Job): State
    requires Sensible(job)
  {
    State(seq(job.height, _ => seq(job.width, _ => 0)), seq(job.height, _ => seq(job.width, _ => 0)),
          seq(job.threads, t => Pos(0, FirstCol(job, t))))
  }

  /** A thread at p has left a pixel behind. */
  predicate Passed(p: Pos, r: int, c: int) {
    r < p.row || (r == p.row && c < p.col)
  }

  ghost predicate PixelOk(job: Job, s: State, r: int, c: int)
    requires Sensible(job) && Shaped(job, s) && 0 <= r < job.height && 0 <= c < job.width
  {
    var o := Owner(job, r, c);
    && 0 <= o < job.threads
    && s.out[r][c] == (if Passed(s.pos[o], r, c) then 255 - job.image[r][c] else 0)
    && s.writes[r][c] == (if Passed(s.pos[o], r, c) then 1 else 0)
  }

  ghost predicate Inv(job: Job, s: State) {
    && Sensible(job) && Shaped(job, s)
    && forall r, c | 0 <= r < job.height && 0 <= c < job.width :: PixelOk(job, s, r, c)
  }

  lemma OwnerExists(job: Job, r: int, c: int)
    requires Sensible(job) && 0 <= r < job.height && 0 <= c < job.width
    ensures 0 <= Owner(job, r, c) < job.threads
  {
    if job.kind == Numbers {
      ShareUnique(GREYS, job.threads, 0, job.image[r][c]);
    } else {
      ShareUnique(job.width, job.threads, 0, c);
    }
  }

  /** Thread t writes a pixel of its columns exactly when it owns it; the pixels of other columns are not its own. */
  lemma OwnerWrites(job: Job, t: int, r: int, c: int)
    requires Sensible(job) && 0 <= t < job.threads && 0 <= r < job.height && 0 <= c < job.width
    ensures Owner(job, r, c) == t <==>
            FirstCol(job, t) <= c < EndCol(job, t) && Picks(job, t, job.image[r][c])
  {
    if job.kind == Numbers {
      ShareUnique(GREYS, job.threads, t, job.image[r][c]);
    } else {
      ShareUnique(job.width, job.threads, t, c);
    }
  }

  lemma StartInv(job: Job)
    requires Sensible(job)
    ensures Inv(job, Start(job))
  {
    var s := Start(job);
    forall t | 0 <= t < job.threads
      ensures 0 <= FirstCol(job, t)
    {
      EndColInRow(job, t);
    }
    forall r, c | 0 <= r < job.height && 0 <= c < job.width
      ensures PixelOk(job, s, r, c)
    {
      OwnerExists(job, r, c);
      OwnerWrites(job, Owner(job, r, c), r, c);
    }
  }

  lemma StepShaped(job: Job, s: State, t: int)
    requires Sensible(job) && Shaped(job, s) && 0 <= t < job.threads && !Done(job, s.pos[t])
    ensures Shaped(job, Exec(job, s, t))
  {
    EndColInRow(job, t);
  }

  lemma StepPixel(job: Job, s: State, t: int, r: int, c: int)
    requires Inv(job, s) && 0 <= t < job.threads && !Done(job, s.pos[t])
    requires 0 <= r < job.height && 0 <= c < job.width
    ensures Shaped(job, Exec(job, s, t)) && PixelOk(job, Exec(job, s, t), r, c)
  {
    StepShaped(job, s, t);
    EndColInRow(job, t);
    OwnerWrites(job, t, r, c);
    assert PixelOk(job, s, r, c);
  }

  lemma StepInv(job: Job, s: State, t: int)
    requires Inv(job, s) && 0 <= t < job.threads && !Done(job, s.pos[t])
    ensures Inv(job, Exec(job, s, t))
  {
    StepShaped(job, s, t);
    forall r, c | 0 <= r < job.height && 0 <= c < job.width
      ensures PixelOk(job, Exec(job, s, t), r, c)
    {
      StepPixel(job, s, t, r, c);
    }
  }

  /** What one thread leaves when it runs without interruption: its own pixels are written, the others stay. */
  function Painted(job: Job, t: int, before: Image): (after: Image)
    requires Sensible(job) && Rectangular(before, job.height, job.width)
    ensures Rectangular(after, job.height, job.width)
    ensures forall r, c | 0 <= r < job.height && 0 <= c < job.width ::
              after[r][c] == if Owner(job, r, c) == t then 255 - job.image[r][c] else before[r][c]
  {
    seq(job.height, r requires 0 <= r < job.height => seq(job.width, c requires 0 <= c < job.width =>
      if Owner(job, r, c) == t then 255 - job.image[r][c] else before[r][c]))
  }

  /** The first t threads, one after the other, on a black picture. */
  function PaintedBy(job: Job, t: nat): (after: Image)
    requires Sensible(job)
    ensures Rectangular(after, job.height, job.width)
  {
    if t == 0 then seq(job.height, _ => seq(job.width, _ => 0)) else Painted(job, t - 1, PaintedBy(job, t - 1))
  }

  lemma {:induction false} PaintedByPixel(job: Job, t: nat, r: int, c: int)
    requires Sensible(job) && 0 <= r < job.height && 0 <= c < job.width
    ensures PaintedBy(job, t)[r][c] == if 0 <= Owner(job, r, c) < t then 255 - job.image[r][c] else 0
  {
    if t > 0 {
      PaintedByPixel(job, t - 1, r, c);
    }
  }

  /** All threads together, one after the other, paint the negative. */
  lemma AllPaint(job: Job)
    requires Sensible(job)
    ensures PaintedBy(job, job.threads) == Invert(job.image)
  {
    forall r | 0 <= r < job.height
      ensures PaintedBy(job, job.threads)[r] == Invert(job.image)[r]
    {
      forall c | 0 <= c < job.width
        ensures PaintedBy(job, job.threads)[r][c] == Invert(job.image)[r][c]
      {
        OwnerExists(job, r, c);
        PaintedByPixel(job, job.threads, r, c);
      }
    }
  }

  /** A thread that is done is passed over. */
  ghost function Turn(job: Job, s: State, t: int): (s': State)
    requires Sensible(job) && Shaped(job, s)
    ensures Shaped(job, s')
  {
    if 0 <= t < job.threads && !Done(job, s.pos[t]) then
      StepShaped(job, s, t);
      Exec(job, s, t)
    else s
  }

  /** Where a schedule of threads leads. */
  ghost function Scheduled(job: Job, s: State, schedule: seq<int>): (s': State)
    requires Sensible(job) && Shaped(job, s)
    ensures Shaped(job, s')
  {
    if schedule == [] then s else Turn(job, Scheduled(job, s, schedule[..|schedule| - 1]), schedule[|schedule| - 1])
  }

  ghost predicate Next(job: Job, s: State, s': State) {
    && Sensible(job) && Shaped(job, s)
    && exists t :: 0 <= t < job.threads && !Done(job, s.pos[t]) && s' == Exec(job, s, t)
  }

  ghost predicate IsRun(job: Job, run: seq<State>) {
    && Sensible(job)
    && run != [] && run[0] == Start(job) && forall k | 0 <= k < |run| - 1 :: Next(job, run[k], run[k + 1])
  }

  lemma {:induction false} RunInv(job: Job, run: seq<State>, k: nat)
    requires IsRun(job, run) && k < |run|
    ensures Inv(job, run[k])
  {
    if k == 0 {
      StartInv(job);
    } else {
      RunInv(job, run, k - 1);
      var s := run[k - 1];
      assert Next(job, run[k - 1], run[k - 1 + 1]);
      var t :| 0 <= t < job.threads && !Done(job, s.pos[t]) && run[k] == Exec(job, s, t);
      StepInv(job, s, t);
    }
  }

  /** Some schedule of as many turns leads through any steps that the threads can take. */
  lemma {:induction false} SchedulesReach(job: Job, run: seq<State>, k: nat) returns (schedule: seq<int>)
    requires IsRun(job, run) && k < |run|
    ensures Shaped(job, run[0]) && |schedule| == k && Scheduled(job, run[0], schedule) == run[k]
  {
    RunInv(job, run, 0);
    if k == 0 {
      schedule := [];
    } else {
      schedule := SchedulesReach(job, run, k - 1);
      assert Next(job, run[k - 1], run[k - 1 + 1]);
      var t := StepIsTurn(job, run[k - 1], run[k]);
      ScheduleGoesOn(job, run[0], schedule, t);
      schedule := schedule + [t];
    }
  }

  lemma StepIsTurn(job: Job, s: State, s': State) returns (t: int)
    requires Next(job, s, s')
    ensures Turn(job, s, t) == s'
  {
    t :| 0 <= t < job.threads && !Done(job, s.pos[t]) && s' == Exec(job, s, t);
  }

  lemma ScheduleGoesOn(job: Job, s: State, schedule: seq<int>, t: int)
    requires Sensible(job) && Shaped(job, s)
    ensures Scheduled(job, s, schedule + [t]) == Turn(job, Scheduled(job, s, schedule), t)
  {
    assert (schedule + [t])[..|schedule|] == schedule;
  }

  ghost predicate AllDone(job: Job, s: State) {
    forall t | 0 <= t < |s.pos| :: Done(job, s.pos[t])
  }

  // Every schedule comes to an end.

  function Times(a: nat, b: nat): (c: nat)
    ensures a > 0 ==> c == Times(a - 1, b) + b
  {
    if a == 0 then 0 else Times(a - 1, b) + b
  }

  /** A bound on the steps that a thread at p has left. */
  function Left(job: Job, p: Pos): nat
    requires job.height >= 0 && job.width >= 0 && p.col >= 0
  {
    if p.row >= job.height then 0
    else Times(job.height - p.row, job.width + 1) - if p.col <= job.width then p.col else job.width
  }

  ghost function WorkOf(job: Job): Pos -> nat
    requires job.height >= 0 && job.width >= 0
  {
    (p: Pos) => if job.height >= 0 && job.width >= 0 && p.col >= 0 then Left(job, p) else 0
  }

  lemma LeftFalls(job: Job, t: int, p: Pos)
    requires Sensible(job) && 0 <= t < job.threads && !Done(job, p) && 0 <= FirstCol(job, t) <= p.col
    ensures Advance(job, t, p).col >= 0 && Left(job, Advance(job, t, p)) < Left(job, p)
  {
    EndColInRow(job, t);
    if Inside(job, t, p) {
      assert p.col < job.width;
    }
  }

  /** Every step of whatever thread lowers the work that is left. */
  lemma StepLowers(job: Job, s: State, t: int)
    requires Sensible(job) && Shaped(job, s) && 0 <= t < job.threads && !Done(job, s.pos[t])
    ensures Sum(Exec(job, s, t).pos, WorkOf(job)) < Sum(s.pos, WorkOf(job))
  {
    SumUpdate(s.pos, WorkOf(job), t, Advance(job, t, s.pos[t]));
    LeftFalls(job, t, s.pos[t]);
  }

  lemma {:induction false} RunsEnd(job: Job, run: seq<State>, k: nat)
    requires IsRun(job, run) && k < |run|
    ensures Sum(run[k].pos, WorkOf(job)) + k <= Sum(run[0].pos, WorkOf(job))
  {
    if k > 0 {
      RunsEnd(job, run, k - 1);
      RunInv(job, run, k - 1);
      var s := run[k - 1];
      assert Next(job, run[k - 1], run[k - 1 + 1]);
      var t :| 0 <= t < job.threads && !Done(job, s.pos[t]) && run[k] == Exec(job, s, t);
      StepLowers(job, s, t);
    }
  }

  /**
   However the threads are scheduled, they end: a run has no more steps than there is work at the
   start, and one that cannot be continued has written the negative, every pixel once.
   */
  lemma EveryScheduleEnds(job: Job, run: seq<State>)
    requires IsRun(job, run)
    ensures |run| - 1 <= Sum(Start(job).pos, WorkOf(job))
    ensures var last := run[|run| - 1];
      (exists s :: Next(job, last, s)) ||
      (last.out == Invert(job.image)
       && forall r, c | 0 <= r < |last.writes| && 0 <= c < |last.writes[r]| :: last.writes[r][c] == 1)
  {
    RunsEnd(job, run, |run| - 1);
    RunInv(job, run, |run| - 1);
    var last := run[|run| - 1];
    if t :| 0 <= t < |last.pos| && !Done(job, last.pos[t]) {
      assert Next(job, last, Exec(job, last, t));
    } else {
      AllDoneIsNegative(job, last);
    }
  }

  lemma AllDoneIsNegative(job: Job, s: State)
    requires Inv(job, s) && AllDone(job, s)
    ensures s.out == Invert(job.image)
    ensures forall r, c | 0 <= r < |s.writes| && 0 <= c < |s.writes[r]| :: s.writes[r][c] == 1
  {
    forall r, c | 0 <= r < job.height && 0 <= c < job.width
      ensures s.writes[r][c] == 1 && s.out[r][c] == Invert(job.image)[r][c]
    {
      assert PixelOk(job, s, r, c);
    }
    forall r | 0 <= r < job.height
      ensures s.out[r] == Invert(job.image)[r]
    {
    }
  }

  /**
   For every number of threads, either method and every interleaving: no pixel is
   written twice, and when all threads are done each has been written and the
   picture is the negative.
   */
  lemma ThreadsComputeNegative(job: Job, run: seq<State>, k: nat)
    requires IsRun(job, run) && k < |run|
    ensures forall r, c | 0 <= r < |run[k].writes| && 0 <= c < |run[k].writes[r]| :: run[k].writes[r][c] <= 1
    ensures AllDone(job, run[k]) ==>
              && run[k].out == Invert(job.image)
              && forall r, c | 0 <= r < |run[k].writes| && 0 <= c < |run[k].writes[r]| :: run[k].writes[r][c] == 1
  {
    RunInv(job, run, k);
    var s := run[k];
    forall r, c | 0 <= r < job.height && 0 <= c < job.width
      ensures s.writes[r][c] <= 1
    {
      assert PixelOk(job, s, r, c);
    }
    if AllDone(job, s) {
      AllDoneIsNegative(job, s);
    }
  }

  /** The two methods compute the same picture, whatever the numbers of threads and the schedules. */
  lemma MethodsAgree(image: Image, height: int, width: int, k1: int, k2: int, run1: seq<State>, run2: seq<State>)
    requires var job1 := Job(image, height, width, k1, Numbers);
      IsRun(job1, run1) && AllDone(job1, run1[|run1| - 1])
    requires var job2 := Job(image, height, width, k2, Block);
      IsRun(job2, run2) && AllDone(job2, run2[|run2| - 1])
    ensures run1[|run1| - 1].out == run2[|run2| - 1].out
  {
    ThreadsComputeNegative(Job(image, height, width, k1, Numbers), run1, |run1| - 1);
    ThreadsComputeNegative(Job(image, height, width, k2, Block), run2, |run2| - 1);
  }
}
