/** The pictures of cw08 as arrays, and the functions that its threads run on them. */
module Threads {
  import opened Negative

  ghost function Rows(a: array2<int>): (rows: Image)
    reads a
    ensures |rows| == a.Length0 && forall r | 0 <= r < a.Length0 :: |rows[r]| == a.Length1
    ensures forall r, c | 0 <= r < a.Length0 && 0 <= c < a.Length1 :: rows[r][c] == a[r, c]
  {
    seq(a.Length0, r requires 0 <= r < a.Length0 reads a =>
      seq(a.Length1, c requires 0 <= c < a.Length1 reads a => a[r, c]))
  }

  class Program {
    const threads: int
    const image: array2<int>
    const negative: array2<int>

    ghost function JobOf(kind: Method): Job
      reads image
    {
      Job(Rows(image), image.Length0, image.Length1, threads, kind)
    }

    ghost predicate Valid()
      reads this, image
    {
      && image != negative && image.Length0 == negative.Length0 && image.Length1 == negative.Length1
      && threads > 0 && Sensible(JobOf(Numbers)) && Sensible(JobOf(Block))
    }

    /** The pictures of a loaded file; calloc clears the negative. */
    constructor (threads: int, image: array2<int>)
      requires threads > 0 && Grey(Rows(image))
      ensures Valid() && this.image == image && this.threads == threads && fresh(negative)
      ensures forall r, c | 0 <= r < negative.Length0 && 0 <= c < negative.Length1 :: negative[r, c] == 0
    {
      this.threads, this.image := threads, image;
      negative := new int[image.Length0, image.Length1]((_, _) => 0);
    }

    /** The loops of numbers_method. */
    method WriteValues(from: int, to: int)
      requires Valid()
      modifies negative
      ensures forall r, c | 0 <= r < negative.Length0 && 0 <= c < negative.Length1 ::
                negative[r, c] == if from <= image[r, c] < to then 255 - image[r, c] else old(negative[r, c])
    {
      for i := 0 to image.Length0
        invariant forall r, c | 0 <= r < negative.Length0 && 0 <= c < negative.Length1 ::
                    negative[r, c] ==
                    if r < i && from <= image[r, c] < to then 255 - image[r, c] else old(negative[r, c])
      {
        for j := 0 to image.Length1
          invariant forall r, c | 0 <= r < negative.Length0 && 0 <= c < negative.Length1 ::
                      negative[r, c] ==
                      if Passed(Pos(i, j), r, c) && from <= image[r, c] < to then 255 - image[r, c]
                      else old(negative[r, c])
        {
          var pixel := image[i, j];
          if pixel >= from && pixel < to {
            negative[i, j] := 255 - pixel;
          }
        }
      }
    }

    /** The loops of block_method. */
    method WriteColumns(from: int, to: int)
      requires Valid() && 0 <= from && to < image.Length1
      modifies negative
      ensures forall r, c | 0 <= r < negative.Length0 && 0 <= c < negative.Length1 ::
                negative[r, c] == if from <= c <= to then 255 - image[r, c] else old(negative[r, c])
    {
      for i := 0 to image.Length0
        invariant forall r, c | 0 <= r < negative.Length0 && 0 <= c < negative.Length1 ::
                    negative[r, c] == if r < i && from <= c <= to then 255 - image[r, c] else old(negative[r, c])
      {
        var j := from;
        while j <= to
          invariant from <= j
          invariant forall r, c | 0 <= r < negative.Length0 && 0 <= c < negative.Length1 ::
                      negative[r, c] ==
                      if Passed(Pos(i, j), r, c) && from <= c <= to then 255 - image[r, c]
                      else old(negative[r, c])
        {
          negative[i, j] := 255 - image[i, j];
          j := j + 1;
        }
      }
    }

    /** numbers_method, run by one thread without interruption. */
    method NumbersMethod(index: int)
      requires Valid() && 0 <= index < threads
      modifies negative
      ensures Rows(negative) == Painted(JobOf(Numbers), index, old(Rows(negative)))
    {
      ghost var job, before := JobOf(Numbers), Rows(negative);
      var from := 256 / threads * index;
      var to := if index != threads - 1 then 256 / threads * (index + 1) else 256;
      WriteValues(from, to);
      forall r | 0 <= r < negative.Length0
        ensures Rows(negative)[r] == Painted(job, index, before)[r]
      {
        forall c | 0 <= c < negative.Length1
          ensures Rows(negative)[r][c] == Painted(job, index, before)[r][c]
        {
          OwnerWrites(job, index, r, c);
        }
      }
    }

    /** block_method, run by one thread without interruption. */
    method BlockMethod(index: int)
      requires Valid() && 0 <= index < threads
      modifies negative
      ensures Rows(negative) == Painted(JobOf(Block), index, old(Rows(negative)))
    {
      ghost var job, before := JobOf(Block), Rows(negative);
      var from := index * (image.Length1 / threads);
      var to := if index != threads - 1 then (index + 1) * (image.Length1 / threads) - 1 else image.Length1 - 1;
      EndColInRow(job, index);
      WriteColumns(from, to);
      forall r | 0 <= r < negative.Length0
        ensures Rows(negative)[r] == Painted(job, index, before)[r]
      {
        forall c | 0 <= c < negative.Length1
          ensures Rows(negative)[r][c] == Painted(job, index, before)[r][c]
        {
          OwnerWrites(job, index, r, c);
        }
      }
    }

    /** main: one thread after the other, each without interruption. */
    method ComputeNegative(kind: Method)
      requires Valid() && forall r, c | 0 <= r < negative.Length0 && 0 <= c < negative.Length1 :: negative[r, c] == 0
      modifies negative
      ensures Rows(negative) == Invert(Rows(image))
    {
      ghost var job := JobOf(kind);
      assert Rows(negative) == PaintedBy(job, 0) by {
        assert forall r | 0 <= r < negative.Length0 :: Rows(negative)[r] == PaintedBy(job, 0)[r];
      }
      for t := 0 to threads
        invariant Rows(negative) == PaintedBy(job, t)
      {
        if kind == Numbers {
          NumbersMethod(t);
        } else {
          BlockMethod(t);
        }
      }
      AllPaint(job);
    }
  }

  /** The threads of a program in the middle of their work, each stopped at some pixel. */
  class Interleaving {
    const program: Program
    const kind: Method
    var pos: seq<Pos>
    ghost var writes: seq<seq<nat>>

    ghost function JobView(): Job
      reads program.image
    {
      program.JobOf(kind)
    }

    ghost function View(): State
      reads this, program.negative
    {
      State(Rows(program.negative), writes, pos)
    }

    ghost predicate Valid()
      reads this, program, program.image, program.negative
    {
      program.Valid() && Shaped(JobView(), View())
    }

    constructor (program: Program, kind: Method)
      requires program.Valid()
      requires forall r, c | 0 <= r < program.negative.Length0 && 0 <= c < program.negative.Length1 ::
              program.negative[r, c] == 0
      ensures this.program == program && this.kind == kind
      ensures Valid() && View() == Start(JobView())
    {
      this.program, this.kind := program, kind;
      var width, threads := program.image.Length1, program.threads;
      pos := seq(threads, t => Pos(0, if kind == Numbers then 0 else From(width, threads, t)));
      writes := seq(program.image.Length0, _ => seq(program.image.Length1, _ => 0));
      new;
      StartInv(JobView());
      assert forall r | 0 <= r < program.negative.Length0 :: View().out[r] == Start(JobView()).out[r];
      assert forall r | 0 <= r < program.negative.Length0 :: View().writes[r] == Start(JobView()).writes[r];
      assert forall t | 0 <= t < threads :: View().pos[t] == Start(JobView()).pos[t];
    }

    /** Thread t goes on by one pixel, or to the next row. */
    method Step(t: int)
      requires Valid() && 0 <= t < |pos| && !Done(JobView(), pos[t])
      modifies this, program.negative
      ensures Valid() && View() == Exec(JobView(), old(View()), t)
    {
      ghost var job, before := JobView(), View();
      StepShaped(job, before, t);
      EndColInRow(job, t);
      var p, k, width := pos[t], program.threads, program.image.Length1;
      var end := if kind == Numbers then width else End(width, k, t);
      if p.col < end {
        var pixel := program.image[p.row, p.col];
        if kind == Block || (From(256, k, t) <= pixel < End(256, k, t)) {
          program.negative[p.row, p.col] := 255 - pixel;
          writes := writes[p.row := writes[p.row][p.col := writes[p.row][p.col] + 1]];
        }
        pos := pos[t := Pos(p.row, p.col + 1)];
      } else {
        pos := pos[t := Pos(p.row + 1, if kind == Numbers then 0 else From(width, k, t))];
      }
      assert forall r | 0 <= r < program.negative.Length0 :: View().out[r] == Exec(job, before, t).out[r];
    }

    /** The threads under a schedule; those that are done are passed over, and no others. */
    method Run(schedule: seq<int>)
      requires Valid() && Inv(JobView(), View())
      modifies this, program.negative
      ensures Valid() && Inv(JobView(), View())
      ensures View() == Scheduled(old(JobView()), old(View()), schedule)
      ensures AllDone(JobView(), View()) ==> Rows(program.negative) == Invert(Rows(program.image))
    {
      for k := 0 to |schedule|
        invariant Valid() && Inv(JobView(), View()) && JobView() == old(JobView())
        invariant View() == Scheduled(old(JobView()), old(View()), schedule[..k])
      {
        assert schedule[..k + 1][..k] == schedule[..k];
        var t := schedule[k];
        if 0 <= t < |pos| && pos[t].row < program.image.Length0 {
          StepInv(JobView(), View(), t);
          Step(t);
        }
      }
      assert schedule[..|schedule|] == schedule;
      if AllDone(JobView(), View()) {
        AllDoneIsNegative(JobView(), View());
      }
    }
  }
}
