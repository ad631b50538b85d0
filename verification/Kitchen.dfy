/**
 The shared memory of the pizzeria and its processes, changed in place one
 statement at a time, against the state machine of module Pizzeria.
 */
module Kitchen {
  import opened RingBuffer
  import opened Pizzeria

  /** `struct oven` and `struct table`. */
  class SharedRing {
    const cells: array<int>
    var pizzas: int
    var place: int
    var take: int
    ghost var put: seq<int>
    ghost var taken: seq<int>

    ghost function View(): Ring
      reads this, cells
    {
      Ring(cells[..], pizzas, place, take, put, taken)
    }

    ghost predicate Valid()
      reads this, cells
    {
      InBounds(View(), cells.Length)
    }

    /** setup_shm_segment for one of the two rings. */
    constructor (size: nat)
      requires size > 0
      ensures Valid() && fresh(cells) && cells.Length == size
      ensures View() == EmptyRing(size)
    {
      cells := new int[size];
      pizzas, place, take := 0, 0, 0;
      put, taken := [], [];
      new;
      for i := 0 to size
        invariant forall j | 0 <= j < i :: cells[j] == EMPTY
        invariant pizzas == place == take == 0 && put == taken == []
      {
        cells[i] := EMPTY;
      }
      assert cells[..] == EmptyRing(size).cells;
    }

    /** One statement of put_in_oven, place_on_table or deliver_pizza; y is what a fetch reads. */
    method Perform(op: Op, x: int) returns (y: int)
      requires Valid()
      modifies this, cells
      ensures Valid()
      ensures View() == Apply(old(View()), op, x)
      ensures op == Fetch ==> y == old(cells[take])
      ensures op != Fetch ==> y == x
    {
      y := x;
      match op
      case Write =>
        cells[place] := x;
        put := put + [x];
      case AdvancePlace =>
        place := Slot(place + 1, cells.Length);
      case Increment =>
        pizzas := pizzas + 1;
      case Fetch =>
        y := cells[take];
        taken := taken + [y];
      case Clear =>
        cells[take] := EMPTY;
      case AdvanceTake =>
        take := Slot(take + 1, cells.Length);
      case Decrement =>
        pizzas := pizzas - 1;
    }

    /** put_in_oven and place_on_table, run by one process without interruption. */
    method Put(x: int)
      requires Valid() && Refines(View(), cells.Length, Quiet) && Length(View()) < cells.Length
      modifies this, cells
      ensures Valid() && Refines(View(), cells.Length, Quiet)
      ensures Queue(View()) == old(Queue(View())) + [x] && taken == old(taken)
    {
      ApplyRefines(View(), cells.Length, Write, x);
      var _ := Perform(Write, x);
      Refine(AdvancePlace);
      Refine(Increment);
    }

    /** deliver_pizza, run by one process without interruption. */
    method Take() returns (x: int)
      requires Valid() && Refines(View(), cells.Length, Quiet) && Length(View()) > 0
      modifies this, cells
      ensures Valid() && Refines(View(), cells.Length, Quiet)
      ensures [x] + Queue(View()) == old(Queue(View())) && put == old(put)
    {
      FetchRefines(View(), cells.Length);
      x := Perform(Fetch, 0);
      Discard();
    }

    /** One access after the first, by a process that is in the middle of a put or a take. */
    method Refine(op: Op)
      requires Valid() && Refines(View(), cells.Length, StageBefore(op)) && op != Write && op != Fetch
      modifies this, cells
      ensures Valid() && Refines(View(), cells.Length, StageAfter(op))
      ensures put == old(put) && taken == old(taken)
    {
      ApplyRefines(View(), cells.Length, op, 0);
      var _ := Perform(op, 0);
      assert View() == Apply(old(View()), op, 0);
    }

    /** The part of deliver_pizza after the read. */
    method Discard()
      requires Valid() && Refines(View(), cells.Length, Fetched)
      modifies this, cells
      ensures Valid() && Refines(View(), cells.Length, Quiet)
      ensures put == old(put) && taken == old(taken)
    {
      Refine(Clear);
      Refine(AdvanceTake);
      Refine(Decrement);
    }
  }

  class Shop {
    const cooks: nat
    const oven: SharedRing
    const table: SharedRing
    var sems: Sems
    var procs: seq<Proc>
    ghost var prepared: seq<int>
    ghost var delivered: seq<int>

    ghost function View(): State
      reads this, oven, oven.cells, table, table.cells
    {
      State(oven.cells.Length, cooks, sems, oven.View(), table.View(), procs, prepared, delivered)
    }

    ghost predicate Valid()
      reads this, oven, oven.cells, table, table.cells
    {
      && oven.Valid() && table.Valid() && oven.cells.Length == table.cells.Length
      && oven != table && oven.cells != table.cells
      && WellFormed(View())
    }

    /** main: n cooks and m suppliers on rings of the given size, semaphores as setup_semaphore sets them. */
    constructor (size: nat, n: nat, m: nat)
      requires size > 0
      ensures Valid() && View() == Start(size, n, m)
      ensures fresh(oven) && fresh(oven.cells) && fresh(table) && fresh(table.cells)
      ensures cooks == n && sems == Sems(1, 1, size, size, 0) && prepared == delivered == []
      ensures |procs| == n + m && forall i | 0 <= i < n + m :: procs[i].pc == if i < n then C24 else S17
    {
      cooks := n;
      oven := new SharedRing(size);
      table := new SharedRing(size);
      sems := Sems(1, 1, size, size, 0);
      procs := seq(n + m, i => Proc(if i < n then C24 else S17, 0));
      prepared, delivered := [], [];
    }

    /** lock_semaphore: a process that cannot take a unit stays where it is. */
    method Lock(sem: Sem) returns (taken: bool)
      modifies this`sems
      ensures taken == (Value(old(sems), sem) > 0)
      ensures sems == if taken then Adjust(old(sems), sem, -1) else old(sems)
    {
      taken := Value(sems, sem) > 0;
      if taken {
        sems := Adjust(sems, sem, -1);
      }
    }

    /** Process i executes one statement, unless it waits for a semaphore; x is what `rand` would return. */
    method Step(i: nat, x: nat) returns (moved: bool)
      requires Valid() && i < |procs|
      modifies this, oven, oven.cells, table, table.cells
      ensures Valid()
      ensures moved == Enabled(old(View()), i)
      ensures View() == if moved then Exec(old(View()), i, x) else old(View())
      ensures (forall sem :: Code(old(procs[i].pc)) != Pizzeria.Lock(sem)) ==> moved
      ensures old(procs[i].pc) == C24 ==> moved && prepared == old(prepared) + [x] && procs[i] == Proc(C29, x)
      ensures old(procs[i].pc) == S29 ==> moved && delivered == old(delivered) + [old(procs[i].pizza)]
    {
      ghost var before := View();
      var p := procs[i];
      var y := p.pizza;
      moved := true;
      match Code(p.pc) {
        case Prepare =>
          y := x;
          prepared := prepared + [x];
        case Lock(sem) =>
          moved := Lock(sem);
        case Unlock(sem) =>
          sems := Adjust(sems, sem, 1);
        case Touch(at, op) =>
          if at == Oven {
            y := oven.Perform(op, p.pizza);
          } else {
            y := table.Perform(op, p.pizza);
          }
        case Deliver =>
          delivered := delivered + [p.pizza];
      }
      assert moved ==> sems == SemsAfter(before.sems, Code(p.pc));
      assert moved ==> oven.View() == RingAfter(before.oven, Oven, Code(p.pc), p.pizza);
      assert moved ==> table.View() == RingAfter(before.table, Table, Code(p.pc), p.pizza);
      assert moved ==> y == PizzaAfter(before, p, x);
      if moved {
        procs := procs[i := Proc(After(p.pc), y)];
      }
    }

    /**
     The whole shop under a schedule: who goes next, and what `rand` returns if
     that is a cook. The states it passes through are a run of the state machine,
     and nobody who can go on is passed over.
     */
    method Run(schedule: seq<(nat, nat)>) returns (ghost run: seq<State>)
      requires Valid()
      modifies this, oven, oven.cells, table, table.cells
      ensures Valid() && View() == Scheduled(old(View()), schedule)
      ensures run != [] && run[0] == old(View()) && run[|run| - 1] == View()
      ensures forall t | 0 <= t < |run| - 1 :: Next(run[t], run[t + 1])
    {
      run := [View()];
      for t := 0 to |schedule|
        invariant Valid() && View() == Scheduled(old(View()), schedule[..t])
        invariant run != [] && run[0] == old(View()) && run[|run| - 1] == View()
        invariant Chained(run)
      {
        assert schedule[..t + 1][..t] == schedule[..t];
        if schedule[t].0 < |procs| {
          var moved := Step(schedule[t].0, schedule[t].1);
          if moved {
            ChainedOn(run, View());
            run := run + [View()];
          }
        }
      }
      assert schedule[..|schedule|] == schedule;
    }
  }
}
