/**
 The ring of the oven and of the table: a cyclic array with a count and two
 indices, which the programs update one field at a time.
 */
module RingBuffer {

  /** What an empty slot holds. */
  const EMPTY: int := -1

  /**
   The fields of `struct oven` and `struct table`, with two histories: every value
   ever written to a slot, and every value ever read from one.
   */
  datatype Ring = Ring(cells: seq<int>, pizzas: int, place: int, take: int, put: seq<int>, taken: seq<int>)

  /** How far a put (write, move the index, count) or a take (fetch, clear, move, count) has come. */
  datatype Stage = Quiet | Written | PlaceMoved | Fetched | Cleared | TakeMoved

  /** The slot that the n-th value of a ring of k slots goes to. */
  function Slot(n: int, k: int): (slot: int)
    requires k > 0
    ensures 0 <= slot < k
  {
    n % k
  }

  function EmptyRing(k: nat): Ring {
    Ring(seq(k, _ => EMPTY), 0, 0, 0, [], [])
  }

  predicate InBounds(r: Ring, k: int) {
    k > 0 && |r.cells| == k && 0 <= r.place < k && 0 <= r.take < k
  }

  function WriteSlot(r: Ring, x: int): Ring
    requires 0 <= r.place < |r.cells|
  {
    r.(cells := r.cells[r.place := x], put := r.put + [x])
  }

  function MovePlace(r: Ring): Ring
    requires |r.cells| > 0
  {
    r.(place := Slot(r.place + 1, |r.cells|))
  }

  function CountUp(r: Ring): Ring {
    r.(pizzas := r.pizzas + 1)
  }

  function FetchSlot(r: Ring): Ring
    requires 0 <= r.take < |r.cells|
  {
    r.(taken := r.taken + [r.cells[r.take]])
  }

  function ClearSlot(r: Ring): Ring
    requires 0 <= r.take < |r.cells|
  {
    r.(cells := r.cells[r.take := EMPTY])
  }

  function MoveTake(r: Ring): Ring
    requires |r.cells| > 0
  {
    r.(take := Slot(r.take + 1, |r.cells|))
  }

  function CountDown(r: Ring): Ring {
    r.(pizzas := r.pizzas - 1)
  }

  /** One access to the ring by one statement. */
  datatype Op = Write | AdvancePlace | Increment | Fetch | Clear | AdvanceTake | Decrement

  function Apply(r: Ring, op: Op, x: int): (r': Ring)
    requires InBounds(r, |r.cells|)
    ensures InBounds(r', |r.cells|)
  {
    match op
    case Write => WriteSlot(r, x)
    case AdvancePlace => MovePlace(r)
    case Increment => CountUp(r)
    case Fetch => FetchSlot(r)
    case Clear => ClearSlot(r)
    case AdvanceTake => MoveTake(r)
    case Decrement => CountDown(r)
  }

  /** How many values have been put and not yet taken. */
  function Length(r: Ring): int {
    |r.put| - |r.taken|
  }

  /** The queue that the ring stands for. */
  function Queue(r: Ring): seq<int>
    requires |r.taken| <= |r.put|
  {
    r.put[|r.taken|..]
  }

  /**
   The ring is a first-in first-out queue of at most k values, exactly as far as
   stage says: the values taken are a prefix of those put, the rest lie in order
   from `take` on, and every other slot is empty.
   */
  ghost predicate Refines(r: Ring, k: int, stage: Stage) {
    && k > 0 && |r.cells| == k
    && r.taken <= r.put
    && Length(r) <= (if stage == Fetched then k - 1 else k)
    && (stage == Written ==> r.put != [])
    && (stage == Fetched || stage == Cleared ==> r.taken != [])
    && r.place == Slot(if stage == Written then |r.put| - 1 else |r.put|, k)
    && r.take == Slot(if stage == Fetched || stage == Cleared then |r.taken| - 1 else |r.taken|, k)
    && r.pizzas == Length(r) + (match stage
                                case Quiet => 0
                                case Written | PlaceMoved => -1
                                case Fetched | Cleared | TakeMoved => 1)
    && (forall n | |r.taken| <= n < |r.put| :: r.cells[Slot(n, k)] == r.put[n])
    && (forall n | |r.put| <= n < |r.taken| + k - (if stage == Fetched then 1 else 0) :: r.cells[Slot(n, k)] == EMPTY)
  }

  lemma SlotIs(n: int, k: int, q: int, r: int)
    requires 0 <= r < k && n == k * q + r
    ensures Slot(n, k) == r
  {
    MultipleIsFar(k, n / k - q);
  }

  lemma SlotShift(n: int, k: int)
    requires k > 0
    ensures Slot(n + k, k) == Slot(n, k)
  {
    SlotIs(n + k, k, n / k + 1, n % k);
  }

  lemma SlotNext(n: int, k: int)
    requires k > 0
    ensures Slot(Slot(n, k) + 1, k) == Slot(n + 1, k)
  {
    var r := n % k + 1;
    if r < k {
      SlotIs(n + 1, k, n / k, r);
      SlotIs(r, k, 0, r);
    } else {
      SlotIs(n + 1, k, n / k + 1, 0);
      SlotIs(r, k, 1, 0);
    }
  }

  /** Less than a lap apart, two positions use different slots. */
  lemma SlotApart(m: nat, n: nat, k: int)
    requires k > 0 && m < n < m + k
    ensures Slot(m, k) != Slot(n, k)
  {
    MultipleIsFar(k, n / k - m / k);
  }

  lemma MultipleIsFar(k: int, q: int)
    requires k > 0
    ensures q >= 1 ==> k * q >= k
    ensures q <= -1 ==> k * q <= -k
  {
    if q >= 1 {
      assert k * (q - 1) >= 0;
    } else if q <= -1 {
      assert k * (-q - 1) >= 0;
    }
  }

  lemma EmptyRefines(k: nat)
    requires k > 0
    ensures Refines(EmptyRing(k), k, Quiet) && InBounds(EmptyRing(k), k)
  {
  }

  /** A put never overwrites a value that is still waiting: its slot is empty. */
  lemma WriteRefines(r: Ring, k: int, x: int)
    requires Refines(r, k, Quiet) && Length(r) < k
    ensures r.cells[r.place] == EMPTY
    ensures Refines(WriteSlot(r, x), k, Written)
    ensures Queue(WriteSlot(r, x)) == Queue(r) + [x]
  {
    var n := |r.put|;
    assert r.cells[Slot(n, k)] == EMPTY;
    var r' := WriteSlot(r, x);
    forall m | |r'.taken| <= m < |r'.put|
      ensures r'.cells[Slot(m, k)] == r'.put[m]
    {
      if m < n {
        SlotApart(m, n, k);
      }
    }
    forall m | |r'.put| <= m < |r'.taken| + k
      ensures r'.cells[Slot(m, k)] == EMPTY
    {
      SlotApart(n, m, k);
    }
  }

  lemma MovePlaceRefines(r: Ring, k: int)
    requires Refines(r, k, Written)
    ensures Refines(MovePlace(r), k, PlaceMoved)
  {
    SlotNext(|r.put| - 1, k);
  }

  lemma CountUpRefines(r: Ring, k: int)
    requires Refines(r, k, PlaceMoved)
    ensures Refines(CountUp(r), k, Quiet)
  {
  }

  /** A take from a queue that is not empty delivers its oldest value. */
  lemma FetchRefines(r: Ring, k: int)
    requires Refines(r, k, Quiet) && Length(r) > 0
    ensures r.cells[r.take] == r.put[|r.taken|] == Queue(r)[0]
    ensures Refines(FetchSlot(r), k, Fetched)
    ensures Queue(FetchSlot(r)) == Queue(r)[1..]
  {
    var n := |r.taken|;
    assert r.cells[Slot(n, k)] == r.put[n];
    assert r.put[..n + 1] == r.put[..n] + [r.put[n]];
  }

  lemma ClearRefines(r: Ring, k: int)
    requires Refines(r, k, Fetched)
    ensures Refines(ClearSlot(r), k, Cleared)
  {
    var r' := ClearSlot(r);
    var n := |r.taken| - 1;
    forall m | |r'.taken| <= m < |r'.put|
      ensures r'.cells[Slot(m, k)] == r'.put[m]
    {
      SlotApart(n, m, k);
    }
    forall m | |r'.put| <= m < |r'.taken| + k
      ensures r'.cells[Slot(m, k)] == EMPTY
    {
      if m < n + k {
        assert r.cells[Slot(m, k)] == EMPTY;
      } else {
        SlotShift(n, k);
      }
    }
  }

  lemma MoveTakeRefines(r: Ring, k: int)
    requires Refines(r, k, Cleared)
    ensures Refines(MoveTake(r), k, TakeMoved)
  {
    SlotNext(|r.taken| - 1, k);
  }

  lemma CountDownRefines(r: Ring, k: int)
    requires Refines(r, k, TakeMoved)
    ensures Refines(CountDown(r), k, Quiet)
  {
  }

  /** With no operation under way the index to place at follows from the other two fields. */
  lemma PlaceFollowsTake(r: Ring, k: int)
    requires Refines(r, k, Quiet)
    ensures r.place == Slot(r.take + r.pizzas, k)
  {
    SlotSum(|r.taken|, r.pizzas, k);
  }

  function StageBefore(op: Op): Stage {
    match op
    case Write | Fetch => Quiet
    case AdvancePlace => Written
    case Increment => PlaceMoved
    case Clear => Fetched
    case AdvanceTake => Cleared
    case Decrement => TakeMoved
  }

  function StageAfter(op: Op): Stage {
    match op
    case Write => Written
    case AdvancePlace => PlaceMoved
    case Fetch => Fetched
    case Clear => Cleared
    case AdvanceTake => TakeMoved
    case Increment | Decrement => Quiet
  }

  /** Each access takes the ring from one stage of a put or a take to the next. */
  lemma ApplyRefines(r: Ring, k: int, op: Op, x: int)
    requires Refines(r, k, StageBefore(op)) && InBounds(r, k)
    requires op == Write ==> Length(r) < k
    requires op == Fetch ==> Length(r) > 0
    ensures Refines(Apply(r, op, x), k, StageAfter(op))
  {
    match op
    case Write => WriteRefines(r, k, x);
    case AdvancePlace => MovePlaceRefines(r, k);
    case Increment => CountUpRefines(r, k);
    case Fetch => FetchRefines(r, k);
    case Clear => ClearRefines(r, k);
    case AdvanceTake => MoveTakeRefines(r, k);
    case Decrement => CountDownRefines(r, k);
  }

  lemma {:induction false} SlotSum(m: nat, n: nat, k: int)
    requires k > 0
    ensures Slot(Slot(m, k) + n, k) == Slot(m + n, k)
    decreases n
  {
    if n == 0 {
      assert Slot(Slot(m, k), k) == Slot(m, k) by { SlotSmall(Slot(m, k), k); }
    } else {
      SlotSum(m, n - 1, k);
      SlotNext(Slot(m, k) + n - 1, k);
      SlotNext(m + n - 1, k);
    }
  }

  lemma SlotSmall(n: nat, k: int)
    requires 0 <= n < k
    ensures Slot(n, k) == n
  {
  }
}
