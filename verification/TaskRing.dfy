/**
 The thread pool's circular queue: a fixed array with head, tail and count.  It holds the
 items of a list from a given position on; all that is known of the indices is modular.
 */
module TaskRing {
  import opened Basics
  import opened Bits

  type Task = nat

  datatype Ring = Ring(slots: seq<Option<Task>>, head: nat, tail: nat, count: nat)

  function Stored(r: Ring, task: Task): (r': Ring)
    requires r.tail < |r.slots|
    ensures |r'.slots| == |r.slots| && r'.tail < |r.slots|
  {
    Ring(r.slots[r.tail := Some(task)], r.head, (r.tail + 1) % |r.slots|, r.count + 1)
  }

  function Removed(r: Ring): (r': Ring)
    requires r.head < |r.slots| && r.count > 0
    ensures |r'.slots| == |r.slots| && r'.head < |r.slots|
  {
    Ring(r.slots[r.head := None], (r.head + 1) % |r.slots|, r.tail, r.count - 1)
  }

  /** The ring holds all[first..]; the slots between tail and head are clear. */
  predicate Holds(r: Ring, first: nat, all: seq<Task>) {
    var n := |r.slots|;
    && n > 0 && r.count <= n && first + r.count == |all|
    && r.head == first % n && r.tail == |all| % n
    && (forall k | first <= k < |all| :: r.slots[k % n] == Some(all[k]))
    && (forall k | |all| <= k < first + n :: r.slots[k % n] == None)
  }

  lemma NextSlot(k: nat, n: nat)
    requires n > 0
    ensures (k % n + 1) % n == (k + 1) % n
  {
    Offset(k, 1, n);
  }

  /** Positions less than n apart have different slots. */
  lemma SlotsDiffer(p: nat, q: nat, n: nat)
    requires n > 0 && p < q < p + n
    ensures p % n != q % n
  {
    if p % n == q % n {
      var a, b := p / n, q / n;
      assert q - p == n * b - n * a == n * (b - a);
      Multiples(n, b - a);
    }
  }

  lemma Offset(first: nat, count: nat, n: nat)
    requires n > 0
    ensures (first % n + count) % n == (first + count) % n
  {
    var q, r := first / n, first % n;
    var q', r' := (r + count) / n, (r + count) % n;
    assert first + count == n * q + (r + count) == n * q + n * q' + r';
    assert n * q + n * q' == n * (q + q');
    Remainder(first + count, n, q + q', r');
  }

  /** The tail is always count slots behind the head, around the ring. */
  lemma TailFollows(r: Ring, first: nat, all: seq<Task>)
    requires Holds(r, first, all)
    ensures r.tail == (r.head + r.count) % |r.slots|
  {
    Offset(first, r.count, |r.slots|);
  }

  lemma PutHolds(r: Ring, first: nat, all: seq<Task>, task: Task)
    requires Holds(r, first, all) && r.count < |r.slots|
    ensures Holds(Stored(r, task), first, all + [task])
  {
    var n, r', all' := |r.slots|, Stored(r, task), all + [task];
    NextSlot(|all|, n);
    forall k | first <= k < |all'| ensures r'.slots[k % n] == Some(all'[k]) {
      if k < |all| { SlotsDiffer(k, |all|, n); }
    }
    forall k | |all'| <= k < first + n ensures r'.slots[k % n] == None {
      SlotsDiffer(|all|, k, n);
    }
  }

  lemma TakeHolds(r: Ring, first: nat, all: seq<Task>)
    requires Holds(r, first, all) && r.count > 0
    ensures r.slots[r.head] == Some(all[first]) && Holds(Removed(r), first + 1, all)
  {
    var n, r' := |r.slots|, Removed(r);
    NextSlot(first, n);
    forall k | first + 1 <= k < |all| ensures r'.slots[k % n] == Some(all[k]) {
      SlotsDiffer(first, k, n);
    }
    forall k | |all| <= k < first + 1 + n ensures r'.slots[k % n] == None {
      if k < first + n { SlotsDiffer(first, k, n); } else { Offset(first, n, n); WholeTurn(first, n); }
    }
  }

  lemma WholeTurn(first: nat, n: nat)
    requires n > 0
    ensures (first + n) % n == first % n
  {
    var q, r := first / n, first % n;
    assert first + n == n * (q + 1) + r;
    Remainder(first + n, n, q + 1, r);
  }

  // ------------------------------------------------------ the queue as an array

  class Queue {
    const slots: array<Option<Task>>
    var head: nat
    var tail: nat
    var count: nat
    /** History: all tasks ever put, and how many have been taken. */
    ghost var all: seq<Task>
    ghost var taken: nat

    constructor (size: nat)
      requires size > 0
      ensures Valid() && slots.Length == size && Waiting() == [] && fresh(slots)
    {
      slots := new Option<Task>[size](_ => None);
      head, tail, count, all, taken := 0, 0, 0, [], 0;
    }

    ghost function View(): Ring
      reads this, slots
    {
      Ring(slots[..], head, tail, count)
    }

    ghost predicate Valid()
      reads this, slots
    {
      Holds(View(), taken, all)
    }

    /** The tasks in the queue, in the order they will be taken. */
    ghost function Waiting(): seq<Task>
      requires Valid()
      reads this, slots
    {
      all[taken..]
    }

    /** The queue's part of threadpool_add: refused when full. */
    method Put(task: Task) returns (ok: bool)
      requires Valid()
      modifies this, slots
      ensures Valid() && ok == (|old(Waiting())| < slots.Length)
      ensures Waiting() == old(Waiting()) + (if ok then [task] else [])
      ensures ok ==> View() == Stored(old(View()), task)
    {
      var next := (tail + 1) % slots.Length;
      if count == slots.Length { return false; }
      PutHolds(View(), taken, all, task);
      ghost var r := Stored(View(), task);
      slots[tail] := Some(task);
      tail := next;
      count := count + 1;
      all := all + [task];
      assert View() == r;
      ok := true;
    }

    /** A worker's removal of the oldest task. */
    method Take() returns (task: Option<Task>)
      requires Valid() && count > 0
      modifies this, slots
      ensures Valid() && old(Waiting()) != []
      ensures task == Some(old(Waiting())[0]) && Waiting() == old(Waiting())[1..]
      ensures View() == Removed(old(View()))
    {
      TakeHolds(View(), taken, all);
      ghost var r := Removed(View());
      task := slots[head];
      slots[head] := None;
      head := (head + 1) % slots.Length;
      count := count - 1;
      taken := taken + 1;
      assert View() == r;
    }
  }
}
