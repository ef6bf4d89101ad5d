/**
 The queue as an object whose push and pop run without interference: the loops of the
 source, proved to be a bounded first-in first-out queue.  LogQueue covers interleaving.
 */
module LogRing {
  import opened LogQueue
  import Bits

  /** Tickets head..tail are published, the N tickets after head that are not are free. */
  ghost predicate Ringed(slots: seq<Slot>, head: nat, tail: nat) {
    var n := |slots|;
    && n >= 2
    && head <= tail <= head + n
    && (forall p: nat | head <= p < tail :: slots[Index(p, n)].sequence == p + 1)
    && (forall p: nat | tail <= p < head + n :: slots[Index(p, n)].sequence == p)
  }

  /** The entries waiting in the ring, oldest first. */
  ghost function Payloads(slots: seq<Slot>, head: nat, tail: nat): (entries: seq<Ptr>)
    requires Ringed(slots, head, tail)
    ensures |entries| == tail - head
  {
    seq(tail - head, i requires 0 <= i < tail - head => slots[Index(head + i, |slots|)].payload)
  }

  /** Filling the free slot of ticket tail appends the entry. */
  lemma Appends(slots: seq<Slot>, head: nat, tail: nat, e: Ptr, slots': seq<Slot>)
    requires Ringed(slots, head, tail) && tail < head + |slots|
    requires slots' == slots[Index(tail, |slots|) := Slot(tail + 1, e)]
    ensures Ringed(slots', head, tail + 1)
    ensures Payloads(slots', head, tail + 1) == Payloads(slots, head, tail) + [e]
  {
    SeparateSlots(tail, |slots|);
    hide Index;
  }

  /** Emptying the slot of ticket head removes the oldest entry and frees the slot for head + N. */
  lemma Removes(slots: seq<Slot>, head: nat, tail: nat, slots': seq<Slot>)
    requires Ringed(slots, head, tail) && head < tail
    requires slots' == slots[Index(head, |slots|) := Slot(head + |slots|, Null)]
    ensures Ringed(slots', head + 1, tail)
    ensures Payloads(slots, head, tail) == [slots[Index(head, |slots|)].payload] + Payloads(slots', head + 1, tail)
  {
    SeparateSlots(head, |slots|);
    IndexWraps(head, |slots|);
    hide Index;
  }

  /** What the two loops find at their position, so that neither re-reads its counter. */
  lemma AtTail(slots: seq<Slot>, head: nat, tail: nat)
    requires Ringed(slots, head, tail)
    ensures slots[Index(tail, |slots|)].sequence == if tail < head + |slots| then tail else head + 1
    ensures slots[Index(head, |slots|)].sequence == if head < tail then head + 1 else head
  {
    IndexWraps(head, |slots|);
    hide Index;
  }

  lemma {:induction false} OneIndex(p: nat)
    ensures Index(p, 1) == 0
  {
    if p >= 1 { OneIndex(p - 1); }
  }

  /** A ring of one slot: "published" and "free" are the same number there, so the slot always looks free. */
  predicate Single(slots: seq<Slot>, head: nat, tail: nat) {
    |slots| == 1 && head <= tail && slots[0].sequence == tail
  }

  class Ring {
    const slots: array<Slot>
    var head: nat
    var tail: nat

    ghost predicate Valid()
      reads this, slots
    {
      if slots.Length == 1 then Single(slots[..], head, tail) else Ringed(slots[..], head, tail)
    }

    ghost function Contents(): (entries: seq<Ptr>)
      requires Valid()
      reads this, slots
    {
      if slots.Length >= 2 then Payloads(slots[..], head, tail)
      else if head < tail then [slots[0].payload]
      else []
    }

    /** The source's constructor: it throws unless the capacity is a power of two. */
    static method Create(capacity: nat) returns (ring: Ring?)
      ensures (ring == null) == !Bits.PowerOfTwo(capacity)
      ensures ring != null ==>
                ring.slots.Length == capacity && ring.Valid() && ring.Contents() == []
      ensures ring != null ==> fresh(ring) && fresh(ring.slots)
    {
      Bits.CapacityTest(capacity);
      if capacity == 0 || Bits.And(capacity, capacity - 1) != 0 {
        ring := null;
      } else {
        ring := new Ring(capacity);
      }
    }

    constructor (capacity: nat)
      requires capacity >= 1
      ensures slots.Length == capacity && fresh(slots)
      ensures Valid() && Contents() == []
    {
      slots := new Slot[capacity](_ => Slot(0, Null));
      head, tail := 0, 0;
      new;
      for i := 0 to capacity
        invariant head == tail == 0
        invariant forall j | 0 <= j < i :: slots[j].sequence == j
      {
        slots[i] := slots[i].(sequence := i);
      }
      forall p: nat | p < capacity ensures Index(p, capacity) == p { }
    }

    /** The weak compare-and-swap: it may fail although the counter equals the expected value. */
    method CompareExchangeTail(expected: nat, spurious: bool) returns (ok: bool, observed: nat)
      modifies this`tail
      ensures ok == (old(tail) == expected && !spurious)
      ensures observed == old(tail) && tail == if ok then expected + 1 else old(tail)
    {
      ok, observed := tail == expected && !spurious, tail;
      if ok { tail := expected + 1; }
    }

    method CompareExchangeHead(expected: nat, spurious: bool) returns (ok: bool, observed: nat)
      modifies this`head
      ensures ok == (old(head) == expected && !spurious)
      ensures observed == old(head) && head == if ok then expected + 1 else old(head)
    {
      ok, observed := head == expected && !spurious, head;
      if ok { head := expected + 1; }
    }

    /**
     Appends the entry unless the queue holds N entries already; a ring of one slot is never
     found full, and what it held is overwritten.  misses is how often the compare-and-swap
     fails spuriously on the way.
     */
    method Push(entry: Ptr, misses: nat) returns (ok: bool)
      requires Valid()
      modifies this`tail, slots
      ensures Valid()
      ensures ok == (slots.Length == 1 || |old(Contents())| < slots.Length)
      ensures Contents() == if !ok then old(Contents())
              else if slots.Length == 1 then [entry] else old(Contents()) + [entry]
    {
      var left, pos := misses, tail;
      ghost var before := slots[..];
      hide Index;
      while true
        invariant pos == tail == old(tail) && head == old(head) && slots[..] == before
        decreases left
      {
        if slots.Length >= 2 { AtTail(slots[..], head, tail); } else { OneIndex(pos); }
        var diff := slots[Index(pos, slots.Length)].sequence - pos;
        if diff == 0 {
          var won, observed := CompareExchangeTail(pos, left > 0);
          if won {
            var i := Index(pos, slots.Length);
            slots[i] := slots[i].(payload := entry);
            slots[i] := slots[i].(sequence := pos + 1);
            if slots.Length >= 2 { Appends(before, head, pos, entry, slots[..]); }
            return true;
          }
          pos, left := observed, left - 1;
        } else if diff < 0 {
          return false;
        } else {
          assert false;
          return false;
        }
      }
    }

    /**
     Removes the oldest entry.  The caller's entry is left alone when the queue is empty;
     a null entry is removed but reported as failure.  On one slot that has been overwritten
     the loop would never end: SingleSlotSpins.
     */
    method Pop(entry: Ptr, misses: nat) returns (ok: bool, result: Ptr)
      requires Valid() && (slots.Length == 1 ==> tail <= head + 1)
      modifies this`head, slots
      ensures Valid()
      ensures result == if old(Contents()) == [] then entry else old(Contents())[0]
      ensures ok == (old(Contents()) != [] && result != Null)
      ensures Contents() == if old(Contents()) == [] then [] else old(Contents())[1..]
    {
      var left, pos := misses, head;
      ghost var before := slots[..];
      hide Index;
      while true
        invariant pos == head == old(head) && tail == old(tail) && slots[..] == before
        decreases left
      {
        if slots.Length >= 2 { AtTail(slots[..], head, tail); } else { OneIndex(pos); }
        var diff := slots[Index(pos, slots.Length)].sequence - (pos + 1);
        if diff == 0 {
          var won, observed := CompareExchangeHead(pos, left > 0);
          if won {
            var i := Index(pos, slots.Length);
            result := slots[i].payload;
            slots[i] := slots[i].(payload := Null);
            slots[i] := slots[i].(sequence := pos + slots.Length);
            if slots.Length >= 2 { Removes(before, pos, tail, slots[..]); }
            return result != Null, result;
          }
          pos, left := observed, left - 1;
        } else if diff < 0 {
          return false, entry;
        } else {
          assert false;
          return false, entry;
        }
      }
    }
  }

  /** A thread that pops: nothing but its own steps. */
  function Alone(t: Tid, k: nat): seq<Action> { seq(k, _ => Run(t, false)) }

  /**
   One slot that has been overwritten is neither what pop waits for nor behind it: alone, a
   pop goes on re-reading the counter for ever.
   */
  lemma {:induction false} SingleSlotSpins(s: State, t: Tid, k: nat)
    requires Single(s.c.slots, s.c.head, s.c.tail) && s.c.tail > s.c.head + 1 && t in s.c.threads
    requires s.c.threads[t] == PopLoadHead || s.c.threads[t] == PopLoadSequence(s.c.head)
    ensures var r := Exec(s, Alone(t, k));
            t in r.c.threads && (r.c.threads[t] == PopLoadHead || r.c.threads[t] == PopLoadSequence(s.c.head))
    decreases k
  {
    if k > 0 {
      OneIndex(s.c.head);
      hide Index;
      assert Alone(t, k)[0] == Run(t, false) && Alone(t, k)[1..] == Alone(t, k - 1);
      SingleSlotSpins(Step(s, Run(t, false)), t, k - 1);
    }
  }
}
