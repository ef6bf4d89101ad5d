/**
 The bounded log queue of the coroutine server: a ring of N slots, each with a
 sequence number and a payload pointer, and two ticket counters, tail and head.

 Every thread is a program counter over the atomic accesses of push and pop.  A
 run is a list of actions; each action lets one thread perform one atomic access,
 so runs range over all interleavings under sequential consistency.  The weak
 compare-and-swap may fail although the counter matches.  Counters are unbounded
 here; LogQueueMachine shows that 64-bit counters behave the same.
 */
module LogQueue {
  import opened Basics
  import Bits

  type Tid = nat

  /** A shared pointer to a formatted line, possibly null. */
  datatype Ptr = Null | Line(text: string)

  datatype Slot = Slot(sequence: nat, payload: Ptr)

  /** Where a thread stands in push or pop; pos is the local variable of that name. */
  datatype Pc =
    | Idle
    | PushLoadTail(entry: Ptr)
    | PushLoadSequence(entry: Ptr, pos: nat)
    | PushClaim(entry: Ptr, pos: nat)
    | PushStore(entry: Ptr, pos: nat)
    | PushPublish(pos: nat)
    | PushReturn(ok: bool)
    | PopLoadHead
    | PopLoadSequence(pos: nat)
    | PopClaim(pos: nat)
    | PopTake(pos: nat)
    | PopRecycle(pos: nat, entry: Ptr)
    | PopReturn(ok: bool, entry: Ptr)

  /** The shared memory of the queue together with every thread's program counter. */
  datatype Config = Config(slots: seq<Slot>, head: nat, tail: nat, threads: map<Tid, Pc>) {
    function Go(t: Tid, pc: Pc): Config { this.(threads := threads[t := pc]) }
  }

  /** The life of a ticket that has been claimed by a push. */
  datatype Status = Writing(owner: Tid) | Published | Reading(owner: Tid) | Recycled

  /**
   What happened so far, by ticket.  It is only written, never consulted by a step.
   pushed[p] and pushers[p]: the entry and the thread of the push that claimed ticket p;
   taken[p]: what the pop that claimed ticket p exchanged out of the slot.
   */
  datatype History = History(pushed: seq<Ptr>, pushers: seq<Tid>, taken: seq<Option<Ptr>>, status: seq<Status>)

  datatype State = State(c: Config, h: History)

  datatype Action =
    | CallPush(t: Tid, entry: Ptr)
    | CallPop(t: Tid)
    | Run(t: Tid, spurious: bool)

  /** The slot a position refers to; IndexIsModulo shows that it is the remainder. */
  function Index(p: nat, n: nat): (i: nat)
    requires n > 0
    ensures i < n
  {
    if p < n then p else Index(p - n, n)
  }

  function Put<T>(s: seq<T>, i: nat, x: T): seq<T> {
    if i < |s| then s[i := x] else s
  }

  function Init(n: nat, tids: set<Tid>): State {
    State(Config(seq(n, i requires 0 <= i => Slot(i, Null)), 0, 0, map t | t in tids :: Idle),
          History([], [], [], []))
  }

  function SlotAt(c: Config, pos: nat): Slot
    requires |c.slots| > 0
  {
    c.slots[Index(pos, |c.slots|)]
  }

  function WriteSlot(c: Config, pos: nat, s: Slot): Config
    requires |c.slots| > 0
  {
    c.(slots := c.slots[Index(pos, |c.slots|) := s])
  }

  /** One atomic access of thread t on the shared memory. */
  function Access(c: Config, t: Tid, spurious: bool): Config
    requires |c.slots| > 0 && t in c.threads
  {
    match c.threads[t]
    case PushLoadTail(e) => c.Go(t, PushLoadSequence(e, c.tail))
    case PushLoadSequence(e, pos) =>
      var diff := SlotAt(c, pos).sequence - pos;
      c.Go(t, if diff == 0 then PushClaim(e, pos) else if diff < 0 then PushReturn(false) else PushLoadTail(e))
    case PushClaim(e, pos) =>
      if c.tail == pos && !spurious then c.(tail := pos + 1).Go(t, PushStore(e, pos))
      else c.Go(t, PushLoadSequence(e, c.tail))
    case PushStore(e, pos) => WriteSlot(c, pos, SlotAt(c, pos).(payload := e)).Go(t, PushPublish(pos))
    case PushPublish(pos) =>
      WriteSlot(c, pos, SlotAt(c, pos).(sequence := pos + 1)).Go(t, PushReturn(true))
    case PopLoadHead => c.Go(t, PopLoadSequence(c.head))
    case PopLoadSequence(pos) =>
      var diff := SlotAt(c, pos).sequence - (pos + 1);
      c.Go(t, if diff == 0 then PopClaim(pos) else if diff < 0 then PopReturn(false, Null) else PopLoadHead)
    case PopClaim(pos) =>
      if c.head == pos && !spurious then c.(head := pos + 1).Go(t, PopTake(pos))
      else c.Go(t, PopLoadSequence(c.head))
    case PopTake(pos) =>
      WriteSlot(c, pos, SlotAt(c, pos).(payload := Null)).Go(t, PopRecycle(pos, SlotAt(c, pos).payload))
    case PopRecycle(pos, e) =>
      WriteSlot(c, pos, SlotAt(c, pos).(sequence := pos + |c.slots|)).Go(t, PopReturn(e != Null, e))
    case _ => c
  }

  /** What the same access adds to the history. */
  function Record(c: Config, h: History, t: Tid, spurious: bool): History
    requires |c.slots| > 0 && t in c.threads
  {
    match c.threads[t]
    case PushClaim(e, pos) =>
      if c.tail == pos && !spurious
      then h.(pushed := h.pushed + [e], pushers := h.pushers + [t], status := h.status + [Writing(t)])
      else h
    case PushPublish(pos) => h.(status := Put(h.status, pos, Published))
    case PopClaim(pos) =>
      if c.head == pos && !spurious
      then h.(taken := h.taken + [None], status := Put(h.status, pos, Reading(t)))
      else h
    case PopTake(pos) => h.(taken := Put(h.taken, pos, Some(SlotAt(c, pos).payload)))
    case PopRecycle(pos, _) => h.(status := Put(h.status, pos, Recycled))
    case _ => h
  }

  predicate AtRest(pc: Pc) { pc.Idle? || pc.PushReturn? || pc.PopReturn? }

  function Step(s: State, a: Action): State
    requires |s.c.slots| > 0
  {
    if a.t !in s.c.threads then s else
    match a
    case CallPush(t, e) => if AtRest(s.c.threads[t]) then s.(c := s.c.Go(t, PushLoadTail(e))) else s
    case CallPop(t) => if AtRest(s.c.threads[t]) then s.(c := s.c.Go(t, PopLoadHead)) else s
    case Run(t, spurious) => State(Access(s.c, t, spurious), Record(s.c, s.h, t, spurious))
  }

  function Exec(s: State, run: seq<Action>): (r: State)
    requires |s.c.slots| > 0
    ensures |r.c.slots| == |s.c.slots|
    decreases |run|
  {
    if run == [] then s else Exec(Step(s, run[0]), run[1..])
  }

  // ---------------------------------------------------------------- the index

  lemma {:induction false} IndexIsModulo(p: nat, n: nat)
    requires n > 0
    ensures Index(p, n) == p % n
  {
    if p >= n {
      IndexIsModulo(p - n, n);
      assert p % n == (p - n) % n by { ModMinus(p, n); }
    }
  }

  lemma ModMinus(p: nat, n: nat)
    requires 0 < n <= p
    ensures p % n == (p - n) % n
  {
    Bits.Remainder(p, n, (p - n) / n + 1, (p - n) % n);
  }

  /** Distinct tickets less than N apart never share a slot. */
  lemma {:induction false} IndexSeparates(p: nat, q: nat, n: nat)
    requires n > 0 && p < q < p + n
    ensures Index(p, n) != Index(q, n)
  {
    if p >= n { IndexSeparates(p - n, q - n, n); }
    else if q >= n { assert Index(q, n) == q - n; }
  }

  // ------------------------------------------------------------ the invariant

  /** The sequence number that a ticket in the window leaves in its slot. */
  function SequenceOf(p: nat, st: Status, n: nat): nat {
    match st
    case Writing(_) => p
    case Published => p + 1
    case Reading(_) => p + 1
    case Recycled => p + n
  }

  predicate Taking(st: Status) { st.Reading? || st.Recycled? }

  ghost predicate Shape(s: State) {
    && |s.c.slots| >= 2
    && |s.h.status| == |s.h.pushed| == |s.h.pushers| == s.c.tail
    && |s.h.taken| == s.c.head <= s.c.tail <= s.c.head + |s.c.slots|
    && (forall p | 0 <= p < s.c.tail :: p < s.c.head <==> Taking(s.h.status[p]))
    && (forall p | 0 <= p < s.c.tail - |s.c.slots| :: s.h.status[p].Recycled?)
  }

  ghost predicate Sequences(s: State)
    requires Shape(s)
  {
    var n := |s.c.slots|;
    && (forall p | s.c.tail <= p < n :: s.c.slots[p].sequence == p)
    && (forall p: nat | s.c.tail - n <= p < s.c.tail ::
          s.c.slots[Index(p, n)].sequence == SequenceOf(p, s.h.status[p], n))
    && (forall p: nat | p < s.c.tail :: s.c.slots[Index(p, n)].sequence >= p)
    && (forall p: nat | p < s.c.head :: s.c.slots[Index(p, n)].sequence >= p + 1)
  }

  /** What a thread's program counter says about the ticket it works on. */
  ghost predicate ThreadOk(s: State, t: Tid, pc: Pc)
    requires Shape(s)
  {
    match pc
    case PushLoadSequence(e, pos) => pos <= s.c.tail
    case PushClaim(e, pos) => pos <= s.c.tail && s.c.slots[Index(pos, |s.c.slots|)].sequence >= pos
    case PushStore(e, pos) => pos < s.c.tail && s.h.status[pos] == Writing(t) && s.h.pushed[pos] == e
    case PushPublish(pos) =>
      pos < s.c.tail && s.h.status[pos] == Writing(t) && s.c.slots[Index(pos, |s.c.slots|)].payload == s.h.pushed[pos]
    case PopLoadSequence(pos) => pos <= s.c.head
    case PopClaim(pos) => pos <= s.c.head && s.c.slots[Index(pos, |s.c.slots|)].sequence >= pos + 1
    case PopTake(pos) =>
      pos < s.c.head && s.h.status[pos] == Reading(t) && s.c.slots[Index(pos, |s.c.slots|)].payload == s.h.pushed[pos]
      && s.h.taken[pos] == None
    case PopRecycle(pos, e) =>
      pos < s.c.head && s.h.status[pos] == Reading(t) && e == s.h.pushed[pos] && s.h.taken[pos] == Some(e)
    case _ => true
  }

  predicate Writes(pc: Pc, p: nat) { (pc.PushStore? || pc.PushPublish?) && pc.pos == p }

  predicate Reads(pc: Pc, p: nat) { (pc.PopTake? || pc.PopRecycle?) && pc.pos == p }

  /** What the status of a claimed ticket says about its owner and about its entry. */
  ghost predicate TicketOk(s: State, p: nat, st: Status)
    requires Shape(s) && p < s.c.tail && s.h.status[p] == st
  {
    match st
    case Writing(t) => t in s.c.threads && Writes(s.c.threads[t], p)
    case Published => s.c.slots[Index(p, |s.c.slots|)].payload == s.h.pushed[p]
    case Reading(t) => t in s.c.threads && Reads(s.c.threads[t], p)
    case Recycled => s.h.taken[p] == Some(s.h.pushed[p])
  }

  ghost predicate Inv(s: State) {
    && Shape(s)
    && Sequences(s)
    && (forall t | t in s.c.threads :: ThreadOk(s, t, s.c.threads[t]))
    && (forall p: nat | p < s.c.tail :: TicketOk(s, p, s.h.status[p]))
  }

  lemma InitInv(n: nat, tids: set<Tid>)
    requires n >= 2
    ensures Inv(Init(n, tids))
  {
  }

  lemma LocalStep(s: State, t: Tid, pc: Pc)
    requires Inv(s) && t in s.c.threads
    requires AtRest(pc) || pc.PushLoadTail? || pc.PopLoadHead? || ThreadOk(s, t, pc)
    requires forall p: nat :: !Writes(s.c.threads[t], p) && !Reads(s.c.threads[t], p)
    ensures Inv(s.(c := s.c.Go(t, pc)))
  {
    var s' := s.(c := s.c.Go(t, pc));
    hide Index;
    assert Shape(s') && Sequences(s');
    hide Sequences;
    forall p: nat | p < s'.c.tail ensures TicketOk(s', p, s'.h.status[p]) {
      assert TicketOk(s, p, s.h.status[p]);
    }
    hide TicketOk;
    forall u | u in s'.c.threads ensures ThreadOk(s', u, s'.c.threads[u]) {
      if u != t { assert ThreadOk(s, u, s.c.threads[u]); }
    }
  }

  /** Every other ticket of the window uses another slot than p. */
  lemma SeparateSlots(p: nat, n: nat)
    requires n > 0
    ensures forall q: nat | p < q < p + n :: Index(q, n) != Index(p, n)
    ensures forall q: nat | q < p < q + n :: Index(q, n) != Index(p, n)
  {
    forall q: nat | p < q < p + n ensures Index(q, n) != Index(p, n) { IndexSeparates(p, q, n); }
    forall q: nat | q < p < q + n ensures Index(q, n) != Index(p, n) { IndexSeparates(q, p, n); }
  }

  lemma IndexWraps(p: nat, n: nat)
    requires n > 0
    ensures p < n ==> Index(p, n) == p
    ensures Index(p + n, n) == Index(p, n)
  {
  }

  /** s' differs from s at most in thread t, in its ticket p and in that ticket's slot. */
  ghost predicate OwnerMoves(s: State, t: Tid, p: nat, s': State)
    requires Shape(s) && Shape(s')
  {
    var n := |s.c.slots|;
    && |s'.c.slots| == n && s'.c.head == s.c.head && s'.c.tail == s.c.tail && s'.h.pushed == s.h.pushed
    && t in s.c.threads && p < s.c.tail && (Writes(s.c.threads[t], p) || Reads(s.c.threads[t], p))
    && s'.c.threads.Keys == s.c.threads.Keys
    && (forall u | u in s.c.threads && u != t :: s'.c.threads[u] == s.c.threads[u])
    && (forall i | 0 <= i < n && i != Index(p, n) :: s'.c.slots[i] == s.c.slots[i])
    && s'.c.slots[Index(p, n)].sequence >= s.c.slots[Index(p, n)].sequence
    && (forall q | 0 <= q < s.c.tail && q != p :: s'.h.status[q] == s.h.status[q])
    && (forall q | 0 <= q < s.c.head && q != p :: s'.h.taken[q] == s.h.taken[q])
  }

  /** A ticket that is not recycled lies in the window, so it shares its slot with no other such ticket. */
  lemma OwnersApart(s: State, p: nat, q: nat)
    requires Shape(s) && p < s.c.tail && q < s.c.tail && p != q
    requires !s.h.status[p].Recycled? && !s.h.status[q].Recycled?
    ensures Index(p, |s.c.slots|) != Index(q, |s.c.slots|)
  {
    if p < q { IndexSeparates(p, q, |s.c.slots|); } else { IndexSeparates(q, p, |s.c.slots|); }
  }

  lemma OtherThread(s: State, t: Tid, p: nat, s': State, u: Tid)
    requires Inv(s) && Shape(s') && OwnerMoves(s, t, p, s') && u in s.c.threads && u != t
    ensures ThreadOk(s', u, s'.c.threads[u])
  {
    hide Index;
    hide Sequences;
    hide TicketOk;
    var pc := s.c.threads[u];
    assert ThreadOk(s, t, s.c.threads[t]) && ThreadOk(s, u, pc);
    if pc.PushStore? || pc.PushPublish? || pc.PopTake? || pc.PopRecycle? { OwnersApart(s, p, pc.pos); }
  }

  lemma OtherTicket(s: State, t: Tid, p: nat, s': State, q: nat)
    requires Inv(s) && Shape(s') && OwnerMoves(s, t, p, s') && q < s.c.tail && q != p
    ensures TicketOk(s', q, s'.h.status[q])
  {
    hide Index;
    hide Sequences;
    assert ThreadOk(s, t, s.c.threads[t]) && TicketOk(s, q, s.h.status[q]);
    if s.h.status[q].Published? { OwnersApart(s, p, q); }
  }

  lemma SequenceKept(s: State, t: Tid, p: nat, s': State, q: nat)
    requires Inv(s) && Shape(s') && OwnerMoves(s, t, p, s') && !s.h.status[p].Recycled?
    requires s'.c.slots[Index(p, |s.c.slots|)].sequence == SequenceOf(p, s'.h.status[p], |s.c.slots|)
    requires s.c.tail - |s.c.slots| <= q < s.c.tail
    ensures s'.c.slots[Index(q, |s.c.slots|)].sequence == SequenceOf(q, s'.h.status[q], |s.c.slots|)
  {
    if q < p { IndexSeparates(q, p, |s.c.slots|); } else if p < q { IndexSeparates(p, q, |s.c.slots|); }
    hide Index;
    hide ThreadOk;
    hide TicketOk;
  }

  lemma SequencesKept(s: State, t: Tid, p: nat, s': State)
    requires Inv(s) && Shape(s') && OwnerMoves(s, t, p, s') && !s.h.status[p].Recycled?
    requires s'.c.slots[Index(p, |s.c.slots|)].sequence == SequenceOf(p, s'.h.status[p], |s.c.slots|)
    ensures Sequences(s')
  {
    hide ThreadOk;
    hide TicketOk;
    var n := |s.c.slots|;
    IndexWraps(p, n);
    hide Index;
    forall q: nat | s'.c.tail - n <= q < s'.c.tail
      ensures s'.c.slots[Index(q, n)].sequence == SequenceOf(q, s'.h.status[q], n)
    {
      SequenceKept(s, t, p, s', q);
    }
    assert forall q: nat | q < s'.c.tail :: s'.c.slots[Index(q, n)].sequence >= s.c.slots[Index(q, n)].sequence;
  }

  lemma OthersKeep(s: State, t: Tid, p: nat, s': State)
    requires Inv(s) && Shape(s') && OwnerMoves(s, t, p, s')
    requires ThreadOk(s', t, s'.c.threads[t]) && TicketOk(s', p, s'.h.status[p])
    requires s'.c.slots[Index(p, |s.c.slots|)].sequence == SequenceOf(p, s'.h.status[p], |s.c.slots|)
    ensures Sequences(s')
    ensures forall u | u in s'.c.threads :: ThreadOk(s', u, s'.c.threads[u])
    ensures forall q: nat | q < s'.c.tail :: TicketOk(s', q, s'.h.status[q])
  {
    assert ThreadOk(s, t, s.c.threads[t]);
    SequencesKept(s, t, p, s');
    forall u | u in s'.c.threads ensures ThreadOk(s', u, s'.c.threads[u]) {
      if u != t { OtherThread(s, t, p, s', u); }
    }
    forall q: nat | q < s'.c.tail ensures TicketOk(s', q, s'.h.status[q]) {
      if q != p { OtherTicket(s, t, p, s', q); }
    }
  }

  /** Thread t stores its entry in the slot of its ticket p. */
  lemma PushStores(s: State, t: Tid, e: Ptr, p: nat, s': State)
    requires Inv(s) && t in s.c.threads && s.c.threads[t] == PushStore(e, p)
    requires s' == s.(c := WriteSlot(s.c, p, SlotAt(s.c, p).(payload := e)).Go(t, PushPublish(p)))
    ensures Inv(s')
  {
    assert ThreadOk(s, t, s.c.threads[t]) && TicketOk(s, p, s.h.status[p]);
    hide Index;
    assert Shape(s');
    OthersKeep(s, t, p, s');
  }

  /** Thread t publishes its ticket p. */
  lemma PushPublishes(s: State, t: Tid, p: nat, s': State)
    requires Inv(s) && t in s.c.threads && s.c.threads[t] == PushPublish(p)
    requires p < |s.h.status|
    requires s' == State(WriteSlot(s.c, p, SlotAt(s.c, p).(sequence := p + 1)).Go(t, PushReturn(true)),
                         s.h.(status := s.h.status[p := Published]))
    ensures Inv(s')
  {
    assert ThreadOk(s, t, s.c.threads[t]) && TicketOk(s, p, s.h.status[p]);
    hide Index;
    assert Shape(s');
    OthersKeep(s, t, p, s');
  }

  /** Thread t exchanges the payload of its ticket p for null. */
  lemma PopTakes(s: State, t: Tid, p: nat, s': State)
    requires Inv(s) && t in s.c.threads && s.c.threads[t] == PopTake(p)
    requires p < |s.h.taken|
    requires s' == State(
                     WriteSlot(s.c, p, SlotAt(s.c, p).(payload := Null)).Go(t, PopRecycle(p, SlotAt(s.c, p).payload)),
                     s.h.(taken := s.h.taken[p := Some(SlotAt(s.c, p).payload)]))
    ensures Inv(s')
  {
    assert ThreadOk(s, t, s.c.threads[t]) && TicketOk(s, p, s.h.status[p]);
    hide Index;
    assert Shape(s');
    OthersKeep(s, t, p, s');
  }

  /** Thread t hands the slot of its ticket p to ticket p + N. */
  lemma PopRecycles(s: State, t: Tid, p: nat, e: Ptr, s': State)
    requires Inv(s) && t in s.c.threads && s.c.threads[t] == PopRecycle(p, e)
    requires p < |s.h.status|
    requires s' == State(
                     WriteSlot(s.c, p, SlotAt(s.c, p).(sequence := p + |s.c.slots|)).Go(t, PopReturn(e != Null, e)),
                     s.h.(status := s.h.status[p := Recycled]))
    ensures Inv(s')
  {
    assert ThreadOk(s, t, s.c.threads[t]) && TicketOk(s, p, s.h.status[p]);
    hide Index;
    assert Shape(s');
    OthersKeep(s, t, p, s');
  }

  lemma PushClaimSequences(s: State, s': State)
    requires Shape(s) && Shape(s') && Sequences(s) && SlotAt(s.c, s.c.tail).sequence == s.c.tail
    requires s'.c.slots == s.c.slots && s'.c.head == s.c.head && s'.c.tail == s.c.tail + 1
    requires s.h.status <= s'.h.status && s'.h.status[s.c.tail].Writing?
    ensures Sequences(s')
  {
    hide Index;
  }

  /** Thread t claims ticket tail for an entry. */
  lemma PushClaims(s: State, t: Tid, e: Ptr, s': State)
    requires Inv(s) && t in s.c.threads && s.c.threads[t] == PushClaim(e, s.c.tail)
    requires s' == State(s.c.(tail := s.c.tail + 1, threads := s.c.threads[t := PushStore(e, s.c.tail)]),
                         s.h.(pushed := s.h.pushed + [e], pushers := s.h.pushers + [t],
                              status := s.h.status + [Writing(t)]))
    ensures Inv(s')
  {
    hide ThreadOk;
    hide Sequences;
    var n, p := |s.c.slots|, s.c.tail;
    assert p >= n ==> s.h.status[p - n].Recycled? by { TailIsFree(s, t); }
    assert s.c.slots[Index(p, n)].sequence == p by { TailIsFree(s, t); }
    SeparateSlots(p, n);
    IndexWraps(p, n);
    hide Index;
    assert Shape(s');
    PushClaimSequences(s, s');
    forall u | u in s'.c.threads ensures ThreadOk(s', u, s'.c.threads[u]) { PushClaimThread(s, t, e, s', u); }
    forall q: nat | q < s'.c.tail ensures TicketOk(s', q, s'.h.status[q]) {
      if q != p { assert TicketOk(s, q, s.h.status[q]); }
    }
  }

  lemma PushClaimThread(s: State, t: Tid, e: Ptr, s': State, u: Tid)
    requires Inv(s) && t in s.c.threads && s.c.threads[t] == PushClaim(e, s.c.tail)
    requires s' == State(s.c.(tail := s.c.tail + 1, threads := s.c.threads[t := PushStore(e, s.c.tail)]),
                         s.h.(pushed := s.h.pushed + [e], pushers := s.h.pushers + [t],
                              status := s.h.status + [Writing(t)]))
    requires Shape(s') && u in s'.c.threads
    ensures ThreadOk(s', u, s'.c.threads[u])
  {
    if u != t { assert ThreadOk(s, u, s.c.threads[u]); }
    hide Index;
    hide Sequences;
    hide TicketOk;
  }

  /** A push whose claim succeeds finds its slot recycled; this is where N must exceed 1. */
  lemma TailIsFree(s: State, t: Tid)
    requires Inv(s) && t in s.c.threads && s.c.threads[t].PushClaim? && s.c.threads[t].pos == s.c.tail
    ensures s.c.tail >= |s.c.slots| ==> s.h.status[s.c.tail - |s.c.slots|].Recycled?
    ensures SlotAt(s.c, s.c.tail).sequence == s.c.tail
  {
    var n, p := |s.c.slots|, s.c.tail;
    assert ThreadOk(s, t, s.c.threads[t]);
    IndexWraps(p, n);
    if p >= n {
      var q: nat := p - n;
      IndexWraps(q, n);
      assert s.c.slots[Index(q, n)].sequence == SequenceOf(q, s.h.status[q], n);
    }
  }

  lemma PopClaimSequences(s: State, t: Tid, s': State)
    requires Inv(s) && s.c.head < s.c.tail && s.h.status[s.c.head] == Published
    requires s' == State(s.c.(head := s.c.head + 1, threads := s.c.threads[t := PopTake(s.c.head)]),
                         s.h.(taken := s.h.taken + [None], status := s.h.status[s.c.head := Reading(t)]))
    ensures Shape(s') && Sequences(s')
  {
    hide Index;
    hide ThreadOk;
    hide TicketOk;
  }

  /** Thread t claims ticket head, which a push has published. */
  lemma PopClaims(s: State, t: Tid, s': State)
    requires Inv(s) && t in s.c.threads && s.c.threads[t] == PopClaim(s.c.head)
    requires s.c.head < s.c.tail && s.h.status[s.c.head] == Published
    requires s' == State(s.c.(head := s.c.head + 1, threads := s.c.threads[t := PopTake(s.c.head)]),
                         s.h.(taken := s.h.taken + [None], status := s.h.status[s.c.head := Reading(t)]))
    ensures Inv(s')
  {
    hide Index;
    hide Sequences;
    PopClaimSequences(s, t, s');
    forall u | u in s'.c.threads ensures ThreadOk(s', u, s'.c.threads[u]) {
      assert u != t ==> ThreadOk(s, u, s.c.threads[u]);
    }
    forall q: nat | q < s'.c.tail ensures TicketOk(s', q, s'.h.status[q]) {
      assert TicketOk(s, q, s.h.status[q]);
    }
  }

  /** A pop whose claim succeeds finds a published ticket. */
  lemma HeadIsPublished(s: State, t: Tid)
    requires Inv(s) && t in s.c.threads && s.c.threads[t] == PopClaim(s.c.head)
    ensures s.c.head < s.c.tail && s.h.status[s.c.head] == Published
  {
    var n, p := |s.c.slots|, s.c.head;
    assert ThreadOk(s, t, s.c.threads[t]);
    assert s.c.slots[Index(p, n)].sequence >= p + 1;
    IndexWraps(p, n);
    if p >= n { IndexWraps(p - n, n); }
    hide Index;
  }

  /** Every atomic access keeps the invariant. */
  lemma StepInv(s: State, a: Action)
    requires Inv(s)
    ensures Inv(Step(s, a))
  {
    hide Sequences;
    hide TicketOk;
    if a.t in s.c.threads {
      var t, s', n := a.t, Step(s, a), |s.c.slots|;
      var pc := s.c.threads[t];
      assert ThreadOk(s, t, pc);
      if a.Run? && pc.PushClaim? && s.c.tail == pc.pos && !a.spurious {
        PushClaims(s, t, pc.entry, s');
      } else if a.Run? && pc.PopClaim? && s.c.head == pc.pos && !a.spurious {
        HeadIsPublished(s, t);
        PopClaims(s, t, s');
      } else if a.Run? && pc.PushStore? {
        PushStores(s, t, pc.entry, pc.pos, s');
      } else if a.Run? && pc.PushPublish? {
        PushPublishes(s, t, pc.pos, s');
      } else if a.Run? && pc.PopTake? {
        PopTakes(s, t, pc.pos, s');
      } else if a.Run? && pc.PopRecycle? {
        PopRecycles(s, t, pc.pos, pc.entry, s');
      } else if s' != s {
        hide Index;
        LocalStep(s, t, s'.c.threads[t]);
      }
    }
  }

  lemma {:induction false} ExecInv(s: State, run: seq<Action>)
    requires Inv(s)
    ensures Inv(Exec(s, run))
    decreases |run|
  {
    if run != [] {
      StepInv(s, run[0]);
      ExecInv(Step(s, run[0]), run[1..]);
    }
  }

  // ------------------------------------------------------------- main results

  /**
   FIFO, nothing lost, nothing twice: in every interleaving, whatever a pop exchanged
   out of the slot of its ticket is the entry of the push that claimed the same ticket,
   and a pop that has claimed a ticket without having exchanged yet is still running.
   */
  lemma Fifo(n: nat, tids: set<Tid>, run: seq<Action>, p: nat)
    requires n >= 2
    ensures var s := Exec(Init(n, tids), run);
            && |s.h.taken| == s.c.head <= |s.h.pushed| == s.c.tail <= s.c.head + n
            && (p < s.c.head ==>
                  || s.h.taken[p] == Some(s.h.pushed[p])
                  || (s.h.taken[p] == None && exists t :: t in s.c.threads && s.c.threads[t] == PopTake(p)))
  {
    InitInv(n, tids);
    ExecInv(Init(n, tids), run);
    var s := Exec(Init(n, tids), run);
    if p < s.c.head {
      assert TicketOk(s, p, s.h.status[p]);
      match s.h.status[p]
      case Reading(t) => assert ThreadOk(s, t, s.c.threads[t]);
      case Recycled =>
    }
  }

  function Values(taken: seq<Option<Ptr>>): (r: seq<Ptr>)
    ensures |r| == |taken|
    ensures forall i | 0 <= i < |taken| && taken[i].Some? :: r[i] == taken[i].value
  {
    seq(|taken|, i requires 0 <= i < |taken| => if taken[i].Some? then taken[i].value else Null)
  }

  /** When no thread is inside push or pop, the values taken are exactly the first head values pushed. */
  lemma FifoAtRest(n: nat, tids: set<Tid>, run: seq<Action>)
    requires n >= 2
    requires var s := Exec(Init(n, tids), run); forall t | t in s.c.threads :: AtRest(s.c.threads[t])
    ensures var s := Exec(Init(n, tids), run);
            s.c.head <= |s.h.pushed| && Values(s.h.taken) == s.h.pushed[..s.c.head]
  {
    var s := Exec(Init(n, tids), run);
    Fifo(n, tids, run, 0);
    forall p | 0 <= p < s.c.head ensures s.h.taken[p] == Some(s.h.pushed[p]) { Fifo(n, tids, run, p); }
  }

  /** No payload is overwritten before it is taken: it stays in its slot from publication to exchange. */
  lemma PayloadSurvives(n: nat, tids: set<Tid>, run: seq<Action>, p: nat)
    requires n >= 2
    requires var s := Exec(Init(n, tids), run);
             p < |s.h.status|
             && (s.h.status[p] == Published || exists t :: t in s.c.threads && s.c.threads[t] == PopTake(p))
    ensures var s := Exec(Init(n, tids), run);
            p < |s.h.pushed| && SlotAt(s.c, p) == Slot(p + 1, s.h.pushed[p])
  {
    InitInv(n, tids);
    ExecInv(Init(n, tids), run);
    var s := Exec(Init(n, tids), run);
    assert TicketOk(s, p, s.h.status[p]);
    if s.h.status[p] != Published {
      var t :| t in s.c.threads && s.c.threads[t] == PopTake(p);
      assert ThreadOk(s, t, s.c.threads[t]);
    }
  }

  /**
   The sequence number of the slot of a ticket among the last N tells what has become of
   it: p while it is written, p + 1 once published or being read, p + N when recycled.
   A slot that no ticket has reached yet still has its own number.
   */
  lemma SequencesTell(n: nat, tids: set<Tid>, run: seq<Action>, p: nat)
    requires n >= 2
    ensures var s := Exec(Init(n, tids), run);
            && |s.h.status| == s.c.tail
            && (p < s.c.tail <= p + n ==> SlotAt(s.c, p).sequence == SequenceOf(p, s.h.status[p], n))
            && (s.c.tail <= p < n ==> SlotAt(s.c, p).sequence == p)
  {
    InitInv(n, tids);
    ExecInv(Init(n, tids), run);
    IndexWraps(p, n);
    hide Index;
    hide ThreadOk;
    hide TicketOk;
  }

  /** At most one thread per slot is between its winning compare-and-swap and its sequence store. */
  lemma SlotExclusion(n: nat, tids: set<Tid>, run: seq<Action>, t: Tid, u: Tid, p: nat, q: nat)
    requires n >= 2 && t != u
    requires var s := Exec(Init(n, tids), run);
             && t in s.c.threads && (Writes(s.c.threads[t], p) || Reads(s.c.threads[t], p))
             && u in s.c.threads && (Writes(s.c.threads[u], q) || Reads(s.c.threads[u], q))
    ensures Index(p, n) != Index(q, n)
  {
    InitInv(n, tids);
    ExecInv(Init(n, tids), run);
    var s := Exec(Init(n, tids), run);
    assert ThreadOk(s, t, s.c.threads[t]) && ThreadOk(s, u, s.c.threads[u]);
    OwnersApart(s, p, q);
  }

  /**
   A push gives up only when the slot of the newest ticket has not been recycled: the
   ticket N earlier is still unread or being read.
   */
  lemma PushFailsOnlyWhenFull(n: nat, tids: set<Tid>, run: seq<Action>, t: Tid)
    requires n >= 2
    requires var s := Exec(Init(n, tids), run);
             && t in s.c.threads && s.c.threads[t].PushLoadSequence?
             && Step(s, Run(t, false)).c.threads[t] == PushReturn(false)
    ensures var s := Exec(Init(n, tids), run);
            s.c.threads[t].pos == s.c.tail >= n && s.c.tail - n < |s.h.status| && !s.h.status[s.c.tail - n].Recycled?
  {
    InitInv(n, tids);
    ExecInv(Init(n, tids), run);
    var s := Exec(Init(n, tids), run);
    assert ThreadOk(s, t, s.c.threads[t]);
    assert |s.c.slots| == n && Shape(s);
    hide Inv;
    hide ThreadOk;
    hide Index;
    PushFailure(s, s.c.threads[t].pos);
  }

  lemma PushFailure(s: State, pos: nat)
    requires Inv(s) && pos <= s.c.tail && SlotAt(s.c, pos).sequence < pos
    ensures pos == s.c.tail >= |s.c.slots| && !s.h.status[s.c.tail - |s.c.slots|].Recycled?
  {
    var n := |s.c.slots|;
    IndexWraps(pos, n);
    if pos >= n { IndexWraps(pos - n, n); }
    hide Index;
  }

  /** A pop of entries that are not null gives up only when the queue is empty or its oldest entry is unpublished. */
  lemma PopFailsOnlyWhenNothingIsReady(n: nat, tids: set<Tid>, run: seq<Action>, t: Tid)
    requires n >= 2
    requires var s := Exec(Init(n, tids), run);
             && t in s.c.threads
             && !s.c.threads[t].PopReturn? && Step(s, Run(t, false)).c.threads[t].PopReturn?
             && !Step(s, Run(t, false)).c.threads[t].ok
             && (forall p | 0 <= p < |s.h.pushed| :: s.h.pushed[p] != Null)
    ensures var s := Exec(Init(n, tids), run);
            && |s.h.status| == s.c.tail
            && s.c.threads[t] == PopLoadSequence(s.c.head)
            && (s.c.head == s.c.tail || (s.c.head < s.c.tail && s.h.status[s.c.head].Writing?))
  {
    InitInv(n, tids);
    ExecInv(Init(n, tids), run);
    var s := Exec(Init(n, tids), run);
    var pc := s.c.threads[t];
    assert ThreadOk(s, t, pc);
    PopFailure(s, pc.pos);
  }

  lemma PopFailure(s: State, pos: nat)
    requires Inv(s) && pos <= s.c.head && SlotAt(s.c, pos).sequence < pos + 1
    ensures pos == s.c.head && (s.c.head < s.c.tail ==> s.h.status[s.c.head].Writing?)
  {
    hide Index;
  }

  // ------------------------------------------------------------- one consumer

  predicate InPop(pc: Pc) { pc.PopLoadHead? || pc.PopLoadSequence? || pc.PopClaim? || pc.PopTake? || pc.PopRecycle? }

  /** Only thread c pops, so the ticket being read, if any, is the last one claimed by a pop. */
  ghost predicate SoloInv(s: State, c: Tid) {
    && Inv(s)
    && (forall t | t in s.c.threads && t != c :: !InPop(s.c.threads[t]))
    && (forall p | 0 <= p < s.c.tail && s.h.status[p].Reading? :: p == s.c.head - 1)
  }

  lemma SoloStep(s: State, c: Tid, a: Action)
    requires SoloInv(s, c) && (a.CallPop? ==> a.t == c)
    ensures SoloInv(Step(s, a), c)
  {
    StepInv(s, a);
    SoloReading(s, c, a);
    SoloPopping(s, c, a);
    hide Step;
    hide Inv;
  }

  lemma SoloPopping(s: State, c: Tid, a: Action)
    requires |s.c.slots| > 0 && (a.CallPop? ==> a.t == c)
    requires forall t | t in s.c.threads && t != c :: !InPop(s.c.threads[t])
    ensures forall t | t in Step(s, a).c.threads && t != c :: !InPop(Step(s, a).c.threads[t])
  {
    hide Index;
  }

  lemma SoloReading(s: State, c: Tid, a: Action)
    requires SoloInv(s, c) && Shape(Step(s, a)) && (a.CallPop? ==> a.t == c)
    ensures forall p | 0 <= p < Step(s, a).c.tail && Step(s, a).h.status[p].Reading? :: p == Step(s, a).c.head - 1
  {
    if a.t in s.c.threads && a.Run? && s.c.threads[a.t].PopClaim? { ClaimingThreadReadsNothing(s, c); }
    hide Index;
    assert Shape(s);
    hide Inv;
  }

  lemma ClaimingThreadReadsNothing(s: State, c: Tid)
    requires SoloInv(s, c) && c in s.c.threads && s.c.threads[c].PopClaim?
    ensures forall p | 0 <= p < s.c.tail :: !s.h.status[p].Reading?
  {
    hide Index;
    forall p | 0 <= p < s.c.tail ensures !s.h.status[p].Reading? { assert TicketOk(s, p, s.h.status[p]); }
  }

  lemma {:induction false} SoloExec(s: State, c: Tid, run: seq<Action>)
    requires SoloInv(s, c) && (forall a | a in run && a.CallPop? :: a.t == c)
    ensures SoloInv(Exec(s, run), c)
    decreases |run|
  {
    if run != [] {
      assert run[0] in run;
      SoloStep(s, c, run[0]);
      SoloExec(Step(s, run[0]), c, run[1..]);
    }
  }

  /** With a single consumer, a push gives up only when at least N - 1 entries are waiting to be popped. */
  lemma PushFailsOnlyWhenNearlyFull(n: nat, tids: set<Tid>, run: seq<Action>, t: Tid, consumer: Tid)
    requires n >= 2 && (forall a | a in run && a.CallPop? :: a.t == consumer)
    requires var s := Exec(Init(n, tids), run);
             && t in s.c.threads && s.c.threads[t].PushLoadSequence?
             && Step(s, Run(t, false)).c.threads[t] == PushReturn(false)
    ensures var s := Exec(Init(n, tids), run); s.c.tail - s.c.head >= n - 1
  {
    InitInv(n, tids);
    SoloExec(Init(n, tids), consumer, run);
    PushFailsOnlyWhenFull(n, tids, run, t);
  }

  // ----------------------------------------------------------- a single slot

  /** Every entry claimed by a push and not yet taken is still where its pop will look for it. */
  ghost predicate Conserves(s: State)
    requires |s.c.slots| > 0
  {
    && |s.h.pushed| == |s.h.status|
    && forall p: nat | p < |s.h.status| && s.h.status[p] == Published :: SlotAt(s.c, p) == Slot(p + 1, s.h.pushed[p])
  }

  /** Two pushes by one thread, one after the other, each undisturbed. */
  function TwoPushes(a: Ptr, b: Ptr): seq<Action> {
    OnePush(a) + OnePush(b)
  }

  function OnePush(e: Ptr): seq<Action> {
    [CallPush(0, e)] + Runs(5)
  }

  function Runs(k: nat): seq<Action> {
    seq(k, i => Run(0, false))
  }

  lemma {:induction false} ExecAppend(s: State, a: seq<Action>, b: seq<Action>)
    requires |s.c.slots| > 0
    ensures Exec(s, a + b) == Exec(Exec(s, a), b)
    decreases |a|
  {
    if a == [] {
      assert a + b == b;
    } else {
      assert (a + b)[1..] == a[1..] + b;
      ExecAppend(Step(s, a[0]), a[1..], b);
    }
  }

  /** An undisturbed push on the ring of one slot whose sequence number equals tail. */
  lemma OnePushOnOneSlot(s: State, e: Ptr)
    requires |s.c.slots| == 1 && 0 in s.c.threads && AtRest(s.c.threads[0])
    requires s.c.slots[0].sequence == s.c.tail == |s.h.status|
    ensures Exec(s, OnePush(e)) ==
            State(Config([Slot(s.c.tail + 1, e)], s.c.head, s.c.tail + 1, s.c.threads[0 := PushReturn(true)]),
                  History(s.h.pushed + [e], s.h.pushers + [0], s.h.taken, s.h.status + [Published]))
  {
    var c, h, p, m := s.c, s.h, s.c.tail, s.c.threads;
    var h' := History(h.pushed + [e], h.pushers + [0], h.taken, h.status + [Writing(0)]);
    var s1 := State(c.(threads := m[0 := PushLoadTail(e)]), h);
    var s2 := State(c.(threads := m[0 := PushLoadSequence(e, p)]), h);
    var s3 := State(c.(threads := m[0 := PushClaim(e, p)]), h);
    var s4 := State(c.(threads := m[0 := PushStore(e, p)], tail := p + 1), h');
    var s5 := State(Config([Slot(p, e)], c.head, p + 1, m[0 := PushPublish(p)]), h');
    var s6 := State(Config([Slot(p + 1, e)], c.head, p + 1, m[0 := PushReturn(true)]),
                    h'.(status := h.status + [Published]));
    assert Index(p, 1) == 0;
    assert Step(s, CallPush(0, e)) == s1;
    assert Step(s1, Run(0, false)) == s2;
    assert Step(s2, Run(0, false)) == s3;
    assert Step(s3, Run(0, false)) == s4;
    assert Step(s4, Run(0, false)) == s5;
    assert Step(s5, Run(0, false)) == s6;
    hide Step;
    ExecFirst(s, CallPush(0, e), Runs(5));
    RunsFirst(4);
    RunsFirst(3);
    RunsFirst(2);
    RunsFirst(1);
    RunsFirst(0);
    ExecFirst(s1, Run(0, false), Runs(4));
    ExecFirst(s2, Run(0, false), Runs(3));
    ExecFirst(s3, Run(0, false), Runs(2));
    ExecFirst(s4, Run(0, false), Runs(1));
    ExecFirst(s5, Run(0, false), Runs(0));
  }

  lemma ExecFirst(s: State, a: Action, rest: seq<Action>)
    requires |s.c.slots| > 0
    ensures Exec(s, [a] + rest) == Exec(Step(s, a), rest)
  {
    assert ([a] + rest)[1..] == rest;
  }

  lemma RunsFirst(k: nat)
    ensures Runs(k + 1) == [Run(0, false)] + Runs(k)
  {
  }

  /**
   The constructor also admits a capacity of one, where "published at p" and "free for
   p + 1" are the same sequence number: the second push succeeds and overwrites the
   first entry.  Entries are conserved in every run exactly for two slots or more.
   */
  lemma ConservationNeedsTwoSlots(n: nat)
    requires n >= 1
    ensures (forall tids: set<Tid>, run: seq<Action> :: Conserves(Exec(Init(n, tids), run))) <==> n >= 2
  {
    if n >= 2 {
      forall tids: set<Tid>, run: seq<Action> ensures Conserves(Exec(Init(n, tids), run)) {
        RunsConserve(n, tids, run);
      }
    } else {
      OneSlotOverwrites(n, {0}, Line("a"), Line("b"));
    }
  }

  lemma RunsConserve(n: nat, tids: set<Tid>, run: seq<Action>)
    requires n >= 2
    ensures Conserves(Exec(Init(n, tids), run))
  {
    InitInv(n, tids);
    ExecInv(Init(n, tids), run);
    var s := Exec(Init(n, tids), run);
    forall p: nat | p < |s.h.status| && s.h.status[p] == Published
      ensures SlotAt(s.c, p) == Slot(p + 1, s.h.pushed[p])
    {
      PayloadSurvives(n, tids, run, p);
    }
  }

  lemma OneSlotOverwrites(n: nat, tids: set<Tid>, a: Ptr, b: Ptr)
    requires n == 1 && 0 in tids && a != b
    ensures !Conserves(Exec(Init(n, tids), TwoPushes(a, b)))
  {
    var s0 := Init(n, tids);
    ExecAppend(s0, OnePush(a), OnePush(b));
    OnePushOnOneSlot(s0, a);
    OnePushOnOneSlot(Exec(s0, OnePush(a)), b);
    hide Exec;
    var s := Exec(s0, TwoPushes(a, b));
    assert s.h.status[0] == Published && SlotAt(s.c, 0).payload == b;
  }
}
