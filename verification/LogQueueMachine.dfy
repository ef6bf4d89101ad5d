/**
 The queue with 64-bit counters.  Every counter, sequence number and local position is a
 value modulo 2^64, the slot is chosen by masking, and the difference of a sequence
 number and a position is read as a signed 64-bit number.
 */
module LogQueueMachine {
  import opened Bits
  import opened Basics
  import opened LogQueue

  const HALF := 0x8000_0000_0000_0000

  function Low(x: int): (r: nat)
    ensures r < WORD
  {
    x % WORD
  }

  /** A 64-bit difference read as two's complement. */
  function Signed(a: nat, b: nat): int {
    var d := Low(a - b);
    if d < HALF then d else d - WORD
  }

  /** slots_[pos & mask_] */
  function Masked(c: Config, pos: nat): nat
    requires |c.slots| > 0
  {
    And(pos, |c.slots| - 1)
  }

  /** The slot read by the machine; a mask that is no mask cannot occur for the capacities admitted. */
  function Slot64(c: Config, pos: nat): Slot
    requires |c.slots| > 0
  {
    if Masked(c, pos) < |c.slots| then c.slots[Masked(c, pos)] else c.slots[0]
  }

  function Write64(c: Config, pos: nat, s: Slot): Config
    requires |c.slots| > 0
  {
    c.(slots := Put(c.slots, Masked(c, pos), s))
  }

  /** One atomic access of thread t, with machine arithmetic. */
  function Access64(c: Config, t: Tid, spurious: bool): Config
    requires |c.slots| > 0 && t in c.threads
  {
    match c.threads[t]
    case PushLoadTail(e) => c.Go(t, PushLoadSequence(e, c.tail))
    case PushLoadSequence(e, pos) =>
      var diff := Signed(Slot64(c, pos).sequence, pos);
      c.Go(t, if diff == 0 then PushClaim(e, pos) else if diff < 0 then PushReturn(false) else PushLoadTail(e))
    case PushClaim(e, pos) =>
      if c.tail == pos && !spurious then c.(tail := Low(pos + 1)).Go(t, PushStore(e, pos))
      else c.Go(t, PushLoadSequence(e, c.tail))
    case PushStore(e, pos) => Write64(c, pos, Slot64(c, pos).(payload := e)).Go(t, PushPublish(pos))
    case PushPublish(pos) => Write64(c, pos, Slot64(c, pos).(sequence := Low(pos + 1))).Go(t, PushReturn(true))
    case PopLoadHead => c.Go(t, PopLoadSequence(c.head))
    case PopLoadSequence(pos) =>
      var diff := Signed(Slot64(c, pos).sequence, Low(pos + 1));
      c.Go(t, if diff == 0 then PopClaim(pos) else if diff < 0 then PopReturn(false, Null) else PopLoadHead)
    case PopClaim(pos) =>
      if c.head == pos && !spurious then c.(head := Low(pos + 1)).Go(t, PopTake(pos))
      else c.Go(t, PopLoadSequence(c.head))
    case PopTake(pos) =>
      Write64(c, pos, Slot64(c, pos).(payload := Null)).Go(t, PopRecycle(pos, Slot64(c, pos).payload))
    case PopRecycle(pos, e) =>
      Write64(c, pos, Slot64(c, pos).(sequence := Low(pos + |c.slots|))).Go(t, PopReturn(e != Null, e))
    case _ => c
  }

  function Step64(c: Config, a: Action): Config
    requires |c.slots| > 0
  {
    if a.t !in c.threads then c else
    match a
    case CallPush(t, e) => if AtRest(c.threads[t]) then c.Go(t, PushLoadTail(e)) else c
    case CallPop(t) => if AtRest(c.threads[t]) then c.Go(t, PopLoadHead) else c
    case Run(t, spurious) => Access64(c, t, spurious)
  }

  function Exec64(c: Config, run: seq<Action>): Config
    requires |c.slots| > 0
    decreases |run|
  {
    if run == [] then c else Exec64(Step64(c, run[0]), run[1..])
  }

  // ----------------------------------------------------------- the refinement

  function LowPc(pc: Pc): Pc {
    match pc
    case PushLoadSequence(e, pos) => PushLoadSequence(e, Low(pos))
    case PushClaim(e, pos) => PushClaim(e, Low(pos))
    case PushStore(e, pos) => PushStore(e, Low(pos))
    case PushPublish(pos) => PushPublish(Low(pos))
    case PopLoadSequence(pos) => PopLoadSequence(Low(pos))
    case PopClaim(pos) => PopClaim(Low(pos))
    case PopTake(pos) => PopTake(Low(pos))
    case PopRecycle(pos, e) => PopRecycle(Low(pos), e)
    case _ => pc
  }

  function LowSlot(s: Slot): Slot { s.(sequence := Low(s.sequence)) }

  /** The machine's view of an unbounded configuration. */
  function LowConfig(c: Config): Config {
    Config(seq(|c.slots|, i requires 0 <= i < |c.slots| => LowSlot(c.slots[i])), Low(c.head), Low(c.tail),
           map t | t in c.threads :: LowPc(c.threads[t]))
  }

  /** No thread holds a position that is 2^63 - N claims old. */
  ghost predicate Fresh(c: Config) {
    forall t | t in c.threads ::
      match c.threads[t]
      case PushLoadSequence(_, pos) => c.tail - pos < HALF - |c.slots|
      case PushClaim(_, pos) => c.tail - pos < HALF - |c.slots|
      case PopLoadSequence(pos) => c.tail - pos < HALF - |c.slots|
      case PopClaim(pos) => c.tail - pos < HALF - |c.slots|
      case _ => true
  }

  ghost predicate AlwaysFresh(s: State, run: seq<Action>)
    requires |s.c.slots| > 0
    decreases |run|
  {
    Fresh(s.c) && (run != [] ==> AlwaysFresh(Step(s, run[0]), run[1..]))
  }

  /** The ticket that owns the slot of pos at present. */
  function Latest(pos: nat, tail: nat, n: nat): (q: nat)
    requires n > 0 && pos < tail
    ensures pos <= q < tail <= q + n
    ensures Index(q, n) == Index(pos, n)
    decreases tail - pos
  {
    if tail <= pos + n then pos else assert Index(pos + n, n) == Index(pos, n); Latest(pos + n, tail, n)
  }

  /** A sequence number read at a position at most tail lies within N of the tickets in the window. */
  lemma SequenceNearby(s: State, pos: nat)
    requires Inv(s) && pos <= s.c.tail
    ensures pos - |s.c.slots| <= SlotAt(s.c, pos).sequence <= s.c.tail + |s.c.slots|
  {
    var n := |s.c.slots|;
    IndexWraps(pos, n);
    if pos < s.c.tail {
      var q := Latest(pos, s.c.tail, n);
      assert s.c.slots[Index(q, n)].sequence == SequenceOf(q, s.h.status[q], n);
    } else if pos >= n {
      var q: nat := pos - n;
      IndexWraps(q, n);
      assert s.c.slots[Index(q, n)].sequence == SequenceOf(q, s.h.status[q], n);
    }
  }

  /** Masking the low word of a position selects the slot of the unbounded position. */
  lemma MaskSelects(c: Config, pos: nat, k: nat)
    requires |c.slots| == Pow2(k) && k <= 64
    ensures Masked(LowConfig(c), Low(pos)) == Index(pos, |c.slots|)
  {
    WordIsPow2();
    MaskIsModulo(Low(pos), k);
    ModuloOfModulo(pos, k, 64 - k);
    IndexIsModulo(pos, |c.slots|);
  }

  lemma WordIsPow2()
    ensures Pow2(64) == WORD
  {
    assert Pow2(4) == 16;
    Pow2Adds(4, 4);
    Pow2Adds(8, 8);
    Pow2Adds(16, 16);
    Pow2Adds(32, 32);
  }

  lemma {:induction false} Pow2Small(k: nat)
    requires k <= 62
    ensures Pow2(k) < HALF
    decreases 62 - k
  {
    if k < 62 { Pow2Small(k + 1); } else { WordIsPow2(); assert Pow2(k + 2) == 4 * Pow2(k); }
  }

  /** Within 2^63 of each other, the signed difference is the true one. */
  lemma SignedIsExact(a: nat, b: nat)
    requires -HALF <= a - b < HALF
    ensures Signed(Low(a), Low(b)) == a - b
  {
  }

  lemma LowInjective(a: nat, b: nat)
    requires a <= b < a + WORD
    ensures Low(a) == Low(b) <==> a == b
  {
  }

  lemma StepRefines(s: State, a: Action, k: nat)
    requires Inv(s) && Fresh(s.c) && |s.c.slots| == Pow2(k) && k <= 62 && |s.c.slots| < HALF
    ensures Step64(LowConfig(s.c), a) == LowConfig(Step(s, a).c)
  {
    hide Index;
    hide Access;
    hide Access64;
    hide Sequences;
    hide ThreadOk;
    hide TicketOk;
    var c := s.c;
    if a.t in c.threads {
      var pc := c.threads[a.t];
      if a.Run? {
        if Positioned(pc) { Nearby(s, a.t, k); }
        AccessRefines(c, a.t, a.spurious);
      } else {
        GoRefines(c, a.t, PopLoadHead);
        if a.CallPush? { GoRefines(c, a.t, PushLoadTail(a.entry)); }
      }
      assert LowConfig(c).threads[a.t] == LowPc(pc);
    }
  }

  lemma Nearby(s: State, t: Tid, k: nat)
    requires Inv(s) && Fresh(s.c) && |s.c.slots| == Pow2(k) && k <= 62 && |s.c.slots| < HALF
    requires t in s.c.threads && Positioned(s.c.threads[t])
    ensures var pc := s.c.threads[t];
            && Masked(LowConfig(s.c), Low(pc.pos)) == Index(pc.pos, |s.c.slots|)
            && (pc.PushLoadSequence? ==> -HALF <= SlotAt(s.c, pc.pos).sequence - pc.pos < HALF)
            && (pc.PopLoadSequence? ==> -HALF <= SlotAt(s.c, pc.pos).sequence - (pc.pos + 1) < HALF)
            && (pc.PushClaim? ==> pc.pos <= s.c.tail < pc.pos + WORD)
            && (pc.PopClaim? ==> pc.pos <= s.c.head < pc.pos + WORD)
  {
    var pos := s.c.threads[t].pos;
    assert ThreadOk(s, t, s.c.threads[t]);
    MaskSelects(s.c, pos, k);
    SequenceNearby(s, pos);
    hide Index;
    hide And;
    hide LowConfig;
  }

  lemma GoRefines(c: Config, t: Tid, pc: Pc)
    ensures LowConfig(c.Go(t, pc)) == LowConfig(c).Go(t, LowPc(pc))
  {
  }

  lemma SlotRefines(c: Config, pos: nat, s: Slot)
    requires |c.slots| > 0 && Masked(LowConfig(c), Low(pos)) == Index(pos, |c.slots|)
    ensures Slot64(LowConfig(c), Low(pos)) == LowSlot(SlotAt(c, pos))
    ensures Write64(LowConfig(c), Low(pos), LowSlot(s)) == LowConfig(WriteSlot(c, pos, s))
  {
    hide Index;
    hide And;
  }

  predicate Positioned(pc: Pc) {
    pc.PushLoadSequence? || pc.PushClaim? || pc.PushStore? || pc.PushPublish?
    || pc.PopLoadSequence? || pc.PopClaim? || pc.PopTake? || pc.PopRecycle?
  }

  lemma AccessRefines(c: Config, t: Tid, spurious: bool)
    requires 0 < |c.slots| < HALF && t in c.threads
    requires var pc := c.threads[t];
             Positioned(pc) ==> Masked(LowConfig(c), Low(pc.pos)) == Index(pc.pos, |c.slots|)
    requires var pc := c.threads[t];
             (pc.PushLoadSequence? ==> -HALF <= SlotAt(c, pc.pos).sequence - pc.pos < HALF)
             && (pc.PopLoadSequence? ==> -HALF <= SlotAt(c, pc.pos).sequence - (pc.pos + 1) < HALF)
             && (pc.PushClaim? ==> pc.pos <= c.tail < pc.pos + WORD)
             && (pc.PopClaim? ==> pc.pos <= c.head < pc.pos + WORD)
    ensures Access64(LowConfig(c), t, spurious) == LowConfig(Access(c, t, spurious))
  {
    var pc := c.threads[t];
    if pc.PushStore? {
      StoreRefines(c, t, spurious, pc.entry, pc.pos);
    } else if pc.PushPublish? {
      PublishRefines(c, t, spurious, pc.pos);
    } else if pc.PopTake? {
      TakeRefines(c, t, spurious, pc.pos);
    } else if pc.PopRecycle? {
      RecycleRefines(c, t, spurious, pc.entry, pc.pos);
    } else if pc.PushLoadSequence? {
      PushLoadRefines(c, t, spurious, pc.entry, pc.pos);
    } else if pc.PopLoadSequence? {
      PopLoadRefines(c, t, spurious, pc.pos);
    } else if pc.PushClaim? || pc.PopClaim? {
      ClaimRefines(c, t, spurious, pc.pos);
    } else {
      GoRefines(c, t, Access(c, t, spurious).threads[t]);
    }
  }

  /** The signed difference of the sequence number at pos and x. */
  lemma DifferenceRefines(c: Config, pos: nat, x: nat)
    requires 0 < |c.slots| && Masked(LowConfig(c), Low(pos)) == Index(pos, |c.slots|)
    requires -HALF <= SlotAt(c, pos).sequence - x < HALF
    ensures Signed(Slot64(LowConfig(c), Low(pos)).sequence, Low(x)) == SlotAt(c, pos).sequence - x
  {
    SlotRefines(c, pos, SlotAt(c, pos));
    SignedIsExact(SlotAt(c, pos).sequence, x);
    hide Index;
    hide LowConfig;
    hide Slot64;
  }

  lemma PushLoadRefines(c: Config, t: Tid, spurious: bool, e: Ptr, pos: nat)
    requires 0 < |c.slots| && t in c.threads && c.threads[t] == PushLoadSequence(e, pos)
    requires Masked(LowConfig(c), Low(pos)) == Index(pos, |c.slots|)
    requires -HALF <= SlotAt(c, pos).sequence - pos < HALF
    ensures Access64(LowConfig(c), t, spurious) == LowConfig(Access(c, t, spurious))
  {
    var m, diff := LowConfig(c), SlotAt(c, pos).sequence - pos;
    var next := if diff == 0 then PushClaim(e, pos) else if diff < 0 then PushReturn(false) else PushLoadTail(e);
    hide Index;
    hide Low;
    hide Signed;
    DifferenceRefines(c, pos, pos);
    GoRefines(c, t, next);
    assert m.threads[t] == LowPc(c.threads[t]) && |m.slots| == |c.slots|;
    hide Slot64;
    hide SlotAt;
    hide LowConfig;
    assert Access(c, t, spurious) == c.Go(t, next);
    assert Access64(m, t, spurious) == m.Go(t, LowPc(next));
  }

  lemma PopLoad64(m: Config, t: Tid, spurious: bool, low: nat, diff: int)
    requires 0 < |m.slots| && t in m.threads && m.threads[t] == PopLoadSequence(low)
    requires Signed(Slot64(m, low).sequence, Low(low + 1)) == diff
    ensures Access64(m, t, spurious) ==
            m.Go(t, if diff == 0 then PopClaim(low) else if diff < 0 then PopReturn(false, Null) else PopLoadHead)
  {
    hide Low;
    hide Signed;
    hide Slot64;
  }

  lemma PopLoadRefines(c: Config, t: Tid, spurious: bool, pos: nat)
    requires 0 < |c.slots| && t in c.threads && c.threads[t] == PopLoadSequence(pos)
    requires Masked(LowConfig(c), Low(pos)) == Index(pos, |c.slots|)
    requires -HALF <= SlotAt(c, pos).sequence - (pos + 1) < HALF
    ensures Access64(LowConfig(c), t, spurious) == LowConfig(Access(c, t, spurious))
  {
    hide Index;
    hide Low;
    hide Signed;
    hide Slot64;
    hide Access64;
    hide Masked;
    var m, diff := LowConfig(c), SlotAt(c, pos).sequence - (pos + 1);
    var next := if diff == 0 then PopClaim(pos) else if diff < 0 then PopReturn(false, Null) else PopLoadHead;
    DifferenceRefines(c, pos, pos + 1);
    LowSums(pos, 1);
    GoRefines(c, t, next);
    PopLoad64(m, t, spurious, Low(pos), diff);
  }

  lemma ClaimRefines(c: Config, t: Tid, spurious: bool, pos: nat)
    requires 0 < |c.slots| && t in c.threads && (c.threads[t].PushClaim? || c.threads[t].PopClaim?)
    requires c.threads[t].pos == pos
    requires c.threads[t].PushClaim? ==> pos <= c.tail < pos + WORD
    requires c.threads[t].PopClaim? ==> pos <= c.head < pos + WORD
    ensures Access64(LowConfig(c), t, spurious) == LowConfig(Access(c, t, spurious))
  {
    var m, pc' := LowConfig(c), Access(c, t, spurious).threads[t];
    LowInjective(pos, if c.threads[t].PushClaim? then c.tail else c.head);
    GoRefines(c, t, pc');
    GoRefines(c.(tail := pos + 1), t, pc');
    GoRefines(c.(head := pos + 1), t, pc');
    LowSums(pos, 1);
    assert m.threads[t] == LowPc(c.threads[t]) && |m.slots| == |c.slots|
           && m.tail == Low(c.tail) && m.head == Low(c.head);
    assert LowConfig(c.(tail := pos + 1)) == m.(tail := Low(pos + 1));
    assert LowConfig(c.(head := pos + 1)) == m.(head := Low(pos + 1));
    hide Low;
    hide LowConfig;
  }

  lemma WriteGoRefines(c: Config, t: Tid, pos: nat, s: Slot, pc': Pc)
    requires |c.slots| > 0 && Masked(LowConfig(c), Low(pos)) == Index(pos, |c.slots|)
    ensures Write64(LowConfig(c), Low(pos), LowSlot(s)).Go(t, LowPc(pc')) == LowConfig(WriteSlot(c, pos, s).Go(t, pc'))
  {
    SlotRefines(c, pos, s);
    GoRefines(WriteSlot(c, pos, s), t, pc');
  }

  lemma StoreRefines(c: Config, t: Tid, spurious: bool, e: Ptr, pos: nat)
    requires 0 < |c.slots| && t in c.threads && c.threads[t] == PushStore(e, pos)
    requires Masked(LowConfig(c), Low(pos)) == Index(pos, |c.slots|)
    ensures Access64(LowConfig(c), t, spurious) == LowConfig(Access(c, t, spurious))
  {
    var s := SlotAt(c, pos);
    SlotRefines(c, pos, s);
    LowSums(pos, 1);
    LowSums(pos, |c.slots|);
    WriteGoRefines(c, t, pos, s.(payload := e), PushPublish(pos));
    hide Index;
    hide Low;
    hide WriteSlot;
    hide Write64;
    hide Slot64;
  }

  lemma PublishRefines(c: Config, t: Tid, spurious: bool, pos: nat)
    requires 0 < |c.slots| && t in c.threads && c.threads[t] == PushPublish(pos)
    requires Masked(LowConfig(c), Low(pos)) == Index(pos, |c.slots|)
    ensures Access64(LowConfig(c), t, spurious) == LowConfig(Access(c, t, spurious))
  {
    var s := SlotAt(c, pos);
    SlotRefines(c, pos, s);
    LowSums(pos, 1);
    LowSums(pos, |c.slots|);
    WriteGoRefines(c, t, pos, s.(sequence := pos + 1), PushReturn(true));
    hide Index;
    hide Low;
    hide WriteSlot;
    hide Write64;
    hide Slot64;
  }

  lemma TakeRefines(c: Config, t: Tid, spurious: bool, pos: nat)
    requires 0 < |c.slots| && t in c.threads && c.threads[t] == PopTake(pos)
    requires Masked(LowConfig(c), Low(pos)) == Index(pos, |c.slots|)
    ensures Access64(LowConfig(c), t, spurious) == LowConfig(Access(c, t, spurious))
  {
    var s := SlotAt(c, pos);
    SlotRefines(c, pos, s);
    LowSums(pos, 1);
    LowSums(pos, |c.slots|);
    WriteGoRefines(c, t, pos, s.(payload := Null), PopRecycle(pos, s.payload));
    hide Index;
    hide Low;
    hide WriteSlot;
    hide Write64;
    hide Slot64;
  }

  lemma RecycleRefines(c: Config, t: Tid, spurious: bool, e: Ptr, pos: nat)
    requires 0 < |c.slots| && t in c.threads && c.threads[t] == PopRecycle(pos, e)
    requires Masked(LowConfig(c), Low(pos)) == Index(pos, |c.slots|)
    ensures Access64(LowConfig(c), t, spurious) == LowConfig(Access(c, t, spurious))
  {
    hide Index;
    hide Low;
    hide WriteSlot;
    hide Write64;
    hide Slot64;
    var s := SlotAt(c, pos);
    SlotRefines(c, pos, s);
    LowSums(pos, 1);
    LowSums(pos, |c.slots|);
    WriteGoRefines(c, t, pos, s.(sequence := pos + |c.slots|), PopReturn(e != Null, e));
  }

  lemma LowSums(a: nat, b: nat)
    ensures Low(Low(a) + 1) == Low(a + 1)
    ensures Low(Low(a) + b) == Low(a + b)
  {
  }

  /**
   The 64-bit queue behaves like the queue with unbounded tickets, across any number of
   counter overflows, as long as no thread holds a position across 2^63 - N claims.
   */
  lemma {:induction false} MachineRefines(s: State, run: seq<Action>, k: nat)
    requires Inv(s) && |s.c.slots| == Pow2(k) && k <= 62 && |s.c.slots| < HALF
    requires AlwaysFresh(s, run)
    ensures Exec64(LowConfig(s.c), run) == LowConfig(Exec(s, run).c)
    decreases |run|
  {
    hide Inv;
    hide Index;
    hide Step;
    hide Step64;
    hide LowConfig;
    hide Fresh;
    if run != [] {
      StepRefines(s, run[0], k);
      StepInv(s, run[0]);
      SlotsStay(s, run[0]);
      MachineRefines(Step(s, run[0]), run[1..], k);
    }
  }

  lemma SlotsStay(s: State, a: Action)
    requires |s.c.slots| > 0
    ensures |Step(s, a).c.slots| == |s.c.slots| && |LowConfig(s.c).slots| == |s.c.slots|
  {
    hide Index;
  }

  /** In particular from the constructor's state, for every power of two from 2 to 2^62. */
  lemma MachineRunsRefine(k: nat, tids: set<Tid>, run: seq<Action>)
    requires 1 <= k <= 62 && AlwaysFresh(Init(Pow2(k), tids), run)
    ensures Exec64(Init(Pow2(k), tids).c, run) == LowConfig(Exec(Init(Pow2(k), tids), run).c)
  {
    var n := Pow2(k);
    Pow2Small(k);
    InitInv(n, tids);
    var s := Init(n, tids);
    assert LowConfig(s.c) == s.c;
    MachineRefines(s, run, k);
  }
}
