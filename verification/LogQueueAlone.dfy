/**
 A thread that is left alone: from every state the queue can reach, with the other threads
 stopped anywhere inside push or pop, it completes its operation, and what comes out is
 decided by the state alone.
 */
module LogQueueAlone {
  import opened Basics
  import opened LogQueue

  /** k accesses of thread t, none of which fails for no reason. */
  function Alone(t: Tid, k: nat): seq<Action> { seq(k, _ => Run(t, false)) }

  /** The slot of the next ticket is free: it was never used, or the ticket N earlier has been recycled. */
  ghost predicate Free(s: State)
    requires Shape(s)
  {
    s.c.tail < |s.c.slots| || s.h.status[s.c.tail - |s.c.slots|].Recycled?
  }

  /** The oldest ticket has been published. */
  ghost predicate Ready(s: State)
    requires Shape(s)
  {
    s.c.head < s.c.tail && s.h.status[s.c.head].Published?
  }

  lemma SequenceAtTail(s: State)
    requires Inv(s)
    ensures if Free(s) then SlotAt(s.c, s.c.tail).sequence == s.c.tail else SlotAt(s.c, s.c.tail).sequence < s.c.tail
  {
    var n, p := |s.c.slots|, s.c.tail;
    IndexWraps(p, n);
    if p >= n {
      var q: nat := p - n;
      IndexWraps(q, n);
      hide Index;
      assert s.c.slots[Index(q, n)].sequence == SequenceOf(q, s.h.status[q], n);
    }
  }

  lemma SequenceAtHead(s: State)
    requires Inv(s)
    ensures if Ready(s) then SlotAt(s.c, s.c.head) == Slot(s.c.head + 1, s.h.pushed[s.c.head])
            else SlotAt(s.c, s.c.head).sequence < s.c.head + 1
  {
    var n, p := |s.c.slots|, s.c.head;
    SequenceAtTail(s);
    hide Index;
    if p < s.c.tail {
      assert s.c.slots[Index(p, n)].sequence == SequenceOf(p, s.h.status[p], n);
      assert TicketOk(s, p, s.h.status[p]);
    }
  }

  lemma OneMore(s: State, t: Tid, k: nat)
    requires |s.c.slots| > 0
    ensures Exec(s, Alone(t, k + 1)) == Exec(Step(s, Run(t, false)), Alone(t, k)) && Exec(s, Alone(t, 0)) == s
  {
    hide Step;
    assert Alone(t, k + 1)[1..] == Alone(t, k);
  }

  /** A thread at rest stays there. */
  lemma {:induction false} RestStays(s: State, t: Tid, k: nat)
    requires |s.c.slots| > 0 && t in s.c.threads && AtRest(s.c.threads[t])
    ensures Exec(s, Alone(t, k)) == s
  {
    OneMore(s, t, if k > 0 then k - 1 else 0);
    if k > 0 { RestStays(s, t, k - 1); }
  }

  lemma FirstCall(s: State, a: Action, t: Tid, k: nat)
    requires |s.c.slots| > 0
    ensures Exec(s, [a] + Alone(t, k)) == Exec(Step(s, a), Alone(t, k))
  {
    hide Step;
    assert ([a] + Alone(t, k))[1..] == Alone(t, k);
  }

  lemma SetTwice(m: map<Tid, Pc>, t: Tid, a: Pc, b: Pc)
    ensures m[t := a][t := b] == m[t := b]
  {
  }

  /** The last two accesses of a push that has its ticket p, of slot i. */
  lemma Stored(s: State, t: Tid, e: Ptr, p: nat, i: nat)
    requires |s.c.slots| > 0 && i == Index(p, |s.c.slots|) && s.c.slots[i].sequence == p
    requires t in s.c.threads && s.c.threads[t] == PushStore(e, p) && p < |s.h.status|
    ensures Exec(s, Alone(t, 2)) ==
            State(Config(s.c.slots[i := Slot(p + 1, e)], s.c.head, s.c.tail, s.c.threads[t := PushReturn(true)]),
                  s.h.(status := s.h.status[p := Published]))
  {
    hide Index;
    OneMore(s, t, 1);
    var s1 := Step(s, Run(t, false));
    OneMore(s1, t, 0);
    OneMore(Step(s1, Run(t, false)), t, 0);
    assert s1.c.slots == s.c.slots[i := Slot(p, e)];
    assert s.c.slots[i := Slot(p, e)][i := Slot(p + 1, e)] == s.c.slots[i := Slot(p + 1, e)];
  }

  lemma TwoSteps(s: State, t: Tid, s1: State, s2: State, k: nat)
    requires |s.c.slots| > 0 && s1 == Step(s, Run(t, false)) && |s1.c.slots| > 0 && s2 == Step(s1, Run(t, false))
    ensures |s2.c.slots| > 0 && Exec(s, Alone(t, k + 2)) == Exec(s2, Alone(t, k))
  {
    StepSize(s, t);
    StepSize(s1, t);
    hide *;
    OneMore(s, t, k + 1);
    OneMore(s1, t, k);
  }

  lemma StepSize(s: State, t: Tid)
    requires |s.c.slots| > 0
    ensures |Step(s, Run(t, false)).c.slots| == |s.c.slots|
  {
    hide Index;
    hide Record;
  }

  /** The state with thread t at pc, and the others as m says. */
  function With(s: State, m: map<Tid, Pc>, t: Tid, pc: Pc): State { s.(c := s.c.(threads := m[t := pc])) }

  lemma GoIsWith(s: State, m: map<Tid, Pc>, t: Tid, a: Pc, b: Pc)
    ensures With(s, m, t, a).(c := With(s, m, t, a).c.Go(t, b)) == With(s, m, t, b)
  {
    SetTwice(m, t, a, b);
  }

  lemma LoadTail(s: State, m: map<Tid, Pc>, t: Tid, e: Ptr)
    requires |s.c.slots| > 0
    ensures Step(With(s, m, t, PushLoadTail(e)), Run(t, false)) == With(s, m, t, PushLoadSequence(e, s.c.tail))
  {
    hide Index;
    GoIsWith(s, m, t, PushLoadTail(e), PushLoadSequence(e, s.c.tail));
  }

  lemma CheckSequence(s: State, m: map<Tid, Pc>, t: Tid, e: Ptr, p: nat)
    requires |s.c.slots| > 0
    ensures SlotAt(s.c, p).sequence == p ==>
              Step(With(s, m, t, PushLoadSequence(e, p)), Run(t, false)) == With(s, m, t, PushClaim(e, p))
    ensures SlotAt(s.c, p).sequence < p ==>
              Step(With(s, m, t, PushLoadSequence(e, p)), Run(t, false)) == With(s, m, t, PushReturn(false))
  {
    hide Index;
    GoIsWith(s, m, t, PushLoadSequence(e, p), PushClaim(e, p));
    GoIsWith(s, m, t, PushLoadSequence(e, p), PushReturn(false));
  }

  /** The state once thread t has claimed the next ticket. */
  function Claimed(s: State, m: map<Tid, Pc>, t: Tid, e: Ptr): State {
    State(Config(s.c.slots, s.c.head, s.c.tail + 1, m[t := PushStore(e, s.c.tail)]),
          History(s.h.pushed + [e], s.h.pushers + [t], s.h.taken, s.h.status + [Writing(t)]))
  }

  lemma Claim(s: State, m: map<Tid, Pc>, t: Tid, e: Ptr)
    requires |s.c.slots| > 0
    ensures Step(With(s, m, t, PushClaim(e, s.c.tail)), Run(t, false)) == Claimed(s, m, t, e)
  {
    hide Index;
    SetTwice(m, t, PushClaim(e, s.c.tail), PushStore(e, s.c.tail));
  }

  /** The claim, with the accesses before it, by a thread that has just called push. */
  lemma Claims(s: State, m: map<Tid, Pc>, t: Tid, e: Ptr)
    requires |s.c.slots| > 0 && SlotAt(s.c, s.c.tail).sequence == s.c.tail
    ensures Exec(With(s, m, t, PushLoadTail(e)), Alone(t, 5)) == Exec(Claimed(s, m, t, e), Alone(t, 2))
  {
    hide *;
    WithSlots(s, m, t);
    LoadTail(s, m, t, e);
    CheckSequence(s, m, t, e, s.c.tail);
    TwoSteps(With(s, m, t, PushLoadTail(e)), t, With(s, m, t, PushLoadSequence(e, s.c.tail)),
             With(s, m, t, PushClaim(e, s.c.tail)), 3);
    Claim(s, m, t, e);
    OneMore(With(s, m, t, PushClaim(e, s.c.tail)), t, 2);
  }

  lemma WithSlots(s: State, m: map<Tid, Pc>, t: Tid)
    ensures forall pc :: |With(s, m, t, pc).c.slots| == |s.c.slots|
  {
  }

  lemma GivesUp(s: State, m: map<Tid, Pc>, t: Tid, e: Ptr)
    requires |s.c.slots| > 0 && SlotAt(s.c, s.c.tail).sequence < s.c.tail
    ensures Exec(With(s, m, t, PushLoadTail(e)), Alone(t, 5)) == With(s, m, t, PushReturn(false))
    ensures Exec(With(s, m, t, PushLoadTail(e)), Alone(t, 2)) == With(s, m, t, PushReturn(false))
  {
    hide Index;
    hide Step;
    hide Exec;
    var s1, s2 := With(s, m, t, PushLoadSequence(e, s.c.tail)), With(s, m, t, PushReturn(false));
    LoadTail(s, m, t, e);
    CheckSequence(s, m, t, e, s.c.tail);
    TwoSteps(With(s, m, t, PushLoadTail(e)), t, s1, s2, 3);
    TwoSteps(With(s, m, t, PushLoadTail(e)), t, s1, s2, 0);
    RestStays(s2, t, 3);
    RestStays(s2, t, 0);
  }

  /**
   A push by itself: it succeeds if and only if the next slot is free, and then its entry
   is published under the next ticket; otherwise nothing changes.  It never waits for
   another thread.
   */
  lemma PushAlone(s: State, t: Tid, e: Ptr)
    requires Inv(s) && t in s.c.threads && AtRest(s.c.threads[t])
    ensures var r := Exec(s, [CallPush(t, e)] + Alone(t, 5)); var p := s.c.tail;
            && |r.c.slots| > 0 && r.c.head == s.c.head && r.h.taken == s.h.taken
            && r.c.threads == s.c.threads[t := PushReturn(Free(s))]
            && if Free(s) then
                 && r.c.tail == p + 1 && r.h.pushed == s.h.pushed + [e] && r.h.pushers == s.h.pushers + [t]
                 && r.h.status == s.h.status + [Published] && SlotAt(r.c, p) == Slot(p + 1, e)
                 && forall i | 0 <= i < |s.c.slots| && i != Index(p, |s.c.slots|) :: r.c.slots[i] == s.c.slots[i]
               else r.c.slots == s.c.slots && r.c.tail == p && r.h == s.h
  {
    SequenceAtTail(s);
    FirstCall(s, CallPush(t, e), t, 5);
    var free, p, m := Free(s), s.c.tail, s.c.threads;
    assert |s.h.status| == p;
    hide Inv;
    hide Index;
    hide Free;
    assert Step(s, CallPush(t, e)) == With(s, m, t, PushLoadTail(e));
    hide Step;
    hide Exec;
    if free {
      Claims(s, m, t, e);
      Stored(Claimed(s, m, t, e), t, e, p, Index(p, |s.c.slots|));
      assert (s.h.status + [Writing(t)])[p := Published] == s.h.status + [Published];
      SetTwice(m, t, PushStore(e, p), PushReturn(true));
    } else {
      GivesUp(s, m, t, e);
    }
  }

  /** The last two accesses of a pop that has claimed ticket p. */
  lemma Exchanged(s: State, t: Tid, p: nat, i: nat, e: Ptr)
    requires |s.c.slots| > 0 && i == Index(p, |s.c.slots|) && s.c.slots[i] == Slot(p + 1, e)
    requires t in s.c.threads && s.c.threads[t] == PopTake(p) && p < |s.h.status| && p < |s.h.taken|
    ensures Exec(s, Alone(t, 2)) ==
            State(Config(s.c.slots[i := Slot(p + |s.c.slots|, Null)], s.c.head, s.c.tail,
                         s.c.threads[t := PopReturn(e != Null, e)]),
                  s.h.(taken := s.h.taken[p := Some(e)], status := s.h.status[p := Recycled]))
  {
    hide Index;
    OneMore(s, t, 1);
    var s1 := Step(s, Run(t, false));
    OneMore(s1, t, 0);
    OneMore(Step(s1, Run(t, false)), t, 0);
    var n := |s.c.slots|;
    assert s1.c.slots == s.c.slots[i := Slot(p + 1, Null)];
    assert s.c.slots[i := Slot(p + 1, Null)][i := Slot(p + n, Null)] == s.c.slots[i := Slot(p + n, Null)];
    SetTwice(s.c.threads, t, PopRecycle(p, e), PopReturn(e != Null, e));
  }

  lemma LoadHead(s: State, m: map<Tid, Pc>, t: Tid)
    requires |s.c.slots| > 0
    ensures Step(With(s, m, t, PopLoadHead), Run(t, false)) == With(s, m, t, PopLoadSequence(s.c.head))
  {
    hide Index;
    GoIsWith(s, m, t, PopLoadHead, PopLoadSequence(s.c.head));
  }

  lemma CheckPublished(s: State, m: map<Tid, Pc>, t: Tid, p: nat)
    requires |s.c.slots| > 0
    ensures SlotAt(s.c, p).sequence == p + 1 ==>
              Step(With(s, m, t, PopLoadSequence(p)), Run(t, false)) == With(s, m, t, PopClaim(p))
    ensures SlotAt(s.c, p).sequence < p + 1 ==>
              Step(With(s, m, t, PopLoadSequence(p)), Run(t, false)) == With(s, m, t, PopReturn(false, Null))
  {
    hide Index;
    GoIsWith(s, m, t, PopLoadSequence(p), PopClaim(p));
    GoIsWith(s, m, t, PopLoadSequence(p), PopReturn(false, Null));
  }

  /** The state once thread t has claimed the oldest ticket. */
  function ClaimedHead(s: State, m: map<Tid, Pc>, t: Tid): State
    requires s.c.head < |s.h.status|
  {
    State(Config(s.c.slots, s.c.head + 1, s.c.tail, m[t := PopTake(s.c.head)]),
          s.h.(taken := s.h.taken + [None], status := s.h.status[s.c.head := Reading(t)]))
  }

  lemma ClaimHead(s: State, m: map<Tid, Pc>, t: Tid)
    requires |s.c.slots| > 0 && s.c.head < |s.h.status|
    ensures Step(With(s, m, t, PopClaim(s.c.head)), Run(t, false)) == ClaimedHead(s, m, t)
  {
    hide Index;
    SetTwice(m, t, PopClaim(s.c.head), PopTake(s.c.head));
  }

  lemma ClaimsHead(s: State, m: map<Tid, Pc>, t: Tid)
    requires |s.c.slots| > 0 && SlotAt(s.c, s.c.head).sequence == s.c.head + 1 && s.c.head < |s.h.status|
    ensures Exec(With(s, m, t, PopLoadHead), Alone(t, 5)) == Exec(ClaimedHead(s, m, t), Alone(t, 2))
  {
    hide *;
    WithSlots(s, m, t);
    LoadHead(s, m, t);
    CheckPublished(s, m, t, s.c.head);
    TwoSteps(With(s, m, t, PopLoadHead), t, With(s, m, t, PopLoadSequence(s.c.head)),
             With(s, m, t, PopClaim(s.c.head)), 3);
    ClaimHead(s, m, t);
    OneMore(With(s, m, t, PopClaim(s.c.head)), t, 2);
  }

  lemma FindsNothing(s: State, m: map<Tid, Pc>, t: Tid)
    requires |s.c.slots| > 0 && SlotAt(s.c, s.c.head).sequence < s.c.head + 1
    ensures Exec(With(s, m, t, PopLoadHead), Alone(t, 5)) == With(s, m, t, PopReturn(false, Null))
  {
    hide Index;
    hide Step;
    hide Exec;
    var s1, s2 := With(s, m, t, PopLoadSequence(s.c.head)), With(s, m, t, PopReturn(false, Null));
    LoadHead(s, m, t);
    CheckPublished(s, m, t, s.c.head);
    TwoSteps(With(s, m, t, PopLoadHead), t, s1, s2, 3);
    RestStays(s2, t, 3);
  }

  /**
   A pop by itself: it takes the oldest entry if and only if that has been published, and
   leaves its slot empty for the ticket N later; otherwise nothing changes.
   */
  lemma PopAlone(s: State, t: Tid)
    requires Inv(s) && t in s.c.threads && AtRest(s.c.threads[t])
    ensures var r := Exec(s, [CallPop(t)] + Alone(t, 5)); var p := s.c.head;
            && |r.c.slots| > 0 && r.c.tail == s.c.tail && r.h.pushed == s.h.pushed && r.h.pushers == s.h.pushers
            && if Ready(s) then
                 && p < |s.h.pushed| && r.c.head == p + 1 && r.h.taken == s.h.taken + [Some(s.h.pushed[p])]
                 && r.c.threads == s.c.threads[t := PopReturn(s.h.pushed[p] != Null, s.h.pushed[p])]
                 && r.h.status == s.h.status[p := Recycled] && SlotAt(r.c, p) == Slot(p + |s.c.slots|, Null)
                 && forall i | 0 <= i < |s.c.slots| && i != Index(p, |s.c.slots|) :: r.c.slots[i] == s.c.slots[i]
               else
                 r.c == s.c.(threads := s.c.threads[t := PopReturn(false, Null)]) && r.h == s.h
  {
    SequenceAtHead(s);
    FirstCall(s, CallPop(t), t, 5);
    var ready, p, m := Ready(s), s.c.head, s.c.threads;
    assert Shape(s) && |s.h.taken| == p;
    hide Inv;
    hide Index;
    hide Ready;
    assert Step(s, CallPop(t)) == With(s, m, t, PopLoadHead);
    hide Step;
    hide Exec;
    if ready {
      ClaimsHead(s, m, t);
      var e := s.h.pushed[p];
      Exchanged(ClaimedHead(s, m, t), t, p, Index(p, |s.c.slots|), e);
      assert (s.h.taken + [None])[p := Some(e)] == s.h.taken + [Some(e)];
      assert s.h.status[p := Reading(t)][p := Recycled] == s.h.status[p := Recycled];
      SetTwice(m, t, PopTake(p), PopReturn(e != Null, e));
    } else {
      FindsNothing(s, m, t);
    }
  }

  /** A compare-and-swap that fails for no reason only sends its thread back to look again. */
  lemma SpuriousFailureRetries(s: State, t: Tid)
    requires |s.c.slots| > 0 && t in s.c.threads && (s.c.threads[t].PushClaim? || s.c.threads[t].PopClaim?)
    ensures Step(s, Run(t, true)) ==
            s.(c := s.c.(threads := s.c.threads[t := match s.c.threads[t]
                                                     case PushClaim(e, _) => PushLoadSequence(e, s.c.tail)
                                                     case _ => PopLoadSequence(s.c.head)]))
  {
    hide Index;
  }
}
