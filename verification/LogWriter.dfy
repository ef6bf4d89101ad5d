/** The writer of the rotating log left to itself: what it takes, what it cuts, and that it gets there. */
module LogWriter {
  import opened Basics
  import opened RotatingLog

  /** A swap of at most 25 buffers goes to the file whole; of 26 or more only the first two do. */
  lemma LongSwapKeepsTwo(swaps: seq<seq<seq<Line>>>)
    requires swaps != []
    ensures |Last(swaps)| <= 25 ==> KeptLines(swaps) == KeptLines(Front(swaps)) + Concat(Last(swaps))
    ensures |Last(swaps)| >= 26 ==> KeptLines(swaps) == KeptLines(Front(swaps)) + (Last(swaps)[0] + Last(swaps)[1])
  {
    var last := Last(swaps);
    if |last| >= 26 {
      assert last[..2][1..] == [last[1]] && [last[1]][1..] == [];
      assert Concat([last[1]]) == last[1] + Concat<Line>([]) == last[1];
    }
  }

  lemma OneStepOn(s: State, n: nat)
    ensures Exec(s, Advances(n + 1)) == Exec(Step(s, Advance), Advances(n)) && Exec(s, Advances(0)) == s
  {
    AdvanceFirst(s, n);
    NoSteps(s);
  }

  lemma NextStep(s: State)
    requires Roles(s) && Lines(s) && !s.phase.Testing? && !s.phase.Finished?
    ensures var r := Step(s, Advance);
            && Roles(r) && Lines(r) && (Drains(s) ==> Drains(r)) && r.running == s.running
            && r.appended == s.appended && r.size == s.size
  {
    hide *;
    StepKeepsRoles(s, Advance);
    StepKeepsLines(s, Advance);
    StepKeepsSize(s, Advance);
    StepKeepsDrains(s, Advance);
  }

  function Rank(p: Phase): nat {
    match p
    case Looking => 4
    case Waiting => 3
    case Dropping => 2
    case Writing(_) => 1
    case _ => 0
  }

  function Unwritten(s: State): nat {
    if s.phase.Writing? && s.phase.done <= |s.batch| then |s.batch| - s.phase.done else 0
  }

  lemma RoundGoesOn(s: State)
    requires Roles(s) && !s.phase.Testing? && !s.phase.Finished?
    ensures var r := Step(s, Advance);
            Rank(r.phase) < Rank(s.phase) || (Rank(r.phase) == Rank(s.phase) && Unwritten(r) < Unwritten(s))
    ensures !Step(s, Advance).phase.Finished?
  {
    hide NoSharing;
    hide Allocated;
    hide SparesEmpty;
    hide Refill1;
    hide Refill2;
  }

  /** The writer's own steps end its round; what waited when it was about to swap has then been taken. */
  lemma {:induction false} RoundEnds(s: State) returns (n: nat)
    requires Roles(s) && Lines(s) && !s.phase.Finished?
    ensures var r := Exec(s, Advances(n));
            && r.phase.Testing? && Roles(r) && Lines(r) && (Drains(s) ==> Drains(r))
            && r.running == s.running && r.appended == s.appended && r.size == s.size
    decreases Rank(s.phase), Unwritten(s)
  {
    hide Roles;
    hide Lines;
    hide Drains;
    hide Step;
    if s.phase.Testing? {
      n := 0;
      OneStepOn(s, 0);
    } else {
      NextStep(s);
      RoundGoesOn(s);
      var more := RoundEnds(Step(s, Advance));
      n := more + 1;
      OneStepOn(s, more);
    }
  }

  lemma TestPasses(s: State)
    requires Roles(s) && Lines(s) && s.phase.Testing?
    ensures var r := Step(s, Advance);
            && Roles(r) && Lines(r) && r.running == s.running && r.appended == s.appended && r.size == s.size
            && r.phase == if s.running then Looking else Finished
  {
    StepKeepsRoles(s, Advance);
    StepKeepsLines(s, Advance);
    hide NoSharing;
    hide Allocated;
  }

  lemma {:induction false} AdvancesAdd(s: State, n: nat, m: nat)
    ensures Exec(s, Advances(n + m)) == Exec(Exec(s, Advances(n)), Advances(m))
    decreases n
  {
    hide Step;
    NoSteps(s);
    if n > 0 {
      AdvanceFirst(s, n - 1);
      AdvanceFirst(s, n - 1 + m);
      AdvancesAdd(Step(s, Advance), n - 1, m);
    }
  }

  /** After stop the writer returns, whatever it was doing. */
  lemma WriterReturns(s: State) returns (n: nat)
    requires Roles(s) && Lines(s) && !s.running
    ensures Exec(s, Advances(n)).phase.Finished? && Exec(s, Advances(n)).appended == s.appended
  {
    hide *;
    if s.phase.Finished? {
      n := 0;
      NoSteps(s);
    } else {
      var m := RoundEnds(s);
      n := m + 1;
      AdvanceOnce(s, m);
      TestPasses(Exec(s, Advances(m)));
    }
  }

  /**
   While the log runs, everything appended so far reaches the file by the writer's own
   steps, without another append: all of it if no swap takes more than 25 buffers.
   */
  lemma WriterCatchesUp(s: State) returns (n: nat)
    requires Roles(s) && Lines(s) && s.running && !s.phase.Finished?
    ensures var r := Exec(s, Advances(n));
            && r.running && r.appended == s.appended && Untaken(r) == [] && r.file == KeptLines(r.swaps)
            && ((forall i | 0 <= i < |r.swaps| :: |r.swaps[i]| <= 25) ==> r.file == Fitting(s.size, s.appended))
  {
    hide *;
    var m := RoundEnds(s);
    var s1 := Exec(s, Advances(m));
    TestPasses(s1);
    var s2 := Step(s1, Advance);
    AdvanceOnce(s, m);
    var k := RoundEnds(s2);
    n := m + 1 + k;
    AdvancesAdd(s, m + 1, k);
    LookingDrains(s2);
    Drained(Exec(s2, Advances(k)));
  }

  lemma LookingDrains(s: State)
    requires s.phase.Looking?
    ensures Drains(s)
  {
  }

  lemma Drained(r: State)
    requires r.phase.Testing? && Drains(r) && Lines(r)
    ensures Untaken(r) == [] && r.file == KeptLines(r.swaps)
    ensures (forall i | 0 <= i < |r.swaps| :: |r.swaps[i]| <= 25) ==> r.file == Fitting(r.size, r.appended)
  {
    hide Concat;
    hide KeptLines;
    hide Fitting;
    if forall i | 0 <= i < |r.swaps| :: |r.swaps[i]| <= 25 {
      assert NoLongSwap(r.swaps);
      FileAndBatch(r);
      assert r.file + [] == r.file;
      var taken := Concat(Concat(r.swaps));
      assert taken + LinesIn(r, r.buffers) + Text(r, r.current) == taken + Untaken(r);
    }
  }

  /**
   Where a line goes: to the current buffer while that has more room than the line needs;
   otherwise the current buffer joins the full ones and the line starts an empty buffer.
   */
  lemma LineGoesWhere(s: State, line: Line)
    requires Roles(s)
    ensures var r := Step(s, Append(line));
            && r.appended == s.appended + [line] && r.file == s.file && r.batch == s.batch && r.phase == s.phase
            && if |Concat(Text(s, s.current))| + |line| < s.size then
                 r.buffers == s.buffers && r.current == s.current && Text(r, r.current) == Text(s, s.current) + [line]
               else
                 r.buffers == s.buffers + [s.current] && r.current != s.current
                 && Text(r, s.current) == Text(s, s.current)
                 && Text(r, r.current) == if |line| < s.size then [line] else []
  {
    hide *;
    CurrentKnown(s);
    if |Concat(Text(s, s.current))| + |line| < s.size { LineFits(s, line); } else { LineStarts(s, line); }
  }

  lemma CurrentKnown(s: State)
    requires Roles(s)
    ensures s.current < s.unused && Some(s.current) != s.next && Empty(s, s.next)
  {
    hide Empty;
    CurrentApart(s);
    hide NoSharing;
    assert s.current in Owned(s) by { assert multiset{s.current} <= Owned(s); }
  }

  lemma LineFits(s: State, line: Line)
    requires |Concat(Text(s, s.current))| + |line| < s.size
    ensures var r := Step(s, Append(line));
            && r.appended == s.appended + [line] && r.file == s.file && r.batch == s.batch && r.phase == s.phase
            && r.buffers == s.buffers && r.current == s.current && Text(r, r.current) == Text(s, s.current) + [line]
  {
    hide Concat;
    hide Rotate;
    var s0 := s.(appended := s.appended + [line]);
    assert Text(s0, s.current) == Text(s, s.current);
  }

  lemma LineStarts(s: State, line: Line)
    requires s.current < s.unused && Some(s.current) != s.next && Empty(s, s.next)
    requires |Concat(Text(s, s.current))| + |line| >= s.size
    ensures var r := Step(s, Append(line));
            && r.appended == s.appended + [line] && r.file == s.file && r.batch == s.batch && r.phase == s.phase
            && r.buffers == s.buffers + [s.current] && r.current != s.current
            && Text(r, s.current) == Text(s, s.current)
            && Text(r, r.current) == if |line| < s.size then [line] else []
  {
    var s0 := s.(appended := s.appended + [line]);
    assert Text(s0, s.current) == Text(s, s.current);
    RotateStartsEmpty(s0);
    var r0 := Rotate(s0);
    assert Concat<char>([]) == [];
    hide Concat;
    hide Rotate;
    assert Avail(r0, r0.current) == s.size;
    assert [] + [line] == [line];
  }

  lemma RotateStartsEmpty(s: State)
    requires s.current < s.unused && Some(s.current) != s.next && Empty(s, s.next)
    ensures var r := Rotate(s);
            && r.buffers == s.buffers + [s.current] && r.current != s.current && Text(r, r.current) == []
            && Text(r, s.current) == Text(s, s.current) && r.size == s.size
            && r.file == s.file && r.batch == s.batch && r.phase == s.phase && r.appended == s.appended
  {
  }
}
