/**
 The asynchronous log with rotating buffers: threads append lines under a lock to the
 current buffer, and a writer thread swaps full buffers out and writes them to a file.

 Buffers are named by numbers and looked up in a store, so that two roles could hold the
 same buffer; that they never do is proved.  Steps of all threads interleave arbitrarily;
 each step is what one thread does under one hold of the lock, or on its own data.
 The step Wait ends for any reason: a notification, the flush interval, or none.
 */
module RotatingLog {
  import opened Basics

  type Id = nat
  type Line = string

  const LIMIT := 25

  datatype Phase =
    | Testing            // at while (running_)
    | Looking            // about to take the lock
    | Waiting            // in waitForSeconds, lock released
    | Dropping           // batch swapped out, not yet cut to size
    | Writing(done: nat) // done buffers of the batch written
    | Finished

  /**
   appended and swaps are history: the lines passed to append in lock order, and for every
   swap the lines of each buffer taken.  failed is set when an assert of the writer fires.
   */
  datatype State = State(size: nat, text: map<Id, seq<Line>>, unused: Id, current: Id, next: Option<Id>,
                         buffers: seq<Id>, new1: Option<Id>, new2: Option<Id>, batch: seq<Id>,
                         phase: Phase, running: bool, failed: bool, file: seq<Line>,
                         appended: seq<Line>, swaps: seq<seq<seq<Line>>>)

  datatype Action = Append(line: Line) | Stop | Advance

  function Text(s: State, id: Id): seq<Line> {
    if id in s.text then s.text[id] else []
  }

  /** Bytes still free in a buffer. */
  function Avail(s: State, id: Id): int {
    s.size - |Concat(Text(s, id))|
  }

  /** FixedBuffer::append: a line that does not fit is dropped. */
  function Put(s: State, id: Id, line: Line): State {
    if Avail(s, id) > |line| then s.(text := s.text[id := Text(s, id) + [line]]) else s
  }

  function Rotate(s: State): State {
    var s := s.(buffers := s.buffers + [s.current]);
    if s.next.Some? then s.(current := s.next.value, next := None)
    else s.(current := s.unused, unused := s.unused + 1, text := s.text[s.unused := []])
  }

  function AppendLine(s: State, line: Line): State {
    var s := s.(appended := s.appended + [line]);
    if Avail(s, s.current) > |line| then Put(s, s.current, line)
    else var r := Rotate(s); Put(r, r.current, line)
  }

  function Texts(s: State, ids: seq<Id>): seq<seq<Line>> {
    seq(|ids|, i requires 0 <= i < |ids| => Text(s, ids[i]))
  }

  /** The swap under the lock. */
  function Swap(s: State): State {
    if s.new1.None? then s.(failed := true)
    else
      var taken := s.buffers + [s.current];
      var s := s.(batch := taken, buffers := [], current := s.new1.value, new1 := None,
                  swaps := s.swaps + [Texts(s, taken)], phase := Dropping);
      if s.next.None? then s.(next := s.new2, new2 := None) else s
  }

  /** What a swap of too many buffers keeps. */
  function Kept<T>(batch: seq<T>): seq<T> {
    if |batch| > LIMIT then batch[..2] else batch
  }

  function Last<T>(a: seq<T>): T
    requires a != []
  {
    a[|a| - 1]
  }

  function Front<T>(a: seq<T>): seq<T>
    requires a != []
  {
    a[..|a| - 1]
  }

  function Reset(s: State, id: Id): State { s.(text := s.text[id := []]) }

  function Refill1(s: State): State {
    if s.new1.Some? then s
    else if s.batch == [] then s.(failed := true)
    else Reset(s.(new1 := Some(Last(s.batch)), batch := Front(s.batch)), Last(s.batch))
  }

  function Refill2(s: State): State {
    if s.new2.Some? then s
    else if s.batch == [] then s.(failed := true)
    else Reset(s.(new2 := Some(Last(s.batch)), batch := Front(s.batch)), Last(s.batch))
  }

  /** After writing: keep two buffers of the batch, reuse them as new buffers, and forget the rest. */
  function Recycle(s: State): State {
    var s := if |s.batch| > 2 then s.(batch := s.batch[..2]) else s;
    Refill2(Refill1(s)).(batch := [], phase := Testing)
  }

  /** The asserts at the head of the loop. */
  predicate HeadAsserts(s: State) {
    && s.new1.Some? && Text(s, s.new1.value) == []
    && s.new2.Some? && Text(s, s.new2.value) == []
    && s.batch == []
  }

  function WriterStep(s: State): State {
    match s.phase
    case Testing =>
      if !s.running then s.(phase := Finished)
      else if HeadAsserts(s) then s.(phase := Looking)
      else s.(failed := true)
    case Looking => if s.buffers == [] then s.(phase := Waiting) else Swap(s)
    case Waiting => Swap(s)
    case Dropping =>
      if s.batch == [] then s.(failed := true) else s.(batch := Kept(s.batch), phase := Writing(0))
    case Writing(k) =>
      if k < |s.batch| then s.(file := s.file + Text(s, s.batch[k]), phase := Writing(k + 1))
      else Recycle(s)
    case Finished => s
  }

  function Step(s: State, a: Action): State {
    match a
    case Append(line) => AppendLine(s, line)
    case Stop => s.(running := false)
    case Advance => if s.failed then s else WriterStep(s)
  }

  function Exec(s: State, run: seq<Action>): State
    decreases |run|
  {
    if run == [] then s else Exec(Step(s, run[0]), run[1..])
  }

  /** After construction and start, with the writer's two spare buffers. */
  function Init(size: nat): State {
    State(size, map[0 := [], 1 := [], 2 := [], 3 := []], 4, 0, Some(1), [], Some(2), Some(3), [],
          Testing, true, false, [], [], [])
  }

  // ----------------------------------------------------------------- ownership

  function Held(o: Option<Id>): multiset<Id> {
    if o.Some? then multiset{o.value} else multiset{}
  }

  /** All buffers in use, with the number of roles that hold them. */
  function Owned(s: State): multiset<Id> {
    multiset{s.current} + Held(s.next) + multiset(s.buffers) + Held(s.new1) + Held(s.new2) + multiset(s.batch)
  }

  ghost predicate NoSharing(s: State) { forall id :: Owned(s)[id] <= 1 }

  ghost predicate Allocated(s: State) { forall id :: id in Owned(s) ==> id < s.unused }

  predicate Empty(s: State, o: Option<Id>) { o.Some? ==> Text(s, o.value) == [] }

  /** Which spare buffers are there in which phase: this is what the asserts rely on. */
  predicate Spares(s: State) {
    && !s.failed
    && (s.next.None? ==> s.buffers != [])
    && match s.phase
       case Dropping => s.new1.None? && s.batch != [] && (s.new2.None? ==> |s.batch| >= 2)
       case Writing(k) => s.new1.None? && s.batch != [] && (s.new2.None? ==> |s.batch| >= 2) && k <= |s.batch|
       case _ => s.new1.Some? && s.new2.Some? && s.batch == []
  }

  predicate SparesEmpty(s: State) { Empty(s, s.next) && Empty(s, s.new1) && Empty(s, s.new2) }

  ghost predicate Roles(s: State) { NoSharing(s) && Allocated(s) && Spares(s) && SparesEmpty(s) }

  lemma Apart(s: State, o: Option<Id>)
    requires NoSharing(s)
    requires o.Some? && (o == s.next || o == s.new1 || o == s.new2)
    ensures o.value != s.current && o.value !in s.buffers && o.value !in s.batch
  {
    var id := o.value;
    assert Owned(s)[id] <= 1;
    assert id in s.buffers ==> id in multiset(s.buffers);
    assert id in s.batch ==> id in multiset(s.batch);
  }

  lemma CurrentApart(s: State)
    requires NoSharing(s)
    ensures s.current !in s.buffers && s.current !in s.batch
    ensures Some(s.current) != s.next && Some(s.current) != s.new1 && Some(s.current) != s.new2
  {
    var id := s.current;
    assert Owned(s)[id] <= 1;
    assert id in s.buffers ==> id in multiset(s.buffers);
    assert id in s.batch ==> id in multiset(s.batch);
  }

  /** Holding fewer buffers keeps ownership in order. */
  lemma Fewer(s: State, r: State)
    requires NoSharing(s) && Allocated(s) && Owned(r) <= Owned(s) && r.unused >= s.unused
    ensures NoSharing(r) && Allocated(r)
  {
    hide Owned;
    forall id ensures Owned(r)[id] <= 1 && (id in Owned(r) ==> id < r.unused) {
      assert Owned(s)[id] <= 1;
    }
  }

  lemma SameOwners(s: State, r: State)
    requires r.current == s.current && r.next == s.next && r.buffers == s.buffers && r.new1 == s.new1
    requires r.new2 == s.new2 && r.batch == s.batch
    ensures Owned(r) == Owned(s)
  {
  }

  /** A step that moves no buffer and changes no text. */
  lemma SameBuffers(s: State, r: State)
    requires NoSharing(s) && Allocated(s) && SparesEmpty(s)
    requires r.current == s.current && r.next == s.next && r.buffers == s.buffers && r.new1 == s.new1
    requires r.new2 == s.new2 && r.batch == s.batch && r.unused == s.unused && r.text == s.text
    ensures NoSharing(r) && Allocated(r) && SparesEmpty(r)
  {
    hide Owned;
    hide NoSharing;
    hide Allocated;
    SameOwners(s, r);
    Fewer(s, r);
  }

  lemma PutKeepsRoles(s: State, line: Line)
    requires Roles(s)
    ensures Roles(Put(s, s.current, line)) && Owned(Put(s, s.current, line)) == Owned(s)
  {
    hide Owned;
    hide NoSharing;
    hide Allocated;
    CurrentApart(s);
    hide Avail;
    var r := Put(s, s.current, line);
    SameOwners(s, r);
    Fewer(s, r);
  }

  lemma RotateFresh(s: State, r: State)
    requires NoSharing(s) && Allocated(s) && Owned(r) == Owned(s) + multiset{s.unused} && r.unused == s.unused + 1
    ensures NoSharing(r) && Allocated(r)
  {
    hide Owned;
    assert s.unused !in Owned(s);
    forall id ensures Owned(r)[id] <= 1 && (id in Owned(r) ==> id < r.unused) {
      assert Owned(s)[id] <= 1;
    }
  }

  lemma SpareIsOwned(s: State)
    requires Allocated(s)
    ensures Some(s.unused) != s.new1 && Some(s.unused) != s.new2 && Some(s.unused) != s.next
  {
    assert s.unused !in Owned(s);
  }

  lemma RotateOwns(s: State, r: State)
    requires r.buffers == s.buffers + [s.current] && r.next == None && r.new1 == s.new1 && r.new2 == s.new2
    requires r.batch == s.batch && r.current == if s.next.Some? then s.next.value else s.unused
    ensures Owned(r) == if s.next.Some? then Owned(s) else Owned(s) + multiset{s.unused}
  {
  }

  lemma RotateKeepsRoles(s: State)
    requires Roles(s)
    ensures Roles(Rotate(s)) && Text(Rotate(s), Rotate(s).current) == []
  {
    hide Owned;
    hide NoSharing;
    hide Allocated;
    var r := Rotate(s);
    SpareIsOwned(s);
    if s.next.Some? {
      RotateOwns(s, r);
      Fewer(s, r);
    } else {
      RotateOwns(s, r);
      RotateFresh(s, r);
    }
  }

  lemma SwapKeepsRoles(s: State)
    requires Roles(s) && (s.phase.Looking? || s.phase.Waiting?)
    ensures Roles(Swap(s))
  {
    hide Owned;
    hide NoSharing;
    hide Allocated;
    hide Texts;
    var r := Swap(s);
    SwapOwns(s, r);
    Fewer(s, r);
  }

  lemma SwapOwns(s: State, r: State)
    requires s.new1.Some? && s.batch == [] && r.buffers == [] && r.batch == s.buffers + [s.current]
    requires r.current == s.new1.value && r.new1.None?
    requires if s.next.None? then r.next == s.new2 && r.new2.None? else r.next == s.next && r.new2 == s.new2
    ensures Owned(r) == Owned(s)
  {
  }

  lemma Slices(batch: seq<Id>, k: nat)
    requires k <= |batch|
    ensures multiset(batch[..k]) <= multiset(batch)
  {
    assert batch == batch[..k] + batch[k..];
  }

  lemma DropKeepsRoles(s: State)
    requires Roles(s) && s.phase.Dropping?
    ensures Roles(WriterStep(s))
  {
    hide Owned;
    hide NoSharing;
    hide Allocated;
    var r := WriterStep(s);
    BatchCut(s, r, Kept(s.batch));
    Fewer(s, r);
  }

  /** Cutting the batch down to its first buffers. */
  lemma BatchCut(s: State, r: State, cut: seq<Id>)
    requires cut == [] || cut == s.batch || (|s.batch| >= 2 && cut == s.batch[..2])
    requires r.current == s.current && r.next == s.next && r.buffers == s.buffers && r.new1 == s.new1
    requires r.new2 == s.new2 && r.batch == cut
    ensures Owned(r) <= Owned(s)
  {
    if cut != [] && cut != s.batch { Slices(s.batch, 2); }
    assert multiset(cut) <= multiset(s.batch);
  }

  lemma LastOf(batch: seq<Id>)
    requires batch != []
    ensures multiset(batch) == multiset(Front(batch)) + multiset{Last(batch)}
  {
    assert batch == Front(batch) + [Last(batch)];
  }

  /** One spare buffer taken back from the batch. */
  ghost predicate Recycling(s: State) {
    && NoSharing(s) && Allocated(s) && !s.failed && (s.next.None? ==> s.buffers != []) && SparesEmpty(s)
  }

  lemma TakeBackOwns(s: State, r: State)
    requires s.batch != [] && r.batch == Front(s.batch)
    requires (s.new1.None? && r.new1 == Some(Last(s.batch)) && r.new2 == s.new2)
          || (s.new2.None? && r.new2 == Some(Last(s.batch)) && r.new1 == s.new1)
    requires r.current == s.current && r.next == s.next && r.buffers == s.buffers
    ensures Owned(r) == Owned(s)
  {
    LastOf(s.batch);
  }

  /** No spare buffer is in the batch. */
  lemma SpareTexts(s: State)
    requires NoSharing(s) && s.batch != []
    ensures Some(Last(s.batch)) != s.next && Some(Last(s.batch)) != s.new1 && Some(Last(s.batch)) != s.new2
  {
    hide Owned;
    hide NoSharing;
    if s.next.Some? { Apart(s, s.next); }
    if s.new1.Some? { Apart(s, s.new1); }
    if s.new2.Some? { Apart(s, s.new2); }
  }

  /** Back in the loop: what the batch's last buffer becomes. */
  lemma TakeBack(s: State, r: State)
    requires Recycling(s) && s.batch != []
    requires (s.new1.None? && r.new1 == Some(Last(s.batch)) && r.new2 == s.new2)
          || (s.new2.None? && r.new2 == Some(Last(s.batch)) && r.new1 == s.new1)
    requires r.current == s.current && r.next == s.next && r.buffers == s.buffers
    requires r.batch == Front(s.batch) && r.text == s.text[Last(s.batch) := []] && r.unused == s.unused
    requires r.failed == s.failed
    ensures Recycling(r)
  {
    hide Owned;
    hide NoSharing;
    hide Allocated;
    TakeBackOwns(s, r);
    Fewer(s, r);
    SpareTexts(s);
  }

  lemma Refill1Works(s: State)
    requires Recycling(s) && s.new1.None? && s.batch != []
    ensures var r := Refill1(s);
            Recycling(r) && r.new1.Some? && r.new2 == s.new2 && r.batch == Front(s.batch) && r.phase == s.phase
  {
    hide Recycling;
    TakeBack(s, Refill1(s));
  }

  lemma Refill2Works(s: State)
    requires Recycling(s) && s.new1.Some? && (s.new2.None? ==> s.batch != [])
    ensures var r := Refill2(s); Recycling(r) && r.new1 == s.new1 && r.new2.Some? && r.phase == s.phase
  {
    if s.new2.None? {
      assert !s.failed;
      hide Recycling;
      TakeBack(s, Refill2(s));
    }
  }

  lemma CutRecycling(s: State, r: State)
    requires Recycling(s) && (r == s.(batch := r.batch) || r == s.(batch := r.batch, phase := r.phase))
    requires r.batch == [] || r.batch == s.batch || (|s.batch| >= 2 && r.batch == s.batch[..2])
    ensures Recycling(r)
  {
    hide Owned;
    hide NoSharing;
    hide Allocated;
    BatchCut(s, r, r.batch);
    Fewer(s, r);
  }

  lemma RecycleKeepsRoles(s: State)
    requires Roles(s) && s.phase.Writing?
    ensures Roles(Recycle(s))
  {
    hide NoSharing;
    hide Allocated;
    hide SparesEmpty;
    hide Refill1;
    hide Refill2;
    assert Recycling(s);
    var s0 := if |s.batch| > 2 then s.(batch := s.batch[..2]) else s;
    CutRecycling(s, s0);
    Refill1Works(s0);
    var s1 := Refill1(s0);
    Refill2Works(s1);
    var s2 := Refill2(s1);
    CutRecycling(s2, s2.(batch := [], phase := Testing));
  }

  lemma AppendKeepsRoles(s: State, line: Line)
    requires Roles(s)
    ensures Roles(AppendLine(s, line))
  {
    hide NoSharing;
    hide Allocated;
    hide SparesEmpty;
    var s0 := s.(appended := s.appended + [line]);
    SameBuffers(s, s0);
    assert Roles(s0);
    hide Roles;
    hide Put;
    hide Rotate;
    hide Avail;
    RotateKeepsRoles(s0);
    PutKeepsRoles(s0, line);
    PutKeepsRoles(Rotate(s0), line);
  }

  lemma StepKeepsRoles(s: State, a: Action)
    requires Roles(s)
    ensures Roles(Step(s, a))
  {
    hide NoSharing;
    hide Allocated;
    hide AppendLine;
    hide Swap;
    hide Recycle;
    match a
    case Append(line) => AppendKeepsRoles(s, line);
    case Stop => SameBuffers(s, Step(s, a));
    case Advance =>
      if s.phase.Waiting? || (s.phase.Looking? && s.buffers != []) { SwapKeepsRoles(s); }
      else if s.phase.Dropping? { DropKeepsRoles(s); }
      else if s.phase.Writing? && s.phase.done == |s.batch| { RecycleKeepsRoles(s); }
      else { SameBuffers(s, Step(s, a)); }
  }

  lemma InitHasRoles(size: nat)
    ensures Roles(Init(size))
  {
    var s := Init(size);
    assert Owned(s) == multiset{0, 1, 2, 3};
  }

  lemma {:induction false} ExecKeepsRoles(s: State, run: seq<Action>)
    requires Roles(s)
    ensures Roles(Exec(s, run))
    decreases |run|
  {
    hide Roles;
    if run != [] {
      StepKeepsRoles(s, run[0]);
      ExecKeepsRoles(Step(s, run[0]), run[1..]);
    }
  }

  /** In every run: no assert fires, and no buffer ever has two owners. */
  lemma AssertsNeverFire(size: nat, run: seq<Action>)
    ensures var s := Exec(Init(size), run);
            !s.failed && forall id :: Owned(s)[id] <= 1
  {
    InitHasRoles(size);
    ExecKeepsRoles(Init(size), run);
  }

  // -------------------------------------------------------------- conservation

  /** The lines that fit in an empty buffer. */
  function Fitting(size: nat, lines: seq<Line>): seq<Line> {
    if lines == [] then []
    else Fitting(size, Front(lines)) + if |Last(lines)| < size then [Last(lines)] else []
  }

  /** The lines of the buffers that the swaps kept. */
  function KeptLines(swaps: seq<seq<seq<Line>>>): seq<Line> {
    if swaps == [] then [] else KeptLines(Front(swaps)) + Concat(Kept(Last(swaps)))
  }

  /** The lines of a list of buffers, in order. */
  function LinesIn(s: State, ids: seq<Id>): seq<Line> { Concat(Texts(s, ids)) }

  /** Taken by swaps, in full buffers and in the current buffer: all lines that fit, in lock order. */
  predicate AllThere(s: State) {
    Concat(Concat(s.swaps)) + LinesIn(s, s.buffers) + Text(s, s.current) == Fitting(s.size, s.appended)
  }

  /** The file holds what the finished swaps kept, and of the current one what has been written. */
  predicate FileRight(s: State) {
    match s.phase
    case Dropping => s.swaps != [] && Texts(s, s.batch) == Last(s.swaps) && s.file == KeptLines(Front(s.swaps))
    case Writing(k) =>
      && s.swaps != [] && k <= |s.batch| && Texts(s, s.batch) == Kept(Last(s.swaps))
      && s.file == KeptLines(Front(s.swaps)) + Concat(Texts(s, s.batch)[..k])
    case _ => s.file == KeptLines(s.swaps)
  }

  /** Lists of buffers whose texts do not change have the same lines. */
  lemma SameTexts(s: State, r: State, ids: seq<Id>)
    requires forall id | id in ids :: Text(r, id) == Text(s, id)
    ensures Texts(r, ids) == Texts(s, ids) && LinesIn(r, ids) == LinesIn(s, ids)
  {
  }

  lemma TextsSnoc(s: State, ids: seq<Id>, id: Id)
    ensures Texts(s, ids + [id]) == Texts(s, ids) + [Text(s, id)]
    ensures LinesIn(s, ids + [id]) == LinesIn(s, ids) + Text(s, id)
  {
    assert Texts(s, ids + [id]) == Texts(s, ids) + [Text(s, id)];
    ConcatSnoc(Texts(s, ids), Text(s, id));
  }

  lemma FittingSnoc(size: nat, lines: seq<Line>, line: Line)
    ensures Fitting(size, lines + [line]) == Fitting(size, lines) + if |line| < size then [line] else []
  {
    assert Front(lines + [line]) == lines;
  }

  /** The texts of buffers, batch and swaps stay: r differs from s in what FileRight and AllThere do not see. */
  lemma FileStays(s: State, r: State)
    requires FileRight(s) && r.phase == s.phase && r.swaps == s.swaps && r.batch == s.batch && r.file == s.file
    requires forall id | id in s.batch :: Text(r, id) == Text(s, id)
    ensures FileRight(r)
  {
    hide KeptLines;
    SameTexts(s, r, s.batch);
  }

  lemma PutKeepsLines(s: State, line: Line)
    requires Roles(s) && FileRight(s)
    ensures var r := Put(s, s.current, line);
            && FileRight(r) && LinesIn(r, s.buffers) == LinesIn(s, s.buffers)
            && Text(r, s.current) == Text(s, s.current) + if Avail(s, s.current) > |line| then [line] else []
  {
    hide Owned;
    hide Allocated;
    hide Spares;
    hide SparesEmpty;
    hide FileRight;
    hide LinesIn;
    hide Avail;
    CurrentApart(s);
    var r := Put(s, s.current, line);
    SameTexts(s, r, s.buffers);
    FileStays(s, r);
  }

  lemma UnusedApart(s: State)
    requires Allocated(s)
    ensures s.unused !in s.buffers && s.unused !in s.batch && s.unused != s.current
  {
    assert s.unused in s.buffers ==> s.unused in multiset(s.buffers);
    assert s.unused in s.batch ==> s.unused in multiset(s.batch);
    assert s.unused !in Owned(s);
  }

  lemma RotateKeepsLines(s: State)
    requires Roles(s) && FileRight(s)
    ensures var r := Rotate(s);
            && FileRight(r) && r.buffers == s.buffers + [s.current] && Text(r, r.current) == []
            && LinesIn(r, r.buffers) == LinesIn(s, s.buffers) + Text(s, s.current)
  {
    hide Owned;
    hide Spares;
    hide FileRight;
    hide LinesIn;
    UnusedApart(s);
    var r := Rotate(s);
    SameTexts(s, r, r.buffers);
    TextsSnoc(s, s.buffers, s.current);
    FileStays(s, r);
  }

  lemma AppendKeepsLines(s: State, line: Line)
    requires Roles(s) && FileRight(s) && AllThere(s)
    ensures FileRight(AppendLine(s, line)) && AllThere(AppendLine(s, line))
  {
    hide Owned;
    hide NoSharing;
    hide Allocated;
    hide Spares;
    hide SparesEmpty;
    hide FileRight;
    hide LinesIn;
    hide Rotate;
    hide Put;
    hide Concat;
    hide Fitting;
    var s0 := s.(appended := s.appended + [line]);
    SameOwners(s, s0);
    SameBuffers(s, s0);
    KeepsSpares(s, s0);
    SameTexts(s, s0, s.buffers);
    FileStays(s, s0);
    FittingSnoc(s.size, s.appended, line);
    var taken, full, here := Concat(Concat(s.swaps)), LinesIn(s, s.buffers), Text(s, s.current);
    if Avail(s0, s0.current) > |line| {
      PutFrame(s0, line);
      PutKeepsLines(s0, line);
      assert taken + full + (here + [line]) == (taken + full + here) + [line];
    } else {
      RotateFrame(s0);
      RotateKeepsRoles(s0);
      RotateKeepsLines(s0);
      var r := Rotate(s0);
      PutFrame(r, line);
      PutKeepsLines(r, line);
      EmptyIsFree(r, r.current);
      var added := if |line| < s.size then [line] else [];
      assert [] + added == added;
      assert taken + (full + here) + added == (taken + full + here) + added;
    }
  }

  lemma EmptyIsFree(s: State, id: Id)
    requires Text(s, id) == []
    ensures Avail(s, id) == s.size
  {
  }

  lemma KeepsSpares(s: State, r: State)
    requires Spares(s) && SparesEmpty(s) && r == s.(appended := r.appended)
    ensures Spares(r) && SparesEmpty(r)
  {
  }

  lemma PutFrame(s: State, line: Line)
    ensures var r := Put(s, s.current, line);
            r.swaps == s.swaps && r.appended == s.appended && r.size == s.size
            && r.current == s.current && r.buffers == s.buffers
  {
  }

  lemma RotateFrame(s: State)
    ensures var r := Rotate(s); r.swaps == s.swaps && r.appended == s.appended && r.size == s.size
  {
  }

  lemma SwapKeepsLines(s: State)
    requires Roles(s) && (s.phase.Looking? || s.phase.Waiting?)
    requires FileRight(s) && AllThere(s)
    ensures FileRight(Swap(s)) && AllThere(Swap(s))
  {
    hide Owned;
    hide NoSharing;
    hide Allocated;
    hide KeptLines;
    hide Fitting;
    hide Concat;
    var r, taken := Swap(s), s.buffers + [s.current];
    SpareIsEmpty(s);
    SameTexts(s, r, taken);
    TextsSnoc(s, s.buffers, s.current);
    var batch := Texts(s, taken);
    ConcatSnoc(s.swaps, batch);
    ConcatAppend(Concat(s.swaps), batch);
    assert Front(r.swaps) == s.swaps && Last(r.swaps) == batch;
    NoLines(r);
    var prior, full, here := Concat(Concat(s.swaps)), LinesIn(s, s.buffers), Text(s, s.current);
    assert (prior + (full + here)) + [] + [] == prior + full + here;
  }

  lemma SpareIsEmpty(s: State)
    requires Roles(s) && (s.phase.Looking? || s.phase.Waiting?)
    ensures s.new1.Some? && Text(s, s.new1.value) == []
  {
  }

  lemma NoLines(s: State)
    ensures LinesIn(s, []) == []
  {
  }

  lemma DropKeepsLines(s: State)
    requires Roles(s) && s.phase.Dropping? && FileRight(s)
    ensures FileRight(WriterStep(s))
  {
    hide Owned;
    hide KeptLines;
    var r := WriterStep(s);
    var all := Texts(s, s.batch);
    assert Texts(r, r.batch) == Kept(all) by {
      SameTexts(s, r, r.batch);
    }
    assert Texts(r, r.batch)[..0] == [];
  }

  /** One more buffer of the batch. */
  lemma OneMoreBuffer(s: State, k: nat, front: seq<Line>)
    requires k < |s.batch|
    ensures (front + Concat(Texts(s, s.batch)[..k])) + Text(s, s.batch[k]) ==
            front + Concat(Texts(s, s.batch)[..k + 1])
  {
    hide Concat;
    var all := Texts(s, s.batch);
    assert all[..k + 1] == all[..k] + [Text(s, s.batch[k])];
    ConcatSnoc(all[..k], Text(s, s.batch[k]));
  }

  lemma WriteKeepsFile(s: State, k: nat)
    requires s.phase == Writing(k) && k < |s.batch| && FileRight(s)
    ensures FileRight(WriterStep(s))
  {
    hide KeptLines;
    hide Kept;
    hide Concat;
    var r := WriterStep(s);
    SameTexts(s, r, s.batch);
    OneMoreBuffer(s, k, KeptLines(Front(s.swaps)));
  }

  lemma Refill1Erases(s: State, id: Id)
    requires id !in s.batch
    ensures Text(Refill1(s), id) == Text(s, id) && id !in Refill1(s).batch
  {
  }

  lemma Refill2Erases(s: State, id: Id)
    requires id !in s.batch
    ensures Text(Refill2(s), id) == Text(s, id)
  {
  }

  /** Recycling erases only buffers of the batch. */
  lemma RecycleErases(s: State, id: Id)
    requires id !in s.batch
    ensures Text(Recycle(s), id) == Text(s, id)
  {
    hide Refill1;
    hide Refill2;
    var s0 := if |s.batch| > 2 then s.(batch := s.batch[..2]) else s;
    Refill1Erases(s0, id);
    Refill2Erases(Refill1(s0), id);
  }

  predicate SameOutside(s: State, r: State) {
    && r.buffers == s.buffers && r.current == s.current && r.swaps == s.swaps && r.file == s.file
    && r.appended == s.appended && r.size == s.size
  }

  lemma RefillFrame(s: State)
    ensures SameOutside(s, Refill1(s)) && SameOutside(s, Refill2(s))
  {
  }

  lemma RecycleFrame(s: State)
    ensures SameOutside(s, Recycle(s)) && Recycle(s).phase == Testing
  {
    hide Refill1;
    hide Refill2;
    var s0 := if |s.batch| > 2 then s.(batch := s.batch[..2]) else s;
    RefillFrame(s0);
    RefillFrame(Refill1(s0));
  }

  lemma BatchApart(s: State)
    requires NoSharing(s)
    ensures s.current !in s.batch && forall id | id in s.buffers :: id !in s.batch
  {
    forall id | id in s.buffers ensures id !in s.batch {
      assert id in multiset(s.buffers) && Owned(s)[id] <= 1;
      assert id in s.batch ==> id in multiset(s.batch);
    }
    CurrentApart(s);
  }

  lemma RecycleKeepsLines(s: State)
    requires Roles(s) && s.phase == Writing(|s.batch|) && FileRight(s) && AllThere(s)
    ensures FileRight(Recycle(s)) && AllThere(Recycle(s))
  {
    hide Owned;
    hide Recycle;
    hide Concat;
    hide Fitting;
    BatchApart(s);
    hide NoSharing;
    RecycleFrame(s);
    var r := Recycle(s);
    forall id | id !in s.batch ensures Text(r, id) == Text(s, id) { RecycleErases(s, id); }
    SameTexts(s, r, s.buffers);
    assert Texts(s, s.batch)[..|s.batch|] == Texts(s, s.batch);
  }

  predicate Lines(s: State) { FileRight(s) && AllThere(s) }

  /** A step of the writer that moves no buffer and writes nothing. */
  lemma QuietKeepsLines(s: State, r: State)
    requires Lines(s) && (r == s.(phase := r.phase) || r == s.(running := r.running))
    requires r.phase != s.phase ==> !r.phase.Dropping? && !r.phase.Writing? && !s.phase.Dropping? && !s.phase.Writing?
    ensures Lines(r)
  {
    hide KeptLines;
    hide Fitting;
    hide Concat;
    SameTexts(s, r, s.buffers);
    SameTexts(s, r, s.batch);
  }

  lemma AllThereStays(s: State, r: State)
    requires AllThere(s) && r.text == s.text && r.swaps == s.swaps && r.buffers == s.buffers && r.current == s.current
    requires r.size == s.size && r.appended == s.appended
    ensures AllThere(r)
  {
    hide Fitting;
    hide Concat;
    SameTexts(s, r, s.buffers);
  }

  /** A step that moves no buffer and writes nothing. */
  predicate Quiet(s: State, a: Action) {
    match a
    case Append(_) => false
    case Stop => true
    case Advance => s.failed || s.phase.Testing? || (s.phase.Looking? && s.buffers == []) || s.phase.Finished?
  }

  lemma QuietStep(s: State, a: Action)
    requires Quiet(s, a) && Roles(s) && Lines(s)
    ensures Lines(Step(s, a))
  {
    hide Lines;
    hide NoSharing;
    hide Allocated;
    QuietKeepsLines(s, Step(s, a));
  }

  lemma WriterKeepsLines(s: State)
    requires Roles(s) && FileRight(s) && AllThere(s) && !Quiet(s, Advance)
    ensures FileRight(WriterStep(s)) && AllThere(WriterStep(s))
  {
    hide NoSharing;
    hide Allocated;
    hide SparesEmpty;
    hide FileRight;
    hide AllThere;
    hide Swap;
    hide Recycle;
    if s.phase.Waiting? || s.phase.Looking? { SwapKeepsLines(s); }
    else if s.phase.Dropping? { DropKeepsLines(s); AllThereStays(s, WriterStep(s)); }
    else if s.phase.done == |s.batch| { RecycleKeepsLines(s); }
    else { WriteKeepsFile(s, s.phase.done); AllThereStays(s, WriterStep(s)); }
  }

  lemma StepKeepsLines(s: State, a: Action)
    requires Roles(s) && Lines(s)
    ensures Lines(Step(s, a))
  {
    hide Roles;
    hide FileRight;
    hide AllThere;
    hide AppendLine;
    hide WriterStep;
    if Quiet(s, a) { QuietStep(s, a); }
    else if a.Append? { AppendKeepsLines(s, a.line); }
    else { WriterKeepsLines(s); }
  }

  lemma {:induction false} ExecKeepsLines(s: State, run: seq<Action>)
    requires Roles(s) && Lines(s)
    ensures Lines(Exec(s, run)) && Roles(Exec(s, run))
    decreases |run|
  {
    hide Roles;
    hide Lines;
    if run != [] {
      StepKeepsRoles(s, run[0]);
      StepKeepsLines(s, run[0]);
      ExecKeepsLines(Step(s, run[0]), run[1..]);
    }
  }

  lemma InitHasLines(size: nat)
    ensures Lines(Init(size))
  {
    var s := Init(size);
    assert Concat(s.swaps) == [];
  }

  /** Every run from the start: the invariants. */
  lemma RunsKeepAll(size: nat, run: seq<Action>)
    ensures Roles(Exec(Init(size), run)) && Lines(Exec(Init(size), run))
  {
    hide Roles;
    hide Lines;
    InitHasRoles(size);
    InitHasLines(size);
    ExecKeepsLines(Init(size), run);
  }

  predicate NoLongSwap(swaps: seq<seq<seq<Line>>>) {
    forall i | 0 <= i < |swaps| :: |swaps[i]| <= LIMIT
  }

  lemma {:induction false} NothingDropped(swaps: seq<seq<seq<Line>>>)
    requires NoLongSwap(swaps)
    ensures KeptLines(swaps) == Concat(Concat(swaps))
  {
    if swaps != [] {
      NothingDropped(Front(swaps));
      assert swaps == Front(swaps) + [Last(swaps)];
      ConcatSnoc(Front(swaps), Last(swaps));
      ConcatAppend(Concat(Front(swaps)), Last(swaps));
    }
  }

  /** What of the batch is still to be written. */
  function ToWrite(s: State): seq<Line> {
    match s.phase
    case Dropping => LinesIn(s, s.batch)
    case Writing(k) => if k <= |s.batch| then LinesIn(s, s.batch[k..]) else []
    case _ => []
  }

  /**
   Conservation, in every run: while no swap exceeds 25 buffers, the file, the batch being
   written, the full buffers and the current buffer hold, in this order, exactly the
   appended lines that are shorter than a buffer, in lock order.
   */
  lemma LinesAreConserved(size: nat, run: seq<Action>)
    ensures var s := Exec(Init(size), run);
            NoLongSwap(s.swaps) ==>
              s.file + ToWrite(s) + LinesIn(s, s.buffers) + Text(s, s.current) == Fitting(size, s.appended)
  {
    RunsKeepAll(size, run);
    hide Roles;
    var s := Exec(Init(size), run);
    if NoLongSwap(s.swaps) {
      SizeStays(Init(size), run);
      FileAndBatch(s);
    }
  }

  lemma {:induction false} FittingAreShort(size: nat, lines: seq<Line>)
    ensures forall line | line in Fitting(size, lines) :: |line| < size
  {
    if lines != [] { FittingAreShort(size, Front(lines)); }
  }

  /** A line that would fill a whole buffer is dropped: it is in no buffer and never in the file. */
  lemma LongLineIsDropped(size: nat, run: seq<Action>, line: Line)
    requires |line| >= size && NoLongSwap(Exec(Init(size), run).swaps)
    ensures var s := Exec(Init(size), run);
            line !in s.file && line !in ToWrite(s) && line !in LinesIn(s, s.buffers) && line !in Text(s, s.current)
  {
    LinesAreConserved(size, run);
    var s := Exec(Init(size), run);
    hide *;
    FittingAreShort(size, s.appended);
    assert line !in s.file + ToWrite(s) + LinesIn(s, s.buffers) + Text(s, s.current);
  }

  lemma AppendKeepsSize(s: State, line: Line)
    ensures AppendLine(s, line).size == s.size
  {
    hide Avail;
  }

  lemma StepKeepsSize(s: State, a: Action)
    ensures Step(s, a).size == s.size
  {
    hide AppendLine;
    hide Recycle;
    if a.Append? { AppendKeepsSize(s, a.line); }
    RecycleFrame(s);
  }

  lemma {:induction false} SizeStays(s: State, run: seq<Action>)
    ensures Exec(s, run).size == s.size
    decreases |run|
  {
    hide Step;
    if run != [] {
      StepKeepsSize(s, run[0]);
      SizeStays(Step(s, run[0]), run[1..]);
    }
  }

  lemma LastKept(swaps: seq<seq<seq<Line>>>)
    requires swaps != [] && NoLongSwap(swaps)
    ensures KeptLines(swaps) == KeptLines(Front(swaps)) + Concat(Last(swaps)) && Kept(Last(swaps)) == Last(swaps)
  {
  }

  /** Written and unwritten buffers of the batch make up the batch. */
  lemma RestOfBatch(s: State, k: nat, front: seq<Line>)
    requires k <= |s.batch|
    ensures front + Concat(Texts(s, s.batch)[..k]) + LinesIn(s, s.batch[k..]) == front + Concat(Texts(s, s.batch))
  {
    hide Concat;
    var all := Texts(s, s.batch);
    assert Texts(s, s.batch[k..]) == all[k..];
    assert all == all[..k] + all[k..];
    ConcatAppend(all[..k], all[k..]);
  }

  lemma FileAndBatch(s: State)
    requires FileRight(s) && NoLongSwap(s.swaps)
    ensures s.file + ToWrite(s) == Concat(Concat(s.swaps))
  {
    hide Concat;
    hide KeptLines;
    hide Texts;
    hide Kept;
    hide NoLongSwap;
    NothingDropped(s.swaps);
    if s.phase.Dropping? {
      LastKept(s.swaps);
    } else if s.phase.Writing? {
      LastKept(s.swaps);
      RestOfBatch(s, s.phase.done, KeptLines(Front(s.swaps)));
    }
  }

  /** Between swaps the file holds exactly what the swaps kept: all but buffers 2 onward of the long ones. */
  lemma OnlyLongSwapsLose(size: nat, run: seq<Action>)
    ensures var s := Exec(Init(size), run);
            && (!s.phase.Dropping? && !s.phase.Writing? ==> s.file == KeptLines(s.swaps))
            && Concat(Concat(s.swaps)) + LinesIn(s, s.buffers) + Text(s, s.current) == Fitting(size, s.appended)
  {
    RunsKeepAll(size, run);
    SizeStays(Init(size), run);
    hide Roles;
  }

  /** When the writer has returned, what is missing from the file is what the buffers still hold. */
  lemma CompleteIffNothingLeft(size: nat, run: seq<Action>)
    requires Exec(Init(size), run).phase.Finished? && NoLongSwap(Exec(Init(size), run).swaps)
    ensures var s := Exec(Init(size), run);
            s.file == Fitting(size, s.appended) <==> LinesIn(s, s.buffers) + Text(s, s.current) == []
  {
    LinesAreConserved(size, run);
    var s := Exec(Init(size), run);
    assert ToWrite(s) == [];
    hide *;
    Cancel(s.file, LinesIn(s, s.buffers), Text(s, s.current), Fitting(size, s.appended));
  }

  lemma Cancel<T>(file: seq<T>, a: seq<T>, b: seq<T>, all: seq<T>)
    requires file + [] + a + b == all
    ensures file == all <==> a + b == []
  {
    assert all == file + (a + b);
    assert |all| == |file| + |a + b|;
  }

  // ------------------------------------------------------------------ stopping

  /** The lines that no swap has taken yet. */
  function Untaken(s: State): seq<Line> { LinesIn(s, s.buffers) + Text(s, s.current) }

  /** The writer has passed the test of running_ and will swap once more, or nothing waits. */
  predicate Drains(s: State) { s.phase.Looking? || s.phase.Waiting? || Untaken(s) == [] }

  /** No swap has been too long, and the one that is still certain will not be. */
  predicate Short(s: State) {
    NoLongSwap(s.swaps) && (s.phase.Looking? || s.phase.Waiting? ==> |s.buffers| < LIMIT)
  }

  predicate NoAppend(run: seq<Action>) { forall i | 0 <= i < |run| :: !run[i].Append? }

  lemma SwapDrains(s: State)
    requires Roles(s) && (s.phase.Looking? || s.phase.Waiting?)
    ensures Untaken(Swap(s)) == [] && (Short(s) ==> Short(Swap(s)))
  {
    hide Owned;
    hide NoSharing;
    hide Allocated;
    hide Concat;
    SpareIsEmpty(s);
    NoLines(Swap(s));
  }

  lemma RecycleKeepsUntaken(s: State)
    requires Roles(s) && s.phase == Writing(|s.batch|)
    ensures Untaken(Recycle(s)) == Untaken(s)
  {
    hide Owned;
    hide Recycle;
    hide Concat;
    BatchApart(s);
    hide NoSharing;
    RecycleFrame(s);
    var r := Recycle(s);
    forall id | id !in s.batch ensures Text(r, id) == Text(s, id) { RecycleErases(s, id); }
    SameTexts(s, r, s.buffers);
  }

  lemma UntakenStays(s: State, r: State)
    requires r.text == s.text && r.buffers == s.buffers && r.current == s.current
    ensures Untaken(r) == Untaken(s)
  {
    SameTexts(s, r, s.buffers);
  }

  /** After stop, or inside one round, whether the writer will drain the buffers does not change. */
  lemma StepKeepsDrains(s: State, a: Action)
    requires Roles(s) && (!s.running || !s.phase.Testing?) && !a.Append?
    ensures var r := Step(s, a);
            && (Drains(r) <==> Drains(s)) && (Short(s) ==> Short(r)) && r.appended == s.appended
            && r.running == (s.running && !a.Stop?)
  {
    hide NoSharing;
    hide Allocated;
    hide SparesEmpty;
    hide Untaken;
    hide Swap;
    hide Recycle;
    hide NoLongSwap;
    if a.Advance? && (s.phase.Waiting? || (s.phase.Looking? && s.buffers != [])) {
      SwapDrains(s);
      SwapFrame(s);
    } else if a.Advance? && s.phase.Writing? && s.phase.done == |s.batch| {
      RecycleKeepsUntaken(s);
      RecycleFrame(s);
      RecycleStops(s);
    } else {
      UntakenStays(s, Step(s, a));
    }
  }

  lemma SwapFrame(s: State)
    requires s.new1.Some?
    ensures Swap(s).running == s.running && Swap(s).appended == s.appended && Swap(s).phase.Dropping?
  {
  }

  lemma RecycleStops(s: State)
    ensures Recycle(s).running == s.running
  {
  }

  lemma {:induction false} ExecKeepsDrains(s: State, run: seq<Action>)
    requires Roles(s) && !s.running && NoAppend(run)
    ensures var r := Exec(s, run);
            (Drains(r) <==> Drains(s)) && (Short(s) ==> Short(r)) && r.appended == s.appended
    decreases |run|
  {
    hide Roles;
    hide Step;
    hide Drains;
    hide Short;
    if run != [] {
      assert !run[0].Append?;
      StepKeepsDrains(s, run[0]);
      StepKeepsRoles(s, run[0]);
      ExecKeepsDrains(Step(s, run[0]), run[1..]);
    }
  }

  lemma {:induction false} ExecConcat(s: State, a: seq<Action>, b: seq<Action>)
    ensures Exec(s, a + b) == Exec(Exec(s, a), b)
    decreases |a|
  {
    hide Step;
    if a == [] {
      assert a + b == b;
    } else {
      assert (a + b)[1..] == a[1..] + b;
      ExecConcat(Step(s, a[0]), a[1..], b);
    }
  }

  /**
   What stop loses, seen at the moment of the call.  If nothing is appended afterwards and
   no swap is too long, the file that the writer leaves is complete if and only if at that
   moment the writer had already tested running_ and was about to swap, or no line waited.
   */
  lemma CompleteIffDrainedAtStop(size: nat, before: seq<Action>, after: seq<Action>)
    requires NoAppend(after) && Short(Exec(Init(size), before))
    requires Exec(Init(size), before + ([Stop] + after)).phase.Finished?
    ensures var s, end := Exec(Init(size), before), Exec(Init(size), before + ([Stop] + after));
            end.file == Fitting(size, end.appended) <==> Drains(s)
  {
    var s, run := Exec(Init(size), before), before + ([Stop] + after);
    RunsKeepAll(size, before);
    ExecConcat(Init(size), before, [Stop] + after);
    hide Roles;
    hide Lines;
    assert ([Stop] + after)[1..] == after;
    var stopped := Step(s, Stop);
    StepKeepsRoles(s, Stop);
    UntakenStays(s, stopped);
    ExecKeepsDrains(stopped, after);
    CompleteIffNothingLeft(size, run);
  }

  /** A line appended before stop can be lost. */
  lemma StopLosesTheTail(size: nat, line: Line)
    requires |line| < size
    ensures var s := Exec(Init(size), [Append(line), Stop, Advance]);
            s.phase.Finished? && s.appended == [line] && s.file == []
  {
    var run := [Append(line), Stop, Advance];
    var s1 := Step(Init(size), run[0]);
    var s2 := Step(s1, run[1]);
    assert s2.phase.Testing? && !s2.running && !s2.failed;
    assert Exec(Init(size), run) == Step(s2, run[2]) by {
      assert run[1..][1..][1..] == [];
      assert Exec(s2, run[1..][1..]) == Step(s2, run[2]);
    }
  }

  // ------------------------------------------------------ the methods as written

  class Log {
    const size: nat
    var text: map<Id, seq<Line>>
    var unused: Id
    var current: Id
    var next: Option<Id>
    var buffers: seq<Id>
    var new1: Option<Id>
    var new2: Option<Id>
    var batch: seq<Id>
    var running: bool
    var file: seq<Line>
    ghost var phase: Phase
    ghost var appended: seq<Line>
    ghost var swaps: seq<seq<seq<Line>>>

    constructor (size: nat)
      ensures View() == Init(size)
    {
      this.size, text, unused := size, map[0 := [], 1 := [], 2 := [], 3 := []], 4;
      current, next, buffers, new1, new2, batch := 0, Some(1), [], Some(2), Some(3), [];
      running, file := true, [];
      phase, appended, swaps := Testing, [], [];
    }

    ghost function View(): State
      reads this
    {
      State(size, text, unused, current, next, buffers, new1, new2, batch, phase, running, false, file, appended, swaps)
    }

    function Lines(id: Id): seq<Line>
      reads this
    {
      if id in text then text[id] else []
    }

    method PutLine(line: Line)
      modifies this`text
      ensures View() == Put(old(View()), current, line)
    {
      if size - |Concat(Lines(current))| > |line| { text := text[current := Lines(current) + [line]]; }
    }

    /** append, under the lock. */
    method AddLine(line: Line)
      modifies this`text, this`unused, this`current, this`next, this`buffers, this`appended
      ensures View() == AppendLine(old(View()), line)
    {
      hide Concat;
      hide Rotate;
      hide Put;
      appended := appended + [line];
      if size - |Concat(Lines(current))| > |line| {
        PutLine(line);
      } else {
        NextBuffer();
        PutLine(line);
      }
    }

    method NextBuffer()
      modifies this`text, this`unused, this`current, this`next, this`buffers
      ensures View() == Rotate(old(View()))
    {
      buffers := buffers + [current];
      if next.Some? {
        current, next := next.value, None;
      } else {
        current, unused := unused, unused + 1;
        text := text[current := []];
      }
    }

    /** The swap, under the lock. */
    method SwapOut()
      requires Roles(View()) && (phase.Looking? || phase.Waiting?)
      modifies this
      ensures View() == Swap(old(View())) && batch != []
    {
      hide Roles;
      hide Swap;
      hide Taken;
      hide GiveNext;
      ghost var s := View();
      SpareIsEmpty(s);
      SwapIs(s);
      TakeBatch();
      if next.None? { MoveSpare(); } else { NothingToGive(View()); }
    }

    method TakeBatch()
      requires new1.Some?
      modifies this`buffers, this`swaps, this`phase, this`current, this`new1, this`batch
      ensures View() == Taken(old(View())) && batch != [] && next == old(next)
    {
      hide Texts;
      ghost var s := View();
      buffers := buffers + [current];
      swaps, phase := swaps + [Texts(s, buffers)], Dropping;
      current, new1 := new1.value, None;
      batch, buffers := buffers, [];
    }

    method MoveSpare()
      requires next.None?
      modifies this`next, this`new2
      ensures View() == GiveNext(old(View()))
    {
      next, new2 := new2, None;
    }

    method WriteAll()
      requires phase == Writing(0)
      modifies this`file, this`phase
      ensures View() == Exec(old(View()), Advances(|batch|)) && phase == Writing(|batch|)
      ensures file == old(file) + LinesIn(old(View()), batch)
    {
      hide Exec;
      hide Step;
      hide Concat;
      ghost var s := View();
      NoSteps(s);
      NothingWritten(s);
      for i := 0 to |batch|
        invariant phase == Writing(i) && View() == Exec(s, Advances(i))
        invariant file == old(file) + Concat(Texts(s, batch)[..i])
      {
        AdvanceOnce(s, i);
        WritingStep(View(), i);
        OneMoreBuffer(s, i, old(file));
        file := file + Lines(batch[i]);
        phase := Writing(i + 1);
      }
    }

    method TakeFirst()
      requires new1.None? && batch != []
      modifies this`new1, this`batch, this`text
      ensures View() == Refill1(old(View()))
    {
      new1, batch := Some(batch[|batch| - 1]), batch[..|batch| - 1];
      text := text[new1.value := []];
    }

    method TakeSecond()
      requires new2.None? && batch != []
      modifies this`new2, this`batch, this`text
      ensures View() == Refill2(old(View()))
    {
      new2, batch := Some(batch[|batch| - 1]), batch[..|batch| - 1];
      text := text[new2.value := []];
    }

    /** Two buffers of the batch are kept for reuse; both asserts hold. */
    method RecycleBatch()
      requires Roles(View()) && phase == Writing(|batch|)
      modifies this
      ensures View() == Recycle(old(View()))
    {
      hide Refill1;
      hide Refill2;
      ghost var s := View();
      EnoughToRecycle(s);
      hide Roles;
      if |batch| > 2 { batch := batch[..2]; }
      ghost var s0 := View();
      if new1.None? { TakeFirst(); }
      Refill1Is(s0);
      if new2.None? { TakeSecond(); }
      Refill2Is(Refill1(s0));
      batch, phase := [], Testing;
    }

    /** The writer's work on one batch, from the swap to the next test of running_. */
    method WriteBatch()
      requires Roles(View()) && phase.Dropping?
      modifies this
      ensures exists n: nat :: View() == Exec(old(View()), Advances(n))
      ensures phase.Testing? && Roles(View())
      ensures file == old(file) + LinesIn(old(View()), Kept(old(batch)))
    {
      hide Roles;
      hide Exec;
      hide Recycle;
      hide Concat;
      ghost var s := View();
      DroppingIs(s);
      StepKeepsRoles(s, Advance);
      if |batch| > LIMIT { batch := batch[..2]; }
      phase := Writing(0);
      ghost var s1 := View();
      assert s1 == Step(s, Advance);
      SameTexts(s, s1, batch);
      WriteAll();
      ghost var s2 := View();
      ghost var n := |batch|;
      ExecKeepsRoles(s1, Advances(n));
      RecycleBatch();
      RecycleIsStep(s2);
      StepKeepsRoles(s2, Advance);
      RecycleFrame(s2);
      BatchIsRun(s, s1, s2, n);
      assert View() == Exec(s, Advances(n + 2));
    }
  }

  /** The two parts of a swap. */
  function Taken(s: State): State
    requires s.new1.Some?
  {
    var taken := s.buffers + [s.current];
    s.(batch := taken, buffers := [], current := s.new1.value, new1 := None,
       swaps := s.swaps + [Texts(s, taken)], phase := Dropping)
  }

  function GiveNext(s: State): State {
    if s.next.None? then s.(next := s.new2, new2 := None) else s
  }

  lemma SwapIs(s: State)
    requires s.new1.Some?
    ensures Swap(s) == GiveNext(Taken(s)) && Taken(s).next == s.next
  {
    hide Texts;
  }

  lemma NothingToGive(s: State)
    requires s.next.Some?
    ensures GiveNext(s) == s
  {
  }

  lemma NothingWritten(s: State)
    ensures Concat(Texts(s, s.batch)[..0]) == [] && Texts(s, s.batch)[..|s.batch|] == Texts(s, s.batch)
  {
  }

  /** The batch is long enough for the spare buffers that are missing. */
  lemma EnoughToRecycle(s: State)
    requires Roles(s) && s.phase.Writing?
    ensures s.batch != [] && s.new1.None? && !s.failed && (s.new2.None? ==> |s.batch| >= 2)
  {
  }

  lemma Refill1Is(s: State)
    ensures s.new1.Some? ==> Refill1(s) == s
    ensures s.new1.None? && s.batch != [] ==> |Refill1(s).batch| == |s.batch| - 1
    ensures Refill1(s).new2 == s.new2
  {
  }

  lemma Refill2Is(s: State)
    ensures s.new2.Some? ==> Refill2(s) == s
  {
  }

  lemma WritingStep(s: State, k: nat)
    requires s.phase == Writing(k) && k < |s.batch| && !s.failed
    ensures Step(s, Advance) == s.(file := s.file + Text(s, s.batch[k]), phase := Writing(k + 1))
  {
  }

  lemma NoSteps(s: State)
    ensures Exec(s, Advances(0)) == s
  {
  }

  lemma DroppingIs(s: State)
    requires Roles(s) && s.phase.Dropping?
    ensures s.batch != [] && !s.failed
  {
  }

  lemma RecycleIsStep(s: State)
    requires s.phase == Writing(|s.batch|) && !s.failed
    ensures Step(s, Advance) == Recycle(s)
  {
  }

  function Advances(n: nat): seq<Action> { seq(n, _ => Advance) }

  /** One more step of the writer. */
  lemma {:induction false} AdvanceOnce(s: State, n: nat)
    ensures Exec(s, Advances(n + 1)) == Step(Exec(s, Advances(n)), Advance)
    decreases n
  {
    hide Step;
    AdvanceFirst(s, n);
    if n == 0 {
      assert Exec(Step(s, Advance), Advances(0)) == Step(s, Advance);
    } else {
      AdvanceOnce(Step(s, Advance), n - 1);
      AdvanceFirst(s, n - 1);
    }
  }

  /** Dropping, writing and recycling are n + 2 steps. */
  lemma BatchIsRun(s: State, s1: State, s2: State, n: nat)
    requires s1 == Step(s, Advance) && s2 == Exec(s1, Advances(n)) && s2.phase == Writing(|s2.batch|) && !s2.failed
    ensures Exec(s, Advances(n + 2)) == Recycle(s2)
  {
    hide Exec;
    RecycleIsStep(s2);
    hide Step;
    hide Recycle;
    AdvanceFirst(s, n);
    AdvanceOnce(s, n + 1);
  }

  lemma AdvanceFirst(s: State, n: nat)
    ensures Exec(s, Advances(n + 1)) == Exec(Step(s, Advance), Advances(n))
  {
    hide Step;
    assert Advances(n + 1)[1..] == Advances(n);
  }
}
