/**
 The first server's header parser: a state machine that reads the buffer byte by byte and
 cuts it when it stops.  The machine's state outlives a call; the positions of the key and
 the value do not.
 */
module HeaderMachine {
  import opened Text
  import opened HttpHead

  datatype ParseState = Start | Key | Colon | SpacesAfterColon | Value | Cr | Lf | EndCr | EndLf

  /** Undefined stands for reading at a position that was lost between two calls. */
  datatype Result = Success | Again | Error | Undefined

  /** Positions are -1 until they are set in this call. */
  datatype Machine = Machine(h: ParseState, keyStart: int, keyEnd: int, valueStart: int, valueEnd: int, lineBegin: nat,
                             headers: map<string, string>)

  const MAX_VALUE := 256

  /** What one byte does. */
  datatype Moved = Go(m: Machine) | Fail(r: Result)

  predicate IsBreak(c: char) { c == '\n' || c == '\r' }

  /** The header of the line just ended is stored; both ranges must lie in the buffer. */
  function Store(str: string, i: nat, m: Machine): Moved {
    if 0 <= m.keyStart <= m.keyEnd <= |str| && 0 <= m.valueStart <= m.valueEnd <= |str| then
      Go(m.(h := Lf, lineBegin := i, headers := m.headers[str[m.keyStart..m.keyEnd] := str[m.valueStart..m.valueEnd]]))
    else Fail(Undefined)
  }

  function Move(str: string, i: nat, m: Machine): Moved
    requires i < |str|
  {
    var c := str[i];
    match m.h
    case Start => if IsBreak(c) then Go(m) else Go(m.(h := Key, keyStart := i, lineBegin := i))
    case Key =>
      if c == ':' then (if i - m.keyStart <= 0 then Fail(Error) else Go(m.(h := Colon, keyEnd := i)))
      else if IsBreak(c) then Fail(Error)
      else Go(m)
    case Colon => if c == ' ' then Go(m.(h := SpacesAfterColon)) else Fail(Error)
    case SpacesAfterColon => Go(m.(h := Value, valueStart := i))
    case Value =>
      if c == '\r' then (if i - m.valueStart <= 0 then Fail(Error) else Go(m.(h := Cr, valueEnd := i)))
      else if i - m.valueStart > 255 then Fail(Error)
      else Go(m)
    case Cr => if c == '\n' then Store(str, i, m) else Fail(Error)
    case Lf => if c == '\r' then Go(m.(h := EndCr)) else Go(m.(h := Key, keyStart := i))
    case EndCr => if c == '\n' then Go(m.(h := EndLf)) else Fail(Error)
    case EndLf => Go(m.(keyStart := i, lineBegin := i))
  }

  /** How a call ends: with a failure, or at position next with the machine as it then is. */
  datatype Scanned = Failed(r: Result, last: Machine) | Stopped(m: Machine, next: nat)

  /** The loop: a byte behind the blank line is read too, and ends it. */
  function Scan(str: string, i: nat, m: Machine): (r: Scanned)
    requires i <= |str|
    ensures r.Stopped? ==> r.next <= |str|
    ensures r.Failed? ==> r.r == Error || r.r == Undefined
    decreases |str| - i
  {
    if i == |str| then Stopped(m, i)
    else
      match Move(str, i, m)
      case Fail(r) => Failed(r, m)
      case Go(m') => if m.h.EndLf? then Stopped(m', i + 1) else Scan(str, i + 1, m')
  }

  function Entry(h: ParseState, headers: map<string, string>): Machine {
    Machine(h, -1, -1, -1, -1, 0, headers)
  }

  /** What a call returns, and the buffer it leaves. */
  function Outcome(str: string, h: ParseState, headers: map<string, string>): (Result, string) {
    match Scan(str, 0, Entry(h, headers))
    case Failed(r, _) => (r, str)
    case Stopped(m, next) =>
      if m.h.EndLf? then (Success, str[next..])
      else (Again, if m.lineBegin <= |str| then str[m.lineBegin..] else "")
  }

  // ------------------------------------------------------- the parser as written

  class Parser {
    var inBuffer: string
    var hState: ParseState
    var headers: map<string, string>

    constructor (text: string)
      ensures inBuffer == text && hState == Start && headers == map[]
    {
      inBuffer, hState, headers := text, Start, map[];
    }

    /** parseHeaders. */
    method ParseHeaders() returns (r: Result)
      modifies this
      ensures (r, inBuffer) == Outcome(old(inBuffer), old(hState), old(headers))
      ensures var scanned := Scan(old(inBuffer), 0, Entry(old(hState), old(headers)));
              var m := if scanned.Failed? then scanned.last else scanned.m;
              hState == m.h && headers == m.headers
    {
      hide Move;
      var str := inBuffer;
      var m := Entry(hState, headers);
      var notFinish := true;
      var i := 0;
      while i < |str| && notFinish
        invariant i <= |str| && m.lineBegin <= |str|
        invariant hState == m.h && headers == m.headers && inBuffer == str
        invariant notFinish ==> Scan(str, 0, Entry(old(hState), old(headers))) == Scan(str, i, m)
        invariant !notFinish ==> Scan(str, 0, Entry(old(hState), old(headers))) == Stopped(m, i)
      {
        var moved := Move(str, i, m);
        if moved.Fail? { return moved.r; }
        LineBeginInside(str, i, m);
        notFinish := !m.h.EndLf?;
        m := moved.m;
        hState, headers := m.h, m.headers;
        i := i + 1;
      }
      if hState.EndLf? {
        inBuffer := str[i..];
        return Success;
      }
      inBuffer := str[m.lineBegin..];
      return Again;
    }
  }

  lemma LineBeginInside(str: string, i: nat, m: Machine)
    requires i < |str| && m.lineBegin <= |str|
    ensures Move(str, i, m).Go? ==> Move(str, i, m).m.lineBegin <= |str|
  {
  }

  // ------------------------------------------------------------ reading one line

  predicate KeyChar(c: char) { c != ':' && !IsBreak(c) }

  lemma {:induction false} SkipKey(str: string, i: nat, j: nat, m: Machine)
    requires i <= j <= |str| && m.h == Key && forall k | i <= k < j :: KeyChar(str[k])
    ensures Scan(str, i, m) == Scan(str, j, m)
    decreases j - i
  {
    if i < j {
      assert KeyChar(str[i]);
      SkipKey(str, i + 1, j, m);
    }
  }

  lemma {:induction false} SkipValue(str: string, i: nat, j: nat, m: Machine)
    requires i <= j <= |str| && m.h == Value && j - m.valueStart <= MAX_VALUE
    requires forall k | i <= k < j :: str[k] != '\r'
    ensures Scan(str, i, m) == Scan(str, j, m)
    decreases j - i
  {
    if i < j { SkipValue(str, i + 1, j, m); }
  }

  /** A field that the machine reads back: the first byte of a value may be anything. */
  predicate Readable(f: Field) {
    && f.name != "" && (forall i | 0 <= i < |f.name| :: KeyChar(f.name[i]))
    && 1 <= |f.value| <= MAX_VALUE && forall i | 1 <= i < |f.value| :: f.value[i] != '\r'
  }

  /** Behind a line the first byte of a name is not looked at, unless it is a carriage return. */
  predicate Loose(f: Field) {
    && f.name != "" && f.name[0] != '\r' && (forall i | 1 <= i < |f.name| :: KeyChar(f.name[i]))
    && 1 <= |f.value| <= MAX_VALUE && forall i | 1 <= i < |f.value| :: f.value[i] != '\r'
  }

  /** The machine takes the first byte of the name for the start of a key. */
  predicate Starts(h: ParseState, f: Field)
    requires Loose(f)
  {
    h == Lf || (h == Start && !IsBreak(f.name[0]))
  }

  /** The printed field stands at position k. */
  predicate StandsAt(str: string, k: nat, f: Field) {
    && k + |f.name| + 2 + |f.value| + 2 <= |str|
    && str[k..k + |f.name|] == f.name
    && str[k + |f.name|] == ':' && str[k + |f.name| + 1] == ' '
    && var v := k + |f.name| + 2;
       str[v..v + |f.value|] == f.value && str[v + |f.value|] == '\r' && str[v + |f.value| + 1] == '\n'
  }

  lemma OneStep(str: string, i: nat, m: Machine)
    requires i < |str| && !m.h.EndLf? && Move(str, i, m).Go?
    ensures Scan(str, i, m) == Scan(str, i + 1, Move(str, i, m).m)
  {
  }

  lemma ReadKey(str: string, k: nat, m: Machine, f: Field)
    requires StandsAt(str, k, f) && Loose(f) && m.h == Key && m.keyStart == k
    ensures var e := k + |f.name|;
            Scan(str, k + 1, m) == Scan(str, e + 3, m.(h := Value, keyEnd := e, valueStart := e + 2))
  {
    hide Scan;
    var e := k + |f.name|;
    forall j | k + 1 <= j < e ensures KeyChar(str[j]) { assert str[k..e][j - k] == f.name[j - k]; }
    SkipKey(str, k + 1, e, m);
    var m1 := m.(h := Colon, keyEnd := e);
    OneStep(str, e, m);
    OneStep(str, e + 1, m1);
    OneStep(str, e + 2, m1.(h := SpacesAfterColon));
  }

  lemma ReadValue(str: string, k: nat, m: Machine, f: Field)
    requires StandsAt(str, k, f) && Loose(f)
    requires m.h == Value && m.keyStart == k && m.keyEnd == k + |f.name| && m.valueStart == m.keyEnd + 2
    ensures var w := m.valueStart + |f.value|;
            Scan(str, m.valueStart + 1, m) ==
            Scan(str, w + 2, m.(h := Lf, valueEnd := w, lineBegin := w + 1, headers := m.headers[f.name := f.value]))
  {
    hide Scan;
    var v: nat := m.valueStart;
    var w := v + |f.value|;
    forall j | v + 1 <= j < w ensures str[j] != '\r' { assert str[v..w][j - v] == f.value[j - v]; }
    SkipValue(str, v + 1, w, m);
    var m1 := m.(h := Cr, valueEnd := w);
    OneStep(str, w, m);
    OneStep(str, w + 1, m1);
  }

  /** From the first byte of a line to the end of the line: one header is stored. */
  lemma ReadLine(str: string, k: nat, m: Machine, f: Field)
    requires StandsAt(str, k, f) && Loose(f) && Starts(m.h, f)
    ensures var e := k + |f.name|; var w := e + 2 + |f.value|;
            Scan(str, k, m) == Scan(str, w + 2, Machine(Lf, k, e, e + 2, w, w + 1, m.headers[f.name := f.value]))
  {
    hide Scan;
    assert str[k..k + |f.name|][0] == f.name[0];
    OneStep(str, k, m);
    var m1 := Move(str, k, m).m;
    ReadKey(str, k, m1, f);
    var e := k + |f.name|;
    ReadValue(str, k, m1.(h := Value, keyEnd := e, valueStart := e + 2), f);
  }

  // ------------------------------------------------------------ reading all lines

  /** Later duplicates win. */
  function LastWins(headers: map<string, string>, fields: seq<Field>): map<string, string>
    decreases |fields|
  {
    if fields == [] then headers else LastWins(headers[fields[0].name := fields[0].value], fields[1..])
  }

  predicate AllReadable(fields: seq<Field>) { forall i | 0 <= i < |fields| :: Readable(fields[i]) }

  predicate AllLoose(fields: seq<Field>) { forall i | 0 <= i < |fields| :: Loose(fields[i]) }

  lemma ReadableIsLoose(fields: seq<Field>)
    requires AllReadable(fields)
    ensures AllLoose(fields) && forall i | 0 <= i < |fields| :: Starts(Start, fields[i])
  {
    forall i | 0 <= i < |fields| ensures Loose(fields[i]) && Starts(Start, fields[i]) {
      assert Readable(fields[i]) && KeyChar(fields[i].name[0]);
    }
  }

  lemma PrintedStands(before: string, f: Field, rest: string)
    ensures StandsAt(before + (FieldLine(f) + CRLF + rest), |before|, f)
  {
    var str, k := before + (FieldLine(f) + CRLF + rest), |before|;
    assert str == before + f.name + (": " + f.value + CRLF + rest);
    assert str[k..k + |f.name|] == f.name;
    var v := k + |f.name| + 2;
    var front := before + f.name + ": ";
    assert str == front + f.value + (CRLF + rest) && |front| == v;
    assert str[v..v + |f.value|] == f.value;
  }

  /** From behind the last line to the end of the head: one byte too many is read if there is one. */
  lemma ReadEnd(before: string, rest: string, m: Machine)
    requires m.h == Lf
    ensures var str := before + (CRLF + rest); var r := Scan(str, |before|, m);
            && r.Stopped? && r.m.h == EndLf && r.m.headers == m.headers
            && r.next == |before| + 2 + (if rest == "" then 0 else 1)
  {
    var str, i := before + (CRLF + rest), |before|;
    assert str[i] == '\r' && str[i + 1] == '\n';
    OneStep(str, i, m);
    OneStep(str, i + 1, m.(h := EndCr));
  }

  lemma LinesSplit(before: string, fields: seq<Field>, rest: string)
    requires fields != []
    ensures var more := Flat(FieldLines(fields[1..])) + CRLF + rest; var line := FieldLine(fields[0]) + CRLF;
            && before + (Flat(FieldLines(fields)) + CRLF + rest) == before + (line + more)
            && before + (line + more) == (before + line) + more
            && |line| == |fields[0].name| + 2 + |fields[0].value| + 2
  {
    assert FieldLines(fields)[1..] == FieldLines(fields[1..]);
  }

  lemma {:induction false} ReadLines(before: string, fields: seq<Field>, rest: string, m: Machine)
    requires AllLoose(fields) && (if fields == [] then m.h == Lf else Starts(m.h, fields[0]))
    ensures var str := before + (Flat(FieldLines(fields)) + CRLF + rest); var r := Scan(str, |before|, m);
            && r.Stopped? && r.m.h == EndLf && r.m.headers == LastWins(m.headers, fields)
            && r.next == |str| - |rest| + (if rest == "" then 0 else 1)
    decreases |fields|
  {
    hide Scan;
    hide Loose;
    hide Flat;
    hide FieldLines;
    hide FieldLine;
    var str := before + (Flat(FieldLines(fields)) + CRLF + rest);
    NoFields();
    if fields == [] {
      assert str == before + (CRLF + rest);
      ReadEnd(before, rest, m);
    } else {
      var f, line := fields[0], FieldLine(fields[0]) + CRLF;
      var more := Flat(FieldLines(fields[1..])) + CRLF + rest;
      LinesSplit(before, fields, rest);
      PrintedStands(before, f, more);
      hide StandsAt;
      ReadLine(str, |before|, m, f);
      var e := |before| + |f.name|;
      var w := e + 2 + |f.value|;
      ReadLines(before + line, fields[1..], rest,
                Machine(Lf, |before|, e, e + 2, w, w + 1, m.headers[f.name := f.value]));
    }
  }

  /**
   In one shot the machine inverts the printing of headers, later duplicates winning; of
   what follows the blank line, the first byte is lost.
   */
  lemma ParseInvertsPrint(fields: seq<Field>, rest: string)
    requires fields != [] && AllReadable(fields)
    ensures var str := "\n" + (Flat(FieldLines(fields)) + CRLF + rest);
            && Outcome(str, Start, map[]) == (Success, if rest == "" then "" else rest[1..])
            && Scan(str, 0, Entry(Start, map[])).Stopped?
            && Scan(str, 0, Entry(Start, map[])).m.headers == LastWins(map[], fields)
  {
    hide Scan;
    var before := "\n";
    var str := before + (Flat(FieldLines(fields)) + CRLF + rest);
    ReadableIsLoose(fields);
    OneStep(str, 0, Entry(Start, map[]));
    ReadLines(before, fields, rest, Entry(Start, map[]));
    var n := |str| - |rest|;
    assert str[n..] == rest;
    if rest != "" { assert str[n + 1..] == rest[1..]; }
  }

  /** So what follows the head survives if and only if nothing follows. */
  lemma RestSurvivesIffEmpty(fields: seq<Field>, rest: string)
    requires fields != [] && AllReadable(fields)
    ensures Outcome("\n" + (Flat(FieldLines(fields)) + CRLF + rest), Start, map[]).1 == rest <==> rest == ""
  {
    ParseInvertsPrint(fields, rest);
  }

  // --------------------------------------------------------------- a second call

  /** Inside a line: the machine has seen its first byte but not its end. */
  predicate InsideLine(h: ParseState) {
    h == Key || h == Colon || h == SpacesAfterColon || h == Value || h == Cr
  }

  /** The start of the key has been lost: the scan can only fail or run out of bytes. */
  lemma {:induction false} LostKeyNeverSucceeds(str: string, i: nat, m: Machine)
    requires i <= |str| && InsideLine(m.h) && m.keyStart < 0
    ensures var r := Scan(str, i, m);
            if r.Failed? then r.last.headers == m.headers else InsideLine(r.m.h) && r.m.headers == m.headers
    decreases |str| - i
  {
    if i < |str| && Move(str, i, m).Go? {
      LostKeyNeverSucceeds(str, i + 1, Move(str, i, m).m);
    }
  }

  /**
   The parser cannot resume inside a line: a call that starts there ends in an error, asks
   for more bytes or reads outside the buffer, and stores no header, whatever arrives.
   */
  lemma NotResumable(str: string, h: ParseState, headers: map<string, string>)
    requires InsideLine(h)
    ensures Outcome(str, h, headers).0 in {Error, Again, Undefined}
    ensures var r := Scan(str, 0, Entry(h, headers)); (if r.Failed? then r.last else r.m).headers == headers
  {
    LostKeyNeverSucceeds(str, 0, Entry(h, headers));
  }

  /** It does stop there: a head can arrive up to the end of a name. */
  lemma SplitHeadIsLost(f: Field)
    requires Readable(f)
    ensures Outcome("\n" + f.name, Start, map[]) == (Again, f.name)
    ensures Scan("\n" + f.name, 0, Entry(Start, map[])).m.h == Key
  {
    hide Readable;
    var str := "\n" + f.name;
    assert forall j | 1 <= j < |str| :: str[j] == f.name[j - 1];
    NameChars(f);
    OneStep(str, 0, Entry(Start, map[]));
    assert KeyChar(str[1]);
    OneStep(str, 1, Entry(Start, map[]));
    var m := Entry(Start, map[]).(h := Key, keyStart := 1, lineBegin := 1);
    forall j | 2 <= j < |str| ensures KeyChar(str[j]) { assert KeyChar(f.name[j - 1]); }
    assert Move(str, 1, Entry(Start, map[])) == Go(m);
    SkipKey(str, 2, |str|, m);
    assert Scan(str, |str|, m) == Stopped(m, |str|);
    hide Scan;
    assert Scan(str, 0, Entry(Start, map[])) == Stopped(m, |str|);
    assert str[1..] == f.name;
  }

  lemma NameChars(f: Field)
    requires Readable(f)
    ensures f.name != "" && forall i | 0 <= i < |f.name| :: KeyChar(f.name[i])
  {
  }

  /** A head of one field, cut behind the name, is not read in two calls, though it would be in one. */
  lemma TwoCallsDiffer(f: Field)
    requires Readable(f)
    ensures var after := ": " + f.value + CRLF + CRLF;
            && Outcome("\n" + f.name, Start, map[]) == (Again, f.name)
            && Outcome(f.name + after, Key, map[]).0 != Success
            && Outcome("\n" + f.name + after, Start, map[]) == (Success, "")
  {
    hide Readable;
    hide Outcome;
    var after := ": " + f.value + CRLF + CRLF;
    SplitHeadIsLost(f);
    NotResumable(f.name + after, Key, map[]);
    ParseInvertsPrint([f], "");
    FieldAppended([], f);
    NoFields();
    assert [] + [f] == [f];
    assert "\n" + f.name + after == "\n" + (Flat(FieldLines([f])) + CRLF + "");
  }
}
