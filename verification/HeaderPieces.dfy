/**
 The header state machine called twice: the printed head arrives in two pieces, cut
 anywhere, and the second call works on what the first left in the buffer followed by
 the second piece.
 */
module HeaderPieces {
  import opened Text
  import opened HttpHead
  import opened HeaderMachine

  /** What a call leaves: its result, the buffer, the machine's state and the headers. */
  datatype Left = Left(result: Result, buffer: string, h: ParseState, headers: map<string, string>)

  function Call(str: string, h: ParseState, headers: map<string, string>): Left {
    var scanned := Scan(str, 0, Entry(h, headers));
    var m := if scanned.Failed? then scanned.last else scanned.m;
    Left(Outcome(str, h, headers).0, Outcome(str, h, headers).1, m.h, m.headers)
  }

  /** The first piece is str[..k]; the parser is called again only if it asks for more. */
  function TwoCalls(str: string, k: nat): Left
    requires k <= |str|
  {
    var first := Call(str[..k], Start, map[]);
    if first.result == Again then Call(first.buffer + str[k..], first.h, first.headers)
    else first.(buffer := first.buffer + str[k..])
  }

  /** A printed head behind the line feed that ends the request line. */
  function HeadText(fields: seq<Field>): string { "\n" + (Flat(FieldLines(fields)) + CRLF) }

  // ------------------------------------------------------ where a cut line leaves the machine

  /** The first j bytes of the printed line stand at position k, and nothing follows. */
  predicate CutAt(p: string, k: nat, f: Field, j: nat) {
    j <= |FieldLine(f) + CRLF| && |p| == k + j && p[k..] == (FieldLine(f) + CRLF)[..j]
  }

  lemma CutChars(p: string, k: nat, f: Field, j: nat)
    requires CutAt(p, k, f, j)
    ensures var n, v := |f.name|, |f.name| + 2;
            && (forall i | 0 <= i < n && i < j :: p[k + i] == f.name[i])
            && (n < j ==> p[k + n] == ':') && (n + 1 < j ==> p[k + n + 1] == ' ')
            && (forall i | 0 <= i < |f.value| && v + i < j :: p[k + v + i] == f.value[i])
            && (v + |f.value| < j ==> p[k + v + |f.value|] == '\r')
  {
    var line := FieldLine(f) + CRLF;
    assert forall i | 0 <= i < j :: p[k + i] == p[k..][i] == line[i];
  }

  /** A line that stops short of its line feed leaves the machine inside the line. */
  lemma CutInsideLine(p: string, k: nat, m: Machine, f: Field, j: nat)
    requires CutAt(p, k, f, j) && 0 < j < |FieldLine(f) + CRLF|
    requires Loose(f) && Starts(m.h, f)
    ensures var r := Scan(p, k, m); r.Stopped? && r.next == |p| && InsideLine(r.m.h) && r.m.headers == m.headers
  {
    hide Scan;
    CutChars(p, k, f, j);
    hide CutAt;
    OneStep(p, k, m);
    var m1 := Move(p, k, m).m;
    var n := |f.name|;
    if j <= n {
      SkipKey(p, k + 1, |p|, m1);
      AtEnd(p, m1);
    } else {
      SkipKey(p, k + 1, k + n, m1);
      CutBehindName(p, k, m1, f, j);
    }
  }

  lemma AtEnd(p: string, m: Machine)
    ensures Scan(p, |p|, m) == Stopped(m, |p|)
  {
  }

  lemma CutBehindName(p: string, k: nat, m: Machine, f: Field, j: nat)
    requires |f.name| < j < |FieldLine(f) + CRLF| && |p| == k + j && Loose(f)
    requires var n, v := |f.name|, |f.name| + 2;
             && p[k + n] == ':' && (n + 1 < j ==> p[k + n + 1] == ' ')
             && (forall i | 0 <= i < |f.value| && v + i < j :: p[k + v + i] == f.value[i])
             && (v + |f.value| < j ==> p[k + v + |f.value|] == '\r')
    requires m.h == Key && m.keyStart == k
    ensures var r := Scan(p, k + |f.name|, m);
            r.Stopped? && r.next == |p| && InsideLine(r.m.h) && r.m.headers == m.headers
  {
    hide Scan;
    var n, e := |f.name|, k + |f.name|;
    var m1 := m.(h := Colon, keyEnd := e);
    OneStep(p, e, m);
    if j == n + 1 {
      AtEnd(p, m1);
    } else {
      var m2 := m1.(h := SpacesAfterColon);
      OneStep(p, e + 1, m1);
      if j == n + 2 {
        AtEnd(p, m2);
      } else {
        OneStep(p, e + 2, m2);
        CutInValue(p, e + 2, m2.(h := Value, valueStart := e + 2), f.value);
      }
    }
  }

  lemma CutInValue(p: string, v: nat, m: Machine, value: string)
    requires v < |p| <= v + |value| + 1 && m.h == Value && m.valueStart == v
    requires 1 <= |value| <= MAX_VALUE && forall i | 1 <= i < |value| :: value[i] != '\r'
    requires forall i | 0 <= i < |value| && v + i < |p| :: p[v + i] == value[i]
    requires v + |value| < |p| ==> p[v + |value|] == '\r'
    ensures var r := Scan(p, v + 1, m);
            r.Stopped? && r.next == |p| && InsideLine(r.m.h) && r.m.headers == m.headers
  {
    hide Scan;
    var w := v + |value|;
    forall i | v + 1 <= i < |p| && i < w ensures p[i] != '\r' { assert p[v + (i - v)] == value[i - v]; }
    if |p| <= w {
      SkipValue(p, v + 1, |p|, m);
      AtEnd(p, m);
    } else {
      SkipValue(p, v + 1, w, m);
      OneStep(p, w, m);
      AtEnd(p, m.(h := Cr, valueEnd := w));
    }
  }

  // -------------------------------------------------- where a cut head leaves the machine

  /** Where the first call stops: inside a line, between two lines, or inside the blank line. */
  predicate StopsAt(p: string, m: Machine, rest: string, fields: seq<Field>, done: nat)
    requires done <= |fields|
  {
    || InsideLine(m.h)
    || (m.h == Lf && m.lineBegin + 1 == |p| && p[m.lineBegin] == '\n'
        && rest == Flat(FieldLines(fields[done..])) + CRLF)
    || (m.h == EndCr && m.lineBegin + 2 == |p| && p[m.lineBegin] == '\n' && p[m.lineBegin + 1] == '\r' && rest == "\n")
  }

  lemma StepToEnd(p: string, k: nat, m: Machine, m': Machine)
    requires k + 1 == |p| && !m.h.EndLf? && Move(p, k, m) == Go(m')
    ensures Scan(p, k, m) == Stopped(m', |p|)
  {
    AtEnd(p, m');
  }

  /** The machine behind a line that starts at position k. */
  function BehindLine(k: nat, f: Field, headers: map<string, string>): Machine {
    var e := k + |f.name|;
    var w := e + 2 + |f.value|;
    Machine(Lf, k, e, e + 2, w, w + 1, headers[f.name := f.value])
  }

  lemma WholeLine(before: string, f: Field, more: string, m: Machine)
    requires Loose(f) && Starts(m.h, f)
    ensures var p := before + (FieldLine(f) + CRLF + more); var k := |before| + |FieldLine(f) + CRLF|;
            && k <= |p| && Scan(p, |before|, m) == Scan(p, k, BehindLine(|before|, f, m.headers))
            && p[k - 1] == '\n' && BehindLine(|before|, f, m.headers).lineBegin == k - 1
  {
    hide Scan;
    PrintedStands(before, f, more);
    var p := before + (FieldLine(f) + CRLF + more);
    ReadLine(p, |before|, m, f);
    assert |FieldLine(f) + CRLF| == |f.name| + 2 + |f.value| + 2;
  }

  lemma CutBlankLine(before: string, m: Machine)
    requires m.h == Lf && m.lineBegin + 1 == |before| && before[m.lineBegin] == '\n'
    ensures var p := before + CRLF[..1]; var r := Scan(p, |before|, m);
            r.Stopped? && r.next == |p| && StopsAt(p, r.m, CRLF[1..], [], 0)
  {
    var p := before + CRLF[..1];
    StepToEnd(p, |before|, m, m.(h := EndCr));
    hide Scan;
    assert CRLF[1..] == "\n";
  }

  lemma OneMoreDone(p: string, m: Machine, rest: string, fields: seq<Field>, done: nat)
    requires fields != [] && done < |fields| && StopsAt(p, m, rest, fields[1..], done)
    ensures StopsAt(p, m, rest, fields, done + 1)
  {
    hide Flat;
    hide FieldLines;
    assert fields[1..][done..] == fields[done + 1..];
  }

  lemma {:induction false} CutLines(before: string, fields: seq<Field>, j: nat, m: Machine) returns (done: nat)
    requires AllLoose(fields) && (if fields == [] then m.h == Lf else Starts(m.h, fields[0]))
    requires m.h == Lf ==> m.lineBegin + 1 == |before| && before[m.lineBegin] == '\n'
    requires 0 < j < |Flat(FieldLines(fields)) + CRLF|
    ensures done <= |fields|
    ensures var all := Flat(FieldLines(fields)) + CRLF; var p := before + all[..j]; var r := Scan(p, |before|, m);
            r.Stopped? && r.next == |p| && StopsAt(p, r.m, all[j..], fields, done)
    decreases |fields|
  {
    hide Scan;
    hide Loose;
    hide Flat;
    hide FieldLines;
    hide FieldLine;
    hide StopsAt;
    hide InsideLine;
    NoFields();
    var all := Flat(FieldLines(fields)) + CRLF;
    var p := before + all[..j];
    if fields == [] {
      done := 0;
      assert all == CRLF;
      CutBlankLine(before, m);
    } else {
      var f, line := fields[0], FieldLine(fields[0]) + CRLF;
      var more := Flat(FieldLines(fields[1..])) + CRLF;
      FirstLine(fields);
      if j < |line| {
        done := 0;
        CutFirstLine(before, fields, j, m);
      } else {
        var i := j - |line|;
        CutBehindLine(before, line, more, j);
        WholeLine(before, f, more[..i], m);
        var m' := BehindLine(|before|, f, m.headers);
        if i == 0 {
          done := 1;
          AtEnd(p, m');
          StopsBehindLine(p, m', all[j..], fields);
        } else {
          var rest := CutLines(before + line, fields[1..], i, m');
          done := rest + 1;
          OneMoreDone(p, Scan(p, |before|, m).m, all[j..], fields, rest);
        }
      }
    }
  }

  lemma CutFirstLine(before: string, fields: seq<Field>, j: nat, m: Machine)
    requires fields != [] && Loose(fields[0]) && Starts(m.h, fields[0])
    requires 0 < j < |FieldLine(fields[0]) + CRLF| && j < |Flat(FieldLines(fields)) + CRLF|
    ensures var all := Flat(FieldLines(fields)) + CRLF; var p := before + all[..j]; var r := Scan(p, |before|, m);
            r.Stopped? && r.next == |p| && StopsAt(p, r.m, all[j..], fields, 0)
  {
    hide Scan;
    hide Loose;
    hide Starts;
    hide Flat;
    hide FieldLines;
    hide FieldLine;
    hide InsideLine;
    var p := before + (Flat(FieldLines(fields)) + CRLF)[..j];
    FirstLine(fields);
    assert p[|before|..] == (FieldLine(fields[0]) + CRLF)[..j];
    CutInsideLine(p, |before|, m, fields[0], j);
  }

  lemma StopsBehindLine(p: string, m: Machine, rest: string, fields: seq<Field>)
    requires fields != [] && m.h == Lf && m.lineBegin + 1 == |p| && p[m.lineBegin] == '\n'
    requires rest == Flat(FieldLines(fields[1..])) + CRLF
    ensures StopsAt(p, m, rest, fields, 1)
  {
  }

  lemma CutBehindLine(before: string, line: string, more: string, j: nat)
    requires |line| <= j <= |line + more|
    ensures var i := j - |line|;
            && (line + more)[..j] == line + more[..i] && (line + more)[j..] == more[i..]
            && before + (line + more)[..j] == before + (line + more[..i]) == (before + line) + more[..i]
  {
  }

  lemma FirstLine(fields: seq<Field>)
    requires fields != []
    ensures Flat(FieldLines(fields)) + CRLF == (FieldLine(fields[0]) + CRLF) + (Flat(FieldLines(fields[1..])) + CRLF)
    ensures |FieldLine(fields[0]) + CRLF| == |fields[0].name| + 2 + |fields[0].value| + 2
  {
    assert FieldLines(fields)[1..] == FieldLines(fields[1..]);
  }

  // --------------------------------------------------------------- the second call

  predicate Names(fields: seq<Field>, key: string) { exists i :: 0 <= i < |fields| && fields[i].name == key }

  lemma {:induction false} KeyKept(headers: map<string, string>, fields: seq<Field>, key: string)
    ensures key in headers ==> key in LastWins(headers, fields)
    ensures key in LastWins(headers, fields) ==> key in headers || Names(fields, key)
    decreases |fields|
  {
    if fields != [] {
      var rest := fields[1..];
      KeyKept(headers[fields[0].name := fields[0].value], rest, key);
      if i :| 0 <= i < |rest| && rest[i].name == key { assert fields[i + 1].name == key; }
    }
  }

  /** Between two lines the line feed that is still in the buffer becomes part of the next name. */
  function Spoilt(fields: seq<Field>): seq<Field>
    requires fields != []
  {
    [Field("\n" + fields[0].name, fields[0].value)] + fields[1..]
  }

  lemma SpoiltPrints(fields: seq<Field>)
    requires fields != [] && AllReadable(fields)
    ensures "\n" + (Flat(FieldLines(fields)) + CRLF) == Flat(FieldLines(Spoilt(fields))) + CRLF
    ensures AllLoose(Spoilt(fields))
  {
    hide Flat;
    hide FieldLines;
    var wrong := Spoilt(fields);
    assert wrong[1..] == fields[1..];
    FirstLine(fields);
    FirstLine(wrong);
    assert FieldLine(wrong[0]) == "\n" + FieldLine(fields[0]);
    hide FieldLine;
    assert Readable(fields[0]);
    ReadableIsLoose(fields);
    assert forall i | 1 <= i < |wrong| :: wrong[i] == fields[i];
  }

  /** A call that starts between two lines succeeds with a wrong name, or is refused at the blank line. */
  lemma BetweenLines(fields: seq<Field>, headers: map<string, string>)
    requires AllReadable(fields)
    ensures var left := Call("\n" + (Flat(FieldLines(fields)) + CRLF), Lf, headers);
            if fields == [] then left.result == Error
            else left == Left(Success, "", EndLf, LastWins(headers, Spoilt(fields)))
                 && "\n" + fields[0].name in left.headers
  {
    hide Flat;
    hide FieldLines;
    hide Readable;
    NoFields();
    var str := "\n" + (Flat(FieldLines(fields)) + CRLF);
    if fields == [] {
      assert str == "\n\r\n";
      RefusedAtBlankLine(str, headers);
    } else {
      SpoiltPrints(fields);
      var wrong := Spoilt(fields);
      hide Loose;
      assert str == "" + (Flat(FieldLines(wrong)) + CRLF + "");
      hide Scan;
      ReadLines("", wrong, "", Entry(Lf, headers));
      assert str[|str|..] == "";
      KeyKept(headers[wrong[0].name := wrong[0].value], wrong[1..], wrong[0].name);
    }
  }

  lemma RefusedAtBlankLine(str: string, headers: map<string, string>)
    requires |str| == 3 && str[0] == '\n' && str[1] == '\r'
    ensures Call(str, Lf, headers).result == Error
  {
    var m := Entry(Lf, headers);
    OneStep(str, 0, m);
    assert Move(str, 1, m.(h := Key, keyStart := 0)) == Fail(Error);
  }

  /** A call that starts inside the blank line succeeds on the line feed before it and leaves one behind. */
  lemma InsideBlankLine(str: string, headers: map<string, string>)
    requires str == "\n\r\n"
    ensures Call(str, EndCr, headers) == Left(Success, "\n", EndLf, headers)
  {
    var m := Entry(EndCr, headers);
    OneStep(str, 0, m);
    assert Scan(str, 1, m.(h := EndLf)) == Stopped(m.(h := EndLf, keyStart := 1, lineBegin := 1), 2);
    assert str[2..] == "\n";
  }

  // ------------------------------------------------------------------ the main result

  /** One call on the whole head. */
  lemma WholeHead(fields: seq<Field>)
    requires fields != [] && AllReadable(fields)
    ensures Call(HeadText(fields), Start, map[]) == Left(Success, "", EndLf, LastWins(map[], fields))
  {
    hide Flat;
    hide FieldLines;
    hide LastWins;
    hide AllReadable;
    assert HeadText(fields) == "\n" + (Flat(FieldLines(fields)) + CRLF + "");
    HeaderMachine.ParseInvertsPrint(fields, "");
    hide Scan;
  }

  /** Where the first call on a piece of the head stops, and what it leaves in the buffer. */
  lemma FirstCall(fields: seq<Field>, k: nat) returns (done: nat)
    requires fields != [] && AllReadable(fields) && 2 <= k < |HeadText(fields)|
    ensures done <= |fields|
    ensures var str := HeadText(fields); var first := Call(str[..k], Start, map[]);
            && first.result == Again
            && (|| InsideLine(first.h)
                || (first.h == Lf && first.buffer == "\n" && str[k..] == Flat(FieldLines(fields[done..])) + CRLF)
                || (first.h == EndCr && first.buffer == "\n\r" && str[k..] == "\n"))
  {
    hide Flat;
    hide FieldLines;
    hide Scan;
    hide Readable;
    var str, all := HeadText(fields), Flat(FieldLines(fields)) + CRLF;
    var p, m := str[..k], Entry(Start, map[]);
    ReadableIsLoose(fields);
    assert p == "\n" + all[..k - 1] && str[k..] == all[k - 1..];
    OneStep(p, 0, m);
    done := CutLines("\n", fields, k - 1, m);
    var last := Scan(p, 1, m).m;
    if last.h == Lf {
      assert p[last.lineBegin..] == "\n";
    } else if last.h == EndCr {
      assert p[last.lineBegin..] == "\n\r";
    }
  }

  /** No name starts with a line feed, so a spoilt name is not among the headers. */
  lemma SpoiltIsForeign(fields: seq<Field>, name: string)
    requires AllReadable(fields)
    ensures "\n" + name !in LastWins(map[], fields)
  {
    var key := "\n" + name;
    KeyKept(map[], fields, key);
    forall i | 0 <= i < |fields| ensures fields[i].name != key {
      assert Readable(fields[i]) && KeyChar(fields[i].name[0]);
    }
  }

  lemma SecondCallDiffers(fields: seq<Field>, k: nat)
    requires fields != [] && AllReadable(fields) && 2 <= k < |HeadText(fields)|
    ensures TwoCalls(HeadText(fields), k) != Call(HeadText(fields), Start, map[])
  {
    hide Call;
    hide HeadText;
    hide Flat;
    hide FieldLines;
    hide LastWins;
    hide Readable;
    var str := HeadText(fields);
    var done := FirstCall(fields, k);
    WholeHead(fields);
    var first := Call(str[..k], Start, map[]);
    if first.h == Lf {
      var rest := fields[done..];
      BetweenLines(rest, first.headers);
      if rest != [] { SpoiltIsForeign(fields, rest[0].name); }
    } else if first.h == EndCr {
      InsideBlankLine(first.buffer + str[k..], first.headers);
    } else {
      InsideDiffers(first.buffer + str[k..], first.h, first.headers);
    }
  }

  lemma InsideDiffers(str: string, h: ParseState, headers: map<string, string>)
    requires InsideLine(h)
    ensures Call(str, h, headers).result != Success && Call(str, h, headers).headers == headers
  {
    NotResumable(str, h, headers);
    hide Scan;
  }

  lemma NothingReadYet(str: string, k: nat)
    requires k <= 1 && k <= |str| && (k == 1 ==> str[0] == '\n')
    ensures TwoCalls(str, k) == Call(str, Start, map[])
  {
    var p, m := str[..k], Entry(Start, map[]);
    if k == 1 { OneStep(p, 0, m); }
    AtEnd(p, m);
    assert Scan(p, 0, m) == Stopped(m, k);
    hide Scan;
    assert p[0..] + str[k..] == str;
  }

  /**
   A printed head that arrives in two pieces is read as if it had arrived whole, with the
   same result, buffer, state and headers, if and only if the first piece is all of it or
   holds nothing beyond the leading line feed.
   */
  lemma PiecesReadAsWhole(fields: seq<Field>, k: nat)
    requires fields != [] && AllReadable(fields) && k <= |HeadText(fields)|
    ensures TwoCalls(HeadText(fields), k) == Call(HeadText(fields), Start, map[])
            <==> k <= 1 || k == |HeadText(fields)|
  {
    var str := HeadText(fields);
    if k <= 1 {
      NothingReadYet(str, k);
    } else if k == |str| {
      hide Call;
      WholeHead(fields);
      assert str[..k] == str && str[k..] == "";
    } else {
      SecondCallDiffers(fields, k);
    }
  }
}
