/** What the header state machine refuses, behind any number of complete lines. */
module HeaderErrors {
  import opened Text
  import opened HttpHead
  import opened HeaderMachine
  import opened HeaderPieces

  /** A line that goes wrong, up to the byte that shows it, and whatever follows. */
  datatype Flaw =
    | NoBlank(name: string, rest: string)                     // a colon without a blank
    | BrokenName(name: string, rest: string)                  // a line break inside a name
    | LongValue(name: string, value: string, rest: string)    // more than 256 bytes of value
    | LoneReturn(name: string, value: string, rest: string)   // a carriage return without a line feed
    | LoneEnd(rest: string)                                   // the same in the blank line

  function TextOf(flaw: Flaw): string {
    match flaw
    case NoBlank(name, rest) => name + ":" + rest
    case BrokenName(name, rest) => name + rest
    case LongValue(name, value, rest) => name + ": " + value + rest
    case LoneReturn(name, value, rest) => name + ": " + value + "\r" + rest
    case LoneEnd(rest) => "\r" + rest
  }

  predicate IsName(name: string) { name != "" && ':' !in name && '\r' !in name && '\n' !in name }

  predicate Proper(flaw: Flaw) {
    && (!flaw.LoneEnd? ==> IsName(flaw.name))
    && (!flaw.LongValue? ==> flaw.rest != "")
    && match flaw
       case NoBlank(_, rest) => rest[0] != ' '
       case BrokenName(_, rest) => rest[0] == '\r' || rest[0] == '\n'
       case LongValue(_, value, _) => |value| == 257 && '\r' !in value
       case LoneReturn(_, value, rest) => 1 <= |value| <= 256 && '\r' !in value && rest[0] != '\n'
       case LoneEnd(rest) => rest[0] != '\n'
  }

  /** Complete lines are read over, whatever comes behind them. */
  lemma {:induction false} LinesPass(before: string, fields: seq<Field>, rest: string, m: Machine) returns (m': Machine)
    requires AllLoose(fields) && (fields != [] ==> Starts(m.h, fields[0]))
    ensures var flat := Flat(FieldLines(fields)); var str := before + (flat + rest);
            Scan(str, |before|, m) == Scan(str, |before| + |flat|, m')
    ensures if fields == [] then m' == m else m'.h == Lf && m'.headers == LastWins(m.headers, fields)
    decreases |fields|
  {
    hide Scan;
    hide Loose;
    hide Flat;
    hide FieldLines;
    hide FieldLine;
    NoFields();
    if fields == [] {
      m' := m;
    } else {
      var f, line := fields[0], FieldLine(fields[0]) + CRLF;
      var more := Flat(FieldLines(fields[1..])) + rest;
      FirstLine(fields);
      assert before + (Flat(FieldLines(fields)) + rest) == before + (FieldLine(f) + CRLF + more);
      assert before + (FieldLine(f) + CRLF + more) == (before + line) + more;
      WholeLine(before, f, more, m);
      assert AllLoose(fields[1..]);
      m' := LinesPass(before + line, fields[1..], rest, BehindLine(|before|, f, m.headers));
    }
  }

  lemma FirstLine(fields: seq<Field>)
    requires fields != []
    ensures Flat(FieldLines(fields)) == FieldLine(fields[0]) + CRLF + Flat(FieldLines(fields[1..]))
  {
    assert FieldLines(fields)[1..] == FieldLines(fields[1..]);
  }

  predicate CharsAt(str: string, k: nat, t: string) { k + |t| <= |str| && str[k..k + |t|] == t }

  lemma CharIs(str: string, k: nat, t: string, i: nat)
    requires CharsAt(str, k, t) && i < |t|
    ensures str[k + i] == t[i]
  {
    assert str[k..k + |t|][i] == str[k + i];
  }

  lemma PartsAt(str: string, k: nat, a: string, b: string)
    requires CharsAt(str, k, a + b)
    ensures CharsAt(str, k, a) && CharsAt(str, k + |a|, b)
  {
    var whole := str[k..k + |a + b|];
    assert whole[..|a|] == a && whole[|a|..] == b;
    assert str[k..k + |a|] == whole[..|a|] && str[k + |a|..k + |a| + |b|] == whole[|a|..];
  }

  /** The machine at the first byte of a line. */
  predicate AtLine(m: Machine) { m.h == Lf || m.h == Start }

  lemma NameChar(name: string, i: nat)
    requires IsName(name) && i < |name|
    ensures KeyChar(name[i])
  {
    assert name[i] in name;
  }

  /** A name is read to its end. */
  lemma NameRead(str: string, k: nat, m: Machine, name: string)
    requires CharsAt(str, k, name) && IsName(name) && AtLine(m)
    ensures var b := if m.h == Start then k else m.lineBegin;
            Scan(str, k, m) == Scan(str, k + |name|, m.(h := Key, keyStart := k, lineBegin := b))
  {
    hide Scan;
    forall j | k <= j < k + |name| ensures KeyChar(str[j]) {
      CharIs(str, k, name, j - k);
      NameChar(name, j - k);
    }
    OneStep(str, k, m);
    var m1 := Move(str, k, m).m;
    SkipKey(str, k + 1, k + |name|, m1);
  }

  lemma StepFails(str: string, i: nat, m: Machine)
    requires i < |str| && Move(str, i, m) == Fail(Error)
    ensures Scan(str, i, m) == Failed(Error, m)
  {
  }

  /** Name, colon and blank: the value starts. */
  lemma ValueStarts(str: string, k: nat, m: Machine, name: string)
    requires CharsAt(str, k, name) && IsName(name) && AtLine(m)
    requires k + |name| + 2 < |str| && str[k + |name|] == ':' && str[k + |name| + 1] == ' '
    ensures var v := k + |name| + 2; var b := if m.h == Start then k else m.lineBegin;
            Scan(str, k, m) ==
            Scan(str, v + 1, m.(h := Value, keyStart := k, keyEnd := v - 2, valueStart := v, lineBegin := b))
  {
    hide Scan;
    var v := k + |name| + 2;
    NameRead(str, k, m, name);
    var m1 := m.(h := Key, keyStart := k, lineBegin := if m.h == Start then k else m.lineBegin);
    OneStep(str, v - 2, m1);
    var m2 := m1.(h := Colon, keyEnd := v - 2);
    OneStep(str, v - 1, m2);
    OneStep(str, v, m2.(h := SpacesAfterColon));
  }

  lemma PlainChars(str: string, v: nat, value: string)
    requires CharsAt(str, v, value) && '\r' !in value
    ensures forall j | v <= j < v + |value| :: str[j] != '\r'
  {
    forall j | v <= j < v + |value| ensures str[j] != '\r' { CharIs(str, v, value, j - v); }
  }

  lemma LongValueFails(str: string, v: nat, m: Machine, value: string)
    requires CharsAt(str, v, value) && |value| == 257 && '\r' !in value && m.h == Value && m.valueStart == v
    ensures Scan(str, v + 1, m) == Failed(Error, m)
  {
    hide Scan;
    PlainChars(str, v, value);
    SkipValue(str, v + 1, v + 256, m);
    StepFails(str, v + 256, m);
  }

  lemma LoneReturnFails(str: string, v: nat, m: Machine, value: string)
    requires CharsAt(str, v, value) && 1 <= |value| <= 256 && '\r' !in value && m.h == Value && m.valueStart == v
    requires v + |value| + 1 < |str| && str[v + |value|] == '\r' && str[v + |value| + 1] != '\n'
    ensures var r := Scan(str, v + 1, m); r.Failed? && r.r == Error && r.last.headers == m.headers
  {
    hide Scan;
    var w := v + |value|;
    PlainChars(str, v, value);
    SkipValue(str, v + 1, w, m);
    OneStep(str, w, m);
    StepFails(str, w + 1, m.(h := Cr, valueEnd := w));
  }

  lemma NoBlankFails(str: string, k: nat, m: Machine, name: string, rest: string)
    requires CharsAt(str, k, name + ":" + rest) && IsName(name) && AtLine(m) && rest != "" && rest[0] != ' '
    ensures var r := Scan(str, k, m); r.Failed? && r.r == Error && r.last.headers == m.headers
  {
    hide Scan;
    assert name + ":" + rest == name + (":" + rest);
    PartsAt(str, k, name, ":" + rest);
    CharIs(str, k + |name|, ":" + rest, 0);
    CharIs(str, k + |name|, ":" + rest, 1);
    NameRead(str, k, m, name);
    var m1 := m.(h := Key, keyStart := k, lineBegin := if m.h == Start then k else m.lineBegin);
    OneStep(str, k + |name|, m1);
    StepFails(str, k + |name| + 1, m1.(h := Colon, keyEnd := k + |name|));
  }

  lemma BrokenNameFails(str: string, k: nat, m: Machine, name: string, rest: string)
    requires CharsAt(str, k, name + rest) && IsName(name) && AtLine(m) && rest != "" && IsBreak(rest[0])
    ensures var r := Scan(str, k, m); r.Failed? && r.r == Error && r.last.headers == m.headers
  {
    hide Scan;
    PartsAt(str, k, name, rest);
    CharIs(str, k + |name|, rest, 0);
    NameRead(str, k, m, name);
    StepFails(str, k + |name|, m.(h := Key, keyStart := k, lineBegin := if m.h == Start then k else m.lineBegin));
  }

  /** The machine in front of a value, and the value with what follows it. */
  lemma ToValue(str: string, k: nat, m: Machine, name: string, value: string, rest: string) returns (m': Machine)
    requires CharsAt(str, k, name + ": " + value + rest) && IsName(name) && AtLine(m) && value != ""
    ensures var v := k + |name| + 2;
            && Scan(str, k, m) == Scan(str, v + 1, m') && m'.h == Value && m'.valueStart == v && m'.headers == m.headers
            && CharsAt(str, v, value) && CharsAt(str, v + |value|, rest)
  {
    hide Scan;
    var v, b := k + |name| + 2, if m.h == Start then k else m.lineBegin;
    assert name + ": " + value + rest == name + (": " + (value + rest));
    PartsAt(str, k, name, ": " + (value + rest));
    CharIs(str, k + |name|, ": " + (value + rest), 0);
    CharIs(str, k + |name|, ": " + (value + rest), 1);
    PartsAt(str, k + |name|, ": ", value + rest);
    PartsAt(str, v, value, rest);
    ValueStarts(str, k, m, name);
    m' := m.(h := Value, keyStart := k, keyEnd := v - 2, valueStart := v, lineBegin := b);
  }

  /** The flaw ends the scan, and no header is stored for its line. */
  lemma FlawFails(str: string, k: nat, m: Machine, flaw: Flaw)
    requires CharsAt(str, k, TextOf(flaw)) && Proper(flaw) && AtLine(m) && (flaw.LoneEnd? ==> m.h == Lf)
    ensures var r := Scan(str, k, m); r.Failed? && r.r == Error && r.last.headers == m.headers
  {
    hide Scan;
    hide CharsAt;
    match flaw
    case NoBlank(name, rest) => NoBlankFails(str, k, m, name, rest);
    case BrokenName(name, rest) => BrokenNameFails(str, k, m, name, rest);
    case LongValue(name, value, rest) =>
      var m' := ToValue(str, k, m, name, value, rest);
      LongValueFails(str, k + |name| + 2, m', value);
    case LoneReturn(name, value, rest) =>
      var v := k + |name| + 2;
      assert name + ": " + value + "\r" + rest == name + ": " + value + ("\r" + rest);
      var m' := ToValue(str, k, m, name, value, "\r" + rest);
      ReturnThen(str, v + |value|, rest);
      LoneReturnFails(str, v, m', value);
    case LoneEnd(rest) =>
      ReturnThen(str, k, rest);
      OneStep(str, k, m);
      StepFails(str, k + 1, m.(h := EndCr));
  }

  lemma ReturnThen(str: string, k: nat, rest: string)
    requires CharsAt(str, k, "\r" + rest) && rest != ""
    ensures k + 1 < |str| && str[k] == '\r' && str[k + 1] == rest[0]
  {
    CharIs(str, k, "\r" + rest, 0);
    CharIs(str, k, "\r" + rest, 1);
  }

  /**
   Behind any complete lines, each of these flaws is an error: the call says so and leaves
   the buffer as it was, with the headers of the complete lines stored.
   */
  lemma FlawIsError(fields: seq<Field>, flaw: Flaw)
    requires AllReadable(fields) && Proper(flaw) && (flaw.LoneEnd? ==> fields != [])
    ensures var str := "\n" + (Flat(FieldLines(fields)) + TextOf(flaw));
            && Outcome(str, Start, map[]) == (Error, str)
            && Call(str, Start, map[]).headers == LastWins(map[], fields)
  {
    hide Scan;
    hide Flat;
    hide FieldLines;
    hide TextOf;
    hide Proper;
    var flat := Flat(FieldLines(fields));
    var str := "\n" + (flat + TextOf(flaw));
    ReadableIsLoose(fields);
    OneStep(str, 0, Entry(Start, map[]));
    var m := LinesPass("\n", fields, TextOf(flaw), Entry(Start, map[]));
    assert CharsAt(str, 1 + |flat|, TextOf(flaw));
    FlawFails(str, 1 + |flat|, m, flaw);
  }

  /** A value of 256 bytes is still read. */
  lemma LongestValueIsRead(name: string, value: string)
    requires IsName(name) && |value| == 256 && '\r' !in value
    ensures var str := "\n" + (Flat(FieldLines([Field(name, value)])) + CRLF + "");
            Outcome(str, Start, map[]) == (Success, "") && Call(str, Start, map[]).headers == map[name := value]
  {
    hide Scan;
    hide Flat;
    hide FieldLines;
    var f := Field(name, value);
    forall i: nat | i < |name| ensures KeyChar(name[i]) { NameChar(name, i); }
    assert forall i | 1 <= i < |value| :: value[i] != '\r';
    assert Readable(f);
    HeaderMachine.ParseInvertsPrint([f], "");
    assert [f][1..] == [];
  }
}
