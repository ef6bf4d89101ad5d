/** Printing a message head, and what the parser makes of a printed one. */
module HttpHead {
  import opened Basics
  import opened Text
  import opened Decimal
  import opened HttpParse

  /** The lines, each ended by a line break. */
  function Flat(lines: seq<string>): string {
    if lines == [] then "" else lines[0] + CRLF + Flat(lines[1..])
  }

  /** A line that is not empty and contains no carriage return. */
  predicate Clean(line: string) { line != "" && '\r' !in line }

  predicate AllClean(lines: seq<string>) { forall i | 0 <= i < |lines| :: Clean(lines[i]) }

  /** No pattern that starts with a carriage return stands inside a clean line. */
  lemma NotInside(line: string, rest: string, pat: string)
    requires '\r' !in line && pat != "" && pat[0] == '\r'
    ensures forall k: nat | k < |line| :: !At(line + rest, pat, k)
  {
    forall k: nat | k < |line| ensures !At(line + rest, pat, k) {
      AtChars(line + rest, pat, k);
      assert (line + rest)[k] == line[k] && line[k] in line;
    }
  }

  lemma FirstBreak(line: string, rest: string)
    requires '\r' !in line
    ensures FindFrom(line + CRLF + rest, CRLF, 0) == Some(|line|)
  {
    var s := line + CRLF + rest;
    assert s == line + (CRLF + rest);
    NotInside(line, CRLF + rest, CRLF);
    assert s[|line|..|line| + 2] == CRLF;
    FindIs(s, CRLF, 0, |line|);
  }

  lemma NoBlankLineAt(s: string, n: nat)
    requires n + 2 < |s| && s[n + 1] == '\n' && s[n + 2] != '\r'
    requires forall k: nat | k < n :: !At(s, BLANK_LINE, k)
    ensures FindFrom(s, BLANK_LINE, 0) == FindFrom(s, BLANK_LINE, n + 2)
  {
    AtChars(s, BLANK_LINE, n);
    AtChars(s, BLANK_LINE, n + 1);
    hide At;
    FindSkips(s, BLANK_LINE, 0, n + 2);
  }

  /** The search for the blank line passes over a line that does not end the head. */
  lemma SearchPasses(line: string, tail: string)
    requires '\r' !in line && tail != "" && tail[0] != '\r'
    ensures FindFrom(line + CRLF + tail, BLANK_LINE, 0) == Shift(FindFrom(tail, BLANK_LINE, 0), |line| + 2)
  {
    hide FindFrom;
    hide At;
    var s := line + CRLF + tail;
    assert s == line + (CRLF + tail);
    NotInside(line, CRLF + tail, BLANK_LINE);
    NoBlankLineAt(s, |line|);
    FindShifts(line + CRLF, tail, BLANK_LINE, 0);
  }

  lemma SearchStops(line: string, rest: string)
    requires '\r' !in line
    ensures FindFrom(line + CRLF + CRLF + rest, BLANK_LINE, 0) == Some(|line|)
  {
    var s := line + CRLF + CRLF + rest;
    assert s == line + (CRLF + CRLF + rest);
    NotInside(line, CRLF + CRLF + rest, BLANK_LINE);
    assert s[|line|..|line| + 4] == BLANK_LINE;
    FindIs(s, BLANK_LINE, 0, |line|);
  }

  /** The blank line of a printed head is the one that ends it. */
  lemma {:induction false} BlankLineEnds(lines: seq<string>, rest: string)
    requires lines != [] && AllClean(lines)
    ensures |Flat(lines)| >= 3
    ensures FindFrom(Flat(lines) + CRLF + rest, BLANK_LINE, 0) == Some(|Flat(lines)| - 2)
  {
    hide FindFrom;
    hide At;
    var line, tail := lines[0], Flat(lines[1..]) + CRLF + rest;
    assert Clean(line);
    if lines[1..] == [] {
      assert Flat(lines) == line + CRLF;
      SearchStops(line, rest);
    } else {
      BlankLineEnds(lines[1..], rest);
      assert Flat(lines) + CRLF + rest == line + CRLF + tail;
      assert Clean(lines[1]) && tail[0] == lines[1][0] && lines[1][0] in lines[1];
      SearchPasses(line, tail);
    }
  }

  function AddAll(headers: map<string, string>, lines: seq<string>): map<string, string>
    decreases |lines|
  {
    if lines == [] then headers else AddAll(AddHeader(headers, lines[0]), lines[1..])
  }

  /** The header loop visits exactly the printed lines, in order. */
  lemma {:induction false} HeadersVisitLines(before: string, lines: seq<string>, headers: map<string, string>)
    requires AllClean(lines)
    ensures Headers(before + Flat(lines), |before|, headers) == AddAll(headers, lines)
    decreases |lines|
  {
    hide FindFrom;
    hide At;
    hide AddHeader;
    if lines != [] {
      var line, rest := lines[0], Flat(lines[1..]);
      var head := before + Flat(lines);
      assert Clean(line);
      assert head == before + (line + CRLF + rest) && head == (before + line + CRLF) + rest;
      FirstBreak(line, rest);
      FindShifts(before, line + CRLF + rest, CRLF, 0);
      assert head[|before|..|before| + |line|] == line;
      HeadersVisitLines(before + line + CRLF, lines[1..], AddHeader(headers, line));
    }
  }

  lemma NextWord(s: string, i: nat, b: nat, e: nat)
    requires i <= b < e <= |s| && (forall j | i <= j < b :: s[j] == ' ') && (forall j | b <= j < e :: s[j] != ' ')
    requires e < |s| ==> s[e] == ' '
    ensures SkipBlanks(s, i) == b && SkipToken(s, b) == e
  {
    hide SkipBlanks;
    hide SkipToken;
    var b', e' := SkipBlanks(s, i), SkipToken(s, b);
    assert s[b] != ' ';
  }

  lemma RequestLineInverts(verb: string, target: string, version: string)
    requires verb != "" && target != "" && version != ""
    requires ' ' !in verb && ' ' !in target && ' ' !in version
    ensures RequestLine(verb + " " + target + " " + version) == Some((verb, target, version))
  {
    hide SkipBlanks;
    hide SkipToken;
    var line := verb + " " + target + " " + version;
    var a, b := |verb|, |verb| + 1 + |target|;
    assert line[0..a] == verb && line[a + 1..b] == target && line[b + 1..|line|] == version;
    assert line[a] == ' ' && line[b] == ' ';
    NotIn(line, 0, a);
    NotIn(line, a + 1, b);
    NotIn(line, b + 1, |line|);
    NextWord(line, 0, 0, a);
    NextWord(line, a, a + 1, b);
    NextWord(line, b, b + 1, |line|);
  }

  lemma NotIn(s: string, i: nat, j: nat)
    requires i <= j <= |s| && ' ' !in s[i..j]
    ensures forall k | i <= k < j :: s[k] != ' '
  {
    forall k | i <= k < j ensures s[k] != ' ' { assert s[i..j][k - i] in s[i..j]; }
  }

  // ------------------------------------------------------------------- fields

  datatype Field = Field(name: string, value: string)

  function FieldLine(f: Field): string { f.name + ": " + f.value }

  function FieldLines(fields: seq<Field>): (lines: seq<string>)
    ensures |lines| == |fields| && forall i | 0 <= i < |fields| :: lines[i] == FieldLine(fields[i])
  {
    seq(|fields|, i requires 0 <= i < |fields| => FieldLine(fields[i]))
  }

  lemma {:induction false} FlatSnoc(lines: seq<string>, line: string)
    ensures Flat(lines + [line]) == Flat(lines) + line + CRLF
  {
    if lines == [] {
      assert lines + [line] == [line] && [line][1..] == [];
    } else {
      assert (lines + [line])[1..] == lines[1..] + [line];
      FlatSnoc(lines[1..], line);
    }
  }

  /** Appending one printed line prints one field more. */
  lemma FieldAppended(fields: seq<Field>, f: Field)
    ensures Flat(FieldLines(fields + [f])) == Flat(FieldLines(fields)) + (f.name + ": " + f.value + CRLF)
  {
    assert FieldLines(fields + [f]) == FieldLines(fields) + [FieldLine(f)];
    FlatSnoc(FieldLines(fields), FieldLine(f));
  }

  lemma NoFields()
    ensures Flat(FieldLines([])) == ""
  {
  }

  /** A field that survives printing and parsing: nothing to trim, no colon in the name, no line break. */
  predicate CleanField(f: Field) {
    && f.name != "" && ':' !in f.name && '\r' !in f.name && Trimmed(f.name)
    && '\r' !in f.value && Trimmed(f.value)
  }

  predicate CleanFields(fields: seq<Field>) { forall i | 0 <= i < |fields| :: CleanField(fields[i]) }

  /** Field names are compared without case and the first of equal names counts. */
  function FieldMap(headers: map<string, string>, fields: seq<Field>): map<string, string>
    decreases |fields|
  {
    if fields == [] then headers
    else
      var key := ToLower(fields[0].name);
      FieldMap(if key in headers then headers else headers[key := fields[0].value], fields[1..])
  }

  lemma AddHeaderInverts(headers: map<string, string>, f: Field)
    requires CleanField(f)
    ensures AddHeader(headers, FieldLine(f)) ==
            var key := ToLower(f.name); if key in headers then headers else headers[key := f.value]
  {
    hide SpacesBefore;
    hide SpacesAfter;
    hide Trim;
    var line := FieldLine(f);
    forall k: nat | k < |f.name| ensures !At(line, ":", k) {
      assert line[k..k + 1] == [f.name[k]] && f.name[k] in f.name;
    }
    assert line[|f.name|..|f.name| + 1] == ":";
    FindIs(line, ":", 0, |f.name|);
    assert line[..|f.name|] == "" + f.name + "";
    TrimPadded("", f.name, "");
    assert line[|f.name| + 1..] == " " + f.value + "";
    TrimPadded(" ", f.value, "");
  }

  lemma {:induction false} AddAllInverts(headers: map<string, string>, fields: seq<Field>)
    requires CleanFields(fields)
    ensures AddAll(headers, FieldLines(fields)) == FieldMap(headers, fields)
    decreases |fields|
  {
    if fields != [] {
      AddHeaderInverts(headers, fields[0]);
      assert FieldLines(fields)[1..] == FieldLines(fields[1..]);
      AddAllInverts(AddHeader(headers, FieldLine(fields[0])), fields[1..]);
    }
  }

  /** What the parser reads off a printed head, whatever follows it. */
  lemma HeadInverts(first: string, fields: seq<Field>, rest: string)
    requires Clean(first) && CleanFields(fields)
    ensures var text := first + CRLF + Flat(FieldLines(fields)) + CRLF + rest;
            var end := |first| + |Flat(FieldLines(fields))|;
            && FindFrom(text, BLANK_LINE, 0) == Some(end)
            && FindFrom(text[..end + 2], CRLF, 0) == Some(|first|)
            && text[..end + 2][..|first|] == first
            && Headers(text[..end + 2], |first| + 2, map[]) == FieldMap(map[], fields)
  {
    hide FindFrom;
    hide Headers;
    hide AddHeader;
    hide FieldMap;
    hide AddAll;
    hide Flat;
    hide Clean;
    var lines := FieldLines(fields);
    var text := first + CRLF + Flat(lines) + CRLF + rest;
    var head := first + CRLF + Flat(lines);
    LinesAreClean(first, fields);
    BlankLineEnds([first] + lines, rest);
    assert text == head + CRLF + rest;
    assert text[..|head|] == head;
    CleanHasNoBreak(first);
    FirstBreak(first, Flat(lines));
    HeadersVisitLines(first + CRLF, lines, map[]);
    AddAllInverts(map[], fields);
  }

  lemma LinesAreClean(first: string, fields: seq<Field>)
    requires Clean(first) && CleanFields(fields)
    ensures AllClean(FieldLines(fields)) && AllClean([first] + FieldLines(fields))
    ensures Flat([first] + FieldLines(fields)) == first + CRLF + Flat(FieldLines(fields))
  {
    var lines := FieldLines(fields);
    forall i | 0 <= i < |lines| ensures Clean(lines[i]) { assert CleanField(fields[i]); }
    assert ([first] + lines)[1..] == lines;
  }

  lemma CleanHasNoBreak(line: string)
    requires Clean(line)
    ensures '\r' !in line
  {
  }

  function LengthField(n: nat): Field { Field("Content-Length", NatText(n)) }

  /** A printed Content-Length survives, and reads back as the number. */
  lemma LengthFieldReads(n: nat)
    requires n < WORD
    ensures CleanField(LengthField(n)) && ToLower(LengthField(n).name) == "content-length"
    ensures Stoul(LengthField(n).value) == Some(n)
  {
    hide NatText;
    hide Stoul;
    hide ToLower;
    StoulReads(n);
    LowerIs("Content-Length", "content-length");
    DigitsAreClean(NatText(n));
  }

  lemma DigitsAreClean(digits: string)
    requires AllDigits(digits)
    ensures '\r' !in digits && Trimmed(digits)
  {
  }

  // ----------------------------------------------------------------- requests

  /** The text of a request. */
  function RequestText(verb: string, target: string, version: string, fields: seq<Field>, body: string): string {
    verb + " " + target + " " + version + CRLF + Flat(FieldLines(fields)) + CRLF + body
  }

  predicate Word(s: string) { s != "" && ' ' !in s && '\r' !in s }

  /**
   The parser inverts the printer, with anything behind the request: it returns the words
   of the request line (the target cut at the query), the printed fields and the body,
   and takes exactly the printed bytes.
   */
  lemma ParseInvertsPrint(verb: string, target: string, version: string, fields: seq<Field>, body: string, rest: string)
    requires Word(verb) && Word(target) && Word(version) && CleanFields(fields)
    requires BodyLength(FieldMap(map[], fields)) == Some(|body|)
    requires |RequestText(verb, target, version, fields, body)| < WORD
    ensures TryParse(RequestText(verb, target, version, fields, body) + rest) ==
            Some(Parsed(Request(verb, StripQuery(target), version, FieldMap(map[], fields), body),
                        |RequestText(verb, target, version, fields, body)|))
  {
    hide FindFrom;
    hide ReadHead;
    hide FieldMap;
    hide StripQuery;
    hide BodyLength;
    var text := RequestText(verb, target, version, fields, body);
    var begin := |text| - |body|;
    ReadHeadInverts(verb, target, version, fields, body, rest);
    assert (text + rest)[begin..begin + |body|] == body;
  }

  /** Request line and fields of a printed head read back, whatever the fields declare. */
  lemma HeadParses(verb: string, target: string, version: string, fields: seq<Field>, body: string, rest: string)
    requires Word(verb) && Word(target) && Word(version) && CleanFields(fields)
    ensures var text := RequestText(verb, target, version, fields, body);
            var end := |text| - |body| - 4;
            && end >= 0 && FindFrom(text + rest, BLANK_LINE, 0) == Some(end)
            && ParseHead((text + rest)[..end + 2]) ==
               Some(Request(verb, StripQuery(target), version, FieldMap(map[], fields), ""))
  {
    hide FindFrom;
    hide RequestLine;
    hide Headers;
    hide FieldMap;
    hide StripQuery;
    hide Flat;
    hide At;
    var first, flat := verb + " " + target + " " + version, Flat(FieldLines(fields));
    var text := RequestText(verb, target, version, fields, body);
    assert text + rest == first + CRLF + flat + CRLF + (body + rest);
    assert Clean(first);
    HeadInverts(first, fields, body + rest);
    RequestLineInverts(verb, target, version);
  }

  lemma ReadHeadInverts(verb: string, target: string, version: string, fields: seq<Field>, body: string, rest: string)
    requires Word(verb) && Word(target) && Word(version) && CleanFields(fields)
    ensures var text := RequestText(verb, target, version, fields, body);
            var length := BodyLength(FieldMap(map[], fields));
            |text| >= |body| + 4
            && ReadHead(text + rest) ==
               if length.None? then None
               else
                 Some(Head(|text| - |body| - 4, Request(verb, StripQuery(target), version, FieldMap(map[], fields), ""),
                           length.value))
  {
    hide FindFrom;
    hide ParseHead;
    hide BodyLength;
    hide FieldMap;
    hide StripQuery;
    hide RequestText;
    HeadParses(verb, target, version, fields, body, rest);
  }

  // ------------------------------------------------------------ which field counts

  /** No field has this name, in lower case. */
  predicate Lacks(fields: seq<Field>, key: string) {
    forall i | 0 <= i < |fields| :: ToLower(fields[i].name) != key
  }

  lemma {:induction false} KeyStays(headers: map<string, string>, fields: seq<Field>, key: string)
    requires key in headers
    ensures key in FieldMap(headers, fields) && FieldMap(headers, fields)[key] == headers[key]
    decreases |fields|
  {
    hide ToLower;
    if fields != [] {
      var k := ToLower(fields[0].name);
      KeyStays(if k in headers then headers else headers[k := fields[0].value], fields[1..], key);
    }
  }

  /** Of the fields of one name the first counts, whatever stands before and behind it. */
  lemma {:induction false} FirstCounts(headers: map<string, string>, before: seq<Field>, f: Field, after: seq<Field>,
                                       key: string)
    requires Lacks(before, key) && key !in headers && ToLower(f.name) == key
    ensures key in FieldMap(headers, before + [f] + after)
    ensures FieldMap(headers, before + [f] + after)[key] == f.value
    decreases |before|
  {
    hide ToLower;
    var all := before + [f] + after;
    if before == [] {
      assert all[0] == f && all[1..] == after;
      KeyStays(headers[key := f.value], after, key);
    } else {
      assert all[0] == before[0] && all[1..] == before[1..] + [f] + after;
      var k := ToLower(before[0].name);
      assert k != key;
      FirstCounts(if k in headers then headers else headers[k := before[0].value], before[1..], f, after, key);
    }
  }

  lemma {:induction false} AbsentStays(headers: map<string, string>, fields: seq<Field>, key: string)
    requires Lacks(fields, key) && key !in headers
    ensures key !in FieldMap(headers, fields)
    decreases |fields|
  {
    hide ToLower;
    if fields != [] {
      var k := ToLower(fields[0].name);
      AbsentStays(if k in headers then headers else headers[k := fields[0].value], fields[1..], key);
    }
  }
}
