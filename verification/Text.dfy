/**
 Searching, trimming and case folding of byte strings.  A char stands for one byte; the
 character classes are those of the C locale.
 */
module Text {
  import opened Basics

  const CRLF := "\r\n"
  const BLANK_LINE := "\r\n\r\n"

  // ---------------------------------------------------------------- searching

  /** The pattern stands at position k. */
  predicate At(s: string, pat: string, k: nat) {
    k + |pat| <= |s| && s[k..k + |pat|] == pat
  }

  /** std::string::find: the first occurrence at or after i. */
  function FindFrom(s: string, pat: string, i: nat): (r: Option<nat>)
    ensures r.Some? ==> i <= r.value <= r.value + |pat| <= |s| && At(s, pat, r.value)
    ensures r.Some? ==> forall j | i <= j < r.value :: !At(s, pat, j)
    ensures r.None? ==> forall j | i <= j :: !At(s, pat, j)
    decreases |s| - i
  {
    if i + |pat| > |s| then None
    else if At(s, pat, i) then Some(i)
    else FindFrom(s, pat, i + 1)
  }

  lemma FindIs(s: string, pat: string, i: nat, k: nat)
    requires i <= k && At(s, pat, k) && forall j: nat | i <= j < k :: !At(s, pat, j)
    ensures FindFrom(s, pat, i) == Some(k)
  {
  }

  lemma AtChars(s: string, pat: string, k: nat)
    ensures At(s, pat, k) ==> forall i | 0 <= i < |pat| :: s[k + i] == pat[i]
  {
    if At(s, pat, k) {
      forall i | 0 <= i < |pat| ensures s[k + i] == pat[i] { assert s[k..k + |pat|][i] == s[k + i]; }
    }
  }

  /** What has been found stays found when bytes are appended. */
  lemma FindExtends(s: string, x: string, pat: string, i: nat)
    requires FindFrom(s, pat, i).Some?
    ensures FindFrom(s + x, pat, i) == FindFrom(s, pat, i)
  {
    var k := FindFrom(s, pat, i).value;
    assert (s + x)[k..k + |pat|] == s[k..k + |pat|];
    forall j: nat | i <= j < k ensures !At(s + x, pat, j) {
      assert !At(s, pat, j) && (s + x)[j..j + |pat|] == s[j..j + |pat|];
    }
    FindIs(s + x, pat, i, k);
  }

  /** Cutting the string behind an occurrence does not move it. */
  lemma FindInPrefix(s: string, m: nat, pat: string, i: nat)
    requires m <= |s| && FindFrom(s, pat, i).Some? && FindFrom(s, pat, i).value + |pat| <= m
    ensures FindFrom(s[..m], pat, i) == FindFrom(s, pat, i)
  {
    var k := FindFrom(s, pat, i).value;
    assert s[..m][k..k + |pat|] == s[k..k + |pat|];
    forall j: nat | i <= j < k ensures !At(s[..m], pat, j) {
      assert !At(s, pat, j);
      if j + |pat| <= m { assert s[..m][j..j + |pat|] == s[j..j + |pat|]; }
    }
    FindIs(s[..m], pat, i, k);
  }

  lemma AtShifts(p: string, t: string, pat: string, j: nat)
    ensures At(p + t, pat, |p| + j) == At(t, pat, j)
  {
    if j + |pat| <= |t| { assert (p + t)[|p| + j..|p| + j + |pat|] == t[j..j + |pat|]; }
  }

  function Shift(r: Option<nat>, n: nat): Option<nat> {
    if r.Some? then Some(r.value + n) else None
  }

  /** Searching from |p| in p + t is searching t. */
  lemma {:induction false} FindShifts(p: string, t: string, pat: string, i: nat)
    ensures FindFrom(p + t, pat, |p| + i) == Shift(FindFrom(t, pat, i), |p|)
    decreases |t| - i
  {
    assert |p + t| == |p| + |t|;
    AtShifts(p, t, pat, i);
    if i + |pat| <= |t| && !At(t, pat, i) { FindShifts(p, t, pat, i + 1); }
  }

  lemma FindSkips(s: string, pat: string, i: nat, j: nat)
    requires i <= j && forall k | i <= k < j :: !At(s, pat, k)
    ensures FindFrom(s, pat, i) == FindFrom(s, pat, j)
  {
  }

  // -------------------------------------------------------- classes and cases

  predicate IsSpace(c: char) { c == ' ' || '\t' <= c <= '\r' }

  predicate AllSpace(s: string) { forall i | 0 <= i < |s| :: IsSpace(s[i]) }

  /** No white space at either end. */
  predicate Trimmed(s: string) { s == "" || (!IsSpace(s[0]) && !IsSpace(s[|s| - 1])) }

  function LowerChar(c: char): char {
    if 'A' <= c <= 'Z' then c - 'A' + 'a' else c
  }

  function ToLower(s: string): (r: string)
    ensures |r| == |s| && forall i | 0 <= i < |s| :: r[i] == LowerChar(s[i])
  {
    seq(|s|, i requires 0 <= i < |s| => LowerChar(s[i]))
  }

  lemma LowerIs(s: string, t: string)
    requires |s| == |t| && forall i | 0 <= i < |s| :: t[i] == LowerChar(s[i])
    ensures ToLower(s) == t
  {
  }

  function SpacesBefore(s: string, i: nat): (b: nat)
    requires i <= |s|
    ensures i <= b <= |s| && (forall j | i <= j < b :: IsSpace(s[j])) && (b < |s| ==> !IsSpace(s[b]))
    decreases |s| - i
  {
    if i < |s| && IsSpace(s[i]) then SpacesBefore(s, i + 1) else i
  }

  function SpacesAfter(s: string, b: nat, e: nat): (r: nat)
    requires b <= e <= |s|
    ensures b <= r <= e && (forall j | r <= j < e :: IsSpace(s[j])) && (b < r ==> !IsSpace(s[r - 1]))
    decreases e
  {
    if e > b && IsSpace(s[e - 1]) then SpacesAfter(s, b, e - 1) else e
  }

  function Trim(s: string): (r: string)
  {
    var b := SpacesBefore(s, 0);
    s[b..SpacesAfter(s, b, |s|)]
  }

  /** Trimming undoes padding with white space, and only that. */
  lemma TrimPadded(l: string, v: string, r: string)
    requires AllSpace(l) && AllSpace(r) && Trimmed(v)
    ensures Trim(l + v + r) == v
  {
    var s, m := l + v + r, |l| + |v|;
    assert forall i | 0 <= i < |l| :: s[i] == l[i];
    assert forall i | m <= i < |s| :: s[i] == r[i - m];
    assert s[|l|..m] == v;
    if v != "" {
      assert s[|l|] == v[0] && s[m - 1] == v[|v| - 1];
      assert SpacesBefore(s, 0) == |l|;
      assert SpacesAfter(s, |l|, |s|) == m;
    }
  }

  /** The trimmed string stands in the original between white space, and is trimmed. */
  lemma TrimMeaning(s: string)
    ensures Trimmed(Trim(s))
    ensures exists l, r :: AllSpace(l) && AllSpace(r) && s == l + Trim(s) + r
  {
    var b := SpacesBefore(s, 0);
    var e := SpacesAfter(s, b, |s|);
    hide SpacesBefore;
    hide SpacesAfter;
    CutAtSpaces(s, b, e);
    assert AllSpace(s[..b]) && AllSpace(s[e..]) && s == s[..b] + s[b..e] + s[e..];
  }

  lemma CutAtSpaces(s: string, b: nat, e: nat)
    requires b <= e <= |s| && (forall j | 0 <= j < b :: IsSpace(s[j])) && (forall j | e <= j < |s| :: IsSpace(s[j]))
    requires b < e ==> !IsSpace(s[b]) && !IsSpace(s[e - 1])
    ensures Trimmed(s[b..e]) && AllSpace(s[..b]) && AllSpace(s[e..]) && s == s[..b] + s[b..e] + s[e..]
  {
    hide IsSpace;
  }

  const BLANKS := " \t\n\U{0B}\U{0C}\r"

  /** The six blanks of the C locale around a text that neither starts nor ends with one are what trim removes. */
  lemma TrimStrips(l: string, v: string, r: string)
    requires forall i | 0 <= i < |l| :: l[i] in BLANKS
    requires forall i | 0 <= i < |r| :: r[i] in BLANKS
    requires v == "" || (v[0] !in BLANKS && v[|v| - 1] !in BLANKS)
    ensures Trim(l + v + r) == v
  {
    assert BLANKS[0] == ' ' && BLANKS[1] == '\t' && BLANKS[2] == '\n' && BLANKS[5] == '\r';
    assert BLANKS[3] == '\U{0B}' && BLANKS[4] == '\U{0C}';
    hide Trim;
    TrimPadded(l, v, r);
  }

  const UPPER := "ABCDEFGHIJKLMNOPQRSTUVWXYZ"
  const LOWER := "abcdefghijklmnopqrstuvwxyz"

  /** Letters go to the lower-case letter at the same place of the alphabet; all else stays. */
  lemma LowersLetters(s: string, i: nat)
    requires i < |s|
    ensures forall k | 0 <= k < 26 && s[i] == UPPER[k] :: ToLower(s)[i] == LOWER[k]
    ensures s[i] !in UPPER ==> ToLower(s)[i] == s[i]
  {
    if 'A' <= s[i] <= 'Z' { assert UPPER[s[i] as int - 'A' as int] == s[i]; }
  }

  /** trim: two indices move inwards over white space. */
  method TrimLoop(input: string) returns (r: string)
    ensures r == Trim(input)
  {
    var begin := 0;
    while begin < |input| && IsSpace(input[begin])
      invariant begin <= |input| && SpacesBefore(input, begin) == SpacesBefore(input, 0)
    {
      begin := begin + 1;
    }
    var end := |input|;
    while end > begin && IsSpace(input[end - 1])
      invariant begin <= end <= |input| && SpacesAfter(input, begin, end) == SpacesAfter(input, begin, |input|)
    {
      end := end - 1;
    }
    r := input[begin..end];
  }
}
