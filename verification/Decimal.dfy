/** Decimal text of integers: printing, reading back, strtoul, and the in-place converter of LogStream. */
module Decimal {
  import opened Basics
  import opened Text

  function DigitChar(d: nat): (c: char)
    requires d < 10
    ensures IsDigit(c) && DigitValue(c) == d
  {
    '0' + d as char
  }

  predicate IsDigit(c: char) { '0' <= c <= '9' }

  function DigitValue(c: char): nat
    requires IsDigit(c)
  {
    c as int - '0' as int
  }

  predicate AllDigits(s: string) { forall i | 0 <= i < |s| :: IsDigit(s[i]) }

  /** std::to_string of a natural number. */
  function NatText(n: nat): (s: string)
    ensures s != "" && AllDigits(s)
  {
    if n < 10 then [DigitChar(n)] else NatText(n / 10) + [DigitChar(n % 10)]
  }

  function IntText(v: int): string {
    if v < 0 then "-" + NatText(-v) else NatText(v)
  }

  /** The value of a string of digits. */
  function ReadNat(s: string): nat
    requires AllDigits(s)
  {
    if s == "" then 0 else 10 * ReadNat(s[..|s| - 1]) + DigitValue(s[|s| - 1])
  }

  function ReadInt(s: string): Option<int> {
    if s != "" && AllDigits(s) then Some(ReadNat(s))
    else if |s| > 1 && s[0] == '-' && AllDigits(s[1..]) then Some(-(ReadNat(s[1..]) as int))
    else None
  }

  function Pow10(k: nat): (r: nat)
    ensures r >= 1
  {
    if k == 0 then 1 else 10 * Pow10(k - 1)
  }

  /** The text reads back as the number, and only zero starts with a zero digit. */
  lemma {:induction false} NatTextReads(n: nat)
    ensures ReadNat(NatText(n)) == n
    ensures n > 0 ==> NatText(n)[0] != '0'
  {
    if n >= 10 {
      NatTextReads(n / 10);
      assert NatText(n)[..|NatText(n)| - 1] == NatText(n / 10);
    }
  }

  /** Canonical decimal text: it reads back as the value, without leading zeros. */
  lemma IntTextReads(v: int)
    ensures ReadInt(IntText(v)) == Some(v)
    ensures v != 0 ==> IntText(v)[if v < 0 then 1 else 0] != '0'
    ensures v == 0 ==> IntText(v) == "0"
  {
    NatTextReads(if v < 0 then -v else v);
    if v < 0 {
      assert IntText(v)[0] == '-' && IntText(v)[1..] == NatText(-v);
      assert !AllDigits(IntText(v));
    }
  }

  lemma {:induction false} NatTextLength(n: nat, k: nat)
    requires k >= 1 && n < Pow10(k)
    ensures |NatText(n)| <= k
  {
    if n >= 10 {
      assert k > 1 by { assert Pow10(1) == 10; }
      NatTextLength(n / 10, k - 1);
    }
  }

  lemma {:induction false} NatTextLengthAtLeast(n: nat, k: nat)
    requires n >= Pow10(k)
    ensures |NatText(n)| > k
  {
    if k > 0 { NatTextLengthAtLeast(n / 10, k - 1); }
  }

  lemma Pow10Of20()
    ensures Pow10(19) == 1000_0000_0000_0000_0000 && Pow10(20) == 1_0000_0000_0000_0000_0000
  {
    assert Pow10(4) == 10000;
    assert Pow10(8) == 10000_0000;
    assert Pow10(12) == 10000_0000_0000;
    assert Pow10(16) == 10000_0000_0000_0000;
  }

  /** Every signed or unsigned 64-bit value fits in twenty characters. */
  lemma IntTextFits(v: int)
    requires -0x8000_0000_0000_0000 <= v < WORD
    ensures |IntText(v)| <= 20
  {
    Pow10Of20();
    NatTextLength(if v < 0 then -v else v, if v < 0 then 19 else 20);
  }

  // ------------------------------------------------------------------ strtoul

  function DigitsFrom(s: string, i: nat): (e: nat)
    requires i <= |s|
    ensures i <= e <= |s| && AllDigits(s[i..e]) && (e < |s| ==> !IsDigit(s[e]))
    decreases |s| - i
  {
    if i < |s| && IsDigit(s[i]) then
      var e := DigitsFrom(s, i + 1);
      assert s[i..e] == [s[i]] + s[i + 1..e];
      e
    else i
  }

  /**
   std::stoul in base ten on a 64-bit unsigned long: leading white space, an optional
   sign, at least one digit, anything behind.  A minus sign negates modulo 2^64.  None
   stands for the exceptions.
   */
  function Stoul(s: string): (r: Option<nat>)
    ensures r.Some? ==> r.value < WORD
  {
    var b := SpacesBefore(s, 0);
    var signed := b < |s| && (s[b] == '-' || s[b] == '+');
    var i := if signed then b + 1 else b;
    var e := DigitsFrom(s, i);
    if i == e || ReadNat(s[i..e]) >= WORD then None
    else if signed && s[b] == '-' then Some((WORD - ReadNat(s[i..e])) % WORD)
    else Some(ReadNat(s[i..e]))
  }

  /** The decimal text of a size reads back as that size. */
  lemma StoulReads(n: nat)
    requires n < WORD
    ensures Stoul(NatText(n)) == Some(n)
  {
    var s := NatText(n);
    NatTextReads(n);
    assert IsDigit(s[0]);
    assert SpacesBefore(s, 0) == 0;
    assert DigitsFrom(s, 0) == |s|;
    assert s[0..|s|] == s;
  }

  lemma DigitsAre(d: nat)
    requires d < 10
    ensures IsDigit("0123456789"[d]) && DigitValue("0123456789"[d]) == d
    ensures forall c | IsDigit(c) :: c in "0123456789"
  {
    forall c | IsDigit(c) ensures c in "0123456789" { assert "0123456789"[c as int - '0' as int] == c; }
  }

  /** What stands behind the digits: nothing, or something that is no digit. */
  predicate NoDigit(tail: string) { tail == "" || !IsDigit(tail[0]) }

  lemma {:induction false} DigitsEnd(s: string, i: nat, m: nat)
    requires i <= m <= |s| && (forall k | i <= k < m :: IsDigit(s[k])) && (m < |s| ==> !IsDigit(s[m]))
    ensures DigitsFrom(s, i) == m
    decreases m - i
  {
    hide IsDigit;
    if i < m { DigitsEnd(s, i + 1, m); }
  }

  lemma {:induction false} SpacesEnd(s: string, i: nat, m: nat)
    requires i <= m <= |s| && (forall k | i <= k < m :: IsSpace(s[k])) && (m < |s| ==> !IsSpace(s[m]))
    ensures SpacesBefore(s, i) == m
    decreases m - i
  {
    hide IsSpace;
    if i < m { SpacesEnd(s, i + 1, m); }
  }

  predicate IsSign(s: string) { s == "" || s == "+" || s == "-" }

  /** Where the scans of strtoul stop on a text cut into its parts. */
  lemma StoulParts(blanks: string, sign: string, digits: string, tail: string)
    requires AllSpace(blanks) && IsSign(sign) && AllDigits(digits) && NoDigit(tail)
    requires sign == "" && digits == "" && tail != "" ==> !IsSpace(tail[0])
    ensures var s := blanks + sign + digits + tail; var i := |blanks| + |sign|;
            && SpacesBefore(s, 0) == |blanks| && DigitsFrom(s, i) == i + |digits| && s[i..i + |digits|] == digits
            && s[|blanks|..i] == sign
            && (sign == "" && |blanks| < |s| ==> s[|blanks|] == (digits + tail)[0])
  {
    hide DigitsFrom;
    hide SpacesBefore;
    var s, i := blanks + sign + digits + tail, |blanks| + |sign|;
    assert forall k | 0 <= k < |blanks| :: s[k] == blanks[k];
    assert forall k | i <= k < i + |digits| :: s[k] == digits[k - i];
    assert i + |digits| < |s| ==> s[i + |digits|] == tail[0];
    if sign != "" { assert s[|blanks|] == sign[0]; }
    else if digits != "" { assert s[|blanks|] == digits[0] && IsDigit(digits[0]); }
    SpacesEnd(s, 0, |blanks|);
    DigitsEnd(s, i, i + |digits|);
  }

  /**
   strtoul on a text cut into white space, sign, digits and what stands behind: the digits
   are read, anything from 2^64 on is an exception, and a minus sign negates modulo 2^64.
   */
  lemma StoulReadsParts(blanks: string, sign: string, digits: string, tail: string)
    requires AllSpace(blanks) && IsSign(sign) && digits != "" && AllDigits(digits) && NoDigit(tail)
    ensures var n := ReadNat(digits);
            Stoul(blanks + sign + digits + tail) ==
            if n >= 0x1_0000_0000_0000_0000 then None
            else if sign == "-" && n > 0 then Some(0x1_0000_0000_0000_0000 - n)
            else Some(n)
  {
    hide ReadNat;
    hide DigitsFrom;
    hide SpacesBefore;
    hide AllSpace;
    StoulParts(blanks, sign, digits, tail);
    assert IsDigit(digits[0]);
    SignIs(blanks + sign + digits + tail, |blanks|, sign);
  }

  /** Without a digit behind white space and sign there is no number. */
  lemma StoulNeedsDigit(blanks: string, sign: string, tail: string)
    requires AllSpace(blanks) && IsSign(sign) && NoDigit(tail)
    requires sign == "" && tail != "" ==> !IsSpace(tail[0]) && tail[0] != '+' && tail[0] != '-'
    ensures Stoul(blanks + sign + tail) == None
  {
    hide ReadNat;
    hide DigitsFrom;
    hide SpacesBefore;
    hide AllSpace;
    StoulParts(blanks, sign, "", tail);
    assert blanks + sign + "" + tail == blanks + sign + tail;
    SignIs(blanks + sign + tail, |blanks|, sign);
  }

  lemma SignIs(s: string, b: nat, sign: string)
    requires b + |sign| <= |s| && s[b..b + |sign|] == sign && IsSign(sign)
    ensures sign != "" ==> s[b] == sign[0] && (sign[0] == '-' <==> sign == "-") && (sign[0] == '+' <==> sign == "+")
    ensures |sign| <= 1
  {
    if sign != "" { assert s[b] == s[b..b + |sign|][0]; }
  }

  // ---------------------------------------------------------------- convert

  /** Division and remainder truncate toward zero. */
  function Quotient(a: int, b: int): int
    requires b > 0
  {
    if a >= 0 then a / b else -((-a) / b)
  }

  function Modulo(a: int, b: int): int
    requires b > 0
  {
    a - b * Quotient(a, b)
  }

  const DIGITS := "9876543210123456789"
  const ZERO := 9

  function Abs(v: int): nat { if v < 0 then -v else v }

  /**
   One round of the loop: zero[lsd] looks the last digit up in a mirrored table, so a
   negative digit finds its absolute value, and the quotient keeps the other digits.
   */
  lemma LastDigit(i: int)
    ensures -9 <= Modulo(i, 10) <= 9
    ensures (Quotient(i, 10) < 0 ==> i < 0) && (Quotient(i, 10) > 0 ==> i > 0)
    ensures Quotient(i, 10) == 0 || Abs(Quotient(i, 10)) < Abs(i)
    ensures NatText(Abs(i)) ==
            (if Quotient(i, 10) == 0 then "" else NatText(Abs(Quotient(i, 10)))) + [DIGITS[ZERO + Modulo(i, 10)]]
  {
    assert Abs(Modulo(i, 10)) == Abs(i) % 10 && Abs(Quotient(i, 10)) == Abs(i) / 10;
    MirroredTable(Modulo(i, 10));
  }

  lemma MirroredTable(lsd: int)
    requires -9 <= lsd <= 9
    ensures DIGITS[ZERO + lsd] == DigitChar(Abs(lsd))
  {
  }

  function Reverse(s: string): (r: string)
    ensures |r| == |s|
    ensures forall i | 0 <= i < |s| :: r[i] == s[|s| - 1 - i]
  {
    if s == "" then "" else Reverse(s[1..]) + [s[0]]
  }

  lemma ReverseSnoc(s: string, c: char)
    ensures Reverse(s + [c]) == [c] + Reverse(s)
  {
  }

  lemma ReversedSlice(now: string, was: string, lo: nat, hi: nat)
    requires lo <= hi <= |now| == |was| && forall k | lo <= k < hi :: now[k] == was[lo + hi - 1 - k]
    ensures now[lo..hi] == Reverse(was[lo..hi])
  {
    forall k | 0 <= k < hi - lo ensures now[lo..hi][k] == Reverse(was[lo..hi])[k] {
      assert now[lo + k] == was[lo + hi - 1 - (lo + k)];
    }
  }

  /** std::reverse on buf[lo..hi]. */
  method ReverseInPlace(buf: array<char>, lo: nat, hi: nat)
    requires lo <= hi <= buf.Length
    modifies buf
    ensures buf[lo..hi] == Reverse(old(buf[lo..hi]))
    ensures forall k | 0 <= k < lo || hi <= k < buf.Length :: buf[k] == old(buf[k])
  {
    ghost var was, sum := buf[..], lo + hi - 1;
    var i, j := lo, hi;
    while i < j
      invariant lo <= i <= hi && i + j == lo + hi && i <= j + 1
      invariant forall k | lo <= k < i :: buf[k] == was[sum - k]
      invariant forall k | j <= k < hi :: buf[k] == was[sum - k]
      invariant forall k | i <= k < j :: buf[k] == was[k]
      invariant forall k | 0 <= k < lo || hi <= k < buf.Length :: buf[k] == was[k]
    {
      j := j - 1;
      if i < j { buf[i], buf[j] := buf[j], buf[i]; }
      i := i + 1;
    }
    assert forall k | lo <= k < hi :: buf[k] == was[sum - k];
    ReversedSlice(buf[..], was, lo, hi);
  }

  /**
   Writes the decimal text of a 64-bit value behind start, least significant digit first,
   reverses it in place, and ends it with a zero byte that is not counted.
   */
  method Convert(buf: array<char>, start: nat, value: int) returns (len: nat)
    requires -0x8000_0000_0000_0000 <= value < WORD && start + 21 <= buf.Length
    modifies buf
    ensures len <= 20 && buf[start..start + len] == IntText(value) && buf[start + len] == '\0'
    ensures forall k | 0 <= k < start || start + len < k < buf.Length :: buf[k] == old(buf[k])
  {
    hide *;
    var p := Digits(buf, start, value);
    p := Sign(buf, start, p, value);
    Finish(buf, start, p);
    len := p - start;
  }

  /** Ends the text with a zero byte and turns it around. */
  method Finish(buf: array<char>, start: nat, p: nat)
    requires start <= p < buf.Length
    modifies buf
    ensures buf[start..p] == Reverse(old(buf[start..p])) && buf[p] == '\0'
    ensures forall k | 0 <= k < start || p < k < buf.Length :: buf[k] == old(buf[k])
  {
    buf[p] := '\0';
    assert buf[start..p] == old(buf[start..p]);
    ReverseInPlace(buf, start, p);
  }

  method Sign(buf: array<char>, start: nat, end: nat, value: int) returns (p: nat)
    requires start <= end < buf.Length && Reverse(buf[start..end]) == NatText(Abs(value))
    modifies buf
    ensures p == end + (if value < 0 then 1 else 0) && Reverse(buf[start..p]) == IntText(value)
    ensures forall k | 0 <= k < buf.Length && k != end :: buf[k] == old(buf[k])
  {
    p := end;
    if value < 0 {
      ReverseSnoc(buf[start..p], '-');
      buf[p] := '-';
      assert buf[start..p + 1] == old(buf[start..p]) + ['-'];
      p := p + 1;
    }
  }

  lemma TextSize(value: int)
    requires -0x8000_0000_0000_0000 <= value < WORD
    ensures |NatText(Abs(value))| + (if value < 0 then 1 else 0) == |IntText(value)| <= 20
    ensures Abs(value) == (if value < 0 then -value else value) && Reverse("") == ""
  {
    IntTextFits(value);
  }

  /** The loop of convert: the digits of the value, backwards. */
  method Digits(buf: array<char>, start: nat, value: int) returns (p: nat)
    requires -0x8000_0000_0000_0000 <= value < WORD && start + 21 <= buf.Length
    modifies buf
    ensures start <= p && p - start + (if value < 0 then 1 else 0) == |IntText(value)| <= 20
    ensures Reverse(buf[start..p]) == NatText(Abs(value))
    ensures forall k | 0 <= k < start || p <= k < buf.Length :: buf[k] == old(buf[k])
  {
    hide NatText;
    hide IntText;
    hide Reverse;
    hide Modulo;
    hide Quotient;
    hide Abs;
    TextSize(value);
    var i := value;
    p := start;
    ghost var written := "";
    while true
      invariant start <= p < start + |NatText(Abs(value))| && buf[start..p] == written
      invariant NatText(Abs(value)) == NatText(Abs(i)) + Reverse(written)
      invariant forall k | 0 <= k < start || p <= k < buf.Length :: buf[k] == old(buf[k])
      decreases Abs(i)
    {
      LastDigit(i);
      var c := DIGITS[ZERO + Modulo(i, 10)];
      ReverseSnoc(written, c);
      i := Quotient(i, 10);
      buf[p] := c;
      assert buf[start..p + 1] == written + [c];
      written := written + [c];
      p := p + 1;
      if i == 0 { break; }
    }
  }
}
