/**
 * Decimal numerals as Python reads and writes them: `str(n)`, `int(s)`,
 * the `08d` format and the literals `float(s)` accepts.
 */
module Decimal {
  import opened Wrappers
  import opened Text

  predicate IsDigit(c: char) {
    '0' <= c <= '9'
  }

  predicate AllDigits(s: string) {
    forall k :: 0 <= k < |s| ==> IsDigit(s[k])
  }

  function DigitValue(c: char): (d: nat)
    requires IsDigit(c)
    ensures d < 10
  {
    c as int - '0' as int
  }

  function DigitChar(d: nat): (c: char)
    requires d < 10
    ensures IsDigit(c) && DigitValue(c) == d
  {
    ('0' as int + d) as char
  }

  function Pow10(k: nat): (p: nat)
    ensures p >= 1
  {
    if k == 0 then 1 else 10 * Pow10(k - 1)
  }

  /** `str(n)` for a non-negative `n`: the shortest decimal numeral. */
  function Digits(n: nat): (r: string)
    ensures |r| >= 1 && AllDigits(r)
    ensures r[0] == '0' ==> n == 0
  {
    if n < 10 then [DigitChar(n)] else Digits(n / 10) + [DigitChar(n % 10)]
  }

  /** The number an all-digit string denotes (leading zeros allowed). */
  function ValueOf(s: string): nat
    requires AllDigits(s)
  {
    if s == [] then 0 else ValueOf(s[..|s| - 1]) * 10 + DigitValue(s[|s| - 1])
  }

  /** Reading back what `str` wrote gives the number. */
  lemma {:induction false} ValueOfDigits(n: nat)
    ensures ValueOf(Digits(n)) == n
  {
    if n >= 10 {
      ValueOfDigits(n / 10);
      var s := Digits(n);
      assert s[..|s| - 1] == Digits(n / 10);
    }
  }

  /** The numeral of a number below 10^k has at most k digits. */
  lemma {:induction false} DigitsLength(n: nat, k: nat)
    requires k >= 1 && n < Pow10(k)
    ensures |Digits(n)| <= k
  {
    if n >= 10 {
      DigitsLength(n / 10, k - 1);
    }
  }

  function Zeros(k: nat): (r: string)
    ensures |r| == k && AllDigits(r)
  {
    if k == 0 then [] else Zeros(k - 1) + ['0']
  }

  /** Leading zeros do not change the value of a numeral. */
  lemma {:induction false} ValueOfZerosPrefix(k: nat, s: string)
    requires AllDigits(s)
    ensures AllDigits(Zeros(k) + s) && ValueOf(Zeros(k) + s) == ValueOf(s)
  {
    var t := Zeros(k) + s;
    assert AllDigits(t);
    if s == [] {
      assert t == Zeros(k);
      ZerosValue(k);
    } else {
      assert t[..|t| - 1] == Zeros(k) + s[..|s| - 1];
      ValueOfZerosPrefix(k, s[..|s| - 1]);
    }
  }

  lemma {:induction false} ZerosValue(k: nat)
    ensures ValueOf(Zeros(k)) == 0
  {
    if k > 0 {
      ZerosValue(k - 1);
      assert Zeros(k)[..k - 1] == Zeros(k - 1);
    }
  }

  /** The `{n:08d}` format of a non-negative `n`: zero-filled to width 8, never cut. */
  function Format08d(n: nat): string
  {
    var s := Digits(n);
    if |s| >= 8 then s else Zeros(8 - |s|) + s
  }

  /** `08d` writes eight digits below 10^8 and reads back as the number, at every size. */
  lemma Format08dValue(n: nat)
    ensures AllDigits(Format08d(n)) && ValueOf(Format08d(n)) == n
    ensures n < Pow10(8) ==> |Format08d(n)| == 8
    ensures |Format08d(n)| >= 8
  {
    var s := Digits(n);
    ValueOfDigits(n);
    if |s| < 8 {
      ValueOfZerosPrefix(8 - |s|, s);
    }
    if n < Pow10(8) {
      DigitsLength(n, 8);
    }
  }

  /** `str(i)` for any integer: a minus sign before the digits of a negative number. */
  function IntText(i: int): string
  {
    if i < 0 then "-" + Digits(-i) else Digits(i)
  }

  /**
   * The white space `int()` and `float()` skip around a number. CPython first
   * turns every non-ASCII white-space character into a space and then skips
   * the C white space (tab to carriage return, space), so the ASCII separators
   * U+001C..U+001F, which `str.isspace()` holds of, are not skipped.
   */
  predicate IsNumberSpace(c: char) {
    IsSpace(c) && !('\U{1C}' <= c <= '\U{1F}')
  }

  /** The leading white space `int()` and `float()` skip, dropped. */
  function SkipLeading(s: string): (r: string)
    ensures |r| <= |s|
    ensures r == [] || !IsNumberSpace(r[0])
    ensures forall k :: 0 <= k < |s| - |r| ==> IsNumberSpace(s[k])
  {
    if s != [] && IsNumberSpace(s[0]) then SkipLeading(s[1..]) else s
  }

  /** What `SkipLeading` keeps is a suffix of its argument. */
  lemma {:induction false} SkipLeadingSuffix(s: string)
    ensures SkipLeading(s) == s[|s| - |SkipLeading(s)|..]
    decreases |s|
  {
    if s != [] && IsNumberSpace(s[0]) {
      SkipLeadingSuffix(s[1..]);
    }
  }

  /** The trailing white space `int()` and `float()` skip, dropped. */
  function SkipTrailing(s: string): (r: string)
    ensures |r| <= |s| && r == s[..|r|]
    ensures r == [] || !IsNumberSpace(r[|r| - 1])
    ensures forall k :: |r| <= k < |s| ==> IsNumberSpace(s[k])
  {
    if s != [] && IsNumberSpace(s[|s| - 1]) then SkipTrailing(s[..|s| - 1]) else s
  }

  /** The argument of `int()` without the white space around it. */
  function NumberCore(s: string): string {
    SkipLeading(SkipTrailing(s))
  }

  /** The core of a string lies within it. */
  lemma NumberCoreWithin(s: string)
    ensures forall c :: c in NumberCore(s) ==> c in s
  {
    var r := SkipTrailing(s);
    SkipLeadingSuffix(r);
    assert forall c :: c in r ==> c in s;
    assert forall c :: c in SkipLeading(r) ==> c in r;
  }

  /** A string that neither starts nor ends with white space is its own core. */
  lemma NumberCoreUnchanged(s: string)
    requires s == [] || (!IsNumberSpace(s[0]) && !IsNumberSpace(s[|s| - 1]))
    ensures NumberCore(s) == s
  {
  }

  /**
   * `int(s)` on a string: surrounding white space, an optional sign and at
   * least one decimal digit; `None` is the `ValueError` Python raises.
   */
  function ParseInt(s: string): Option<int>
  {
    var t := NumberCore(s);
    if |t| > 0 && (t[0] == '-' || t[0] == '+') then
      var body := t[1..];
      if |body| > 0 && AllDigits(body) then
        var v: int := ValueOf(body);
        Some(if t[0] == '-' then -v else v)
      else None
    else if |t| > 0 && AllDigits(t) then Some(ValueOf(t))
    else None
  }

  /** `int(str(i)) == i`. */
  lemma ParseIntText(i: int)
    ensures ParseInt(IntText(i)) == Some(i)
  {
    var s := IntText(i);
    if i < 0 {
      var d := Digits(-i);
      assert s == ['-'] + d;
      assert !IsNumberSpace(s[0]) && !IsNumberSpace(s[|s| - 1]) by {
        assert s[|s| - 1] == d[|d| - 1];
      }
      NumberCoreUnchanged(s);
      assert s[1..] == d;
      ValueOfDigits(-i);
    } else {
      var d := Digits(i);
      assert !IsNumberSpace(d[0]) && !IsNumberSpace(d[|d| - 1]);
      NumberCoreUnchanged(d);
      ValueOfDigits(i);
    }
  }

  /** A string with no digit at all is never an integer. */
  lemma ParseIntNeedsDigit(s: string)
    requires forall k :: 0 <= k < |s| ==> !IsDigit(s[k])
    ensures ParseInt(s) == None
  {
    NumberCoreWithin(s);
    var t := NumberCore(s);
    if |t| > 0 {
      assert t[0] in s;
      if |t| > 1 {
        assert t[1] in s;
      }
    }
  }

  function LowerAscii(c: char): char {
    if 'A' <= c <= 'Z' then (c as int - 'A' as int + 'a' as int) as char else c
  }

  /**
   * Where a scan of a `float()` argument stands: before the number, after the
   * sign, in the integer digits, just after a point (with or without digits
   * before it), in the fraction, in the exponent, inside one of the words
   * `inf`, `infinity`, `nan` (lower-cased so far), in the trailing white space,
   * or rejected.
   */
  datatype FloatState = Lead | Signed | Int | IntDot | Dot | Frac | Exp | ExpSign | ExpInt | Word(w: string) | Trail | Reject

  predicate IsSign(c: char) {
    c == '+' || c == '-'
  }

  predicate IsWordPrefix(w: string) {
    w <= "infinity" || w <= "nan"
  }

  predicate IsWord(w: string) {
    w == "inf" || w == "infinity" || w == "nan"
  }

  function NextFloatState(st: FloatState, c: char): FloatState {
    match st
    case Lead =>
      if IsNumberSpace(c) then Lead else if IsSign(c) then Signed
      else if IsDigit(c) then Int else if c == '.' then Dot
      else if IsWordPrefix([LowerAscii(c)]) then Word([LowerAscii(c)]) else Reject
    case Signed =>
      if IsDigit(c) then Int else if c == '.' then Dot
      else if IsWordPrefix([LowerAscii(c)]) then Word([LowerAscii(c)]) else Reject
    case Int =>
      if IsDigit(c) then Int else if c == '.' then IntDot
      else if c == 'e' || c == 'E' then Exp else if IsNumberSpace(c) then Trail else Reject
    case IntDot =>
      if IsDigit(c) then Frac else if c == 'e' || c == 'E' then Exp else if IsNumberSpace(c) then Trail else Reject
    case Dot =>
      if IsDigit(c) then Frac else Reject
    case Frac =>
      if IsDigit(c) then Frac else if c == 'e' || c == 'E' then Exp else if IsNumberSpace(c) then Trail else Reject
    case Exp =>
      if IsSign(c) then ExpSign else if IsDigit(c) then ExpInt else Reject
    case ExpSign =>
      if IsDigit(c) then ExpInt else Reject
    case ExpInt =>
      if IsDigit(c) then ExpInt else if IsNumberSpace(c) then Trail else Reject
    case Word(w) =>
      if IsWordPrefix(w + [LowerAscii(c)]) then Word(w + [LowerAscii(c)])
      else if IsNumberSpace(c) && IsWord(w) then Trail else Reject
    case Trail =>
      if IsNumberSpace(c) then Trail else Reject
    case Reject => Reject
  }

  function ScanFloat(s: string, st: FloatState): FloatState
    decreases |s|
  {
    if s == [] then st else ScanFloat(s[1..], NextFloatState(st, s[0]))
  }

  predicate IsAccepting(st: FloatState) {
    st.Int? || st.IntDot? || st.Frac? || st.ExpInt? || st.Trail? || (st.Word? && IsWord(st.w))
  }

  /**
   * The strings `float(s)` accepts: surrounding white space, an optional sign,
   * then `inf`, `infinity` or `nan` in any letter case, or a decimal mantissa
   * (digits with at most one point, at least one digit) with an optional
   * exponent.
   */
  predicate IsFloatLiteral(s: string) {
    IsAccepting(ScanFloat(s, Lead))
  }

  lemma {:induction false} ScanDigits(d: string)
    requires AllDigits(d)
    ensures ScanFloat(d, Int) == Int
  {
    if d != [] {
      ScanDigits(d[1..]);
    }
  }

  /** Every integer numeral is also a float literal. */
  lemma IntTextIsFloat(i: int)
    ensures IsFloatLiteral(IntText(i))
  {
    var d := if i < 0 then Digits(-i) else Digits(i);
    ScanDigits(d[1..]);
    if i < 0 {
      var s := IntText(i);
      assert s[1..] == d;
      assert ScanFloat(s, Lead) == ScanFloat(d, Signed);
    }
  }

  /** Scanning a concatenation scans the second part from where the first left off. */
  lemma {:induction false} ScanConcat(a: string, b: string, st: FloatState)
    ensures ScanFloat(a + b, st) == ScanFloat(b, ScanFloat(a, st))
    decreases |a|
  {
    if a == [] {
      assert a + b == b;
    } else {
      assert (a + b)[0] == a[0] && (a + b)[1..] == a[1..] + b;
      ScanConcat(a[1..], b, NextFloatState(st, a[0]));
    }
  }

  /** White space before the number and after it leaves the scan where it is. */
  lemma {:induction false} ScanSpaces(w: string, st: FloatState)
    requires st == Lead || st == Trail
    requires forall k :: 0 <= k < |w| ==> IsNumberSpace(w[k])
    ensures ScanFloat(w, st) == st
    decreases |w|
  {
    if w != [] {
      ScanSpaces(w[1..], st);
    }
  }

  /** A sign or none, then digits: the integer part of a literal. */
  lemma ScanSignedDigits(t: string)
    requires |t| > 0
    requires if t[0] == '-' || t[0] == '+' then |t| > 1 && AllDigits(t[1..]) else AllDigits(t)
    ensures ScanFloat(t, Lead) == Int
  {
    if t[0] == '-' || t[0] == '+' {
      assert t[1..][1..] == t[2..];
      ScanDigits(t[2..]);
    } else {
      ScanDigits(t[1..]);
    }
  }

  /** Every string `int()` accepts, `float()` accepts too. */
  lemma IntIsFloat(s: string)
    requires ParseInt(s).Some?
    ensures IsFloatLiteral(s)
  {
    ParseIntCore(s);
    var lead, tail := NumberCoreSplit(s);
    ScanSignedDigits(NumberCore(s));
    ScanAround(lead, NumberCore(s), tail);
  }

  /** What `int()` accepts is, inside the white space, a sign or none and then digits. */
  lemma ParseIntCore(s: string)
    requires ParseInt(s).Some?
    ensures var t := NumberCore(s);
            |t| > 0 && if t[0] == '-' || t[0] == '+' then |t| > 1 && AllDigits(t[1..]) else AllDigits(t)
  {
  }

  /** A string is its core with the skipped white space on either side. */
  lemma NumberCoreSplit(s: string) returns (lead: string, tail: string)
    ensures s == lead + NumberCore(s) + tail
    ensures forall k :: 0 <= k < |lead| ==> IsNumberSpace(lead[k])
    ensures forall k :: 0 <= k < |tail| ==> IsNumberSpace(tail[k])
  {
    tail := SkipTrailingSplit(s);
    lead := SkipLeadingSplit(SkipTrailing(s));
  }

  lemma SkipLeadingSplit(u: string) returns (lead: string)
    ensures u == lead + SkipLeading(u)
    ensures forall k :: 0 <= k < |lead| ==> IsNumberSpace(lead[k])
  {
    var t := SkipLeading(u);
    SkipLeadingSuffix(u);
    lead := u[..|u| - |t|];
    assert u == lead + t;
    forall k | 0 <= k < |lead| ensures IsNumberSpace(lead[k]) {
      assert lead[k] == u[k];
    }
  }

  lemma SkipTrailingSplit(s: string) returns (tail: string)
    ensures s == SkipTrailing(s) + tail
    ensures forall k :: 0 <= k < |tail| ==> IsNumberSpace(tail[k])
  {
    var u := SkipTrailing(s);
    tail := s[|u|..];
    assert s == u + tail;
    forall k | 0 <= k < |tail| ensures IsNumberSpace(tail[k]) {
      assert tail[k] == s[|u| + k];
    }
  }

  /** A literal scanned to its integer part stays accepted with white space around it. */
  lemma ScanAround(lead: string, t: string, tail: string)
    requires forall k :: 0 <= k < |lead| ==> IsNumberSpace(lead[k])
    requires forall k :: 0 <= k < |tail| ==> IsNumberSpace(tail[k])
    requires ScanFloat(t, Lead) == Int
    ensures IsFloatLiteral(lead + t + tail)
  {
    ScanConcat(lead, t, Lead);
    ScanSpaces(lead, Lead);
    assert ScanFloat(lead + t, Lead) == Int;
    ScanConcat(lead + t, tail, Lead);
    ScanTrailing(tail);
  }

  /** White space after the integer part ends the literal in an accepting state. */
  lemma ScanTrailing(tail: string)
    requires forall k :: 0 <= k < |tail| ==> IsNumberSpace(tail[k])
    ensures IsAccepting(ScanFloat(tail, Int))
  {
    if tail != [] {
      assert NextFloatState(Int, tail[0]) == Trail;
      ScanSpaces(tail[1..], Trail);
    }
  }

  /**
   * The separator U+001C is white space to `strip()` but not to `int()` or
   * `float()`; a non-ASCII space such as U+00A0 is skipped by all three.
   */
  lemma NumberSpaceExamples()
    ensures IsSpace('\U{1C}') && ParseInt("\U{1C}5") == None && !IsFloatLiteral("\U{1C}5")
    ensures ParseInt("\U{A0}5") == Some(5) && IsFloatLiteral("\U{A0}5")
  {
    assert NumberCore("\U{1C}5") == "\U{1C}5";
    assert SkipTrailing("\U{A0}5") == "\U{A0}5";
    assert "\U{A0}5"[1..] == "5";
    assert NumberCore("\U{A0}5") == "5";
    assert ValueOf("5") == 5 by {
      assert "5"[..0] == "";
    }
  }

  /** `float()` accepts `10.5` and `.5e-3`. */
  lemma FloatLiteralAccepts()
    ensures IsFloatLiteral("10.5")
    ensures IsFloatLiteral(".5e-3")
  {
    assert IsFloatLiteral("10.5");
  }

  /** `float()` accepts the words, in any letter case and with a sign. */
  lemma FloatLiteralWord()
    ensures IsFloatLiteral("-Infinity")
  {
    assert "-Infinity"[1..] == "Infinity" && "Infinity"[1..] == "nfinity";
    assert NextFloatState(Lead, '-') == Signed;
    assert NextFloatState(Signed, 'I') == Word("i");
    assert ScanFloat("-Infinity", Lead) == ScanFloat("nfinity", Word("i"));
    ScanInfinityTail();
  }

  /** After the `i`, the rest of `Infinity` completes the word. */
  lemma ScanInfinityTail()
    ensures ScanFloat("nfinity", Word("i")) == Word("infinity")
  {
    assert "i" + "nfinity" == "infinity";
    assert IsWordPrefix("infinity");
    ScanLowerWord("i", "nfinity");
  }

  /** Lower-case letters that keep the word a prefix of `infinity` or `nan` extend it. */
  lemma {:induction false} ScanLowerWord(w: string, t: string)
    requires IsWordPrefix(w + t)
    requires forall k :: 0 <= k < |t| ==> LowerAscii(t[k]) == t[k]
    ensures ScanFloat(t, Word(w)) == Word(w + t)
    decreases |t|
  {
    if t != [] {
      assert w + t == (w + [t[0]]) + t[1..];
      assert IsWordPrefix(w + [t[0]]) by {
        assert (w + [t[0]]) <= (w + t);
      }
      ScanLowerWord(w + [t[0]], t[1..]);
    }
  }

  /** `float()` rejects `.`, `e5` and `1.2.3`. */
  lemma FloatLiteralRejects()
    ensures !IsFloatLiteral(".")
    ensures !IsFloatLiteral("e5")
    ensures !IsFloatLiteral("1.2.3")
  {
    assert !IsFloatLiteral(".");
    assert !IsFloatLiteral("e5");
  }
}
