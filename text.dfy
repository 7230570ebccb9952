/**
 * The parts of Python's `str` that the loader relies on: `strip()` and
 * `split(",")`, on code points.
 */
module Text {

  /**
   * The characters `str.isspace()` holds of, which `strip()` removes: tab to
   * carriage return, the four ASCII separators, space, next line, no-break
   * space and the Unicode space separators.
   */
  predicate IsSpace(c: char) {
    || '\t' <= c <= '\r' || '\U{1C}' <= c <= ' ' || c == '\U{85}' || c == '\U{A0}' || c == '\U{1680}'
    || '\U{2000}' <= c <= '\U{200A}' || c == '\U{2028}' || c == '\U{2029}' || c == '\U{202F}' || c == '\U{205F}'
    || c == '\U{3000}'
  }

  /** `s.lstrip()`: drops the leading white space and nothing else. */
  function TrimLeft(s: string): (r: string)
    ensures |r| <= |s|
    ensures r == [] || !IsSpace(r[0])
    ensures forall k :: 0 <= k < |s| - |r| ==> IsSpace(s[k])
  {
    if s != [] && IsSpace(s[0]) then TrimLeft(s[1..]) else s
  }

  /** What `lstrip()` keeps is a suffix of its argument. */
  lemma {:induction false} TrimLeftSuffix(s: string)
    ensures TrimLeft(s) == s[|s| - |TrimLeft(s)|..]
    decreases |s|
  {
    if s != [] && IsSpace(s[0]) {
      TrimLeftSuffix(s[1..]);
    }
  }

  /** `s.rstrip()`: drops the trailing white space and nothing else. */
  function TrimRight(s: string): (r: string)
    ensures |r| <= |s| && r == s[..|r|]
    ensures r == [] || !IsSpace(r[|r| - 1])
    ensures forall k :: |r| <= k < |s| ==> IsSpace(s[k])
  {
    if s != [] && IsSpace(s[|s| - 1]) then TrimRight(s[..|s| - 1]) else s
  }

  /** `s.strip()`. */
  function Strip(s: string): (r: string)
  {
    TrimLeft(TrimRight(s))
  }

  /** Stripping only removes characters. */
  lemma StripWithin(s: string)
    ensures forall c :: c in Strip(s) ==> c in s
  {
    var r := TrimRight(s);
    TrimLeftSuffix(r);
    assert forall c :: c in r ==> c in s;
    assert forall c :: c in TrimLeft(r) ==> c in r;
  }

  /** A string that neither starts nor ends with white space is its own strip. */
  lemma StripUnchanged(s: string)
    requires s == [] || (!IsSpace(s[0]) && !IsSpace(s[|s| - 1]))
    ensures Strip(s) == s
  {
  }

  /** `sep.join(parts)` for a one-character separator. */
  function JoinWith(parts: seq<string>, sep: char): string
    requires |parts| >= 1
  {
    if |parts| == 1 then parts[0] else parts[0] + [sep] + JoinWith(parts[1..], sep)
  }

  /** Joining one more part on the right. */
  lemma {:induction false} JoinWithSnoc(init: seq<string>, last: string, sep: char)
    requires |init| >= 1
    ensures JoinWith(init + [last], sep) == JoinWith(init, sep) + [sep] + last
    decreases |init|
  {
    if |init| > 1 {
      assert (init + [last])[1..] == init[1..] + [last];
      JoinWithSnoc(init[1..], last, sep);
    } else {
      assert (init + [last])[1..] == [last];
    }
  }

  /** `lstrip()` stops at the first character that is not white space. */
  lemma {:induction false} TrimLeftConcat(a: string, b: string)
    requires b == [] || !IsSpace(b[0])
    ensures TrimLeft(a + b) == TrimLeft(a) + b
    decreases |a|
  {
    if a == [] {
      assert a + b == b;
    } else if IsSpace(a[0]) {
      assert (a + b)[1..] == a[1..] + b;
      TrimLeftConcat(a[1..], b);
    }
  }

  /** `rstrip()` stops at the last character that is not white space. */
  lemma {:induction false} TrimRightConcat(a: string, b: string)
    requires a == [] || !IsSpace(a[|a| - 1])
    ensures TrimRight(a + b) == a + TrimRight(b)
    decreases |b|
  {
    if b == [] {
      assert a + b == a;
    } else if IsSpace(b[|b| - 1]) {
      assert (a + b)[..|a + b| - 1] == a + b[..|b| - 1];
      TrimRightConcat(a, b[..|b| - 1]);
    }
  }

  /**
   * The parts of a joined line after `strip()`: white space leaves only the
   * start of the first part and the end of the last, since the separator is
   * not white space.
   */
  function StrippedParts(parts: seq<string>): (r: seq<string>)
    requires |parts| >= 1
    ensures |r| == |parts|
  {
    if |parts| == 1 then [Strip(parts[0])]
    else [TrimLeft(parts[0])] + parts[1..|parts| - 1] + [TrimRight(parts[|parts| - 1])]
  }

  /** Stripping a joined line strips only its outer parts. */
  lemma StripJoin(parts: seq<string>, sep: char)
    requires |parts| >= 2 && !IsSpace(sep)
    ensures Strip(JoinWith(parts, sep)) == JoinWith(StrippedParts(parts), sep)
  {
    var n := |parts|;
    var q := parts[..n - 1] + [TrimRight(parts[n - 1])];
    TrimRightJoin(parts, sep);
    TrimLeftJoin(q, sep);
    assert ([TrimLeft(q[0])] + q[1..]) == StrippedParts(parts);
  }

  /** `rstrip()` of a joined line strips only its last part. */
  lemma TrimRightJoin(parts: seq<string>, sep: char)
    requires |parts| >= 2 && !IsSpace(sep)
    ensures TrimRight(JoinWith(parts, sep)) == JoinWith(parts[..|parts| - 1] + [TrimRight(parts[|parts| - 1])], sep)
  {
    var n := |parts|;
    var init, last := parts[..n - 1], parts[n - 1];
    assert parts == init + [last];
    JoinWithSnoc(init, last, sep);
    assert JoinWith(parts, sep) == (JoinWith(init, sep) + [sep]) + last;
    TrimRightConcat(JoinWith(init, sep) + [sep], last);
    JoinWithSnoc(init, TrimRight(last), sep);
  }

  /** `lstrip()` of a joined line strips only its first part. */
  lemma TrimLeftJoin(parts: seq<string>, sep: char)
    requires |parts| >= 2 && !IsSpace(sep)
    ensures TrimLeft(JoinWith(parts, sep)) == JoinWith([TrimLeft(parts[0])] + parts[1..], sep)
  {
    var tail := [sep] + JoinWith(parts[1..], sep);
    assert JoinWith(parts, sep) == parts[0] + tail;
    TrimLeftConcat(parts[0], tail);
    var p := [TrimLeft(parts[0])] + parts[1..];
    assert p[0] == TrimLeft(parts[0]) && p[1..] == parts[1..];
  }

  /** `line.strip().split(sep)` has one piece per part of the joined line, only the outer two stripped. */
  lemma SplitStripJoin(parts: seq<string>, sep: char)
    requires |parts| >= 1 && !IsSpace(sep)
    requires forall k :: 0 <= k < |parts| ==> sep !in parts[k]
    ensures Split(Strip(JoinWith(parts, sep)), sep) == StrippedParts(parts)
  {
    var r := StrippedParts(parts);
    if |parts| == 1 {
      StripWithin(parts[0]);
    } else {
      StripJoin(parts, sep);
      StrippedPartsWithin(parts, sep);
    }
    SplitJoin(r, sep);
  }

  /** Stripping the outer parts adds no separator. */
  lemma StrippedPartsWithin(parts: seq<string>, sep: char)
    requires |parts| >= 2
    requires forall k :: 0 <= k < |parts| ==> sep !in parts[k]
    ensures forall k :: 0 <= k < |parts| ==> sep !in StrippedParts(parts)[k]
  {
    var r := StrippedParts(parts);
    var n := |parts|;
    TrimLeftSuffix(parts[0]);
    assert r[0] == parts[0][|parts[0]| - |r[0]|..];
    assert r[n - 1] == parts[n - 1][..|r[n - 1]|];
    forall k | 0 <= k < n
      ensures sep !in r[k]
    {
      if 0 < k < n - 1 {
        assert r[k] == parts[k];
      }
    }
  }

  /** `s.split(sep)`: the pieces between the separators, at least one. */
  function Split(s: string, sep: char): (r: seq<string>)
    ensures |r| >= 1
    ensures forall k :: 0 <= k < |r| ==> sep !in r[k]
    ensures JoinWith(r, sep) == s
  {
    if s == [] then [[]]
    else
      var rest := Split(s[1..], sep);
      if s[0] == sep then
        assert JoinWith([[]] + rest, sep) == [sep] + JoinWith(rest, sep) by {
          assert ([[]] + rest)[1..] == rest;
        }
        [[]] + rest
      else
        var r := [[s[0]] + rest[0]] + rest[1..];
        assert JoinWith(r, sep) == [s[0]] + JoinWith(rest, sep) by {
          if |rest| > 1 {
            assert r[1..] == rest[1..];
          }
        }
        r
  }

  /** Splitting undoes joining when no part holds the separator. */
  lemma {:induction false} SplitJoin(parts: seq<string>, sep: char)
    requires |parts| >= 1
    requires forall k :: 0 <= k < |parts| ==> sep !in parts[k]
    ensures Split(JoinWith(parts, sep), sep) == parts
  {
    if |parts| == 1 {
      SplitPiece(parts[0], sep);
    } else {
      SplitJoin(parts[1..], sep);
      SplitPrefix(parts[0], JoinWith(parts[1..], sep), sep);
      assert [parts[0]] + parts[1..] == parts;
    }
  }

  /** A string without the separator is one piece. */
  lemma {:induction false} SplitPiece(s: string, sep: char)
    requires sep !in s
    ensures Split(s, sep) == [s]
  {
    if s != [] {
      SplitPiece(s[1..], sep);
    }
  }

  /** A separator-free head becomes the first piece of the split. */
  lemma {:induction false} SplitPrefix(head: string, tail: string, sep: char)
    requires sep !in head
    ensures Split(head + [sep] + tail, sep) == [head] + Split(tail, sep)
  {
    if head == [] {
      assert (head + [sep] + tail)[1..] == tail;
    } else {
      assert (head + [sep] + tail)[1..] == head[1..] + [sep] + tail;
      SplitPrefix(head[1..], tail, sep);
      assert [head[0]] + head[1..] == head;
    }
  }
}
