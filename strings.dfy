/**
 * The handful of Python `str` operations that the fan protocol and the
 * Modbus configuration rely on, with Python's semantics:
 * `p in s`, `s.startswith(p)`, `s.strip()`, `s.split(sep)`, `sep.join(xs)`,
 * `s.replace(p, "")`, `int(s)` and `str(n)`.
 *
 * The functions carry only the cheap facts their callers need to be well
 * formed; what each one means is stated by the lemma that follows it.
 */
module Strings {

  datatype Option<T> = None | Some(value: T)

  /** Python's `str.isspace()` for one character. */
  predicate IsSpace(c: char) {
    || ('\t' <= c <= '\r')                 // tab, line feed, vertical tab, form feed, carriage return
    || ('\U{1c}' <= c <= '\U{1f}')         // file, group, record and unit separators
    || c == ' ' || c == '\U{85}' || c == '\U{a0}' || c == '\U{1680}'
    || ('\U{2000}' <= c <= '\U{200a}')
    || c == '\U{2028}' || c == '\U{2029}' || c == '\U{202f}' || c == '\U{205f}' || c == '\U{3000}'
  }

  predicate IsDigit(c: char) {
    '0' <= c <= '9'
  }

  predicate AllDigits(s: string) {
    forall k :: 0 <= k < |s| ==> IsDigit(s[k])
  }

  /** The pattern `p` occurs in `s` starting at index `k`. */
  predicate OccursAt(s: string, p: string, k: nat) {
    k + |p| <= |s| && s[k..k + |p|] == p
  }

  /** The index of the first non-whitespace character at or after `i`, or `|s|`. */
  function SkipSpaces(s: string, i: nat): (j: nat)
    requires i <= |s|
    ensures i <= j <= |s|
    decreases |s| - i
  {
    if i == |s| || !IsSpace(s[i]) then i else SkipSpaces(s, i + 1)
  }

  lemma {:induction false} SkipSpacesSpec(s: string, i: nat)
    requires i <= |s|
    ensures SkipSpaces(s, i) == |s| || !IsSpace(s[SkipSpaces(s, i)])
    ensures forall k :: i <= k < SkipSpaces(s, i) ==> IsSpace(s[k])
    decreases |s| - i
  {
    if i < |s| && IsSpace(s[i]) {
      SkipSpacesSpec(s, i + 1);
    }
  }

  /** The end of `s[..j]` once its trailing whitespace is dropped. */
  function TrimEnd(s: string, j: nat): (e: nat)
    requires j <= |s|
    ensures e <= j
    decreases j
  {
    if j == 0 || !IsSpace(s[j - 1]) then j else TrimEnd(s, j - 1)
  }

  lemma {:induction false} TrimEndSpec(s: string, j: nat)
    requires j <= |s|
    ensures TrimEnd(s, j) == 0 || !IsSpace(s[TrimEnd(s, j) - 1])
    ensures forall k :: TrimEnd(s, j) <= k < j ==> IsSpace(s[k])
    decreases j
  {
    if j > 0 && IsSpace(s[j - 1]) {
      TrimEndSpec(s, j - 1);
    }
  }

  /** `s.strip()` */
  function Strip(s: string): (r: string)
    ensures |r| <= |s|
  {
    var a := SkipSpaces(s, 0);
    var b := TrimEnd(s, |s|);
    if a < b then s[a..b] else []
  }

  /**
   * `s.strip()` is the slice of `s` left once the whitespace before and after
   * it is dropped, and it neither starts nor ends with whitespace.
   */
  lemma {:induction false} StripSpec(s: string)
    ensures Strip(s) == [] || (!IsSpace(Strip(s)[0]) && !IsSpace(Strip(s)[|Strip(s)| - 1]))
    ensures exists i: nat :: OccursAt(s, Strip(s), i)
                             && (forall k :: 0 <= k < i ==> IsSpace(s[k]))
                             && (forall k :: i + |Strip(s)| <= k < |s| ==> IsSpace(s[k]))
    ensures (forall k :: 0 <= k < |s| ==> IsSpace(s[k])) <==> Strip(s) == []
  {
    var a := SkipSpaces(s, 0);
    var b := TrimEnd(s, |s|);
    SkipSpacesSpec(s, 0);
    TrimEndSpec(s, |s|);
    if a < b {
      assert OccursAt(s, s[a..b], a);
      assert !IsSpace(s[a]);
    } else {
      assert a == |s|;
      assert OccursAt(s, [], |s|);
    }
  }

  /** Stripping a text that already has no outer whitespace leaves it unchanged. */
  lemma {:induction false} StripUnchanged(s: string)
    requires s == [] || (!IsSpace(s[0]) && !IsSpace(s[|s| - 1]))
    ensures Strip(s) == s
  {
    if s != [] {
      assert SkipSpaces(s, 0) == 0;
      assert TrimEnd(s, |s|) == |s|;
      assert s[0..|s|] == s;
    }
  }

  /** Stripping twice is stripping once. */
  lemma {:induction false} StripIdempotent(s: string)
    ensures Strip(Strip(s)) == Strip(s)
  {
    StripSpec(s);
    StripUnchanged(Strip(s));
  }

  /** `s.find(p)` for a pattern: the first index at which `p` occurs, if any. */
  function IndexOf(s: string, p: string): (r: Option<nat>)
    ensures r.Some? ==> r.value + |p| <= |s|
    decreases |s|
  {
    if |s| < |p| then None
    else if s[..|p|] == p then Some(0)
    else
      match IndexOf(s[1..], p)
      case None => None
      case Some(i) => Some(i + 1)
  }

  /** An occurrence after the first character of `s` is an occurrence in `s[1..]`, one place earlier. */
  lemma {:induction false} OccursShift(s: string, p: string)
    requires |s| > 0
    ensures forall k: nat :: 1 <= k ==> (OccursAt(s, p, k) <==> OccursAt(s[1..], p, k - 1))
  {
    forall k: nat | 1 <= k
      ensures OccursAt(s, p, k) <==> OccursAt(s[1..], p, k - 1)
    {
      if k + |p| <= |s| {
        var a, b := s[k..k + |p|], s[1..][k - 1..k - 1 + |p|];
        forall j | 0 <= j < |p| ensures a[j] == b[j] {
          assert a[j] == s[k + j] && b[j] == s[1..][k - 1 + j];
        }
        assert a == b;
      }
    }
  }

  /** `IndexOf` finds an occurrence, and no occurrence lies before it; `None` means there is none. */
  lemma {:induction false} IndexOfSpec(s: string, p: string)
    ensures IndexOf(s, p).Some? ==> OccursAt(s, p, IndexOf(s, p).value)
    ensures IndexOf(s, p).Some? ==> forall k: nat :: k < IndexOf(s, p).value ==> !OccursAt(s, p, k)
    ensures IndexOf(s, p).None? ==> forall k: nat :: !OccursAt(s, p, k)
    decreases |s|
  {
    if |s| >= |p| && s[..|p|] != p {
      OccursShift(s, p);
      IndexOfSpec(s[1..], p);
      assert !OccursAt(s, p, 0);
    }
  }

  /** Python's `p in s`. */
  predicate Contains(s: string, p: string) {
    IndexOf(s, p).Some?
  }

  /** `p in s` holds exactly when `p` occurs somewhere in `s`. */
  lemma {:induction false} ContainsSpec(s: string, p: string)
    ensures Contains(s, p) <==> exists k: nat :: OccursAt(s, p, k)
  {
    IndexOfSpec(s, p);
  }

  /** Python's `s.startswith(p)`. */
  predicate StartsWith(s: string, p: string) {
    |p| <= |s| && s[..|p|] == p
  }

  /** Python's `sep.join(xs)`. */
  function Join(xs: seq<string>, sep: string): string {
    if |xs| == 0 then []
    else if |xs| == 1 then xs[0]
    else xs[0] + sep + Join(xs[1..], sep)
  }

  /** No occurrence of `p` lies wholly before the first one. */
  lemma {:induction false} NoOccurrenceBefore(s: string, p: string, i: nat)
    requires |p| > 0 && i <= |s|
    requires forall k: nat :: k < i ==> !OccursAt(s, p, k)
    ensures IndexOf(s[..i], p).None?
  {
    IndexOfSpec(s[..i], p);
    forall k: nat | OccursAt(s[..i], p, k)
      ensures OccursAt(s, p, k)
    {
      assert s[..i][k..k + |p|] == s[k..k + |p|];
    }
  }

  /**
   * Python's `s.split(sep)` for a non-empty separator: the pieces between
   * successive non-overlapping occurrences of `sep`, scanning left to right.
   */
  function Split(s: string, sep: string): (r: seq<string>)
    requires |sep| > 0
    ensures |r| >= 1
    decreases |s|
  {
    match IndexOf(s, sep)
    case None => [s]
    case Some(i) => [s[..i]] + Split(s[i + |sep|..], sep)
  }

  /**
   * Split and join are inverse: joining the pieces with the separator gives
   * the text back, no piece contains the separator, and a text that
   * contains the separator has at least two pieces.
   */
  lemma {:induction false} SplitSpec(s: string, sep: string)
    requires |sep| > 0
    ensures Join(Split(s, sep), sep) == s
    ensures forall k :: 0 <= k < |Split(s, sep)| ==> !Contains(Split(s, sep)[k], sep)
    ensures Contains(s, sep) <==> |Split(s, sep)| >= 2
    ensures forall k: nat :: k < |Split(s, sep)[0]| ==> !OccursAt(s, sep, k)
    decreases |s|
  {
    var r := Split(s, sep);
    IndexOfSpec(s, sep);
    match IndexOf(s, sep)
    case None =>
    case Some(i) =>
      var rest := Split(s[i + |sep|..], sep);
      SplitSpec(s[i + |sep|..], sep);
      NoOccurrenceBefore(s, sep, i);
      assert r[1..] == rest;
      assert s == s[..i] + sep + s[i + |sep|..];
  }

  /**
   * The first piece of a split is `a` when `s` begins with `a`, no separator
   * starts inside `a`, and `a` is followed by a separator or by nothing.
   */
  lemma {:induction false} FirstPiece(s: string, sep: string, a: string)
    requires |sep| > 0
    requires |a| <= |s| && s[..|a|] == a
    requires forall k: nat :: k < |a| ==> !OccursAt(s, sep, k)
    requires |a| == |s| || OccursAt(s, sep, |a|)
    ensures Split(s, sep)[0] == a
  {
    IndexOfSpec(s, sep);
    if |a| == |s| {
      assert s == a;
    } else {
      assert IndexOf(s, sep) == Some(|a|);
    }
  }

  /** A text that starts with `a` and then the separator, where no separator starts inside `a`, splits into `a` and the pieces of the rest. */
  lemma {:induction false} SplitFirst(a: string, sep: string, rest: string)
    requires |sep| > 0
    requires forall k: nat :: k < |a| ==> !OccursAt(a + sep + rest, sep, k)
    ensures Split(a + sep + rest, sep) == [a] + Split(rest, sep)
  {
    var s := a + sep + rest;
    IndexOfSpec(s, sep);
    assert OccursAt(s, sep, |a|) by {
      assert s[|a|..|a| + |sep|] == sep;
    }
    assert IndexOf(s, sep) == Some(|a|);
    assert s[..|a|] == a;
    assert s[|a| + |sep|..] == rest;
  }

  /** When the separator's first character is not in `a`, no separator starts inside `a`. */
  lemma {:induction false} NoOccurrenceInPrefix(a: string, sep: string, rest: string)
    requires |sep| > 0 && sep[0] !in a
    ensures forall k: nat :: k < |a| ==> !OccursAt(a + sep + rest, sep, k)
  {
    var s := a + sep + rest;
    forall k: nat | k < |a| ensures !OccursAt(s, sep, k) {
      if k + |sep| <= |s| {
        assert s[k..k + |sep|][0] == s[k] == a[k];
      }
    }
  }

  /** A text without the separator's first character is a single piece. */
  lemma {:induction false} SplitWhole(s: string, sep: string)
    requires |sep| > 0 && sep[0] !in s
    ensures Split(s, sep) == [s]
  {
    forall k: nat ensures !OccursAt(s, sep, k) {
      if k + |sep| <= |s| {
        assert s[k..k + |sep|][0] == s[k];
      }
    }
    IndexOfSpec(s, sep);
  }

  /** A pattern holding a character the text lacks does not occur in it. */
  lemma {:induction false} NoCharNoPattern(s: string, p: string, c: char)
    requires c in p && c !in s
    ensures !Contains(s, p)
  {
    var j :| 0 <= j < |p| && p[j] == c;
    forall k: nat ensures !OccursAt(s, p, k) {
      if k + |p| <= |s| {
        assert s[k..k + |p|][j] == s[k + j];
      }
    }
    IndexOfSpec(s, p);
  }

  /** Splitting a joined list on a one-character separator gives the list back. */
  lemma {:induction false} SplitJoin(xs: seq<string>, c: char)
    requires |xs| >= 1
    requires forall k :: 0 <= k < |xs| ==> c !in xs[k]
    ensures Split(Join(xs, [c]), [c]) == xs
  {
    var s := Join(xs, [c]);
    IndexOfSpec(s, [c]);
    if |xs| == 1 {
      forall k: nat | k + 1 <= |s| ensures !OccursAt(s, [c], k) {
        assert s[k..k + 1] == [s[k]];
      }
    } else {
      var tail := Join(xs[1..], [c]);
      assert s == xs[0] + [c] + tail;
      assert OccursAt(s, [c], |xs[0]|);
      forall k: nat | k < |xs[0]| ensures !OccursAt(s, [c], k) {
        assert s[k] == xs[0][k];
      }
      assert IndexOf(s, [c]) == Some(|xs[0]|);
      assert s[|xs[0]| + 1..] == tail;
      assert s[..|xs[0]|] == xs[0];
      SplitJoin(xs[1..], c);
    }
  }

  /** A text in which a one-character pattern never occurs does not hold that character. */
  lemma {:induction false} NoCharNoOccurrence(s: string, c: char)
    requires !Contains(s, [c])
    ensures c !in s
  {
    IndexOfSpec(s, [c]);
    forall k | 0 <= k < |s| ensures s[k] != c {
      assert s[k..k + 1] == [s[k]];
      assert !OccursAt(s, [c], k);
    }
  }

  /** Python's `s.replace(p, "")`: every non-overlapping occurrence of `p`, scanning left to right, removed. */
  function RemoveAll(s: string, p: string): string
    requires |p| > 0
  {
    Join(Split(s, p), [])
  }

  /** Removing a pattern that does not occur changes nothing; afterwards the text is no longer than before. */
  lemma {:induction false} RemoveAllSpec(s: string, p: string)
    requires |p| > 0
    ensures !Contains(s, p) ==> RemoveAll(s, p) == s
    ensures |RemoveAll(s, p)| <= |s|
  {
    SplitSpec(s, p);
    JoinLength(Split(s, p), p);
  }

  /** Joining without a separator never gives a longer text than joining with one. */
  lemma {:induction false} JoinLength(xs: seq<string>, sep: string)
    ensures |Join(xs, [])| <= |Join(xs, sep)|
    ensures |xs| <= 1 ==> Join(xs, []) == Join(xs, sep)
  {
    if |xs| > 1 {
      JoinLength(xs[1..], sep);
    }
  }

  function DigitValue(c: char): nat
    requires IsDigit(c)
  {
    (c as int - '0' as int) as nat
  }

  function DigitChar(d: nat): (c: char)
    requires d < 10
    ensures IsDigit(c) && DigitValue(c) == d
  {
    ('0' as int + d) as char
  }

  /** The value of a string of decimal digits, most significant first. */
  function DigitsValue(s: string): nat
    requires AllDigits(s)
  {
    if |s| == 0 then 0 else DigitsValue(s[..|s| - 1]) * 10 + DigitValue(s[|s| - 1])
  }

  /** Python's `str(n)` for a non-negative integer: decimal digits without leading zeros. */
  function NatToString(n: nat): (r: string)
    ensures |r| >= 1 && AllDigits(r)
    ensures |r| > 1 ==> r[0] != '0'
  {
    if n < 10 then [DigitChar(n)]
    else NatToString(n / 10) + [DigitChar(n % 10)]
  }

  /** The digits of `str(n)` read back as `n`. */
  lemma {:induction false} NatToStringValue(n: nat)
    ensures DigitsValue(NatToString(n)) == n
  {
    if n >= 10 {
      var r := NatToString(n);
      assert r[..|r| - 1] == NatToString(n / 10);
      NatToStringValue(n / 10);
    }
  }

  /** Python's `str(n)`. */
  function IntToString(n: int): (r: string)
    ensures |r| >= 1
  {
    if n < 0 then "-" + NatToString(-n) else NatToString(n)
  }

  /** `str(n)` holds only digits and a leading minus sign: no space, comma or letter. */
  lemma {:induction false} IntToStringChars(n: int)
    ensures forall k :: 0 <= k < |IntToString(n)| ==> IsDigit(IntToString(n)[k]) || (k == 0 && IntToString(n)[k] == '-')
    ensures IsDigit(IntToString(n)[|IntToString(n)| - 1])
    ensures IntToString(n)[0] == '-' <==> n < 0
  {
  }

  /** The four ASCII separators U+001C to U+001F: white space to `str.isspace()`, but not to `int()`. */
  predicate IsSeparator(c: char) {
    '\U{1c}' <= c <= '\U{1f}'
  }

  predicate NoSeparator(s: string) {
    forall k :: 0 <= k < |s| ==> !IsSeparator(s[k])
  }

  /**
   * The white space `int()` skips around the number: ASCII space, tab, line
   * feed, vertical tab, form feed and carriage return, and every non-ASCII
   * character `str.isspace()` accepts (which `int()` first turns into a space).
   */
  predicate IsIntSpace(c: char) {
    IsSpace(c) && !IsSeparator(c)
  }

  /** The text `int()` reads a number from: an optional sign and at least one decimal digit. */
  predicate IntText(t: string) {
    || (t != [] && AllDigits(t))
    || (|t| >= 2 && (t[0] == '-' || t[0] == '+') && AllDigits(t[1..]))
  }

  /**
   * Python's `int(s)` on text: surrounding whitespace is ignored, then an
   * optional sign and at least one decimal digit must make up the rest. A
   * separator U+001C to U+001F is neither white space, sign nor digit to
   * `int()`, so a text holding one is never a number; without one, the
   * white space `int()` skips is exactly what `strip()` removes.
   */
  function ParseInt(s: string): Option<int> {
    if !NoSeparator(s) then None
    else
      var t := Strip(s);
      if t == [] then None
      else if t[0] == '-' || t[0] == '+' then
        var digits := t[1..];
        if |digits| > 0 && AllDigits(digits) then
          var v: int := DigitsValue(digits);
          Some(if t[0] == '-' then -v else v)
        else None
      else if AllDigits(t) then Some(DigitsValue(t))
      else None
  }

  /**
   * A slice with white space on both sides and none at its own ends is what
   * `strip()` leaves.
   */
  lemma {:induction false} StripExact(s: string, i: nat, j: nat)
    requires i < j <= |s|
    requires forall k :: 0 <= k < i ==> IsSpace(s[k])
    requires forall k :: j <= k < |s| ==> IsSpace(s[k])
    requires !IsSpace(s[i]) && !IsSpace(s[j - 1])
    ensures Strip(s) == s[i..j]
  {
    SkipSpacesSpec(s, 0);
    TrimEndSpec(s, |s|);
  }

  /** Whatever `int()` accepts is a number text with white space, as `int()` knows it, on either side. */
  lemma {:induction false} ParseIntParts(s: string)
    requires ParseInt(s).Some?
    ensures exists i: nat, j: nat :: i <= j <= |s| && IntText(s[i..j])
                                     && (forall k :: 0 <= k < i ==> IsIntSpace(s[k]))
                                     && (forall k :: j <= k < |s| ==> IsIntSpace(s[k]))
  {
    var a := SkipSpaces(s, 0);
    var b := TrimEnd(s, |s|);
    SkipSpacesSpec(s, 0);
    TrimEndSpec(s, |s|);
    assert a < b && Strip(s) == s[a..b];
    assert IntText(s[a..b]);
  }

  /** A number text with white space, as `int()` knows it, on either side is accepted. */
  lemma {:induction false} ParseIntAccepts(s: string, i: nat, j: nat)
    requires i <= j <= |s| && IntText(s[i..j])
    requires forall k :: 0 <= k < i ==> IsIntSpace(s[k])
    requires forall k :: j <= k < |s| ==> IsIntSpace(s[k])
    ensures ParseInt(s).Some?
  {
    var m := s[i..j];
    forall k | 0 <= k < |m| ensures IsDigit(m[k]) || m[k] == '-' || m[k] == '+' {
      if !(m != [] && AllDigits(m)) && k > 0 {
        assert m[k] == m[1..][k - 1];
      }
    }
    forall k | 0 <= k < |s| ensures !IsSeparator(s[k]) {
      if i <= k < j {
        assert s[k] == m[k - i];
      }
    }
    assert !IsSpace(s[i]) by {
      assert s[i] == m[0];
    }
    assert !IsSpace(s[j - 1]) by {
      assert s[j - 1] == m[|m| - 1];
      if !(m != [] && AllDigits(m)) {
        assert m[|m| - 1] == m[1..][|m| - 2];
      }
    }
    StripExact(s, i, j);
  }

  /** Whatever `int()` accepts holds a digit. */
  lemma {:induction false} ParseIntHasDigit(s: string)
    requires ParseInt(s).Some?
    ensures exists k :: 0 <= k < |s| && IsDigit(s[k])
  {
    var t := Strip(s);
    assert IsDigit(t[|t| - 1]);
    StripSpec(s);
    var i: nat :| OccursAt(s, t, i);
    assert t[|t| - 1] == s[i + |t| - 1];
  }

  /** Without a separator character, stripping first does not change what `int()` reads. */
  lemma {:induction false} ParseIntStrip(s: string)
    requires NoSeparator(s)
    ensures ParseInt(Strip(s)) == ParseInt(s)
  {
    StripIdempotent(s);
    StripSpec(s);
    var t := Strip(s);
    var i: nat :| OccursAt(s, t, i);
    forall k | 0 <= k < |t| ensures !IsSeparator(t[k]) {
      assert t[k] == s[i + k];
    }
  }

  /**
   * `int(s)` accepts exactly a text made of white space (as `int()` knows
   * it), then an optional sign and at least one digit, then white space;
   * so it refuses text without a digit, and without a separator character
   * `strip()` first changes nothing.
   */
  lemma {:induction false} ParseIntSpec(s: string)
    ensures ParseInt(s).Some? <==>
              exists i: nat, j: nat :: i <= j <= |s| && IntText(s[i..j])
                                       && (forall k :: 0 <= k < i ==> IsIntSpace(s[k]))
                                       && (forall k :: j <= k < |s| ==> IsIntSpace(s[k]))
    ensures (forall k :: 0 <= k < |s| ==> !IsDigit(s[k])) ==> ParseInt(s).None?
    ensures NoSeparator(s) ==> ParseInt(Strip(s)) == ParseInt(s)
  {
    if ParseInt(s).Some? {
      ParseIntParts(s);
      ParseIntHasDigit(s);
    }
    forall i: nat, j: nat | i <= j <= |s| && IntText(s[i..j])
                            && (forall k :: 0 <= k < i ==> IsIntSpace(s[k]))
                            && (forall k :: j <= k < |s| ==> IsIntSpace(s[k]))
      ensures ParseInt(s).Some?
    {
      ParseIntAccepts(s, i, j);
    }
    if NoSeparator(s) {
      ParseIntStrip(s);
    }
  }

  /** `int` reads a run of digits as its value. */
  lemma {:induction false} ParseDigits(d: string)
    requires |d| >= 1 && AllDigits(d)
    ensures ParseInt(d) == Some(DigitsValue(d) as int)
  {
    assert NoSeparator(d);
    assert IsDigit(d[0]) && IsDigit(d[|d| - 1]);
    StripUnchanged(d);
  }

  /** `int` reads a minus sign followed by a run of digits as the negated value. */
  lemma {:induction false} ParseNegativeDigits(d: string)
    requires |d| >= 1 && AllDigits(d)
    ensures ParseInt("-" + d) == Some(-(DigitsValue(d) as int))
  {
    var m := "-" + d;
    assert Strip(m) == m by {
      assert IsDigit(d[|d| - 1]);
      assert m[|m| - 1] == d[|d| - 1];
      StripUnchanged(m);
    }
    assert m[0] == '-' && m[1..] == d;
    assert NoSeparator(m) by {
      forall k | 0 <= k < |m| ensures !IsSeparator(m[k]) {
        if k > 0 {
          assert m[k] == d[k - 1];
        }
      }
    }
  }

  /** `int(str(n)) == n` */
  lemma {:induction false} IntToStringRoundTrip(n: int)
    ensures ParseInt(IntToString(n)) == Some(n)
  {
    if n < 0 {
      var d := NatToString(-n);
      assert IntToString(n) == "-" + d;
      ParseNegativeDigits(d);
      NatToStringValue(-n);
    } else {
      var d := NatToString(n);
      assert IntToString(n) == d;
      ParseDigits(d);
      NatToStringValue(n);
    }
  }
}
