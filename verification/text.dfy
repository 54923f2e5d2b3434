/** ASCII string helpers in the sense of Python's `str` methods: whitespace,
    digits, lower-casing, stripping and substring containment. */
module Text {
  import opened Common

  /** Python's `str.isspace` / regex `\s` restricted to ASCII:
      tab, line feed, vertical tab, form feed, carriage return,
      the four separators 0x1C..0x1F and space. */
  predicate IsSpace(c: char)
  {
    ('\t' <= c <= '\r') || ('\U{1C}' <= c <= ' ')
  }

  predicate IsDigit(c: char) { '0' <= c <= '9' }

  function DigitValue(c: char): nat
    requires IsDigit(c)
  {
    c as int - '0' as int
  }

  function LowerChar(c: char): (d: char)
    ensures IsSpace(d) <==> IsSpace(c)
    ensures IsDigit(d) <==> IsDigit(c)
    ensures !('A' <= d <= 'Z')
  {
    if 'A' <= c <= 'Z' then (c as int + 32) as char else c
  }

  /** Python's `str.lower()` on ASCII text. */
  function Lower(s: string): (r: string)
    ensures |r| == |s|
    ensures forall i :: 0 <= i < |s| ==> r[i] == LowerChar(s[i])
  {
    seq(|s|, i requires 0 <= i < |s| => LowerChar(s[i]))
  }

  /** Python's `str.lstrip()`. */
  function LStrip(s: string): (r: string)
    ensures r == [] || !IsSpace(r[0])
    ensures exists k :: 0 <= k <= |s| && r == s[k..]
  {
    if |s| > 0 && IsSpace(s[0]) then
      var r := LStrip(s[1..]);
      var k :| 0 <= k <= |s[1..]| && r == s[1..][k..];
      assert r == s[k + 1..];
      r
    else
      assert s == s[0..];
      s
  }

  /** Python's `str.rstrip()`. */
  function RStrip(s: string): (r: string)
    ensures r == [] || !IsSpace(r[|r| - 1])
    ensures r <= s
  {
    if |s| > 0 && IsSpace(s[|s| - 1]) then RStrip(s[..|s| - 1]) else s
  }

  /** Python's `str.strip()`. */
  function Strip(s: string): string
  {
    RStrip(LStrip(s))
  }

  /** `sub` sits in `s` starting at position `i`. */
  predicate OccursAt(s: string, sub: string, i: int)
  {
    0 <= i && i + |sub| <= |s| && s[i..i + |sub|] == sub
  }

  /** Python's `sub in s`. */
  predicate Contains(s: string, sub: string)
  {
    exists i | 0 <= i <= |s| :: OccursAt(s, sub, i)
  }

  /** Python's `s.find(sub)` / `s.index(sub)`: the first occurrence. */
  function IndexOf(s: string, sub: string): (r: int)
    ensures r == -1 <==> !Contains(s, sub)
    ensures r >= 0 ==> OccursAt(s, sub, r) && forall j :: 0 <= j < r ==> !OccursAt(s, sub, j)
  {
    IndexFrom(s, sub, 0)
  }

  function IndexFrom(s: string, sub: string, from: nat): (r: int)
    requires forall j :: 0 <= j < from ==> !OccursAt(s, sub, j)
    ensures r == -1 <==> !Contains(s, sub)
    ensures r >= 0 ==> from <= r && OccursAt(s, sub, r) && forall j :: 0 <= j < r ==> !OccursAt(s, sub, j)
    decreases |s| + 1 - from
  {
    if from > |s| then
      assert forall j :: 0 <= j <= |s| ==> !OccursAt(s, sub, j);
      -1
    else if OccursAt(s, sub, from) then from
    else IndexFrom(s, sub, from + 1)
  }

  /** A string occurs in itself. */
  lemma ContainsSelf(s: string)
    ensures Contains(s, s)
  {
    assert OccursAt(s, s, 0);
  }

  /** Containment is transitive: an occurrence inside an occurrence. */
  lemma ContainsTrans(a: string, b: string, c: string)
    requires Contains(a, b) && Contains(b, c)
    ensures Contains(a, c)
  {
    var i :| 0 <= i <= |a| && OccursAt(a, b, i);
    var j :| 0 <= j <= |b| && OccursAt(b, c, j);
    assert a[i + j..i + j + |c|] == c by {
      forall k | 0 <= k < |c| ensures a[i + j + k] == c[k] {
        assert a[i..i + |b|][j + k] == b[j + k];
        assert b[j..j + |c|][k] == c[k];
      }
    }
    assert OccursAt(a, c, i + j);
  }

  /** A string that holds a character `s` lacks cannot occur in `s`. */
  lemma NotContainsByChar(s: string, sub: string, c: char)
    requires c in sub && c !in s
    ensures !Contains(s, sub)
  {
    var k :| 0 <= k < |sub| && sub[k] == c;
    forall i | 0 <= i <= |s| ensures !OccursAt(s, sub, i) {
      if i + |sub| <= |s| {
        assert s[i..i + |sub|][k] == s[i + k];
        assert s[i + k] in s;
      }
    }
  }

  /** Lower-casing keeps every occurrence, lower-cased. */
  lemma LowerKeepsOccurrence(s: string, sub: string, i: int)
    requires OccursAt(s, sub, i)
    ensures OccursAt(Lower(s), Lower(sub), i)
  {
    forall k | 0 <= k < |sub| ensures Lower(s)[i + k] == Lower(sub)[k] {
      assert s[i..i + |sub|][k] == sub[k];
    }
  }

  /** Text already free of upper-case letters is its own lower-case form. */
  lemma LowerOfLower(s: string)
    requires forall i :: 0 <= i < |s| ==> !('A' <= s[i] <= 'Z')
    ensures Lower(s) == s
  {
  }

  /** Text with no surrounding whitespace is its own stripped form. */
  lemma StripOfStripped(s: string)
    requires s == [] || (!IsSpace(s[0]) && !IsSpace(s[|s| - 1]))
    ensures Strip(s) == s
  {
  }

  /** Stripping removes all leading and trailing whitespace. */
  lemma StripEnds(s: string)
    ensures Strip(s) == [] || (!IsSpace(Strip(s)[0]) && !IsSpace(Strip(s)[|Strip(s)| - 1]))
  {
    var l := LStrip(s);
    var r := RStrip(l);
    if r != [] {
      assert r[0] == l[0];
    }
  }

  /** Stripping twice is stripping once. */
  lemma StripTwice(s: string)
    ensures Strip(Strip(s)) == Strip(s)
  {
    StripEnds(s);
    StripOfStripped(Strip(s));
  }

  /** Lower-casing preserves which characters are whitespace, hence strip-freeness. */
  lemma LowerKeepsStripped(s: string)
    requires s == [] || (!IsSpace(s[0]) && !IsSpace(s[|s| - 1]))
    ensures Lower(s) == [] || (!IsSpace(Lower(s)[0]) && !IsSpace(Lower(s)[|s| - 1]))
  {
  }

  /** Python's `s.split(sep)` for a one-character separator: always at least
      one part, and no part holds the separator. */
  function Split(s: string, sep: char): (parts: seq<string>)
    ensures |parts| >= 1
    ensures forall k :: 0 <= k < |parts| ==> sep !in parts[k]
    decreases |s|
  {
    var i := FirstIndex(s, sep);
    if i == -1 then [s]
    else [s[..i]] + Split(s[i + 1..], sep)
  }

  /** Joining the parts of a split gives the original text back. */
  lemma {:induction false} JoinSplit(s: string, sep: char)
    ensures Join(Split(s, sep), sep) == s
    decreases |s|
  {
    var i := FirstIndex(s, sep);
    if i != -1 {
      var rest := Split(s[i + 1..], sep);
      JoinSplit(s[i + 1..], sep);
      var parts := [s[..i]] + rest;
      assert Split(s, sep) == parts;
      assert |parts| >= 2 && parts[0] == s[..i] && parts[1..] == rest;
      assert Join(parts, sep) == s[..i] + [sep] + s[i + 1..];
      assert s[i] == sep;
      assert s[..i] + [sep] + s[i + 1..] == s;
    }
  }

  /** Python's `sep.join(parts)`. */
  function Join(parts: seq<string>, sep: char): string
  {
    if |parts| == 0 then ""
    else if |parts| == 1 then parts[0]
    else parts[0] + [sep] + Join(parts[1..], sep)
  }

  /** Splitting a joined list of separator-free parts gives the parts back. */
  lemma {:induction false} SplitJoin(parts: seq<string>, sep: char)
    requires |parts| >= 1
    requires forall k :: 0 <= k < |parts| ==> sep !in parts[k]
    ensures Split(Join(parts, sep), sep) == parts
  {
    if |parts| == 1 {
      assert FirstIndex(Join(parts, sep), sep) == -1;
    } else {
      SplitJoinStep(parts, sep);
      SplitJoin(parts[1..], sep);
      assert parts == [parts[0]] + parts[1..];
    }
  }

  /** Splitting a join of two or more parts peels off the first part. */
  lemma SplitJoinStep(parts: seq<string>, sep: char)
    requires |parts| >= 2 && sep !in parts[0]
    ensures Split(Join(parts, sep), sep) == [parts[0]] + Split(Join(parts[1..], sep), sep)
  {
    var s := Join(parts, sep);
    var tail := Join(parts[1..], sep);
    assert s == parts[0] + [sep] + tail;
    FirstIndexAfter(parts[0], sep, tail);
    assert s[|parts[0]| + 1..] == tail;
    assert s[..|parts[0]|] == parts[0];
  }

  lemma FirstIndexAfter(a: string, sep: char, b: string)
    requires sep !in a
    ensures FirstIndex(a + [sep] + b, sep) == |a|
  {
    var s := a + [sep] + b;
    assert s[|a|] == sep;
    assert forall k :: 0 <= k < |a| ==> s[k] == a[k] && a[k] != sep;
  }

  /** The longest run of decimal digits at the front of `s`. */
  function DigitPrefixLen(s: string): (n: nat)
    ensures n <= |s|
    ensures forall k :: 0 <= k < n ==> IsDigit(s[k])
    ensures n == |s| || !IsDigit(s[n])
  {
    if |s| > 0 && IsDigit(s[0]) then 1 + DigitPrefixLen(s[1..]) else 0
  }

  /** Value of a string of decimal digits (Python's `int` on `\d+`). */
  function DigitsValue(s: string): nat
    requires forall k :: 0 <= k < |s| ==> IsDigit(s[k])
  {
    if |s| == 0 then 0 else DigitsValue(s[..|s| - 1]) * 10 + DigitValue(s[|s| - 1])
  }

  /** The digits of a natural number, most significant first. */
  function NatToString(n: nat): (s: string)
    ensures |s| > 0
    ensures forall k :: 0 <= k < |s| ==> IsDigit(s[k])
  {
    if n < 10 then [('0' as int + n) as char]
    else NatToString(n / 10) + [('0' as int + n % 10) as char]
  }

  /** Writing a number in decimal and reading it back gives the number. */
  lemma {:induction false} DigitsRoundTrip(n: nat)
    ensures DigitsValue(NatToString(n)) == n
  {
    if n >= 10 {
      DigitsRoundTrip(n / 10);
      var s := NatToString(n);
      assert s[..|s| - 1] == NatToString(n / 10);
    }
  }
}
