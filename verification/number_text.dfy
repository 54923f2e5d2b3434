/** Reading numbers out of page text, as the bot's regular expressions do:
    the first run of decimal digits, character filters such as
    `re.sub(r'[$,]', '', s)`, and amounts written with thousands separators
    (`\d{1,3}(?:,\d{3})*`). Also the inverse direction, writing a number with
    thousands separators, so that reading can be checked against it. */
module NumberText {
  import opened Common
  import opened Text

  function Pow10(k: nat): (p: nat)
    ensures p >= 1
  {
    if k == 0 then 1 else 10 * Pow10(k - 1)
  }

  /** Powers of ten grow with the exponent. */
  lemma {:induction false} Pow10Grows(a: nat, b: nat)
    requires a <= b
    ensures Pow10(a) <= Pow10(b)
    decreases b
  {
    if a < b {
      Pow10Grows(a, b - 1);
    }
  }

  /** Every character of `s` is a decimal digit. */
  predicate AllDigits(s: string)
  {
    forall k :: 0 <= k < |s| ==> IsDigit(s[k])
  }

  /** Reading `a + b` as one decimal number shifts `a` left by `|b|` places. */
  lemma {:induction false} DigitsValueAppend(a: string, b: string)
    requires AllDigits(a) && AllDigits(b)
    ensures AllDigits(a + b)
    ensures DigitsValue(a + b) == DigitsValue(a) * Pow10(|b|) + DigitsValue(b)
    decreases |b|
  {
    if |b| > 0 {
      var b' := b[..|b| - 1];
      assert (a + b)[..|a + b| - 1] == a + b';
      DigitsValueAppend(a, b');
      var d := DigitValue(b[|b| - 1]);
      assert DigitsValue(a + b) == DigitsValue(a + b') * 10 + d;
      assert DigitsValue(b) == DigitsValue(b') * 10 + d;
      assert Pow10(|b|) == 10 * Pow10(|b'|);
      ShiftDigit(DigitsValue(a), Pow10(|b'|), DigitsValue(b'), d);
    } else {
      assert a + b == a;
    }
  }

  /** Appending a digit to `x * p + y` multiplies both parts by ten. */
  lemma ShiftDigit(x: nat, p: nat, y: nat, d: nat)
    ensures (x * p + y) * 10 + d == x * (10 * p) + (y * 10 + d)
  {
  }

  /** A string of `k` digits reads as less than `10^k`. */
  lemma {:induction false} DigitsValueBound(s: string)
    requires AllDigits(s)
    ensures DigitsValue(s) < Pow10(|s|)
  {
    if |s| > 0 {
      DigitsValueBound(s[..|s| - 1]);
    }
  }

  // ---------------------------------------------------------------------
  // The first run of digits

  /** Position of the first decimal digit in `s`, or -1 when there is none. */
  function FirstDigitAt(s: string): (i: int)
    ensures -1 <= i < |s|
    ensures i == -1 <==> forall k :: 0 <= k < |s| ==> !IsDigit(s[k])
    ensures 0 <= i ==> IsDigit(s[i]) && forall k :: 0 <= k < i ==> !IsDigit(s[k])
  {
    if |s| == 0 then -1
    else if IsDigit(s[0]) then 0
    else
      var j := FirstDigitAt(s[1..]);
      if j == -1 then -1 else j + 1
  }

  /** The maximal run of digits starting at the first digit of `s`. */
  function FirstDigitRun(s: string): (run: string)
    requires FirstDigitAt(s) >= 0
    ensures |run| > 0 && AllDigits(run)
  {
    var i := FirstDigitAt(s);
    s[i..i + DigitPrefixLen(s[i..])]
  }

  /** `int(re.search(r'(\d+)', s).group(1))`, or `None` when `s` holds no
      digit: the value of the first maximal run of digits. */
  function ReadFirstNumber(s: string): (r: Option<nat>)
    ensures r.None? <==> forall k :: 0 <= k < |s| ==> !IsDigit(s[k])
    ensures r.Some? ==> r.value == DigitsValue(FirstDigitRun(s))
  {
    if FirstDigitAt(s) == -1 then None else Some(DigitsValue(FirstDigitRun(s)))
  }

  /** A string that is all digits reads as its own value. */
  lemma ReadAllDigits(s: string)
    requires |s| > 0 && AllDigits(s)
    ensures ReadFirstNumber(s) == Some(DigitsValue(s))
  {
    assert FirstDigitAt(s) == 0;
    DigitPrefixAll(s);
    assert s[0..|s|] == s;
  }

  lemma {:induction false} DigitPrefixAll(s: string)
    requires AllDigits(s)
    ensures DigitPrefixLen(s) == |s|
  {
    if |s| > 0 {
      DigitPrefixAll(s[1..]);
    }
  }

  /** The first run stops at the first non-digit after it. */
  lemma DigitRunStops(run: string, rest: string)
    requires |run| > 0 && AllDigits(run)
    requires rest == [] || !IsDigit(rest[0])
    ensures ReadFirstNumber(run + rest) == Some(DigitsValue(run))
  {
    var s := run + rest;
    assert FirstDigitAt(s) == 0;
    DigitPrefixSplit(run, rest);
    assert s[0..|run|] == run;
  }

  /** The first run of `run + rest` is `run`, starting at 0. */
  lemma FirstRunOf(run: string, rest: string)
    requires |run| > 0 && AllDigits(run)
    requires rest == [] || !IsDigit(rest[0])
    ensures FirstDigitAt(run + rest) == 0 && FirstDigitRun(run + rest) == run
  {
    var s := run + rest;
    assert FirstDigitAt(s) == 0;
    DigitPrefixSplit(run, rest);
    assert s[0..|run|] == run;
  }

  lemma {:induction false} DigitPrefixSplit(run: string, rest: string)
    requires AllDigits(run)
    requires rest == [] || !IsDigit(rest[0])
    ensures DigitPrefixLen(run + rest) == |run|
  {
    if |run| > 0 {
      assert (run + rest)[1..] == run[1..] + rest;
      DigitPrefixSplit(run[1..], rest);
    } else {
      assert run + rest == rest;
    }
  }

  // ---------------------------------------------------------------------
  // Character filters

  /** `re.sub('[...]', '', s)`: `s` without the characters `drop` selects. */
  function Without(s: string, drop: char -> bool): (r: string)
    ensures |r| <= |s|
    ensures forall k :: 0 <= k < |r| ==> !drop(r[k])
    ensures forall k :: 0 <= k < |r| ==> r[k] in s
  {
    if |s| == 0 then ""
    else if drop(s[0]) then Without(s[1..], drop)
    else [s[0]] + Without(s[1..], drop)
  }

  /** Filtering distributes over concatenation. */
  lemma {:induction false} WithoutAppend(a: string, b: string, drop: char -> bool)
    ensures Without(a + b, drop) == Without(a, drop) + Without(b, drop)
  {
    if |a| > 0 {
      assert (a + b)[1..] == a[1..] + b;
      WithoutAppend(a[1..], b, drop);
    } else {
      assert a + b == b;
    }
  }

  /** Text holding none of the dropped characters passes unchanged. */
  lemma {:induction false} WithoutNothing(s: string, drop: char -> bool)
    requires forall k :: 0 <= k < |s| ==> !drop(s[k])
    ensures Without(s, drop) == s
  {
    if |s| > 0 {
      WithoutNothing(s[1..], drop);
    }
  }

  predicate IsComma(c: char) { c == ',' }

  /** Two filters that agree on every character of `s` leave the same text. */
  lemma {:induction false} WithoutAgree(s: string, d1: char -> bool, d2: char -> bool)
    requires forall k :: 0 <= k < |s| ==> d1(s[k]) == d2(s[k])
    ensures Without(s, d1) == Without(s, d2)
  {
    if |s| > 0 {
      WithoutAgree(s[1..], d1, d2);
    }
  }

  /** A filter that drops '$' and ',' but no digit turns `"$" + Thousands(n)`
      into the plain digits of `n`. */
  lemma DollarThousandsDigits(n: nat, drop: char -> bool)
    requires drop('$') && drop(',')
    requires forall c :: IsDigit(c) ==> !drop(c)
    ensures var d := Without("$" + Thousands(n), drop);
            |d| > 0 && AllDigits(d) && DigitsValue(d) == n
  {
    var t := Thousands(n);
    WithoutAppend("$", t, drop);
    assert Without("$", drop) == "";
    assert "" + Without(t, drop) == Without(t, drop);
    forall k | 0 <= k < |t| ensures drop(t[k]) == IsComma(t[k]) {
      if IsDigit(t[k]) {
        assert !drop(t[k]);
      }
    }
    WithoutAgree(t, drop, IsComma);
    ThousandsDigits(n);
  }

  // ---------------------------------------------------------------------
  // Thousands separators

  /** Three digits for `0 <= d < 1000`, with leading zeros. */
  function Pad3(d: nat): (s: string)
    requires d < 1000
    ensures |s| == 3 && AllDigits(s) && DigitsValue(s) == d
  {
    var s := [('0' as int + d / 100) as char, ('0' as int + d / 10 % 10) as char, ('0' as int + d % 10) as char];
    ThreeDigits(s);
    SplitThree(d);
    s
  }

  /** Three digits read as hundreds, tens and units. */
  lemma ThreeDigits(s: string)
    requires |s| == 3 && AllDigits(s)
    ensures DigitsValue(s) == DigitValue(s[0]) * 100 + DigitValue(s[1]) * 10 + DigitValue(s[2])
  {
    assert s[..2][..1] == s[..1] && s[..1][..0] == [];
    assert DigitsValue(s[..1]) == DigitValue(s[0]);
    assert DigitsValue(s[..2]) == DigitValue(s[0]) * 10 + DigitValue(s[1]);
  }

  /** A number below a thousand from its three decimal digits. */
  lemma SplitThree(d: nat)
    requires d < 1000
    ensures d / 100 < 10 && d / 10 % 10 < 10 && d % 10 < 10
    ensures d == d / 100 * 100 + d / 10 % 10 * 10 + d % 10
  {
    var a, r := d / 100, d % 100;
    var b, c := r / 10, r % 10;
    assert d == a * 100 + b * 10 + c;
    assert d / 10 == a * 10 + b;
    assert d % 10 == c;
  }

  /** `n` in decimal with a comma between each group of three digits, the
      way the game prints money: 1234567 becomes "1,234,567". */
  function Thousands(n: nat): (s: string)
    ensures |s| > 0 && IsDigit(s[0])
    ensures forall k :: 0 <= k < |s| ==> IsDigit(s[k]) || s[k] == ','
  {
    if n < 1000 then NatToString(n)
    else Thousands(n / 1000) + "," + Pad3(n % 1000)
  }

  /** Dropping the separators leaves the digits of the number. */
  lemma {:induction false} ThousandsDigits(n: nat)
    ensures var d := Without(Thousands(n), IsComma);
            |d| > 0 && AllDigits(d) && DigitsValue(d) == n
  {
    if n < 1000 {
      WithoutNothing(NatToString(n), IsComma);
      DigitsRoundTrip(n);
    } else {
      var hi := Thousands(n / 1000);
      var lo := Pad3(n % 1000);
      assert Thousands(n) == hi + "," + lo;
      ThousandsDigits(n / 1000);
      GroupDigitsJoin(hi, lo);
      ThousandsValue(n, DigitsValue(Without(hi, IsComma)), DigitsValue(lo));
    }
  }

  /** Dropping the commas from `hi,lo`, where `lo` is three digits, appends
      `lo` to the digits of `hi` and shifts them three places. */
  lemma GroupDigitsJoin(hi: string, lo: string)
    requires AllDigits(Without(hi, IsComma)) && |lo| == 3 && AllDigits(lo)
    ensures Without(hi + "," + lo, IsComma) == Without(hi, IsComma) + lo
    ensures AllDigits(Without(hi, IsComma) + lo)
    ensures DigitsValue(Without(hi, IsComma) + lo) == DigitsValue(Without(hi, IsComma)) * Pow10(3) + DigitsValue(lo)
  {
    CommaJoinWithout(hi, lo);
    var dh := Without(hi, IsComma);
    DigitsValueAppend(dh, lo);
  }

  /** Dropping commas from `hi,lo` where `lo` has none. */
  lemma CommaJoinWithout(hi: string, lo: string)
    requires AllDigits(lo)
    ensures Without(hi + "," + lo, IsComma) == Without(hi, IsComma) + lo
  {
    WithoutNothing(lo, IsComma);
    CommaJoin(hi, lo);
  }

  /** The comma between two pieces is dropped. */
  lemma CommaJoin(hi: string, lo: string)
    ensures Without(hi + "," + lo, IsComma) == Without(hi, IsComma) + Without(lo, IsComma)
  {
    WithoutAppend3(hi, ",", lo, IsComma);
    CommaDropped();
  }

  /** Filtering three pieces one after another. */
  lemma WithoutAppend3(x: string, y: string, z: string, drop: char -> bool)
    ensures Without(x + y + z, drop) == Without(x, drop) + Without(y, drop) + Without(z, drop)
  {
    WithoutAppend(x + y, z, drop);
    WithoutAppend(x, y, drop);
  }

  /** A lone comma is dropped entirely. */
  lemma CommaDropped()
    ensures Without(",", IsComma) == ""
  {
    assert ","[1..] == "";
  }

  /** The leading part and the last three digits of a printed amount put
      the amount back together. */
  lemma ThousandsValue(n: nat, hi: nat, lo: nat)
    requires hi == n / 1000 && lo == n % 1000
    ensures hi * Pow10(3) + lo == n
  {
    assert Pow10(3) == 1000;
  }

  /** A comma followed by three digits: one group after the leading digits. */
  predicate IsGroups(s: string)
    decreases |s|
  {
    |s| == 0 || (|s| >= 4 && s[0] == ',' && AllDigits(s[1..4]) && IsGroups(s[4..]))
  }

  lemma {:induction false} GroupsAppend(a: string, b: string)
    requires IsGroups(a) && IsGroups(b)
    ensures IsGroups(a + b)
    decreases |a|
  {
    if |a| == 0 {
      assert a + b == b;
    } else {
      assert (a + b)[4..] == a[4..] + b;
      assert (a + b)[1..4] == a[1..4];
      GroupsAppend(a[4..], b);
    }
  }

  /** A printed amount is one to three leading digits followed by groups. */
  lemma {:induction false} ThousandsShape(n: nat)
    ensures exists lead: string, groups: string ::
              Thousands(n) == lead + groups && 1 <= |lead| <= 3 && AllDigits(lead) && IsGroups(groups)
  {
    if n < 1000 {
      var s := NatToString(n);
      NatToStringShort(n);
      assert Thousands(n) == s + "";
    } else {
      ThousandsShape(n / 1000);
      var lead: string, groups: string :| Thousands(n / 1000) == lead + groups && 1 <= |lead| <= 3
                                          && AllDigits(lead) && IsGroups(groups);
      var lo := Pad3(n % 1000);
      assert Thousands(n) == Thousands(n / 1000) + "," + lo;
      GroupShapeJoin(lead, groups, lo);
    }
  }

  /** Appending a comma and three digits adds one group. */
  lemma GroupShapeJoin(lead: string, groups: string, lo: string)
    requires IsGroups(groups) && |lo| == 3 && AllDigits(lo)
    ensures IsGroups(groups + ("," + lo))
    ensures lead + groups + "," + lo == lead + (groups + ("," + lo))
  {
    var g := "," + lo;
    assert g[4..] == "" && g[1..4] == lo;
    GroupsAppend(groups, g);
  }

  /** A number below a thousand prints as one to three digits. */
  lemma NatToStringShort(n: nat)
    requires n < 1000
    ensures 1 <= |NatToString(n)| <= 3
  {
    if n >= 10 {
      var m := n / 10;
      assert |NatToString(n)| == |NatToString(m)| + 1;
      if m >= 10 {
        assert m / 10 < 10;
        assert |NatToString(m)| == |NatToString(m / 10)| + 1;
      }
    }
  }

  // ---------------------------------------------------------------------
  // Reading `\d{1,3}(?:,\d{3})*`

  /** Length of the comma groups at the front of `s`, taken greedily. */
  function GroupsLen(s: string): (n: nat)
    ensures n <= |s|
    decreases |s|
  {
    if |s| >= 4 && s[0] == ',' && AllDigits(s[1..4]) then 4 + GroupsLen(s[4..]) else 0
  }

  lemma {:induction false} GroupsLenOfGroups(s: string)
    requires IsGroups(s)
    ensures GroupsLen(s) == |s|
    decreases |s|
  {
    if |s| > 0 {
      GroupsLenOfGroups(s[4..]);
    }
  }

  /** Length of the `\d{1,3}(?:,\d{3})*` match at the front of `s`, or 0
      when `s` does not start with a digit. The regular expression has
      nothing after the group, so its greedy first choice is the match. */
  function GroupedLen(s: string): (n: nat)
    ensures n <= |s|
    ensures n > 0 <==> |s| > 0 && IsDigit(s[0])
  {
    var lead := Min(3, DigitPrefixLen(s));
    if lead == 0 then 0 else lead + GroupsLen(s[lead..])
  }

  /** The amount written at the front of `s`, commas removed. */
  function ReadGrouped(s: string): (r: Option<nat>)
    ensures r.Some? <==> |s| > 0 && IsDigit(s[0])
  {
    var n := GroupedLen(s);
    if n == 0 then None
    else
      var d := Without(s[..n], IsComma);
      GroupedDigits(s, n);
      Some(DigitsValue(d))
  }

  lemma GroupedDigits(s: string, n: nat)
    requires n == GroupedLen(s)
    ensures AllDigits(Without(s[..n], IsComma))
  {
    var lead := Min(3, DigitPrefixLen(s));
    if lead > 0 {
      GroupsChars(s[lead..]);
      forall k | 0 <= k < n ensures IsDigit(s[..n][k]) || s[..n][k] == ',' {
        if k >= lead {
          assert s[..n][k] == s[lead..][k - lead];
        }
      }
      WithoutDigitsAndCommas(s[..n]);
    }
  }

  lemma {:induction false} GroupsChars(s: string)
    ensures forall k :: 0 <= k < GroupsLen(s) ==> IsDigit(s[k]) || s[k] == ','
    decreases |s|
  {
    if |s| >= 4 && s[0] == ',' && AllDigits(s[1..4]) {
      GroupsChars(s[4..]);
      forall k | 0 <= k < GroupsLen(s) ensures IsDigit(s[k]) || s[k] == ',' {
        if k >= 4 {
          assert s[k] == s[4..][k - 4];
        } else if k >= 1 {
          assert s[k] == s[1..4][k - 1];
        }
      }
    }
  }

  lemma WithoutDigitsAndCommas(s: string)
    requires forall k :: 0 <= k < |s| ==> IsDigit(s[k]) || s[k] == ','
    ensures AllDigits(Without(s, IsComma))
  {
    var w := Without(s, IsComma);
    forall k | 0 <= k < |w| ensures IsDigit(w[k]) {
      var c := w[k];
      assert c in s;
      var j :| 0 <= j < |s| && s[j] == c;
    }
  }

  /** Reading back a printed amount gives the amount, whatever follows it
      as long as it does not continue the number. */
  lemma {:induction false} ReadGroupedThousands(n: nat, rest: string)
    requires rest == [] || (!IsDigit(rest[0]) && rest[0] != ',')
    ensures ReadGrouped(Thousands(n) + rest) == Some(n)
  {
    ThousandsShape(n);
    var lead: string, groups: string :| Thousands(n) == lead + groups && 1 <= |lead| <= 3
                                        && AllDigits(lead) && IsGroups(groups);
    ReadGroupedOf(lead, groups, rest);
    ThousandsDigits(n);
  }

  /** A lead of one to three digits and comma groups, followed by text that
      does not continue them, reads as the digits without the commas. */
  lemma ReadGroupedOf(lead: string, groups: string, rest: string)
    requires 1 <= |lead| <= 3 && AllDigits(lead) && IsGroups(groups)
    requires rest == [] || (!IsDigit(rest[0]) && rest[0] != ',')
    ensures var t := lead + groups;
            AllDigits(Without(t, IsComma)) && ReadGrouped(t + rest) == Some(DigitsValue(Without(t, IsComma)))
  {
    var t := lead + groups;
    var s := t + rest;
    assert s == lead + (groups + rest);
    GroupedLenOf(lead, groups, rest);
    assert s[..|t|] == t;
    GroupedDigits(s, |t|);
  }

  /** The grouped amount at the front of `lead + groups + rest` is
      `lead + groups`. */
  lemma GroupedLenOf(lead: string, groups: string, rest: string)
    requires 1 <= |lead| <= 3 && AllDigits(lead) && IsGroups(groups)
    requires rest == [] || (!IsDigit(rest[0]) && rest[0] != ',')
    ensures GroupedLen(lead + (groups + rest)) == |lead| + |groups|
  {
    var s := lead + (groups + rest);
    assert groups + rest == [] || !IsDigit((groups + rest)[0]) by {
      if |groups| > 0 { assert (groups + rest)[0] == ','; }
    }
    DigitPrefixSplit(lead, groups + rest);
    assert Min(3, DigitPrefixLen(s)) == |lead|;
    assert s[|lead|..] == groups + rest;
    GroupsLenPrefix(groups, rest);
  }

  lemma {:induction false} GroupsLenPrefix(groups: string, rest: string)
    requires IsGroups(groups)
    requires rest == [] || (!IsDigit(rest[0]) && rest[0] != ',')
    ensures GroupsLen(groups + rest) == |groups|
    decreases |groups|
  {
    var s := groups + rest;
    if |groups| == 0 {
      assert s == rest;
    } else {
      assert s[4..] == groups[4..] + rest;
      assert s[1..4] == groups[1..4];
      GroupsLenPrefix(groups[4..], rest);
    }
  }
}
