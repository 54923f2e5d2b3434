/** Shared vocabulary of the model: an optional value, Python's numeric
    conversions, Python's prefix slice and Python's stable sort. */
module Common {

  /** Python's `None` or a present value. */
  datatype Option<T> = None | Some(value: T)

  function Max(a: int, b: int): int { if a >= b then a else b }

  function Min(a: int, b: int): int { if a <= b then a else b }

  function MaxReal(a: real, b: real): real { if a >= b then a else b }

  function MinReal(a: real, b: real): real { if a <= b then a else b }

  /** Python's `int(x)` on a float: truncation toward zero. */
  function Trunc(x: real): (r: int)
    ensures x >= 0.0 ==> r as real <= x < r as real + 1.0
    ensures x < 0.0 ==> r as real - 1.0 < x <= r as real
  {
    if x >= 0.0 then x.Floor else -((-x).Floor)
  }

  /** Python's `s[:n]`: a negative bound counts from the end. */
  function PyPrefix<T>(s: seq<T>, n: int): (r: seq<T>)
    ensures r <= s
    ensures 0 <= n ==> |r| == Min(n, |s|)
    ensures n < 0 ==> |r| == Max(0, |s| + n)
  {
    if n >= 0 then (if n <= |s| then s[..n] else s)
    else if |s| + n >= 0 then s[..|s| + n]
    else []
  }

  /** Python's `list.index(x)`: the position of the first occurrence, or -1
      where Python raises `ValueError`. */
  function FirstIndex<T(==)>(s: seq<T>, x: T): (i: int)
    ensures -1 <= i < |s|
    ensures i == -1 <==> x !in s
    ensures 0 <= i ==> s[i] == x && x !in s[..i]
  {
    if |s| == 0 then -1
    else if s[0] == x then 0
    else
      var j := FirstIndex(s[1..], x);
      if j == -1 then
        assert s == [s[0]] + s[1..];
        -1
      else
        assert s[..j + 1] == [s[0]] + s[1..][..j];
        j + 1
  }

  /** The first defined result of `f` over `s`, in order. */
  function FirstSome<T, U(==)>(s: seq<T>, f: T -> Option<U>): (r: Option<U>)
    ensures r.None? <==> forall k :: 0 <= k < |s| ==> f(s[k]).None?
    ensures r.Some? ==> exists k :: 0 <= k < |s| && f(s[k]) == r && forall j :: 0 <= j < k ==> f(s[j]).None?
  {
    if |s| == 0 then None
    else if f(s[0]).Some? then f(s[0])
    else
      var r := FirstSome(s[1..], f);
      assert forall k :: 1 <= k < |s| ==> s[k] == s[1..][k - 1];
      if r.Some? then
        var k :| 0 <= k < |s[1..]| && f(s[1..][k]) == r && forall j :: 0 <= j < k ==> f(s[1..][j]).None?;
        assert s[k + 1] == s[1..][k];
        r
      else
        r
  }

  // ---------------------------------------------------------------------
  // Counting and summing over sequences

  function CountWhere<T>(s: seq<T>, p: T -> bool): nat
  {
    if |s| == 0 then 0 else (if p(s[0]) then 1 else 0) + CountWhere(s[1..], p)
  }

  function SumOf<T>(s: seq<T>, f: T -> real): real
  {
    if |s| == 0 then 0.0 else f(s[0]) + SumOf(s[1..], f)
  }

  lemma {:induction false} CountWhereAppend<T>(a: seq<T>, b: seq<T>, p: T -> bool)
    ensures CountWhere(a + b, p) == CountWhere(a, p) + CountWhere(b, p)
  {
    if |a| == 0 {
      assert a + b == b;
    } else {
      assert (a + b)[1..] == a[1..] + b;
      CountWhereAppend(a[1..], b, p);
    }
  }

  lemma {:induction false} SumOfAppend<T>(a: seq<T>, b: seq<T>, f: T -> real)
    ensures SumOf(a + b, f) == SumOf(a, f) + SumOf(b, f)
  {
    if |a| == 0 {
      assert a + b == b;
    } else {
      assert (a + b)[1..] == a[1..] + b;
      SumOfAppend(a[1..], b, f);
    }
  }

  /** Counting over a non-empty prefix: the first element, then the rest. */
  lemma CountWhereCons<T>(s: seq<T>, k: nat, p: T -> bool)
    requires 0 < k <= |s|
    ensures CountWhere(s[..k], p) == (if p(s[0]) then 1 else 0) + CountWhere(s[1..][..k - 1], p)
  {
    assert s[..k][1..] == s[1..][..k - 1];
  }

  /** A prefix never counts more elements than the whole sequence. */
  lemma CountWherePrefix<T>(s: seq<T>, t: seq<T>, p: T -> bool)
    requires t <= s
    ensures CountWhere(t, p) <= CountWhere(s, p)
  {
    assert s == t + s[|t|..];
    CountWhereAppend(t, s[|t|..], p);
  }

  /** Non-negative terms have a non-negative sum. */
  lemma {:induction false} SumOfNonNeg<T>(s: seq<T>, f: T -> real)
    requires forall i :: 0 <= i < |s| ==> f(s[i]) >= 0.0
    ensures SumOf(s, f) >= 0.0
  {
    if |s| > 0 {
      SumOfNonNeg(s[1..], f);
    }
  }

  /** A prefix of a sequence of non-negative terms never sums to more than the whole. */
  lemma SumOfPrefix<T>(s: seq<T>, t: seq<T>, f: T -> real)
    requires t <= s
    requires forall i :: 0 <= i < |s| ==> f(s[i]) >= 0.0
    ensures SumOf(t, f) <= SumOf(s, f)
  {
    assert s == t + s[|t|..];
    SumOfAppend(t, s[|t|..], f);
    var rest := s[|t|..];
    forall i | 0 <= i < |rest| ensures f(rest[i]) >= 0.0 {
      assert rest[i] == s[|t| + i];
    }
    SumOfNonNeg(rest, f);
  }

  // ---------------------------------------------------------------------
  // Python's `list.sort(key=..., reverse=True)`: stable, non-increasing.

  ghost predicate NonIncreasing<T>(s: seq<T>, key: T -> real)
  {
    forall i, j :: 0 <= i < j < |s| ==> key(s[i]) >= key(s[j])
  }

  /** Puts `x` in front of every element whose key is not greater than its own,
      so that `x` stays ahead of equal keys that followed it in the input. */
  function Insert<T>(x: T, s: seq<T>, key: T -> real): (r: seq<T>)
    requires NonIncreasing(s, key)
    ensures NonIncreasing(r, key)
    ensures multiset(r) == multiset(s) + multiset{x}
    ensures |r| == |s| + 1
  {
    if |s| == 0 || key(s[0]) <= key(x) then
      [x] + s
    else
      var rest := Insert(x, s[1..], key);
      assert multiset(s) == multiset{s[0]} + multiset(s[1..]) by {
        assert s == [s[0]] + s[1..];
      }
      HeadBoundsInsert(x, s, rest, key);
      [s[0]] + rest
  }

  /** Everything inserted behind the head has a key no greater than it. */
  lemma HeadBoundsInsert<T>(x: T, s: seq<T>, rest: seq<T>, key: T -> real)
    requires |s| > 0 && NonIncreasing(s, key) && key(s[0]) > key(x)
    requires multiset(rest) == multiset(s[1..]) + multiset{x}
    ensures forall k :: 0 <= k < |rest| ==> key(s[0]) >= key(rest[k])
  {
    forall k | 0 <= k < |rest| ensures key(s[0]) >= key(rest[k]) {
      assert rest[k] in multiset(rest);
      if rest[k] != x {
        assert rest[k] in multiset(s[1..]);
        var m :| 0 <= m < |s[1..]| && s[1..][m] == rest[k];
        assert s[1..][m] == s[m + 1];
      }
    }
  }

  function SortDesc<T>(s: seq<T>, key: T -> real): (r: seq<T>)
    ensures NonIncreasing(r, key)
    ensures multiset(r) == multiset(s)
    ensures |r| == |s|
  {
    if |s| == 0 then []
    else
      assert s == [s[0]] + s[1..];
      Insert(s[0], SortDesc(s[1..], key), key)
  }

  /** Python's ascending stable sort: a non-increasing sort of the negated key. */
  function SortAsc<T>(s: seq<T>, key: T -> real): (r: seq<T>)
    ensures forall i, j :: 0 <= i < j < |r| ==> key(r[i]) <= key(r[j])
    ensures multiset(r) == multiset(s)
  {
    var r := SortDesc(s, x => -key(x));
    assert forall i, j :: 0 <= i < j < |r| ==> -key(r[i]) >= -key(r[j]);
    r
  }

  lemma {:induction false} InsertCount<T>(x: T, s: seq<T>, key: T -> real, p: T -> bool)
    requires NonIncreasing(s, key)
    ensures CountWhere(Insert(x, s, key), p) == CountWhere([x], p) + CountWhere(s, p)
  {
    if |s| == 0 || key(s[0]) <= key(x) {
      CountWhereAppend([x], s, p);
    } else {
      InsertCount(x, s[1..], key, p);
      var rest := Insert(x, s[1..], key);
      assert Insert(x, s, key) == [s[0]] + rest;
      CountWhereAppend([s[0]], rest, p);
      CountWhereAppend([s[0]], s[1..], p);
      assert s == [s[0]] + s[1..];
    }
  }

  /** Sorting keeps how many elements satisfy any test. */
  lemma {:induction false} SortDescCount<T>(s: seq<T>, key: T -> real, p: T -> bool)
    ensures CountWhere(SortDesc(s, key), p) == CountWhere(s, p)
  {
    if |s| > 0 {
      SortDescCount(s[1..], key, p);
      InsertCount(s[0], SortDesc(s[1..], key), key, p);
      CountWhereAppend([s[0]], s[1..], p);
      assert s == [s[0]] + s[1..];
    }
  }

  lemma {:induction false} InsertSum<T>(x: T, s: seq<T>, key: T -> real, f: T -> real)
    requires NonIncreasing(s, key)
    ensures SumOf(Insert(x, s, key), f) == f(x) + SumOf(s, f)
  {
    if |s| == 0 || key(s[0]) <= key(x) {
      assert ([x] + s)[1..] == s;
    } else {
      InsertSum(x, s[1..], key, f);
      var rest := Insert(x, s[1..], key);
      assert ([s[0]] + rest)[1..] == rest;
    }
  }

  /** Sorting keeps the sum of any per-element quantity. */
  lemma {:induction false} SortDescSum<T>(s: seq<T>, key: T -> real, f: T -> real)
    ensures SumOf(SortDesc(s, key), f) == SumOf(s, f)
  {
    if |s| > 0 {
      SortDescSum(s[1..], key, f);
      InsertSum(s[0], SortDesc(s[1..], key), key, f);
    }
  }

  /** A prefix of an ascending sequence holds its smallest elements: it is
      part of the whole, and nothing left behind has a smaller key than
      anything kept. */
  lemma SortedPrefixSmallest<T>(s: seq<T>, n: nat, key: T -> real)
    requires n <= |s|
    requires forall i, j :: 0 <= i < j < |s| ==> key(s[i]) <= key(s[j])
    ensures multiset(s[..n]) <= multiset(s)
    ensures forall x, y | x in s[..n] && y in multiset(s) - multiset(s[..n]) :: key(x) <= key(y)
  {
    assert s == s[..n] + s[n..];
    assert multiset(s) == multiset(s[..n]) + multiset(s[n..]);
    forall x, y | x in s[..n] && y in multiset(s) - multiset(s[..n]) ensures key(x) <= key(y) {
      assert y in multiset(s[n..]);
      var i :| 0 <= i < n && s[..n][i] == x;
      var j :| 0 <= j < |s| - n && s[n..][j] == y;
      assert s[i] == x && s[n + j] == y;
    }
  }

  /** The first `n` of an ascending sort (`sorted(s, key=key)[:n]`): in
      ascending order, drawn from `s`, and holding its smallest elements. */
  function LowestN<T>(s: seq<T>, n: nat, key: T -> real): (r: seq<T>)
    ensures |r| == Min(n, |s|)
    ensures forall i, j :: 0 <= i < j < |r| ==> key(r[i]) <= key(r[j])
    ensures forall i :: 0 <= i < |r| ==> r[i] in s
    ensures multiset(r) <= multiset(s)
    ensures forall x, y | x in r && y in multiset(s) - multiset(r) :: key(x) <= key(y)
  {
    var sorted := SortAsc(s, key);
    assert |sorted| == |s| by {
      assert |multiset(sorted)| == |multiset(s)|;
    }
    var r := PyPrefix(sorted, n);
    assert r == sorted[..|r|];
    SortedPrefixSmallest(sorted, |r|, key);
    PermutationMembers(sorted, s);
    r
  }

  /** Every element of a permutation comes from the original sequence. */
  lemma PermutationMembers<T>(a: seq<T>, b: seq<T>)
    requires multiset(a) == multiset(b)
    ensures forall i :: 0 <= i < |a| ==> a[i] in b
  {
    forall i | 0 <= i < |a| ensures a[i] in b {
      assert a[i] in multiset(a);
    }
  }

  // ---------------------------------------------------------------------
  // Bounded histories

  /** How many entries the strategies keep in their purchase and sale
      histories. */
  const HistoryLimit: nat := 50

  /** Append, then keep only the latest `limit` entries (Python's
      `h.append(x)` followed by `h = h[-limit:]` once it is too long). */
  function AppendBounded<T>(history: seq<T>, x: T, limit: nat): (r: seq<T>)
    requires limit > 0
    ensures |r| == Min(|history| + 1, limit)
    ensures r[|r| - 1] == x
    ensures forall k :: 0 <= k < |r| - 1 ==> r[k] == history[|history| - (|r| - 1) + k]
  {
    var appended := history + [x];
    if |appended| > limit then appended[|appended| - limit..] else appended
  }

  /** Appends each of `xs` in turn with `AppendBounded`: without new entries
      the history is untouched; otherwise it is the latest `limit` entries of
      the old history followed by all of `xs`. */
  function AppendAllBounded<T>(history: seq<T>, xs: seq<T>, limit: nat): (r: seq<T>)
    requires limit > 0
    ensures |xs| == 0 ==> r == history
    ensures |xs| > 0 ==> |r| == Min(|history| + |xs|, limit)
    ensures |xs| > 0 ==> forall k :: 0 <= k < |r| ==> r[k] == (history + xs)[|history| + |xs| - |r| + k]
    decreases |xs|
  {
    if |xs| == 0 then history
    else
      var h := AppendBounded(history, xs[0], limit);
      var rest := xs[1..];
      var r := AppendAllBounded(h, rest, limit);
      AppendAllBoundedStep(history, xs, limit, h, r);
      r
  }

  /** The inductive step of `AppendAllBounded`: the entries kept after the
      first append are a suffix of the whole, so the rest of the appends
      keep a suffix of the whole too. */
  lemma AppendAllBoundedStep<T>(history: seq<T>, xs: seq<T>, limit: nat, h: seq<T>, r: seq<T>)
    requires limit > 0 && |xs| > 0
    requires h == AppendBounded(history, xs[0], limit)
    requires |xs| == 1 ==> r == h
    requires |xs| > 1 ==> |r| == Min(|h| + |xs| - 1, limit)
    requires |xs| > 1 ==> forall k :: 0 <= k < |r| ==> r[k] == (h + xs[1..])[|h| + |xs| - 1 - |r| + k]
    ensures |r| == Min(|history| + |xs|, limit)
    ensures forall k :: 0 <= k < |r| ==> r[k] == (history + xs)[|history| + |xs| - |r| + k]
  {
    var all := history + xs;
    var n := |all|;
    assert forall k :: 0 <= k < |h| ==> h[k] == all[|history| + 1 - |h| + k] by {
      forall k | 0 <= k < |h| ensures h[k] == all[|history| + 1 - |h| + k] {
        if k < |h| - 1 {
          assert h[k] == history[|history| - (|h| - 1) + k];
        }
      }
    }
    if |xs| > 1 {
      forall k | 0 <= k < |r| ensures r[k] == all[n - |r| + k] {
        var j := |h| + |xs| - 1 - |r| + k;
        if j < |h| {
          assert (h + xs[1..])[j] == h[j];
        } else {
          assert (h + xs[1..])[j] == xs[1..][j - |h|] == xs[j - |h| + 1];
        }
      }
    }
  }
}
