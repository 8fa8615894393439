/**
 * Substring search with the strong failure table (utstring.h), in both
 * directions.  Lengths are taken to fit the source's `int` casts.
 */
module Kmp {

  const INT_MAX: nat := 0x7FFF_FFFF

  /** `b` characters that both begin `p` and end its first `k` characters. */
  ghost predicate Border(p: seq<char>, k: nat, b: int) {
    0 <= b < k <= |p| && p[..b] == p[k - b..k]
  }

  /** `b` is the longest border of the first `k` characters; the empty prefix has -1. */
  ghost predicate LongestBorder(p: seq<char>, k: nat, b: int) {
    && k <= |p|
    && (if k == 0 then b == -1 else Border(p, k, b))
    && forall c :: Border(p, k, c) ==> c <= b
  }

  /** `t` is the longest border of the first `k` characters that `p[k]` does not extend, or -1. */
  ghost predicate StrongFailure(p: seq<char>, k: nat, t: int) {
    && k < |p|
    && (t == -1 || (Border(p, k, t) && p[t] != p[k]))
    && forall c :: Border(p, k, c) && p[c] != p[k] ==> c <= t
  }

  /** Entries below `k` are strong failures; the entry past the needle is its longest border. */
  ghost predicate TableOk(p: seq<char>, table: seq<int>, k: nat) {
    && k <= |p| + 1 && |table| == |p| + 1
    && (forall i :: 0 <= i < k && i < |p| ==> StrongFailure(p, i, table[i]))
    && (k == |p| + 1 ==> LongestBorder(p, |p|, table[|p|]))
  }

  lemma BorderAt(p: seq<char>, k: nat, b: int, i: nat)
    requires Border(p, k, b) && i < b
    ensures p[i] == p[k - b + i]
  {
  }

  /** A border grows by one character exactly when that character matches. */
  lemma BorderExtends(p: seq<char>, k: nat, b: int)
    requires k < |p| && 0 <= b
    ensures Border(p, k + 1, b + 1) <==> Border(p, k, b) && p[b] == p[k]
  {
    if b < k {
      assert p[..b + 1] == p[..b] + [p[b]];
      assert p[k - b..k + 1] == p[k - b..k] + [p[k]];
      if Border(p, k + 1, b + 1) {
        BorderAt(p, k + 1, b + 1, b);
        forall i | 0 <= i < b
          ensures p[..b][i] == p[k - b..k][i]
        {
          BorderAt(p, k + 1, b + 1, i);
        }
      }
    }
  }

  lemma EmptyBorder(p: seq<char>, k: nat)
    requires 0 < k <= |p|
    ensures Border(p, k, 0)
  {
  }

  /** Following a strong failure skips only borders that cannot be extended by `c`. */
  lemma FailureSkips(p: seq<char>, k: nat, j: int, t: int, c: char)
    requires Border(p, k, j) && StrongFailure(p, j, t) && p[j] != c
    requires forall b :: Border(p, k, b) && b > j ==> p[b] != c
    ensures t == -1 || Border(p, k, t)
    ensures t < j
    ensures forall b :: Border(p, k, b) && b > t ==> p[b] != c
  {
  }

  /** The longest extensible border gives the longest border one character on. */
  lemma NextLongest(p: seq<char>, k: nat, j: int)
    requires k < |p|
    requires j == -1 || (Border(p, k, j) && p[j] == p[k])
    requires forall b :: Border(p, k, b) && b > j ==> p[b] != p[k]
    ensures LongestBorder(p, k + 1, j + 1)
  {
    if j == -1 {
      EmptyBorder(p, k + 1);
    } else {
      BorderExtends(p, k, j);
    }
    var next := k + 1;
    forall c | Border(p, next, c)
      ensures c <= j + 1
    {
      if c > 0 {
        BorderExtends(p, k, c - 1);
      }
    }
  }

  /** The table entry from the longest border. */
  lemma FailureFromLongest(p: seq<char>, k: nat, j: int, t: int)
    requires 0 < k < |p| && LongestBorder(p, k, j)
    requires p[k] == p[j] ==> StrongFailure(p, j, t)
    requires p[k] != p[j] ==> t == j
    ensures StrongFailure(p, k, t)
  {
  }

  /** _utstring_BuildTable */
  method BuildTable(needle: seq<char>, table: array<int>)
    requires table.Length == |needle| + 1
    modifies table
    ensures TableOk(needle, table[..], |needle| + 1)
  {
    hide Border, StrongFailure, LongestBorder;
    var n := |needle|;
    var i, j := 0, -1;
    table[0] := -1;
    StartOfTable(needle);
    while i < n
      invariant 0 <= i <= n && -1 <= j < n && j <= i
      invariant LongestBorder(needle, i, j)
      invariant forall k :: 0 <= k <= i && k < n ==> StrongFailure(needle, k, table[k])
      invariant i == n ==> table[n] == j
    {
      LongestIsBorder(needle, i, j);
      while j > -1 && needle[i] != needle[j]
        invariant -1 <= j < n
        invariant j == -1 || (Border(needle, i, j) && j < i)
        invariant forall b :: Border(needle, i, b) && b > j ==> needle[b] != needle[i]
        decreases j
        modifies {}
      {
        FailureSkips(needle, i, j, table[j], needle[i]);
        j := table[j];
        BorderBounds(needle, i, j);
      }
      NextLongest(needle, i, j);
      i := i + 1;
      j := j + 1;
      LongestIsBorder(needle, i, j);
      if i < n {
        if needle[i] == needle[j] {
          FailureFromLongest(needle, i, j, table[j]);
          table[i] := table[j];
        } else {
          FailureFromLongest(needle, i, j, j);
          table[i] := j;
        }
      } else {
        table[i] := j;
      }
    }
  }

  lemma BorderBounds(p: seq<char>, k: nat, b: int)
    ensures Border(p, k, b) ==> 0 <= b < k
  {
  }

  lemma LongestIsBorder(p: seq<char>, k: nat, b: int)
    requires LongestBorder(p, k, b)
    ensures -1 <= b < k || (k == 0 && b == -1)
    ensures k > 0 ==> Border(p, k, b) && 0 <= b < k
    ensures forall c :: Border(p, k, c) ==> c <= b
  {
  }

  lemma StartOfTable(p: seq<char>)
    ensures LongestBorder(p, 0, -1)
    ensures |p| > 0 ==> StrongFailure(p, 0, -1)
  {
  }

  // ----- searching

  ghost predicate OccursAt(h: seq<char>, p: seq<char>, at: int) {
    0 <= at && at + |p| <= |h| && h[at..at + |p|] == p
  }

  ghost predicate NoneBefore(h: seq<char>, p: seq<char>, bound: int) {
    forall q :: q < bound ==> !OccursAt(h, p, q)
  }

  /** The `i` characters before position `j` are the first `i` of the needle. */
  ghost predicate Matched(h: seq<char>, j: nat, p: seq<char>, i: int) {
    0 <= i <= j <= |h| && i <= |p| && h[j - i..j] == p[..i]
  }

  /** Below a match, the shorter matches are the borders. */
  lemma MatchedBorder(h: seq<char>, j: nat, p: seq<char>, i: int, b: int)
    requires Matched(h, j, p, i) && 0 <= b < i
    ensures Matched(h, j, p, b) <==> Border(p, i, b)
  {
  }

  /** An occurrence that starts inside the scanned part matches up to `j` and goes on with `h[j]`. */
  lemma OccurrenceMatches(h: seq<char>, p: seq<char>, at: int, j: nat)
    requires OccursAt(h, p, at) && at <= j < at + |p|
    ensures Matched(h, j, p, j - at) && p[j - at] == h[j]
  {
  }

  /** Following the table after a mismatch skips no occurrence. */
  lemma ShiftSafe(h: seq<char>, j: nat, p: seq<char>, i: int, t: int)
    requires Matched(h, j, p, i) && i < |p| && j < |h| && p[i] != h[j]
    requires StrongFailure(p, i, t) && NoneBefore(h, p, j - i)
    ensures t < i && (t == -1 || Matched(h, j, p, t))
    ensures NoneBefore(h, p, j - t)
  {
    if t >= 0 {
      MatchedBorder(h, j, p, i, t);
    }
    forall q | q < j - t
      ensures !OccursAt(h, p, q)
    {
      if OccursAt(h, p, q) && q >= j - i {
        OccurrenceMatches(h, p, q, j);
        if j - q < i {
          MatchedBorder(h, j, p, i, j - q);
        }
      }
    }
  }

  /** _utstring_find: the first occurrence, or -1. */
  method FindWithTable(haystack: seq<char>, needle: seq<char>, table: array<int>) returns (at: int)
    requires 0 < |needle| && |haystack| <= INT_MAX
    requires TableOk(needle, table[..], |needle| + 1)
    ensures at == -1 ==> forall q :: !OccursAt(haystack, needle, q)
    ensures at != -1 ==> OccursAt(haystack, needle, at) && NoneBefore(haystack, needle, at)
  {
    hide Border, StrongFailure, LongestBorder, Matched, OccursAt;
    var i, j := 0, 0;
    MatchedEmpty(haystack, 0, needle);
    while j < |haystack| && |haystack| - j + i >= |needle|
      invariant 0 <= i < |needle| && i <= j <= |haystack|
      invariant Matched(haystack, j, needle, i) && NoneBefore(haystack, needle, j - i)
      decreases |haystack| - j
    {
      while i > -1 && needle[i] != haystack[j]
        invariant -1 <= i < |needle|
        invariant i == -1 || Matched(haystack, j, needle, i)
        invariant NoneBefore(haystack, needle, j - i)
        decreases i
      {
        assert StrongFailure(needle, i, table[..][i]);
        ShiftSafe(haystack, j, needle, i, table[i]);
        i := table[i];
        MatchedBounds(haystack, j, needle, i);
      }
      Advance(haystack, j, needle, i);
      i := i + 1;
      j := j + 1;
      if i >= |needle| {
        MatchedWhole(haystack, j, needle);
        return j - i;
      }
    }
    NoRoom(haystack, needle, j - i);
    at := -1;
  }

  lemma MatchedEmpty(h: seq<char>, j: nat, p: seq<char>)
    requires j <= |h|
    ensures Matched(h, j, p, 0) && NoneBefore(h, p, 0)
  {
  }

  lemma MatchedBounds(h: seq<char>, j: nat, p: seq<char>, i: int)
    ensures Matched(h, j, p, i) ==> 0 <= i <= j <= |h| && i <= |p|
  {
  }

  lemma Advance(h: seq<char>, j: nat, p: seq<char>, i: int)
    requires j < |h| && -1 <= i < |p| && (i == -1 || (Matched(h, j, p, i) && p[i] == h[j]))
    ensures Matched(h, j + 1, p, i + 1) && i + 1 <= j + 1
  {
  }

  lemma MatchedWhole(h: seq<char>, j: nat, p: seq<char>)
    requires Matched(h, j, p, |p|)
    ensures OccursAt(h, p, j - |p|)
  {
  }

  lemma NoRoom(h: seq<char>, p: seq<char>, bound: int)
    requires NoneBefore(h, p, bound) && |h| - bound < |p|
    ensures forall q :: !OccursAt(h, p, q)
  {
  }

  /**
   * utstring_find: the first occurrence at or after the start position, which
   * counts from the end of the string when negative.
   */
  method Find(s: seq<char>, startPosition: int, needle: seq<char>) returns (at: int)
    requires |s| <= INT_MAX && -|s| <= startPosition
    ensures
      var start := if startPosition < 0 then |s| + startPosition else startPosition;
      if |needle| > 0 && exists q :: q >= start && OccursAt(s, needle, q)
      then at >= start && OccursAt(s, needle, at) && forall q :: start <= q < at ==> !OccursAt(s, needle, q)
      else at == -1
  {
    var start := if startPosition < 0 then |s| + startPosition else startPosition;
    at := -1;
    if |s| - start >= |needle| && |needle| > 0 {
      var table := new int[|needle| + 1];
      BuildTable(needle, table);
      at := FindWithTable(s[start..], needle, table);
      forall q | q >= start
        ensures OccursAt(s, needle, q) <==> OccursAt(s[start..], needle, q - start)
      {
        OccursInTail(s, start, needle, q);
      }
      if at >= 0 {
        at := at + start;
      }
    }
  }

  lemma OccursInTail(s: seq<char>, start: nat, p: seq<char>, q: int)
    requires start <= |s| && q >= start
    ensures OccursAt(s, p, q) <==> OccursAt(s[start..], p, q - start)
  {
  }

  // ----- right to left: the same search on the reversed strings

  function Reversed<T>(s: seq<T>): (r: seq<T>)
    ensures |r| == |s|
    ensures forall i :: 0 <= i < |s| ==> r[i] == s[|s| - 1 - i]
  {
    if s == [] then [] else Reversed(s[1..]) + [s[0]]
  }

  /** The table of the reversed needle that a right-to-left table stands for. */
  ghost predicate Mirrors(needle: seq<char>, table: seq<int>, mirrored: seq<int>, from: nat) {
    && |table| == |mirrored| == |needle| + 1
    && forall u :: 0 <= u <= |needle| - from ==> mirrored[u] == |needle| - 1 - table[|needle| - u]
  }

  lemma MirrorsExtends(needle: seq<char>, table: seq<int>, mirrored: seq<int>, i: int, x: int)
    requires -1 <= i < |needle| - 1 && Mirrors(needle, table, mirrored, i + 2)
    ensures Mirrors(needle, table[i + 1 := x], mirrored[|needle| - 1 - i := |needle| - 1 - x], i + 1)
  {
  }

  /** The inner loop of _utstring_BuildTableR: fall back until the character can be extended. */
  method FallBackR(needle: seq<char>, table: array<int>, i: int, start: int, ghost mirrored: seq<int>) returns (j: int)
    requires 0 <= i < start <= |needle| && table.Length == |needle| + 1
    requires Mirrors(needle, table[..], mirrored, i + 1)
    requires forall k :: 0 <= k <= |needle| - 1 - i ==> StrongFailure(Reversed(needle), k, mirrored[k])
    requires LongestBorder(Reversed(needle), |needle| - 1 - i, |needle| - 1 - start)
    ensures i < j <= |needle|
    ensures
      var u, v := |needle| - 1 - i, |needle| - 1 - j;
      var reversed := Reversed(needle);
      && (v == -1 || (Border(reversed, u, v) && reversed[v] == reversed[u]))
      && (forall b :: Border(reversed, u, b) && b > v ==> 0 <= b < u && reversed[b] != reversed[u])
  {
    hide Border, Reversed, StrongFailure, LongestBorder;
    var n := |needle|;
    ghost var reversed := Reversed(needle);
    ghost var u := n - 1 - i;
    j := start;
    LongestIsBorder(reversed, u, n - 1 - j);
    forall b
      ensures Border(reversed, u, b) ==> 0 <= b < u
    {
      BorderBounds(reversed, u, b);
    }
    while j < n && needle[i] != needle[j]
      invariant i < j <= n
      invariant j == n || Border(reversed, u, n - 1 - j)
      invariant forall b :: Border(reversed, u, b) && b > n - 1 - j ==> reversed[b] != reversed[u]
      decreases n - j
      modifies {}
    {
      ghost var v := n - 1 - j;
      assert mirrored[v] == n - 1 - table[..][n - v];
      FailureSkips(reversed, u, v, mirrored[v], reversed[u]);
      j := table[j + 1];
      BorderBounds(reversed, u, n - 1 - j);
    }
  }

  /** The table entry for the position whose longest border is known. */
  method EntryR(needle: seq<char>, table: array<int>, i: int, j: int, ghost mirrored: seq<int>) returns (entry: int)
    requires -1 <= i < |needle| - 1 && i < j < |needle| && table.Length == |needle| + 1
    requires Mirrors(needle, table[..], mirrored, i + 2)
    requires LongestBorder(Reversed(needle), |needle| - 1 - i, |needle| - 1 - j)
    requires forall k :: 0 <= k < |needle| - 1 - i ==> StrongFailure(Reversed(needle), k, mirrored[k])
    ensures if i < 0 then entry == j else StrongFailure(Reversed(needle), |needle| - 1 - i, |needle| - 1 - entry)
  {
    hide Border, Reversed, StrongFailure, LongestBorder;
    var n := |needle|;
    LongestIsBorder(Reversed(needle), n - 1 - i, n - 1 - j);
    entry := j;
    if i >= 0 {
      if needle[i] == needle[j] {
        entry := table[j + 1];
        assert mirrored[n - 1 - j] == n - 1 - table[..][j + 1];
      }
      FailureFromLongest(Reversed(needle), n - 1 - i, n - 1 - j, n - 1 - entry);
    }
  }

  /** _utstring_BuildTableR */
  method BuildTableR(needle: seq<char>, table: array<int>) returns (ghost mirrored: seq<int>)
    requires table.Length == |needle| + 1
    modifies table
    ensures TableOk(Reversed(needle), mirrored, |needle| + 1)
    ensures Mirrors(needle, table[..], mirrored, 0)
  {
    hide Border, Reversed, StrongFailure, LongestBorder;
    var n := |needle|;
    ghost var reversed := Reversed(needle);
    var i, j := n - 1, n;
    table[i + 1] := j;
    mirrored := seq(n + 1, _ => -1);
    StartOfTable(reversed);
    while i >= 0
      invariant -1 <= i < n && i < j <= n && 0 <= j
      invariant |mirrored| == n + 1
      invariant LongestBorder(reversed, n - 1 - i, n - 1 - j)
      invariant forall k :: 0 <= k <= n - 1 - i && k < n ==> StrongFailure(reversed, k, mirrored[k])
      invariant Mirrors(needle, table[..], mirrored, i + 1)
      invariant i == -1 ==> mirrored[n] == n - 1 - j
    {
      ghost var u := n - 1 - i;
      j := FallBackR(needle, table, i, j, mirrored);
      NextLongest(reversed, u, n - 1 - j);
      i := i - 1;
      j := j - 1;
      var entry := EntryR(needle, table, i, j, mirrored);
      MirrorsExtends(needle, table[..], mirrored, i, entry);
      hide Mirrors;
      table[i + 1] := entry;
      mirrored := mirrored[u + 1 := n - 1 - entry];
    }
  }

  lemma OccursReversed(h: seq<char>, p: seq<char>, q: int)
    ensures OccursAt(h, p, q) <==> OccursAt(Reversed(h), Reversed(p), |h| - q - |p|)
  {
    hide Reversed;
    var q' := |h| - q - |p|;
    if 0 <= q && 0 <= q' {
      var a, b := h[q..q + |p|], Reversed(h)[q'..q' + |p|];
      forall i | 0 <= i < |p|
        ensures b[i] == a[|p| - 1 - i] && Reversed(p)[i] == p[|p| - 1 - i]
      {
        assert b[i] == Reversed(h)[q' + i] == h[|h| - 1 - (q' + i)];
      }
      if b == Reversed(p) {
        forall i | 0 <= i < |p|
          ensures a[i] == p[i]
        {
          assert b[|p| - 1 - i] == a[i] && Reversed(p)[|p| - 1 - i] == p[i];
        }
      }
    }
  }

  /** _utstring_findR: the last occurrence, or -1. */
  method FindWithTableR(haystack: seq<char>, needle: seq<char>, table: array<int>, ghost mirrored: seq<int>)
    returns (at: int)
    requires 0 < |needle| <= INT_MAX && |haystack| <= INT_MAX
    requires TableOk(Reversed(needle), mirrored, |needle| + 1) && Mirrors(needle, table[..], mirrored, 0)
    ensures at == -1 ==> forall q :: !OccursAt(haystack, needle, q)
    ensures at != -1 ==> OccursAt(haystack, needle, at) && forall q :: q > at ==> !OccursAt(haystack, needle, q)
  {
    hide Border, StrongFailure, LongestBorder, Matched, OccursAt, Reversed;
    ghost var h, p := Reversed(haystack), Reversed(needle);
    forall q
      ensures OccursAt(haystack, needle, q) <==> OccursAt(h, p, |h| - q - |p|)
    {
      OccursReversed(haystack, needle, q);
    }
    var n, m := |needle|, |haystack|;
    var j, i := m - 1, n - 1;
    MatchedEmpty(h, 0, p);
    while j >= 0 && j >= i
      invariant 0 <= i < n && -1 <= j < m && n - 1 - i <= m - 1 - j
      invariant Matched(h, m - 1 - j, p, n - 1 - i) && NoneBefore(h, p, (m - 1 - j) - (n - 1 - i))
      decreases j
    {
      while i < n && needle[i] != haystack[j]
        invariant 0 <= i <= n
        invariant i == n || Matched(h, m - 1 - j, p, n - 1 - i)
        invariant NoneBefore(h, p, (m - 1 - j) - (n - 1 - i))
        decreases n - i
      {
        ghost var v := n - 1 - i;
        assert StrongFailure(p, v, mirrored[v]);
        assert mirrored[v] == n - 1 - table[..][n - v];
        ShiftSafe(h, m - 1 - j, p, v, mirrored[v]);
        i := table[i + 1];
        MatchedBounds(h, m - 1 - j, p, n - 1 - i);
      }
      Advance(h, m - 1 - j, p, n - 1 - i);
      i := i - 1;
      j := j - 1;
      if i < 0 {
        MatchedWhole(h, m - 1 - j, p);
        return j + 1;
      }
    }
    NoRoom(h, p, (m - 1 - j) - (n - 1 - i));
    at := -1;
  }

  /**
   * utstring_findR: the last occurrence that ends at or before the start
   * position, which counts from the end of the string when negative.
   */
  method FindR(s: seq<char>, startPosition: int, needle: seq<char>) returns (at: int)
    requires |s| <= INT_MAX && startPosition < |s|
    ensures
      var end := (if startPosition < 0 then |s| + startPosition else startPosition) + 1;
      if |needle| > 0 && exists q :: q + |needle| <= end && OccursAt(s, needle, q)
      then at + |needle| <= end && OccursAt(s, needle, at) &&
           forall q :: at < q && q + |needle| <= end ==> !OccursAt(s, needle, q)
      else at == -1
  {
    var end := (if startPosition < 0 then |s| + startPosition else startPosition) + 1;
    at := -1;
    if end >= |needle| && |needle| > 0 {
      var table := new int[|needle| + 1];
      ghost var mirrored := BuildTableR(needle, table);
      at := FindWithTableR(s[..end], needle, table, mirrored);
      forall q | q + |needle| <= end
        ensures OccursAt(s, needle, q) <==> OccursAt(s[..end], needle, q)
      {
        if 0 <= q {
          assert s[..end][q..q + |needle|] == s[q..q + |needle|];
        }
      }
    }
  }
}
