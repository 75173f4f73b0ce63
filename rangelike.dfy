/**
 * The range of `column LIKE pattern` (`newBuildFromPatternLike` in
 * sql/plan/range.go): the literal prefix of the pattern up to its first
 * wildcard, and an upper bound made by incrementing the prefix's last byte
 * with carry.  `Matches` is the meaning of LIKE the range is checked
 * against: every string the pattern matches lies in the range.
 */
module RangeLike {
  import opened Outcomes
  import opened Encoding
  import opened Datums
  import opened RangePoints

  const Percent: byte := 37     // '%'
  const Underscore: byte := 95  // '_'

  /** How the prefix scan ended: at the end of the pattern, at a `%`, or at a `_`. */
  datatype Stop = Exact | AtPercent | AtUnderscore

  /** `byte(x)` in Go: the low eight bits of a 64-bit integer. */
  function LowByte(x: int64): byte
  {
    x % 256
  }

  /**
   * The prefix scan from position `i` with `low` gathered so far: an escape
   * byte copies the byte after it (or itself when it is last), `%` and `_`
   * stop the scan, any other byte is copied.
   */
  function PrefixFrom(pattern: seq<byte>, escape: byte, i: nat, low: seq<byte>): (r: (seq<byte>, Stop))
    ensures i <= |pattern| ==> |r.0| <= |low| + |pattern| - i
    decreases |pattern| - i
  {
    if i >= |pattern| then (low, Exact)
    else if pattern[i] == escape then
      if i + 1 < |pattern| then PrefixFrom(pattern, escape, i + 2, low + [pattern[i + 1]])
      else (low + [escape], Exact)
    else if pattern[i] == Percent then (low, AtPercent)
    else if pattern[i] == Underscore then (low, AtUnderscore)
    else PrefixFrom(pattern, escape, i + 1, low + [pattern[i]])
  }

  /** The literal prefix of a pattern and how its scan ended. */
  function LikePrefix(pattern: seq<byte>, escape: byte): (seq<byte>, Stop)
  {
    PrefixFrom(pattern, escape, 0, [])
  }

  /**
   * The prefix loop of `newBuildFromPatternLike`: one pass over the
   * pattern, skipping the byte after an escape.
   */
  method ScanPrefix(pattern: seq<byte>, escape: byte) returns (low: seq<byte>, stop: Stop)
    ensures (low, stop) == LikePrefix(pattern, escape)
  {
    low := [];
    stop := Exact;
    var i := 0;
    while i < |pattern|
      invariant 0 <= i <= |pattern| + 1
      invariant i <= |pattern| ==> PrefixFrom(pattern, escape, i, low) == LikePrefix(pattern, escape)
      invariant i > |pattern| ==> (low, Exact) == LikePrefix(pattern, escape)
      decreases |pattern| - i
    {
      if pattern[i] == escape {
        i := i + 1;
        if i < |pattern| {
          low := low + [pattern[i]];
        } else {
          low := low + [escape];
        }
        i := i + 1;
        continue;
      }
      if pattern[i] == Percent {
        stop := AtPercent;
        return;
      } else if pattern[i] == Underscore {
        stop := AtUnderscore;
        return;
      }
      low := low + [pattern[i]];
      i := i + 1;
    }
  }

  // ---------------------------------------------------------------------
  // What LIKE matches

  /**
   * `s[j..]` matches `pattern[i..]`: `%` matches any run of bytes, `_` any
   * one byte, an escaped byte (or a trailing escape) itself, any other
   * byte itself.
   */
  ghost predicate Matches(pattern: seq<byte>, escape: byte, i: nat, s: seq<byte>, j: nat)
    requires j <= |s|
    decreases |pattern| - i, |s| - j
  {
    if i >= |pattern| then j == |s|
    else if pattern[i] == escape then
      var lit := if i + 1 < |pattern| then pattern[i + 1] else escape;
      j < |s| && s[j] == lit && Matches(pattern, escape, if i + 1 < |pattern| then i + 2 else i + 1, s, j + 1)
    else if pattern[i] == Percent then
      Matches(pattern, escape, i + 1, s, j) || (j < |s| && Matches(pattern, escape, i, s, j + 1))
    else if pattern[i] == Underscore then
      j < |s| && Matches(pattern, escape, i + 1, s, j + 1)
    else
      j < |s| && s[j] == pattern[i] && Matches(pattern, escape, i + 1, s, j + 1)
  }

  /**
   * A string the rest of the pattern matches continues with the prefix the
   * scan gathers; it is that prefix exactly when the scan reaches the end,
   * and longer when it stops at `_`.
   */
  lemma {:induction false} PrefixFromSound(pattern: seq<byte>, escape: byte, i: nat, low: seq<byte>, s: seq<byte>, j: nat)
    requires j <= |s| && s[..j] == low
    requires Matches(pattern, escape, i, s, j)
    ensures var (p, stop) := PrefixFrom(pattern, escape, i, low);
      && |p| <= |s| && s[..|p|] == p
      && (stop == Exact ==> s == p)
      && (stop == AtUnderscore ==> |s| > |p|)
    decreases |pattern| - i
  {
    if i >= |pattern| {
      assert s == s[..j];
    } else if pattern[i] == escape {
      assert s[..j + 1] == low + [s[j]];
      if i + 1 < |pattern| {
        PrefixFromSound(pattern, escape, i + 2, low + [pattern[i + 1]], s, j + 1);
      } else {
        assert s == s[..j + 1];
      }
    } else if pattern[i] == Percent || pattern[i] == Underscore {
      assert s[..|low|] == low;
    } else {
      assert s[..j + 1] == low + [s[j]];
      PrefixFromSound(pattern, escape, i + 1, low + [pattern[i]], s, j + 1);
    }
  }

  // ---------------------------------------------------------------------
  // The upper bound

  /** Every byte is 0xff: incrementing with carry overflows. */
  predicate AllMax(s: seq<byte>)
  {
    forall k :: 0 <= k < |s| ==> s[k] == 255
  }

  /** `n` zero bytes. */
  function Zeros(n: nat): (z: seq<byte>)
    ensures |z| == n && forall k :: 0 <= k < n ==> z[k] == 0
  {
    if n == 0 then [] else Zeros(n - 1) + [0]
  }

  /**
   * The increment of `low` with carry: the last byte below 0xff goes up by
   * one and the 0xff bytes after it wrap to zero; `None` when every byte
   * is 0xff.
   */
  function Increment(low: seq<byte>): (r: Option<seq<byte>>)
    ensures r.None? <==> AllMax(low)
    ensures r.Some? ==> |r.value| == |low|
  {
    if low == [] then None
    else if low[|low| - 1] < 255 then Some(low[..|low| - 1] + [low[|low| - 1] + 1])
    else
      match Increment(low[..|low| - 1])
      case None => None
      case Some(h) => Some(h + [0])
  }

  /** As numbers, the increment is one more. */
  lemma {:induction false} IncrementIsSuccessor(low: seq<byte>)
    requires !AllMax(low)
    ensures FromBigEndian(Increment(low).value) == FromBigEndian(low) + 1
  {
    var init := low[..|low| - 1];
    var h := Increment(low).value;
    assert h[..|h| - 1] == (if low[|low| - 1] < 255 then init else Increment(init).value);
    if low[|low| - 1] == 255 {
      IncrementIsSuccessor(init);
    }
  }

  /** The increment agrees with `low` up to some position, where it is larger. */
  lemma {:induction false} IncrementAbove(low: seq<byte>) returns (i: nat)
    requires !AllMax(low)
    ensures i < |low| && Increment(low).value[..i] == low[..i] && Increment(low).value[i] > low[i]
  {
    var init := low[..|low| - 1];
    var h := Increment(low).value;
    if low[|low| - 1] < 255 {
      i := |low| - 1;
      assert h[..i] == init;
    } else {
      i := IncrementAbove(init);
      assert h[..i] == Increment(init).value[..i];
    }
  }

  /**
   * The carry loop of `newBuildFromPatternLike`: from the last byte
   * backwards, increment (wrapping 0xff to 0) until a byte does not wrap;
   * the end point is the incremented bytes, excluded, or the maximum value
   * when every byte wraps.
   */
  method UpperBound(low: seq<byte>) returns (end: Point)
    requires 0 < |low| <= MaxInt64
    ensures end.excl && !end.start
    ensures AllMax(low) ==> end.value == MaxValue
    ensures !AllMax(low) ==> end.value == Bytes(Increment(low).value)
  {
    var highValue := new byte[|low|](k requires 0 <= k < |low| => low[k]);
    end := End(Null, true);
    var i := |low| - 1;
    while i >= 0
      invariant -1 <= i < |low|
      invariant highValue.Length == |low|
      invariant highValue[..i + 1] == low[..i + 1]
      invariant forall k :: i < k < |low| ==> highValue[k] == 0 && low[k] == 255
      invariant i >= 0 ==> end == End(Null, true)
      invariant i == -1 ==> end == End(MaxValue, true)
      decreases i
    {
      highValue[i] := (highValue[i] as int + 1) % 256;
      if highValue[i] != 0 {
        CarryStops(low, i, highValue[..]);
        end := End(Bytes(highValue[..]), true);
        return;
      }
      if i == 0 {
        end := End(MaxValue, true);
      }
      i := i - 1;
    }
  }

  /** Where the carry stops: below the position the bytes are `low`'s, there one more, after it zeros. */
  lemma CarryStops(low: seq<byte>, i: nat, high: seq<byte>)
    requires i < |low| == |high| && low[i] < 255
    requires high[..i] == low[..i] && high[i] == low[i] + 1
    requires forall k :: i < k < |low| ==> high[k] == 0 && low[k] == 255
    ensures !AllMax(low) && Increment(low) == Some(high)
    decreases |low|
  {
    var init := low[..|low| - 1];
    if i < |low| - 1 {
      CarryStops(init, i, high[..|high| - 1]);
      assert high == high[..|high| - 1] + [0];
    } else {
      assert high == init + [low[i] + 1];
    }
  }

  // ---------------------------------------------------------------------
  // The range

  /**
   * The points `newBuildFromPatternLike` returns for a pattern it could
   * read: `["", ""]` for the empty pattern, every non-null value when the
   * prefix is empty, the point `[p, p]` for a pattern without wildcards,
   * and otherwise from the prefix (excluded when the scan stopped at `_`)
   * to its increment, excluded.
   */
  function LikePoints(pattern: ByteString, escape: byte): (points: seq<Point>)
    ensures Alternating(points)
  {
    if pattern == [] then [Start(Bytes([]), false), End(Bytes([]), false)]
    else
      var (low, stop) := LikePrefix(pattern, escape);
      if low == [] then [Start(MinNotNull, false), End(MaxValue, false)]
      else if stop == Exact then [Start(Bytes(low), false), End(Bytes(low), false)]
      else
        [Start(Bytes(low), stop == AtUnderscore),
         End(if AllMax(low) then MaxValue else Bytes(Increment(low).value), true)]
  }

  /** A byte string sorts no later than its extensions, and strictly before the longer ones. */
  lemma {:induction false} PrefixCompare(p: seq<byte>, s: seq<byte>)
    requires |p| <= |s| && s[..|p|] == p
    ensures CompareBytes(p, s) <= 0
    ensures |s| > |p| ==> CompareBytes(p, s) < 0
  {
    if p != [] {
      assert s[1..][..|p| - 1] == p[1..];
      PrefixCompare(p[1..], s[1..]);
    }
  }

  /** Strings that agree up to a position and differ there are ordered by the bytes there. */
  lemma {:induction false} FirstDifferenceCompare(s: seq<byte>, h: seq<byte>, i: nat)
    requires i < |s| && i < |h| && s[..i] == h[..i] && s[i] < h[i]
    ensures CompareBytes(s, h) < 0
  {
    if i > 0 {
      assert s[0] == s[..i][0] == h[..i][0] == h[0];
      assert s[1..][..i - 1] == s[..i][1..] == h[..i][1..] == h[1..][..i - 1];
      FirstDifferenceCompare(s[1..], h[1..], i - 1);
    }
  }

  /** Every string a pattern matches lies in the range built for the pattern. */
  lemma LikeSound(pattern: ByteString, escape: byte, s: ByteString)
    requires Matches(pattern, escape, 0, s, 0)
    ensures Member(LikePoints(pattern, escape), Bytes(s))
  {
    var points := LikePoints(pattern, escape);
    PairMember(points[0], points[1], Bytes(s));
    if pattern != [] {
      var (low, stop) := LikePrefix(pattern, escape);
      PrefixFromSound(pattern, escape, 0, [], s, 0);
      if low != [] && stop != Exact {
        PrefixRangeSound(low, stop == AtUnderscore, s);
      }
    } else {
      assert s == [];
    }
  }

  /**
   * A string that extends the prefix (strictly, when the start is
   * excluded) lies between the prefix and its increment.
   */
  lemma PrefixRangeSound(low: ByteString, excl: bool, s: ByteString)
    requires low != [] && |low| <= |s| && s[..|low|] == low
    requires excl ==> |s| > |low|
    ensures Admits(Start(Bytes(low), excl), End(if AllMax(low) then MaxValue else Bytes(Increment(low).value), true), Bytes(s))
  {
    PrefixCompare(low, s);
    if !AllMax(low) {
      PrefixBelowIncrement(low, s);
    }
  }

  /** An extension of a byte string sorts before the string's increment. */
  lemma PrefixBelowIncrement(low: ByteString, s: ByteString)
    requires !AllMax(low) && |low| <= |s| && s[..|low|] == low
    ensures CompareBytes(s, Increment(low).value) < 0
  {
    var h := Increment(low).value;
    var i := IncrementAbove(low);
    assert s[..i] == low[..i] by {
      assert s[..|low|][..i] == s[..i];
    }
    FirstDifferenceCompare(s, h, i);
  }
}
