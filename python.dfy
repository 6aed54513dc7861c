/** The pieces of Python's built-in semantics that the modelled code relies on:
    the exceptions it raises, floor division and modulo, list indexing and slicing
    with negative positions, and the str methods find, split and replace. */
module PyBuiltins {

  /** The built-in exceptions the modelled code can raise. */
  datatype PyError = TypeError | IndexError | ValueError | ZeroDivisionError

  /** A value or the exception that replaced it. */
  datatype Result<T> = Ok(value: T) | Err(error: PyError)

  datatype Option<T> = None | Some(value: T)

  /** A byte, as `ord` returns it. */
  type byte = x: int | 0 <= x < 256

  /** Where the code has a defect, the model can follow it as written or as
      it is evidently meant. */
  datatype Policy = AsWritten | Corrected

  // ---------------------------------------------------------------------------
  // Integer division: Python's // and % round toward negative infinity.

  /** Python's `a % d`: the remainder takes the sign of the divisor. */
  function FloorMod(a: int, d: int): (r: int)
    requires d != 0
    ensures d > 0 ==> 0 <= r < d
    ensures d < 0 ==> d < r <= 0
  {
    if d > 0 || a % d == 0 then a % d else a % d + d
  }

  /** Python's `a // d`. */
  function FloorDiv(a: int, d: int): (q: int)
    requires d != 0
    ensures q * d + FloorMod(a, d) == a
  {
    if d > 0 || a % d == 0 then a / d else a / d - 1
  }

  // ---------------------------------------------------------------------------
  // Sequences indexed the Python way.

  /** The position `s[i]` designates: `i` itself, or `i + |s|` for a negative `i`;
      None where Python raises IndexError. */
  function NormIndex(n: nat, i: int): (p: Option<nat>)
    ensures p.Some? <==> -(n as int) <= i < n
    ensures p.Some? ==> p.value < n && (p.value == i || p.value == i + n)
  {
    if 0 <= i < n then Some(i) else if -(n as int) <= i < 0 then Some(i + n) else None
  }

  /** `s[i]`. */
  function At<T>(s: seq<T>, i: int): (r: Result<T>)
    ensures r.Ok? <==> -|s| <= i < |s|
    ensures r.Err? ==> r.error == IndexError
    ensures 0 <= i < |s| ==> r == Ok(s[i])
    ensures -|s| <= i < 0 ==> r == Ok(s[|s| + i])
  {
    match NormIndex(|s|, i)
    case Some(p) => Ok(s[p])
    case None => Err(IndexError)
  }

  /** One bound of a slice after Python adjusts it: negative bounds count from
      the end, and the result is clipped to `0..n`; None stands for the default. */
  function SliceBound(n: nat, b: Option<int>, default: nat): (p: nat)
    requires default <= n
    ensures p <= n
    ensures b.None? ==> p == default
    ensures b.Some? && 0 <= b.value <= n ==> p == b.value
    ensures b.Some? && -(n as int) <= b.value < 0 ==> p == b.value + n
  {
    match b
    case None => default
    case Some(i) =>
      if i < 0 then (if i + n < 0 then 0 else i + n)
      else if i > n then n
      else i
  }

  /** `s[start:stop]`: never raises, empty when the adjusted bounds cross. */
  function Slice<T>(s: seq<T>, start: Option<int>, stop: Option<int>): (r: seq<T>)
    ensures |r| <= |s|
    ensures start.Some? && stop.Some? && 0 <= start.value <= stop.value <= |s| ==>
              r == s[start.value..stop.value]
  {
    var lo := SliceBound(|s|, start, 0);
    var hi := SliceBound(|s|, stop, |s|);
    if lo < hi then s[lo..hi] else []
  }

  // ---------------------------------------------------------------------------
  // Substrings.

  /** `pat` occurs in `s` at index `i`. */
  predicate OccursAt<T(==)>(s: seq<T>, pat: seq<T>, i: nat) {
    i + |pat| <= |s| && s[i..i + |pat|] == pat
  }

  /** Python's `pat in s` for strings. */
  predicate Contains<T(==)>(s: seq<T>, pat: seq<T>) {
    exists i: nat | i <= |s| :: OccursAt(s, pat, i)
  }

  /** Python's `s.find(pat)`: the first index at or after `from` where `pat`
      occurs, or -1. */
  function FindFrom<T(==)>(s: seq<T>, pat: seq<T>, from: nat): (r: int)
    requires from <= |s|
    ensures r == -1 || (from <= r && OccursAt(s, pat, r))
    ensures r == -1 ==> forall i: nat :: from <= i ==> !OccursAt(s, pat, i)
    ensures r >= 0 ==> forall i: nat :: from <= i < r ==> !OccursAt(s, pat, i)
    decreases |s| - from
  {
    if OccursAt(s, pat, from) then from
    else if from == |s| then -1
    else FindFrom(s, pat, from + 1)
  }

  function Find<T(==)>(s: seq<T>, pat: seq<T>): (r: int)
    ensures r == -1 <==> !Contains(s, pat)
    ensures r >= 0 ==> OccursAt(s, pat, r) && forall i: nat :: i < r ==> !OccursAt(s, pat, i)
  {
    FindFrom(s, pat, 0)
  }

  /** `pat` does not even begin inside the first `k` positions of `s`. */
  predicate NoMatchBefore<T(==)>(s: seq<T>, pat: seq<T>, k: nat) {
    forall i: nat :: i < k ==> !OccursAt(s, pat, i)
  }

  /** Python's `s.replace(old, new)`: every occurrence of `old`, scanning left to
      right and never overlapping, is replaced by `new`; an empty `old` matches
      before every character and at the end. */
  function Replace<T(==)>(s: seq<T>, pat: seq<T>, rep: seq<T>): seq<T>
    decreases |s|, |pat|
  {
    if pat == [] then
      (if s == [] then rep else rep + [s[0]] + Replace(s[1..], pat, rep))
    else if |pat| <= |s| && s[..|pat|] == pat then rep + Replace(s[|pat|..], pat, rep)
    else if s == [] then []
    else [s[0]] + Replace(s[1..], pat, rep)
  }

  /** Replacing a pattern that does not occur leaves the text unchanged. */
  lemma {:induction false} ReplaceAbsent<T>(s: seq<T>, pat: seq<T>, rep: seq<T>)
    requires pat != [] && !Contains(s, pat)
    ensures Replace(s, pat, rep) == s
    decreases |s|
  {
    if s != [] {
      assert !OccursAt(s, pat, 0);
      forall i: nat ensures !OccursAt(s[1..], pat, i) {
        if OccursAt(s[1..], pat, i) {
          assert s[1..][i..i + |pat|] == s[i + 1..i + 1 + |pat|];
          assert OccursAt(s, pat, i + 1);
        }
      }
      ReplaceAbsent(s[1..], pat, rep);
    }
  }

  /** Replacing a pattern by itself is the identity. */
  lemma {:induction false} ReplaceSelf<T>(s: seq<T>, pat: seq<T>)
    ensures Replace(s, pat, pat) == s
    decreases |s|
  {
    if pat == [] {
      if s != [] { ReplaceSelf(s[1..], pat); }
    } else if |pat| <= |s| && s[..|pat|] == pat {
      ReplaceSelf(s[|pat|..], pat);
      assert s == pat + s[|pat|..];
    } else if s != [] {
      ReplaceSelf(s[1..], pat);
      assert s == [s[0]] + s[1..];
    }
  }

  /** Without an occurrence at the start, the first element is copied. */
  lemma ReplaceCopiesHead<T>(x: T, rest: seq<T>, pat: seq<T>, rep: seq<T>)
    requires pat != [] && !OccursAt([x] + rest, pat, 0)
    ensures Replace([x] + rest, pat, rep) == [x] + Replace(rest, pat, rep)
  {
    var s := [x] + rest;
    assert s[1..] == rest;
    assert !(|pat| <= |s| && s[..|pat|] == pat) by {
      if |pat| <= |s| { assert s[..|pat|] == s[0..0 + |pat|]; }
    }
  }

  lemma NoMatchShift<T>(x: T, rest: seq<T>, pat: seq<T>, k: nat)
    requires 0 < k && NoMatchBefore([x] + rest, pat, k)
    ensures NoMatchBefore(rest, pat, k - 1)
  {
    var t := [x] + rest;
    forall i: nat | i < k - 1 ensures !OccursAt(rest, pat, i) {
      assert !OccursAt(t, pat, i + 1);
      if i + |pat| <= |rest| {
        assert rest[i..i + |pat|] == t[i + 1..i + 1 + |pat|];
      }
    }
  }

  /** A prefix in which no occurrence of a non-empty pattern begins is copied
      unchanged, and replacement continues after it. */
  lemma {:induction false} ReplaceKeepsPrefix<T>(p: seq<T>, s: seq<T>, pat: seq<T>, rep: seq<T>)
    requires pat != [] && NoMatchBefore(p + s, pat, |p|)
    ensures Replace(p + s, pat, rep) == p + Replace(s, pat, rep)
    decreases |p|
  {
    if p == [] {
      assert p + s == s;
    } else {
      var t := p[1..] + s;
      assert p + s == [p[0]] + t;
      NoMatchShift(p[0], t, pat, |p|);
      ReplaceKeepsPrefix(p[1..], s, pat, rep);
      ReplaceCopiesHead(p[0], t, pat, rep);
      calc {
        Replace(p + s, pat, rep);
        Replace([p[0]] + t, pat, rep);
        [p[0]] + Replace(t, pat, rep);
        [p[0]] + (p[1..] + Replace(s, pat, rep));
        { assert [p[0]] + p[1..] == p; }
        p + Replace(s, pat, rep);
      }
    }
  }

  /** An occurrence at the very start is replaced first. */
  lemma ReplaceAtStart<T>(s: seq<T>, pat: seq<T>, rep: seq<T>)
    requires pat != []
    ensures Replace(pat + s, pat, rep) == rep + Replace(s, pat, rep)
  {
    assert (pat + s)[..|pat|] == pat;
    assert (pat + s)[|pat|..] == s;
  }
}
