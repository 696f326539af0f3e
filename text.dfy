/**
 * The JavaScript string primitives the core is built from: `startsWith`,
 * `indexOf`/`includes`, `trim`/`trimEnd`, `join`, `split` and a global
 * literal `replace`, together with the facts about occurrences of a literal
 * token that the proofs about the regular-expression scans reuse.
 */
module Text {
  import opened Wrappers

  /** `s.startsWith(pat)` */
  predicate StartsWith(s: string, pat: string) {
    |pat| <= |s| && s[..|pat|] == pat
  }

  /** `s.endsWith(pat)` */
  predicate EndsWith(s: string, pat: string) {
    |pat| <= |s| && s[|s| - |pat|..] == pat
  }

  lemma PrefixOfConcat(a: string, b: string)
    ensures StartsWith(a + b, a)
  {
    assert (a + b)[..|a|] == a;
  }

  lemma SuffixOfConcat(a: string, b: string)
    ensures EndsWith(a + b, b)
  {
    assert (a + b)[|a + b| - |b|..] == b;
  }

  lemma ConcatAssoc<T>(a: seq<T>, b: seq<T>, c: seq<T>)
    ensures a + (b + c) == (a + b) + c
  {
  }

  lemma ConcatEmpty<T>(a: seq<T>)
    ensures a + [] == a
  {
  }

  lemma Wrapped(a: string, b: string, c: string)
    ensures StartsWith(a + b + c, a) && EndsWith(a + b + c, c)
  {
    assert (a + b + c)[..|a|] == a;
    assert (a + b + c)[|a + b + c| - |c|..] == c;
  }

  lemma PrefixTransitive(s: string, a: string, b: string)
    requires StartsWith(s, a) && StartsWith(a, b)
    ensures StartsWith(s, b)
  {
    assert s[..|b|] == s[..|a|][..|b|];
  }

  /** `pat` occurs in `s` starting at index `i`. */
  predicate OccursAt(s: string, pat: string, i: nat) {
    i <= |s| && StartsWith(s[i..], pat)
  }

  lemma SliceOfSlices(s: string, q: nat, k: nat, n: nat)
    requires q + k + n <= |s|
    ensures s[q..][k..][..n] == s[q + k..q + k + n]
  {
  }

  /** Where `pat` occurs in a suffix of `s`, the same stretch of `s` itself is `pat`. */
  lemma FoundInSuffix(s: string, q: nat, pat: string, k: nat)
    requires q <= |s| && OccursAt(s[q..], pat, k)
    ensures q + k + |pat| <= |s| && s[q + k..q + k + |pat|] == pat
  {
    SliceOfSlices(s, q, k, |pat|);
  }

  /** `s.indexOf(pat)`: the leftmost index at which `pat` occurs, or None for -1. */
  function IndexOf(s: string, pat: string): (r: Option<nat>)
    ensures r.Some? ==> r.value + |pat| <= |s| && OccursAt(s, pat, r.value)
    ensures r.Some? ==> forall i :: 0 <= i < r.value ==> !OccursAt(s, pat, i)
    ensures r.None? ==> forall i :: 0 <= i <= |s| ==> !OccursAt(s, pat, i)
    decreases |s|
  {
    if StartsWith(s, pat) then Some(0)
    else if |s| == 0 then None
    else
      var r' := IndexOf(s[1..], pat);
      assert forall i :: 1 <= i <= |s| ==> s[1..][i - 1..] == s[i..];
      assert forall i :: 1 <= i <= |s| ==> (OccursAt(s, pat, i) <==> OccursAt(s[1..], pat, i - 1));
      match r'
      case None => None
      case Some(i) => Some(i + 1)
  }

  /** `s.includes(pat)` */
  predicate Contains(s: string, pat: string) {
    IndexOf(s, pat).Some?
  }

  /** An occurrence at a known index is the leftmost one when none starts earlier. */
  lemma IndexOfLeftmost(s: string, pat: string, k: nat)
    requires k <= |s| && StartsWith(s[k..], pat)
    requires forall i :: 0 <= i < k ==> !OccursAt(s, pat, i)
    ensures IndexOf(s, pat) == Some(k)
  {
    assert OccursAt(s, pat, k);
  }

  /** No occurrence of `pat` starts at an index below `n`. */
  ghost predicate NoStartBefore(s: string, pat: string, n: nat) {
    forall i :: 0 <= i < n && i <= |s| ==> !OccursAt(s, pat, i)
  }

  /** A text lacks `pat` when `pat` holds a character the text does not. */
  lemma LacksByChar(s: string, pat: string, c: char)
    requires c in pat && c !in s
    ensures !Contains(s, pat)
  {
  }

  /**
   * No occurrence of `pat` can straddle the seam of `a + b`: one side is
   * empty, or the first character of `b` cannot continue a partial
   * occurrence, or the last character of `a` cannot begin one that goes on.
   */
  predicate NoBridge(a: string, b: string, pat: string) {
    |a| == 0 || |b| == 0 || |pat| == 0 || b[0] !in pat[1..] || a[|a| - 1] !in pat[..|pat| - 1]
  }

  /** A prefix that lacks `pat` contributes no occurrence to `a + x` when the seam cannot be bridged. */
  lemma NoStartInPrefix(a: string, x: string, pat: string)
    requires |pat| > 0 && !Contains(a, pat) && NoBridge(a, x, pat)
    ensures NoStartBefore(a + x, pat, |a|)
  {
    forall i | 0 <= i < |a| ensures !OccursAt(a + x, pat, i) {
      if i + |pat| <= |a| {
        assert (a + x)[i..][..|pat|] == a[i..][..|pat|];
        assert !OccursAt(a, pat, i);
      } else if i + |pat| <= |a + x| {
        var k := |a| - i;
        if x[0] !in pat[1..] {
          assert (a + x)[i..][..|pat|][k] == x[0];
          assert pat[1..][k - 1] == pat[k];
        } else {
          assert (a + x)[i..][..|pat|][k - 1] == a[|a| - 1];
          assert pat[..|pat| - 1][k - 1] == pat[k - 1];
        }
      }
    }
  }

  /** Two texts that lack `pat` and cannot be bridged by it give a text that lacks it. */
  lemma LacksConcat(a: string, b: string, pat: string)
    requires |pat| > 0 && !Contains(a, pat) && !Contains(b, pat) && NoBridge(a, b, pat)
    ensures !Contains(a + b, pat)
  {
    NoStartInPrefix(a, b, pat);
    forall i | |a| <= i <= |a + b| ensures !OccursAt(a + b, pat, i) {
      assert (a + b)[i..] == b[i - |a|..];
      assert !OccursAt(b, pat, i - |a|);
    }
  }

  /** Prepending one character that does not start an occurrence keeps `pat` absent. */
  lemma LacksCons(c: char, x: string, pat: string)
    requires !Contains(x, pat) && !StartsWith([c] + x, pat)
    ensures !Contains([c] + x, pat)
  {
  }

  /** In `s`, an occurrence at or after `n` is one in its suffix `x` from `n`. */
  lemma OccursInSuffix(s: string, n: nat, x: string, pat: string, i: nat)
    requires n <= i <= |s| && x == s[n..]
    ensures OccursAt(s, pat, i) == OccursAt(x, pat, i - n)
  {
    assert s[i..] == x[i - n..];
  }

  /** No occurrence in the first `k` positions of the suffix from `q` is none in `s` from `q` to `q + k`. */
  lemma NoneBeforeInSuffix(s: string, q: nat, k: nat, pat: string)
    requires q + k <= |s| && forall j :: 0 <= j < k ==> !OccursAt(s[q..], pat, j)
    ensures forall i :: q <= i < q + k ==> !OccursAt(s, pat, i)
  {
    forall i | q <= i < q + k ensures !OccursAt(s, pat, i) {
      OccursInSuffix(s, q, s[q..], pat, i);
    }
  }

  /** A one-character pattern occurs exactly where that character stands. */
  lemma OccursChar(s: string, c: char, i: nat)
    requires i < |s|
    ensures OccursAt(s, [c], i) <==> s[i] == c
  {
    assert s[i..][..1] == [s[i]];
  }

  /** Skipping a prefix of length `n` in which no occurrence starts shifts `indexOf` by `n`. */
  lemma IndexOfSuffix(s: string, n: nat, x: string, pat: string)
    requires n <= |s| && x == s[n..] && NoStartBefore(s, pat, n)
    ensures IndexOf(x, pat).None? ==> IndexOf(s, pat).None?
    ensures IndexOf(x, pat).Some? ==> IndexOf(s, pat) == Some(n + IndexOf(x, pat).value)
  {
    if IndexOf(x, pat).None? {
      IndexOfSuffixNone(s, n, x, pat);
    } else {
      IndexOfSuffixSome(s, n, x, pat);
    }
  }

  lemma IndexOfSuffixNone(s: string, n: nat, x: string, pat: string)
    requires n <= |s| && x == s[n..] && NoStartBefore(s, pat, n) && IndexOf(x, pat).None?
    ensures IndexOf(s, pat).None?
  {
    forall i | 0 <= i <= |s| ensures !OccursAt(s, pat, i) {
      if n <= i {
        OccursInSuffix(s, n, x, pat, i);
      }
    }
    IndexOfAbsent(s, pat);
  }

  /** With no occurrence anywhere, `indexOf` finds none. */
  lemma IndexOfAbsent(s: string, pat: string)
    requires forall i :: 0 <= i <= |s| ==> !OccursAt(s, pat, i)
    ensures IndexOf(s, pat).None?
  {
  }

  lemma IndexOfSuffixSome(s: string, n: nat, x: string, pat: string)
    requires n <= |s| && x == s[n..] && NoStartBefore(s, pat, n) && IndexOf(x, pat).Some?
    ensures IndexOf(s, pat) == Some(n + IndexOf(x, pat).value)
  {
    var k := IndexOf(x, pat).value;
    OccursInSuffix(s, n, x, pat, n + k);
    forall i | n <= i < n + k ensures !OccursAt(s, pat, i) {
      OccursInSuffix(s, n, x, pat, i);
    }
    IndexOfLeftmost(s, pat, n + k);
  }

  /** An occurrence found in `x` is still the leftmost one in `x + y`. */
  lemma IndexOfPrefix(x: string, y: string, pat: string)
    requires IndexOf(x, pat).Some?
    ensures IndexOf(x + y, pat) == IndexOf(x, pat)
  {
    var k := IndexOf(x, pat).value;
    assert (x + y)[k..][..|pat|] == x[k..][..|pat|];
    forall i | 0 <= i < k ensures !OccursAt(x + y, pat, i) {
      assert !OccursAt(x, pat, i);
      assert (x + y)[i..][..|pat|] == x[i..][..|pat|];
    }
    IndexOfLeftmost(x + y, pat, k);
  }

  /** Absence of `pat` carries over to every suffix. */
  lemma LacksSuffix(s: string, pat: string, k: nat)
    requires k <= |s| && !Contains(s, pat)
    ensures !Contains(s[k..], pat)
  {
    forall i | 0 <= i <= |s[k..]| ensures !OccursAt(s[k..], pat, i) {
      assert s[k..][i..] == s[k + i..];
      assert !OccursAt(s, pat, k + i);
    }
  }

  /** Absence of `pat` carries over to every prefix. */
  lemma LacksPrefix(s: string, pat: string, k: nat)
    requires k <= |s| && !Contains(s, pat)
    ensures !Contains(s[..k], pat)
  {
    forall i | 0 <= i <= k ensures !OccursAt(s[..k], pat, i) {
      assert !OccursAt(s, pat, i);
      if i + |pat| <= k {
        assert s[..k][i..][..|pat|] == s[i..][..|pat|];
      }
    }
  }

  // ---------------------------------------------------------------------
  // Leftmost match of an anchored pattern
  // ---------------------------------------------------------------------

  /** The anchored matcher `at` applied from index `i` of `s`. */
  function MatchFrom<T>(s: string, at: string -> Option<T>, i: nat): Option<T>
    requires i <= |s|
  {
    at(s[i..])
  }

  /**
   * A regular-expression search without the `g` flag: the leftmost index at
   * which the anchored matcher `at` succeeds, with what it matched there.
   */
  function Leftmost<T>(s: string, at: string -> Option<T>): (r: Option<(nat, T)>)
    ensures r.Some? ==> r.value.0 <= |s| && MatchFrom(s, at, r.value.0) == Some(r.value.1)
    ensures r.Some? ==> forall i :: 0 <= i < r.value.0 ==> MatchFrom(s, at, i).None?
    ensures r.None? ==> forall i :: 0 <= i <= |s| ==> MatchFrom(s, at, i).None?
    decreases |s|
  {
    assert s[0..] == s;
    match at(s)
    case Some(v) => Some((0, v))
    case None =>
      if |s| == 0 then None
      else
        assert forall i :: 1 <= i <= |s| ==> s[1..][i - 1..] == s[i..];
        assert forall i :: 1 <= i <= |s| ==> MatchFrom(s, at, i) == MatchFrom(s[1..], at, i - 1);
        match Leftmost(s[1..], at)
        case None => None
        case Some((k, v)) => Some((k + 1, v))
  }

  /** A match at `k` with none earlier is the leftmost one. */
  lemma LeftmostAt<T>(s: string, at: string -> Option<T>, k: nat, v: T)
    requires k <= |s| && MatchFrom(s, at, k) == Some(v)
    requires forall i :: 0 <= i < k ==> MatchFrom(s, at, i).None?
    ensures Leftmost(s, at) == Some((k, v))
  {
  }

  // ---------------------------------------------------------------------
  // Global scan of an anchored pattern
  // ---------------------------------------------------------------------

  /** What an anchored pattern reports when it matches: the length of the match and what it captured. */
  datatype Hit<T> = Hit(len: nat, capture: T)

  /** Every match of `at` spans at least one character and stays within the text. */
  ghost predicate Consumes<T>(at: string -> Option<Hit<T>>) {
    forall x :: at(x).Some? ==> 0 < at(x).value.len <= |x|
  }

  /**
   * A regular-expression scan under the `g` flag: where the pattern matches at
   * the current position its capture is taken and the scan resumes at the end
   * of the match; elsewhere the scan moves on by one position.
   */
  function ScanAll<T>(s: string, at: string -> Option<Hit<T>>): seq<T>
    requires Consumes(at)
    decreases |s|
  {
    match at(s)
    case Some(h) => [h.capture] + ScanAll(s[h.len..], at)
    case None => if |s| == 0 then [] else ScanAll(s[1..], at)
  }

  /** A match at index 0 is captured first, and the scan resumes at its end. */
  lemma ScanAllHere<T>(s: string, at: string -> Option<Hit<T>>)
    requires Consumes(at) && at(s).Some?
    ensures at(s).value.len <= |s|
    ensures ScanAll(s, at) == [at(s).value.capture] + ScanAll(s[at(s).value.len..], at)
  {
  }

  /** Where the pattern fails at index 0, the scan is that of the tail. */
  lemma ScanAllMiss<T>(s: string, at: string -> Option<Hit<T>>)
    requires Consumes(at) && at(s).None? && |s| > 0
    ensures ScanAll(s, at) == ScanAll(s[1..], at)
  {
  }

  /** A prefix of length `n` at whose positions the pattern never matches is passed over by the scan. */
  lemma {:induction false} ScanAllSkip<T>(s: string, n: nat, x: string, at: string -> Option<Hit<T>>)
    requires Consumes(at) && n <= |s| && x == s[n..]
    requires forall i :: 0 <= i < n ==> MatchFrom(s, at, i).None?
    ensures ScanAll(s, at) == ScanAll(x, at)
    decreases n
  {
    if n == 0 {
      assert s[0..] == s;
    } else {
      assert MatchFrom(s, at, 0).None? && s[0..] == s;
      ScanAllMiss(s, at);
      forall i | 0 <= i < n - 1 ensures MatchFrom(s[1..], at, i).None? {
        assert s[1..][i..] == s[i + 1..];
        assert MatchFrom(s, at, i + 1).None?;
      }
      assert s[1..][n - 1..] == x;
      ScanAllSkip(s[1..], n - 1, x, at);
    }
  }

  /** Where the pattern matches nowhere, the scan captures nothing. */
  lemma ScanAllNone<T>(s: string, at: string -> Option<Hit<T>>)
    requires Consumes(at)
    requires forall i :: 0 <= i <= |s| ==> MatchFrom(s, at, i).None?
    ensures ScanAll(s, at) == []
  {
    ScanAllSkip(s, |s|, [], at);
    assert MatchFrom([], at, 0).None?;
  }

  /** The leftmost match contributes the first capture, and the scan resumes at its end. */
  lemma ScanAllFirst<T>(s: string, at: string -> Option<Hit<T>>)
    requires Consumes(at) && Leftmost(s, at).Some?
    ensures Leftmost(s, at).value.0 + Leftmost(s, at).value.1.len <= |s|
    ensures ScanAll(s, at) == [Leftmost(s, at).value.1.capture] + ScanAll(s[Leftmost(s, at).value.0 + Leftmost(s, at).value.1.len..], at)
  {
    var i := Leftmost(s, at).value.0;
    var h := Leftmost(s, at).value.1;
    assert at(s[i..]) == Some(h);
    ScanAllSkip(s, i, s[i..], at);
    ScanAllHere(s[i..], at);
    assert s[i..][h.len..] == s[i + h.len..];
  }

  /** Without a leftmost match the scan captures nothing. */
  lemma ScanAllEmpty<T>(s: string, at: string -> Option<Hit<T>>)
    requires Consumes(at) && Leftmost(s, at).None?
    ensures ScanAll(s, at) == []
  {
    ScanAllNone(s, at);
  }

  /** The same step for a scan resumed at index `from` of `s`, with positions counted in `s`. */
  lemma ScanAllFrom<T>(s: string, from: nat, i: nat, h: Hit<T>, at: string -> Option<Hit<T>>)
    requires Consumes(at) && from <= |s| && Leftmost(s[from..], at) == Some((i, h))
    ensures from + i + h.len <= |s| && ScanAll(s[from..], at) == [h.capture] + ScanAll(s[from + i + h.len..], at)
  {
    var x := s[from..];
    ScanAllFirst(x, at);
    assert x[i + h.len..] == s[from + i + h.len..];
  }

  /** A match found in a text: where it starts and ends, and what it captured. */
  datatype Found<T> = Found(start: nat, end: nat, capture: T)

  /**
   * `regex.exec(s)` under the `g` flag with `regex.lastIndex == from`: the
   * leftmost match that starts at or after `from`, in positions of `s`.
   */
  function ExecFrom<T>(s: string, from: nat, at: string -> Option<Hit<T>>): (r: Option<Found<T>>)
    requires Consumes(at) && from <= |s|
    ensures r.Some? ==> from <= r.value.start < r.value.end <= |s|
  {
    match Leftmost(s[from..], at)
    case None => None
    case Some((i, h)) =>
      assert MatchFrom(s[from..], at, i) == Some(h);
      Some(Found(from + i, from + i + h.len, h.capture))
  }

  /**
   * The match is the pattern anchored at its start, and the pattern is
   * anchored nowhere between `from` and that start; without a match the
   * pattern is anchored nowhere from `from` on.
   */
  lemma ExecFromLeftmost<T>(s: string, from: nat, at: string -> Option<Hit<T>>)
    requires Consumes(at) && from <= |s|
    ensures ExecFrom(s, from, at).Some? ==>
      MatchFrom(s, at, ExecFrom(s, from, at).value.start) ==
      Some(Hit(ExecFrom(s, from, at).value.end - ExecFrom(s, from, at).value.start, ExecFrom(s, from, at).value.capture))
    ensures ExecFrom(s, from, at).Some? ==> forall i :: from <= i < ExecFrom(s, from, at).value.start ==> MatchFrom(s, at, i).None?
    ensures ExecFrom(s, from, at).None? ==> forall i :: from <= i <= |s| ==> MatchFrom(s, at, i).None?
  {
    var x := s[from..];
    forall i | from <= i <= |s| ensures MatchFrom(s, at, i) == MatchFrom(x, at, i - from) {
      assert s[i..] == x[i - from..];
    }
    var l := Leftmost(x, at);
    if l.Some? {
      var k, h := l.value.0, l.value.1;
      assert ExecFrom(s, from, at) == Some(Found(from + k, from + k + h.len, h.capture));
      assert MatchFrom(x, at, k) == Some(h);
    } else {
      assert ExecFrom(s, from, at).None?;
    }
  }

  /** The match `exec` finds is the next capture of the scan, which resumes at the end of the match. */
  lemma ExecFromStep<T>(s: string, from: nat, at: string -> Option<Hit<T>>)
    requires Consumes(at) && from <= |s| && ExecFrom(s, from, at).Some?
    ensures ScanAll(s[from..], at) == [ExecFrom(s, from, at).value.capture] + ScanAll(s[ExecFrom(s, from, at).value.end..], at)
  {
    var r := Leftmost(s[from..], at).value;
    ScanAllFrom(s, from, r.0, r.1, at);
  }

  /** When `exec` finds nothing, the rest of the scan captures nothing. */
  lemma ExecFromDone<T>(s: string, from: nat, at: string -> Option<Hit<T>>)
    requires Consumes(at) && from <= |s| && ExecFrom(s, from, at).None?
    ensures ScanAll(s[from..], at) == []
  {
    ScanAllEmpty(s[from..], at);
  }

  // ---------------------------------------------------------------------
  // Whitespace and trimming
  // ---------------------------------------------------------------------

  /**
   * The JavaScript WhiteSpace and LineTerminator code points: the set the
   * regular-expression class `\s` matches and `trim()` removes.
   */
  predicate IsSpace(c: char) {
    || c == ' ' || c == '\t' || c == '\n' || c == '\r'
    || c == '\U{000B}' || c == '\U{000C}' || c == '\U{00A0}' || c == '\U{1680}'
    || ('\U{2000}' <= c <= '\U{200A}')
    || c == '\U{2028}' || c == '\U{2029}' || c == '\U{202F}' || c == '\U{205F}'
    || c == '\U{3000}' || c == '\U{FEFF}'
  }

  /** The code points at which `.` stops and a multiline `^`/`$` anchors. */
  predicate IsLineTerminator(c: char) {
    c == '\n' || c == '\r' || c == '\U{2028}' || c == '\U{2029}'
  }

  /** `s.trimStart()` */
  function TrimStart(s: string): (r: string)
    ensures |r| <= |s| && r == s[|s| - |r|..]
    ensures forall i :: 0 <= i < |s| - |r| ==> IsSpace(s[i])
    ensures r == [] || !IsSpace(r[0])
    decreases |s|
  {
    if |s| > 0 && IsSpace(s[0]) then TrimStart(s[1..]) else s
  }

  /** `s.trimEnd()` */
  function TrimEnd(s: string): (r: string)
    ensures |r| <= |s| && r == s[..|r|]
    ensures forall i :: |r| <= i < |s| ==> IsSpace(s[i])
    ensures r == [] || !IsSpace(r[|r| - 1])
    decreases |s|
  {
    if |s| > 0 && IsSpace(s[|s| - 1]) then TrimEnd(s[..|s| - 1]) else s
  }

  /** `s.trim()`: drops whitespace at both ends and keeps what lies between. */
  function Trim(s: string): (r: string)
    ensures |r| <= |s|
    ensures r == [] || (!IsSpace(r[0]) && !IsSpace(r[|r| - 1]))
    ensures forall c :: c in r ==> c in s
    ensures exists i, j ::
      && 0 <= i <= j <= |s| && r == s[i..j]
      && (forall k :: 0 <= k < i ==> IsSpace(s[k]))
      && (forall k :: j <= k < |s| ==> IsSpace(s[k]))
  {
    var t := TrimStart(s);
    TrimMiddle(s, t, TrimEnd(t));
    TrimEnd(t)
  }

  /**
   * A suffix `t` of `s` with only whitespace dropped before it, and a prefix
   * `r` of `t` with only whitespace dropped after it: `r` is a contiguous
   * middle of `s` with only whitespace outside it.
   */
  lemma TrimMiddle(s: string, t: string, r: string)
    requires |t| <= |s| && t == s[|s| - |t|..] && forall k :: 0 <= k < |s| - |t| ==> IsSpace(s[k])
    requires |r| <= |t| && r == t[..|r|] && forall k :: |r| <= k < |t| ==> IsSpace(t[k])
    ensures forall c :: c in r ==> c in s
    ensures exists i, j ::
      && 0 <= i <= j <= |s| && r == s[i..j]
      && (forall k :: 0 <= k < i ==> IsSpace(s[k]))
      && (forall k :: j <= k < |s| ==> IsSpace(s[k]))
  {
    var i := |s| - |t|;
    var j := i + |r|;
    assert r == s[i..j];
    forall k | j <= k < |s| ensures IsSpace(s[k]) {
      assert s[k] == t[k - i];
    }
  }

  // ---------------------------------------------------------------------
  // join, split and global literal replace
  // ---------------------------------------------------------------------

  /** `parts.join(sep)` */
  function Join(parts: seq<string>, sep: string): string
    decreases |parts|
  {
    if |parts| == 0 then ""
    else if |parts| == 1 then parts[0]
    else parts[0] + sep + Join(parts[1..], sep)
  }

  /** The first part, the separator and the joined remaining parts, with text appended. */
  lemma JoinHead(parts: seq<string>, sep: string, f: string)
    requires |parts| > 1
    ensures Join(parts, sep) + f == parts[0] + (sep + (Join(parts[1..], sep) + f))
  {
    var j := Join(parts[1..], sep);
    assert Join(parts, sep) == parts[0] + sep + j;
  }

  /** `s.split(pat)` for a non-empty literal `pat`: the pieces between its leftmost non-overlapping occurrences. */
  function Split(s: string, pat: string): (r: seq<string>)
    requires |pat| > 0
    ensures |r| > 0
    decreases |s|
  {
    if StartsWith(s, pat) then [""] + Split(s[|pat|..], pat)
    else if |s| == 0 then [""]
    else
      var rest := Split(s[1..], pat);
      [[s[0]] + rest[0]] + rest[1..]
  }

  /**
   * `s.replace(new RegExp(pat, 'g'), rep)` for a pattern that matches only the
   * literal text `pat`: every leftmost non-overlapping occurrence, scanning left
   * to right, is replaced by `rep`.
   */
  function ReplaceAll(s: string, pat: string, rep: string): (r: string)
    requires |pat| > 0
    ensures !Contains(s, pat) ==> r == s
    decreases |s|
  {
    if StartsWith(s, pat) then rep + ReplaceAll(s[|pat|..], pat, rep)
    else if |s| == 0 then ""
    else
      assert !Contains(s, pat) ==> !Contains(s[1..], pat) by {
        if !Contains(s, pat) { LacksSuffix(s, pat, 1); }
      }
      [s[0]] + ReplaceAll(s[1..], pat, rep)
  }

  /** Where no occurrence starts, the first character is copied through. */
  lemma ReplaceAllCopies(s: string, pat: string, rep: string)
    requires |pat| > 0 && |s| > 0 && !StartsWith(s, pat)
    ensures ReplaceAll(s, pat, rep) == [s[0]] + ReplaceAll(s[1..], pat, rep)
  {
  }

  /** Dropping the first character of a text shifts the positions where no occurrence starts. */
  lemma NoStartBeforeTail(s: string, pat: string, n: nat)
    requires 0 < n && NoStartBefore(s, pat, n) && |s| > 0
    ensures NoStartBefore(s[1..], pat, n - 1)
  {
    forall i | 0 <= i < n - 1 && i <= |s[1..]| ensures !OccursAt(s[1..], pat, i) {
      assert s[1..][i..] == s[i + 1..];
      assert !OccursAt(s, pat, i + 1);
    }
  }

  lemma ConsAppend(a: string, r: string)
    requires |a| > 0
    ensures [a[0]] + (a[1..] + r) == a + r
  {
    assert a == [a[0]] + a[1..];
  }

  /** A prefix in which no occurrence starts is copied through unchanged. */
  lemma {:induction false} ReplaceAllSkip(a: string, x: string, pat: string, rep: string)
    requires |pat| > 0 && NoStartBefore(a + x, pat, |a|)
    ensures ReplaceAll(a + x, pat, rep) == a + ReplaceAll(x, pat, rep)
    decreases |a|
  {
    if |a| > 0 {
      var s := a + x;
      AppendTail(a, x);
      assert !OccursAt(s, pat, 0);
      ReplaceAllCopies(s, pat, rep);
      NoStartBeforeTail(s, pat, |a|);
      ReplaceAllSkip(a[1..], x, pat, rep);
      var r := ReplaceAll(x, pat, rep);
      assert ReplaceAll(s, pat, rep) == [a[0]] + (a[1..] + r);
      ConsAppend(a, r);
    } else {
      assert a + x == x;
    }
  }

  lemma AppendTail(a: string, x: string)
    requires |a| > 0
    ensures (a + x)[0..] == a + x && (a + x)[0] == a[0] && (a + x)[1..] == a[1..] + x
  {
  }

  /** A single occurrence at the very end is the only one replaced. */
  lemma ReplaceAllAtEnd(a: string, pat: string, rep: string)
    requires |pat| > 0 && NoStartBefore(a + pat, pat, |a|)
    ensures ReplaceAll(a + pat, pat, rep) == a + rep
  {
    ReplaceAllSkip(a, pat, pat, rep);
    ReplaceAllWhole(pat, rep);
  }

  /** The token alone is replaced by the replacement alone. */
  lemma ReplaceAllWhole(pat: string, rep: string)
    requires |pat| > 0
    ensures ReplaceAll(pat, pat, rep) == rep
  {
    assert pat[..|pat|] == pat && pat[|pat|..] == "";
    assert ReplaceAll(pat, pat, rep) == rep + ReplaceAll("", pat, rep);
  }

  /** Gluing a character onto the first piece glues it onto the joined text. */
  lemma JoinCons(c: char, rest: seq<string>, sep: string)
    requires |rest| > 0
    ensures Join([[c] + rest[0]] + rest[1..], sep) == [c] + Join(rest, sep)
  {
    var parts := [[c] + rest[0]] + rest[1..];
    if |rest| > 1 {
      assert parts[1..] == rest[1..];
    }
  }

  /** Rejoining the pieces of a split with the separator gives the text back. */
  lemma {:induction false} SplitJoin(s: string, pat: string)
    requires |pat| > 0
    ensures Join(Split(s, pat), pat) == s
    decreases |s|
  {
    if StartsWith(s, pat) {
      SplitJoin(s[|pat|..], pat);
      var rest := Split(s[|pat|..], pat);
      assert ([""] + rest)[1..] == rest;
      assert s == pat + s[|pat|..];
    } else if |s| > 0 {
      SplitJoin(s[1..], pat);
      JoinCons(s[0], Split(s[1..], pat), pat);
      assert s == [s[0]] + s[1..];
    }
  }

  /** The first piece of a split is a prefix of the text. */
  lemma {:induction false} SplitHeadIsPrefix(s: string, pat: string)
    requires |pat| > 0
    ensures |Split(s, pat)[0]| <= |s| && Split(s, pat)[0] == s[..|Split(s, pat)[0]|]
    decreases |s|
  {
    if !StartsWith(s, pat) && |s| > 0 {
      var head := Split(s[1..], pat)[0];
      assert Split(s, pat)[0] == [s[0]] + head;
      SplitHeadIsPrefix(s[1..], pat);
      ConsPrefix(s, head);
    }
  }

  /** A prefix of a text that does not start with `pat` does not start with it either. */
  lemma PrefixNotStarting(s: string, p: string, pat: string)
    requires |p| <= |s| && p == s[..|p|] && !StartsWith(s, pat)
    ensures !StartsWith(p, pat)
  {
    if |pat| <= |p| {
      assert p[..|pat|] == s[..|pat|];
    }
  }

  /** Consing a character onto a prefix of the tail gives a prefix of the text. */
  lemma ConsPrefix(s: string, h: string)
    requires |s| > 0 && |h| <= |s| - 1 && h == s[1..][..|h|]
    ensures [s[0]] + h == s[..|h| + 1]
  {
  }

  /** The first piece, grown by a character of a text that does not start with `pat`, still lacks `pat`. */
  lemma FirstPieceLacks(s: string, pat: string)
    requires |pat| > 0 && |s| > 0 && !StartsWith(s, pat)
    requires !Contains(Split(s[1..], pat)[0], pat)
    ensures !Contains([s[0]] + Split(s[1..], pat)[0], pat)
  {
    var head := Split(s[1..], pat)[0];
    SplitHeadIsPrefix(s[1..], pat);
    ConsPrefix(s, head);
    PrefixNotStarting(s, [s[0]] + head, pat);
    LacksCons(s[0], head, pat);
  }

  /** No piece of a split contains the separator. */
  lemma {:induction false} SplitPiecesLack(s: string, pat: string)
    requires |pat| > 0
    ensures forall p :: p in Split(s, pat) ==> !Contains(p, pat)
    decreases |s|
  {
    if StartsWith(s, pat) {
      SplitPiecesLack(s[|pat|..], pat);
      assert !Contains("", pat);
    } else if |s| == 0 {
      assert !Contains("", pat);
    } else {
      var rest := Split(s[1..], pat);
      SplitPiecesLack(s[1..], pat);
      FirstPieceLacks(s, pat);
      assert Split(s, pat) == [[s[0]] + rest[0]] + rest[1..];
    }
  }

  /** Replacing every occurrence is splitting on it and joining with the replacement. */
  lemma {:induction false} ReplaceAllIsSplitJoin(s: string, pat: string, rep: string)
    requires |pat| > 0
    ensures ReplaceAll(s, pat, rep) == Join(Split(s, pat), rep)
    decreases |s|
  {
    if StartsWith(s, pat) {
      ReplaceAllIsSplitJoin(s[|pat|..], pat, rep);
      SplitJoinAtToken(s, pat, rep);
    } else if |s| > 0 {
      ReplaceAllIsSplitJoin(s[1..], pat, rep);
      SplitJoinCopy(s, pat, rep);
    }
  }

  lemma SplitJoinAtToken(s: string, pat: string, rep: string)
    requires |pat| > 0 && StartsWith(s, pat)
    requires ReplaceAll(s[|pat|..], pat, rep) == Join(Split(s[|pat|..], pat), rep)
    ensures ReplaceAll(s, pat, rep) == Join(Split(s, pat), rep)
  {
    var rest := Split(s[|pat|..], pat);
    var parts := [""] + rest;
    assert Split(s, pat) == parts;
    assert parts[1..] == rest;
    assert Join(parts, rep) == "" + rep + Join(rest, rep);
    assert ReplaceAll(s, pat, rep) == rep + ReplaceAll(s[|pat|..], pat, rep);
  }

  lemma SplitJoinCopy(s: string, pat: string, rep: string)
    requires |pat| > 0 && |s| > 0 && !StartsWith(s, pat)
    requires ReplaceAll(s[1..], pat, rep) == Join(Split(s[1..], pat), rep)
    ensures ReplaceAll(s, pat, rep) == Join(Split(s, pat), rep)
  {
    var rest := Split(s[1..], pat);
    assert Split(s, pat) == [[s[0]] + rest[0]] + rest[1..];
    ReplaceAllCopies(s, pat, rep);
    JoinCons(s[0], rest, rep);
  }
}
