/** The Python `str`, slicing and integer built-ins that the linker's string
    routines rely on, written out with the semantics CPython gives them.
    Case mapping covers ASCII letters only. */
module PyStr {

  predicate StartsWith<T(==)>(s: seq<T>, p: seq<T>) {
    |p| <= |s| && s[..|p|] == p
  }

  predicate EndsWith<T(==)>(s: seq<T>, p: seq<T>) {
    |p| <= |s| && s[|s| - |p|..] == p
  }

  /** `p` occurs in `s` starting at index `j`. */
  predicate OccursAt<T(==)>(s: seq<T>, p: seq<T>, j: int) {
    0 <= j && j + |p| <= |s| && s[j..j + |p|] == p
  }

  /** Python's `p in s` for strings. */
  predicate Contains<T(==)>(s: seq<T>, p: seq<T>) {
    exists j | 0 <= j <= |s| - |p| :: OccursAt(s, p, j)
  }

  lemma OccursAtTail<T>(s: seq<T>, p: seq<T>, j: int)
    requires s != [] && 0 <= j
    ensures OccursAt(s, p, j + 1) <==> OccursAt(s[1..], p, j)
  {
    if j + 1 + |p| <= |s| {
      assert s[j + 1..j + 1 + |p|] == s[1..][j..j + |p|];
    }
  }

  /** `s.find(p)`: the index of the first occurrence of `p`, or -1. */
  function Find<T(==)>(s: seq<T>, p: seq<T>): (r: int)
    ensures r == -1 || OccursAt(s, p, r)
    ensures forall j :: 0 <= j && (r == -1 || j < r) ==> !OccursAt(s, p, j)
    decreases |s|
  {
    if StartsWith(s, p) then 0
    else if s == [] then -1
    else
      var k := Find(s[1..], p);
      assert !OccursAt(s, p, 0) by { if |p| <= |s| { assert s[0..|p|] == s[..|p|]; } }
      assert forall j :: 1 <= j ==> (OccursAt(s, p, j) <==> OccursAt(s[1..], p, j - 1)) by {
        forall j | 1 <= j ensures OccursAt(s, p, j) <==> OccursAt(s[1..], p, j - 1) {
          OccursAtTail(s, p, j - 1);
        }
      }
      if k == -1 then -1 else k + 1
  }

  /** `s.replace(pat, rep)`: every leftmost non-overlapping occurrence of
      `pat` replaced by `rep`; an empty `pat` puts `rep` before every
      character and once more at the end. */
  function ReplaceAll<T(==)>(s: seq<T>, pat: seq<T>, rep: seq<T>): seq<T>
    decreases |s|
  {
    if pat == [] then
      if s == [] then rep else rep + [s[0]] + ReplaceAll(s[1..], pat, rep)
    else if StartsWith(s, pat) then rep + ReplaceAll(s[|pat|..], pat, rep)
    else if s == [] then []
    else [s[0]] + ReplaceAll(s[1..], pat, rep)
  }

  /** Replacing a pattern by itself changes nothing. */
  lemma {:induction false} ReplaceAllSelf<T>(s: seq<T>, pat: seq<T>)
    ensures ReplaceAll(s, pat, pat) == s
    decreases |s|
  {
    if pat == [] {
      if s != [] { ReplaceAllSelf(s[1..], pat); }
    } else if StartsWith(s, pat) {
      ReplaceAllSelf(s[|pat|..], pat);
      assert s == s[..|pat|] + s[|pat|..];
    } else if s != [] {
      ReplaceAllSelf(s[1..], pat);
      assert s == [s[0]] + s[1..];
    }
  }

  /** A non-empty pattern that does not occur leaves the string unchanged. */
  lemma {:induction false} ReplaceAllAbsent<T>(s: seq<T>, pat: seq<T>, rep: seq<T>)
    requires pat != [] && !Contains(s, pat)
    ensures ReplaceAll(s, pat, rep) == s
    decreases |s|
  {
    assert !OccursAt(s, pat, 0);
    if s != [] {
      forall j | 0 <= j ensures !OccursAt(s[1..], pat, j) {
        OccursAtTail(s, pat, j);
        assert !OccursAt(s, pat, j + 1);
      }
      ReplaceAllAbsent(s[1..], pat, rep);
      assert s == [s[0]] + s[1..];
    }
  }

  /** Every occurrence of the single character `c` replaced by `rep`, one
      character at a time. */
  function ReplaceChar<T(==)>(s: seq<T>, c: T, rep: seq<T>): (r: seq<T>)
    decreases |s|
  {
    if s == [] then [] else (if s[0] == c then rep else [s[0]]) + ReplaceChar(s[1..], c, rep)
  }

  lemma ReplaceCharAppend<T>(a: seq<T>, b: seq<T>, c: T, rep: seq<T>)
    ensures ReplaceChar(a + b, c, rep) == ReplaceChar(a, c, rep) + ReplaceChar(b, c, rep)
    decreases |a|
  {
    if a != [] {
      assert (a + b)[1..] == a[1..] + b;
      ReplaceCharAppend(a[1..], b, c, rep);
    } else {
      assert a + b == b;
    }
  }

  /** `s.replace(c, rep)` for a one-character pattern is the character-wise
      substitution. */
  lemma {:induction false} ReplaceAllOneChar<T>(s: seq<T>, c: T, rep: seq<T>)
    ensures ReplaceAll(s, [c], rep) == ReplaceChar(s, c, rep)
    decreases |s|
  {
    if s != [] {
      ReplaceAllOneChar(s[1..], c, rep);
    }
  }

  /** `s.replace(pat, rep, 1)`: only the first occurrence is replaced. */
  function ReplaceFirst<T(==)>(s: seq<T>, pat: seq<T>, rep: seq<T>): (r: seq<T>)
    ensures Find(s, pat) == -1 ==> r == s
    ensures Find(s, pat) >= 0 ==>
      r == s[..Find(s, pat)] + rep + s[Find(s, pat) + |pat|..]
  {
    var i := Find(s, pat);
    if i == -1 then s else s[..i] + rep + s[i + |pat|..]
  }

  /** `re.split` on a class of single separator characters, or `str.split(c)`
      when `seps` is `{c}`: the pieces between separators, empty ones
      included. */
  function SplitOn(s: string, seps: set<char>): (r: seq<string>)
    ensures |r| >= 1
    ensures forall i, k :: 0 <= i < |r| && 0 <= k < |r[i]| ==> r[i][k] !in seps
    decreases |s|
  {
    if s == [] then [""]
    else
      var rest := SplitOn(s[1..], seps);
      if s[0] in seps then [""] + rest
      else [[s[0]] + rest[0]] + rest[1..]
  }

  /** `sep.join(pieces)`. */
  function Join(pieces: seq<string>, sep: string): string
    decreases |pieces|
  {
    if |pieces| == 0 then ""
    else if |pieces| == 1 then pieces[0]
    else pieces[0] + sep + Join(pieces[1..], sep)
  }

  /** Joining the pieces of a split with the separator gives back the string. */
  lemma {:induction false} JoinSplit(s: string, c: char)
    ensures Join(SplitOn(s, {c}), [c]) == s
    decreases |s|
  {
    if s != [] {
      var rest := SplitOn(s[1..], {c});
      JoinSplit(s[1..], c);
      if s[0] == c {
        assert SplitOn(s, {c}) == [""] + rest;
      } else {
        var r := SplitOn(s, {c});
        assert r == [[s[0]] + rest[0]] + rest[1..];
        if |rest| == 1 {
          assert Join(r, [c]) == [s[0]] + rest[0];
        } else {
          assert r[1..] == rest[1..];
          assert Join(rest, [c]) == rest[0] + [c] + Join(rest[1..], [c]);
        }
        assert s == [s[0]] + s[1..];
      }
    }
  }

  /** Splitting a join of separator-free pieces gives back the pieces. */
  lemma {:induction false} SplitJoin(pieces: seq<string>, c: char)
    requires |pieces| >= 1
    requires forall i :: 0 <= i < |pieces| ==> c !in pieces[i]
    ensures SplitOn(Join(pieces, [c]), {c}) == pieces
    decreases |pieces|
  {
    if |pieces| == 1 {
      SplitNoSep(pieces[0], c);
    } else {
      SplitJoin(pieces[1..], c);
      var tail := Join(pieces[1..], [c]);
      assert Join(pieces, [c]) == pieces[0] + ([c] + tail);
      SplitPrefix(pieces[0], tail, c);
      assert pieces == [pieces[0]] + pieces[1..];
    }
  }

  lemma {:induction false} SplitNoSep(w: string, c: char)
    requires c !in w
    ensures SplitOn(w, {c}) == [w]
    decreases |w|
  {
    if w != [] {
      SplitNoSep(w[1..], c);
      assert w == [w[0]] + w[1..];
    }
  }

  lemma {:induction false} SplitPrefix(w: string, tail: string, c: char)
    requires c !in w
    ensures SplitOn(w + ([c] + tail), {c}) == [w] + SplitOn(tail, {c})
    decreases |w|
  {
    var s := w + ([c] + tail);
    if w == [] {
      assert s == [c] + tail;
      assert s[1..] == tail;
    } else {
      assert s[1..] == w[1..] + ([c] + tail);
      SplitPrefix(w[1..], tail, c);
      assert w == [w[0]] + w[1..];
    }
  }

  function LowerChar(c: char): char {
    if 'A' <= c <= 'Z' then (c as int + 32) as char else c
  }

  function UpperChar(c: char): char {
    if 'a' <= c <= 'z' then (c as int - 32) as char else c
  }

  /** `s.lower()` on ASCII letters. */
  function Lower(s: string): (r: string)
    ensures |r| == |s|
  {
    seq(|s|, i requires 0 <= i < |s| => LowerChar(s[i]))
  }

  /** `s.upper()` on ASCII letters. */
  function Upper(s: string): (r: string)
    ensures |r| == |s|
  {
    seq(|s|, i requires 0 <= i < |s| => UpperChar(s[i]))
  }

  /** `s.isupper()` on ASCII letters: some upper-case letter and no
      lower-case one. */
  predicate IsUpper(s: string) {
    (exists i :: 0 <= i < |s| && 'A' <= s[i] <= 'Z') &&
    (forall i :: 0 <= i < |s| ==> !('a' <= s[i] <= 'z'))
  }

  /** How Python turns a slice bound into an index of a sequence of length `len`. */
  function SliceIndex(n: int, len: nat): (r: nat)
    ensures r <= len
    ensures 0 <= n <= len ==> r == n
  {
    if n < 0 then (if len + n < 0 then 0 else len + n)
    else if n > len then len
    else n
  }

  /** Python's `s[i:j]`, negative and out-of-range bounds included. */
  function Slice<T>(s: seq<T>, i: int, j: int): (r: seq<T>)
    ensures |r| <= |s|
    ensures 0 <= i && 0 <= j ==> |r| <= if i <= j then j - i else 0
    ensures 0 <= i <= |s| ==> StartsWith(s[i..], r)
    ensures 0 <= i <= j <= |s| ==> r == s[i..j]
  {
    var a, b := SliceIndex(i, |s|), SliceIndex(j, |s|);
    if a < b then s[a..b] else []
  }

  /** Python's `int(x / 2)`: halving, then truncation toward zero. */
  function TruncHalf(x: int): (r: int)
    ensures x >= 0 ==> 0 <= 2 * r <= x && x - 2 * r <= 1
    ensures x < 0 ==> x <= 2 * r <= 0 && 2 * r - x <= 1
  {
    if x >= 0 then x / 2 else -((-x) / 2)
  }
}
