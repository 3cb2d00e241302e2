/**
 * Python's `str.split(sep)` with an explicit separator, and its inverse
 * `sep.join(parts)`: the two string operations the bench script relies on to
 * lay out and to read line- and delimiter-separated text.
 */
module Strings {
  import opened Wrappers

  /** pat occurs in s starting at index k. */
  predicate OccursAt(s: string, pat: string, k: nat) {
    k + |pat| <= |s| && s[k..k + |pat|] == pat
  }

  /** An occurrence starts with the pattern's first character. */
  lemma OccursAtFirstChar(s: string, pat: string, k: nat)
    requires |pat| > 0 && k < |s| && s[k] != pat[0]
    ensures !OccursAt(s, pat, k)
  {
  }

  predicate Contains(s: string, pat: string) {
    exists k: nat :: k <= |s| && OccursAt(s, pat, k)
  }

  /** The leftmost occurrence of pat in s at or after k. */
  function FindFrom(s: string, pat: string, k: nat): (r: Option<nat>)
    requires |pat| > 0 && k <= |s|
    ensures r.Some? ==> k <= r.value && OccursAt(s, pat, r.value)
    ensures r.Some? ==> forall j: nat :: k <= j < r.value ==> !OccursAt(s, pat, j)
    ensures r.None? ==> forall j: nat :: k <= j ==> !OccursAt(s, pat, j)
    decreases |s| - k
  {
    if k + |pat| > |s| then None
    else if OccursAt(s, pat, k) then Some(k)
    else FindFrom(s, pat, k + 1)
  }

  function Find(s: string, pat: string): (r: Option<nat>)
    requires |pat| > 0
  {
    FindFrom(s, pat, 0)
  }

  /** Python's `s.split(sep)`: the pieces between the leftmost non-overlapping occurrences of sep. */
  function Split(s: string, sep: string): (parts: seq<string>)
    requires |sep| > 0
    ensures |parts| >= 1
    decreases |s|
  {
    match Find(s, sep)
    case None => [s]
    case Some(i) => [s[..i]] + Split(s[i + |sep|..], sep)
  }

  /** Python's `sep.join(parts)`. */
  function Join(parts: seq<string>, sep: string): (s: string)
    decreases |parts|
  {
    if |parts| == 0 then ""
    else if |parts| == 1 then parts[0]
    else parts[0] + sep + Join(parts[1..], sep)
  }

  /** Splitting at the first occurrence: the head is what precedes it and the rest splits on. */
  lemma SplitAt(s: string, sep: string, n: nat)
    requires |sep| > 0 && OccursAt(s, sep, n)
    requires forall j: nat :: j < n ==> !OccursAt(s, sep, j)
    ensures Split(s, sep) == [s[..n]] + Split(s[n + |sep|..], sep)
  {
    var r := FindFrom(s, sep, 0);
    assert r.None? ==> !OccursAt(s, sep, n);
    assert r.Some? ==> r.value >= n && (r.value > n ==> !OccursAt(s, sep, n));
  }

  /** With no occurrence starting before n, the first piece extends at least to n. */
  lemma SplitHeadExtends(s: string, sep: string, n: nat)
    requires |sep| > 0 && n <= |s|
    requires forall j: nat :: j < n ==> !OccursAt(s, sep, j)
    ensures n <= |Split(s, sep)[0]| && Split(s, sep)[0][..n] == s[..n]
  {
  }

  lemma {:induction false} SplitJoin(s: string, sep: string)
    requires |sep| > 0
    ensures Join(Split(s, sep), sep) == s
    decreases |s|
  {
    match Find(s, sep)
    case None =>
    case Some(i) =>
      var rest := s[i + |sep|..];
      var tail := Split(rest, sep);
      assert Split(s, sep) == [s[..i]] + tail;
      SplitJoin(rest, sep);
      assert Join([s[..i]] + tail, sep) == s[..i] + sep + Join(tail, sep) by {
        assert ([s[..i]] + tail)[1..] == tail;
      }
      assert s == s[..i] + sep + rest;
  }

  /** s.split(sep) has a second element exactly when sep occurs in s. */
  lemma SplitHasSecond(s: string, sep: string)
    requires |sep| > 0
    ensures |Split(s, sep)| >= 2 <==> Contains(s, sep)
  {
    match Find(s, sep)
    case None =>
    case Some(i) =>
  }

  /** Joining pieces that do not contain a one-character separator and splitting again gives the pieces back. */
  lemma {:induction false} JoinSplit(parts: seq<string>, c: char)
    requires |parts| >= 1
    requires forall p :: p in parts ==> c !in p
    ensures Split(Join(parts, [c]), [c]) == parts
    decreases |parts|
  {
    var s := Join(parts, [c]);
    var p := parts[0];
    assert c !in p by {
      assert p in parts;
    }
    forall j: nat | j < |p|
      ensures !OccursAt(s, [c], j)
    {
      assert s[j] == p[j];
      OccursAtFirstChar(s, [c], j);
    }
    if |parts| == 1 {
      assert Find(s, [c]) == None;
    } else {
      assert OccursAt(s, [c], |p|);
      SplitAt(s, [c], |p|);
      assert s[..|p|] == p;
      assert s[|p| + 1..] == Join(parts[1..], [c]);
      JoinSplit(parts[1..], c);
      assert parts == [p] + parts[1..];
    }
  }
}
