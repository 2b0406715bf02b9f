/** Strings as sequences of characters, and the substring search that the
    chat client performs with `std::string::find`. */
module Text {

  datatype Option<T> = None | Some(value: T)

  /** `pat` occurs in `s` starting at offset `k`. */
  predicate OccursAt(s: string, pat: string, k: nat)
  {
    k + |pat| <= |s| && s[k..k + |pat|] == pat
  }

  predicate StartsWith(s: string, pat: string)
  {
    OccursAt(s, pat, 0)
  }

  predicate Contains(s: string, pat: string)
  {
    exists k: nat | k <= |s| :: OccursAt(s, pat, k)
  }

  predicate IsPrefix(p: string, s: string)
  {
    |p| <= |s| && s[..|p|] == p
  }

  lemma PrefixTransitive(a: string, b: string, c: string)
    requires IsPrefix(a, b) && IsPrefix(b, c)
    ensures IsPrefix(a, c)
  {
  }

  /** The first offset at or after `from` where `pat` occurs in `s`, or None
      (the `npos` of `std::string::find(pat, from)`). */
  function FindFrom(s: string, pat: string, from: nat): (r: Option<nat>)
    decreases |s| - from
    ensures r.Some? ==> from <= r.value && OccursAt(s, pat, r.value)
    ensures r.Some? ==> forall j: nat :: from <= j < r.value ==> !OccursAt(s, pat, j)
    ensures r.None? ==> forall j: nat :: from <= j ==> !OccursAt(s, pat, j)
  {
    if from + |pat| > |s| then None
    else if s[from..from + |pat|] == pat then Some(from)
    else FindFrom(s, pat, from + 1)
  }

  /** `s.find(pat)`: the first occurrence of `pat` in `s`. */
  function Find(s: string, pat: string): (r: Option<nat>)
    ensures r.Some? <==> Contains(s, pat)
    ensures r.Some? ==> OccursAt(s, pat, r.value)
    ensures r.Some? ==> forall j: nat :: j < r.value ==> !OccursAt(s, pat, j)
    ensures r == Some(0) <==> StartsWith(s, pat)
  {
    FindFrom(s, pat, 0)
  }

  /** An occurrence inside a prefix is an occurrence in the whole string. */
  lemma OccursInPrefix(s: string, n: nat, pat: string, k: nat)
    requires n <= |s|
    requires OccursAt(s[..n], pat, k)
    ensures OccursAt(s, pat, k) && k + |pat| <= n
  {
  }

  /** The text written by a sequence of pieces, one after the other. */
  function Concat(ss: seq<string>): string
  {
    if ss == [] then "" else Concat(ss[..|ss| - 1]) + ss[|ss| - 1]
  }

  lemma ConcatAppend(ss: seq<string>, p: string)
    ensures Concat(ss + [p]) == Concat(ss) + p
  {
  }
}
