/** Occurrences of one string in another: the ground under `in`, `str.replace` and `str.split`. */
module Text {
  import opened Wrappers

  predicate OccursAt(s: string, p: string, i: int) {
    0 <= i <= |s| - |p| && s[i..i + |p|] == p
  }

  predicate Contains(s: string, p: string) {
    exists i :: 0 <= i <= |s| - |p| && OccursAt(s, p, i)
  }

  /** The leftmost occurrence at `from` or later. */
  function FindFrom(s: string, p: string, from: nat): (r: Option<nat>)
    requires from <= |s|
    ensures r.Some? ==> from <= r.value && OccursAt(s, p, r.value)
    ensures r.Some? ==> forall i :: from <= i < r.value ==> !OccursAt(s, p, i)
    ensures r.None? ==> forall i :: from <= i ==> !OccursAt(s, p, i)
    decreases |s| - from
  {
    if OccursAt(s, p, from) then Some(from)
    else if from == |s| then None
    else FindFrom(s, p, from + 1)
  }

  function Find(s: string, p: string): (r: Option<nat>)
    ensures r.Some? <==> Contains(s, p)
    ensures r.Some? ==> OccursAt(s, p, r.value) && forall i :: 0 <= i < r.value ==> !OccursAt(s, p, i)
  {
    FindFrom(s, p, 0)
  }

  /** An occurrence, read letter by letter. */
  lemma OccursByLetters(s: string, p: string, i: int)
    requires 0 <= i <= |s| - |p|
    ensures OccursAt(s, p, i) <==> forall k :: 0 <= k < |p| ==> s[i + k] == p[k]
  {
    var part := s[i..i + |p|];
    assert forall k :: 0 <= k < |p| ==> part[k] == s[i + k];
    assert part == p <==> forall k :: 0 <= k < |p| ==> part[k] == p[k];
  }

  /** An occurrence inside a part of a text is an occurrence in the text, and the other way round. */
  lemma OccursInPart(s: string, p: string, lo: nat, hi: nat, i: nat)
    requires lo <= hi <= |s| && lo <= i && i + |p| <= hi
    ensures OccursAt(s, p, i) <==> OccursAt(s[lo..hi], p, i - lo)
  {
    var inner, outer := s[lo..hi][i - lo..i - lo + |p|], s[i..i + |p|];
    assert forall k :: 0 <= k < |p| ==> inner[k] == outer[k];
    assert inner == outer;
  }
}
