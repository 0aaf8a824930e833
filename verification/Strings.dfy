/** The searching half of Rust's string API: `contains`, `find`, `split_once`. */
module Strings {
  import opened Prelude

  predicate OccursAt(s: string, pat: string, i: int) {
    0 <= i <= |s| - |pat| && s[i..i + |pat|] == pat
  }

  lemma OccursCharwise(s: string, pat: string, i: int, k: nat)
    requires OccursAt(s, pat, i) && k < |pat|
    ensures s[i + k] == pat[k]
  {
    assert s[i..i + |pat|][k] == s[i + k];
  }

  predicate Contains(s: string, pat: string) {
    exists i :: 0 <= i <= |s| && OccursAt(s, pat, i)
  }

  /** Leftmost occurrence at or after `start`. */
  function FindFrom(s: string, pat: string, start: nat): (r: Option<nat>)
    ensures r.Some? ==> r.value >= start && OccursAt(s, pat, r.value)
    ensures forall i: nat :: start <= i && (r.Some? ==> i < r.value) ==> !OccursAt(s, pat, i)
    decreases |s| - start
  {
    if start + |pat| > |s| then None
    else if s[start..start + |pat|] == pat then Some(start)
    else FindFrom(s, pat, start + 1)
  }

  function Find(s: string, pat: string): (r: Option<nat>)
    ensures r.Some? ==> OccursAt(s, pat, r.value)
    ensures forall i: nat :: (r.Some? ==> i < r.value) ==> !OccursAt(s, pat, i)
  {
    FindFrom(s, pat, 0)
  }

  /** Everything before and after the leftmost `sep`. */
  function SplitOnce(s: string, sep: string): (r: Option<(string, string)>)
    ensures r.None? <==> !Contains(s, sep)
    ensures r.Some? ==> s == r.value.0 + sep + r.value.1
    ensures r.Some? ==> forall i: nat :: i < |r.value.0| ==> !OccursAt(s, sep, i)
  {
    var at := Find(s, sep);
    if at.None? then None
    else
      assert OccursAt(s, sep, at.value);
      Some((s[..at.value], s[at.value + |sep|..]))
  }

  /** The contract of `SplitOnce` determines its result. */
  lemma SplitOnceIs(before: string, sep: string, after: string)
    requires forall i: nat :: i < |before| ==> !OccursAt(before + sep + after, sep, i)
    ensures SplitOnce(before + sep + after, sep) == Some((before, after))
  {
    var s := before + sep + after;
    assert s[|before|..|before| + |sep|] == sep;
    assert OccursAt(s, sep, |before|);
    var r := SplitOnce(s, sep).value;
    assert s[|r.0|..|r.0| + |sep|] == sep;
    assert OccursAt(s, sep, |r.0|);
    assert |r.0| == |before|;
    assert r.0 == s[..|before|] == before;
    assert r.1 == s[|before| + |sep|..] == after;
  }
}
