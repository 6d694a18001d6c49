/** `Array.prototype.find`, which the navbar, the language switcher and the
    theme toggle all use to look an entry up in a constant table. */
module Seqs {
  import opened Wrappers

  /** The first element of `s` that satisfies `p`, or None when none does. */
  function Find<T>(s: seq<T>, p: T -> bool): (r: Option<T>)
    ensures r.None? <==> forall i :: 0 <= i < |s| ==> !p(s[i])
    ensures r.Some? ==> exists i :: 0 <= i < |s| && s[i] == r.value && p(s[i]) &&
                          forall j :: 0 <= j < i ==> !p(s[j])
  {
    if |s| == 0 then None
    else if p(s[0]) then Some(s[0])
    else
      var r := Find(s[1..], p);
      assert forall i :: 1 <= i < |s| ==> s[i] == s[1..][i - 1];
      r
  }

  /** When at most one element satisfies `p`, the first match is the only match. */
  lemma FindUnique<T>(s: seq<T>, p: T -> bool, i: nat)
    requires i < |s| && p(s[i])
    requires forall j, k :: 0 <= j < |s| && 0 <= k < |s| && p(s[j]) && p(s[k]) ==> j == k
    ensures Find(s, p) == Some(s[i])
  {
  }
}
