/** String helpers over sequences of characters: the suffix test and trim
    that plan naming uses (Go's `strings.HasSuffix` and `strings.TrimSuffix`),
    and a last-occurrence search that only the plan-name parser needs. */
module Text {
  import opened Wrappers

  /** `strings.HasSuffix(s, suffix)`. */
  predicate HasSuffix(s: string, suffix: string) {
    |suffix| <= |s| && s[|s| - |suffix|..] == suffix
  }

  /** `strings.TrimSuffix(s, suffix)`: drops ONE trailing copy of `suffix`
      when there is one, and otherwise gives `s` back unchanged. */
  function TrimSuffix(s: string, suffix: string): (r: string)
    ensures HasSuffix(s, suffix) ==> r + suffix == s
    ensures !HasSuffix(s, suffix) ==> r == s
  {
    if HasSuffix(s, suffix) then s[..|s| - |suffix|] else s
  }

  /** Trimming a suffix that was just appended gives back exactly the
      original string, so only the one appended copy is removed. */
  lemma TrimAppendedSuffix(s: string, suffix: string)
    ensures HasSuffix(s + suffix, suffix)
    ensures TrimSuffix(s + suffix, suffix) == s
  {
  }

  /** The position of the last occurrence of `c` in `s`, if any. Used to
      split a plan name back into its parts; plan naming itself does not
      search. */
  function LastIndexOf(s: string, c: char): (r: Option<nat>)
    ensures r.None? <==> c !in s
    ensures r.Some? ==> r.value < |s| && s[r.value] == c
    ensures r.Some? ==> forall j :: r.value < j < |s| ==> s[j] != c
  {
    if |s| == 0 then None
    else if s[|s| - 1] == c then Some(|s| - 1)
    else
      var r := LastIndexOf(s[..|s| - 1], c);
      assert forall j :: 0 <= j < |s| - 1 ==> s[..|s| - 1][j] == s[j];
      r
  }
}
