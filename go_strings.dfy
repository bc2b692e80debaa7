/** The two predicates of Go's `strings` package that the core uses.  Go
    compares bytes; on valid UTF-8 text, which is all the model handles,
    comparing code points gives the same answer. */
module GoStrings {

  /** `strings.HasPrefix(s, prefix)` */
  predicate HasPrefix(s: string, prefix: string) {
    |prefix| <= |s| && s[..|prefix|] == prefix
  }

  /** `strings.HasSuffix(s, suffix)` */
  predicate HasSuffix(s: string, suffix: string) {
    |suffix| <= |s| && s[|s| - |suffix|..] == suffix
  }

  /** `HasPrefix` compares the first `|prefix|` characters one by one. */
  lemma HasPrefixChars(s: string, prefix: string)
    ensures HasPrefix(s, prefix) <==>
      |prefix| <= |s| && forall i :: 0 <= i < |prefix| ==> s[i] == prefix[i]
  {
  }

  /** `HasSuffix` compares the last `|suffix|` characters one by one. */
  lemma HasSuffixChars(s: string, suffix: string)
    ensures HasSuffix(s, suffix) <==>
      |suffix| <= |s| && forall i :: 0 <= i < |suffix| ==> s[|s| - |suffix| + i] == suffix[i]
  {
  }
}
