/** Two small facts about sequences that several proofs share. */
module SeqFacts {
  /** Concatenation is associative. */
  lemma AppendAssoc<T>(a: seq<T>, b: seq<T>, c: seq<T>)
    ensures a + b + c == a + (b + c)
  {
  }

  /** Every item before `n` is in the prefix of length `n`. */
  lemma PrefixMembers<T>(s: seq<T>, n: nat)
    requires n <= |s|
    ensures forall j :: 0 <= j < n ==> s[j] in s[..n]
  {
    forall j | 0 <= j < n ensures s[j] in s[..n] {
      assert s[..n][j] == s[j];
    }
  }
}
