/** Small facts about sequence slices, proved once so that loops over a
    prefix can use them without redoing the extensional argument. */
module Seqs {
  /** Extending a prefix by one element. */
  lemma TakeOneMore<T>(s: seq<T>, j: nat)
    requires j < |s|
    ensures s[..j + 1] == s[..j] + [s[j]]
  {
  }

  /** Splitting off the first element of a suffix. */
  lemma DropOne<T>(s: seq<T>, j: nat)
    requires j < |s|
    ensures s[j..] == [s[j]] + s[j + 1..]
  {
  }

  /** The head and the tail of a non-empty suffix. */
  lemma SuffixTail<T>(s: seq<T>, j: nat)
    requires j < |s|
    ensures s[j..] != [] && s[j..][0] == s[j] && s[j..][1..] == s[j + 1..]
  {
  }
}
