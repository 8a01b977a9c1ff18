/** What is left of the console input after some of its lines have been read. */
module Sequences {

  /** `s` is what remains of `t` once some leading elements are dropped. */
  predicate IsSuffix(s: seq<string>, t: seq<string>) {
    |s| <= |t| && s == t[|t| - |s|..]
  }

  /** What is left of what is left is what is left. */
  lemma SuffixTrans(s: seq<string>, t: seq<string>, u: seq<string>)
    requires IsSuffix(s, t) && IsSuffix(t, u)
    ensures IsSuffix(s, u)
  {
  }

  /** Dropping the first element leaves a suffix. */
  lemma SuffixOfTail(s: seq<string>, t: seq<string>)
    requires t != [] && IsSuffix(s, t[1..])
    ensures IsSuffix(s, t)
  {
  }
}
