/**
  Small facts about maps, sets and sequences that the loops of the model
  use to step their invariants.
*/
module Collections {
  /** Map union (a dictionary `update`) is associative. */
  lemma {:induction false} MergeAssociates<V>(a: map<string, V>, b: map<string, V>, c: map<string, V>)
    ensures (a + b) + c == a + (b + c)
  {
  }

  lemma {:induction false} UpdateIsMerge<V>(m: map<string, V>, k: string, v: V)
    ensures m[k := v] == m + map[k := v]
  {
  }

  lemma {:induction false} UpdateAfterMerge<V>(base: map<string, V>, m: map<string, V>, k: string, v: V)
    ensures (base + m)[k := v] == base + m[k := v]
  {
  }

  /** Moving one element from the keys still to visit to the visited ones. */
  lemma MoveToDone<T>(all: set<T>, todo: set<T>, done: set<T>, x: T)
    requires todo <= all && done == all - todo && x in todo
    ensures todo - {x} <= all && done + {x} == all - (todo - {x})
  {
  }

  lemma PrefixTransitive<T>(a: seq<T>, b: seq<T>, c: seq<T>)
    requires a <= b && b <= c
    ensures a <= c
  {
  }

  lemma PrefixOfPrefix<T>(a: seq<T>, b: seq<T>, c: seq<T>)
    requires a <= b
    ensures a <= b + c
  {
    assert (b + c)[..|a|] == b[..|a|];
  }

  lemma TakeSnoc<T>(s: seq<T>, j: nat)
    requires j < |s|
    ensures s[..j + 1] == s[..j] + [s[j]]
  {
  }

  lemma TakeAll<T>(s: seq<T>)
    ensures s[..|s|] == s
  {
  }
}
