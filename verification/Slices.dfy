/** Equalities of sequences that the proofs name instead of leaving them to be found. */
module Slices {

  lemma TailOfConcat<T>(a: seq<T>, b: seq<T>)
    requires a != []
    ensures a + b != [] && (a + b)[0] == a[0] && (a + b)[1..] == a[1..] + b
  {
  }

  lemma Assoc<T>(a: seq<T>, b: seq<T>, c: seq<T>)
    ensures (a + b) + c == a + (b + c)
  {
  }

  lemma Empty<T>(a: seq<T>)
    ensures [] + a == a && a + [] == a
  {
  }

  /** The two sides of a delimiter. */
  lemma AroundDelimiter<T>(left: seq<T>, x: T, right: seq<T>)
    ensures var s := left + [x] + right; |s| == |left| + 1 + |right| && s[..|left|] == left && s[|left| + 1..] == right
  {
  }

  lemma HeadAndTail<T>(s: seq<T>)
    requires s != []
    ensures s == [s[0]] + s[1..]
  {
  }

  lemma InitAndLast<T>(s: seq<T>)
    requires s != []
    ensures s == s[..|s| - 1] + [s[|s| - 1]]
  {
  }

  /** A state after a first one, as a position in the whole sequence. */
  lemma Shift<T>(x: T, rest: seq<T>)
    ensures |[x] + rest| == |rest| + 1 && ([x] + rest)[0] == x
    ensures forall i :: 0 < i <= |rest| ==> ([x] + rest)[i] == rest[i - 1]
    ensures forall i :: 0 <= i < |rest| ==> rest[i] == ([x] + rest)[i + 1]
  {
  }

  /** Taking one element out of a sequence takes one out of its multiset. */
  lemma WithoutOne<T>(s: seq<T>, k: nat)
    requires k < |s|
    ensures multiset(s[..k] + s[k + 1..]) == multiset(s) - multiset{s[k]}
  {
    assert s == s[..k] + [s[k]] + s[k + 1..];
  }

  lemma TailWithoutHead<T>(s: seq<T>)
    requires s != []
    ensures multiset(s[1..]) == multiset(s) - multiset{s[0]} && multiset(s) == multiset(s[1..]) + multiset{s[0]}
  {
    HeadAndTail(s);
  }
}
