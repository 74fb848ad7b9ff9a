/** Order facts about sequences shared by the scraper, the store and the price diff. */
module Seqs {

  /** `a` is what is left of `b` after deleting some of its elements, the rest in their order. */
  ghost predicate IsSubseq<T>(a: seq<T>, b: seq<T>)
    decreases |b|
  {
    if a == [] then true
    else if b == [] then false
    else (a[|a| - 1] == b[|b| - 1] && IsSubseq(a[..|a| - 1], b[..|b| - 1])) || IsSubseq(a, b[..|b| - 1])
  }

  /** Appending the same element to both, or to the longer one only, keeps the relation. */
  lemma IsSubseqExtend<T>(a: seq<T>, b: seq<T>, x: T)
    requires IsSubseq(a, b)
    ensures IsSubseq(a + [x], b + [x])
    ensures IsSubseq(a, b + [x])
  {
    assert (a + [x])[..|a|] == a;
    assert (b + [x])[..|b|] == b;
  }

  /** Appending an element to the longer sequence and perhaps to the shorter keeps the relation. */
  lemma IsSubseqSnocEither<T>(u: seq<T>, a: seq<T>, b: seq<T>, x: T)
    requires IsSubseq(a, b) && (u == a || u == a + [x])
    ensures IsSubseq(u, b + [x])
  {
    IsSubseqExtend(a, b, x);
  }

  /** The concatenation of the parts, in their order. */
  function Flatten<T>(parts: seq<seq<T>>): seq<T> {
    if parts == [] then [] else Flatten(parts[..|parts| - 1]) + parts[|parts| - 1]
  }

  /** Everything in the concatenation comes from one of the parts. */
  lemma {:induction false} FlattenMember<T>(parts: seq<seq<T>>, x: T)
    requires x in Flatten(parts)
    ensures exists k :: 0 <= k < |parts| && x in parts[k]
  {
    var prefix := parts[..|parts| - 1];
    if x in Flatten(prefix) {
      FlattenMember(prefix, x);
      var k :| 0 <= k < |prefix| && x in prefix[k];
      assert parts[k] == prefix[k];
    } else {
      assert x in parts[|parts| - 1];
    }
  }
}
