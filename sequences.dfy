/** Generic facts about sequences, stated once so that the proofs that need
    them do not have to rediscover them element by element. */
module Sequences {
  /** Concatenation is associative. */
  lemma AppendAssoc<T>(x: seq<T>, y: seq<T>, z: seq<T>)
    ensures (x + y) + z == x + (y + z)
  {
  }

  /** A non-empty sequence is its front followed by its last element. */
  lemma SplitLast<T>(s: seq<T>)
    requires s != []
    ensures s == s[..|s| - 1] + [s[|s| - 1]]
  {
  }

  /** Gluing `h` onto the first element commutes with appending more elements. */
  lemma HeadGlue<T>(h: seq<T>, x: seq<seq<T>>, y: seq<seq<T>>)
    requires x != []
    ensures [h + (x + y)[0]] + (x + y)[1..] == ([h + x[0]] + x[1..]) + y
  {
    assert (x + y)[1..] == x[1..] + y;
  }

  /** `f` applied to every element, in order, built from the back like the
      loops that append one result per element. */
  function Map<A, B>(f: A -> B, s: seq<A>): seq<B> {
    if s == [] then [] else Map(f, s[..|s| - 1]) + [f(s[|s| - 1])]
  }

  /** One result per element, each the image of its element. */
  lemma {:induction false} MapItems<A, B>(f: A -> B, s: seq<A>)
    ensures |Map(f, s)| == |s|
    ensures forall i :: 0 <= i < |s| ==> Map(f, s)[i] == f(s[i])
  {
    if s != [] {
      MapItems(f, s[..|s| - 1]);
    }
  }

  /** Extending a prefix by one element appends that element's image. */
  lemma MapSnoc<A, B>(f: A -> B, s: seq<A>, k: nat)
    requires k < |s|
    ensures Map(f, s[..k + 1]) == Map(f, s[..k]) + [f(s[k])]
  {
    assert s[..k + 1][..k] == s[..k];
  }
}
