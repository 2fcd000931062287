/** Generic facts about sequences of sequences and about infixes, shared by the
    validators that concatenate per-element issue lists. */
module Seqs {

  /** The members of `ss` concatenated, in order. */
  function Flatten<T>(ss: seq<seq<T>>): seq<T>
  {
    if ss == [] then [] else ss[0] + Flatten(ss[1..])
  }

  /** The sum of the lengths of the members of `ss`. */
  function TotalLength<T>(ss: seq<seq<T>>): nat
  {
    if ss == [] then 0 else |ss[0]| + TotalLength(ss[1..])
  }

  /** A concatenation is exactly as long as its parts together. */
  lemma {:induction false} FlattenLength<T>(ss: seq<seq<T>>)
    ensures |Flatten(ss)| == TotalLength(ss)
  {
    if ss != [] {
      FlattenLength(ss[1..]);
    }
  }

  /** Concatenation is associative. */
  lemma ConcatAssoc<T>(a: seq<T>, b: seq<T>, c: seq<T>)
    ensures a + (b + c) == (a + b) + c
  {
  }

  /** The head and tail of a concatenation whose first part is not empty. */
  lemma ConcatHeadTail<T>(a: seq<T>, b: seq<T>)
    requires a != []
    ensures (a + b)[0] == a[0]
    ensures (a + b)[1..] == a[1..] + b
  {
  }

  /** The last element and front of a concatenation whose second part is not empty. */
  lemma ConcatFrontLast<T>(a: seq<T>, b: seq<T>)
    requires b != []
    ensures (a + b)[|a + b| - 1] == b[|b| - 1]
    ensures (a + b)[..|a + b| - 1] == a + b[..|b| - 1]
  {
  }

  /** An element occurs in the concatenation iff it occurs in one of the parts. */
  lemma {:induction false} InFlatten<T>(ss: seq<seq<T>>, x: T)
    ensures x in Flatten(ss) <==> exists k :: 0 <= k < |ss| && x in ss[k]
  {
    if ss != [] {
      var rest := ss[1..];
      InFlatten(rest, x);
      assert Flatten(ss) == ss[0] + Flatten(rest);
      if x in Flatten(ss) && x !in ss[0] {
        var k :| 0 <= k < |rest| && x in rest[k];
        assert x in ss[k + 1];
      }
      if exists k :: 0 <= k < |ss| && x in ss[k] {
        var k :| 0 <= k < |ss| && x in ss[k];
        if k > 0 {
          assert x in rest[k - 1];
        }
      }
    }
  }

  /** `InFlatten` for every element at once. */
  lemma InFlattenAll<T>(ss: seq<seq<T>>)
    ensures forall x :: x in Flatten(ss) <==> exists k :: 0 <= k < |ss| && x in ss[k]
  {
    forall x
      ensures x in Flatten(ss) <==> exists k :: 0 <= k < |ss| && x in ss[k]
    {
      InFlatten(ss, x);
    }
  }

  /** `needle` occurs inside `hay` starting at position `k`. */
  ghost predicate InfixAt<T>(needle: seq<T>, hay: seq<T>, k: int)
  {
    0 <= k <= |hay| - |needle| && hay[k..k + |needle|] == needle
  }

  /** `needle` occurs contiguously inside `hay`. */
  ghost predicate IsInfix<T>(needle: seq<T>, hay: seq<T>)
  {
    exists k :: InfixAt(needle, hay, k)
  }

  /** An infix of `hay` is an infix of anything ending in `hay`. */
  lemma InfixOfSuffix<T>(needle: seq<T>, front: seq<T>, hay: seq<T>)
    requires IsInfix(needle, hay)
    ensures IsInfix(needle, front + hay)
  {
    var k :| InfixAt(needle, hay, k);
    assert (front + hay)[|front| + k..|front| + k + |needle|] == hay[k..k + |needle|];
    assert InfixAt(needle, front + hay, |front| + k);
  }

  /** The middle part of a three-way concatenation is an infix of it. */
  lemma InfixOfConcat<T>(a: seq<T>, b: seq<T>, c: seq<T>)
    ensures IsInfix(b, a + b + c)
  {
    assert (a + b + c)[|a|..|a| + |b|] == b;
    assert InfixAt(b, a + b + c, |a|);
  }
}
