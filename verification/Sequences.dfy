/** Projections of sequences, used to read a run's log from one point of view at a time. */
module Sequences {

  /** Replaces each element by a (usually short) sequence; an empty one drops the element. */
  function FlatMap<A, B>(s: seq<A>, f: A -> seq<B>): seq<B> {
    if s == [] then [] else FlatMap(s[..|s| - 1], f) + f(s[|s| - 1])
  }

  lemma {:induction false} ConcatAssociative<T>(a: seq<T>, b: seq<T>, c: seq<T>)
    ensures a + b + c == a + (b + c)
  {}

  lemma {:induction false} SliceOfTail<T>(s: seq<T>, start: nat, i: nat, j: nat)
    requires start <= |s| && i <= j <= |s| - start
    ensures s[start..][i..j] == s[start + i..start + j]
    ensures s[start..][j..] == s[start + j..]
  {}

  lemma {:induction false} FlatMapAppend<A, B>(s: seq<A>, x: A, f: A -> seq<B>)
    ensures FlatMap(s + [x], f) == FlatMap(s, f) + f(x)
  {
    assert (s + [x])[..|s|] == s;
  }

  lemma {:induction false} FlatMapConcat<A, B>(s: seq<A>, t: seq<A>, f: A -> seq<B>)
    ensures FlatMap(s + t, f) == FlatMap(s, f) + FlatMap(t, f)
    decreases |t|
  {
    if t == [] {
      assert s + t == s;
    } else {
      assert (s + t)[..|s + t| - 1] == s + t[..|t| - 1];
      FlatMapConcat(s, t[..|t| - 1], f);
    }
  }

  lemma {:induction false} FlatMapOne<A, B>(x: A, f: A -> seq<B>)
    ensures FlatMap([x], f) == f(x)
  {
    FlatMapAppend([], x, f);
    assert [] + [x] == [x];
  }

  /** Moving elements from the front of a queue to what has left it loses nothing and keeps the order. */
  lemma {:induction false} Conserve<T>(left: seq<T>, queue: seq<T>, offered: seq<T>, leaving: seq<T>, after: seq<T>)
    requires queue + offered == leaving + after
    ensures left + queue + offered == left + leaving + after
  {
    ConcatAssociative(left, queue, offered);
    ConcatAssociative(left, leaving, after);
  }

  /** The first place of a character, or the length of the text if it does not occur. */
  function IndexOf(s: string, c: char): (i: nat)
    ensures i <= |s| && (i < |s| ==> s[i] == c) && c !in s[..i]
  {
    if s == [] then 0 else if s[0] == c then 0 else 1 + IndexOf(s[1..], c)
  }
}
