/** Sequence operations shared by the linked lists and their specifications. */
module Sequences {

  lemma Associative<T>(a: seq<T>, b: seq<T>, c: seq<T>)
    ensures (a + b) + c == a + (b + c)
  {
  }

  function Without<T>(s: seq<T>, k: nat): (r: seq<T>)
    requires k < |s|
    ensures |r| == |s| - 1
    ensures forall i :: 0 <= i < k ==> r[i] == s[i]
    ensures forall i :: k <= i < |r| ==> r[i] == s[i + 1]
  {
    s[..k] + s[k + 1..]
  }

  /** The sequence without the occurrences of `x`. */
  function Except<T(==)>(s: seq<T>, x: T): (r: seq<T>)
    ensures x !in r
    ensures forall y :: y in r ==> y in s
    ensures x !in s ==> r == s
  {
    if s == [] then []
    else (if s[0] == x then [] else [s[0]]) + Except(s[1..], x)
  }

  lemma {:induction false} ExceptConcat<T>(a: seq<T>, b: seq<T>, x: T)
    ensures Except(a + b, x) == Except(a, x) + Except(b, x)
  {
    if a == [] {
      assert a + b == b;
    } else {
      ExceptConcat(a[1..], b, x);
      assert (a + b)[0] == a[0] && (a + b)[1..] == a[1..] + b;
      var first := if a[0] == x then [] else [a[0]];
      Associative(first, Except(a[1..], x), Except(b, x));
    }
  }

  lemma ExceptHead<T>(s: seq<T>, x: T)
    requires s != []
    ensures Except(s, x) == (if s[0] == x then [] else [s[0]]) + Except(s[1..], x)
  {
  }

  lemma ExceptAppend<T>(s: seq<T>, e: T, x: T)
    ensures Except(s + [e], x) == Except(s, x) + (if e == x then [] else [e])
  {
    ExceptConcat(s, [e], x);
    ExceptHead([e], x);
  }

  // The nodes of a linked list, with null before the first and behind the last.

  ghost function At<T>(nodes: seq<T>, i: int, none: T): (node: T) {
    if 0 <= i < |nodes| then nodes[i] else none
  }

  ghost predicate Distinct<T>(nodes: seq<T>) {
    forall i, j :: 0 <= i < j < |nodes| ==> nodes[i] != nodes[j]
  }

  /** How positions shift when a node is taken out, added behind, or put in front. */
  lemma Removed<T>(nodes: seq<T>, k: nat, none: T)
    requires Distinct(nodes) && k < |nodes|
    ensures Distinct(Without(nodes, k)) && nodes[k] !in Without(nodes, k)
    ensures forall i :: 0 <= i < k ==> At(Without(nodes, k), i, none) == At(nodes, i, none)
    ensures forall i :: k <= i ==> At(Without(nodes, k), i, none) == At(nodes, i + 1, none)
  {
  }

  lemma Appended<T>(nodes: seq<T>, node: T, none: T)
    requires Distinct(nodes) && node !in nodes
    ensures var longer := nodes + [node];
      && Distinct(longer)
      && (forall i :: 0 <= i < |nodes| ==> At(longer, i, none) == At(nodes, i, none))
      && At(longer, |nodes|, none) == node && At(longer, |nodes| + 1, none) == none
  {
  }

  lemma Prepended<T>(nodes: seq<T>, node: T, none: T)
    requires Distinct(nodes) && node !in nodes
    ensures var longer := [node] + nodes;
      && Distinct(longer)
      && forall i :: 1 <= i ==> At(longer, i, none) == At(nodes, i - 1, none)
  {
  }
}
