/** Option and Result, as the Rust sources use them. */
module Prelude {

  datatype Option<+T> = None | Some(value: T) {
    function GetOr(other: T): T {
      if Some? then value else other
    }
  }

  /** `at` names the stage of an operation whose error is returned. */
  datatype Result<+T, +E> = Success(value: T) | Failure(at: E)

  function Min(a: int, b: int): (m: int)
    ensures m <= a && m <= b && (m == a || m == b)
  {
    if a < b then a else b
  }

  function Max(a: int, b: int): (m: int)
    ensures m >= a && m >= b && (m == a || m == b)
  {
    if a < b then b else a
  }

  /** Rust's `saturating_sub` on `usize`. */
  function SaturatingSub(a: nat, b: nat): (d: nat)
    ensures d == Max(a, b) - b
  {
    if a < b then 0 else a - b
  }

  /** `validate_resource_name`: ASCII letters, digits, `-` and `_`, and not empty. */
  predicate ValidResourceName(name: string) {
    name != "" && forall c :: c in name ==>
      'a' <= c <= 'z' || 'A' <= c <= 'Z' || '0' <= c <= '9' || c == '-' || c == '_'
  }

  /** A valid name is one word. */
  lemma ValidNameIsOneWord(name: string)
    requires ValidResourceName(name)
    ensures name != "" && forall c :: c in name ==> c !in {'/', '.', ' ', '\0', '\n'}
  {
  }

  /** The multiset of a sequence, taken apart at its head. */
  lemma MultisetOfHeadAndTail<T>(xs: seq<T>)
    requires xs != []
    ensures multiset(xs) == multiset{xs[0]} + multiset(xs[1..])
  {
    assert xs == [xs[0]] + xs[1..];
  }

  lemma OccursTwice<T>(xs: seq<T>, i: nat, j: nat)
    requires i < j < |xs| && xs[i] == xs[j]
    ensures multiset(xs)[xs[i]] >= 2
  {
    assert xs == xs[..i] + [xs[i]] + xs[i + 1..j] + [xs[j]] + xs[j + 1..];
  }

  lemma OccursOnce<T>(xs: seq<T>, x: T)
    requires forall i, j :: 0 <= i < j < |xs| ==> xs[i] != xs[j]
    ensures multiset(xs)[x] <= 1
  {
    if xs != [] {
      MultisetOfHeadAndTail(xs);
      OccursOnce(xs[1..], x);
    }
  }

  lemma SameMembers<T>(xs: seq<T>, ys: seq<T>)
    requires multiset(xs) == multiset(ys)
    ensures forall x :: x in xs <==> x in ys
  {
    assert forall x :: x in xs <==> x in multiset(xs);
    assert forall y :: y in ys <==> y in multiset(ys);
  }

  /** A permutation of a sequence without repetition has none either. */
  lemma PermutationStaysDistinct<T>(xs: seq<T>, ys: seq<T>, i: nat, j: nat)
    requires forall i, j :: 0 <= i < j < |xs| ==> xs[i] != xs[j]
    requires multiset(ys) == multiset(xs) && i < j < |ys|
    ensures ys[i] != ys[j]
  {
    OccursOnce(xs, ys[i]);
    if ys[i] == ys[j] {
      OccursTwice(ys, i, j);
      assert false;
    }
  }
}
