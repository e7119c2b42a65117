/** The few pieces of JavaScript semantics the relay engine relies on:
    truthiness of untyped payload fields, and `indexOf`/`splice` on the
    ordered client list. */
module Js {

  /** An untyped payload field as a handler sees it. Numbers are integers
      here; `Blob` stands for any object value (an image buffer, a key event
      record) whose contents the relay never inspects. */
  datatype Value = Undefined | Null | Bool(b: bool) | Num(n: int) | Str(s: string) | Blob(id: nat)

  /** JavaScript truthiness: the test behind every `if (!data.field)` guard. */
  predicate Truthy(v: Value) {
    match v
    case Undefined => false
    case Null => false
    case Bool(b) => b
    case Num(n) => n != 0
    case Str(s) => s != ""
    case Blob(_) => true
  }

  /** No element occurs twice. */
  predicate NoDup<T(==)>(xs: seq<T>) {
    forall i, j :: 0 <= i < j < |xs| ==> xs[i] != xs[j]
  }

  /** `Array.prototype.indexOf`: the first position of `x`, or -1. */
  function IndexOf<T(==)>(xs: seq<T>, x: T): (i: int)
    ensures i == -1 <==> x !in xs
    ensures i != -1 ==> 0 <= i < |xs| && xs[i] == x && x !in xs[..i]
  {
    if |xs| == 0 then -1
    else if xs[0] == x then 0
    else
      var j := IndexOf(xs[1..], x);
      assert xs == [xs[0]] + xs[1..];
      if j == -1 then -1
      else
        assert xs[..j + 1] == [xs[0]] + xs[1..][..j];
        j + 1
  }

  /** `xs.splice(xs.indexOf(x), 1)` guarded by `indexOf(x) !== -1`: drops the
      first occurrence of `x` and keeps everything else in order. */
  function RemoveFirst<T(==)>(xs: seq<T>, x: T): (r: seq<T>)
    ensures x !in xs ==> r == xs
    ensures x in xs ==> |r| == |xs| - 1
    ensures multiset(r) == multiset(xs) - multiset{x}
    ensures NoDup(xs) ==> NoDup(r) && x !in r
  {
    var i := IndexOf(xs, x);
    if i == -1 then xs
    else
      assert xs == xs[..i] + [x] + xs[i + 1..];
      SpliceKeepsNoDup(xs, i);
      xs[..i] + xs[i + 1..]
  }

  /** Cutting one position out of a duplicate-free list leaves a
      duplicate-free list that no longer holds the cut element. */
  lemma SpliceKeepsNoDup<T>(xs: seq<T>, i: int)
    requires 0 <= i < |xs|
    ensures NoDup(xs) ==> NoDup(xs[..i] + xs[i + 1..]) && xs[i] !in xs[..i] + xs[i + 1..]
  {
    if NoDup(xs) {
      var r := xs[..i] + xs[i + 1..];
      assert forall k :: 0 <= k < |r| ==> r[k] == xs[if k < i then k else k + 1];
    }
  }

  /** Order-preserving filter that drops every occurrence of `x`: the
      independent description of "that id is removed, the others keep
      their order". */
  function Without<T(==)>(xs: seq<T>, x: T): (r: seq<T>)
    ensures x !in r
    ensures forall y :: y in r ==> y in xs
    ensures forall y :: y in xs && y != x ==> y in r
  {
    if |xs| == 0 then []
    else if xs[0] == x then Without(xs[1..], x)
    else [xs[0]] + Without(xs[1..], x)
  }

  /** On a duplicate-free list, removing the first occurrence is the same as
      filtering the element out: no other element moves relative to another. */
  lemma {:induction false} RemoveFirstIsFilter<T>(xs: seq<T>, x: T)
    requires NoDup(xs)
    ensures RemoveFirst(xs, x) == Without(xs, x)
  {
    if |xs| > 0 {
      var tail := xs[1..];
      assert xs == [xs[0]] + tail;
      if xs[0] == x {
        assert x !in tail;
        WithoutAbsent(tail, x);
      } else {
        assert NoDup(tail) by {
          forall i, j | 0 <= i < j < |tail| ensures tail[i] != tail[j] {
            assert tail[i] == xs[i + 1] && tail[j] == xs[j + 1];
          }
        }
        RemoveFirstIsFilter(tail, x);
        RemoveFirstCons(xs, x);
      }
    }
  }

  /** Removing the first occurrence commutes with a head that differs. */
  lemma RemoveFirstCons<T>(xs: seq<T>, x: T)
    requires |xs| > 0 && xs[0] != x
    ensures RemoveFirst(xs, x) == [xs[0]] + RemoveFirst(xs[1..], x)
  {
    var tail := xs[1..];
    var j := IndexOf(tail, x);
    assert IndexOf(xs, x) == if j == -1 then -1 else j + 1;
    if j != -1 {
      assert RemoveFirst(xs, x) == xs[..j + 1] + xs[j + 2..];
      assert RemoveFirst(tail, x) == tail[..j] + tail[j + 1..];
      assert xs[..j + 1] == [xs[0]] + tail[..j];
      assert xs[j + 2..] == tail[j + 1..];
    } else {
      assert xs == [xs[0]] + tail;
    }
  }

  /** Filtering out an absent element changes nothing. */
  lemma {:induction false} WithoutAbsent<T>(xs: seq<T>, x: T)
    requires x !in xs
    ensures Without(xs, x) == xs
  {
    if |xs| > 0 {
      WithoutAbsent(xs[1..], x);
      assert xs == [xs[0]] + xs[1..];
    }
  }
}
