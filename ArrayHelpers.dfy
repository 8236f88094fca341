/**
 * `findIndex`, `find` and `remove` of src/util.ts: first-match search over
 * an array and in-place removal of the first match.
 */
module ArrayHelpers {
  import opened Wrappers

  /** A JavaScript array that `remove` changes in place; `elems` is its contents. */
  class JsArray<T> {
    var elems: seq<T>

    constructor (elems: seq<T>)
      ensures this.elems == elems
    {
      this.elems := elems;
    }
  }

  /** `r` is the index `findIndex` must report: the least matching index, or `None` when nothing matches. */
  ghost predicate IsFirstMatch<T>(pred: T -> bool, xs: seq<T>, r: Option<nat>)
  {
    match r
    case None => forall j :: 0 <= j < |xs| ==> !pred(xs[j])
    case Some(i) => i < |xs| && pred(xs[i]) && forall j :: 0 <= j < i ==> !pred(xs[j])
  }

  /** The first-match index, as a function (`None` stands for `undefined`). */
  function FirstMatch<T>(pred: T -> bool, xs: seq<T>): Option<nat>
  {
    if xs == [] then None
    else if pred(xs[0]) then Some(0)
    else match FirstMatch(pred, xs[1..])
      case None => None
      case Some(i) => Some(i + 1)
  }

  /** `FirstMatch` finds the least matching index, and reports `None` only when no element matches. */
  lemma {:induction false} FirstMatchIsFirst<T>(pred: T -> bool, xs: seq<T>)
    ensures IsFirstMatch(pred, xs, FirstMatch(pred, xs))
  {
    if xs != [] && !pred(xs[0]) {
      FirstMatchIsFirst(pred, xs[1..]);
      assert forall j :: 1 <= j < |xs| ==> xs[j] == xs[1..][j - 1];
    }
  }

  /**
   * `findIndex(predicate, xs)`: the `some` loop records the first index
   * whose element satisfies the predicate and stops there.
   */
  method FindIndex<T>(pred: T -> bool, xs: seq<T>) returns (index: Option<nat>)
    ensures IsFirstMatch(pred, xs, index)
    ensures index == FirstMatch(pred, xs)
  {
    index := None;
    var i := 0;
    while i < |xs|
      invariant 0 <= i <= |xs|
      invariant forall j :: 0 <= j < i ==> !pred(xs[j])
    {
      if pred(xs[i]) {
        index := Some(i);
        break;
      }
      i := i + 1;
    }
    FirstMatchIsFirst(pred, xs);
  }

  /** `find(predicate, xs)`: `xs[index]`, which is `undefined` when `index` is. */
  method Find<T>(pred: T -> bool, xs: seq<T>) returns (r: Option<T>)
    ensures r.None? <==> forall j :: 0 <= j < |xs| ==> !pred(xs[j])
    ensures r.Some? ==> pred(r.value) && exists i :: 0 <= i < |xs| && xs[i] == r.value && IsFirstMatch(pred, xs, Some(i))
  {
    var index := FindIndex(pred, xs);
    match index
    case None =>
      r := None;
    case Some(i) =>
      r := Some(xs[i]);
  }

  /** `xs.splice(start, deleteCount)` for a non-negative start: the contents left behind. */
  function Splice<T>(xs: seq<T>, start: nat, deleteCount: nat): seq<T>
  {
    var s := if start < |xs| then start else |xs|;
    var n := if deleteCount < |xs| - s then deleteCount else |xs| - s;
    xs[..s] + xs[s + n..]
  }

  /**
   * What `remove` leaves: `splice(index, 1)`, where an `undefined` index
   * converts to 0.
   */
  function RemoveFirst<T>(pred: T -> bool, xs: seq<T>): seq<T>
  {
    var start := match FirstMatch(pred, xs) case Some(i) => i case None => 0;
    Splice(xs, start, 1)
  }

  /**
   * When some element matches, `remove` deletes exactly the first match:
   * every other element stays, in its order.
   */
  lemma RemoveFirstDeletesFirstMatch<T>(pred: T -> bool, xs: seq<T>, i: nat)
    requires IsFirstMatch(pred, xs, Some(i))
    ensures RemoveFirst(pred, xs) == xs[..i] + xs[i + 1..]
    ensures |RemoveFirst(pred, xs)| == |xs| - 1
    ensures multiset(RemoveFirst(pred, xs)) + multiset{xs[i]} == multiset(xs)
  {
    FirstMatchIsFirst(pred, xs);
    assert xs == xs[..i] + [xs[i]] + xs[i + 1..];
  }

  /**
   * When nothing matches, `remove` still deletes: `splice(undefined, 1)`
   * takes out the first element of a non-empty array.
   */
  lemma RemoveWithoutMatchDropsHead<T>(pred: T -> bool, xs: seq<T>)
    requires forall j :: 0 <= j < |xs| ==> !pred(xs[j])
    ensures RemoveFirst(pred, xs) == if xs == [] then [] else xs[1..]
  {
    FirstMatchIsFirst(pred, xs);
  }

  /** `remove(predicate, xs)`: finds the first match and splices it out of the array. */
  method Remove<T>(pred: T -> bool, xs: JsArray<T>)
    modifies xs
    ensures xs.elems == RemoveFirst(pred, old(xs.elems))
  {
    var index := FindIndex(pred, xs.elems);
    var start := match index case Some(i) => i case None => 0;
    xs.elems := Splice(xs.elems, start, 1);
  }
}
