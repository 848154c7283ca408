/** Optional values and the nullish-coalescing chain (`a ?? b ?? c`) used
    throughout the weather code: JavaScript's `null` and `undefined` are both
    `None` here. */
module Wrappers {

  datatype Option<+T> = None | Some(value: T) {
    /** `this ?? default` */
    function GetOr(default: T): T {
      match this
      case Some(v) => v
      case None => default
    }
  }

  /** The first present value of a `??` chain, or `None` when every link is
      missing. */
  function FirstSome<T>(xs: seq<Option<T>>): (r: Option<T>)
    ensures r.None? <==> forall i :: 0 <= i < |xs| ==> xs[i].None?
    ensures r.Some? ==> exists i :: 0 <= i < |xs| && xs[i] == r &&
                                   forall j :: 0 <= j < i ==> xs[j].None?
  {
    if xs == [] then None
    else if xs[0].Some? then xs[0]
    else
      var r := FirstSome(xs[1..]);
      assert forall i :: 1 <= i < |xs| ==> xs[i] == xs[1..][i - 1];
      r
  }

  /** Element `i` of a JavaScript array: `undefined` past the end, and a JSON
      `null` element is also `None`. */
  function At<T>(xs: seq<Option<T>>, i: nat): (r: Option<T>)
    ensures i < |xs| ==> r == xs[i]
    ensures i >= |xs| ==> r.None?
  {
    if i < |xs| then xs[i] else None
  }
}
