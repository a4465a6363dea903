/** Searching a list from the back (Pipeline/Infrastructure/IListTExtensions.cs). */
module ListExtensions {

  /** The index of the last element satisfying p, or -1 when there is none. */
  function LastIndex<T>(s: seq<T>, p: T -> bool): (r: int)
    ensures -1 <= r < |s|
    ensures r >= 0 ==> p(s[r])
    ensures forall j :: r < j < |s| ==> !p(s[j])
  {
    if s == [] then -1
    else if p(s[|s| - 1]) then |s| - 1
    else LastIndex(s[..|s| - 1], p)
  }

  /** LastIndexWhere: a forward scan remembering the latest index that matched. */
  method LastIndexWhere<T>(vals: seq<T>, pred: T -> bool) returns (maxIdx: int)
    ensures maxIdx == LastIndex(vals, pred)
  {
    maxIdx := -1;
    var i := 0;
    while i < |vals|
      invariant 0 <= i <= |vals|
      invariant maxIdx == LastIndex(vals[..i], pred)
    {
      assert vals[..i + 1][..i] == vals[..i];
      if pred(vals[i]) {
        maxIdx := i;
      }
      i := i + 1;
    }
    assert vals[..i] == vals;
  }

  /** -1 exactly when no element satisfies p; in particular for the empty list. */
  lemma NotFound<T>(s: seq<T>, p: T -> bool)
    ensures LastIndex(s, p) == -1 <==> forall j :: 0 <= j < |s| ==> !p(s[j])
  {
  }

  function IsThree(x: int): bool { x == 3 }
  function IsSix(x: int): bool { x == 6 }

  /** IListTExtensionsTests: the last 3 of [0, 1, 2, 1, 2, 3] is at index 5,
      and there is no 6. */
  lemma LastIndexExample(s: seq<int>)
    requires s == [0, 1, 2, 1, 2, 3]
    ensures LastIndex(s, IsThree) == 5
    ensures LastIndex(s, IsSix) == -1
  {
    NotFound(s, IsSix);
  }
}
