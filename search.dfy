/** Linear search for the first element satisfying a test: the `for ... if ...: break` scans. */
module Search {
  import opened Wrappers

  /** The index of the first element of `s` that satisfies `p`, if any does. */
  function FirstWhere<T>(s: seq<T>, p: T -> bool): (r: Option<nat>)
    ensures r.Some? ==> r.value < |s| && p(s[r.value]) && forall j :: 0 <= j < r.value ==> !p(s[j])
    ensures r.None? <==> forall j :: 0 <= j < |s| ==> !p(s[j])
  {
    if s == [] then None
    else if p(s[0]) then Some(0)
    else
      match FirstWhere(s[1..], p)
      case Some(i) => Some(i + 1)
      case None => None
  }

  /** Scan `s` front to back and stop at the first element satisfying `p`. */
  method ScanFirst<T>(s: seq<T>, p: T -> bool) returns (found: Option<nat>)
    ensures found == FirstWhere(s, p)
  {
    found := None;
    var i := 0;
    while i < |s|
      invariant 0 <= i <= |s|
      invariant forall j :: 0 <= j < i ==> !p(s[j])
      invariant found == None
    {
      if p(s[i]) {
        found := Some(i);
        break;
      }
      i := i + 1;
    }
  }
}
