/** Option and the first-match search that the service builds all its lookups on. */
module Lists {

  datatype Option<+T> = None | Some(value: T)

  /** The first element of `s` that satisfies `p`, or None when no element does
      (the behaviour of a list's `firstOrNull { ... }`). */
  function FirstOrNull<T(==)>(s: seq<T>, p: T -> bool): (r: Option<T>)
    ensures r.None? <==> forall i :: 0 <= i < |s| ==> !p(s[i])
    ensures r.Some? ==> exists i :: 0 <= i < |s| && s[i] == r.value && p(s[i]) && NoneBefore(s, p, i)
  {
    if s == [] then None
    else if p(s[0]) then Some(s[0])
    else
      var rest := FirstOrNull(s[1..], p);
      if rest.Some? then
        var i :| 0 <= i < |s| - 1 && s[1..][i] == rest.value && p(s[1..][i]) && NoneBefore(s[1..], p, i);
        assert s[i + 1] == rest.value && NoneBefore(s, p, i + 1);
        rest
      else
        assert forall i :: 1 <= i < |s| ==> s[i] == s[1..][i - 1];
        rest
  }

  /** No element before position `i` satisfies `p`. */
  predicate NoneBefore<T>(s: seq<T>, p: T -> bool, i: int)
    requires 0 <= i <= |s|
  {
    forall j :: 0 <= j < i ==> !p(s[j])
  }
}
