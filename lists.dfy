/** `Array.prototype.find`, returning the position of the element it finds. */
module Lists {
  import opened Wrappers

  /** The first position whose element `matches`, or None when there is none. */
  function Find<T>(s: seq<T>, matches: T -> bool): (k: Option<nat>)
    ensures k.Some? ==> k.value < |s| && matches(s[k.value])
    ensures k.Some? ==> forall j :: 0 <= j < k.value ==> !matches(s[j])
    ensures k.None? ==> forall j :: 0 <= j < |s| ==> !matches(s[j])
  {
    if s == [] then None
    else if matches(s[0]) then Some(0)
    else match Find(s[1..], matches)
      case None => None
      case Some(k) => Some(k + 1)
  }
}
