/**
 * The two small helpers of package util: membership tests over slices (util/slice.go) and a
 * string-with-default (util/val.go).
 */
module Util {

  /** Go's `for _, e := range haystack` with an early return, over strings. */
  method SliceContainsString(needle: string, haystack: seq<string>) returns (found: bool)
    ensures found <==> needle in haystack
  {
    var i := 0;
    while i < |haystack|
      invariant 0 <= i <= |haystack|
      invariant forall j :: 0 <= j < i ==> haystack[j] != needle
    {
      if haystack[i] == needle {
        return true;
      }
      i := i + 1;
    }
    return false;
  }

  /** The same scan over integers. */
  method SliceContainsInt(needle: int, haystack: seq<int>) returns (found: bool)
    ensures found <==> needle in haystack
  {
    var i := 0;
    while i < |haystack|
      invariant 0 <= i <= |haystack|
      invariant forall j :: 0 <= j < i ==> haystack[j] != needle
    {
      if haystack[i] == needle {
        return true;
      }
      i := i + 1;
    }
    return false;
  }

  /** The provided value, or the default when the value is the empty string. */
  function GetStrVal(val: string, def: string): (r: string)
    ensures r == val || r == def
    ensures val != [] ==> r == val
    ensures val == [] ==> r == def
    ensures r != [] <==> (val != [] || def != [])
  {
    if |val| == 0 then def else val
  }

  /** Applying the default twice changes nothing. */
  lemma GetStrValIdempotent(val: string, def: string)
    ensures GetStrVal(GetStrVal(val, def), def) == GetStrVal(val, def)
  {
  }
}
