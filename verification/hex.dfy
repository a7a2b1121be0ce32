/** Preparation of hex-encoded header and key values before byte decoding
    (`fromHex` in api/interactions.js). Only the prefix strip is modelled;
    the decoding of hex digits into bytes is a library call kept abstract. */
module Hex {

  const Prefix: string := "0x"

  predicate HasPrefix(h: string) {
    |h| >= 2 && h[..2] == Prefix
  }

  /** Removes one leading "0x" (the regular expression `^0x`: anchored at
      the start, case-sensitive, applied once). */
  function StripPrefix(h: string): (r: string)
    ensures HasPrefix(h) ==> Prefix + r == h
    ensures !HasPrefix(h) ==> r == h
    ensures |r| == |h| || |r| == |h| - 2
  {
    if HasPrefix(h) then h[2..] else h
  }

  /** Stripping undoes prepending the prefix, for every string, including
      one that itself begins with "0x": exactly one prefix goes. */
  lemma StripAfterPrepend(h: string)
    ensures StripPrefix(Prefix + h) == h
  {
    assert (Prefix + h)[..2] == Prefix;
    assert (Prefix + h)[2..] == h;
  }

  /** For a string without the prefix, stripping with or without a prepended
      prefix gives the string itself. */
  lemma StripIgnoresOnePrefix(h: string)
    requires !HasPrefix(h)
    ensures StripPrefix(Prefix + h) == StripPrefix(h) == h
  {
    StripAfterPrepend(h);
  }

  /** Stripping is not idempotent: on a doubled prefix one strip leaves a
      prefixed string, and only a second strip removes the other copy. */
  lemma StripRemovesOnlyOne(h: string)
    requires HasPrefix(h)
    ensures HasPrefix(StripPrefix(Prefix + h))
    ensures StripPrefix(StripPrefix(Prefix + h)) == h[2..]
  {
    StripAfterPrepend(h);
  }
}
