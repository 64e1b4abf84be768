/** Header-key matching used by the process-message listener: an ordinal,
    case-insensitive prefix test, with case folding restricted to ASCII
    letters. */
module Text {

  /** The key prefix that marks NServiceBus framework headers. */
  const NServiceBusPrefix: string := "NServiceBus."

  /** Simple upper-case folding of one character (ASCII letters only). */
  function FoldAscii(c: char): (u: char)
  {
    if 'a' <= c <= 'z' then (c as int - 32) as char else c
  }

  /** `s.StartsWith(prefix, StringComparison.OrdinalIgnoreCase)`: `s` is at
      least as long as `prefix`, and its first `|prefix|` characters agree
      with `prefix` character by character once both are folded. */
  function StartsWithIgnoreCase(s: string, prefix: string): (b: bool)
    ensures b <==> |prefix| <= |s| &&
                   forall i :: 0 <= i < |prefix| ==> FoldAscii(s[i]) == FoldAscii(prefix[i])
  {
    if prefix == [] then true
    else if s == [] then false
    else FoldAscii(s[0]) == FoldAscii(prefix[0]) && StartsWithIgnoreCase(s[1..], prefix[1..])
  }

  /** Two keys that differ only in the case of ASCII letters either both
      carry the prefix or both lack it. */
  lemma StartsWithIgnoreCaseIgnoresCase(s: string, t: string, prefix: string)
    requires |s| == |t|
    requires forall i :: 0 <= i < |s| ==> FoldAscii(s[i]) == FoldAscii(t[i])
    ensures StartsWithIgnoreCase(s, prefix) <==> StartsWithIgnoreCase(t, prefix)
  {
  }

  /** A key that carries the prefix still carries it when more text follows. */
  lemma StartsWithIgnoreCaseExtends(s: string, suffix: string, prefix: string)
    requires StartsWithIgnoreCase(s, prefix)
    ensures StartsWithIgnoreCase(s + suffix, prefix)
  {
  }

  /** A lower-case spelling of the prefix still matches. */
  lemma LowerCaseKeyMatches()
    ensures StartsWithIgnoreCase("nservicebus.x", NServiceBusPrefix)
  {
    var key := "nservicebus.x";
    forall i | 0 <= i < |NServiceBusPrefix|
      ensures FoldAscii(key[i]) == FoldAscii(NServiceBusPrefix[i])
    {
    }
  }

  /** The bare word without its dot is too short to match. */
  lemma BareWordDoesNotMatch()
    ensures !StartsWithIgnoreCase("NServiceBus", NServiceBusPrefix)
  {
  }
}
