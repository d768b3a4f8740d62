/**
 * The two PHP string built-ins the priming callback relies on, with the
 * semantics they have for the arguments it passes (PHP 8).
 */
module PhpString {

  /** `str_starts_with($haystack, $needle)`: `prefix` is a prefix of `s`. */
  predicate StartsWith(s: string, prefix: string)
    ensures StartsWith(s, prefix) <==> exists rest :: s == prefix + rest
  {
    if |prefix| <= |s| && s[..|prefix|] == prefix then
      assert s == prefix + s[|prefix|..];
      true
    else
      false
  }

  /**
   * `substr($s, $start)` with a non-negative offset and without a length: the part
   * of `s` after its first `start` characters, or "" when `start` is at or
   * past the end.
   */
  function Substr(s: string, start: nat): (r: string)
    ensures start <= |s| ==> s[..start] + r == s
    ensures |s| <= start ==> r == ""
  {
    if start <= |s| then s[start..] else ""
  }
}
