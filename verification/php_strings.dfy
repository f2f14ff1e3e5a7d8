/** The PHP and WordPress string built-ins the plugin relies on, restricted
    to what it uses them for: `strpos`, single-character `str_replace`,
    ASCII `strtolower`, PHP's truthiness of a string, and WordPress's
    `trailingslashit`. */
module PhpStrings {
  import opened Wrappers

  /** `needle` occurs in `haystack` starting at offset `k`. */
  predicate OccursAt(haystack: string, needle: string, k: int) {
    0 <= k && k + |needle| <= |haystack| && haystack[k..k + |needle|] == needle
  }

  lemma OccursAtShift(haystack: string, needle: string, k: int)
    requires |haystack| > 0 && k >= 0
    ensures OccursAt(haystack[1..], needle, k) <==> OccursAt(haystack, needle, k + 1)
  {
  }

  /** `strpos`: the offset of the first occurrence of `needle`, or `None`
      (PHP's `false`) when there is none. An empty needle is found at 0, as
      in PHP 8. */
  function StrPos(haystack: string, needle: string): (r: Option<nat>)
    ensures r.Some? ==> OccursAt(haystack, needle, r.value)
    ensures r.Some? ==> forall k :: 0 <= k < r.value ==> !OccursAt(haystack, needle, k)
    ensures r.None? ==> forall k :: !OccursAt(haystack, needle, k)
    decreases |haystack|
  {
    if |haystack| < |needle| then
      None
    else if needle <= haystack then
      assert haystack[0..|needle|] == needle;
      Some(0)
    else
      assert !OccursAt(haystack, needle, 0);
      match StrPos(haystack[1..], needle)
      case None =>
        assert forall k :: !OccursAt(haystack, needle, k) by {
          forall k ensures !OccursAt(haystack, needle, k) {
            if k >= 1 {
              OccursAtShift(haystack, needle, k - 1);
            }
          }
        }
        None
      case Some(j) =>
        OccursAtShift(haystack, needle, j);
        assert forall k :: 1 <= k < j + 1 ==> !OccursAt(haystack, needle, k) by {
          forall k | 1 <= k < j + 1 ensures !OccursAt(haystack, needle, k) {
            OccursAtShift(haystack, needle, k - 1);
          }
        }
        Some(j + 1)
  }

  /** `strpos($s, $prefix) === 0` is exactly the prefix test. */
  lemma StrPosZeroIsPrefix(s: string, prefix: string)
    ensures StrPos(s, prefix) == Some(0) <==> prefix <= s
  {
  }

  /** `str_replace($from, $to, $s)` for one-character search and replacement. */
  function StrReplaceChar(s: string, from: char, to: char): (r: string)
    ensures |r| == |s|
    ensures forall i :: 0 <= i < |s| ==> r[i] == (if s[i] == from then to else s[i])
    ensures from != to ==> from !in r
  {
    if s == [] then []
    else [if s[0] == from then to else s[0]] + StrReplaceChar(s[1..], from, to)
  }

  predicate IsUpperAscii(c: char) {
    'A' <= c <= 'Z'
  }

  /** ASCII lower-casing of one character, as `strtolower` does in PHP 8.2 and
      later. */
  function LowerChar(c: char): (r: char)
    ensures !IsUpperAscii(r)
    ensures IsUpperAscii(c) ==> r as int == c as int + 32
    ensures !IsUpperAscii(c) ==> r == c
  {
    if IsUpperAscii(c) then (c as int + 32) as char else c
  }

  /** No character of `s` is an upper-case ASCII letter. */
  predicate NoUpper(s: string) {
    forall i :: 0 <= i < |s| ==> !IsUpperAscii(s[i])
  }

  /** `strtolower`. */
  function StrToLower(s: string): (r: string)
    ensures |r| == |s|
    ensures forall i :: 0 <= i < |s| ==> r[i] == LowerChar(s[i])
    ensures NoUpper(r)
  {
    seq(|s|, i requires 0 <= i < |s| => LowerChar(s[i]))
  }

  /** Lower-casing leaves a string without upper-case letters unchanged. */
  lemma StrToLowerFixes(s: string)
    requires NoUpper(s)
    ensures StrToLower(s) == s
  {
  }

  /** PHP's truthiness of a string: only "" and "0" are falsy. An unset
      (null) static variable is represented by "". */
  predicate Truthy(s: string) {
    s != "" && s != "0"
  }

  predicate IsSlash(c: char) {
    c == '/' || c == '\\'
  }

  /** WordPress's `untrailingslashit`: `rtrim($s, '/\\')`. */
  function Untrailing(s: string): (r: string)
    ensures r <= s
    ensures r == [] || !IsSlash(r[|r| - 1])
    ensures forall i :: |r| <= i < |s| ==> IsSlash(s[i])
  {
    if s != [] && IsSlash(s[|s| - 1]) then Untrailing(s[..|s| - 1]) else s
  }

  /** WordPress's `trailingslashit`: strip every trailing forward or back
      slash, then append exactly one '/'. */
  function TrailingSlashIt(s: string): (r: string)
    ensures |r| > 0 && r[|r| - 1] == '/'
    ensures Truthy(r)
    ensures r[..|r| - 1] <= s
    ensures forall i :: |r| - 1 <= i < |s| ==> IsSlash(s[i])
    ensures |r| == 1 || !IsSlash(r[|r| - 2])
  {
    var t := Untrailing(s);
    assert (t + "/")[..|t|] == t;
    t + "/"
  }

  /** Applying `trailingslashit` twice is the same as applying it once. */
  lemma TrailingSlashItIdempotent(s: string)
    ensures TrailingSlashIt(TrailingSlashIt(s)) == TrailingSlashIt(s)
  {
  }
}
