/** The few PHP and WordPress primitives the plugin's server-side logic relies on. */
module Php {
  import opened Optional

  /** PHP's empty() on a string value: the empty string and "0" are both empty. */
  predicate EmptyString(s: string)
    ensures |s| >= 2 ==> !EmptyString(s)
    ensures EmptyString(s) ==> s == "" || s[0] == '0'
  {
    s == "" || s == "0"
  }

  /** PHP's empty() on an array element that may be unset (or null). */
  predicate IsEmpty(v: Option<string>) {
    v.None? || EmptyString(v.value)
  }

  /** PHP's max() on two numbers. */
  function Max(a: real, b: real): (r: real)
    ensures r >= a && r >= b
    ensures r == a || r == b
  {
    if a >= b then a else b
  }

  /** The needle occurs in the haystack at position i. */
  predicate OccursAt(haystack: string, needle: string, i: int) {
    0 <= i && i + |needle| <= |haystack| && haystack[i..i + |needle|] == needle
  }

  /** strpos($haystack, $needle) !== false */
  predicate Contains(haystack: string, needle: string)
    ensures Contains(haystack, needle) ==> |needle| <= |haystack|
  {
    exists i | 0 <= i <= |haystack| - |needle| :: OccursAt(haystack, needle, i)
  }

  /**
   * The WordPress library functions the plugin calls whose internals are not
   * part of this model: sanitize_text_field, sanitize_html_class and PHP's
   * floatval on a submitted string. Every operation takes them as a parameter,
   * so every property proved holds whatever they compute.
   */
  datatype Sanitizers = Sanitizers(
    text: string -> string,
    htmlClass: string -> string,
    floatval: string -> real)
}
