/**
 * The two pieces of Python string behaviour the bot relies on:
 * truthiness of an optional string and `str.strip()` with no argument.
 */
module PyText {
  import opened Wrappers

  /** Python truthiness of a value that is either None or a string: None and "" are false. */
  predicate Truthy(o: Option<string>) {
    o.Some? && o.value != ""
  }

  /** `c.isspace()`: the characters `str.strip()` removes when given no argument. */
  predicate IsSpace(c: char) {
    || c == ' ' || c == '\t' || c == '\n' || c == '\r'
    || c == '\U{0B}' || c == '\U{0C}'
    || ('\U{1C}' <= c <= '\U{1F}')
    || c == '\U{85}' || c == '\U{A0}' || c == '\U{1680}'
    || ('\U{2000}' <= c <= '\U{200A}')
    || c == '\U{2028}' || c == '\U{2029}' || c == '\U{202F}' || c == '\U{205F}' || c == '\U{3000}'
  }

  /** The number of whitespace characters at the start of s. */
  function LeadingSpaces(s: string): (n: nat)
    ensures n <= |s|
    ensures forall k :: 0 <= k < n ==> IsSpace(s[k])
    ensures n < |s| ==> !IsSpace(s[n])
  {
    if s != [] && IsSpace(s[0]) then 1 + LeadingSpaces(s[1..]) else 0
  }

  /** The number of whitespace characters at the end of s. */
  function TrailingSpaces(s: string): (n: nat)
    ensures n <= |s|
    ensures forall k :: |s| - n <= k < |s| ==> IsSpace(s[k])
    ensures n < |s| ==> !IsSpace(s[|s| - 1 - n])
  {
    if s != [] && IsSpace(s[|s| - 1]) then 1 + TrailingSpaces(s[..|s| - 1]) else 0
  }

  /**
   * `s.strip()`: s with its leading and trailing whitespace removed. The result is empty
   * exactly when s is all whitespace; otherwise it is the slice of s that starts after the
   * leading whitespace, it neither starts nor ends with whitespace, and only whitespace
   * lies outside it.
   */
  function Strip(s: string): (r: string)
    ensures r == [] <==> forall k :: 0 <= k < |s| ==> IsSpace(s[k])
    ensures r != [] ==>
      var lo := LeadingSpaces(s);
      && lo + |r| <= |s| && r == s[lo..lo + |r|]
      && !IsSpace(r[0]) && !IsSpace(r[|r| - 1])
      && forall k :: 0 <= k < |s| && !(lo <= k < lo + |r|) ==> IsSpace(s[k])
  {
    var lo := LeadingSpaces(s);
    if lo == |s| then []
    else
      var hi := |s| - TrailingSpaces(s);
      assert lo < hi;
      s[lo..hi]
  }

  /** Text that neither starts nor ends with whitespace is left as it is. */
  lemma StripKeeps(s: string)
    requires s != [] ==> !IsSpace(s[0]) && !IsSpace(s[|s| - 1])
    ensures Strip(s) == s
  {
  }

  /** Stripping twice is stripping once. */
  lemma StripIdempotent(s: string)
    ensures Strip(Strip(s)) == Strip(s)
  {
  }

  /**
   * Strip is pinned down by its contract: for any slice s[lo..hi] that starts and ends
   * with non-whitespace and has only whitespace outside it, `Strip(s)` is that slice.
   */
  lemma StripUnique(s: string, lo: nat, hi: nat)
    requires lo < hi <= |s|
    requires !IsSpace(s[lo]) && !IsSpace(s[hi - 1])
    requires forall k :: 0 <= k < |s| && !(lo <= k < hi) ==> IsSpace(s[k])
    ensures Strip(s) == s[lo..hi]
  {
  }
}
