/**
 * Removal of user-mention tokens from a message, as `re.sub(r'<@[A-Z0-9]+>', '', text)`
 * does it: one left-to-right pass that deletes every non-overlapping match.
 */
module Mention {
  import opened Wrappers

  /** The character class `[A-Z0-9]`. */
  predicate IsIdChar(c: char) {
    'A' <= c <= 'Z' || '0' <= c <= '9'
  }

  /** t is a whole match of `<@[A-Z0-9]+>`: the reference definition of a mention token. */
  predicate IsToken(t: string) {
    && |t| >= 4
    && t[0] == '<' && t[1] == '@' && t[|t| - 1] == '>'
    && forall k :: 2 <= k < |t| - 1 ==> IsIdChar(t[k])
  }

  /** The number of leading characters of s in `[A-Z0-9]` (the greedy `+`). */
  function IdRun(s: string): (n: nat)
    ensures n <= |s|
    ensures forall k :: 0 <= k < n ==> IsIdChar(s[k])
    ensures n < |s| ==> !IsIdChar(s[n])
  {
    if s != [] && IsIdChar(s[0]) then 1 + IdRun(s[1..]) else 0
  }

  /**
   * The length of the token the pattern matches at the start of s, if it matches there.
   * Because `>` is not in `[A-Z0-9]`, at most one prefix of s is a token, and this finds it.
   */
  function TokenAt(s: string): (r: Option<nat>)
    ensures r.Some? ==> r.value <= |s| && IsToken(s[..r.value])
    ensures r.None? ==> forall n :: 0 <= n <= |s| ==> !IsToken(s[..n])
  {
    if |s| >= 2 && s[0] == '<' && s[1] == '@' then
      var n := IdRun(s[2..]);
      if n >= 1 && 2 + n < |s| && s[2 + n] == '>' then Some(3 + n)
      else
        assert forall m :: 0 <= m <= |s| ==> !IsToken(s[..m]) by {
          forall m | 0 <= m <= |s| && IsToken(s[..m]) ensures false {
            TokenRun(s, m);
          }
        }
        None
    else None
  }

  /** A token that prefixes s ends right after the run of identifier characters. */
  lemma TokenRun(s: string, m: nat)
    requires |s| >= 2 && m <= |s| && IsToken(s[..m])
    ensures IdRun(s[2..]) == m - 3 && s[m - 1] == '>'
  {
    var t := s[2..];
    assert forall k :: 0 <= k < m - 3 ==> IsIdChar(t[k]) by {
      forall k | 0 <= k < m - 3 ensures IsIdChar(t[k]) {
        assert t[k] == s[..m][k + 2];
      }
    }
    assert t[m - 3] == s[..m][m - 1];
    IdRunExact(t, m - 3);
  }

  lemma {:induction false} IdRunExact(t: string, n: nat)
    requires n < |t| && !IsIdChar(t[n])
    requires forall k :: 0 <= k < n ==> IsIdChar(t[k])
    ensures IdRun(t) == n
  {
    if n > 0 {
      IdRunExact(t[1..], n - 1);
    }
  }

  /** `re.sub(r'<@[A-Z0-9]+>', '', s)`. */
  function RemoveMentions(s: string): (r: string)
    ensures |r| <= |s|
    decreases |s|
  {
    if s == [] then []
    else match TokenAt(s)
      case Some(n) => RemoveMentions(s[n..])
      case None => [s[0]] + RemoveMentions(s[1..])
  }

  /** A token at the front is removed whole, whatever follows it. */
  lemma LeadingTokenRemoved(t: string, s: string)
    requires IsToken(t)
    ensures RemoveMentions(t + s) == RemoveMentions(s)
  {
    var u := t + s;
    assert u[..|t|] == t;
    assert TokenAt(u).Some?;
    var n := TokenAt(u).value;
    TokenPrefixUnique(u, n, |t|);
    assert u[n..] == s;
  }

  /** At most one prefix of a string is a token. */
  lemma TokenPrefixUnique(s: string, m: nat, n: nat)
    requires m <= |s| && n <= |s| && IsToken(s[..m]) && IsToken(s[..n])
    ensures m == n
  {
  }

  /** A character that cannot open a token is kept, and the rest is processed on its own. */
  lemma PlainCharKept(c: char, s: string)
    requires c != '<'
    ensures RemoveMentions([c] + s) == [c] + RemoveMentions(s)
  {
  }

  /** Text without `<` has no token in it and comes back unchanged. */
  lemma {:induction false} NoBracketUnchanged(s: string)
    requires forall k :: 0 <= k < |s| ==> s[k] != '<'
    ensures RemoveMentions(s) == s
  {
    if s != [] {
      NoBracketUnchanged(s[1..]);
      PlainCharKept(s[0], s[1..]);
      assert [s[0]] + s[1..] == s;
    }
  }

  /** A token followed by text without `<` leaves exactly that text. */
  lemma TokenThenPlain(t: string, rest: string)
    requires IsToken(t)
    requires forall k :: 0 <= k < |rest| ==> rest[k] != '<'
    ensures RemoveMentions(t + rest) == rest
  {
    LeadingTokenRemoved(t, rest);
    NoBracketUnchanged(rest);
  }

  /** Where no prefix of `s` is a token, the first character is kept. */
  lemma NoTokenKept(s: string)
    requires s != [] && forall n :: 0 <= n <= |s| ==> !IsToken(s[..n])
    ensures RemoveMentions(s) == [s[0]] + RemoveMentions(s[1..])
  {
  }

  /**
   * Removing tokens can bring a new token together from the pieces around them, so one
   * pass does not leave the text free of tokens and a second pass can remove more.
   */
  lemma SinglePassNotIdempotent()
    ensures RemoveMentions("<@<@A>A>") == "<@A>"
    ensures RemoveMentions("<@A>") == ""
  {
    var s := "<@<@A>A>";
    var tail := "<@A>A>";
    assert IdRun(s[2..]) == 0 by {
      assert s[2..][0] == '<';
    }
    NoTokenKept(s);
    assert s[1..] == "@" + tail;
    NoTokenKept("@" + tail);
    assert ("@" + tail)[1..] == tail;
    LeadingTokenRemoved("<@A>", "A>");
    assert "<@A>" + "A>" == tail;
    NoBracketUnchanged("A>");
    LeadingTokenRemoved("<@A>", "");
    assert "<@A>" + "" == "<@A>";
  }
}
