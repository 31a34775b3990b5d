/** The URL normaliser `checkForHttpPrefix` of the link shortener.
    It tests its input against the JavaScript regular expression
    `/^(http|https|ftp):\/\/.*$/` (no flags) and prepends `http://`
    when the test fails. */
module Normalizer {

  /** The characters JavaScript's `.` refuses to match when the `s` flag is absent. */
  predicate IsLineTerminator(c: char) {
    c == '\n' || c == '\r' || c == '\U{2028}' || c == '\U{2029}'
  }

  predicate NoLineTerminator(s: string) {
    forall i :: 0 <= i < |s| ==> !IsLineTerminator(s[i])
  }

  predicate StartsWith(s: string, p: string) {
    |p| <= |s| && s[..|p|] == p
  }

  /** The scheme prefixes the normaliser recognises, case-sensitively. */
  predicate HasScheme(s: string) {
    StartsWith(s, "http://") || StartsWith(s, "https://") || StartsWith(s, "ftp://")
  }

  /** The tail `.*$` of the pattern: `.` consumes one non-terminator at a time
      and `$` (no `m` flag) accepts only at the end of the input. */
  function DotStarToEnd(t: string): (r: bool)
    ensures r <==> NoLineTerminator(t)
  {
    if t == [] then true
    else !IsLineTerminator(t[0]) && DotStarToEnd(t[1..])
  }

  /** One alternative `word` of the group `(http|https|ftp)` at the start of `s`,
      followed by `:\/\/` and then `.*$`. */
  predicate MatchesWith(s: string, word: string) {
    |word| + 3 <= |s| && s[..|word| + 3] == word + "://" && DotStarToEnd(s[|word| + 3..])
  }

  lemma NoLineTerminatorSplit(a: string, b: string)
    ensures NoLineTerminator(a + b) <==> NoLineTerminator(a) && NoLineTerminator(b)
  {
    if NoLineTerminator(a) && NoLineTerminator(b) {
      forall i | 0 <= i < |a + b| ensures !IsLineTerminator((a + b)[i]) {
        if i >= |a| { assert (a + b)[i] == b[i - |a|]; }
      }
    }
    if NoLineTerminator(a + b) {
      forall i | 0 <= i < |a| ensures !IsLineTerminator(a[i]) {
        assert a[i] == (a + b)[i];
      }
      forall i | 0 <= i < |b| ensures !IsLineTerminator(b[i]) {
        assert b[i] == (a + b)[|a| + i];
      }
    }
  }

  /** One alternative matches exactly when `s` starts with its scheme and the
      whole of `s` is free of line terminators. */
  lemma MatchesWithIff(s: string, word: string)
    requires word == "http" || word == "https" || word == "ftp"
    ensures MatchesWith(s, word) <==> StartsWith(s, word + "://") && NoLineTerminator(s)
  {
    var k := |word| + 3;
    if k <= |s| {
      assert s == s[..k] + s[k..];
      NoLineTerminatorSplit(s[..k], s[k..]);
      if s[..k] == word + "://" {
        assert NoLineTerminator(s[..k]);
      }
    }
  }

  /** `/^(http|https|ftp):\/\/.*$/.test(s)`: `^` anchors at index 0 and the
      alternatives are tried in order. The test accepts exactly the strings
      that start with a recognised scheme and contain no line terminator
      anywhere. */
  function Matches(s: string): (r: bool)
    ensures r <==> HasScheme(s) && NoLineTerminator(s)
  {
    MatchesWithIff(s, "http");
    MatchesWithIff(s, "https");
    MatchesWithIff(s, "ftp");
    MatchesWith(s, "http") || MatchesWith(s, "https") || MatchesWith(s, "ftp")
  }

  /** `checkForHttpPrefix`: an empty prefix when the test passes, `http://` otherwise. */
  function CheckForHttpPrefix(s: string): (r: string)
    ensures HasScheme(r)
    ensures |s| <= |r| && r[|r| - |s|..] == s
  {
    var prefix := if !Matches(s) then "http://" else "";
    assert (prefix + s)[..|prefix|] == prefix;
    prefix + s
  }

  /** A string the regex accepts comes back unchanged. */
  lemma UnchangedWhenMatching(s: string)
    requires HasScheme(s) && NoLineTerminator(s)
    ensures CheckForHttpPrefix(s) == s
  {
  }

  /** A string the regex rejects gets exactly `http://` in front. */
  lemma PrefixedWhenNotMatching(s: string)
    requires !HasScheme(s) || !NoLineTerminator(s)
    ensures CheckForHttpPrefix(s) == "http://" + s
  {
  }

  /** Normalising twice is normalising once exactly on inputs without a line
      terminator; with one, every application adds another `http://`. */
  lemma IdempotentIff(s: string)
    ensures CheckForHttpPrefix(CheckForHttpPrefix(s)) == CheckForHttpPrefix(s) <==> NoLineTerminator(s)
  {
    var once := CheckForHttpPrefix(s);
    NoLineTerminatorSplit("http://", s);
    if !NoLineTerminator(s) {
      assert !Matches(once);
      assert |CheckForHttpPrefix(once)| == |once| + 7;
    }
  }

  /** A bare host name gets the default scheme. */
  lemma ExampleBareHost()
    // a concatenation, not one literal: the solver proves this form reliably
    ensures CheckForHttpPrefix("example.com") == "http://" + "example.com"
  {
    var s := "example.com";
    assert s[..7][0] == 'e' && s[..8][0] == 'e' && s[..6][0] == 'e';
    assert !HasScheme(s);
    PrefixedWhenNotMatching(s);
  }

  /** The empty string is accepted and becomes `http://`. */
  lemma ExampleEmpty()
    ensures CheckForHttpPrefix("") == "http://"
  {
    PrefixedWhenNotMatching("");
  }

  /** The scheme test is case-sensitive. */
  lemma ExampleUpperCaseScheme()
    // a concatenation, not one literal: the solver proves this form reliably
    ensures CheckForHttpPrefix("HTTP://x") == "http://" + "HTTP://x"
  {
    var s := "HTTP://x";
    assert s[..7][0] == 'H' && s[..8][0] == 'H' && s[..6][0] == 'H';
    assert !HasScheme(s);
    PrefixedWhenNotMatching(s);
  }

  /** A recognised scheme does not save a string holding a newline. */
  lemma ExampleNewline()
    // a concatenation, not one literal: the solver proves this form reliably
    ensures CheckForHttpPrefix("https://a\nb") == "http://" + "https://a\nb"
  {
    var s := "https://a\nb";
    assert IsLineTerminator(s[9]);
    assert !NoLineTerminator(s);
    PrefixedWhenNotMatching(s);
  }

  /** An `ftp` URL the pattern accepts is left alone. */
  lemma ExampleFtp()
    ensures CheckForHttpPrefix("ftp://host") == "ftp://host"
  {
    var s := "ftp://host";
    assert s[..6] == "ftp://";
    assert forall i :: 0 <= i < |s| ==> s[i] in "ftp:/host";
    UnchangedWhenMatching(s);
  }
}
