/** `normalizeUrl` of the options page: add `https://` to what looks like a
    bare host, leave everything else alone. */
module Urls {
  import opened Text

  const SecurePrefix: string := "https://"

  predicate IsAsciiLetter(c: char) {
    ('a' <= c <= 'z') || ('A' <= c <= 'Z')
  }

  /** A character of `[a-zA-Z0-9+.-]`. */
  predicate IsSchemeChar(c: char) {
    IsAsciiLetter(c) || IsDigit(c) || c == '+' || c == '.' || c == '-'
  }

  /** `s` matches `[a-zA-Z0-9+.-]*:\/\/` at its start. */
  predicate SchemeTail(s: string)
    decreases |s|
  {
    StartsWith(s, "://") || (|s| > 0 && IsSchemeChar(s[0]) && SchemeTail(s[1..]))
  }

  /** `/^[a-zA-Z][a-zA-Z0-9+.-]*:\/\//.test(u)`. */
  predicate HasScheme(u: string) {
    |u| > 0 && IsAsciiLetter(u[0]) && SchemeTail(u[1..])
  }

  /** `/^[^\s]+\.[^\s]+$/.test(u)`: no whitespace, and a dot with a character
      on each side. */
  predicate IsDottedHost(u: string) {
    NoWhitespace(u) && exists i :: 0 < i < |u| - 1 && u[i] == '.'
  }

  /** `/^localhost([:/]|$)/.test(u)`. */
  predicate IsLocalhost(u: string) {
    u == "localhost" || StartsWith(u, "localhost:") || StartsWith(u, "localhost/")
  }

  /** The URL the options page stores for input `u`. */
  function NormalizeUrl(u: string): (r: string)
    ensures |u| == 0 <==> |r| == 0
    ensures r == u || r == SecurePrefix + u
  {
    if |u| == 0 then ""
    else if HasScheme(u) || StartsWith(u, "//") then u
    else if IsDottedHost(u) || IsLocalhost(u) then SecurePrefix + u
    else u
  }

  /** Prefixing `https://` gives a string with a scheme. */
  lemma SecurePrefixHasScheme(u: string)
    ensures HasScheme(SecurePrefix + u)
  {
    var t := "://" + u;
    assert StartsWith(t, "://") by {
      assert t[..3] == "://";
    }
    assert ("s" + t)[1..] == t;
    assert SchemeTail("s" + t);
    assert ("p" + ("s" + t))[1..] == "s" + t;
    assert SchemeTail("p" + ("s" + t));
    assert ("t" + ("p" + ("s" + t)))[1..] == "p" + ("s" + t);
    assert SchemeTail("t" + ("p" + ("s" + t)));
    assert ("t" + ("t" + ("p" + ("s" + t))))[1..] == "t" + ("p" + ("s" + t));
    assert SchemeTail("t" + ("t" + ("p" + ("s" + t))));
    assert (SecurePrefix + u)[1..] == "t" + ("t" + ("p" + ("s" + t)));
  }

  /** The cases of `normalizeUrl`: a scheme or a leading `//` keeps the input,
      a dotted host or `localhost` gets `https://`, anything else is kept. */
  lemma NormalizeUrlCases(u: string)
    ensures HasScheme(u) || StartsWith(u, "//") ==> NormalizeUrl(u) == u
    ensures |u| > 0 && !HasScheme(u) && !StartsWith(u, "//") && (IsDottedHost(u) || IsLocalhost(u))
      ==> NormalizeUrl(u) == SecurePrefix + u
    ensures !IsDottedHost(u) && !IsLocalhost(u) ==> NormalizeUrl(u) == u
  {
  }

  /** Normalizing twice is normalizing once. */
  lemma NormalizeUrlIdempotent(u: string)
    ensures NormalizeUrl(NormalizeUrl(u)) == NormalizeUrl(u)
  {
    if NormalizeUrl(u) != u {
      SecurePrefixHasScheme(u);
    }
  }

  /** A normalized URL always carries a scheme, starts with `//`, or is the
      input unchanged because it looks like no host at all. */
  lemma NormalizedShape(u: string)
    requires |u| > 0
    ensures var r := NormalizeUrl(u);
      || HasScheme(r) || StartsWith(r, "//")
      || (r == u && !IsDottedHost(u) && !IsLocalhost(u))
  {
    if NormalizeUrl(u) != u {
      SecurePrefixHasScheme(u);
    }
  }
}
