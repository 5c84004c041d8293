/**
 * The candidate normaliser, `ProxyBackend._parse_proxy_line`: a raw line
 * becomes `host:port`, or the empty string when it is rejected.
 *
 * Accepted shapes, tried in this order on the stripped line:
 *   1. `user:pass@host:port` (exactly one `@`, a `:` after it): the part after `@`;
 *   2. `host:port:user:pass` (exactly three `:`): the first two fields;
 *   3. `host:port` (exactly one `:`) whose port is all digits: the line itself.
 * Shapes 1 and 2 never look at the port, no shape looks at the host, and the
 * port range is never checked.
 */
module Normalizer {
  import opened Text

  /** Shape 1 applies to the stripped line `line`. */
  predicate HasCredentials(line: string) {
    '@' in line && |Split(line, '@')| == 2 && ':' in Split(line, '@')[1]
  }

  /** Shape 3 applies to the stripped line `line`: one `:` and an all-digit port. */
  predicate IsPlainHostPort(line: string) {
    |Split(line, ':')| == 2 && IsDigits(Split(line, ':')[1])
  }

  function ParseProxyLine(raw: string): (r: string)
    ensures r == "" || ':' in r
  {
    ParseStripped(Strip(raw))
  }

  /** The three shapes, tried in order on a line that is already stripped. */
  function ParseStripped(line: string): (r: string)
    ensures r == "" || ':' in r
  {
    if HasCredentials(line) then
      Split(line, '@')[1]
    else if Count(line, ':') == 3 then
      var parts := Split(line, ':');
      parts[0] + ":" + parts[1]
    else if ':' in line && IsPlainHostPort(line) then
      line
    else
      ""
  }

  /**
   * The strings the normaliser leaves unchanged, among those without
   * surrounding whitespace, are exactly the non-empty ones with one `:`, an
   * all-digit port and no credential part.
   */
  lemma ParseFixpoints(s: string)
    requires Strip(s) == s && s != ""
    ensures ParseProxyLine(s) == s <==> IsPlainHostPort(s) && !HasCredentials(s)
  {
    if HasCredentials(s) {
      var at := Split(s, '@');
      SplitTwo(s, '@');
      assert |at[1]| < |s|;
    } else if Count(s, ':') == 3 {
      var parts := Split(s, ':');
      CountConcat(parts[0] + ":", parts[1], ':');
      CountConcat(parts[0], ":", ':');
      assert Count(":", ':') == 1;
      assert Count(ParseProxyLine(s), ':') == 1;
    } else if IsPlainHostPort(s) {
      assert Count(s, ':') == 1;
    }
  }

  /** Surrounding whitespace never matters: the normaliser strips first. */
  lemma ParseIgnoresOuterSpace(raw: string)
    ensures ParseProxyLine(Strip(raw)) == ParseProxyLine(raw)
  {
    StripIdempotent(raw);
  }

  /**
   * A raw line whose stripped text is a plain `host:port` without
   * credentials normalises to that text, and normalising again changes
   * nothing.
   */
  lemma ParseIdempotentOnPlain(raw: string)
    requires IsPlainHostPort(Strip(raw)) && !HasCredentials(Strip(raw))
    ensures ParseProxyLine(raw) == Strip(raw)
    ensures ParseProxyLine(ParseProxyLine(raw)) == ParseProxyLine(raw)
  {
    StripIdempotent(raw);
    assert Strip(raw) != "";
    ParseFixpoints(Strip(raw));
    ParseIgnoresOuterSpace(raw);
  }

  lemma NoCredentialsWithoutAt(s: string)
    requires '@' !in s
    ensures !HasCredentials(s)
  {
  }

  /** The first branch, on a line that is already stripped. */
  lemma TakesCredentials(line: string)
    requires NoOuterSpace(line) && HasCredentials(line)
    ensures ParseProxyLine(line) == Split(line, '@')[1]
  {
    assert Strip(line) == line;
  }

  /** The third branch, on a line that is already stripped. */
  lemma TakesPlain(line: string)
    requires NoOuterSpace(line) && !HasCredentials(line) && Count(line, ':') == 1 && IsPlainHostPort(line)
    ensures ParseProxyLine(line) == line
  {
    assert Strip(line) == line;
  }

  /** A stripped line with one `:` and no credential part is kept exactly when its port is all digits. */
  lemma TakesPlainOnly(line: string)
    requires NoOuterSpace(line) && !HasCredentials(line) && Count(line, ':') == 1
    ensures ParseProxyLine(line) == (if IsPlainHostPort(line) then line else "")
  {
    assert Strip(line) == line;
  }

  /** `user:pass@host:port` keeps what follows the `@`, whatever its port looks like. */
  lemma ParseCredentialShape(user: string, hostPort: string)
    requires '@' !in user && '@' !in hostPort && ':' in hostPort
    requires NoOuterSpace(user + "@" + hostPort)
    ensures ParseProxyLine(user + "@" + hostPort) == hostPort
  {
    var s := user + "@" + hostPort;
    SplitPair(user, hostPort, '@');
    assert s[|user|] == '@';
    assert HasCredentials(s);
    TakesCredentials(s);
  }

  lemma FourFieldsNested(host: string, port: string, user: string, pass: string)
    ensures host + ":" + port + ":" + user + ":" + pass == host + ":" + (port + ":" + (user + ":" + pass))
  {
  }

  lemma SplitFourFields(host: string, port: string, user: string, pass: string)
    requires ':' !in host && ':' !in port && ':' !in user && ':' !in pass
    ensures Split(host + ":" + port + ":" + user + ":" + pass, ':') == [host, port, user, pass]
  {
    var u := user + ":" + pass;
    var v := port + ":" + u;
    FourFieldsNested(host, port, user, pass);
    SplitPair(user, pass, ':');
    SplitAt(port, u, ':');
    SplitAt(host, v, ':');
  }

  /** `host:port:user:pass` keeps the first two fields, whatever the port looks like. */
  lemma ParseFourFieldShape(line: string, host: string, port: string, user: string, pass: string)
    requires line == host + ":" + port + ":" + user + ":" + pass
    requires ':' !in host && ':' !in port && ':' !in user && ':' !in pass
    requires '@' !in line && NoOuterSpace(line)
    ensures ParseProxyLine(line) == host + ":" + port
  {
    SplitFourFields(host, port, user, pass);
    NoCredentialsWithoutAt(line);
  }

  /**
   * A plain `host:port` (one `:`, no `@`) is kept exactly when its port is
   * all digits, and otherwise rejected: an empty port is rejected, an empty
   * host is not.
   */
  lemma ParsePlainShape(line: string, host: string, port: string)
    requires line == host + ":" + port
    requires ':' !in host && ':' !in port && '@' !in line && NoOuterSpace(line)
    ensures ParseProxyLine(line) == (if IsDigits(port) then line else "")
  {
    SplitPair(host, port, ':');
    NoCredentialsWithoutAt(line);
    TakesPlainOnly(line);
  }

  /** A line without any `:` is rejected. */
  lemma ParseRejectsColonless(raw: string)
    requires ':' !in Strip(raw)
    ensures ParseProxyLine(raw) == ""
  {
    var line := Strip(raw);
    if HasCredentials(line) {
      SplitTwo(line, '@');
    }
  }

  /** Example of the credential shape. */
  lemma ParseCredentialExample()
    ensures ParseProxyLine("user:pw@1.2.3.4:8080") == "1.2.3.4:8080"
  {
    assert "user:pw@1.2.3.4:8080" == "user:pw" + "@" + "1.2.3.4:8080";
    assert "1.2.3.4:8080"[7] == ':';
    ParseCredentialShape("user:pw", "1.2.3.4:8080");
  }

  /** Example of the four-field shape. */
  lemma ParseFourFieldExample()
    ensures ParseProxyLine("1.2.3.4:8080:user:pw") == "1.2.3.4:8080"
  {
    assert "1.2.3.4:8080:user:pw" == "1.2.3.4" + ":" + "8080" + ":" + "user" + ":" + "pw";
    assert "1.2.3.4:8080" == "1.2.3.4" + ":" + "8080";
    ParseFourFieldShape("1.2.3.4:8080:user:pw", "1.2.3.4", "8080", "user", "pw");
  }

  /** Example of the plain shape. */
  lemma ParsePlainExample()
    ensures ParseProxyLine("1.2.3.4:8080") == "1.2.3.4:8080"
  {
    assert "1.2.3.4:8080" == "1.2.3.4" + ":" + "8080";
    assert IsDigits("8080");
    ParsePlainShape("1.2.3.4:8080", "1.2.3.4", "8080");
  }

  /** A bare address has no port separator and is rejected. */
  lemma ParseBareAddressExample()
    ensures ParseProxyLine("1.2.3.4") == ""
  {
    var s := "1.2.3.4";
    assert NoOuterSpace(s);
    assert Strip(s) == s;
    assert ':' !in s;
    ParseRejectsColonless(s);
  }

  /** An empty port is rejected. */
  lemma ParseEmptyPortExample()
    ensures ParseProxyLine("host:") == ""
  {
    assert "host:" == "host" + ":" + "";
    ParsePlainShape("host:", "host", "");
  }

  /**
   * The credential shape skips the port check, so normalisation is not
   * idempotent in general: `u@h:x` gives `h:x`, which normalises to nothing.
   */
  lemma ParseNotIdempotent()
    ensures ParseProxyLine("u@h:x") == "h:x" && ParseProxyLine("h:x") == ""
  {
    CredentialSkipsPortExample();
    BadPortExample();
  }

  lemma CredentialSkipsPortExample()
    ensures ParseProxyLine("u@h:x") == "h:x"
  {
    assert "u@h:x" == "u" + "@" + "h:x";
    assert "h:x"[1] == ':';
    ParseCredentialShape("u", "h:x");
  }

  lemma BadPortExample()
    ensures ParseProxyLine("h:x") == ""
  {
    assert "h:x" == "h" + ":" + "x";
    assert !IsAsciiDigit("x"[0]);
    ParsePlainShape("h:x", "h", "x");
  }

  /** No shape looks at the host: an empty host is accepted. */
  lemma ParseEmptyHostExample()
    ensures ParseProxyLine(":80") == ":80"
  {
    assert ":80" == "" + ":" + "80";
    assert IsDigits("80");
    ParsePlainShape(":80", "", "80");
  }
}
