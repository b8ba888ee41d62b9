/**
 * Authentication pieces shared by the browser client and the demo server:
 * the two fixed fallback credentials, the `Authorization: Bearer <token>`
 * header the client sends, and the token the server reads back out of it.
 */
module Auth {
  import opened Options
  import opened Text

  datatype User = User(username: string, role: string)

  /** The demo fallback: `teacher`/`teach123`, or the id number `2500032073` as both name and password. */
  predicate IsFallbackCredential(username: string, password: string) {
    (username == "teacher" && password == "teach123") || (username == "2500032073" && password == "2500032073")
  }

  /** The client attaches the header only when it holds a token (an empty token is falsy and sends none). */
  function BearerHeader(authToken: Option<string>): (h: Option<string>)
    ensures h.Some? <==> authToken.Some? && authToken.value != ""
    ensures h.Some? ==> |h.value| > 7 && h.value[..7] == "Bearer " && h.value[7..] == authToken.value
  {
    if authToken.Some? && authToken.value != "" then Some("Bearer " + authToken.value) else None
  }

  /**
   * The token the server takes from the header: the second space-separated
   * field of a non-empty header, if that field exists and is non-empty.
   */
  function ExtractToken(header: Option<string>): (token: Option<string>)
    ensures token.Some? ==> token.value != "" && ' ' !in token.value
    ensures token.Some? ==> header.Some? && |Split(header.value, ' ')| >= 2 && token.value == Split(header.value, ' ')[1]
  {
    if header.None? || header.value == "" then None
    else
      var fields := Split(header.value, ' ');
      if |fields| >= 2 && fields[1] != "" then Some(fields[1]) else None
  }

  /** The token is the field after the first space, up to the next space or the end. */
  lemma ExtractSecondField(scheme: string, token: string, rest: string)
    requires ' ' !in scheme && ' ' !in token && token != ""
    ensures ExtractToken(Some(scheme + " " + token)) == Some(token)
    ensures ExtractToken(Some(scheme + " " + token + " " + rest)) == Some(token)
  {
    SplitAtFirstSeparator(scheme, token, ' ');
    SplitWithoutSeparator(token, ' ');
    assert scheme + " " + token + " " + rest == scheme + [' '] + (token + [' '] + rest);
    SplitAtFirstSeparator(scheme, token + [' '] + rest, ' ');
    SplitAtFirstSeparator(token, rest, ' ');
  }

  /** What the client sends, the server reads back: a space-free token survives the header round trip. */
  lemma BearerRoundTrip(token: string)
    requires token != "" && ' ' !in token
    ensures ExtractToken(BearerHeader(Some(token))) == Some(token)
  {
    ExtractSecondField("Bearer", token, "");
    assert "Bearer " + token == "Bearer" + " " + token;
  }
}
