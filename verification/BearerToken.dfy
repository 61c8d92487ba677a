/** The bearer header: written by the TLS client, read by GetBearerToken. */
module BearerToken {
  import opened Text

  const SCHEME := "bearer"

  datatype Token = Found(token: string) | NoHeader | InvalidHeader | NotBearer

  function GetBearerToken(authHeader: string): Token {
    if authHeader == "" then
      NoHeader
    else
      var parts := Split(authHeader, ' ');
      if |parts| != 2 then InvalidHeader
      else if ToLower(parts[0]) != SCHEME then NotBearer
      else Found(parts[1])
  }

  /** What TLSClient.Invoke puts in the Authorization header. */
  function BearerHeader(token: string): string {
    SCHEME + " " + token
  }

  /** Exactly the headers "<scheme> <token>" with one space and the scheme "bearer" in any letter case
      are accepted, and the token is the text after the space. */
  lemma AcceptedHeaders(header: string, token: string)
    ensures GetBearerToken(header) == Found(token) <==>
            |header| > 6 && ToLower(header[..6]) == "bearer" && header[6..] == " " + token && ' ' !in token
  {
    var parts := Split(header, ' ');
    if GetBearerToken(header) == Found(token) {
      assert parts == [parts[0], token];
      assert parts[1] == token && ' ' !in parts[1];
      assert parts[1..] == [token];
      assert Join(parts, ' ') == parts[0] + " " + token;
      assert |parts[0]| == |ToLower(parts[0])| == 6;
      assert header[..6] == parts[0];
    }
    if |header| > 6 && ToLower(header[..6]) == SCHEME && header[6..] == " " + token && ' ' !in token {
      SchemeHasNoSpace(header[..6]);
      assert header == header[..6] + [' '] + token;
      SplitConcat(header[..6], token, ' ');
      SplitFree(header[..6], ' ');
      SplitFree(token, ' ');
    }
  }

  lemma SchemeHasNoSpace(scheme: string)
    requires ToLower(scheme) == SCHEME
    ensures ' ' !in scheme
  {
    var low := ToLower(scheme);
    assert forall i :: 0 <= i < |scheme| ==> scheme[i] == ' ' ==> low[i] == ' ';
  }

  lemma {:induction false} SplitHeader(scheme: string, token: string)
    requires ' ' !in scheme
    ensures |Split(scheme + " " + token, ' ')| == 1 + |Split(token, ' ')|
  {
    assert scheme + " " + token == scheme + [' '] + token;
    SplitConcat(scheme, token, ' ');
    SplitFree(scheme, ' ');
  }

  lemma SchemeIsPlain()
    ensures ToLower(SCHEME) == SCHEME && |SCHEME| == 6 && ' ' !in SCHEME
  {
  }

  /** The header the client writes is read back to the same token if and only if the token has no space; otherwise it
      is refused. */
  lemma BearerRoundTrip(token: string)
    ensures GetBearerToken(BearerHeader(token)) == Found(token) <==> ' ' !in token
    ensures ' ' in token ==> GetBearerToken(BearerHeader(token)) == InvalidHeader
    ensures BearerHeader(token) == "bearer " + token
  {
    var header := BearerHeader(token);
    SchemeIsPlain();
    assert header[..6] == SCHEME && header[6..] == " " + token;
    assert SCHEME + " " == "bearer ";
    AcceptedHeaders(header, token);
    SplitHeader(SCHEME, token);
    SplitHead(token, ' ');
  }

  /** Which error a refused header gives: a missing one, one without exactly one space, or another scheme. */
  lemma RefusedHeaders(header: string)
    ensures GetBearerToken(header) == NoHeader <==> header == ""
    ensures GetBearerToken(header) == InvalidHeader <==> header != "" && |Split(header, ' ')| != 2
    ensures GetBearerToken(header) == NotBearer
        <==> |Split(header, ' ')| == 2 && ToLower(Split(header, ' ')[0]) != "bearer"
  {
    if header == "" {
      SplitFree(header, ' ');
    }
  }
}
