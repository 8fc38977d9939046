/** The MercadoLibre OAuth client: the refresh-token grant of section 6 of
    RFC 6749 and the conversion of its response into a stored token. */
module MLAuthClient {
  import opened Wrappers
  import opened Http
  import opened MercadoLibreTypes
  import FetchAndParse

  const TokenUrl: string := "https://api.mercadolibre.com/oauth/token"
  const RefreshFailedPrefix: string := "ML token refresh failed: "
  const InvalidRefreshResponse: string := "Invalid ML refresh token response"

  /** The application's client credentials. */
  datatype ClientCredentials = ClientCredentials(clientId: string, clientSecret: string)

  /** The value of the first form field named `key`, as `URLSearchParams.get`. */
  function FormValue(form: seq<(string, string)>, key: string): (v: Option<string>)
    ensures v.Some? <==> exists i :: 0 <= i < |form| && form[i].0 == key
    ensures v.Some? ==> exists i ::
      && 0 <= i < |form| && form[i] == (key, v.value)
      && forall j :: 0 <= j < i ==> form[j].0 != key
  {
    if form == [] then None
    else if form[0].0 == key then Some(form[0].1)
    else
      var rest := FormValue(form[1..], key);
      assert rest.Some? ==> exists i ::
        && 0 < i < |form| && form[i] == (key, rest.value)
        && forall j :: 0 <= j < i ==> form[j].0 != key
      by {
        if rest.Some? {
          var i :| 0 <= i < |form| - 1 && form[1..][i] == (key, rest.value)
            && forall j :: 0 <= j < i ==> form[1..][j].0 != key;
          assert form[i + 1] == (key, rest.value);
          forall j | 0 <= j < i + 1 ensures form[j].0 != key {
            if j > 0 { assert form[j] == form[1..][j - 1]; }
          }
        }
      }
      rest
  }

  /** The form-encoded POST that asks for a new token. */
  function RefreshRequest(creds: ClientCredentials, refreshToken: string): Request
  {
    Request(
      "POST",
      TokenUrl,
      map["Content-Type" := "application/x-www-form-urlencoded"],
      [ ("grant_type", "refresh_token"),
        ("client_id", creds.clientId),
        ("client_secret", creds.clientSecret),
        ("refresh_token", refreshToken) ])
  }

  /** The request carries exactly the four fields of the refresh-token grant,
      with the given values, as a form post to the token endpoint. */
  lemma RefreshRequestFields(creds: ClientCredentials, refreshToken: string)
    ensures var req := RefreshRequest(creds, refreshToken);
      && req.verb == "POST" && req.url == TokenUrl
      && req.headers["Content-Type"] == "application/x-www-form-urlencoded"
      && |req.form| == 4
      && (forall i :: 0 <= i < |req.form| ==>
            req.form[i].0 in {"grant_type", "client_id", "client_secret", "refresh_token"})
      && FormValue(req.form, "grant_type") == Some("refresh_token")
      && FormValue(req.form, "client_id") == Some(creds.clientId)
      && FormValue(req.form, "client_secret") == Some(creds.clientSecret)
      && FormValue(req.form, "refresh_token") == Some(refreshToken)
  {
    var form := RefreshRequest(creds, refreshToken).form;
    assert FormValue(form[3..], "refresh_token") == Some(refreshToken);
    assert FormValue(form[2..], "refresh_token") == Some(refreshToken);
    assert FormValue(form[1..], "refresh_token") == Some(refreshToken);
    assert FormValue(form[2..], "client_secret") == Some(creds.clientSecret);
    assert FormValue(form[1..], "client_secret") == Some(creds.clientSecret);
    assert FormValue(form[1..], "client_id") == Some(creds.clientId);
  }

  /** `refreshToken`: post the grant, then convert the answer received at
      time `now` (milliseconds) into a token. */
  function RefreshToken(creds: ClientCredentials, refreshToken: string, network: Network, now: int): (r: Result<Token>)
    ensures var res := network(RefreshRequest(creds, refreshToken));
      && (!res.ok ==> r == Err(Thrown(RefreshFailedPrefix + res.bodyText)))
      && (res.ok && res.json.None? ==> r == Err(MalformedBody))
      && (res.ok && res.json.Some? && !IsMercadoLibreTokenResponse(res.json.value) ==>
            r == Err(Thrown(InvalidRefreshResponse)))
      && (r.Ok? <==> res.ok && res.json.Some? && IsMercadoLibreTokenResponse(res.json.value))
      && (r.Ok? ==>
            var tr := AsTokenResponse(res.json.value);
            && r.value.accessToken == tr.accessToken
            && r.value.refreshToken == tr.refreshToken
            && r.value.expiresAt - now == tr.expiresIn * 1000)
  {
    var res := network(RefreshRequest(creds, refreshToken));
    if !res.ok then Err(Thrown(RefreshFailedPrefix + res.bodyText))
    else
      match FetchAndParse.FetchAndParse(res, IsMercadoLibreTokenResponse, InvalidRefreshResponse)
      case Err(e) => Err(e)
      case Ok(data) =>
        var tr := AsTokenResponse(data);
        Ok(Token(tr.accessToken, tr.refreshToken, now + tr.expiresIn * 1000))
  }

  /** A token just obtained is usable at the moment it arrives exactly when
      the server granted it more than 60 seconds of lifetime. */
  lemma FreshTokenUsableIff(creds: ClientCredentials, refreshToken: string, network: Network, now: int)
    requires RefreshToken(creds, refreshToken, network, now).Ok?
    ensures var res := network(RefreshRequest(creds, refreshToken));
      !IsTokenExpired(RefreshToken(creds, refreshToken, network, now).value, now) <==>
        AsTokenResponse(res.json.value).expiresIn > 60
  {
  }

  /** The grant response of the test suite, `expires_in: 3600`, gives a token
      expiring an hour after it arrives. */
  lemma RefreshExample(creds: ClientCredentials, refreshToken: string, network: Network, now: int)
    requires network(RefreshRequest(creds, refreshToken)) ==
      Response(true, "", Some(TokenResponseJson(TokenResponse("token", "refresh", 3600), map[])), [])
    ensures RefreshToken(creds, refreshToken, network, now) == Ok(Token("token", "refresh", now + 3_600_000))
  {
    TokenResponseGuardAccepts(TokenResponse("token", "refresh", 3600), map[]);
  }
}
