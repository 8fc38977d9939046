/** The MercadoLibre API client: each call obtains an access token, sends a
    GET with bearer credentials (section 2.1 of RFC 6750), gates on the
    status and validates what comes back. `getAccessToken`'s outcome is a
    parameter: calling it may refresh the stored token, which the token
    manager models. */
module MLApiClient {
  import opened Wrappers
  import opened Text
  import opened Json
  import opened Http
  import opened MercadoLibreTypes
  import FetchAndParse

  const ApiBase: string := "https://api.mercadolibre.com"
  const BearerPrefix: string := "Bearer "
  const FetchOrderFailedPrefix: string := "Failed to fetch order "
  const DownloadLabelFailedPrefix: string := "Failed to download shipping label "
  const InvalidOrderResponse: string := "Invalid MercadoLibre order response"

  /** The `Authorization` header of an authenticated request. */
  function BearerHeaders(token: string): map<string, string>
  {
    map["Authorization" := BearerPrefix + token]
  }

  /** The credentials an authenticated request carries: the text after the
      `Bearer ` scheme of its `Authorization` header. */
  function BearerCredentials(req: Request): Option<string>
  {
    if "Authorization" in req.headers
      && |BearerPrefix| <= |req.headers["Authorization"]|
      && req.headers["Authorization"][..|BearerPrefix|] == BearerPrefix
    then Some(req.headers["Authorization"][|BearerPrefix|..])
    else None
  }

  function OrderRequest(orderId: string, token: string): Request
  {
    Request("GET", ApiBase + "/orders/" + orderId, BearerHeaders(token), [])
  }

  function LabelRequest(shippingId: int, token: string): Request
  {
    Request("GET", ApiBase + "/shipment_labels?shipment_ids=" + IntToString(shippingId) + "&response_type=pdf",
            BearerHeaders(token), [])
  }

  /** Both requests present the token they were built with as bearer
      credentials, and nothing else as a header. */
  lemma RequestsCarryBearerToken(orderId: string, shippingId: int, token: string)
    ensures BearerCredentials(OrderRequest(orderId, token)) == Some(token)
    ensures BearerCredentials(LabelRequest(shippingId, token)) == Some(token)
    ensures OrderRequest(orderId, token).headers.Keys == {"Authorization"}
    ensures LabelRequest(shippingId, token).headers.Keys == {"Authorization"}
  {
    assert (BearerPrefix + token)[|BearerPrefix|..] == token;
  }

  /** The order URL is the API base, `/orders/`, then the id; extracting an
      order id from its path gives back the id it was built from. */
  lemma OrderUrlRoundTrip(orderId: string, token: string)
    requires orderId != "" && AllDigits(orderId)
    ensures OrderRequest(orderId, token).url == ApiBase + OrdersSegment + orderId
    ensures MatchOrderId(OrderRequest(orderId, token).url[|ApiBase|..]) == Some(orderId)
  {
    var url := OrderRequest(orderId, token).url;
    assert url[|ApiBase|..] == OrdersSegment + orderId + "";
    OrderPathRoundTrip(orderId, "");
  }

  /** `getOrder`: with the outcome of `getAccessToken()` and the network. */
  function GetOrder(orderId: string, accessToken: Result<string>, network: Network): (r: Result<Json>)
    ensures accessToken.Err? ==> r == Err(accessToken.error)
    ensures accessToken.Ok? ==>
      var res := network(OrderRequest(orderId, accessToken.value));
      && (!res.ok ==> r == Err(Thrown(FetchOrderFailedPrefix + orderId + ": " + res.bodyText)))
      && (res.ok && res.json.None? ==> r == Err(MalformedBody))
      && (res.ok && res.json.Some? && !IsMercadoLibreOrder(res.json.value) ==>
            r == Err(Thrown(InvalidOrderResponse)))
      && (r.Ok? <==> res.ok && res.json.Some? && IsMercadoLibreOrder(res.json.value))
      && (r.Ok? ==> r.value == res.json.value)
  {
    match accessToken
    case Err(e) => Err(e)
    case Ok(token) =>
      var res := network(OrderRequest(orderId, token));
      if !res.ok then Err(Thrown(FetchOrderFailedPrefix + orderId + ": " + res.bodyText))
      else FetchAndParse.FetchAndParse(res, IsMercadoLibreOrder, InvalidOrderResponse)
  }

  /** Whatever `getOrder` returns is a well-formed order. */
  lemma GetOrderYieldsOrder(orderId: string, accessToken: Result<string>, network: Network)
    requires GetOrder(orderId, accessToken, network).Ok?
    ensures IsMercadoLibreOrder(GetOrder(orderId, accessToken, network).value)
  {
  }

  /** The outcome depends only on the response to the request built from the
      token: two networks that answer that request alike give the same result. */
  lemma GetOrderDependsOnlyOnItsRequest(orderId: string, token: string, network1: Network, network2: Network)
    requires network1(OrderRequest(orderId, token)) == network2(OrderRequest(orderId, token))
    ensures GetOrder(orderId, Ok(token), network1) == GetOrder(orderId, Ok(token), network2)
  {
  }

  /** The test suite's exchange: order 42 with token `token-123`. */
  lemma GetOrderExample(network: Network)
    requires network(Request("GET", "https://api.mercadolibre.com/orders/42",
                             map["Authorization" := "Bearer token-123"], [])) ==
      Response(true, "", Some(JObj(map["id" := JNum(42), "status" := JStr("paid")])), [])
    ensures GetOrder("42", Ok("token-123"), network) == Ok(JObj(map["id" := JNum(42), "status" := JStr("paid")]))
  {
    assert ApiBase + "/orders/" + "42" == "https://api.mercadolibre.com/orders/42";
    assert BearerPrefix + "token-123" == "Bearer token-123";
    assert OrderRequest("42", "token-123") ==
      Request("GET", "https://api.mercadolibre.com/orders/42", map["Authorization" := "Bearer token-123"], []);
  }

  /** `downloadShippingLabel`: the body's bytes, unchanged, when the status is ok. */
  function DownloadShippingLabel(shippingId: int, accessToken: Result<string>, network: Network): (r: Result<seq<byte>>)
    ensures accessToken.Err? ==> r == Err(accessToken.error)
    ensures accessToken.Ok? ==>
      var res := network(LabelRequest(shippingId, accessToken.value));
      && (!res.ok ==> r == Err(Thrown(DownloadLabelFailedPrefix + IntToString(shippingId) + ": " + res.bodyText)))
      && (res.ok ==> r == Ok(res.bytes))
  {
    match accessToken
    case Err(e) => Err(e)
    case Ok(token) =>
      var res := network(LabelRequest(shippingId, token));
      if !res.ok then Err(Thrown(DownloadLabelFailedPrefix + IntToString(shippingId) + ": " + res.bodyText))
      else Ok(res.bytes)
  }

  /** An ok label response with an empty body is a successful, empty download. */
  lemma EmptyLabelIsNotAnError(shippingId: int, token: string, network: Network)
    requires network(LabelRequest(shippingId, token)).ok
    requires network(LabelRequest(shippingId, token)).bytes == []
    ensures DownloadShippingLabel(shippingId, Ok(token), network) == Ok([])
  {
  }

  /** The label URL names the shipment in decimal, from which it can be read back. */
  lemma LabelUrlNamesShipment(shippingId: nat, token: string)
    ensures var url := LabelRequest(shippingId, token).url;
      var prefix := ApiBase + "/shipment_labels?shipment_ids=";
      var suffix := "&response_type=pdf";
      && |prefix| + |suffix| <= |url|
      && url[..|prefix|] == prefix
      && url[|url| - |suffix|..] == suffix
      && AllDigits(url[|prefix|..|url| - |suffix|])
      && ParseNat(url[|prefix|..|url| - |suffix|]) == shippingId
  {
    var prefix := ApiBase + "/shipment_labels?shipment_ids=";
    var suffix := "&response_type=pdf";
    var digits := IntToString(shippingId);
    var url := LabelRequest(shippingId, token).url;
    assert url == prefix + digits + suffix;
    assert url[|prefix|..|url| - |suffix|] == digits;
  }
}
