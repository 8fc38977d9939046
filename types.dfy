/** The MercadoLibre domain types, the structural guards that admit untyped
    JSON into them, the token-expiry test, the order-id extraction from a
    webhook payload, and the order-to-DTO mapping. */
module MercadoLibreTypes {
  import opened Wrappers
  import opened Text
  import opened Json

  /** The stored OAuth credential; `expiresAt` is a millisecond timestamp. */
  datatype Token = Token(accessToken: string, refreshToken: string, expiresAt: int)

  /** The typed view of a refresh-token grant response body. */
  datatype TokenResponse = TokenResponse(accessToken: string, refreshToken: string, expiresIn: int)

  datatype OrderShipping = OrderShipping(id: int, status: string)

  /** The typed view of an order body; `shipping` is optional. */
  datatype Order = Order(id: int, status: string, shipping: Option<OrderShipping>)

  datatype OrderDTO = OrderDTO(id: int, status: string, shippingId: Option<int>, shippingStatus: Option<string>)

  /** A token counts as expired this many milliseconds before `expiresAt`. */
  const ExpiryBufferMs: int := 60_000

  // ---------------------------------------------------------------------
  // Token expiry

  /** `isTokenExpired`, with the clock reading `now` as a parameter:
      expired once at most 60 seconds of lifetime remain. */
  function IsTokenExpired(token: Token, now: int): (expired: bool)
    ensures expired <==> token.expiresAt - now <= ExpiryBufferMs
  {
    now >= token.expiresAt - ExpiryBufferMs
  }

  /** Once expired, a token stays expired. */
  lemma ExpiryIsMonotone(token: Token, now: int, later: int)
    requires now <= later
    requires IsTokenExpired(token, now)
    ensures IsTokenExpired(token, later)
  {
  }

  /** The boundary cases of the buffer: 20 s left is expired, 80 s left is not. */
  lemma ExpiryExamples()
    ensures IsTokenExpired(Token("a", "b", 1_020_000), 1_000_000)
    ensures !IsTokenExpired(Token("a", "b", 1_080_000), 1_000_000)
  {
  }

  // ---------------------------------------------------------------------
  // Token response guard

  /** `isMercadoLibreTokenResponse` */
  predicate IsMercadoLibreTokenResponse(data: Json)
    ensures IsMercadoLibreTokenResponse(data) ==> data.JObj?
  {
    if !Truthy(data) || !TypeofObject(data) then false
    else
      && IsString(Get(data, "access_token"))
      && IsString(Get(data, "refresh_token"))
      && IsNumber(Get(data, "expires_in"))
  }

  /** The value a successful guard narrows `data` to. */
  function AsTokenResponse(data: Json): TokenResponse
    requires IsMercadoLibreTokenResponse(data)
  {
    TokenResponse(data.fields["access_token"].s, data.fields["refresh_token"].s, data.fields["expires_in"].n)
  }

  /** A response body carrying `tr`, next to any further properties. */
  function TokenResponseJson(tr: TokenResponse, extra: JsonObject): Json
  {
    JObj(extra["access_token" := JStr(tr.accessToken)]
              ["refresh_token" := JStr(tr.refreshToken)]
              ["expires_in" := JNum(tr.expiresIn)])
  }

  /** The guard accepts every encoding of a token response, whatever other
      properties it has, and narrowing recovers the encoded fields. */
  lemma TokenResponseGuardAccepts(tr: TokenResponse, extra: JsonObject)
    ensures IsMercadoLibreTokenResponse(TokenResponseJson(tr, extra))
    ensures AsTokenResponse(TokenResponseJson(tr, extra)) == tr
  {
  }

  /** Conversely, the guard accepts nothing else: every accepted value is
      the encoding of its own narrowed view. */
  lemma TokenResponseGuardExact(data: Json)
    requires IsMercadoLibreTokenResponse(data)
    ensures data == TokenResponseJson(AsTokenResponse(data), data.fields)
  {
    var m := data.fields;
    var tr := AsTokenResponse(data);
    var m' := m["access_token" := JStr(tr.accessToken)]["refresh_token" := JStr(tr.refreshToken)]["expires_in" := JNum(tr.expiresIn)];
    assert m'.Keys == m.Keys;
    assert forall k | k in m :: m'[k] == m[k];
    assert m' == m;
  }

  /** `null` and a numeric `refresh_token` are rejected. */
  lemma TokenResponseGuardRejects(access: string, expiresIn: int)
    ensures !IsMercadoLibreTokenResponse(JNull)
    ensures !IsMercadoLibreTokenResponse(JObj(map["access_token" := JStr(access), "refresh_token" := JNum(123), "expires_in" := JNum(expiresIn)]))
  {
  }

  // ---------------------------------------------------------------------
  // Order-id extraction: `/\/orders\/(\d+)/.exec(resource)`

  const OrdersSegment: string := "/orders/"

  /** The pattern matches at position `p`: the segment, then a digit. */
  predicate MatchAt(s: string, p: int) {
    && 0 <= p
    && p + |OrdersSegment| < |s|
    && s[p..p + |OrdersSegment|] == OrdersSegment
    && IsDigit(s[p + |OrdersSegment|])
  }

  /** The maximal run of digits of `s` starting at `i` (what greedy `\d+` takes). */
  function DigitRun(s: string, i: nat): (run: string)
    requires i <= |s|
    ensures i + |run| <= |s| && run == s[i..i + |run|]
    ensures AllDigits(run)
    ensures i + |run| == |s| || !IsDigit(s[i + |run|])
    decreases |s| - i
  {
    if i < |s| && IsDigit(s[i]) then [s[i]] + DigitRun(s, i + 1) else ""
  }

  /** The leftmost position at or after `from` where the pattern matches. */
  function FirstMatch(s: string, from: nat): (p: Option<nat>)
    requires from <= |s|
    ensures p.Some? ==> from <= p.value && MatchAt(s, p.value)
    ensures p.Some? ==> forall q :: from <= q < p.value ==> !MatchAt(s, q)
    ensures p.None? ==> forall q :: from <= q ==> !MatchAt(s, q)
    decreases |s| - from
  {
    if MatchAt(s, from) then Some(from)
    else if from == |s| then None
    else FirstMatch(s, from + 1)
  }

  /** Capture group 1 of the pattern on `s`: present iff the pattern occurs,
      and then the whole run of digits after the leftmost `/orders/` that is
      followed by a digit. */
  function MatchOrderId(s: string): (id: Option<string>)
    ensures id.None? <==> forall p :: !MatchAt(s, p)
    ensures id.Some? ==> id.value != "" && AllDigits(id.value)
    ensures id.Some? ==> exists p ::
      && MatchAt(s, p)
      && (forall q :: 0 <= q < p ==> !MatchAt(s, q))
      && var start := p + |OrdersSegment|;
         && start + |id.value| <= |s|
         && s[start..start + |id.value|] == id.value
         && (start + |id.value| == |s| || !IsDigit(s[start + |id.value|]))
  {
    match FirstMatch(s, 0)
    case None => None
    case Some(p) =>
      var run := DigitRun(s, p + |OrdersSegment|);
      assert run[0] == s[p + |OrdersSegment|];
      Some(run)
  }

  /** `getOrderIdFromPayload`: `null` unless `resource` is a string in
      which the pattern occurs; otherwise the pattern's capture group. */
  function GetOrderIdFromPayload(payload: JsonObject): (id: Option<string>)
    ensures !IsString(Get(JObj(payload), "resource")) ==> id.None?
    ensures IsString(Get(JObj(payload), "resource")) ==> id == MatchOrderId(payload["resource"].s)
  {
    var resource := Get(JObj(payload), "resource");
    if !IsString(resource) then None else MatchOrderId(resource.value.s)
  }

  /** A run of digits followed by a non-digit (or the end) is the whole
      run `DigitRun` takes. */
  lemma {:induction false} DigitRunIs(s: string, i: nat, n: nat)
    requires i + n <= |s|
    requires forall k :: i <= k < i + n ==> IsDigit(s[k])
    requires i + n == |s| || !IsDigit(s[i + n])
    ensures DigitRun(s, i) == s[i..i + n]
    decreases n
  {
    if n == 0 {
      assert DigitRun(s, i) == "";
    } else {
      DigitRunIs(s, i + 1, n - 1);
      assert s[i..i + n] == [s[i]] + s[i + 1..i + n];
    }
  }

  /** Extraction inverts the `/orders/{id}` path: a non-empty run of digits
      placed after the segment comes back out unchanged. */
  lemma OrderPathRoundTrip(id: string, rest: string)
    requires id != "" && AllDigits(id)
    requires rest == [] || !IsDigit(rest[0])
    ensures MatchOrderId(OrdersSegment + id + rest) == Some(id)
  {
    var s := OrdersSegment + id + rest;
    var n := |OrdersSegment|;
    assert s[0..n] == OrdersSegment;
    assert s[n..n + |id|] == id;
    assert s[n] == id[0];
    assert MatchAt(s, 0);
    assert n + |id| == |s| || s[n + |id|] == rest[0];
    DigitRunIs(s, n, |id|);
  }

  /** The webhook example: an order resource yields its id. The resource is
      a parameter fixed by the precondition, so that the verifier does not
      evaluate the scan on the literal text eagerly. */
  lemma OrderIdExample(resource: string)
    requires resource == "/orders/2000014183891392"
    ensures GetOrderIdFromPayload(map["resource" := JStr(resource)]) == Some("2000014183891392")
  {
    var id := "2000014183891392";
    assert AllDigits(id);
    assert OrdersSegment + id + "" == resource;
    OrderPathRoundTrip(id, "");
  }

  /** A shipment resource yields no order id (the resource is a parameter
      for the same reason as in `OrderIdExample`). */
  lemma ShipmentResourceHasNoOrderId(resource: string)
    requires resource == "/shipments/1"
    ensures GetOrderIdFromPayload(map["resource" := JStr(resource)]) == None
  {
    assert resource[1] == 's' && resource[2] == 'h' && resource[3] == 'i' && resource[4] == 'p';
    forall p | 0 <= p && p + |OrdersSegment| < |resource|
      ensures !MatchAt(resource, p)
    {
      assert resource[p..p + |OrdersSegment|][1] == resource[p + 1] != 'o';
    }
    assert forall p :: !MatchAt(resource, p);
  }

  /** A payload without `resource` yields no order id. */
  lemma MissingResourceHasNoOrderId(payload: JsonObject)
    requires "resource" !in payload
    ensures GetOrderIdFromPayload(payload) == None
  {
  }

  // ---------------------------------------------------------------------
  // Order guard

  /** `isMercadoLibreOrder` */
  predicate IsMercadoLibreOrder(value: Json)
    ensures IsMercadoLibreOrder(value) ==>
      && value.JObj? && "id" in value.fields && value.fields["id"].JNum?
      && "status" in value.fields && value.fields["status"].JStr?
  {
    if !Truthy(value) || !TypeofObject(value) then false
    else if !IsNumber(Get(value, "id")) then false
    else if !IsString(Get(value, "status")) then false
    else
      var shipping := Get(value, "shipping");
      if shipping.Some? then
        if !TypeofObject(shipping.value) || shipping.value.JNull? then false
        else IsNumber(Get(shipping.value, "id")) && IsString(Get(shipping.value, "status"))
      else true
  }

  /** The value a successful guard narrows `value` to. */
  function AsOrder(value: Json): Order
    requires IsMercadoLibreOrder(value)
  {
    var shipping :=
      if "shipping" in value.fields then
        var sh := value.fields["shipping"].fields;
        Some(OrderShipping(sh["id"].n, sh["status"].s))
      else None;
    Order(value.fields["id"].n, value.fields["status"].s, shipping)
  }

  /** An order body carrying `order`, next to further properties of the
      order (`extra`) and of its shipping object (`shippingExtra`). */
  function OrderJson(order: Order, extra: JsonObject, shippingExtra: JsonObject): Json
  {
    var base := (extra - {"shipping"})["id" := JNum(order.id)]["status" := JStr(order.status)];
    match order.shipping
    case None => JObj(base)
    case Some(sh) =>
      JObj(base["shipping" := JObj(shippingExtra["id" := JNum(sh.id)]["status" := JStr(sh.status)])])
  }

  /** The guard accepts every encoding of an order and narrowing recovers it. */
  lemma OrderGuardAccepts(order: Order, extra: JsonObject, shippingExtra: JsonObject)
    ensures IsMercadoLibreOrder(OrderJson(order, extra, shippingExtra))
    ensures AsOrder(OrderJson(order, extra, shippingExtra)) == order
  {
  }

  /** Conversely, every accepted value is the encoding of its narrowed view. */
  lemma OrderGuardExact(value: Json)
    requires IsMercadoLibreOrder(value)
    ensures "shipping" in value.fields ==>
      value == OrderJson(AsOrder(value), value.fields, value.fields["shipping"].fields)
    ensures "shipping" !in value.fields ==>
      value == OrderJson(AsOrder(value), value.fields, map[])
  {
    var m := value.fields;
    var o := AsOrder(value);
    var base := (m - {"shipping"})["id" := JNum(o.id)]["status" := JStr(o.status)];
    if "shipping" in m {
      var sh := m["shipping"].fields;
      var sh' := sh["id" := JNum(o.shipping.value.id)]["status" := JStr(o.shipping.value.status)];
      assert sh'.Keys == sh.Keys;
      assert sh' == sh;
      var m' := base["shipping" := JObj(sh')];
      assert m'.Keys == m.Keys;
      assert m' == m;
    } else {
      assert base.Keys == m.Keys;
      assert base == m;
    }
  }

  /** The guard's rejections: a non-numeric `id`, a non-string `status`,
      a `null` shipping, and a shipping object without a string `status`. */
  lemma OrderGuardRejects(value: Json)
    ensures value.JObj? && !IsNumber(Get(value, "id")) ==> !IsMercadoLibreOrder(value)
    ensures value.JObj? && !IsString(Get(value, "status")) ==> !IsMercadoLibreOrder(value)
    ensures !IsMercadoLibreOrder(JObj(map["id" := JNum(123), "status" := JStr("paid"), "shipping" := JNull]))
    ensures !IsMercadoLibreOrder(JObj(map["id" := JNum(123), "status" := JStr("paid"), "shipping" := JObj(map["id" := JNum(999)])]))
  {
  }

  /** An order without `shipping` is accepted exactly when its `id` is a
      number and its `status` a string. */
  lemma OrderGuardWithoutShipping(fields: JsonObject)
    requires "shipping" !in fields
    ensures IsMercadoLibreOrder(JObj(fields)) <==>
      IsNumber(Get(JObj(fields), "id")) && IsString(Get(JObj(fields), "status"))
  {
  }

  // ---------------------------------------------------------------------
  // Order to DTO

  /** `mapMLOrderToOrderDTO` */
  function MapOrderToOrderDTO(order: Order): (dto: OrderDTO)
    ensures dto.id == order.id && dto.status == order.status
    ensures dto.shippingId.Some? <==> order.shipping.Some?
    ensures dto.shippingStatus.Some? <==> order.shipping.Some?
    ensures order.shipping.Some? ==>
      dto.shippingId == Some(order.shipping.value.id) && dto.shippingStatus == Some(order.shipping.value.status)
  {
    var dto := OrderDTO(order.id, order.status, None, None);
    if order.shipping.Some? then
      dto.(shippingId := Some(order.shipping.value.id), shippingStatus := Some(order.shipping.value.status))
    else dto
  }

  /** The order a DTO describes, when its shipping fields come in pairs. */
  function OrderOfDTO(dto: OrderDTO): Order
  {
    if dto.shippingId.Some? && dto.shippingStatus.Some? then
      Order(dto.id, dto.status, Some(OrderShipping(dto.shippingId.value, dto.shippingStatus.value)))
    else Order(dto.id, dto.status, None)
  }

  /** The mapping loses nothing: the order can be read back from its DTO. */
  lemma OrderDTORoundTrip(order: Order)
    ensures OrderOfDTO(MapOrderToOrderDTO(order)) == order
  {
  }
}
