# meli-notifier-bot, modelled in Dafny

This project models the decision logic of a MercadoLibre notifier bot. The
repository provides the pieces of the bot's flow:

- a parser for the queue message that carries MercadoLibre's order webhook, and an extractor for the order id;
- an OAuth token manager that refreshes the token through the refresh-token grant (section 6 of RFC 6749) whenever it is within 60 seconds of expiry;
- clients that fetch an order and a shipping label with bearer credentials (section 2.1 of RFC 6750), admitting each response only through a structural type guard;
- a repository that records each event id once, to suppress duplicates;
- a composer for the chat text that announces a shipment.

The worker that would run these pieces in sequence is still a to-do. It only
parses and logs each record (`src/functions/worker/handler.ts:23-32`, to-do at
line 26), and no file calls the extractor, the event repository, the two
clients or the composer. The model therefore states what each piece does on
its own.

The model has one Dafny module per source file, plus four small modules for
the values those files share:

- `Wrappers` holds `Option`, `Result` and the `Failure` a call can end in: an error thrown with a message, or a body that is not JSON.
- `Text` holds the JavaScript string operations the composer uses: `join`, `trim` and decimal rendering. It also defines a one-character `Split`, which the source does not call; it serves only to state how many lines a composed message has.
- `Json` holds decoded JSON and the `typeof`/truthiness tests the guards apply to it.
- `Http` holds the request a client builds and the response the network returns.

The surrounding I/O is passed in as values:

- `Date.now()` is a parameter `now`.
- The network is a function from request to response.
- `JSON.parse` is a function from text to an optional JSON value.
- `getAccessToken` and `authClient.refreshToken` enter as the outcome they produce.

The two stateful pieces are classes whose methods update their tables in place:

- the token repository with the token manager over it;
- the events repository.

Each method is tied by its postcondition to a pure function. The lemmas about
that function state what the source promises.

Four behaviours of the code are worth stating plainly, because a reader might
expect otherwise:

- The `Recibe:` line is always emitted, even when the receiver equals the buyer label (`src/application/mercadolibre/message/get-shipment-message.ts:34`).
- A label download returns whatever bytes arrive, so an empty body is an empty, successful download (`src/infrastructure/mercadolibre/ml-api-client.ts:44-45`).
- The token manager reads the repository on every call and keeps no copy of the token in memory (`src/application/mercadolibre/get-valid-access-token.ts:23`).
- A freshly refreshed token is returned without checking its expiry again (`src/application/mercadolibre/get-valid-access-token.ts:33-36`).

The code also disagrees with its tests in three places, and the model follows
the code. First, `tests/application/mercadolibre/types.test.ts:45-55` expects an
order whose `shipping` has no `status` to pass `isMercadoLibreOrder`. The guard
(`src/application/mercadolibre/types.ts:80`) rejects it, and
`MercadoLibreTypes.OrderGuardRejects` proves the rejection. Second,
`tests/application/mercadolibre/types.test.ts:6` imports an
`isMercadoLibreShipment` guard that `types.ts` does not declare; the model has
no such guard (see "Left out"). Third, `tests/functions/worker/handler.test.ts:89-96`
expects the worker to save the event, fetch order `2000014183891392`, download
label `555` and send a document and a message, while
`src/functions/worker/handler.ts:23-32` only parses and logs each payload (its
processing is a to-do at line 26); the handler loop is outside the model.

Two imports in the code name exports that do not exist, so the modules that
contain them cannot be loaded as written:

- `src/infrastructure/dynamo/events-repository.ts:3` imports `docClient`, but `src/infrastructure/dynamo/dynamo-client.ts:5` exports only `createDynamoClient`.
- `src/functions/worker/context.ts:3` and `:11` import `createEventsRepository` and the type `EventsRepository`, but `src/infrastructure/dynamo/events-repository.ts` exports only `saveEventIfNotExists` (line 5) and `eventsRepository` (line 34).

The model follows the body of `saveEventIfNotExists` and takes its table as a
value in place of the missing client.

## Model

| member | source | states |
|---|---|---|
| MercadoLibreTypes.IsTokenExpired | src/application/mercadolibre/types.ts:43-45 | a token is expired exactly when at most 60 000 ms remain before `expiresAt` |
| MercadoLibreTypes.ExpiryIsMonotone | src/application/mercadolibre/types.ts:44 | a token expired at `now` stays expired at every later time |
| MercadoLibreTypes.ExpiryExamples | tests/application/mercadolibre/types.test.ts:185-206 | at time 1 000 000, a token ending at 1 020 000 is expired and one ending at 1 080 000 is not |
| Json.ObjectTestPasses | src/application/mercadolibre/types.ts:48 | the opening test `!v \|\| typeof v !== "object"` passes exactly for objects and arrays, never for `null` |
| MercadoLibreTypes.IsMercadoLibreTokenResponse | src/application/mercadolibre/types.ts:47-55 | the token-response guard; its contract says it admits only objects, and `TokenResponseGuardAccepts`/`TokenResponseGuardExact` pin it both ways |
| MercadoLibreTypes.TokenResponseGuardAccepts | src/application/mercadolibre/types.ts:47-55 | every object with string `access_token`, string `refresh_token` and number `expires_in` is accepted, whatever else it holds, and narrowing gives those three fields back |
| MercadoLibreTypes.TokenResponseGuardExact | src/application/mercadolibre/types.ts:47-55 | conversely, every accepted value is such an object: it equals the encoding of its own narrowed fields |
| MercadoLibreTypes.TokenResponseGuardRejects | tests/application/mercadolibre/types.test.ts:23-32 | `null` and a numeric `refresh_token` are rejected |
| MercadoLibreTypes.MatchOrderId | src/application/mercadolibre/types.ts:60-61 | the pattern `/orders/` followed by a digit either occurs nowhere, giving no id, or gives the non-empty maximal digit run after its leftmost occurrence |
| MercadoLibreTypes.GetOrderIdFromPayload | src/application/mercadolibre/types.ts:57-62 | no id unless `resource` is a string; otherwise exactly what the pattern captures in it |
| MercadoLibreTypes.DigitRunIs | src/application/mercadolibre/types.ts:60 | a run of digits ended by a non-digit or the end of the text is exactly what `\d+` takes |
| MercadoLibreTypes.OrderPathRoundTrip | src/application/mercadolibre/types.ts:57-62 | `/orders/` + digits + a tail that does not start with a digit yields those digits back |
| MercadoLibreTypes.OrderIdExample | tests/application/mercadolibre/types.test.ts:170-172 | `/orders/2000014183891392` yields `2000014183891392` |
| MercadoLibreTypes.ShipmentResourceHasNoOrderId | tests/application/mercadolibre/types.test.ts:174-177 | `/shipments/1` yields no id |
| MercadoLibreTypes.MissingResourceHasNoOrderId | src/application/mercadolibre/types.ts:58-59 | a payload without `resource` yields no id |
| MercadoLibreTypes.IsMercadoLibreOrder | src/application/mercadolibre/types.ts:64-84 | the order guard; its contract says it admits only objects with a numeric `id` and a string `status`, and `OrderGuardAccepts`/`OrderGuardExact` pin it both ways |
| MercadoLibreTypes.OrderGuardAccepts | src/application/mercadolibre/types.ts:64-84 | every object with a numeric `id`, a string `status` and, if present, a `shipping` object with numeric `id` and string `status` is accepted, and narrowing recovers the order |
| MercadoLibreTypes.OrderGuardExact | src/application/mercadolibre/types.ts:64-84 | conversely, every accepted value is the encoding of its narrowed order |
| MercadoLibreTypes.OrderGuardRejects | src/application/mercadolibre/types.ts:69-80 | a non-numeric `id`, a non-string `status`, `shipping: null` and a `shipping` without a string `status` are each rejected |
| MercadoLibreTypes.OrderGuardWithoutShipping | src/application/mercadolibre/types.ts:64-72 | without `shipping`, an object is accepted exactly when its `id` is a number and its `status` a string |
| MercadoLibreTypes.MapOrderToOrderDTO | src/application/mercadolibre/types.ts:86-98 | `id` and `status` are copied; `shippingId`/`shippingStatus` are present exactly when `shipping` is, and then equal its `id`/`status` |
| MercadoLibreTypes.OrderDTORoundTrip | src/application/mercadolibre/types.ts:86-98 | the mapping loses nothing: the order is recovered from its DTO |
| FetchAndParse.FetchAndParse | src/infrastructure/http/fetch-and-parse.ts:1-13 | a body that is not JSON fails; a decoded value that passes the guard is returned unchanged; one that fails it throws exactly `errorMessage` |
| FetchAndParse.SuccessSatisfiesGuard | src/infrastructure/http/fetch-and-parse.ts:8-12 | every successful result satisfies the guard and is the decoded body |
| FetchAndParse.DependsOnlyOnJson | src/infrastructure/http/fetch-and-parse.ts:6-12 | the outcome depends on the decoded body alone, not on status, text or bytes |
| MLAuthClient.FormValue | src/infrastructure/mercadolibre/ml-auth-client.ts:18-23 | a form field is found exactly when some entry carries its name, and its value is that of the first such entry |
| MLAuthClient.RefreshRequest | src/infrastructure/mercadolibre/ml-auth-client.ts:18-29 | builds the refresh request (no contract of its own); `RefreshRequestFields` states its verb, URL, header and exactly four form fields |
| MLAuthClient.RefreshRequestFields | src/infrastructure/mercadolibre/ml-auth-client.ts:18-29 | the request is a form POST to the token URL carrying exactly `grant_type=refresh_token`, `client_id`, `client_secret` and `refresh_token` with the given values |
| MLAuthClient.RefreshToken | src/infrastructure/mercadolibre/ml-auth-client.ts:17-47 | a non-ok status fails with `ML token refresh failed: ` + body text; a body that fails the token-response guard fails with `Invalid ML refresh token response`; otherwise the token carries the response's tokens and expires `expires_in * 1000` ms after `now` |
| MLAuthClient.FreshTokenUsableIff | src/infrastructure/mercadolibre/ml-auth-client.ts:45 | a token just obtained is unexpired at the moment it arrives exactly when `expires_in > 60` |
| MLAuthClient.RefreshExample | tests/application/mercadolibre/types.test.ts:13-21 | reusing the token-response literal of that test, the response `{access_token: "token", refresh_token: "refresh", expires_in: 3600}` gives a token expiring 3 600 000 ms after `now` |
| MLApiClient.OrderRequest | src/infrastructure/mercadolibre/ml-api-client.ts:15-19 | builds the order request (no contract of its own); `RequestsCarryBearerToken` and `OrderUrlRoundTrip` state its header and URL |
| MLApiClient.LabelRequest | src/infrastructure/mercadolibre/ml-api-client.ts:31-38 | builds the label request (no contract of its own); `RequestsCarryBearerToken` and `LabelUrlNamesShipment` state its header and URL |
| MLApiClient.RequestsCarryBearerToken | src/infrastructure/mercadolibre/ml-api-client.ts:15-19 | both requests present exactly the token as bearer credentials and carry no other header |
| MLApiClient.OrderUrlRoundTrip | src/infrastructure/mercadolibre/ml-api-client.ts:15 | the order URL is the API base, `/orders/`, then the id, and the order-id extraction reads the id back from its path |
| MLApiClient.LabelUrlNamesShipment | src/infrastructure/mercadolibre/ml-api-client.ts:31-38 | the label URL is the base, `/shipment_labels?shipment_ids=`, the shipment id in decimal, then `&response_type=pdf`, and the decimal reads back as the id |
| MLApiClient.GetOrder | src/infrastructure/mercadolibre/ml-api-client.ts:12-26 | a failed `getAccessToken` fails before any request; a non-ok status fails with `Failed to fetch order <id>: ` + body text; a non-JSON body fails; an invalid order fails with `Invalid MercadoLibre order response`; a valid body is returned unchanged |
| MLApiClient.GetOrderYieldsOrder | src/infrastructure/mercadolibre/ml-api-client.ts:25 | whatever `getOrder` returns passes the order guard |
| MLApiClient.GetOrderDependsOnlyOnItsRequest | src/infrastructure/mercadolibre/ml-api-client.ts:13-25 | the outcome depends only on the network's answer to the one request built from the token |
| MLApiClient.GetOrderExample | tests/infrastructure/mercadolibre/ml-api-client.test.ts:18-31 | order `42` with token `token-123` requests `https://api.mercadolibre.com/orders/42` with `Authorization: Bearer token-123` and returns the valid body |
| MLApiClient.DownloadShippingLabel | src/infrastructure/mercadolibre/ml-api-client.ts:28-46 | a failed `getAccessToken` fails first; a non-ok status fails with `Failed to download shipping label <id>: ` + body text; an ok response returns its bytes unchanged |
| MLApiClient.EmptyLabelIsNotAnError | src/infrastructure/mercadolibre/ml-api-client.ts:44-45 | an ok, empty label body is a successful, empty download |
| MLTokenRepository.Lookup | src/infrastructure/mercadolibre/ml-token-repository.ts:22-37 | `get` finds a token exactly when a record is stored under `tokenId`, and then returns that record's fields |
| MLTokenRepository.Store | src/infrastructure/mercadolibre/ml-token-repository.ts:39-49 | `save` adds the key `tokenId` and no other key |
| MLTokenRepository.SaveThenGet | src/infrastructure/mercadolibre/ml-token-repository.ts:22-49 | a `save` is read back by the next `get` |
| MLTokenRepository.SaveOverwrites | src/infrastructure/mercadolibre/ml-token-repository.ts:39-49 | a save replaces the previous token unconditionally |
| MLTokenRepository.SaveLeavesOtherRecords | src/infrastructure/mercadolibre/ml-token-repository.ts:26-44 | records under other keys are neither read nor written |
| MLTokenRepository.TokenRepository.Get | src/infrastructure/mercadolibre/ml-token-repository.ts:22-37 | returns `Lookup` of `tokenId` in the current table: nothing when no record is under it, otherwise its token |
| MLTokenRepository.TokenRepository.Save | src/infrastructure/mercadolibre/ml-token-repository.ts:39-49 | the table becomes the old table with the token put under `tokenId`, so the repository then holds that token |
| ValidAccessToken.Decide | src/application/mercadolibre/get-valid-access-token.ts:22-37 | the decision on the stored token: result, refresh calls and saved token (no contract of its own); the six lemmas below characterize it and `TokenManager.GetValidAccessToken` is proved against it |
| ValidAccessToken.UninitializedFails | src/application/mercadolibre/get-valid-access-token.ts:23-27 | with nothing stored the call fails with `MercadoLibre token not initialized`, without refreshing or saving |
| ValidAccessToken.UnexpiredTokenIsReturned | src/application/mercadolibre/get-valid-access-token.ts:29-31 | an unexpired token's access token is returned, with no refresh and no save |
| ValidAccessToken.RefreshOnlyWhenExpired | src/application/mercadolibre/get-valid-access-token.ts:29-33 | the auth client is called at most once, exactly when the stored token has expired, with that token's refresh token |
| ValidAccessToken.SaveOnlyAfterRefresh | src/application/mercadolibre/get-valid-access-token.ts:33-36 | a failed refresh surfaces its error and saves nothing; a successful one saves exactly the refreshed token and returns its access token |
| ValidAccessToken.ResultIsHeldToken | src/application/mercadolibre/get-valid-access-token.ts:29-36 | every successful result is the access token of the token held once the call is over |
| ValidAccessToken.UnrefreshedResultIsUnexpired | src/application/mercadolibre/get-valid-access-token.ts:29-31 | a token returned without a refresh is outside the 60 s buffer |
| ValidAccessToken.SecondCallRefreshesIff | src/application/mercadolibre/get-valid-access-token.ts:29-36 | after a successful refresh, a second call at the same time refreshes again exactly when the refreshed token is itself already expired |
| ValidAccessToken.TokenManager.GetValidAccessToken | src/application/mercadolibre/get-valid-access-token.ts:22-37 | result, refresh calls and the repository's new table are those of the decision on the token stored before the call; the repository then holds the token `HeldAfter` names |
| EventsRepository.SaveIfAbsent | src/infrastructure/dynamo/events-repository.ts:10-31 | insert-if-absent on the table with the first-sighting flag (no contract of its own); the five lemmas below characterize it and `EventsRepository.SaveEventIfNotExists` is proved against it |
| EventsRepository.InsertsWhenAbsent | src/infrastructure/dynamo/events-repository.ts:19-31 | a new id is inserted as `{eventId, createdAt: now, payload}`, adding just that key, and the call returns true |
| EventsRepository.KeepsExisting | src/infrastructure/dynamo/events-repository.ts:10-17 | a known id returns false and leaves the table unchanged |
| EventsRepository.ReportsFirstSighting | src/infrastructure/dynamo/events-repository.ts:10-31 | the call returns true exactly when the id was new; afterwards the id is present and an existing record is never overwritten |
| EventsRepository.OtherRecordsUnchanged | src/infrastructure/dynamo/events-repository.ts:14-26 | records under other ids are unchanged |
| EventsRepository.SecondCallIsDuplicate | src/infrastructure/dynamo/events-repository.ts:17-31 | the same id twice returns true, then false, and the second call changes nothing |
| EventsRepository.EventsRepository.SaveEventIfNotExists | src/infrastructure/dynamo/events-repository.ts:5-32 | the new table and the result are those of insert-if-absent on the old table |
| WorkerHandler.ParseRecordBody | src/functions/worker/handler.ts:5-18 | the payload of one record (no contract of its own); `ObjectBodyIsReturned`, `OtherBodiesDegrade` and `NonEmptyPayloadIsParsed` cover every case |
| WorkerHandler.ObjectBodyIsReturned | src/functions/worker/handler.ts:9-11 | a non-empty body that parses to an object yields exactly that object |
| WorkerHandler.OtherBodiesDegrade | src/functions/worker/handler.ts:7-17 | an absent, empty or unparsable body, or one that parses to `null`, a primitive or an array, yields `{}` |
| WorkerHandler.NonEmptyPayloadIsParsed | src/functions/worker/handler.ts:5-18 | a non-empty payload is always the object the body parses to |
| Text.Join | src/application/mercadolibre/message/get-shipment-message.ts:11 | `join`: the result opens with the first part, followed by the separator when there is a second; `SplitJoin` inverts it |
| Text.Trim | src/application/mercadolibre/message/get-shipment-message.ts:11 | the result is an infix `s[i..j]` of the input with only whitespace before `i` and after `j`; it starts and ends with a non-whitespace character or is empty; a string already so bounded is unchanged |
| Text.SplitJoin | src/application/mercadolibre/message/get-shipment-message.ts:43 | splitting on a character undoes joining with it, when no part contains it |
| Text.IntToString | src/application/mercadolibre/message/get-shipment-message.ts:40 | the decimal rendering of an integer: never empty, digits (after a minus sign when negative) that read back as its value, with no leading zero unless the value is 0 |
| ShipmentMessage.GetShipmentMessage | src/application/mercadolibre/message/get-shipment-message.ts:8-44 | the message opens with the header; `MessageIsLines` gives the whole text as the newline join of the promised lines |
| ShipmentMessage.DraftLines | src/application/mercadolibre/message/get-shipment-message.ts:30-41 | the array before filtering has nine fixed entries then one per item, the header first |
| ShipmentMessage.DropBlank | src/application/mercadolibre/message/get-shipment-message.ts:42 | no kept line is empty |
| ShipmentMessage.DropBlankRemovesOnlyBlanks | src/application/mercadolibre/message/get-shipment-message.ts:42 | as a multiset, the kept lines are the input lines with every empty line removed and every other line kept as often as it occurred |
| ShipmentMessage.MessageIsLines | src/application/mercadolibre/message/get-shipment-message.ts:30-43 | filtering removes exactly the three blank separators: the text is header, buyer, receiver, address, city/state, `Productos:` and the item lines, joined with newlines |
| ShipmentMessage.MessageLinesHead | src/application/mercadolibre/message/get-shipment-message.ts:30-39 | the first six lines are the header, `Cliente: ` + label, `Recibe: ` + receiver, `Dirección: ` + address line, the city/state line and `Productos:` |
| ShipmentMessage.LineCount | src/application/mercadolibre/message/get-shipment-message.ts:30-43 | when no part contains a newline, the text splits back into those lines, 6 + the number of items |
| ShipmentMessage.FullName | src/application/mercadolibre/message/get-shipment-message.ts:11 | the full name is empty or starts and ends with a non-whitespace character; `FullNameShape` gives its value |
| ShipmentMessage.BuyerLabel | src/application/mercadolibre/message/get-shipment-message.ts:13-16 | the label is never empty; `BuyerLabelChoice` gives the four cases |
| ShipmentMessage.BuyerLabelChoice | src/application/mercadolibre/message/get-shipment-message.ts:13-16 | the label is never empty and is `fullName (nickname)`, else the full name, else the nickname, else `Cliente` |
| ShipmentMessage.FullBuyerLabel | src/application/mercadolibre/message/get-shipment-message.ts:9-16 | a buyer with non-empty first name, last name and nickname, the names free of surrounding whitespace, is labelled `first last (nickname)` |
| ShipmentMessage.FullNameShape | src/application/mercadolibre/message/get-shipment-message.ts:9-11 | the full name has no surrounding whitespace; first and last names free of it give `first last`; a missing buyer has no full name |
| ShipmentMessage.Header | src/application/mercadolibre/message/get-shipment-message.ts:25-28 | the header phrase (no contract of its own); `HeaderChoice` states which phrase, both ways |
| ShipmentMessage.HeaderChoice | src/application/mercadolibre/message/get-shipment-message.ts:25-28 | the first line is the fulfillment phrase exactly for `fulfillment` shipments, and the preparation phrase otherwise |
| ShipmentMessage.ReceiverLineAlwaysPresent | src/application/mercadolibre/message/get-shipment-message.ts:33-34 | with an address, the receiver line and the buyer line are both present |
| ShipmentMessage.Address | src/application/mercadolibre/message/get-shipment-message.ts:18-23 | the address or its default (no contract of its own); `MissingAddressDefaults` and `ReceiverLineAlwaysPresent` state both cases |
| ShipmentMessage.MissingAddressDefaults | src/application/mercadolibre/message/get-shipment-message.ts:18-23 | without an address the receiver is the buyer label, the address is `Dirección no disponible`, and the place line is `, ` |
| ShipmentMessage.MissingPlaceNames | src/application/mercadolibre/message/get-shipment-message.ts:37 | a missing city or state renders as the empty string |
| ShipmentMessage.ItemLinesInOrder | src/application/mercadolibre/message/get-shipment-message.ts:40 | line 6 + i is `• <quantity>× <description>` of item i |
| ShipmentMessage.FulfillmentExample | tests/application/mercadolibre/message/get-shipment-message.test.ts:9-43 | the fulfillment example produces exactly the expected eight lines |
| ShipmentMessage.PrepareExample | tests/application/mercadolibre/message/get-shipment-message.test.ts:46-77 | the drop-off example with an empty buyer produces exactly the expected seven lines |

## Left out

- JavaScript numbers are modelled as unbounded integers: fractions, `NaN`, and precision loss above 2^53 are not modelled. This affects `expires_in`, `expiresAt`, ids and quantities.
- The form body's URL encoding (`URLSearchParams.toString`) is not modelled. The request carries the fields as name/value pairs.
- The get-then-conditional-put race in the events repository is not modelled, because concurrency is out of scope. `SaveEventIfNotExists` is one atomic step, so the conditional put can never fail.
- The network, `Date.now()` and `JSON.parse` are parameters; their failures appear only as the responses and outcomes passed in.
- DynamoDB reads and writes always succeed in the model: a rejected `get` (`src/application/mercadolibre/get-valid-access-token.ts:23`) and a rejected `save` after a refresh (`src/application/mercadolibre/get-valid-access-token.ts:34`, where the refreshed token would be lost) are not modelled.
- The worker's `handler` loop is not modelled. It only logs each parsed payload, and its processing is a to-do stub (`src/functions/worker/handler.ts:26`).
- The shipment-label cropping (floating-point PDF geometry in a foreign library), the Telegram client, the secrets client, the DynamoDB client, the context wiring, the producer handler, the environment files and the infrastructure code are not part of this model.
- The composer itself depends on declarations `types.ts` does not provide: it imports the type `MercadoLibreShipment` (`src/application/mercadolibre/message/get-shipment-message.ts:1`) and reads `order.buyer` (`src/application/mercadolibre/message/get-shipment-message.ts:9`), which `MercadoLibreOrder` does not declare; the tests also import `isMercadoLibreShipment`. The model's `Buyer` and `Shipment` datatypes hold only the fields the composer reads, and it takes `order.buyer` rather than the whole order.
- `tableName` is not modelled. Each repository is one table value.
- `src/functions/worker/context.ts:50` passes `tokenKey` where the repository expects `tokenId`. The model takes `tokenId` as its constructor parameter.
- JavaScript regex engine semantics are not modelled beyond a leftmost scan for `/orders/` followed by a digit and a greedy digit run.
- ShipmentMessage.Address: a present address is assumed to have string `address_line` and `receiver_name`. A missing one would render as `undefined` in JavaScript, which is not modelled.
- ShipmentMessage.NameParts: name parts and the nickname are strings. Other truthy non-string values are not modelled.
- WorkerHandler.ParseRecordBody: the `console.warn` on invalid JSON is left out.
- MLApiClient.DownloadShippingLabel: the conversion to a Node `Buffer` is left out. The bytes are returned as they are.
