# Kaltura typed request: response interpretation

A Dafny model of `KalturaRequest<T>` from the Kaltura ngx client
(`sources/ngx/src/api/kaltura-request.ts`). A request knows the response type
and subtype it expects and may hold a completion callback. When the server
payload arrives, `handleResponse`:

1. unwraps it (`_unwrapResponse`). With the global nested-response flag on, it
   takes `result.error`, then `result`, then `error`, in that order;
2. classifies the effective payload. It is either nothing usable (falsy in the
   JavaScript sense), a ready-made `KalturaAPIException` instance, an object
   tagged `objectType: 'KalturaAPIException'`, or an ordinary value;
3. deserialises it with the inherited `_parseResponseProperty`. A fault-shaped
   object always uses type `'o'` and subtype `KalturaAPIException`; anything
   else uses the request's configured type and subtype;
4. builds one `KalturaResponse` holding at most one of result and error, hands it
   to the callback (ignoring anything the callback throws) and returns it.

Files:

- `wrappers.dfy`: module `Wrappers`, with `Option` and a `Result` whose
  `Failure(msg)` stands for a thrown JavaScript exception.
- `js_values.dfy`: module `JsValues`. It holds the payload type `Json`, with a
  variant for an already-built exception instance. It also gives JavaScript
  truthiness, property lookup, and `hasOwnProperty`, which throws a TypeError
  on `null`/`undefined` and on an object whose own `hasOwnProperty` key hides
  the inherited method.
- `kaltura_request.dfy`: module `Requests`. It has the pipeline as functions
  (`UnwrapResponse`, `Classify`, `ParseRequest`, `ResponseObject`, `Settle`,
  `Handled`) and the class `KalturaRequest`. The class's `HandleResponse`
  follows the source's branch structure with its locals and try/catch, and is
  proved equal to `Handled`.
- `request_properties.dfy`: module `RequestProperties`, with the lemmas.

The nested-response flag (a global setting in the source) and the deserialiser
are parameters of `HandleResponse`. The callback is a `Completion` value: an
opaque function from a response to "returned" or "threw". The ghost field
`deliveries` records every response handed to it, with what the callback did.

Behaviour of the code that is easy to misread:

- "Nothing usable" means any falsy effective payload (`null`, `0`, `false`,
  `""`, `undefined`), not only `undefined`.
- For a void (`'v'`) request the result is then `null`, the initial value of
  `responseObject`, not absent.
- `result.error` wins only when `result`'s value is truthy. A falsy `result`
  value is still chosen over a sibling `error`.
- Unwrapping can throw when a payload object has an own key `hasOwnProperty`.
  That exception becomes `client::general_error`, like a deserialiser failure.

## Model

| member | source | states |
|---|---|---|
| `Requests.UnwrapResponse` | sources/ngx/src/api/kaltura-request.ts:32-45 | with the nested-response flag off, or for a falsy payload, the payload is returned unchanged; the only exception it can raise is the TypeError of a shadowed `hasOwnProperty` |
| `Requests.Handled` | sources/ngx/src/api/kaltura-request.ts:47-95 | the response never holds both a result and an error, never holds an exception as its result, and for a non-void request holds an error exactly when it holds no truthy result |
| `Requests.KalturaRequest.constructor` | sources/ngx/src/api/kaltura-request.ts:20-25 | stores the response type and optional subtype; no callback is set |
| `Requests.KalturaRequest.SetCompletion` | sources/ngx/src/api/kaltura-request.ts:27-30 | replaces the callback, changes nothing else and returns the same request |
| `Requests.KalturaRequest.HandleResponse` | sources/ngx/src/api/kaltura-request.ts:47-106 | returns the response `Handled` describes for the request's configuration; if a callback is set it is invoked exactly once with that response and the log records what the call did, and the returned response is the same whether the callback returned or threw; otherwise nothing is delivered |
| `RequestProperties.UnwrapPriority` | sources/ngx/src/api/kaltura-request.ts:33-44 | with the flag on and a truthy payload: unwrapping throws exactly when the payload, or its truthy `result`, shadows `hasOwnProperty`; otherwise `result.error` is chosen when `result` is an own key with a truthy value owning `error`, else `result` whenever it is an own key, else `error` when it is an own key, else the payload itself |
| `RequestProperties.NestedErrorEnvelope` | sources/ngx/src/api/kaltura-request.ts:34-36 | with the nested-response flag on, `{result: {error: e}}` unwraps to `e` |
| `RequestProperties.ResultEnvelope` | sources/ngx/src/api/kaltura-request.ts:37-39 | with the nested-response flag on, `{result: r}` unwraps to `r` when `r` owns neither an `error` nor a `hasOwnProperty` key |
| `RequestProperties.ErrorEnvelope` | sources/ngx/src/api/kaltura-request.ts:40-42 | with the nested-response flag on, `{error: e}` unwraps to `e` |
| `RequestProperties.InstancePassesThrough` | sources/ngx/src/api/kaltura-request.ts:55-59 | an unwrapped `KalturaAPIException` instance triggers no deserialiser call and is the response's error unchanged, with no result, for every deserialiser |
| `RequestProperties.FaultShapeWins` | sources/ngx/src/api/kaltura-request.ts:60-78 | a truthy non-instance payload tagged `objectType: 'KalturaAPIException'` is deserialised with type `'o'` and subtype `KalturaAPIException`; any other one with the configured type and subtype |
| `RequestProperties.FaultShapeIgnoresConfiguration` | sources/ngx/src/api/kaltura-request.ts:60-68 | for a fault-shaped payload the response object is the same whatever type the request was configured with |
| `RequestProperties.FalsyPayloadIsNull` | sources/ngx/src/api/kaltura-request.ts:53-55 | a falsy payload is never deserialised; the response object stays `null` |
| `RequestProperties.NothingUsable` | sources/ngx/src/api/kaltura-request.ts:81-88 | a falsy response object gives `client::response_type_error` with the type/subtype message for a non-void request, and gives that falsy value as the result, with no error, for a `'v'` request |
| `RequestProperties.MessageNamesTypes` | sources/ngx/src/api/kaltura-request.ts:82 | the `client::response_type_error` message contains the expected type and the expected subtype (`undefined` when there is none) |
| `RequestProperties.DeserialisedExceptionIsError` | sources/ngx/src/api/kaltura-request.ts:83-85 | a deserialised `KalturaAPIException` goes to the error slot and the result stays unset |
| `RequestProperties.ThrownBecomesGeneralError` | sources/ngx/src/api/kaltura-request.ts:51-92 | an exception thrown while unwrapping or deserialising yields exactly the error `client::general_error` with that exception's message and no result |
| `RequestProperties.FlagOnlyUnwraps` | sources/ngx/src/api/kaltura-request.ts:32-52 | the nested-response flag affects handling only through unwrapping: handling with the flag on equals handling the unwrapped payload with the flag off |
| `RequestProperties.ErrorOrigins` | sources/ngx/src/api/kaltura-request.ts:81-91 | a response carries error `e` exactly when `e` is `client::general_error` with the message of an exception thrown while unwrapping or deserialising, or `client::response_type_error` with the type/subtype message for a non-void request whose response object is falsy, or an exception object the pipeline produced |
| `RequestProperties.HandledGuaranteesAreExact` | sources/ngx/src/api/kaltura-request.ts:81-95 | every response that holds no exception as its result, no result beside an error, and for a non-void request exactly one of an error and a truthy result, is returned for some payload and some deserialiser, so the guarantees of `Requests.Handled` are the tightest ones |
| `RequestProperties.ItemExample` | sources/ngx/src/api/kaltura-request.ts:34-87 | with nested responses on, `{result: {objectType: "Item", id: 5}}` for an `'o'`/`Item` request gives the deserialised item as the result and no error |
| `RequestProperties.FaultExample` | sources/ngx/src/api/kaltura-request.ts:40-85 | with nested responses on, `{error: {objectType: "KalturaAPIException", code: "X", message: "bad"}}` gives the deserialised exception as the error and no result |

## Left out

- The internals of `_parseResponseProperty` and of the base class `KalturaRequestBase` are not part of this model. The deserialiser is an uninterpreted parameter that returns a value or throws. Its constant path argument `""` is dropped.
- The request parameters passed to the base constructor are not modelled; they play no part in response handling.
- `_responseConstructor` is left out. It exists only to force a bundler import and has no behaviour.
- The global `kalturaClientConfig` is not modelled. Its `response.nestedResponse` flag is a parameter of `HandleResponse`.
- The construction of `KalturaResponse` and `KalturaAPIException` objects is not modelled. They are plain values carrying a result and error, or a code and message. Object identity of the returned response is therefore equality of values.
- The type parameter `T` is not modelled. Results are untyped payload values.
- The callback's own effects are not modelled, nor is a callback that re-enters the request. Only whether it returned or threw is kept.
- Exceptions are modelled as JavaScript `Error` objects with a message. A thrown value without a `message` (`throw null`, `throw "text"`) is not modelled; for `null`, `ex.message` would itself throw from the catch block.
- Engine-specific TypeError wording is not modelled. A constant stands for it.
- Numbers are integers, so `NaN` and `-0` (both falsy) are not modelled.
- Getters, proxies and prototype-chain properties of payload objects are not modelled. A payload is a parsed JSON value or an exception instance.
