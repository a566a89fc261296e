/** Properties of the response pipeline of `Requests`, one lemma per promise
    the request makes about unwrapping, classification and delivery. */
module RequestProperties {
  import opened Wrappers
  import opened JsValues
  import opened Requests

  /** With nested responses enabled and a truthy payload, unwrapping follows a
      fixed priority: `result.error`, then `result` (even a falsy one), then
      `error`, then the payload itself.  The two `hasOwnProperty` calls on the
      payload and on its truthy `result` are the only ones that can throw. */
  lemma UnwrapPriority(response: Json)
    requires Truthy(response)
    ensures UnwrapResponse(true, response).Failure? <==>
              Shadowed(response) || (HasOwn(response, "result") && Truthy(Get(response, "result")) && Shadowed(Get(response, "result")))
    ensures (!Shadowed(response) && HasOwn(response, "result") && Truthy(Get(response, "result"))
             && !Shadowed(Get(response, "result")) && HasOwn(Get(response, "result"), "error"))
            ==> UnwrapResponse(true, response) == Success(Get(Get(response, "result"), "error"))
    ensures (!Shadowed(response) && HasOwn(response, "result") && !Shadowed(Get(response, "result"))
             && !(Truthy(Get(response, "result")) && HasOwn(Get(response, "result"), "error")))
            ==> UnwrapResponse(true, response) == Success(Get(response, "result"))
    ensures (!Shadowed(response) && !HasOwn(response, "result") && HasOwn(response, "error"))
            ==> UnwrapResponse(true, response) == Success(Get(response, "error"))
    ensures (!Shadowed(response) && !HasOwn(response, "result") && !HasOwn(response, "error"))
            ==> UnwrapResponse(true, response) == Success(response)
  {
  }

  /** The envelope `{result: {error: e}}` yields `e`. */
  lemma NestedErrorEnvelope(e: Json)
    ensures UnwrapResponse(true, JObj(map["result" := JObj(map["error" := e])])) == Success(e)
  {
  }

  /** The envelope `{result: r}` yields `r` when `r` carries no own `error`. */
  lemma ResultEnvelope(r: Json)
    requires !HasOwn(r, "error") && !Shadowed(r)
    ensures UnwrapResponse(true, JObj(map["result" := r])) == Success(r)
  {
  }

  /** The envelope `{error: e}` yields `e`. */
  lemma ErrorEnvelope(e: Json)
    ensures UnwrapResponse(true, JObj(map["error" := e])) == Success(e)
  {
  }

  /** An exception instance that reaches classification is the error of the
      response as it is, whatever the deserialiser would have done with it. */
  lemma InstancePassesThrough(nestedResponse: bool, configured: ParseSpec, parse: Deserializer, response: Json, e: ApiException)
    requires UnwrapResponse(nestedResponse, response) == Success(JException(e))
    ensures ParseRequest(configured, Classify(JException(e))) == None
    ensures Handled(nestedResponse, configured, parse, response) == KalturaResponse(JUndefined, Some(e))
  {
  }

  /** A truthy payload tagged `objectType: 'KalturaAPIException'` is
      deserialised as the exception type whatever type the request expects;
      every other truthy payload that is not an instance uses the configured type. */
  lemma FaultShapeWins(configured: ParseSpec, payload: Json)
    requires Truthy(payload) && !payload.JException?
    ensures Get(payload, "objectType") == JStr(FAULT_TYPE) ==> ParseRequest(configured, Classify(payload)) == Some(FAULT_SPEC)
    ensures Get(payload, "objectType") != JStr(FAULT_TYPE) ==> ParseRequest(configured, Classify(payload)) == Some(configured)
  {
  }

  /** A falsy payload is never deserialised and becomes a `null` response object. */
  lemma FalsyPayloadIsNull(configured: ParseSpec, parse: Deserializer, payload: Json)
    requires !Truthy(payload)
    ensures ParseRequest(configured, Classify(payload)) == None
    ensures ResponseObject(configured, parse, payload) == Success(JNull)
  {
  }

  /** Nothing usable: a non-void request reports `client::response_type_error`
      naming its type and subtype, a void request returns the falsy value. */
  lemma NothingUsable(configured: ParseSpec, obj: Json)
    requires !Truthy(obj)
    ensures configured.kind != VOID_TYPE ==>
              Settle(configured, Success(obj)) == KalturaResponse(JUndefined, Some(ApiException(RESPONSE_TYPE_ERROR, ResponseTypeMessage(configured))))
    ensures configured.kind == VOID_TYPE ==> Settle(configured, Success(obj)) == KalturaResponse(obj, None)
  {
  }

  /** An exception thrown while unwrapping or deserialising becomes
      `client::general_error` with the exception's message. */
  lemma ThrownBecomesGeneralError(nestedResponse: bool, configured: ParseSpec, parse: Deserializer, response: Json, message: string)
    requires UnwrapResponse(nestedResponse, response) == Failure(message)
             || (exists payload :: UnwrapResponse(nestedResponse, response) == Success(payload)
                                   && ResponseObject(configured, parse, payload) == Failure(message))
    ensures Handled(nestedResponse, configured, parse, response) == KalturaResponse(JUndefined, Some(ApiException(GENERAL_ERROR, message)))
  {
  }

  /** A deserialised value that is an exception goes to the error slot. */
  lemma DeserialisedExceptionIsError(configured: ParseSpec, e: ApiException)
    ensures Settle(configured, Success(JException(e))) == KalturaResponse(JUndefined, Some(e))
  {
  }

  /** `word` occurs in `text`. */
  ghost predicate Mentions(text: string, word: string) {
    exists i :: 0 <= i <= |text| && word <= text[i..]
  }

  /** The `client::response_type_error` message names the expected type and
      subtype (`undefined` for a request without one). */
  lemma MessageNamesTypes(spec: ParseSpec)
    ensures Mentions(ResponseTypeMessage(spec), spec.kind)
    ensures Mentions(ResponseTypeMessage(spec), SubTypeText(spec.subType))
  {
    var prefix := "server response is undefined, expected '";
    var sub := SubTypeText(spec.subType);
    var message := ResponseTypeMessage(spec);
    assert message == prefix + spec.kind + " / " + sub + "'";
    assert spec.kind <= message[|prefix|..];
    var at := |prefix| + |spec.kind| + 3;
    assert sub <= message[at..];
  }

  /** The nested-response flag only changes which payload is interpreted:
      handling a payload with the flag on is handling its unwrapped form with
      the flag off. */
  lemma FlagOnlyUnwraps(configured: ParseSpec, parse: Deserializer, response: Json, payload: Json)
    requires UnwrapResponse(true, response) == Success(payload)
    ensures Handled(true, configured, parse, response) == Handled(false, configured, parse, payload)
  {
  }

  /** A payload of the exception's shape yields the same response object
      whatever type the request was configured with. */
  lemma FaultShapeIgnoresConfiguration(c1: ParseSpec, c2: ParseSpec, parse: Deserializer, payload: Json)
    requires Classify(payload) == FaultShaped
    ensures ResponseObject(c1, parse, payload) == ResponseObject(c2, parse, payload) == parse(FAULT_SPEC, payload)
  {
  }

  /** A request expecting `Item` objects, with nested responses on, given
      `{result: {objectType: "Item", id: 5}}`, returns what the deserialiser
      built from the inner object and no error. */
  lemma ItemExample(parse: Deserializer, item: Json)
    requires parse(ParseSpec("o", Some("Item")), JObj(map["objectType" := JStr("Item"), "id" := JNum(5)])) == Success(item)
    requires Truthy(item) && !item.JException?
    ensures Handled(true, ParseSpec("o", Some("Item")), parse,
                    JObj(map["result" := JObj(map["objectType" := JStr("Item"), "id" := JNum(5)])]))
            == KalturaResponse(item, None)
  {
  }

  /** The same request given `{error: {objectType: "KalturaAPIException",
      code: "X", message: "bad"}}` returns the deserialised exception as its
      error and no result. */
  lemma FaultExample(parse: Deserializer)
    requires parse(FAULT_SPEC, JObj(map["objectType" := JStr(FAULT_TYPE), "code" := JStr("X"), "message" := JStr("bad")]))
             == Success(JException(ApiException("X", "bad")))
    ensures Handled(true, ParseSpec("o", Some("Item")), parse,
                    JObj(map["error" := JObj(map["objectType" := JStr(FAULT_TYPE), "code" := JStr("X"), "message" := JStr("bad")])]))
            == KalturaResponse(JUndefined, Some(ApiException("X", "bad")))
  {
  }

  /** Interpreting `response` threw `message`, while unwrapping or while deserialising. */
  ghost predicate ThrewWith(nestedResponse: bool, configured: ParseSpec, parse: Deserializer, response: Json, message: string) {
    || UnwrapResponse(nestedResponse, response) == Failure(message)
    || exists payload :: UnwrapResponse(nestedResponse, response) == Success(payload)
                         && ResponseObject(configured, parse, payload) == Failure(message)
  }

  /** Interpreting `response` produced the response object `obj` without throwing. */
  ghost predicate InterpretedAs(nestedResponse: bool, configured: ParseSpec, parse: Deserializer, response: Json, obj: Json) {
    exists payload :: UnwrapResponse(nestedResponse, response) == Success(payload)
                      && ResponseObject(configured, parse, payload) == Success(obj)
  }

  /** Every error a response carries has one of three origins, and each origin
      yields that error: `client::general_error` with the message of an
      exception thrown while interpreting; `client::response_type_error` for a
      non-void request whose response object is falsy; or an exception object
      the pipeline produced (passed through or deserialised). */
  lemma ErrorOrigins(nestedResponse: bool, configured: ParseSpec, parse: Deserializer, response: Json, e: ApiException)
    ensures Handled(nestedResponse, configured, parse, response).error == Some(e) <==>
              || (e.code == GENERAL_ERROR && ThrewWith(nestedResponse, configured, parse, response, e.message))
              || (configured.kind != VOID_TYPE && e == ApiException(RESPONSE_TYPE_ERROR, ResponseTypeMessage(configured))
                  && exists obj :: InterpretedAs(nestedResponse, configured, parse, response, obj) && !Truthy(obj))
              || InterpretedAs(nestedResponse, configured, parse, response, JException(e))
  {

  }

  /** The guarantees of `Handled` are the only constraints on a response: any
      response that holds no exception as its result, no result beside an
      error, and (for a non-void request) exactly one of an error and a truthy
      result is what some payload and some deserialiser produce. */
  lemma HandledGuaranteesAreExact(nestedResponse: bool, configured: ParseSpec, r: KalturaResponse)
    requires r.error.Some? ==> r.result == JUndefined
    requires !r.result.JException?
    requires configured.kind != VOID_TYPE ==> (r.error.Some? <==> !Truthy(r.result))
    ensures exists parse: Deserializer, response :: Handled(nestedResponse, configured, parse, response) == r
  {
    var parse: Deserializer := (spec: ParseSpec, payload: Json) => Success(r.result);
    if r.error.Some? {
      // an exception instance passes through as the error
      assert Handled(nestedResponse, configured, parse, JException(r.error.value)) == r;
    } else {
      // an empty array has no envelope keys and is deserialised with the configured type
      assert Handled(nestedResponse, configured, parse, JArr([])) == r;
    }
  }
}
