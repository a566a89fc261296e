/** The response-interpretation pipeline of a typed Kaltura API request:
    envelope unwrapping, shape classification, delegated deserialisation and
    delivery of one `KalturaResponse` to an optional completion callback. */
module Requests {
  import opened Wrappers
  import opened JsValues

  /** The `{type, subType}` pair handed to the deserialiser; `subType` is
      optional and `None` stands for `undefined`. */
  datatype ParseSpec = ParseSpec(kind: string, subType: Option<string>)

  /** The inherited `_parseResponseProperty("", spec, value)`: it builds a typed
      object graph or throws (`Failure`). */
  type Deserializer = (ParseSpec, Json) -> Result<Json>

  /** The outcome of one request: `result` is `JUndefined` when not set. */
  datatype KalturaResponse = KalturaResponse(result: Json, error: Option<ApiException>)

  /** What a completion callback did when invoked: it returned or it threw. */
  datatype CallbackOutcome = Returned | Threw(message: string)

  /** A completion callback, known only by what it does with a response. */
  datatype Completion = Completion(invoke: KalturaResponse -> CallbackOutcome)

  const FAULT_TYPE := "KalturaAPIException"
  const VOID_TYPE := "v"
  const RESPONSE_TYPE_ERROR := "client::response_type_error"
  const GENERAL_ERROR := "client::general_error"

  /** The fixed deserialisation request for a fault-shaped payload. */
  const FAULT_SPEC := ParseSpec("o", Some(FAULT_TYPE))

  /** A template literal renders a missing subtype as the word `undefined`. */
  function SubTypeText(subType: Option<string>): string {
    match subType
    case Some(s) => s
    case None => "undefined"
  }

  function ResponseTypeMessage(spec: ParseSpec): string {
    "server response is undefined, expected '" + spec.kind + " / " + SubTypeText(spec.subType) + "'"
  }

  /** `_unwrapResponse`: with nested responses enabled, picks the effective
      payload out of a `{result: {error}}`, `{result}` or `{error}` envelope, in
      that order; the `hasOwnProperty` calls it makes may throw. */
  function UnwrapResponse(nestedResponse: bool, response: Json): (r: Result<Json>)
    ensures !nestedResponse ==> r == Success(response)
    ensures !Truthy(response) ==> r == Success(response)
    ensures r.Failure? ==> r.error == NOT_A_FUNCTION
  {
    if nestedResponse && Truthy(response) then
      var hasResult :- HasOwnProperty(response, "result");
      var inner := Get(response, "result");
      if hasResult && Truthy(inner) then
        var hasNestedError :- HasOwnProperty(inner, "error");
        if hasNestedError then Success(Get(inner, "error")) else Success(inner)
      else if hasResult then Success(inner)
      // `response` already answered one `hasOwnProperty` call, so the next cannot throw
      else if HasOwn(response, "error") then Success(Get(response, "error"))
      else Success(response)
    else
      Success(response)
  }

  /** The four shapes `handleResponse` tells apart, tested in this order. */
  datatype Shape =
    | Unusable                      // falsy: no deserialiser call
    | Instance(ex: ApiException)    // already a `KalturaAPIException` object
    | FaultShaped                   // `objectType === 'KalturaAPIException'`
    | Ordinary                      // anything else truthy

  function Classify(payload: Json): Shape {
    if !Truthy(payload) then Unusable
    else if payload.JException? then Instance(payload.ex)
    else if Get(payload, "objectType") == JStr(FAULT_TYPE) then FaultShaped
    else Ordinary
  }

  /** The deserialiser call a payload of this shape receives, if any. */
  function ParseRequest(configured: ParseSpec, shape: Shape): Option<ParseSpec> {
    match shape
    case Unusable => None
    case Instance(_) => None
    case FaultShaped => Some(FAULT_SPEC)
    case Ordinary => Some(configured)
  }

  /** The `responseObject` of the source: `null` when nothing usable arrived,
      the instance itself, or what the deserialiser made of the payload. */
  function ResponseObject(configured: ParseSpec, parse: Deserializer, payload: Json): Result<Json> {
    match ParseRequest(configured, Classify(payload))
    case Some(spec) => parse(spec, payload)
    case None => if Classify(payload).Instance? then Success(payload) else Success(JNull)
  }

  /** The response built from the response object, or from the exception that
      interrupted unwrapping or deserialisation. */
  function Settle(configured: ParseSpec, responseObject: Result<Json>): KalturaResponse {
    match responseObject
    case Failure(message) => KalturaResponse(JUndefined, Some(ApiException(GENERAL_ERROR, message)))
    case Success(obj) =>
      if !Truthy(obj) && configured.kind != VOID_TYPE then
        KalturaResponse(JUndefined, Some(ApiException(RESPONSE_TYPE_ERROR, ResponseTypeMessage(configured))))
      else if obj.JException? then
        KalturaResponse(JUndefined, Some(obj.ex))
      else
        KalturaResponse(obj, None)
  }

  /** What `handleResponse` returns for `response`, as a function of the
      nested-response flag, the configured type and the deserialiser.  The
      returned response never holds both a result and an error, never holds an
      exception as its result, and for a non-void request holds exactly one. */
  function Handled(nestedResponse: bool, configured: ParseSpec, parse: Deserializer, response: Json): (r: KalturaResponse)
    ensures r.error.Some? ==> r.result == JUndefined
    ensures !r.result.JException?
    ensures configured.kind != VOID_TYPE ==> (r.error.Some? <==> !Truthy(r.result))
  {
    match UnwrapResponse(nestedResponse, response)
    case Failure(message) => Settle(configured, Failure(message))
    case Success(payload) => Settle(configured, ResponseObject(configured, parse, payload))
  }

  /** A typed request: its response shape configuration and the replaceable
      completion callback. */
  class KalturaRequest {
    const responseType: string
    const responseSubType: Option<string>
    var callback: Option<Completion>
    /** Every response handed to the callback so far, in order, with what
        the callback did with it. */
    ghost var deliveries: seq<(KalturaResponse, CallbackOutcome)>

    function Configured(): ParseSpec {
      ParseSpec(responseType, responseSubType)
    }

    constructor (responseType: string, responseSubType: Option<string>)
      ensures this.responseType == responseType && this.responseSubType == responseSubType
      ensures callback == None && deliveries == []
    {
      this.responseType := responseType;
      this.responseSubType := responseSubType;
      callback := None;
      deliveries := [];
    }

    /** Replaces the callback and returns the request itself for chaining. */
    method SetCompletion(callback: Option<Completion>) returns (self: KalturaRequest)
      modifies this`callback
      ensures this.callback == callback && self == this
    {
      this.callback := callback;
      self := this;
    }

    /** Interprets `response`, hands the outcome to the callback if one is set
        (discarding anything the callback throws) and returns that outcome. */
    method HandleResponse(nestedResponse: bool, parse: Deserializer, response: Json) returns (result: KalturaResponse)
      modifies this`deliveries
      ensures result == Handled(nestedResponse, Configured(), parse, response)
      ensures deliveries == old(deliveries) + (if callback.Some? then [(result, callback.value.invoke(result))] else [])
    {
      var responseResult := JUndefined;
      var responseError: Option<ApiException> := None;
      // try {
      var thrown: Option<string> := None;
      var unwrapped := UnwrapResponse(nestedResponse, response);
      if unwrapped.Failure? {
        thrown := Some(unwrapped.error);
      } else {
        var unwrappedResponse := unwrapped.value;
        var responseObject := JNull;
        if Truthy(unwrappedResponse) {
          var parsed: Result<Json>;
          if unwrappedResponse.JException? {
            parsed := Success(unwrappedResponse);
          } else if Get(unwrappedResponse, "objectType") == JStr(FAULT_TYPE) {
            parsed := parse(FAULT_SPEC, unwrappedResponse);
          } else {
            parsed := parse(ParseSpec(responseType, responseSubType), unwrappedResponse);
          }
          if parsed.Failure? {
            thrown := Some(parsed.error);
          } else {
            responseObject := parsed.value;
          }
        }
        if thrown == None {
          if !Truthy(responseObject) && responseType != VOID_TYPE {
            var message := ResponseTypeMessage(ParseSpec(responseType, responseSubType));
            responseError := Some(ApiException(RESPONSE_TYPE_ERROR, message));
          } else if responseObject.JException? {
            responseError := Some(responseObject.ex);
          } else {
            responseResult := responseObject;
          }
        }
      }
      // } catch (ex) {
      if thrown.Some? {
        responseError := Some(ApiException(GENERAL_ERROR, thrown.value));
      }
      // }
      result := KalturaResponse(responseResult, responseError);
      if callback.Some? {
        var outcome := callback.value.invoke(result);
        deliveries := deliveries + [(result, outcome)];
        // A callback that threw (`outcome.Threw?`) is ignored by design:
        // `result` is returned either way.
      }
    }
  }
}
