/**
 * `request(url, options)`: how the XMLHttpRequest is prepared and how each of its
 * outcomes becomes the one response shape `{url, data, xhr, status}`.
 */
module Request {
  import opened Wrappers
  import opened JsValue

  /** A header object's own properties, in insertion order: (name, value). */
  type Headers = seq<(string, string)>

  /** The options argument (`verb` is `options.method`); `headers` is empty when the caller gave none. */
  datatype Options = Options(verb: Option<string>, headers: Headers, body: Value, responseType: Option<string>)

  /** What is handed to the XHR: `open(method, url)`, `responseType`, the `setRequestHeader` calls in order, `send(body)`. */
  datatype Prepared = Prepared(verb: string, url: string, xhrResponseType: Option<string>, headers: Headers, body: Value)

  /** The transport as the handlers read it: its `status`, `response` and `responseText`. */
  datatype Xhr = Xhr(handle: nat, status: nat, response: Value, responseText: string)

  /** Which of the XHR handlers runs. */
  datatype XhrEvent = Load | Error | Abort | Timeout

  /** The object `getResponse` builds; it is both the resolution and the rejection value. */
  datatype Response = Response(url: string, data: Value, xhr: nat, status: int)

  const CONTENT_TYPE := "Content-Type"
  const APPLICATION_JSON := "application/json"

  /** `binaryTypes.includes(responseType)`. */
  predicate IsBinary(responseType: Option<string>)
  {
    responseType == Some("blob") || responseType == Some("arraybuffer")
  }

  function Names(headers: Headers): (names: seq<string>)
    ensures |names| == |headers|
    ensures forall i :: 0 <= i < |headers| ==> names[i] == headers[i].0
    decreases |headers|
  {
    if headers == [] then [] else [headers[0].0] + Names(headers[1..])
  }

  predicate Distinct(names: seq<string>)
  {
    forall i, j :: 0 <= i < j < |names| ==> names[i] != names[j]
  }

  /** No property name occurs twice, as in any JavaScript object. */
  predicate UniqueNames(headers: Headers)
  {
    Distinct(Names(headers))
  }

  /** `headers[name]`. */
  function Lookup(headers: Headers, name: string): Option<string>
    decreases |headers|
  {
    if headers == [] then None
    else if headers[0].0 == name then Some(headers[0].1)
    else Lookup(headers[1..], name)
  }

  /**
   * `headers[name] = value` on an object: an existing property keeps its place and
   * takes the new value, a new one goes last.
   */
  function SetHeader(headers: Headers, name: string, value: string): Headers
    decreases |headers|
  {
    if headers == [] then [(name, value)]
    else if headers[0].0 == name then [(name, value)] + headers[1..]
    else [headers[0]] + SetHeader(headers[1..], name, value)
  }

  /** Setting a header reads back the new value under that name and leaves every other name as it was. */
  lemma {:induction false} SetHeaderLookup(headers: Headers, name: string, value: string)
    ensures Lookup(SetHeader(headers, name, value), name) == Some(value)
    ensures forall n :: n != name ==> Lookup(SetHeader(headers, name, value), n) == Lookup(headers, n)
    decreases |headers|
  {
    if headers != [] && headers[0].0 != name {
      SetHeaderLookup(headers[1..], name, value);
    }
  }

  /** Setting a header keeps the names and their order, and appends the name when it is new. */
  lemma {:induction false} SetHeaderNames(headers: Headers, name: string, value: string)
    ensures Names(SetHeader(headers, name, value)) == if name in Names(headers) then Names(headers) else Names(headers) + [name]
    decreases |headers|
  {
    if headers == [] {
    } else if headers[0].0 == name {
      assert Names([(name, value)] + headers[1..]) == Names(headers);
    } else {
      var tail := headers[1..];
      SetHeaderNames(tail, name, value);
      var rest := SetHeader(tail, name, value);
      assert Names(headers) == [headers[0].0] + Names(tail);
      assert Names([headers[0]] + rest) == [headers[0].0] + Names(rest);
      assert name in Names(headers) <==> name in Names(tail);
    }
  }

  /** Setting a header on an object keeps its property names distinct. */
  lemma SetHeaderUnique(headers: Headers, name: string, value: string)
    requires UniqueNames(headers)
    ensures UniqueNames(SetHeader(headers, name, value))
  {
    SetHeaderNames(headers, name, value);
  }

  /**
   * The part of `request` before `send`: the method defaults to GET, the caller's
   * headers are copied, and a plain-object body is JSON-serialised with
   * `Content-Type: application/json` set after the copy, so it overrides the
   * caller's. `stringify` stands for `JSON.stringify`.
   */
  function Prepare(url: string, options: Options, stringify: Value -> string): (p: Prepared)
    requires UniqueNames(options.headers)
    ensures p.url == url
    ensures p.verb == if options.verb.Some? && options.verb.value != "" then options.verb.value else "GET"
    ensures p.xhrResponseType == if IsBinary(options.responseType) then options.responseType else None
    ensures UniqueNames(p.headers)
    ensures IsPlainObject(options.body) ==>
      && p.body == Str(stringify(options.body))
      && Lookup(p.headers, CONTENT_TYPE) == Some(APPLICATION_JSON)
      && (forall n :: n != CONTENT_TYPE ==> Lookup(p.headers, n) == Lookup(options.headers, n))
      && Names(p.headers) == if CONTENT_TYPE in Names(options.headers) then Names(options.headers) else Names(options.headers) + [CONTENT_TYPE]
    ensures !IsPlainObject(options.body) ==> p.body == options.body && p.headers == options.headers
  {
    var verb := if options.verb.Some? && options.verb.value != "" then options.verb.value else "GET";
    var xhrType := if IsBinary(options.responseType) then options.responseType else None;
    SetHeaderLookup(options.headers, CONTENT_TYPE, APPLICATION_JSON);
    SetHeaderNames(options.headers, CONTENT_TYPE, APPLICATION_JSON);
    SetHeaderUnique(options.headers, CONTENT_TYPE, APPLICATION_JSON);
    if Truthy(options.body) && IsPlainObject(options.body) then
      Prepared(verb, url, xhrType, SetHeader(options.headers, CONTENT_TYPE, APPLICATION_JSON), Str(stringify(options.body)))
    else
      Prepared(verb, url, xhrType, options.headers, options.body)
  }

  /**
   * The `data` of `getResponse`: the raw `response` for binary types, the text
   * otherwise; for `json` the text is parsed, and a failed parse keeps the text.
   * `parse` stands for `JSON.parse`, None when it throws.
   */
  function ResponseData(responseType: Option<string>, xhr: Xhr, parse: string -> Option<Value>): (data: Value)
    ensures IsBinary(responseType) ==> data == xhr.response
    ensures responseType == Some("json") && parse(xhr.responseText).Some? ==> data == parse(xhr.responseText).value
    ensures responseType == Some("json") && parse(xhr.responseText).None? ==> data == Str(xhr.responseText)
    ensures !IsBinary(responseType) && responseType != Some("json") ==> data == Str(xhr.responseText)
  {
    var data := if IsBinary(responseType) then xhr.response else Str(xhr.responseText);
    if responseType == Some("json") then
      match parse(xhr.responseText)
      case Some(v) => v
      case None => data
    else data
  }

  /** A failed JSON parse gives the same data as a plain text request. */
  lemma JsonFallsBackToText(xhr: Xhr, parse: string -> Option<Value>)
    requires parse(xhr.responseText).None?
    ensures ResponseData(Some("json"), xhr, parse) == ResponseData(None, xhr, parse)
    ensures ResponseData(Some("json"), xhr, parse) == ResponseData(Some("text"), xhr, parse)
  {
  }

  /** Only `json` consults the parser, and binary types never read the text. */
  lemma DataIndependence(responseType: Option<string>, xhr: Xhr, xhr': Xhr, parse: string -> Option<Value>, parse': string -> Option<Value>)
    requires responseType != Some("json")
    ensures ResponseData(responseType, xhr, parse) == ResponseData(responseType, xhr, parse')
    ensures IsBinary(responseType) && xhr.response == xhr'.response ==>
      ResponseData(responseType, xhr, parse) == ResponseData(responseType, xhr', parse')
  {
  }

  /** The status the handlers pass to `getResponse`: the transport's status, 200 in place of 0, on load; -1 otherwise. */
  function Status(event: XhrEvent, xhr: Xhr): int
  {
    if event == Load then (if xhr.status != 0 then xhr.status else 200) else -1
  }

  /**
   * How the promise of `request` settles: `onload` resolves unless the status is
   * above 300; `onerror`, `onabort` and `ontimeout` always reject. Both carry the
   * same response object.
   */
  function Settle(url: string, options: Options, xhr: Xhr, event: XhrEvent, parse: string -> Option<Value>): (r: Result<Response, Response>)
    ensures var res := if r.Success? then r.value else r.error;
      && res.url == url
      && res.xhr == xhr.handle
      && res.data == ResponseData(options.responseType, xhr, parse)
    ensures event == Load ==>
      var res := if r.Success? then r.value else r.error;
      && res.status == (if xhr.status == 0 then 200 else xhr.status)
      && (r.Failure? <==> res.status > 300)
    ensures event != Load ==> r.Failure? && r.error.status == -1
  {
    var res := Response(url, ResponseData(options.responseType, xhr, parse), xhr.handle, Status(event, xhr));
    if event == Load then
      if res.status > 300 then Failure(res) else Success(res)
    else Failure(res)
  }

  /** Whatever the outcome, the promise rejects exactly when the status is -1 or above 300. */
  lemma RejectsOutsideSuccessRange(url: string, options: Options, xhr: Xhr, event: XhrEvent, parse: string -> Option<Value>)
    ensures var r := Settle(url, options, xhr, event, parse);
      var res := if r.Success? then r.value else r.error;
      && (r.Failure? <==> (res.status == -1 || res.status > 300))
      && (r.Success? <==> 1 <= res.status <= 300)
  {
  }

  /** A POST of `{a: 1}` sends the serialised object with a JSON content type, even over a caller's own Content-Type. */
  lemma JsonBodyExample(url: string, stringify: Value -> string)
    ensures var body := Obj(map["a" := Num(1.0)]);
      var p := Prepare(url, Options(Some("POST"), [(CONTENT_TYPE, "text/plain"), ("X-Token", "t")], body, None), stringify);
      && p.verb == "POST"
      && p.body == Str(stringify(body))
      && p.headers == [(CONTENT_TYPE, APPLICATION_JSON), ("X-Token", "t")]
  {
  }

  /** A 404 rejects with status 404; a `file:` load reporting 0 resolves with 200; a network error rejects with -1. */
  lemma StatusExamples(url: string, options: Options, parse: string -> Option<Value>, handle: nat, text: string)
    ensures Settle(url, options, Xhr(handle, 404, Undefined, text), Load, parse).Failure?
    ensures Settle(url, options, Xhr(handle, 404, Undefined, text), Load, parse).error.status == 404
    ensures Settle(url, options, Xhr(handle, 0, Undefined, text), Load, parse).Success?
    ensures Settle(url, options, Xhr(handle, 0, Undefined, text), Load, parse).value.status == 200
    ensures Settle(url, options, Xhr(handle, 200, Undefined, text), Timeout, parse) ==
      Failure(Response(url, ResponseData(options.responseType, Xhr(handle, 200, Undefined, text), parse), handle, -1))
  {
  }

  /** With `responseType: 'json'`, a body that does not parse resolves with the raw text instead of failing. */
  lemma LenientJsonExample(url: string, handle: nat, text: string, parse: string -> Option<Value>)
    requires parse(text).None?
    ensures Settle(url, Options(None, [], Undefined, Some("json")), Xhr(handle, 200, Undefined, text), Load, parse) ==
      Success(Response(url, Str(text), handle, 200))
  {
  }
}
