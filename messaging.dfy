/** `sendMessage`: how the reply of the other context settles the returned promise. */
module Messaging {
  import opened Wrappers
  import opened JsValue

  /** What the host's `runtime.sendMessage` promise does: resolve with a reply, or reject. */
  datatype Transport = Replied(reply: Value) | TransportFailed(reason: Value)

  /** A falsy reply is read as an empty object. */
  function ReplyObject(reply: Value): Value
  {
    if Truthy(reply) then reply else Obj(map[])
  }

  /**
   * The `.then` of `sendMessage`: rejects with the reply's `error` exactly when that
   * property is truthy, and otherwise resolves with its `data` (possibly undefined).
   */
  function NormalizeReply(reply: Value): (r: Result<Value, Value>)
    ensures r.Failure? <==> reply.Obj? && "error" in reply.props && Truthy(reply.props["error"])
    ensures r.Failure? ==> r.error == reply.props["error"]
    ensures r.Success? ==> r.value == if reply.Obj? && "data" in reply.props then reply.props["data"] else Undefined
  {
    var res := ReplyObject(reply);
    var error := Prop(res, "error");
    if Truthy(error) then Failure(error) else Success(Prop(res, "data"))
  }

  /** The promise `sendMessage` returns: a transport rejection passes through unchanged. */
  function SendMessage(transport: Transport): (r: Result<Value, Value>)
    ensures transport.TransportFailed? ==> r == Failure(transport.reason)
    ensures transport.Replied? ==>
      (r.Failure? <==> Truthy(Prop(ReplyObject(transport.reply), "error")))
    ensures transport.Replied? ==> r == NormalizeReply(transport.reply)
  {
    match transport
    case TransportFailed(reason) => Failure(reason)
    case Replied(reply) => NormalizeReply(reply)
  }

  /** Every falsy reply, `null` and `undefined` among them, resolves with `undefined`. */
  lemma FalsyReplyResolvesUndefined(reply: Value)
    requires !Truthy(reply)
    ensures NormalizeReply(reply) == Success(Undefined)
  {
  }

  /** A falsy `error` (`0`, `""`, `false`, `null`) does not reject: the reply resolves with its `data`. */
  lemma FalsyErrorResolves(data: Value, error: Value)
    requires !Truthy(error)
    ensures NormalizeReply(Obj(map["data" := data, "error" := error])) == Success(data)
  {
  }

  /** `{data: 5}` resolves to 5, `{error: 'E'}` rejects with 'E', and an error wins over data. */
  lemma ReplyExamples()
    ensures SendMessage(Replied(Obj(map["data" := Num(5.0)]))) == Success(Num(5.0))
    ensures SendMessage(Replied(Obj(map["error" := Str("E")]))) == Failure(Str("E"))
    ensures SendMessage(Replied(Obj(map["data" := Num(5.0), "error" := Str("E")]))) == Failure(Str("E"))
    ensures SendMessage(Replied(Null)) == Success(Undefined)
  {
  }
}
