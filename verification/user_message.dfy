/** `toUserMessage` (src/utils/toUserMessage.ts): any thrown or rejected
    value turned into text for the user. It is total: every value gets a
    string and nothing is thrown. */
module UserMessage {
  import opened JsValues

  const DefaultMessage: string := "An unexpected error occurred. Please try again."

  /** A non-null object (not an `Error`) that has a `message` property.
      Functions do not qualify: their `typeof` is `'function'`. */
  predicate HasMessageObject(error: JsValue) {
    error.Object? && "message" in error.props
  }

  function ToUserMessage(error: JsValue): (r: string)
    ensures error.Str? ==> r == error.s
    ensures error.ErrorInstance? ==> r == error.message
    ensures HasMessageObject(error) ==> r == ToJsString(error.props["message"])
    ensures !error.Str? && !error.ErrorInstance? && !HasMessageObject(error) ==> r == DefaultMessage
  {
    if error.Str? then error.s
    else if error.InstanceOfError() then error.message
    else if error.Truthy() && error.TypeofObject() && error.HasProperty("message") then
      ToJsString(error.Get("message"))
    else DefaultMessage
  }

  /** A message is its own message: feeding the result back changes nothing. */
  lemma Idempotent(error: JsValue)
    ensures ToUserMessage(Str(ToUserMessage(error))) == ToUserMessage(error)
  {
  }

  /** The `Error` branch comes first, and the generic object branch would
      have produced the same text for an `Error`, whose message is a string. */
  lemma ErrorBranchAgreesWithObjectBranch(error: JsValue)
    requires error.ErrorInstance?
    ensures ToUserMessage(error) == ToJsString(error.Get("message"))
  {
  }

  /** For an `Error` the message agrees with what the `catch` blocks of the
      Shopify client report, whatever their fallback text. */
  lemma AgreesWithCaughtMessage(error: JsValue, fallback: string)
    requires error.ErrorInstance?
    ensures ToUserMessage(error) == CaughtMessage(error, fallback)
  {
  }

  /** Values without a usable message: `null`, `undefined`, numbers,
      booleans, functions and objects lacking `message`. */
  lemma NoMessageGivesDefault()
    ensures ToUserMessage(Null) == DefaultMessage
    ensures ToUserMessage(Undefined) == DefaultMessage
    ensures ToUserMessage(Number("42")) == DefaultMessage
    ensures ToUserMessage(Function("() => {}", map["message" := Str("x")])) == DefaultMessage
    ensures ToUserMessage(Object(map[])) == DefaultMessage
  {
  }

  /** An object whose `message` is not a string is rendered with `String()`. */
  lemma NonStringMessageIsStringified()
    ensures ToUserMessage(Object(map["message" := Object(map[])])) == "[object Object]"
    ensures ToUserMessage(Object(map["message" := Undefined])) == "undefined"
    ensures ToUserMessage(Object(map["message" := ErrorInstance("TypeError", "boom", map[])])) == "TypeError: boom"
    ensures ToUserMessage(Object(map["message" := ErrorInstance("Error", "", map[])])) == "Error"
  {
  }
}
