/** A small model of the JavaScript values the front end inspects without
    knowing their type: thrown errors, `postMessage` payloads and `unknown`
    error arguments. A number is represented by the text `String(n)` gives
    for it, which is all that the modelled code ever observes of it. */
module JsValues {
  import opened Wrappers

  datatype JsValue =
    | Undefined
    | Null
    | Bool(b: bool)
    | Number(text: string)
    | Str(s: string)
      /** A plain object (not an `Error`, not callable) with its own properties. */
    | Object(props: map<string, JsValue>)
      /** An instance of `Error` (or of a subclass): its `name` ("Error",
          "TypeError", ...) and its `message` are strings. */
    | ErrorInstance(name: string, message: string, props: map<string, JsValue>)
      /** A function, with the source text `String(f)` gives for it. */
    | Function(source: string, props: map<string, JsValue>)
  {
    /** JavaScript truthiness: the operand of `if (v)` and `v && ...`. */
    predicate Truthy() {
      match this
      case Undefined => false
      case Null => false
      case Bool(b) => b
      case Number(t) => t != "0" && t != "NaN"
      case Str(s) => s != []
      case _ => true
    }

    /** `typeof v === 'object'` (which includes `null`). */
    predicate TypeofObject() {
      Null? || Object? || ErrorInstance?
    }

    /** `v instanceof Error`. */
    predicate InstanceOfError() {
      ErrorInstance?
    }

    /** `key in v` for an object `v`; an `Error` always has a `name` and a `message`. */
    predicate HasProperty(key: string) {
      match this
      case Object(p) => key in p
      case ErrorInstance(_, _, p) => key == "name" || key == "message" || key in p
      case Function(_, p) => key in p
      case _ => false
    }

    /** Property read `v[key]` on a value that is neither `undefined` nor `null`. */
    function Get(key: string): JsValue {
      match this
      case Object(p) => if key in p then p[key] else Undefined
      case ErrorInstance(n, m, p) =>
        if key == "name" then Str(n) else if key == "message" then Str(m) else if key in p then p[key] else Undefined
      case Function(_, p) => if key in p then p[key] else Undefined
      case _ => Undefined
    }
  }

  /** `String(v)` using the built-in conversions: objects use the default
      `Object.prototype.toString`, errors `Error.prototype.toString` (the
      name, the message, or both joined by ": " when neither is empty) and
      functions their source text. */
  function ToJsString(v: JsValue): string {
    match v
    case Undefined => "undefined"
    case Null => "null"
    case Bool(b) => if b then "true" else "false"
    case Number(t) => t
    case Str(s) => s
    case Object(_) => "[object Object]"
    case ErrorInstance(n, m, _) => if n == [] then m else if m == [] then n else n + ": " + m
    case Function(t, _) => t
  }

  /** The message a `catch (error)` block reports as
      `error instanceof Error ? error.message : fallback`. */
  function CaughtMessage(error: JsValue, fallback: string): string {
    if error.InstanceOfError() then error.message else fallback
  }
}
