/** JSON values as the item endpoints and the stored documents carry them. */
module Json {

  /** A decoded JSON value. `Composite` stands for an array or an object: the model
      never looks inside one, and Python cannot hash one (a dict lookup on it raises).
      `Stamp` stands for the string `isoformat()` writes for a time `t` in whole seconds:
      `aware` when it carries a UTC offset ("+00:00"), as `datetime.now(timezone.utc)` gives,
      and not when it is a naive local time, as `datetime.now()` gives. */
  datatype Value =
    | Null
    | Bool(b: bool)
    | Int(n: int)
    | Str(s: string)
    | Stamp(t: int, aware: bool)
    | Composite(text: string)

  /** A decoded JSON object (a Python dict with string keys). */
  type Object = map<string, Value>
}
