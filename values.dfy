/**
 The slice of Python's value model that the handler's configuration needs:
 the values a configuration dictionary may hold, truthiness (`if value:`),
 `callable(value)` and `dict.get(key)`.
 */
module Values {

  datatype Option<T> = None | Some(value: T)

  /**
   A configuration value. `ObjectValue` stands for any other Python object
   (a function, a class, an authentication policy, a schema column, ...):
   its identity is opaque, and whether it is truthy and whether it is
   callable are facts about the object that the model takes as given.
   */
  datatype Value =
    | NoneValue
    | BoolValue(b: bool)
    | IntValue(i: int)
    | StrValue(s: string)
    | ListValue(items: seq<Value>)
    | ObjectValue(id: nat, truthy: bool, callable: bool)

  /** A configuration dictionary, keyed by setting name. */
  type Config = map<string, Value>

  /** Python truthiness: `None`, `False`, `0`, `''` and `[]` are falsy. */
  predicate Truthy(v: Value) {
    match v
    case NoneValue => false
    case BoolValue(b) => b
    case IntValue(i) => i != 0
    case StrValue(s) => |s| > 0
    case ListValue(items) => |items| > 0
    case ObjectValue(_, truthy, _) => truthy
  }

  /** Python's `callable(v)`: only objects can be called; which ones is abstract. */
  predicate IsCallable(v: Value) {
    v.ObjectValue? && v.callable
  }

  /** `config.get(key)`: the stored value, or `None` when the key is absent. */
  function Get(config: Config, key: string): Value {
    if key in config then config[key] else NoneValue
  }
}
