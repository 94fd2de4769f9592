/**
 * The dynamically typed values the client passes around: the arguments its
 * callers hand it (a node UUID, IPMI credentials, rule conditions, a version
 * specifier), and JSON bodies sent and received. Also the exceptions the client
 * raises, as one closed datatype, and the Option/Result wrappers.
 */
module Values {

  /** A Python value as far as the client inspects it: None, bool, int, str, list (or tuple) and dict. */
  datatype Value =
    | Null
    | Bool(b: bool)
    | Int(i: int)
    | Str(s: string)
    | List(items: seq<Value>)
    | Dict(fields: map<string, Value>)

  /** The exception kinds the client raises, with the data they carry. */
  datatype Error =
    | TypeError
    | ValueError
    | KeyError
    | UnicodeDecodeError
    | ConnectionError
    | ClientError(status: int, message: Value)
    | VersionNotSupported(expected: seq<int>, minimum: seq<int>, maximum: seq<int>)

  datatype Option<T> = None | Some(value: T)

  datatype Result<T> = Ok(value: T) | Err(error: Error) {
    predicate IsFailure() { Err? }

    function PropagateFailure<U>(): Result<U>
      requires Err?
    {
      Err(error)
    }

    function Extract(): T
      requires Ok?
    {
      value
    }
  }

  /** Python truthiness: None, False, 0 and empty containers are false. */
  predicate Truthy(v: Value) {
    match v
    case Null => false
    case Bool(b) => b
    case Int(i) => i != 0
    case Str(s) => s != []
    case List(items) => items != []
    case Dict(fields) => fields != map[]
  }

  /** `isinstance(v, int)` and the integer it denotes; a Python bool is an int. */
  function AsInt(v: Value): Option<int> {
    match v
    case Int(i) => Some(i)
    case Bool(b) => Some(if b then 1 else 0)
    case _ => None
  }

  /** `v[key]` with a string key: only a dict can be indexed by a string. */
  function Subscript(v: Value, key: string): Result<Value> {
    match v
    case Dict(fields) => if key in fields then Ok(fields[key]) else Err(KeyError)
    case _ => Err(TypeError)
  }
}
