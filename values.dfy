/** Python-level values handled by the reconciliation and submission code:
    the scalars of a flat record, dictionaries, string slicing, truthiness
    and the exceptions the code can raise. */
module Values {

  datatype Option<+T> = None | Some(value: T)

  /** A scalar field value: what json.loads yields for a flat record, plus
      the float that an amount becomes once divided by 100. */
  datatype Value =
    | Null
    | Bool(b: bool)
    | Int(i: int)
    | Num(r: real)
    | Str(s: string)

  /** The Python exceptions the modelled code can raise. */
  datatype Error =
    | KeyError(key: string)
    | TypeError
    | ValueError(arg: Value)
    | AttributeError
    | DecodeError
    | ExternalError  // anything raised by code outside the model

  datatype Result<+T> = Ok(value: T) | Err(error: Error) {
    predicate IsFailure() { Err? }
    function PropagateFailure<U>(): Result<U> requires Err? { Err(error) }
    function Extract(): T requires Ok? { value }
  }

  /** A Python dict. Key order is not modelled. */
  type Dict = map<string, Value>

  /** Python's `bool(v)`. */
  predicate Truthy(v: Value)
  {
    match v
    case Null => false
    case Bool(b) => b
    case Int(i) => i != 0
    case Num(r) => r != 0.0
    case Str(s) => s != []
  }

  /** Python's `s[:n]` for n >= 0: the first n characters, or all of s. */
  function Slice(s: string, n: nat): (r: string)
    ensures |r| == if |s| < n then |s| else n
    ensures r <= s
  {
    if |s| <= n then s else s[..n]
  }

  /** `d[k]`: KeyError when the key is missing. */
  function Subscript(d: Dict, k: string): (r: Result<Value>)
    ensures r.Ok? <==> k in d
    ensures r.Ok? ==> r.value == d[k]
    ensures r.Err? ==> r.error == KeyError(k)
  {
    if k in d then Ok(d[k]) else Err(KeyError(k))
  }

  /** The string inside a value that is about to be sliced; slicing anything
      else that can occur in a record raises TypeError. */
  function AsStr(v: Value): (r: Result<string>)
    ensures r.Ok? <==> v.Str?
    ensures r.Ok? ==> r.value == v.s
  {
    if v.Str? then Ok(v.s) else Err(TypeError)
  }
}
