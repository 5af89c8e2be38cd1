/** The values a submitted field can hold, with the three pieces of Python behaviour the validator
    depends on: truthiness (`if value`), membership in `[None, "", []]`, and `str(value)`. */
module Values {
  import opened Text

  /** A raw input value. `File` is an uploaded file: anything exposing a byte `size` and a `name`. */
  datatype Value =
    | Null
    | Str(s: string)
    | Num(n: int)
    | Bool(b: bool)
    | List(items: seq<Value>)
    | File(size: nat, name: string)

  /** `hasattr(value, 'size')` */
  predicate HasSize(v: Value) { v.File? }

  /** Python truthiness; an uploaded file is truthy when it has a name. */
  predicate Truthy(v: Value) {
    match v
    case Null => false
    case Str(s) => s != ""
    case Num(n) => n != 0
    case Bool(b) => b
    case List(xs) => xs != []
    case File(_, name) => name != ""
  }

  /** `value in [None, "", []]`: the only values the validator treats as empty. */
  predicate IsEmpty(v: Value) {
    v == Null || v == Str("") || v == List([])
  }

  /** Zero and False are not empty, although they are falsy. */
  lemma FalsyButNotEmpty()
    ensures !Truthy(Num(0)) && !IsEmpty(Num(0))
    ensures !Truthy(Bool(false)) && !IsEmpty(Bool(false))
  {
  }

  /** Every empty value is falsy. */
  lemma EmptyIsFalsy(v: Value)
    requires IsEmpty(v)
    ensures !Truthy(v)
  {
  }

  /** `str(value)`. A file prints as its name; a list prints as `[a, b]` with its items' `repr`. */
  function PyStr(v: Value): string
    decreases v, 1
  {
    match v
    case Null => "None"
    case Str(s) => s
    case Num(n) => IntToString(n)
    case Bool(b) => if b then "True" else "False"
    case List(xs) => "[" + ReprItems(xs) + "]"
    case File(_, name) => name
  }

  /** `repr(value)` as it appears inside a printed list: strings gain single quotes. */
  function Repr(v: Value): string
    decreases v, 2
  {
    match v
    case Str(s) => "'" + s + "'"
    case _ => PyStr(v)
  }

  function ReprItems(xs: seq<Value>): string
    decreases xs
  {
    if |xs| == 0 then ""
    else if |xs| == 1 then Repr(xs[0])
    else Repr(xs[0]) + ", " + ReprItems(xs[1..])
  }

  /** `len(str(value))`, the length the `min:` and `max:` rules measure. */
  function TextLength(v: Value): nat {
    |PyStr(v)|
  }
}
