/**
 * The dynamic values the client library handles: JSON-like values (the
 * dicts and lists callers pass and the backend returns) and DataFrame cells.
 */
module Values {

  /** A JSON-like value; a Python dict with string keys is an Object. */
  datatype Value =
    | Str(s: string)
    | Num(n: int)
    | Bool(b: bool)
    | Null
    | List(items: seq<Value>)
    | Object(fields: map<string, Value>)

  /** A Python dict with string keys. */
  type Dict = map<string, Value>

  /** A cell of a DataFrame: a text cell or an integer cell. */
  datatype Cell = Text(s: string) | Int(i: int)

  function DigitChar(d: nat): char
    requires d < 10
  {
    "0123456789"[d]
  }

  /** The decimal digits of n, most significant first. */
  function Decimal(n: nat): (r: string)
    ensures |r| > 0
    decreases n
  {
    if n < 10 then [DigitChar(n)] else Decimal(n / 10) + [DigitChar(n % 10)]
  }

  /** Python's str() of a cell: text as it is, integers in decimal. */
  function ToStr(c: Cell): (r: string)
    ensures c.Text? ==> r == c.s
    ensures c.Int? ==> |r| > 0
  {
    match c
    case Text(s) => s
    case Int(i) => if i < 0 then "-" + Decimal(-i) else Decimal(i)
  }

  /**
   * str() is not injective across cell kinds: every non-negative integer
   * prints like the text cell holding its digits (the integer 7 like "7").
   */
  lemma {:induction false} StrConflatesKinds(n: nat)
    ensures Text(Decimal(n)) != Int(n) && ToStr(Text(Decimal(n))) == ToStr(Int(n))
    ensures ToStr(Text("7")) == ToStr(Int(7))
  {
    assert Decimal(7) == "7";
  }

  /** Python truthiness of a JSON value: None, False, 0, "" and empty containers are falsy. */
  predicate Truthy(v: Value)
  {
    match v
    case Str(s) => s != ""
    case Num(n) => n != 0
    case Bool(b) => b
    case Null => false
    case List(items) => items != []
    case Object(fields) => fields != map[]
  }

  /** A DataFrame cell read back as a JSON value. */
  function CellValue(c: Cell): (v: Value)
    ensures c.Text? <==> v.Str?
  {
    match c
    case Text(s) => Str(s)
    case Int(i) => Num(i)
  }

  /**
   * A model results dict: nested dicts keyed by block keys, whose entries at
   * the sample level are lists of result values. A dict's entries are kept in
   * insertion order.
   */
  datatype ResultTree = Branch(entries: seq<ResultEntry>) | Leaf(values: seq<Value>)

  datatype ResultEntry = ResultEntry(key: Cell, sub: ResultTree)
}
