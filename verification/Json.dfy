/**
 JSON values as serde_json represents them, and the machine numbers they carry.

 A text is represented by what the parser makes of it, so printing a value and parsing the text
 again is the identity by construction.
 */
module Json {
  import opened Wrappers

  const TWO_52: int := 0x10_0000_0000_0000
  const TWO_63: int := 0x8000_0000_0000_0000

  type I64 = i: int | -0x8000_0000_0000_0000 <= i < 0x8000_0000_0000_0000
  type U64 = n: int | 0 <= n < 0x1_0000_0000_0000_0000
  type NegativeI64 = i: int | -0x8000_0000_0000_0000 <= i < 0 witness -1

  /** A binary64 value, as its bit pattern. */
  type Double = U64

  /** Neither an infinity nor a NaN: the exponent field is not all ones. */
  predicate IsFinite(d: Double) {
    (d / TWO_52) % 2048 != 2047
  }

  type FiniteDouble = d: Double | IsFinite(d)

  datatype Number = PosInt(u: U64) | NegInt(i: NegativeI64) | Float(f: FiniteDouble)

  datatype Value =
    | Null
    | Bool(b: bool)
    | Num(n: Number)
    | Str(s: string)
    | Arr(elems: seq<Value>)
    | Obj(fields: map<string, Value>)

  datatype Text = Parses(value: Value) | Malformed(raw: string)

  function FromI64(i: I64): Number {
    if i < 0 then NegInt(i) else PosInt(i)
  }

  function FromF64(d: Double): Option<Number> {
    if IsFinite(d) then Some(Float(d)) else None
  }

  function AsI64(v: Value): (r: Option<I64>)
    ensures r.Some? ==> v == Num(FromI64(r.value))
  {
    match v
    case Num(PosInt(u)) => if u < TWO_63 then Some(u) else None
    case Num(NegInt(i)) => Some(i)
    case _ => None
  }

  function AsU64(v: Value): Option<U64> {
    match v
    case Num(PosInt(u)) => Some(u)
    case _ => None
  }

  function AsStr(v: Value): Option<string> {
    if v.Str? then Some(v.s) else None
  }

  /** Indexing a value that is not an object finds nothing. */
  function Get(v: Value, key: string): Option<Value> {
    if v.Obj? && key in v.fields then Some(v.fields[key]) else None
  }

  /** The nearest multiple of 2048, ties to even, in units of 2048. */
  function RoundedSignificand(u: U64): (q: int)
    requires TWO_63 <= u
    ensures TWO_52 <= q <= 2 * TWO_52
    ensures -1024 <= q * 2048 - u <= 1024
    ensures q * 2048 - u == 1024 || q * 2048 - u == -1024 ==> q % 2 == 0
  {
    var q, r := u / 2048, u % 2048;
    if r > 1024 || (r == 1024 && q % 2 == 1) then q + 1 else q
  }

  /** `u as f64` for the integers that do not fit an `i64`: doubles are 2048 apart there, and a
      carry out of the significand moves to the next exponent by itself. */
  function LargeU64AsF64(u: U64): (d: Double)
    requires TWO_63 <= u
    ensures IsFinite(d)
  {
    1086 * TWO_52 + (RoundedSignificand(u) - TWO_52)
  }
}
