/** JSON values as `serde_json` holds them. */
module Json {
  import opened Prelude

  /** A number is an integer of any size, or something that has a fraction or an exponent. */
  datatype Number = Integer(n: int) | Decimal(text: string)

  datatype Value =
    | Null
    | Bool(b: bool)
    | Num(number: Number)
    | Str(s: string)
    | Arr(items: seq<Value>)
    | Obj(fields: seq<(string, Value)>)

  function Get(fields: seq<(string, Value)>, key: string): Option<Value> {
    if fields == [] then None
    else if fields[0].0 == key then Some(fields[0].1)
    else Get(fields[1..], key)
  }

  const I64_MAX: int := 0x7FFF_FFFF_FFFF_FFFF
  const I64_MIN: int := -0x8000_0000_0000_0000
  const I32_MAX: int := 0x7FFF_FFFF
  const U32_MAX: int := 0xFFFF_FFFF

  /** `Value::as_i64`. */
  function AsI64(v: Value): Option<int> {
    match v
    case Num(Integer(n)) => if I64_MIN <= n <= I64_MAX then Some(n) else None
    case _ => None
  }

  /** The value given for a key, if the key is there at all. */
  lemma {:induction false} GetFinds(fields: seq<(string, Value)>, key: string)
    ensures match Get(fields, key)
            case Some(v) => (key, v) in fields
            case None => forall f :: f in fields ==> f.0 != key
  {
    if fields != [] {
      assert fields == [fields[0]] + fields[1..] && fields[0] == (fields[0].0, fields[0].1);
      GetFinds(fields[1..], key);
    }
  }
}
