/**
 Dynamic values as the relay sees them: what `JSON.parse` and the MessagePack decoder can return. Objects keep
 their keys in order. A byte string exists on MessagePack only.
 */
module Values {
  import opened RelayTypes

  type Byte = b: int | 0 <= b < 256

  datatype Number = Real(value: real) | NaN | Infinity(negative: bool)

  datatype Value =
    | Null
    | Bool(bool)
    | Num(number: Number)
    | Str(text: string)
    | Bytes(bytes: seq<Byte>)
    | Arr(items: Items)
    | Obj(fields: Fields)

  datatype Items = NoItems | Item(head: Value, tail: Items)

  datatype Fields = NoFields | Field(key: string, value: Value, rest: Fields)

  function Lookup(fields: Fields, key: string): Option<Value> {
    match fields
    case NoFields => None
    case Field(k, v, rest) => if k == key then Some(v) else Lookup(rest, key)
  }

  function Append(first: Fields, second: Fields): Fields {
    match first
    case NoFields => second
    case Field(k, v, rest) => Field(k, v, Append(rest, second))
  }

  lemma LookupAppend(first: Fields, second: Fields, key: string)
    ensures Lookup(Append(first, second), key) ==
            if Lookup(first, key).Some? then Lookup(first, key) else Lookup(second, key)
  {
  }

  // ---------------------------------------------------------------- what an index key looks like

  function Digit(d: nat): char
    requires d < 10
  {
    ['0', '1', '2', '3', '4', '5', '6', '7', '8', '9'][d]
  }

  function Decimal(n: nat): string {
    if n < 10 then [Digit(n)] else Decimal(n / 10) + [Digit(n % 10)]
  }

  /** A byte array has its bytes under its index keys, in order, like any object. */
  function ByteFields(bytes: seq<Byte>, from: nat): Fields
    requires from <= |bytes|
    decreases |bytes| - from
  {
    if from == |bytes| then NoFields
    else Field(Decimal(from), Num(Real(bytes[from] as real)), ByteFields(bytes, from + 1))
  }

  // ---------------------------------------------------------------- JSON as a carrier

  /** What comes out of `JSON.parse(JSON.stringify(v))`. */
  function JsonCarry(v: Value): Value {
    match v
    case Num(n) => if n.Real? then v else Null
    case Bytes(bytes) => Obj(ByteFields(bytes, 0))
    case Arr(items) => Arr(CarryItems(items))
    case Obj(fields) => Obj(CarryFields(fields))
    case _ => v
  }

  function CarryItems(items: Items): Items {
    match items
    case NoItems => NoItems
    case Item(v, rest) => Item(JsonCarry(v), CarryItems(rest))
  }

  function CarryFields(fields: Fields): Fields {
    match fields
    case NoFields => NoFields
    case Field(k, v, rest) => Field(k, JsonCarry(v), CarryFields(rest))
  }

  /** No byte strings and no non-finite numbers anywhere inside. */
  predicate JsonSafe(v: Value) {
    match v
    case Num(n) => n.Real?
    case Bytes(_) => false
    case Arr(items) => SafeItems(items)
    case Obj(fields) => SafeFields(fields)
    case _ => true
  }

  predicate SafeItems(items: Items) {
    match items
    case NoItems => true
    case Item(v, rest) => JsonSafe(v) && SafeItems(rest)
  }

  predicate SafeFields(fields: Fields) {
    match fields
    case NoFields => true
    case Field(_, v, rest) => JsonSafe(v) && SafeFields(rest)
  }

  lemma ByteFieldsSafe(bytes: seq<Byte>, from: nat)
    requires from <= |bytes|
    ensures SafeFields(ByteFields(bytes, from))
    decreases |bytes| - from
  {
  }

  /** JSON delivers a value unchanged exactly when the value is safe, and what it delivers is always safe. */
  lemma {:induction false} JsonCarriesSafeValues(v: Value)
    ensures JsonSafe(JsonCarry(v))
    ensures JsonCarry(v) == v <==> JsonSafe(v)
    decreases v
  {
    match v
    case Bytes(bytes) => ByteFieldsSafe(bytes, 0);
    case Arr(items) => JsonCarriesSafeItems(items);
    case Obj(fields) => JsonCarriesSafeFields(fields);
    case _ =>
  }

  lemma {:induction false} JsonCarriesSafeItems(items: Items)
    ensures SafeItems(CarryItems(items))
    ensures CarryItems(items) == items <==> SafeItems(items)
    decreases items
  {
    match items
    case NoItems =>
    case Item(v, rest) => JsonCarriesSafeValues(v); JsonCarriesSafeItems(rest);
  }

  lemma {:induction false} JsonCarriesSafeFields(fields: Fields)
    ensures SafeFields(CarryFields(fields))
    ensures CarryFields(fields) == fields <==> SafeFields(fields)
    decreases fields
  {
    match fields
    case NoFields =>
    case Field(_, v, rest) => JsonCarriesSafeValues(v); JsonCarriesSafeFields(rest);
  }
}
