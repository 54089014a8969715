/**
 The schema language the wire format is validated with. Parsing strips or passes through unknown keys, removes
 repeated list items where asked to, and otherwise returns its input.
 */
module Schemas {
  import opened RelayTypes
  import opened Values

  /** `WithPreferred` adds the check that `preferredCodec` is among `codecs`. */
  datatype Schema =
    | Text(nonEmpty: bool)
    | OneOf(options: set<string>)
    | NumberIn(numbers: set<int>)
    | FiniteNumber
    | Boolean
    | Unknown
    | BinaryData
    | ListOf(item: Schema, nonEmptyList: bool, unique: bool)
    | RecordOf(entry: Schema)
    | Object(shape: Shape, passthrough: bool)
    | WithPreferred(base: Schema)

  datatype Shape = NoMore | Prop(name: string, schema: Schema, optional: bool, rest: Shape)

  predicate InShape(name: string, shape: Shape) {
    shape.Prop? && (shape.name == name || InShape(name, shape.rest))
  }

  /** No object schema names a key twice. */
  predicate WellFormed(schema: Schema) {
    match schema
    case ListOf(item, _, _) => WellFormed(item)
    case RecordOf(entry) => WellFormed(entry)
    case Object(shape, _) => WellFormedShape(shape)
    case WithPreferred(base) => WellFormed(base)
    case _ => true
  }

  predicate WellFormedShape(shape: Shape) {
    shape.Prop? ==> !InShape(shape.name, shape.rest) && WellFormed(shape.schema) && WellFormedShape(shape.rest)
  }

  /** Byte arrays are objects to the validator, with index keys. */
  function ObjectView(v: Value): Option<Fields> {
    match v
    case Obj(fields) => Some(fields)
    case Bytes(bytes) => Some(ByteFields(bytes, 0))
    case _ => None
  }

  function Parse(schema: Schema, v: Value): Option<Value>
    decreases schema, 0
  {
    match schema
    case Text(nonEmpty) => if v.Str? && (nonEmpty ==> v.text != "") then Some(v) else None
    case OneOf(options) => if v.Str? && v.text in options then Some(v) else None
    case NumberIn(numbers) => if v.Num? && IsInteger(v.number) && v.number.value.Floor in numbers then Some(v) else None
    case FiniteNumber => if v.Num? && v.number.Real? then Some(v) else None
    case Boolean => if v.Bool? then Some(v) else None
    case Unknown => Some(v)
    case BinaryData => if v.Bytes? || (v.Arr? && AllBytes(v.items)) then Some(v) else None
    case ListOf(item, nonEmptyList, unique) =>
      if v.Arr? && (nonEmptyList ==> v.items.Item?) then
        match ParseItems(item, v.items)
        case None => None
        case Some(items) => Some(Arr(if unique then Dedup(items, {}) else items))
      else None
    case RecordOf(entry) =>
      (match ObjectView(v)
       case None => None
       case Some(fields) =>
         match ParseEntries(entry, fields)
         case None => None
         case Some(parsed) => Some(Obj(parsed)))
    case Object(shape, passthrough) =>
      (match ObjectView(v)
       case None => None
       case Some(fields) =>
         match ParseShape(shape, fields)
         case None => None
         case Some(parsed) => Some(Obj(if passthrough then Append(parsed, Extras(shape, fields)) else parsed)))
    case WithPreferred(base) =>
      match Parse(base, v)
      case None => None
      case Some(parsed) => if PrefersOwnCodec(parsed) then Some(parsed) else None
  }

  predicate IsInteger(n: Number) {
    n.Real? && n.value.Floor as real == n.value
  }

  predicate AllBytes(items: Items) {
    items.Item? ==>
      items.head.Num? && IsInteger(items.head.number) && 0 <= items.head.number.value.Floor <= 255 && AllBytes(items.tail)
  }

  function ParseItems(item: Schema, items: Items): Option<Items>
    decreases item, 1, items
  {
    match items
    case NoItems => Some(NoItems)
    case Item(v, rest) =>
      match (Parse(item, v), ParseItems(item, rest))
      case (Some(w), Some(ws)) => Some(Item(w, ws))
      case _ => None
  }

  /** Keeps the first of equal items. */
  function Dedup(items: Items, seen: set<Value>): Items {
    match items
    case NoItems => NoItems
    case Item(v, rest) => if v in seen then Dedup(rest, seen) else Item(v, Dedup(rest, seen + {v}))
  }

  function ParseEntries(entry: Schema, fields: Fields): Option<Fields>
    decreases entry, 1, fields
  {
    match fields
    case NoFields => Some(NoFields)
    case Field(k, v, rest) =>
      match (Parse(entry, v), ParseEntries(entry, rest))
      case (Some(w), Some(ws)) => Some(Field(k, w, ws))
      case _ => None
  }

  function ParseShape(shape: Shape, fields: Fields): Option<Fields>
    decreases shape, 0
  {
    match shape
    case NoMore => Some(NoFields)
    case Prop(name, schema, optional, rest) =>
      match Lookup(fields, name)
      case None => if optional then ParseShape(rest, fields) else None
      case Some(v) =>
        match (Parse(schema, v), ParseShape(rest, fields))
        case (Some(w), Some(ws)) => Some(Field(name, w, ws))
        case _ => None
  }

  function Extras(shape: Shape, fields: Fields): Fields {
    match fields
    case NoFields => NoFields
    case Field(k, v, rest) => if InShape(k, shape) then Extras(shape, rest) else Field(k, v, Extras(shape, rest))
  }

  predicate PrefersOwnCodec(v: Value) {
    v.Obj? &&
    match (Lookup(v.fields, "codecs"), Lookup(v.fields, "preferredCodec"))
    case (Some(Arr(codecs)), Some(preferred)) => Contains(codecs, preferred)
    case _ => false
  }

  predicate Contains(items: Items, v: Value) {
    items.Item? && (items.head == v || Contains(items.tail, v))
  }

  // ---------------------------------------------------------------- what parsing an object does to its keys

  /** The schema of a key named in a shape. */
  function PropSchema(name: string, shape: Shape): Schema
    requires InShape(name, shape)
  {
    if shape.name == name then shape.schema else PropSchema(name, shape.rest)
  }

  lemma {:induction false} ShapeParses(shape: Shape, fields: Fields, name: string)
    requires WellFormedShape(shape) && ParseShape(shape, fields).Some?
    ensures var parsed := ParseShape(shape, fields).value;
            && (!InShape(name, shape) ==> Lookup(parsed, name) == None)
            && (InShape(name, shape) ==>
                  Lookup(parsed, name) == if Lookup(fields, name).None? then None
                                          else Parse(PropSchema(name, shape), Lookup(fields, name).value))
    decreases shape
  {
    if shape.Prop? {
      ShapeParses(shape.rest, fields, name);
    }
  }

  lemma ExtrasLookup(shape: Shape, fields: Fields, name: string)
    ensures Lookup(Extras(shape, fields), name) == if InShape(name, shape) then None else Lookup(fields, name)
  {
  }

  /** Named keys are parsed each for itself, and an absent one stays absent; others pass through or go, as declared. */
  lemma ObjectKeys(shape: Shape, passthrough: bool, fields: Fields, name: string)
    requires WellFormedShape(shape) && Parse(Object(shape, passthrough), Obj(fields)).Some?
    ensures var parsed := Parse(Object(shape, passthrough), Obj(fields)).value;
            && parsed.Obj?
            && Lookup(parsed.fields, name) ==
               if Lookup(fields, name).None? then None
               else if InShape(name, shape) then Parse(PropSchema(name, shape), Lookup(fields, name).value)
               else if passthrough then Lookup(fields, name)
               else None
  {
    ShapeParses(shape, fields, name);
    ExtrasLookup(shape, fields, name);
    LookupAppend(ParseShape(shape, fields).value, Extras(shape, fields), name);
  }

  // ---------------------------------------------------------------- parsing twice is parsing once

  /** What a schema returns, it returns again unchanged. */
  lemma {:induction false} ParseIdempotent(schema: Schema, v: Value)
    requires WellFormed(schema) && Parse(schema, v).Some?
    ensures Parse(schema, Parse(schema, v).value) == Parse(schema, v)
    decreases schema, 0
  {
    match schema
    case ListOf(item, _, unique) =>
      ItemsIdempotent(item, v.items);
      var items := ParseItems(item, v.items).value;
      if unique {
        DedupOfFixed(item, items, {});
        DedupIdempotent(items, {});
      }
    case RecordOf(entry) => EntriesIdempotent(entry, ObjectView(v).value);
    case Object(shape, passthrough) =>
      var fields := ObjectView(v).value;
      var parsed := ParseShape(shape, fields).value;
      ShapeKeys(shape, fields);
      var extras := if passthrough then Extras(shape, fields) else NoFields;
      forall name | InShape(name, shape) ensures Lookup(Append(parsed, extras), name) == Lookup(parsed, name) {
        LookupAppend(parsed, extras, name);
        ExtrasHaveNoShapeKeys(shape, fields, name);
      }
      ShapeIdempotent(shape, fields, Append(parsed, extras));
      if passthrough {
        ExtrasOfParsed(shape, parsed, fields);
      } else {
        AppendNothing(parsed);
      }
    case WithPreferred(base) => ParseIdempotent(base, v);
    case _ =>
  }

  lemma {:induction false} ItemsIdempotent(item: Schema, items: Items)
    requires WellFormed(item) && ParseItems(item, items).Some?
    ensures ParseItems(item, ParseItems(item, items).value) == ParseItems(item, items)
    ensures ParseItems(item, items).value.Item? == items.Item?
    decreases item, 1, items
  {
    match items
    case NoItems =>
    case Item(v, rest) => ParseIdempotent(item, v); ItemsIdempotent(item, rest);
  }

  lemma DedupOfFixed(item: Schema, items: Items, seen: set<Value>)
    requires ParseItems(item, items) == Some(items)
    ensures ParseItems(item, Dedup(items, seen)) == Some(Dedup(items, seen))
  {
  }

  lemma {:induction false} DedupIdempotent(items: Items, seen: set<Value>)
    ensures Dedup(Dedup(items, seen), seen) == Dedup(items, seen)
  {
    match items
    case NoItems =>
    case Item(v, rest) =>
      if v in seen { DedupIdempotent(rest, seen); } else { DedupIdempotent(rest, seen + {v}); }
  }

  lemma {:induction false} EntriesIdempotent(entry: Schema, fields: Fields)
    requires WellFormed(entry) && ParseEntries(entry, fields).Some?
    ensures ParseEntries(entry, ParseEntries(entry, fields).value) == ParseEntries(entry, fields)
    decreases entry, 1, fields
  {
    match fields
    case NoFields =>
    case Field(_, v, rest) => ParseIdempotent(entry, v); EntriesIdempotent(entry, rest);
  }

  lemma ShapeKeys(shape: Shape, fields: Fields)
    requires ParseShape(shape, fields).Some?
    ensures forall name :: Lookup(ParseShape(shape, fields).value, name).Some? ==> InShape(name, shape)
  {
  }

  /** A shape sees only its own keys: any object that agrees with the parsed one on them parses to it. */
  lemma {:induction false} ShapeIdempotent(shape: Shape, fields: Fields, whole: Fields)
    requires WellFormedShape(shape) && ParseShape(shape, fields).Some?
    requires forall name | InShape(name, shape) :: Lookup(whole, name) == Lookup(ParseShape(shape, fields).value, name)
    ensures ParseShape(shape, whole) == ParseShape(shape, fields)
    decreases shape, 0
  {
    match shape
    case NoMore =>
    case Prop(name, schema, optional, rest) =>
      assert InShape(name, shape);
      ShapeKeys(rest, fields);
      forall n | InShape(n, rest) ensures Lookup(whole, n) == Lookup(ParseShape(rest, fields).value, n) {
        assert InShape(n, shape);
      }
      ShapeIdempotent(rest, fields, whole);
      if Lookup(fields, name).Some? {
        ParseIdempotent(schema, Lookup(fields, name).value);
      }
  }

  lemma ExtrasHaveNoShapeKeys(shape: Shape, fields: Fields, name: string)
    requires InShape(name, shape)
    ensures Lookup(Extras(shape, fields), name) == None
  {
  }

  lemma ExtrasOfParsed(shape: Shape, parsed: Fields, fields: Fields)
    requires forall name :: Lookup(parsed, name).Some? ==> InShape(name, shape)
    ensures Extras(shape, Append(parsed, Extras(shape, fields))) == Extras(shape, fields)
    decreases parsed
  {
    match parsed
    case NoFields => ExtrasTwice(shape, fields);
    case Field(k, _, rest) =>
      assert Lookup(parsed, k).Some?;
      forall name | Lookup(rest, name).Some? ensures InShape(name, shape) {
        assert Lookup(parsed, name).Some?;
      }
      ExtrasOfParsed(shape, rest, fields);
  }

  lemma ExtrasTwice(shape: Shape, fields: Fields)
    ensures Extras(shape, Extras(shape, fields)) == Extras(shape, fields)
  {
  }

  lemma AppendNothing(fields: Fields)
    ensures Append(fields, NoFields) == fields
  {
  }

  // ---------------------------------------------------------------- what comes in over JSON stays JSON

  lemma {:induction false} ParseSafe(schema: Schema, v: Value)
    requires JsonSafe(v) && Parse(schema, v).Some?
    ensures JsonSafe(Parse(schema, v).value)
    decreases schema, 0
  {
    match schema
    case ListOf(item, _, unique) =>
      ItemsSafe(item, v.items);
      DedupSafe(ParseItems(item, v.items).value, {});
    case RecordOf(entry) => EntriesSafe(entry, ObjectView(v).value);
    case Object(shape, passthrough) =>
      ShapeSafe(shape, ObjectView(v).value);
      ExtrasSafe(shape, ObjectView(v).value);
      if passthrough {
        AppendSafe(ParseShape(shape, ObjectView(v).value).value, Extras(shape, ObjectView(v).value));
      }
    case WithPreferred(base) => ParseSafe(base, v);
    case _ =>
  }

  lemma {:induction false} ItemsSafe(item: Schema, items: Items)
    requires SafeItems(items) && ParseItems(item, items).Some?
    ensures SafeItems(ParseItems(item, items).value)
    decreases item, 1, items
  {
    match items
    case NoItems =>
    case Item(v, rest) => ParseSafe(item, v); ItemsSafe(item, rest);
  }

  lemma DedupSafe(items: Items, seen: set<Value>)
    requires SafeItems(items)
    ensures SafeItems(Dedup(items, seen))
  {
  }

  lemma {:induction false} EntriesSafe(entry: Schema, fields: Fields)
    requires SafeFields(fields) && ParseEntries(entry, fields).Some?
    ensures SafeFields(ParseEntries(entry, fields).value)
    decreases entry, 1, fields
  {
    match fields
    case NoFields =>
    case Field(_, v, rest) => ParseSafe(entry, v); EntriesSafe(entry, rest);
  }

  lemma {:induction false} ShapeSafe(shape: Shape, fields: Fields)
    requires SafeFields(fields) && ParseShape(shape, fields).Some?
    ensures SafeFields(ParseShape(shape, fields).value)
    decreases shape, 0
  {
    match shape
    case NoMore =>
    case Prop(name, schema, _, rest) =>
      ShapeSafe(rest, fields);
      LookupSafe(fields, name);
      if Lookup(fields, name).Some? {
        ParseSafe(schema, Lookup(fields, name).value);
      }
  }

  lemma LookupSafe(fields: Fields, name: string)
    requires SafeFields(fields)
    ensures Lookup(fields, name).Some? ==> JsonSafe(Lookup(fields, name).value)
  {
  }

  lemma ExtrasSafe(shape: Shape, fields: Fields)
    requires SafeFields(fields)
    ensures SafeFields(Extras(shape, fields))
  {
  }

  lemma AppendSafe(first: Fields, second: Fields)
    requires SafeFields(first) && SafeFields(second)
    ensures SafeFields(Append(first, second))
  {
  }
}
