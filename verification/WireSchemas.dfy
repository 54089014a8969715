/** The payload schemas of the eleven transport signals. */
module WireSchemas {
  import opened RelayTypes
  import opened Values
  import opened Schemas

  const PEER := Object(
    Prop("id", Text(true), false,
    Prop("joinedAt", FiniteNumber, false,
    Prop("lastSeen", FiniteNumber, false, NoMore))), true)

  const CODEC := OneOf({"json", "msgpack"})

  const CAPABILITIES := WithPreferred(Object(
    Prop("minVersion", NumberIn({1}), false,
    Prop("maxVersion", NumberIn({1, 2}), false,
    Prop("codecs", ListOf(CODEC, true, true), false,
    Prop("preferredCodec", CODEC, false, NoMore)))), false))

  const CURSOR := Object(
    Prop("userId", Text(true), false,
    Prop("name", Text(false), false,
    Prop("color", Text(false), false,
    Prop("x", FiniteNumber, false,
    Prop("y", FiniteNumber, false,
    Prop("xAbsolute", FiniteNumber, false,
    Prop("yAbsolute", FiniteNumber, false,
    Prop("element", Text(false), true,
    Prop("idle", Boolean, false, NoMore))))))))), false)

  const AWARENESS := Object(Prop("peerId", Text(true), false, NoMore), true)

  const REASON := OneOf({"set", "patch", "undo", "reset"})

  const STATE_META := Object(
    Prop("reason", REASON, false,
    Prop("changedBy", Text(true), false,
    Prop("timestamp", FiniteNumber, false, NoMore))), false)

  const BOOTSTRAP := Object(Prop("peer", PEER, false, Prop("protocol", CAPABILITIES, true, NoMore)), false)

  const STATE_UPDATE := Object(
    Prop("value", Unknown, true,
    Prop("history", ListOf(Unknown, false, false), false,
    Prop("vectorClock", RecordOf(FiniteNumber), false,
    Prop("changedBy", Text(true), false,
    Prop("timestamp", FiniteNumber, false,
    Prop("reason", REASON, false, NoMore)))))), false)

  const EVENT := Object(
    Prop("name", Text(true), false,
    Prop("payload", Unknown, true,
    Prop("loopback", Boolean, true, NoMore))), false)

  const ENCRYPTED := Object(
    Prop("version", NumberIn({1}), false,
    Prop("iv", BinaryData, false,
    Prop("ciphertext", BinaryData, false, NoMore))), false)

  const CRDT_SYNC := Object(
    Prop("kind", OneOf({"state-vector", "update"}), false,
    Prop("data", BinaryData, false,
    Prop("meta", STATE_META, true, NoMore))), false)

  function Single(name: string, schema: Schema, optional: bool): Schema {
    Object(Prop(name, schema, optional, NoMore), false)
  }

  datatype Kind =
    | Hello | Welcome | Encrypted | PresenceUpdate | LeaveKind | CursorUpdate
    | AwarenessUpdate | StateUpdate | CrdtSync | CrdtAwareness | EventKind

  function KindName(kind: Kind): string {
    match kind
    case Hello => "hello"
    case Welcome => "welcome"
    case Encrypted => "encrypted"
    case PresenceUpdate => "presence:update"
    case LeaveKind => "leave"
    case CursorUpdate => "cursor:update"
    case AwarenessUpdate => "awareness:update"
    case StateUpdate => "state:update"
    case CrdtSync => "crdt:sync"
    case CrdtAwareness => "crdt:awareness"
    case EventKind => "event"
  }

  function KindNamed(name: string): Option<Kind> {
    if name == "hello" then Some(Hello)
    else if name == "welcome" then Some(Welcome)
    else if name == "encrypted" then Some(Encrypted)
    else if name == "presence:update" then Some(PresenceUpdate)
    else if name == "leave" then Some(LeaveKind)
    else if name == "cursor:update" then Some(CursorUpdate)
    else if name == "awareness:update" then Some(AwarenessUpdate)
    else if name == "state:update" then Some(StateUpdate)
    else if name == "crdt:sync" then Some(CrdtSync)
    else if name == "crdt:awareness" then Some(CrdtAwareness)
    else if name == "event" then Some(EventKind)
    else None
  }

  function PayloadSchema(kind: Kind): Schema {
    match kind
    case Hello => BOOTSTRAP
    case Welcome => BOOTSTRAP
    case Encrypted => ENCRYPTED
    case PresenceUpdate => Single("peer", PEER, false)
    case LeaveKind => Single("peer", PEER, true)
    case CursorUpdate => Single("cursor", CURSOR, false)
    case AwarenessUpdate => Single("awareness", AWARENESS, false)
    case StateUpdate => STATE_UPDATE
    case CrdtSync => CRDT_SYNC
    case CrdtAwareness => Single("data", BinaryData, false)
    case EventKind => EVENT
  }

  lemma Prepend(name: string, schema: Schema, optional: bool, rest: Shape)
    requires WellFormedShape(rest) && WellFormed(schema) && !InShape(name, rest)
    ensures WellFormedShape(Prop(name, schema, optional, rest))
    ensures forall n :: InShape(n, Prop(name, schema, optional, rest)) <==> n == name || InShape(n, rest)
  {
  }

  lemma PeerWellFormed()
    ensures WellFormed(PEER)
  {
    var s0 := Prop("lastSeen", FiniteNumber, false, NoMore);
    Prepend("lastSeen", FiniteNumber, false, NoMore);
    var s1 := Prop("joinedAt", FiniteNumber, false, s0);
    Prepend("joinedAt", FiniteNumber, false, s0);
    var s2 := Prop("id", Text(true), false, s1);
    Prepend("id", Text(true), false, s1);
  }

  lemma CapabilitiesWellFormed()
    ensures WellFormed(CAPABILITIES)
  {
    var s0 := Prop("preferredCodec", CODEC, false, NoMore);
    Prepend("preferredCodec", CODEC, false, NoMore);
    var s1 := Prop("codecs", ListOf(CODEC, true, true), false, s0);
    Prepend("codecs", ListOf(CODEC, true, true), false, s0);
    var s2 := Prop("maxVersion", NumberIn({1, 2}), false, s1);
    Prepend("maxVersion", NumberIn({1, 2}), false, s1);
    var s3 := Prop("minVersion", NumberIn({1}), false, s2);
    Prepend("minVersion", NumberIn({1}), false, s2);
  }

  lemma CursorWellFormed()
    ensures WellFormed(CURSOR)
  {
    var s0 := Prop("idle", Boolean, false, NoMore);
    Prepend("idle", Boolean, false, NoMore);
    var s1 := Prop("element", Text(false), true, s0);
    Prepend("element", Text(false), true, s0);
    var s2 := Prop("yAbsolute", FiniteNumber, false, s1);
    Prepend("yAbsolute", FiniteNumber, false, s1);
    var s3 := Prop("xAbsolute", FiniteNumber, false, s2);
    Prepend("xAbsolute", FiniteNumber, false, s2);
    var s4 := Prop("y", FiniteNumber, false, s3);
    Prepend("y", FiniteNumber, false, s3);
    var s5 := Prop("x", FiniteNumber, false, s4);
    Prepend("x", FiniteNumber, false, s4);
    var s6 := Prop("color", Text(false), false, s5);
    Prepend("color", Text(false), false, s5);
    var s7 := Prop("name", Text(false), false, s6);
    Prepend("name", Text(false), false, s6);
    var s8 := Prop("userId", Text(true), false, s7);
    Prepend("userId", Text(true), false, s7);
  }

  lemma StateMetaWellFormed()
    ensures WellFormed(STATE_META)
  {
    var s0 := Prop("timestamp", FiniteNumber, false, NoMore);
    Prepend("timestamp", FiniteNumber, false, NoMore);
    var s1 := Prop("changedBy", Text(true), false, s0);
    Prepend("changedBy", Text(true), false, s0);
    var s2 := Prop("reason", REASON, false, s1);
    Prepend("reason", REASON, false, s1);
  }

  lemma StateUpdateWellFormed()
    ensures WellFormed(STATE_UPDATE)
  {
    var s0 := Prop("reason", REASON, false, NoMore);
    Prepend("reason", REASON, false, NoMore);
    var s1 := Prop("timestamp", FiniteNumber, false, s0);
    Prepend("timestamp", FiniteNumber, false, s0);
    var s2 := Prop("changedBy", Text(true), false, s1);
    Prepend("changedBy", Text(true), false, s1);
    var s3 := Prop("vectorClock", RecordOf(FiniteNumber), false, s2);
    Prepend("vectorClock", RecordOf(FiniteNumber), false, s2);
    var s4 := Prop("history", ListOf(Unknown, false, false), false, s3);
    Prepend("history", ListOf(Unknown, false, false), false, s3);
    var s5 := Prop("value", Unknown, true, s4);
    Prepend("value", Unknown, true, s4);
  }

  lemma EventWellFormed()
    ensures WellFormed(EVENT)
  {
    var s0 := Prop("loopback", Boolean, true, NoMore);
    Prepend("loopback", Boolean, true, NoMore);
    var s1 := Prop("payload", Unknown, true, s0);
    Prepend("payload", Unknown, true, s0);
    var s2 := Prop("name", Text(true), false, s1);
    Prepend("name", Text(true), false, s1);
  }

  lemma EncryptedWellFormed()
    ensures WellFormed(ENCRYPTED)
  {
    var s0 := Prop("ciphertext", BinaryData, false, NoMore);
    Prepend("ciphertext", BinaryData, false, NoMore);
    var s1 := Prop("iv", BinaryData, false, s0);
    Prepend("iv", BinaryData, false, s0);
    var s2 := Prop("version", NumberIn({1}), false, s1);
    Prepend("version", NumberIn({1}), false, s1);
  }

  lemma CrdtSyncWellFormed()
    ensures WellFormed(CRDT_SYNC)
  {
    StateMetaWellFormed();
    var s0 := Prop("meta", STATE_META, true, NoMore);
    Prepend("meta", STATE_META, true, NoMore);
    var s1 := Prop("data", BinaryData, false, s0);
    Prepend("data", BinaryData, false, s0);
    var s2 := Prop("kind", OneOf({"state-vector", "update"}), false, s1);
    Prepend("kind", OneOf({"state-vector", "update"}), false, s1);
  }

  lemma BootstrapWellFormed()
    ensures WellFormed(BOOTSTRAP)
  {
    PeerWellFormed();
    CapabilitiesWellFormed();
    var s0 := Prop("protocol", CAPABILITIES, true, NoMore);
    Prepend("protocol", CAPABILITIES, true, NoMore);
    var s1 := Prop("peer", PEER, false, s0);
    Prepend("peer", PEER, false, s0);
  }

  lemma SingleWellFormed(name: string, schema: Schema, optional: bool)
    requires WellFormed(schema)
    ensures WellFormed(Single(name, schema, optional))
  {
    Prepend(name, schema, optional, NoMore);
  }

  lemma PayloadSchemasWellFormed(kind: Kind)
    ensures WellFormed(PayloadSchema(kind))
  {
    match kind
    case Hello => BootstrapWellFormed();
    case Welcome => BootstrapWellFormed();
    case Encrypted => EncryptedWellFormed();
    case PresenceUpdate => PeerWellFormed(); SingleWellFormed("peer", PEER, false);
    case LeaveKind => PeerWellFormed(); SingleWellFormed("peer", PEER, true);
    case CursorUpdate => CursorWellFormed(); SingleWellFormed("cursor", CURSOR, false);
    case AwarenessUpdate =>
      Prepend("peerId", Text(true), false, NoMore);
      SingleWellFormed("awareness", AWARENESS, false);
    case StateUpdate => StateUpdateWellFormed();
    case CrdtSync => CrdtSyncWellFormed();
    case CrdtAwareness => SingleWellFormed("data", BinaryData, false);
    case EventKind => EventWellFormed();
  }

  lemma KindNamesDistinct(kind: Kind)
    ensures KindNamed(KindName(kind)) == Some(kind)
  {
  }

  // ---------------------------------------------------------------- which payloads are accepted

  predicate Named(v: Option<Value>) {
    v.Some? && v.value.Str? && v.value.text != ""
  }

  predicate Finite(v: Option<Value>) {
    v.Some? && v.value.Num? && v.value.number.Real?
  }

  predicate OneOfTexts(v: Option<Value>, texts: set<string>) {
    v.Some? && v.value.Str? && v.value.text in texts
  }

  /** Bytes, or an array of numbers that could be. */
  predicate Binary(v: Option<Value>) {
    v.Some? && (v.value.Bytes? || (v.value.Arr? && AllBytes(v.value.items)))
  }

  predicate IsOne(v: Option<Value>) {
    v.Some? && v.value.Num? && v.value.number == Real(1.0)
  }

  predicate AcceptedPeer(v: Option<Value>) {
    && v.Some? && ObjectView(v.value).Some?
    && var f := ObjectView(v.value).value;
       Named(Lookup(f, "id")) && Finite(Lookup(f, "joinedAt")) && Finite(Lookup(f, "lastSeen"))
  }

  predicate AcceptedMeta(v: Option<Value>) {
    && v.Some? && ObjectView(v.value).Some?
    && var f := ObjectView(v.value).value;
       && OneOfTexts(Lookup(f, "reason"), {"set", "patch", "undo", "reset"})
       && Named(Lookup(f, "changedBy")) && Finite(Lookup(f, "timestamp"))
  }

  lemma PeerAccepted(v: Value)
    ensures Parse(PEER, v).Some? <==> AcceptedPeer(Some(v))
  {
  }

  lemma MetaAccepted(v: Value)
    ensures Parse(STATE_META, v).Some? <==> AcceptedMeta(Some(v))
  {
  }

  lemma WholeOne(n: Number)
    ensures IsInteger(n) && n.value.Floor == 1 <==> n == Real(1.0)
  {
  }

  /** The payloads of the signals about peers: a well-formed peer, which a leave may leave out. */
  lemma PeerPayloads(fields: Fields)
    ensures Parse(PayloadSchema(PresenceUpdate), Obj(fields)).Some? <==> AcceptedPeer(Lookup(fields, "peer"))
    ensures Parse(PayloadSchema(LeaveKind), Obj(fields)).Some? <==>
            Lookup(fields, "peer").None? || AcceptedPeer(Lookup(fields, "peer"))
  {
    hide PEER;
    if Lookup(fields, "peer").Some? {
      PeerAccepted(Lookup(fields, "peer").value);
    }
  }

  /** Events have a name; whether to loop back is a truth value if it is there at all. */
  lemma EventPayloads(fields: Fields)
    ensures Parse(PayloadSchema(EventKind), Obj(fields)).Some? <==>
            && Named(Lookup(fields, "name"))
            && (Lookup(fields, "loopback").Some? ==> Lookup(fields, "loopback").value.Bool?)
  {
  }

  /** Version 1, and two binaries. */
  lemma EncryptedPayloads(fields: Fields)
    ensures Parse(PayloadSchema(Encrypted), Obj(fields)).Some? <==>
            IsOne(Lookup(fields, "version")) && Binary(Lookup(fields, "iv")) && Binary(Lookup(fields, "ciphertext"))
  {
    if Lookup(fields, "version").Some? && Lookup(fields, "version").value.Num? {
      WholeOne(Lookup(fields, "version").value.number);
    }
  }

  lemma CrdtPayloads(fields: Fields)
    ensures Parse(PayloadSchema(CrdtAwareness), Obj(fields)).Some? <==> Binary(Lookup(fields, "data"))
    ensures Parse(PayloadSchema(CrdtSync), Obj(fields)).Some? <==>
            && OneOfTexts(Lookup(fields, "kind"), {"state-vector", "update"}) && Binary(Lookup(fields, "data"))
            && (Lookup(fields, "meta").Some? ==> AcceptedMeta(Lookup(fields, "meta")))
  {
    CrdtSyncPayloads(fields);
    hide AcceptedMeta, OneOfTexts;
  }

  lemma CrdtSyncPayloads(fields: Fields)
    ensures Parse(PayloadSchema(CrdtSync), Obj(fields)).Some? <==>
            && OneOfTexts(Lookup(fields, "kind"), {"state-vector", "update"}) && Binary(Lookup(fields, "data"))
            && (Lookup(fields, "meta").Some? ==> AcceptedMeta(Lookup(fields, "meta")))
  {
    hide STATE_META;
    if Lookup(fields, "meta").Some? {
      MetaAccepted(Lookup(fields, "meta").value);
    }
  }

  predicate AllFinite(fields: Fields) {
    fields.Field? ==> Finite(Some(fields.value)) && AllFinite(fields.rest)
  }

  lemma EntriesFinite(fields: Fields)
    ensures ParseEntries(FiniteNumber, fields).Some? <==> AllFinite(fields)
  {
  }

  lemma ItemsUnknown(items: Items)
    ensures ParseItems(Unknown, items) == Some(items)
  {
  }

  /** A shape accepts prop by prop. */
  lemma PropAccepts(name: string, schema: Schema, optional: bool, rest: Shape, fields: Fields)
    ensures ParseShape(Prop(name, schema, optional, rest), fields).Some? <==>
            && ParseShape(rest, fields).Some?
            && (if Lookup(fields, name).None? then optional else Parse(schema, Lookup(fields, name).value).Some?)
  {
  }

  predicate AcceptedClock(v: Option<Value>) {
    v.Some? && ObjectView(v.value).Some? && AllFinite(ObjectView(v.value).value)
  }

  lemma ClockAccepted(v: Value)
    ensures Parse(RecordOf(FiniteNumber), v).Some? <==> AcceptedClock(Some(v))
    ensures Parse(ListOf(Unknown, false, false), v).Some? <==> v.Arr?
  {
    if ObjectView(v).Some? {
      EntriesFinite(ObjectView(v).value);
    }
    if v.Arr? {
      ItemsUnknown(v.items);
    }
  }

  lemma MetaScalars(v: Value)
    ensures Parse(REASON, v).Some? <==> OneOfTexts(Some(v), {"set", "patch", "undo", "reset"})
    ensures Parse(Text(true), v).Some? <==> Named(Some(v))
    ensures Parse(FiniteNumber, v).Some? <==> Finite(Some(v))
    ensures Parse(Unknown, v).Some?
  {
  }

  /** A history, a clock of finite numbers, and who changed what when; the value itself may be anything or absent. */
  lemma StatePayloads(fields: Fields)
    ensures Parse(PayloadSchema(StateUpdate), Obj(fields)).Some? <==>
            && Lookup(fields, "history").Some? && Lookup(fields, "history").value.Arr?
            && AcceptedClock(Lookup(fields, "vectorClock"))
            && AcceptedMeta(Some(Obj(fields)))
  {
    assert Parse(PayloadSchema(StateUpdate), Obj(fields)).Some? <==> ParseShape(STATE_UPDATE.shape, fields).Some?;
    hide Parse, ParseShape, AllFinite, REASON, OneOfTexts, Named, Finite, AcceptedClock;
    MetaField(fields, "reason");
    MetaField(fields, "timestamp");
    MetaField(fields, "changedBy");
    MetaField(fields, "value");
    ClockField(fields, "vectorClock");
    ClockField(fields, "history");
    var s6 := NoMore;
    var s5 := Prop("reason", REASON, false, s6);
    var s4 := Prop("timestamp", FiniteNumber, false, s5);
    var s3 := Prop("changedBy", Text(true), false, s4);
    var s2 := Prop("vectorClock", RecordOf(FiniteNumber), false, s3);
    var s1 := Prop("history", ListOf(Unknown, false, false), false, s2);
    NoProps(fields);
    PropAccepts("reason", REASON, false, s6, fields);
    PropAccepts("timestamp", FiniteNumber, false, s5, fields);
    PropAccepts("changedBy", Text(true), false, s4, fields);
    PropAccepts("vectorClock", RecordOf(FiniteNumber), false, s3, fields);
    PropAccepts("history", ListOf(Unknown, false, false), false, s2, fields);
    PropAccepts("value", Unknown, true, s1, fields);
  }

  lemma MetaField(fields: Fields, name: string)
    ensures var v := Lookup(fields, name);
            v.Some? ==>
              && (Parse(REASON, v.value).Some? <==> OneOfTexts(v, {"set", "patch", "undo", "reset"}))
              && (Parse(Text(true), v.value).Some? <==> Named(v))
              && (Parse(FiniteNumber, v.value).Some? <==> Finite(v))
              && Parse(Unknown, v.value).Some?
    ensures Lookup(fields, name).None? ==>
              !OneOfTexts(None, {"set", "patch", "undo", "reset"}) && !Named(None) && !Finite(None)
  {
    if Lookup(fields, name).Some? {
      MetaScalars(Lookup(fields, name).value);
    }
  }

  lemma ClockField(fields: Fields, name: string)
    ensures var v := Lookup(fields, name);
            v.Some? ==>
              && (Parse(RecordOf(FiniteNumber), v.value).Some? <==> AcceptedClock(v))
              && (Parse(ListOf(Unknown, false, false), v.value).Some? <==> v.value.Arr?)
    ensures !AcceptedClock(None)
  {
    if Lookup(fields, name).Some? {
      ClockAccepted(Lookup(fields, name).value);
    }
  }

  lemma NoProps(fields: Fields)
    ensures ParseShape(NoMore, fields) == Some(NoFields)
  {
  }

  predicate IsText(v: Option<Value>) {
    v.Some? && v.value.Str?
  }

  lemma CursorAccepted(v: Value)
    ensures Parse(CURSOR, v).Some? <==>
            ObjectView(v).Some? &&
            var f := ObjectView(v).value;
            && Named(Lookup(f, "userId")) && IsText(Lookup(f, "name")) && IsText(Lookup(f, "color"))
            && Finite(Lookup(f, "x")) && Finite(Lookup(f, "y"))
            && Finite(Lookup(f, "xAbsolute")) && Finite(Lookup(f, "yAbsolute"))
            && (Lookup(f, "element").Some? ==> IsText(Lookup(f, "element")))
            && Lookup(f, "idle").Some? && Lookup(f, "idle").value.Bool?
  {
  }

  lemma CursorPayloads(fields: Fields)
    ensures Parse(PayloadSchema(CursorUpdate), Obj(fields)).Some? <==>
            Lookup(fields, "cursor").Some? && Parse(CURSOR, Lookup(fields, "cursor").value).Some?
    ensures Parse(PayloadSchema(AwarenessUpdate), Obj(fields)).Some? <==>
            && Lookup(fields, "awareness").Some? && ObjectView(Lookup(fields, "awareness").value).Some?
            && Named(Lookup(ObjectView(Lookup(fields, "awareness").value).value, "peerId"))
  {
    AwarenessPayloads(fields);
    hide CURSOR;
  }

  lemma AwarenessPayloads(fields: Fields)
    ensures Parse(PayloadSchema(AwarenessUpdate), Obj(fields)).Some? <==>
            && Lookup(fields, "awareness").Some? && ObjectView(Lookup(fields, "awareness").value).Some?
            && Named(Lookup(ObjectView(Lookup(fields, "awareness").value).value, "peerId"))
  {
  }

  predicate AllCodecs(items: Items) {
    items.Item? ==> OneOfTexts(Some(items.head), {"json", "msgpack"}) && AllCodecs(items.tail)
  }

  lemma CodecItems(items: Items)
    ensures ParseItems(CODEC, items) == if AllCodecs(items) then Some(items) else None
  {
  }

  lemma DedupContains(items: Items, seen: set<Value>, v: Value)
    ensures Contains(Dedup(items, seen), v) <==> Contains(items, v) && v !in seen
  {
  }

  /** Version 1 at least and at most 2 or 1, and a list of codecs with the preferred one among them. */
  predicate AcceptedCapabilities(v: Option<Value>) {
    && v.Some? && ObjectView(v.value).Some?
    && var f := ObjectView(v.value).value;
       && IsOne(Lookup(f, "minVersion"))
       && (Lookup(f, "maxVersion") == Some(Num(Real(1.0))) || Lookup(f, "maxVersion") == Some(Num(Real(2.0))))
       && Lookup(f, "codecs").Some? && Lookup(f, "codecs").value.Arr? && AllCodecs(Lookup(f, "codecs").value.items)
       && Lookup(f, "preferredCodec").Some?
       && Contains(Lookup(f, "codecs").value.items, Lookup(f, "preferredCodec").value)
  }

  lemma WholeOneOrTwo(n: Number)
    ensures IsInteger(n) && n.value.Floor in {1, 2} <==> n == Real(1.0) || n == Real(2.0)
    ensures IsInteger(n) && n.value.Floor in {1} <==> n == Real(1.0)
  {
  }

  lemma {:induction false} ContainsCodec(items: Items, v: Value)
    requires AllCodecs(items) && Contains(items, v)
    ensures OneOfTexts(Some(v), {"json", "msgpack"})
  {
    if items.head != v {
      ContainsCodec(items.tail, v);
    }
  }

  predicate AcceptedCodecs(v: Option<Value>) {
    v.Some? && v.value.Arr? && v.value.items.Item? && AllCodecs(v.value.items)
  }

  predicate OneOrTwo(v: Option<Value>) {
    v == Some(Num(Real(1.0))) || v == Some(Num(Real(2.0)))
  }

  lemma CapabilityScalars(v: Value)
    ensures Parse(NumberIn({1}), v).Some? <==> IsOne(Some(v))
    ensures Parse(NumberIn({1, 2}), v).Some? <==> OneOrTwo(Some(v))
    ensures Parse(CODEC, v).Some? <==> OneOfTexts(Some(v), {"json", "msgpack"})
    ensures Parse(CODEC, v).Some? ==> Parse(CODEC, v) == Some(v)
  {
    if v.Num? {
      WholeOneOrTwo(v.number);
    }
  }

  lemma CodecsAccepted(v: Value)
    ensures Parse(ListOf(CODEC, true, true), v) ==
            if AcceptedCodecs(Some(v)) then Some(Arr(Dedup(v.items, {}))) else None
  {
    if v.Arr? {
      CodecItems(v.items);
    }
  }

  const CAPABILITY_SHAPE := CAPABILITIES.base.shape

  lemma CapabilityField(fields: Fields, name: string)
    ensures var v := Lookup(fields, name);
            v.Some? ==>
              && (Parse(NumberIn({1}), v.value).Some? <==> IsOne(v))
              && (Parse(NumberIn({1, 2}), v.value).Some? <==> OneOrTwo(v))
              && (Parse(ListOf(CODEC, true, true), v.value).Some? <==> AcceptedCodecs(v))
              && (Parse(CODEC, v.value).Some? <==> OneOfTexts(v, {"json", "msgpack"}))
    ensures !IsOne(None) && !OneOrTwo(None) && !AcceptedCodecs(None) && !OneOfTexts(None, {"json", "msgpack"})
  {
    if Lookup(fields, name).Some? {
      CapabilityScalars(Lookup(fields, name).value);
      CodecsAccepted(Lookup(fields, name).value);
    }
  }

  lemma CapabilityShape(fields: Fields)
    ensures ParseShape(CAPABILITY_SHAPE, fields).Some? <==>
            && IsOne(Lookup(fields, "minVersion")) && OneOrTwo(Lookup(fields, "maxVersion"))
            && AcceptedCodecs(Lookup(fields, "codecs"))
            && OneOfTexts(Lookup(fields, "preferredCodec"), {"json", "msgpack"})
  {
    assert CAPABILITY_SHAPE == CAPABILITIES.base.shape;
    hide Parse, ParseShape, CODEC, AllCodecs, OneOrTwo, IsOne, OneOfTexts, AcceptedCodecs;
    CapabilityField(fields, "minVersion");
    CapabilityField(fields, "maxVersion");
    CapabilityField(fields, "codecs");
    CapabilityField(fields, "preferredCodec");
    var s3 := Prop("preferredCodec", CODEC, false, NoMore);
    var s2 := Prop("codecs", ListOf(CODEC, true, true), false, s3);
    var s1 := Prop("maxVersion", NumberIn({1, 2}), false, s2);
    NoProps(fields);
    PropAccepts("preferredCodec", CODEC, false, NoMore, fields);
    PropAccepts("codecs", ListOf(CODEC, true, true), false, s3, fields);
    PropAccepts("maxVersion", NumberIn({1, 2}), false, s2, fields);
    PropAccepts("minVersion", NumberIn({1}), false, s1, fields);
  }

  lemma CapabilityResult(fields: Fields)
    requires ParseShape(CAPABILITY_SHAPE, fields).Some? && AcceptedCodecs(Lookup(fields, "codecs"))
    requires OneOfTexts(Lookup(fields, "preferredCodec"), {"json", "msgpack"})
    ensures var parsed := ParseShape(CAPABILITY_SHAPE, fields).value;
            && Lookup(parsed, "codecs") == Some(Arr(Dedup(Lookup(fields, "codecs").value.items, {})))
            && Lookup(parsed, "preferredCodec") == Lookup(fields, "preferredCodec")
  {
    CapabilitiesWellFormed();
    assert CAPABILITIES.base == Object(CAPABILITY_SHAPE, false);
    ShapeParses(CAPABILITY_SHAPE, fields, "codecs");
    ShapeParses(CAPABILITY_SHAPE, fields, "preferredCodec");
    CodecsAccepted(Lookup(fields, "codecs").value);
    CapabilityScalars(Lookup(fields, "preferredCodec").value);
  }

  lemma CapabilitiesAccepted(v: Value)
    ensures Parse(CAPABILITIES, v).Some? <==> AcceptedCapabilities(Some(v))
  {
    if ObjectView(v).Some? {
      var f := ObjectView(v).value;
      CapabilityShape(f);
      CapabilitiesParse(v, f);
      hide Parse, ParseShape, AllCodecs, CAPABILITY_SHAPE, CAPABILITIES;
      if ParseShape(CAPABILITY_SHAPE, f).Some? {
        CapabilityResult(f);
        DedupContains(Lookup(f, "codecs").value.items, {}, Lookup(f, "preferredCodec").value);
      }
      if AcceptedCapabilities(Some(v)) {
        ContainsCodec(Lookup(f, "codecs").value.items, Lookup(f, "preferredCodec").value);
      }
    }
  }

  lemma CapabilitiesParse(v: Value, fields: Fields)
    requires ObjectView(v) == Some(fields)
    ensures Parse(CAPABILITIES, v).Some? <==>
            ParseShape(CAPABILITY_SHAPE, fields).Some? && PrefersOwnCodec(Obj(ParseShape(CAPABILITY_SHAPE, fields).value))
  {
    hide ParseShape;
  }

  lemma BootstrapPayloads(fields: Fields)
    ensures var accepted := && AcceptedPeer(Lookup(fields, "peer"))
                            && (Lookup(fields, "protocol").Some? ==> AcceptedCapabilities(Lookup(fields, "protocol")));
            && (Parse(PayloadSchema(Hello), Obj(fields)).Some? <==> accepted)
            && (Parse(PayloadSchema(Welcome), Obj(fields)).Some? <==> accepted)
  {
    hide PEER, CAPABILITIES;
    if Lookup(fields, "peer").Some? {
      PeerAccepted(Lookup(fields, "peer").value);
    }
    if Lookup(fields, "protocol").Some? {
      CapabilitiesAccepted(Lookup(fields, "protocol").value);
    }
  }
}
