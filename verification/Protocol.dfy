/**
 The relay's transport frames: two envelope versions over two carriers, a parser that accepts both on either,
 and a shortcut that forwards received bytes untouched.
 */
module Protocol {
  import opened RelayTypes
  import opened Values
  import opened Schemas
  import opened WireSchemas

  datatype Signal = Signal(
    kind: Kind, roomId: string, fromPeerId: string, toPeerId: Option<string>, timestamp: real, payload: Value)

  /** What the validator returns: non-empty ids and a payload that is already in normal form. */
  predicate Normalized(signal: Signal) {
    && signal.roomId != "" && signal.fromPeerId != ""
    && (signal.toPeerId.Some? ==> signal.toPeerId.value != "")
    && Parse(PayloadSchema(signal.kind), signal.payload) == Some(signal.payload)
  }

  // ---------------------------------------------------------------- parsing envelopes

  /** Ids and payload as found on the wire, types checked but not yet validated. */
  datatype Raw = Raw(
    kind: Kind, roomId: string, fromPeerId: string, toPeerId: Option<string>, timestamp: Option<Number>, payload: Option<Value>)

  function ReadRaw(fields: Fields): Option<Raw> {
    match (Lookup(fields, "type"), Lookup(fields, "roomId"), Lookup(fields, "fromPeerId"))
    case (Some(Str(name)), Some(Str(roomId)), Some(Str(fromPeerId))) =>
      var to, timestamp := Lookup(fields, "toPeerId"), Lookup(fields, "timestamp");
      if KindNamed(name).None? || (to.Some? && !to.value.Str?) || (timestamp.Some? && !timestamp.value.Num?) then None
      else Some(Raw(KindNamed(name).value, roomId, fromPeerId,
                    if to.Some? then Some(to.value.text) else None,
                    if timestamp.Some? then Some(timestamp.value.number) else None,
                    Lookup(fields, "payload")))
    case _ => None
  }

  function Validate(raw: Raw, timestamp: Number, payload: Value): Option<Signal> {
    if raw.roomId == "" || raw.fromPeerId == "" || raw.toPeerId == Some("") || !timestamp.Real? then None
    else match Parse(PayloadSchema(raw.kind), payload)
         case None => None
         case Some(parsed) => Some(Signal(raw.kind, raw.roomId, raw.fromPeerId, raw.toPeerId, timestamp.value, parsed))
  }

  /** An event travels one level deeper in the old envelope; a missing or null payload counts as an empty one. */
  function LegacyPayload(kind: Kind, payload: Option<Value>): Option<Value> {
    if !kind.EventKind? then
      if payload.None? || payload.value.Null? then Some(Obj(NoFields)) else payload
    else if payload.None? || ObjectView(payload.value).None? then None
    else Lookup(ObjectView(payload.value).value, "event")
  }

  datatype Carrier = JsonText | MsgPackBytes

  function CarrierName(carrier: Carrier): string {
    if carrier.JsonText? then "json" else "msgpack"
  }

  const ONE := Num(Real(1.0))
  const TWO := Num(Real(2.0))

  predicate IsLegacyEnvelope(fields: Fields) {
    Lookup(fields, "source") == Some(Str("roomful")) && Lookup(fields, "version") == Some(ONE)
  }

  predicate IsModernEnvelope(fields: Fields, carrier: Carrier) {
    && Lookup(fields, "source") == Some(Str("roomful")) && Lookup(fields, "protocolVersion") == Some(TWO)
    && Lookup(fields, "codec") == Some(Str(CarrierName(carrier)))
  }

  /** The legacy part of an envelope, if it can be read. */
  function LegacyRaw(fields: Fields): Option<Raw> {
    match Lookup(fields, "signal")
    case None => None
    case Some(v) => if ObjectView(v).None? then None else ReadRaw(ObjectView(v).value)
  }

  function NormalizeEnvelope(v: Value, now: real, carrier: Carrier): Option<Signal> {
    match ObjectView(v)
    case None => None
    case Some(fields) =>
      if IsLegacyEnvelope(fields) then
        match LegacyRaw(fields)
        case None => None
        case Some(raw) =>
          match LegacyPayload(raw.kind, raw.payload)
          case None => None
          case Some(payload) => Validate(raw, if raw.timestamp.Some? then raw.timestamp.value else Real(now), payload)
      else if IsModernEnvelope(fields, carrier) then
        match ReadRaw(fields)
        case None => None
        case Some(raw) =>
          if raw.timestamp.None? || raw.payload.None? then None
          else Validate(raw, raw.timestamp.value, raw.payload.value)
      else None
  }

  // ---------------------------------------------------------------- printing envelopes

  function WithTarget(to: Option<string>, rest: Fields): Fields {
    if to.Some? then Field("toPeerId", Str(to.value), rest) else rest
  }

  function LegacySignal(signal: Signal): Fields {
    Field("type", Str(KindName(signal.kind)),
    Field("roomId", Str(signal.roomId),
    Field("fromPeerId", Str(signal.fromPeerId),
    WithTarget(signal.toPeerId,
    Field("payload",
          if signal.kind.EventKind? then Obj(Field("event", signal.payload, NoFields)) else signal.payload, NoFields)))))
  }

  function EncodeLegacy(signal: Signal): Value {
    Obj(Field("source", Str("roomful"), Field("version", ONE, Field("signal", Obj(LegacySignal(signal)), NoFields))))
  }

  function ModernFields(signal: Signal, codec: Codec): Fields {
    Field("source", Str("roomful"),
    Field("protocolVersion", TWO,
    Field("codec", Str(if codec.Json? then "json" else "msgpack"),
    Field("roomId", Str(signal.roomId),
    Field("fromPeerId", Str(signal.fromPeerId),
    WithTarget(signal.toPeerId,
    Field("timestamp", Num(Real(signal.timestamp)),
    Field("type", Str(KindName(signal.kind)),
    Field("payload", signal.payload, NoFields)))))))))
  }

  // ---------------------------------------------------------------- frames

  /** A frame is text holding a JSON tree, bytes holding a MessagePack tree, or neither. */
  datatype Frame = TextFrame(json: Value) | Binary(packed: Value) | Garbage

  datatype Session = Session(version: int, codec: Codec, legacy: bool)

  function ResolveSession(protocol: Option<Capabilities>): Session {
    match protocol
    case None => Session(1, Json, true)
    case Some(p) =>
      var version := if p.maxVersion >= 2 then 2 else 1;
      Session(version, if version >= 2 && MsgPack in p.codecs then MsgPack else Json, false)
  }

  datatype TransportMessage = TransportMessage(signal: Signal, encoding: Carrier, raw: Frame)

  function Envelope(signal: Signal, session: Session): Value {
    if session.version == 1 || session.legacy then EncodeLegacy(signal) else Obj(ModernFields(signal, session.codec))
  }

  function Wrap(envelope: Value): Value {
    Obj(Field("type", Str("transport"), Field("message", envelope, NoFields)))
  }

  function SerializeSignal(signal: Signal, session: Session): Frame {
    var wrapped := Wrap(Envelope(signal, session));
    if session.version >= 2 && session.codec.MsgPack? then Binary(wrapped) else TextFrame(JsonCarry(wrapped))
  }

  /** Received MessagePack bytes go out as they came to a peer that reads MessagePack. */
  function SerializeTransport(message: TransportMessage, session: Session): Frame {
    if message.encoding.MsgPackBytes? && message.raw.Binary? && session.version >= 2 && session.codec.MsgPack? && !session.legacy
    then message.raw
    else SerializeSignal(message.signal, session)
  }

  function ParseWrapper(v: Value, carrier: Carrier, now: real, raw: Frame): Option<TransportMessage> {
    match ObjectView(v)
    case None => None
    case Some(fields) =>
      match (Lookup(fields, "type"), Lookup(fields, "message"))
      case (Some(Str(name)), Some(message)) =>
        if name != "transport" then None
        else (match NormalizeEnvelope(message, now, carrier)
              case None => None
              case Some(signal) => Some(TransportMessage(signal, carrier, raw)))
      case _ => None
  }

  function ParseTransport(frame: Frame, now: real): Option<TransportMessage> {
    match frame
    case TextFrame(v) => ParseWrapper(v, JsonText, now, frame)
    case Binary(v) => ParseWrapper(v, MsgPackBytes, now, frame)
    case Garbage => None
  }

  function ParseSignal(frame: Frame, now: real): Option<Signal> {
    match ParseTransport(frame, now)
    case None => None
    case Some(message) => Some(message.signal)
  }
}

/** Round trips through the wire format, and the shortcut against the long way. */
module ProtocolRoundTrips {
  import opened RelayTypes
  import opened Values
  import opened Schemas
  import opened WireSchemas
  import opened Protocol

  lemma LookupCons(key: string, v: Value, rest: Fields)
    ensures forall k :: Lookup(Field(key, v, rest), k) == if k == key then Some(v) else Lookup(rest, k)
  {
  }

  /** Everything the parser lets through is in normal form, so it validates again to itself. */
  lemma ParsedIsNormalized(frame: Frame, now: real)
    requires ParseSignal(frame, now).Some?
    ensures Normalized(ParseSignal(frame, now).value)
  {
    var v := if frame.TextFrame? then frame.json else frame.packed;
    var carrier := if frame.TextFrame? then JsonText else MsgPackBytes;
    var fields := ObjectView(v).value;
    NormalizeEnvelopeNormalizes(Lookup(fields, "message").value, now, carrier);
  }

  lemma NormalizeEnvelopeNormalizes(v: Value, now: real, carrier: Carrier)
    requires NormalizeEnvelope(v, now, carrier).Some?
    ensures Normalized(NormalizeEnvelope(v, now, carrier).value)
  {
    var fields := ObjectView(v).value;
    if IsLegacyEnvelope(fields) {
      var raw := LegacyRaw(fields).value;
      ValidateNormalizes(raw, if raw.timestamp.Some? then raw.timestamp.value else Real(now), LegacyPayload(raw.kind, raw.payload).value);
    } else {
      var raw := ReadRaw(fields).value;
      ValidateNormalizes(raw, raw.timestamp.value, raw.payload.value);
    }
  }

  lemma ValidateNormalizes(raw: Raw, timestamp: Number, payload: Value)
    requires Validate(raw, timestamp, payload).Some?
    ensures Normalized(Validate(raw, timestamp, payload).value)
  {
    PayloadSchemasWellFormed(raw.kind);
    ParseIdempotent(PayloadSchema(raw.kind), payload);
  }

  lemma TargetLookups(to: Option<string>, rest: Fields)
    ensures forall k :: Lookup(WithTarget(to, rest), k) ==
              if k == "toPeerId" && to.Some? then Some(Str(to.value)) else Lookup(rest, k)
  {
    if to.Some? { LookupCons("toPeerId", Str(to.value), rest); }
  }

  lemma LegacySignalReads(signal: Signal)
    ensures var payload := if signal.kind.EventKind? then Obj(Field("event", signal.payload, NoFields)) else signal.payload;
            ReadRaw(LegacySignal(signal)) ==
            Some(Raw(signal.kind, signal.roomId, signal.fromPeerId, signal.toPeerId, None, Some(payload)))
  {
    var payload := if signal.kind.EventKind? then Obj(Field("event", signal.payload, NoFields)) else signal.payload;
    var f0 := Field("payload", payload, NoFields);
    LookupCons("payload", payload, NoFields);
    var f1 := WithTarget(signal.toPeerId, f0);
    TargetLookups(signal.toPeerId, f0);
    var f2 := Field("fromPeerId", Str(signal.fromPeerId), f1);
    LookupCons("fromPeerId", Str(signal.fromPeerId), f1);
    var f3 := Field("roomId", Str(signal.roomId), f2);
    LookupCons("roomId", Str(signal.roomId), f2);
    LookupCons("type", Str(KindName(signal.kind)), f3);
    KindNamesDistinct(signal.kind);
  }

  lemma ModernFieldsRead(signal: Signal, codec: Codec)
    ensures var fields := ModernFields(signal, codec);
            && ReadRaw(fields) == Some(Raw(signal.kind, signal.roomId, signal.fromPeerId, signal.toPeerId,
                                           Some(Real(signal.timestamp)), Some(signal.payload)))
            && !IsLegacyEnvelope(fields)
            && IsModernEnvelope(fields, if codec.Json? then JsonText else MsgPackBytes)
  {
    hide KindName, KindNamed;
    var f0 := Field("payload", signal.payload, NoFields);
    LookupCons("payload", signal.payload, NoFields);
    var f1 := Field("type", Str(KindName(signal.kind)), f0);
    LookupCons("type", Str(KindName(signal.kind)), f0);
    var f2 := Field("timestamp", Num(Real(signal.timestamp)), f1);
    LookupCons("timestamp", Num(Real(signal.timestamp)), f1);
    var f3 := WithTarget(signal.toPeerId, f2);
    TargetLookups(signal.toPeerId, f2);
    var f4 := Field("fromPeerId", Str(signal.fromPeerId), f3);
    LookupCons("fromPeerId", Str(signal.fromPeerId), f3);
    var f5 := Field("roomId", Str(signal.roomId), f4);
    LookupCons("roomId", Str(signal.roomId), f4);
    var name := Str(if codec.Json? then "json" else "msgpack");
    var f6 := Field("codec", name, f5);
    LookupCons("codec", name, f5);
    var f7 := Field("protocolVersion", TWO, f6);
    LookupCons("protocolVersion", TWO, f6);
    LookupCons("source", Str("roomful"), f7);
    KindNamesDistinct(signal.kind);
  }

  /** An envelope read on the carrier it was printed for gives the signal back; the old one loses the timestamp. */
  function Received(signal: Signal, session: Session, now: real): Signal {
    if session.version == 1 || session.legacy then signal.(timestamp := now) else signal
  }

  lemma EnvelopeRoundTrip(signal: Signal, session: Session, now: real)
    requires Normalized(signal)
    ensures NormalizeEnvelope(Envelope(signal, session), now, if session.codec.Json? then JsonText else MsgPackBytes) ==
            Some(Received(signal, session, now))
  {
    hide KindName, KindNamed, PayloadSchema, Parse;
    if session.version == 1 || session.legacy {
      LegacySignalReads(signal);
      var f0 := Field("signal", Obj(LegacySignal(signal)), NoFields);
      LookupCons("signal", Obj(LegacySignal(signal)), NoFields);
      LookupCons("version", ONE, f0);
      LookupCons("source", Str("roomful"), Field("version", ONE, f0));
      LookupCons("event", signal.payload, NoFields);
      if !signal.kind.EventKind? {
        PayloadIsObject(signal);
      }
    } else {
      ModernFieldsRead(signal, session.codec);
    }
  }

  lemma PayloadIsObject(signal: Signal)
    requires Normalized(signal)
    ensures signal.payload.Obj?
  {
  }

  lemma WrapperReads(envelope: Value, carrier: Carrier, now: real, raw: Frame)
    ensures ParseWrapper(Wrap(envelope), carrier, now, raw) ==
            match NormalizeEnvelope(envelope, now, carrier)
            case None => None
            case Some(signal) => Some(TransportMessage(signal, carrier, raw))
  {
    LookupCons("message", envelope, NoFields);
    LookupCons("type", Str("transport"), Field("message", envelope, NoFields));
  }

  // ---------------------------------------------------------------- JSON

  lemma SafeCons(key: string, v: Value, rest: Fields)
    ensures SafeFields(Field(key, v, rest)) <==> JsonSafe(v) && SafeFields(rest)
  {
  }

  lemma TargetSafe(to: Option<string>, rest: Fields)
    ensures SafeFields(WithTarget(to, rest)) <==> SafeFields(rest)
  {
    if to.Some? { SafeCons("toPeerId", Str(to.value), rest); }
  }

  lemma LegacySignalSafety(signal: Signal)
    ensures SafeFields(LegacySignal(signal)) <==> JsonSafe(signal.payload)
  {
    SafeCons("event", signal.payload, NoFields);
    var payload := if signal.kind.EventKind? then Obj(Field("event", signal.payload, NoFields)) else signal.payload;
    var f0 := Field("payload", payload, NoFields);
    SafeCons("payload", payload, NoFields);
    var f1 := WithTarget(signal.toPeerId, f0);
    TargetSafe(signal.toPeerId, f0);
    var f2 := Field("fromPeerId", Str(signal.fromPeerId), f1);
    SafeCons("fromPeerId", Str(signal.fromPeerId), f1);
    SafeCons("roomId", Str(signal.roomId), f2);
    SafeCons("type", Str(KindName(signal.kind)), Field("roomId", Str(signal.roomId), f2));
  }

  lemma ModernSafety(signal: Signal, codec: Codec)
    ensures SafeFields(ModernFields(signal, codec)) <==> JsonSafe(signal.payload)
  {
    var f0 := Field("payload", signal.payload, NoFields);
    SafeCons("payload", signal.payload, NoFields);
    var f1 := Field("type", Str(KindName(signal.kind)), f0);
    SafeCons("type", Str(KindName(signal.kind)), f0);
    var f2 := Field("timestamp", Num(Real(signal.timestamp)), f1);
    SafeCons("timestamp", Num(Real(signal.timestamp)), f1);
    var f3 := WithTarget(signal.toPeerId, f2);
    TargetSafe(signal.toPeerId, f2);
    var f4 := Field("fromPeerId", Str(signal.fromPeerId), f3);
    SafeCons("fromPeerId", Str(signal.fromPeerId), f3);
    var f5 := Field("roomId", Str(signal.roomId), f4);
    SafeCons("roomId", Str(signal.roomId), f4);
    var name := Str(if codec.Json? then "json" else "msgpack");
    var f6 := Field("codec", name, f5);
    SafeCons("codec", name, f5);
    SafeCons("protocolVersion", TWO, f6);
    SafeCons("source", Str("roomful"), Field("protocolVersion", TWO, f6));
  }

  lemma EnvelopeSafety(signal: Signal, session: Session)
    ensures JsonSafe(Wrap(Envelope(signal, session))) <==> JsonSafe(signal.payload)
  {
    var envelope := Envelope(signal, session);
    SafeCons("message", envelope, NoFields);
    SafeCons("type", Str("transport"), Field("message", envelope, NoFields));
    if session.version == 1 || session.legacy {
      LegacySignalSafety(signal);
      var f0 := Field("signal", Obj(LegacySignal(signal)), NoFields);
      SafeCons("signal", Obj(LegacySignal(signal)), NoFields);
      SafeCons("version", ONE, f0);
      SafeCons("source", Str("roomful"), Field("version", ONE, f0));
    } else {
      ModernSafety(signal, session.codec);
    }
  }

  lemma NormalizeSafe(v: Value, now: real, carrier: Carrier)
    requires JsonSafe(v) && NormalizeEnvelope(v, now, carrier).Some?
    ensures JsonSafe(NormalizeEnvelope(v, now, carrier).value.payload)
  {
    var fields := ObjectView(v).value;
    if IsLegacyEnvelope(fields) {
      LookupSafe(fields, "signal");
      var inner := ObjectView(Lookup(fields, "signal").value).value;
      LookupSafe(inner, "payload");
      var raw := LegacyRaw(fields).value;
      if raw.kind.EventKind? {
        LookupSafe(ObjectView(raw.payload.value).value, "event");
      }
      ParseSafe(PayloadSchema(raw.kind), LegacyPayload(raw.kind, raw.payload).value);
    } else {
      LookupSafe(fields, "payload");
      var raw := ReadRaw(fields).value;
      ParseSafe(PayloadSchema(raw.kind), raw.payload.value);
    }
  }

  /**
   What a peer gets depends on what it announced: MessagePack for version 2 with that codec, and else JSON; its own
   timestamp with version 2, and the parser's clock with a lower version or none. MessagePack always gives the signal
   back; JSON does exactly when the payload has no byte strings and no non-finite numbers.
   */
  lemma TransportRoundTrip(signal: Signal, protocol: Option<Capabilities>, now: real)
    requires Normalized(signal)
    ensures var frame := SerializeSignal(signal, ResolveSession(protocol));
            && !frame.Garbage?
            && (frame.Binary? <==>
                 protocol.Some? && protocol.value.maxVersion >= 2 && MsgPack in protocol.value.codecs)
            && (frame.Binary? ==> ParseSignal(frame, now) == Some(signal))
            && (frame.TextFrame? && protocol.Some? && protocol.value.maxVersion >= 2 ==>
                 (ParseSignal(frame, now) == Some(signal) <==> JsonSafe(signal.payload)))
            && (protocol.None? || protocol.value.maxVersion < 2 ==>
                 (ParseSignal(frame, now) == Some(signal.(timestamp := now)) <==> JsonSafe(signal.payload)))
  {
    SessionRoundTrip(signal, protocol, now);
  }

  lemma SessionRoundTrip(signal: Signal, protocol: Option<Capabilities>, now: real)
    requires Normalized(signal)
    ensures var session := ResolveSession(protocol);
            var frame := SerializeSignal(signal, session);
            && (frame.Binary? ==> ParseSignal(frame, now) == Some(signal))
            && (frame.TextFrame? ==>
                 (ParseSignal(frame, now) == Some(Received(signal, session, now)) <==> JsonSafe(signal.payload)))
            && !frame.Garbage?
  {
    var session := ResolveSession(protocol);
    var frame := SerializeSignal(signal, session);
    var envelope := Envelope(signal, session);
    var carrier := if session.codec.Json? then JsonText else MsgPackBytes;
    EnvelopeRoundTrip(signal, session, now);
    WrapperReads(envelope, carrier, now, frame);
    EnvelopeSafety(signal, session);
    JsonCarriesSafeValues(Wrap(envelope));
    if frame.TextFrame? && ParseSignal(frame, now).Some? {
      var fields := ObjectView(frame.json).value;
      LookupSafe(fields, "message");
      NormalizeSafe(Lookup(fields, "message").value, now, JsonText);
    }
  }

  // ---------------------------------------------------------------- what is refused

  /** Whatever the parser accepts says that it is ours, names a version, and version 2 names its carrier's codec. */
  lemma AcceptedIsOurs(frame: Frame, now: real)
    requires ParseSignal(frame, now).Some?
    ensures !frame.Garbage?
    ensures var fields := ObjectView(if frame.TextFrame? then frame.json else frame.packed);
            && fields.Some? && Lookup(fields.value, "type") == Some(Str("transport"))
            && Lookup(fields.value, "message").Some?
            && var envelope := ObjectView(Lookup(fields.value, "message").value);
               && envelope.Some? && Lookup(envelope.value, "source") == Some(Str("roomful"))
               && (Lookup(envelope.value, "version") == Some(Num(Real(1.0)))
                   || (Lookup(envelope.value, "protocolVersion") == Some(Num(Real(2.0)))
                       && Lookup(envelope.value, "codec") ==
                          Some(Str(if frame.TextFrame? then "json" else "msgpack"))
                       && Lookup(envelope.value, "timestamp").Some? && Lookup(envelope.value, "payload").Some?))
  {
  }

  /** An old envelope may leave out its payload, or have null there: that counts as an empty one, but for events. */
  lemma MissingLegacyPayload(fields: Fields, now: real, carrier: Carrier)
    requires Lookup(fields, "source") == Some(Str("roomful")) && Lookup(fields, "version") == Some(Num(Real(1.0)))
    requires LegacyRaw(fields).Some? && !LegacyRaw(fields).value.kind.EventKind?
    requires LegacyRaw(fields).value.payload == None || LegacyRaw(fields).value.payload == Some(Null)
    requires NormalizeEnvelope(Obj(fields), now, carrier).Some?
    ensures Some(NormalizeEnvelope(Obj(fields), now, carrier).value.payload) ==
            Parse(PayloadSchema(LegacyRaw(fields).value.kind), Obj(NoFields))
  {
  }

  // ---------------------------------------------------------------- the shortcut

  const MODERN_BINARY := Session(2, MsgPack, false)

  /** An old envelope without a timestamp, which each parser dates by its own clock. */
  predicate Undated(frame: Frame)
    requires frame.Binary?
  {
    var message := if ObjectView(frame.packed).Some? then Lookup(ObjectView(frame.packed).value, "message") else None;
    message.Some? && ObjectView(message.value).Some? &&
    var fields := ObjectView(message.value).value;
    IsLegacyEnvelope(fields) && LegacyRaw(fields).Some? && LegacyRaw(fields).value.timestamp.None?
  }

  /** The clock is all a parse depends on, and only if the frame is undated. */
  lemma ClockMatters(frame: Frame, now: real, later: real)
    requires frame.Binary? && ParseSignal(frame, now).Some?
    ensures ParseSignal(frame, later) ==
            Some(if Undated(frame) then ParseSignal(frame, now).value.(timestamp := later) else ParseSignal(frame, now).value)
    ensures Undated(frame) ==> ParseSignal(frame, now).value.timestamp == now
  {
  }

  /**
   Received bytes forwarded as they came, and the same signal printed anew, read the same at the receiver: always
   for a dated frame, and for an undated one exactly when the receiver's clock shows what the relay's did.
   */
  lemma ShortcutAgrees(frame: Frame, relayClock: real, receiverClock: real)
    requires frame.Binary? && ParseTransport(frame, relayClock).Some?
    ensures var message := ParseTransport(frame, relayClock).value;
            var fast := SerializeTransport(message, MODERN_BINARY);
            var slow := SerializeSignal(message.signal, MODERN_BINARY);
            && fast == frame
            && ParseSignal(slow, receiverClock) == Some(message.signal)
            && (ParseSignal(fast, receiverClock) == ParseSignal(slow, receiverClock) <==>
                 !Undated(frame) || relayClock == receiverClock)
  {
    var message := ParseTransport(frame, relayClock).value;
    ParsedIsNormalized(frame, relayClock);
    EnvelopeRoundTrip(message.signal, MODERN_BINARY, receiverClock);
    WrapperReads(Envelope(message.signal, MODERN_BINARY), MsgPackBytes, receiverClock, SerializeSignal(message.signal, MODERN_BINARY));
    ClockMatters(frame, relayClock, receiverClock);
  }

  /** An old envelope as bytes, which has no timestamp: whatever signal it carries, two clocks tell the forms apart. */
  lemma UndatedFormsDiffer(signal: Signal, relayClock: real, receiverClock: real)
    requires Normalized(signal) && relayClock != receiverClock
    ensures var frame := Binary(Wrap(EncodeLegacy(signal)));
            && ParseTransport(frame, relayClock).Some? && Undated(frame)
            && var message := ParseTransport(frame, relayClock).value;
               ParseSignal(SerializeTransport(message, MODERN_BINARY), receiverClock)
               != ParseSignal(SerializeSignal(message.signal, MODERN_BINARY), receiverClock)
  {
    var frame := Binary(Wrap(EncodeLegacy(signal)));
    EnvelopeRoundTrip(signal, Session(1, MsgPack, true), relayClock);
    WrapperReads(EncodeLegacy(signal), MsgPackBytes, relayClock, frame);
    LegacyIsUndated(signal);
    ShortcutAgrees(frame, relayClock, receiverClock);
  }

  lemma LegacyIsUndated(signal: Signal)
    ensures Undated(Binary(Wrap(EncodeLegacy(signal))))
  {
    var message := EncodeLegacy(signal);
    LookupCons("message", message, NoFields);
    LookupCons("type", Str("transport"), Field("message", message, NoFields));
    LegacySignalReads(signal);
    var f0 := Field("signal", Obj(LegacySignal(signal)), NoFields);
    LookupCons("signal", Obj(LegacySignal(signal)), NoFields);
    LookupCons("version", ONE, f0);
    LookupCons("source", Str("roomful"), Field("version", ONE, f0));
  }

  /** There are such signals: a peer that leaves. */
  lemma LeaveIsNormalized()
    ensures Normalized(Signal(LeaveKind, "room", "peer", None, 0.0, Obj(NoFields)))
  {
  }
}
