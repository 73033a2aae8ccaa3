/**
 The messages of the generated service `TestHostToJvm` as bytes: what its structs read and write, what its dispatcher
 answers, what its client makes of the answer.

 A string stands for its UTF-8 bytes, so that strings and binary values are read and written alike; `None` is the
 null reference.
 */
module Messages {
  import opened Wrappers
  import opened BinaryEncoding

  // ---------- the generated structs

  /** What the read method of a generated struct leaves in its one field, whose id is `own` (`None`: the struct has no
      fields), and the bytes after the struct. `value` is what the field holds before. */
  function ReadStruct(own: Option<int>, s: Bytes, value: Option<Bytes>): (r: Option<(Option<Bytes>, Bytes)>)
    decreases |s|
  {
    if s == [] then None
    else if s[0] == Stop then Some((value, s[1..]))
    else if |s| < 3 then None
    else if Some(AsI16(s[1..])) == own && s[0] == TString then
      match DecodeText(s[3..])
      case None => None
      case Some((text, rest)) => ReadStruct(own, rest, Some(text))
    else
      match Skip(s[0], s[3..])
      case None => None
      case Some(rest) => ReadStruct(own, rest, value)
  }

  /** The fields that the write method of a generated struct writes. */
  function FieldsOf(own: int, value: Option<Bytes>): Fields {
    if value.Some? then Field(own, Text(value.value), EndOfFields) else EndOfFields
  }

  function WriteStruct(own: int, value: Option<Bytes>): Bytes {
    EncodeFields(FieldsOf(own, value))
  }

  /** The field is the struct's own, of the right type. */
  predicate IsOwn(own: Option<int>, id: int, content: Value) {
    Some(id) == own && content.Text?
  }

  /** What the own field holds after the fields `fs`. */
  function LastOwn(own: Option<int>, fs: Fields, value: Option<Bytes>): Option<Bytes> {
    match fs
    case EndOfFields => value
    case Field(id, content, others) =>
      LastOwn(own, others, if IsOwn(own, id, content) then Some(content.text) else value)
  }

  /** Field number `k` of a field list. */
  function Nth(fs: Fields, k: nat): Fields {
    match fs
    case EndOfFields => EndOfFields
    case Field(_, _, others) => if k == 0 then fs else Nth(others, k - 1)
  }

  /** It is the value of the last well-typed own field, if there is one. */
  lemma {:induction false} LastOwnIsLast(own: Option<int>, fs: Fields, value: Option<Bytes>, k: nat)
    requires Nth(fs, k).Field? && IsOwn(own, Nth(fs, k).id, Nth(fs, k).content)
    requires forall j: nat :: j > k && Nth(fs, j).Field? ==> !IsOwn(own, Nth(fs, j).id, Nth(fs, j).content)
    ensures LastOwn(own, fs, value) == Some(Nth(fs, k).content.text)
  {
    var others := fs.others;
    assert forall j: nat :: Nth(fs, j + 1) == Nth(others, j);
    var kept := if IsOwn(own, fs.id, fs.content) then Some(fs.content.text) else value;
    if k > 0 {
      LastOwnIsLast(own, others, kept, k - 1);
    } else {
      NoOwn(own, others, kept);
    }
  }

  lemma {:induction false} NoOwn(own: Option<int>, fs: Fields, value: Option<Bytes>)
    requires forall j: nat :: Nth(fs, j).Field? ==> !IsOwn(own, Nth(fs, j).id, Nth(fs, j).content)
    ensures LastOwn(own, fs, value) == value
  {
    match fs
    case EndOfFields =>
    case Field(id, content, others) =>
      assert Nth(fs, 0) == fs;
      assert forall j: nat :: Nth(fs, j + 1) == Nth(others, j);
      NoOwn(own, others, value);
  }

  /** Forward compatibility: whatever well-formed fields stand in a struct, under foreign ids or with the wrong type,
      read finds the last well-typed value of its own field and stops just behind the matching stop byte. */
  lemma {:induction false} ReadFields(own: Option<int>, fs: Fields, rest: Bytes, value: Option<Bytes>)
    requires WellFormedFields(fs)
    ensures ReadStruct(own, EncodeFields(fs) + rest, value) == Some((LastOwn(own, fs, value), rest))
  {
    hide Skip, Encode, DecodeText, EncodeText, I16;
    match fs
    case EndOfFields =>
    case Field(id, content, others) =>
      var tail := EncodeFields(others) + rest;
      TypeIsNotStop(content);
      FieldAt(fs, rest);
      if content.Text? {
        TextRoundTrip(content.text, tail);
        EncodeOfText(content);
      }
      SkipEncoded(content, tail);
      OnlyTextIsString(content);
      ReadFields(own, others, rest, if IsOwn(own, id, content) then Some(content.text) else value);
  }

  lemma EncodeOfText(v: Value)
    requires v.Text?
    ensures Encode(v) == EncodeText(v.text)
  {
  }

  lemma OnlyTextIsString(v: Value)
    requires WellFormed(v)
    ensures TypeOf(v) == TString <==> v.Text?
  {
  }

  /** The reader of a struct and the skipper that knows nothing of it accept the same bytes and stop at the same
      place. */
  lemma {:induction false} ReadAgreesWithSkip(own: Option<int>, s: Bytes, value: Option<Bytes>)
    ensures ReadStruct(own, s, value).Some? <==> SkipFields(s).Some?
    ensures ReadStruct(own, s, value).Some? ==> ReadStruct(own, s, value).value.1 == SkipFields(s).value
    decreases |s|
  {
    if |s| >= 3 && s[0] != Stop && Skip(s[0], s[3..]).Some? {
      var rest := Skip(s[0], s[3..]).value;
      ReadAgreesWithSkip(own, rest, value);
      if s[0] == TString {
        ReadAgreesWithSkip(own, rest, Some(DecodeText(s[3..]).value.0));
      }
    }
  }

  /** What a struct has written comes back, and exactly its bytes are read, if and only if the length of the value fits
      31 bits. */
  lemma StructRoundTrip(own: int, value: Option<Bytes>, rest: Bytes)
    requires FitsI16(own)
    ensures ReadStruct(Some(own), WriteStruct(own, value) + rest, None) == Some((value, rest))
            <==> (value.Some? ==> FitsI32(|value.value|))
  {
    var fs := FieldsOf(own, value);
    if value.Some? ==> FitsI32(|value.value|) {
      ReadFields(Some(own), fs, rest, None);
    } else if ReadStruct(Some(own), WriteStruct(own, value) + rest, None) == Some((value, rest)) {
      LongIsNotRead(own, value.value, rest);
    }
  }

  /** A length is read back as at most 2^31 - 1. */
  lemma DecodedFits(s: Bytes)
    requires DecodeText(s).Some?
    ensures FitsI32(|DecodeText(s).value.0|)
  {
    I32Back(s);
  }

  lemma {:induction false} ReadFits(own: Option<int>, s: Bytes, value: Option<Bytes>)
    requires ReadStruct(own, s, value).Some? && (value.Some? ==> FitsI32(|value.value|))
    ensures var found := ReadStruct(own, s, value).value.0; found.Some? ==> FitsI32(|found.value|)
    decreases |s|
  {
    if s[0] != Stop {
      if Some(AsI16(s[1..])) == own && s[0] == TString {
        DecodedFits(s[3..]);
        var (text, rest) := DecodeText(s[3..]).value;
        ReadFits(own, rest, Some(text));
      } else {
        ReadFits(own, Skip(s[0], s[3..]).value, value);
      }
    }
  }

  lemma LongIsNotRead(own: int, value: Bytes, rest: Bytes)
    requires !FitsI32(|value|)
    ensures ReadStruct(Some(own), WriteStruct(own, Some(value)) + rest, None) != Some((Some(value), rest))
  {
    if ReadStruct(Some(own), WriteStruct(own, Some(value)) + rest, None).Some? {
      ReadFits(Some(own), WriteStruct(own, Some(value)) + rest, None);
    }
  }

  // ---------- message headers

  const Call: Byte := 1
  const Reply: Byte := 2
  const Exception: Byte := 3

  /** The strict header: version 1, the message type, the name and the sequence id. */
  function MessageBegin(name: Bytes, mtype: Byte, seqid: int): Bytes {
    [0x80, 0x01, 0, mtype] + (EncodeText(name) + I32(seqid))
  }

  datatype Header = Header(name: Bytes, mtype: Byte, seqid: int)

  function ReadMessageBegin(s: Bytes): (r: Option<(Header, Bytes)>) {
    if |s| < 4 || s[0] != 0x80 || s[1] != 0x01 then None
    else
      match DecodeText(s[4..])
      case None => None
      case Some((name, rest)) =>
        if |rest| < 4 then None else Some((Header(name, s[3], AsI32(rest)), rest[4..]))
  }

  lemma MessageBeginRoundTrip(name: Bytes, mtype: Byte, seqid: int, rest: Bytes)
    requires FitsI32(|name|) && FitsI32(seqid)
    ensures ReadMessageBegin(MessageBegin(name, mtype, seqid) + rest) == Some((Header(name, mtype, seqid), rest))
  {
    hide AsI32, EncodeText, DecodeText;
    var s := MessageBegin(name, mtype, seqid) + rest;
    assert s == [0x80, 0x01, 0, mtype] + (EncodeText(name) + (I32(seqid) + rest));
    assert s[4..] == EncodeText(name) + (I32(seqid) + rest);
    TextRoundTrip(name, I32(seqid) + rest);
    I32At(seqid, rest);
    assert |I32(seqid)| == 4;
  }

  /** ASCII text as bytes. */
  function Ascii(text: string): Bytes {
    seq(|text|, i requires 0 <= i < |text| => text[i] as int % 256)
  }

  // ---------- application exceptions

  const UnknownMethod := 1
  const MissingResult := 5

  /** TApplicationException is written as a struct of a message and a type. */
  function ExceptionFields(reason: Bytes, code: int): Fields {
    Field(1, Text(reason), Field(2, Fixed(TI32, I32(code)), EndOfFields))
  }

  function WriteException(reason: Bytes, code: int): Bytes {
    EncodeFields(ExceptionFields(reason, code))
  }

  /** Its reader skips every field that is neither. */
  function ReadException(s: Bytes, reason: Option<Bytes>, code: int): (r: Option<(Option<Bytes>, int)>)
    decreases |s|
  {
    if s == [] then None
    else if s[0] == Stop then Some((reason, code))
    else if |s| < 3 then None
    else
      match Skip(s[0], s[3..])
      case None => None
      case Some(rest) =>
        if AsI16(s[1..]) == 1 && s[0] == TString then ReadException(rest, Some(DecodeText(s[3..]).value.0), code)
        else if AsI16(s[1..]) == 2 && s[0] == TI32 then ReadException(rest, reason, AsI32(s[3..]))
        else ReadException(rest, reason, code)
  }

  /** The type that is left after the fields `fs`: that of the last field 2 that is an i32. */
  function LastCode(fs: Fields, code: int): int
    requires WellFormedFields(fs)
  {
    match fs
    case EndOfFields => code
    case Field(id, content, others) =>
      assert WellFormed(content);
      LastCode(others, if id == 2 && content.Fixed? && content.ttype == TI32 then AsI32(content.payload) else code)
  }

  /** Forward compatibility again: from whatever well-formed fields there are, the last message and the last type are
      taken. */
  lemma {:induction false} ReadExceptionFields(fs: Fields, rest: Bytes, reason: Option<Bytes>, code: int)
    requires WellFormedFields(fs)
    ensures ReadException(EncodeFields(fs) + rest, reason, code) ==
            Some((LastOwn(Some(1), fs, reason), LastCode(fs, code)))
  {
    hide Skip, Encode, DecodeText, EncodeText, I16, AsI32;
    match fs
    case EndOfFields =>
    case Field(id, content, others) =>
      var tail := EncodeFields(others) + rest;
      TypeIsNotStop(content);
      FieldAt(fs, rest);
      SkipEncoded(content, tail);
      OnlyTextIsString(content);
      if content.Text? {
        TextRoundTrip(content.text, tail);
        EncodeOfText(content);
      } else if TypeOf(content) == TI32 {
        NumberAt(content, tail);
      }
      ReadExceptionFields(others, rest, if IsOwn(Some(1), id, content) then Some(content.text) else reason,
                          if id == 2 && TypeOf(content) == TI32 then AsI32(content.payload) else code);
  }

  lemma NumberAt(v: Value, tail: Bytes)
    requires WellFormed(v) && TypeOf(v) == TI32
    ensures v.Fixed? && |v.payload| == 4 && |Encode(v) + tail| >= 4 && AsI32(Encode(v) + tail) == AsI32(v.payload)
  {
    assert (Encode(v) + tail)[..4] == v.payload[..4];
  }

  lemma ExceptionRoundTrip(reason: Bytes, code: int)
    requires FitsI32(|reason|) && FitsI32(code)
    ensures ReadException(WriteException(reason, code), None, 0) == Some((Some(reason), code))
  {
    ExceptionIsWellFormed(reason, code);
    ReadExceptionFields(ExceptionFields(reason, code), [], None, 0);
    assert WriteException(reason, code) + [] == WriteException(reason, code);
  }

  lemma ExceptionIsWellFormed(reason: Bytes, code: int)
    requires FitsI32(|reason|) && FitsI32(code)
    ensures var fs := ExceptionFields(reason, code);
            WellFormedFields(fs) && LastOwn(Some(1), fs, None) == Some(reason) && LastCode(fs, 0) == code
  {
    hide AsI32;
    var payload := I32(code);
    assert |payload| == 4 && AsI32(payload) == code by {
      I32At(code, []);
      assert payload + [] == payload;
    }
    var number := Field(2, Fixed(TI32, payload), EndOfFields);
    assert WellFormed(Text(reason)) && WellFormed(number.content);
    assert LastOwn(Some(1), number, Some(reason)) == LastOwn(Some(1), EndOfFields, Some(reason));
    assert LastCode(number, 0) == LastCode(EndOfFields, code);
  }

  /** The reader of an exception accepts what the skipper accepts. */
  lemma {:induction false} ReadExceptionAgreesWithSkip(s: Bytes, reason: Option<Bytes>, code: int)
    ensures ReadException(s, reason, code).Some? <==> SkipFields(s).Some?
    decreases |s|
  {
    if |s| >= 3 && s[0] != Stop && Skip(s[0], s[3..]).Some? {
      var rest := Skip(s[0], s[3..]).value;
      ReadExceptionAgreesWithSkip(rest, reason, code);
      if s[0] == TString {
        ReadExceptionAgreesWithSkip(rest, Some(DecodeText(s[3..]).value.0), code);
      } else if s[0] == TI32 {
        ReadExceptionAgreesWithSkip(rest, reason, AsI32(s[3..]));
      }
    }
  }

  // ---------- the dispatcher

  /** What a service method does: it returns, or it throws. */
  datatype Outcome<T> = Returned(value: T) | Raised

  datatype Service = Service(
    echoString: Option<Bytes> -> Outcome<Option<Bytes>>,
    echoBinary: Option<Bytes> -> Outcome<Option<Bytes>>,
    throwException: Outcome<()>)

  const EchoString: Bytes := Ascii("echoString")
  const EchoBinary: Bytes := Ascii("echoBinary")
  const ThrowException: Bytes := Ascii("throwException")

  /** The names on the wire. */
  lemma NameBytes()
    ensures EchoString == [101, 99, 104, 111, 83, 116, 114, 105, 110, 103]
    ensures EchoBinary == [101, 99, 104, 111, 66, 105, 110, 97, 114, 121]
    ensures ThrowException == [116, 104, 114, 111, 119, 69, 120, 99, 101, 112, 116, 105, 111, 110]
  {
  }

  lemma NamesDiffer()
    ensures EchoString != EchoBinary && EchoString != ThrowException && EchoBinary != ThrowException
    ensures |EchoString| == 10 && |EchoBinary| == 10 && |ThrowException| == 14
  {
    assert EchoString[4] != EchoBinary[4];
  }

  /** `Answered`: one message is written, `unread` is what is left of the input. `Silent`: nothing is written.
      `Malformed`: reading failed. `ServiceRaised`: the service threw, and nothing is written. */
  datatype Dispatched =
    | Answered(reply: Bytes, unread: Bytes)
    | Silent(unread: Bytes)
    | ServiceRaised(unread: Bytes)
    | Malformed

  function Invalid(name: Bytes): Bytes {
    Ascii("Invalid method name: '") + name + Ascii("'")
  }

  function DispatchEcho(service: Option<Bytes> -> Outcome<Option<Bytes>>, name: Bytes, seqid: int, body: Bytes)
    : Dispatched
  {
    match ReadStruct(Some(1), body, None)
    case None => Malformed
    case Some((arg, rest)) =>
      match service(arg)
      case Raised => ServiceRaised(rest)
      case Returned(v) => Answered(MessageBegin(name, Reply, seqid) + WriteStruct(0, v), rest)
  }

  function DispatchOneway(service: Outcome<()>, body: Bytes): Dispatched {
    match ReadStruct(None, body, None)
    case None => Malformed
    case Some((_, rest)) => if service.Raised? then ServiceRaised(rest) else Silent(rest)
  }

  function DispatchUnknown(name: Bytes, seqid: int, body: Bytes): Dispatched {
    match Skip(TStruct, body)
    case None => Malformed
    case Some(rest) =>
      Answered(MessageBegin(name, Exception, seqid) + WriteException(Invalid(name), UnknownMethod), rest)
  }

  /** The dispatcher on a message. It does not look at the message type. */
  function Dispatch(service: Service, s: Bytes): Dispatched {
    match ReadMessageBegin(s)
    case None => Malformed
    case Some((h, body)) =>
      if h.name == EchoString then DispatchEcho(service.echoString, EchoString, h.seqid, body)
      else if h.name == EchoBinary then DispatchEcho(service.echoBinary, EchoBinary, h.seqid, body)
      else if h.name == ThrowException then DispatchOneway(service.throwException, body)
      else DispatchUnknown(h.name, h.seqid, body)
  }

  /** A message: header and argument fields. */
  function Message(h: Header, fs: Fields): Bytes {
    MessageBegin(h.name, h.mtype, h.seqid) + EncodeFields(fs)
  }

  predicate WellFormedMessage(h: Header, fs: Fields) {
    FitsI32(|h.name|) && FitsI32(h.seqid) && WellFormedFields(fs)
  }

  lemma MessageAt(h: Header, fs: Fields, rest: Bytes)
    requires WellFormedMessage(h, fs)
    ensures ReadMessageBegin(Message(h, fs) + rest) == Some((h, EncodeFields(fs) + rest))
  {
    assert Message(h, fs) + rest == MessageBegin(h.name, h.mtype, h.seqid) + (EncodeFields(fs) + rest);
    MessageBeginRoundTrip(h.name, h.mtype, h.seqid, EncodeFields(fs) + rest);
  }

  function Unread(d: Dispatched): Bytes
    requires !d.Malformed?
  {
    match d
    case Answered(_, unread) => unread
    case Silent(unread) => unread
    case ServiceRaised(unread) => unread
  }

  /** Every well-formed message is consumed as a whole and nothing behind it, whichever method it names. */
  lemma DispatchConsumesTheMessage(service: Service, h: Header, fs: Fields, rest: Bytes)
    requires WellFormedMessage(h, fs)
    ensures var d := Dispatch(service, Message(h, fs) + rest); !d.Malformed? && Unread(d) == rest
  {
    hide ReadStruct, SkipFields, ReadMessageBegin, WriteStruct, MessageBegin;
    MessageAt(h, fs, rest);
    ReadFields(Some(1), fs, rest, None);
    ReadFields(None, fs, rest, None);
    SkipEncodedFields(fs, rest);
  }

  /** Conversely, what the dispatcher does not refuse starts with a well-formed message. */
  lemma AcceptedIsWellFormed(service: Service, s: Bytes) returns (h: Header, fs: Fields)
    requires !Dispatch(service, s).Malformed?
    ensures FitsI32(|h.name|) && FitsI32(h.seqid) && WellFormedFields(fs)
    ensures ReadMessageBegin(s) == Some((h, EncodeFields(fs) + Unread(Dispatch(service, s))))
  {
    var (header, body) := ReadMessageBegin(s).value;
    h := header;
    DecodedFits(s[4..]);
    I32Back(DecodeText(s[4..]).value.1);
    ReadAgreesWithSkip(Some(1), body, None);
    ReadAgreesWithSkip(None, body, None);
    fs := SkippedFields(body);
  }

  /** An unknown name: one EXCEPTION with the name and the sequence id of the request, saying which name it was. */
  lemma UnknownNameIsReported(service: Service, h: Header, fs: Fields, rest: Bytes)
    requires WellFormedMessage(h, fs) && FitsI32(|Invalid(h.name)|)
    requires h.name != EchoString && h.name != EchoBinary && h.name != ThrowException
    ensures var d := Dispatch(service, Message(h, fs) + rest);
            && d.Answered? && d.unread == rest
            && ReadMessageBegin(d.reply) == Some((Header(h.name, Exception, h.seqid),
                                                 WriteException(Invalid(h.name), UnknownMethod)))
            && ReadException(WriteException(Invalid(h.name), UnknownMethod), None, 0) ==
               Some((Some(Invalid(h.name)), UnknownMethod))
  {
    hide SkipFields, ReadException, ReadMessageBegin, MessageBegin, WriteException;
    MessageAt(h, fs, rest);
    SkipEncodedFields(fs, rest);
    MessageBeginRoundTrip(h.name, Exception, h.seqid, WriteException(Invalid(h.name), UnknownMethod));
    ExceptionRoundTrip(Invalid(h.name), UnknownMethod);
  }

  /** The method that a two-way name stands for. */
  function Echo(service: Service, name: Bytes): Option<Bytes> -> Outcome<Option<Bytes>> {
    if name == EchoString then service.echoString else service.echoBinary
  }

  /** A two-way method whose service returns: one REPLY with the name and the sequence id of the request, from which
      the value is read back. */
  lemma ReplyMatchesRequest(service: Service, h: Header, fs: Fields, rest: Bytes, value: Option<Bytes>)
    requires WellFormedMessage(h, fs) && (h.name == EchoString || h.name == EchoBinary)
    requires Echo(service, h.name)(LastOwn(Some(1), fs, None)) == Returned(value)
    requires value.Some? ==> FitsI32(|value.value|)
    ensures var d := Dispatch(service, Message(h, fs) + rest);
            && d.Answered? && d.unread == rest
            && ReadMessageBegin(d.reply) == Some((Header(h.name, Reply, h.seqid), WriteStruct(0, value)))
            && ReadStruct(Some(0), WriteStruct(0, value), None) == Some((value, []))
  {
    hide ReadStruct, ReadMessageBegin, MessageBegin, WriteStruct;
    NamesDiffer();
    MessageAt(h, fs, rest);
    ReadFields(Some(1), fs, rest, None);
    MessageBeginRoundTrip(h.name, Reply, h.seqid, WriteStruct(0, value));
    StructRoundTrip(0, value, []);
    assert WriteStruct(0, value) + [] == WriteStruct(0, value);
  }

  /** The oneway method writes nothing, whatever its service does, and a service that throws has nothing written. */
  lemma NothingIsWritten(service: Service, h: Header, fs: Fields, rest: Bytes)
    requires WellFormedMessage(h, fs)
    ensures var d := Dispatch(service, Message(h, fs) + rest);
            d.Answered? <==>
            !(h.name == ThrowException
              || ((h.name == EchoString || h.name == EchoBinary)
                  && Echo(service, h.name)(LastOwn(Some(1), fs, None)).Raised?))
    ensures Dispatch(service, Message(h, fs) + rest).Silent? <==>
            h.name == ThrowException && service.throwException.Returned?
  {
    hide ReadStruct, SkipFields, ReadMessageBegin, WriteStruct, MessageBegin;
    NamesDiffer();
    MessageAt(h, fs, rest);
    ReadFields(Some(1), fs, rest, None);
    ReadFields(None, fs, rest, None);
    SkipEncodedFields(fs, rest);
  }

  // ---------- the client

  function Request(name: Bytes, arg: Option<Bytes>): Bytes {
    MessageBegin(name, Call, 0) + WriteStruct(1, arg)
  }

  /** What a call of the client ends with. */
  datatype Received =
    | Value(bytes: Bytes)
    | ApplicationException(code: int, reason: Option<Bytes>)
    | ProtocolException

  /** recv: an EXCEPTION is thrown; any other message is taken for the reply. */
  function Receive(name: Bytes, s: Bytes): Received {
    match ReadMessageBegin(s)
    case None => ProtocolException
    case Some((h, body)) =>
      if h.mtype == Exception then
        match ReadException(body, None, 0)
        case None => ProtocolException
        case Some((reason, code)) => ApplicationException(code, reason)
      else
        match ReadStruct(Some(0), body, None)
        case None => ProtocolException
        case Some((Some(v), _)) => Value(v)
        case Some((None, _)) => ApplicationException(MissingResult, Some(name + Ascii(" failed: unknown result")))
  }

  /** Whatever well-formed message comes back: an EXCEPTION is thrown with its message and type; from any other the
      result field is handed to the caller, or its absence reported. */
  lemma ReceiveMessage(name: Bytes, h: Header, fs: Fields, rest: Bytes)
    requires WellFormedMessage(h, fs)
    ensures Receive(name, Message(h, fs) + rest) ==
            if h.mtype == Exception then ApplicationException(LastCode(fs, 0), LastOwn(Some(1), fs, None))
            else
              match LastOwn(Some(0), fs, None)
              case Some(v) => Value(v)
              case None => ApplicationException(MissingResult, Some(name + Ascii(" failed: unknown result")))
  {
    hide ReadStruct, ReadException, ReadMessageBegin, MessageBegin, Ascii;
    MessageAt(h, fs, rest);
    ReadExceptionFields(fs, rest, None, 0);
    ReadFields(Some(0), fs, rest, None);
  }

  /** A written EXCEPTION is thrown, under whatever names and ids. */
  lemma ExceptionIsThrown(name: Bytes, mname: Bytes, seqid: int, reason: Bytes, code: int)
    requires FitsI32(|mname|) && FitsI32(seqid) && FitsI32(|reason|) && FitsI32(code)
    ensures Receive(name, MessageBegin(mname, Exception, seqid) + WriteException(reason, code)) ==
            ApplicationException(code, Some(reason))
  {
    var h, fs := Header(mname, Exception, seqid), ExceptionFields(reason, code);
    ExceptionIsWellFormed(reason, code);
    ReceiveMessage(name, h, fs, []);
    assert Message(h, fs) + [] == MessageBegin(mname, Exception, seqid) + WriteException(reason, code);
  }

  /** The client reports a protocol exception exactly when what came back does not start with a message. */
  lemma ReceiveRefuses(name: Bytes, s: Bytes)
    ensures Receive(name, s).ProtocolException? <==> !StartsWithMessage(s)
  {
    if ReadMessageBegin(s).Some? {
      var body := ReadMessageBegin(s).value.1;
      ReadExceptionAgreesWithSkip(body, None, 0);
      ReadAgreesWithSkip(Some(0), body, None);
    }
  }

  /** A header and a struct behind it can be read. */
  predicate StartsWithMessage(s: Bytes) {
    ReadMessageBegin(s).Some? && SkipFields(ReadMessageBegin(s).value.1).Some?
  }

  /** The byte function on the far side of the border: callHostToJvm and callJvmToHost process one message and hand
      back what it has written, or throw. */
  function FarSide(service: Service, request: Bytes): Option<Bytes> {
    match Dispatch(service, request)
    case Answered(reply, _) => Some(reply)
    case Silent(_) => Some([])
    case ServiceRaised(_) => None
    case Malformed => None
  }

  /** What a call that goes through both sides ends with. */
  function RoundTrip(service: Service, name: Bytes, arg: Option<Bytes>): Received {
    match FarSide(service, Request(name, arg))
    case None => ProtocolException
    case Some(reply) => Receive(name, reply)
  }

  /** What the caller is promised: f(s) if it is not null, MISSING_RESULT if it is, a protocol exception if f throws. */
  function Promised(f: Option<Bytes> -> Outcome<Option<Bytes>>, name: Bytes, arg: Option<Bytes>): Received {
    match f(arg)
    case Raised => ProtocolException
    case Returned(Some(v)) => Value(v)
    case Returned(None) => ApplicationException(MissingResult, Some(name + Ascii(" failed: unknown result")))
  }

  predicate Fits(value: Option<Bytes>) {
    value.Some? ==> FitsI32(|value.value|)
  }

  /** End to end: for every service, both methods and every argument, null included, the call ends as promised. */
  lemma EndToEnd(service: Service, name: Bytes, arg: Option<Bytes>)
    requires name == EchoString || name == EchoBinary
    requires Fits(arg)
    requires Echo(service, name)(arg).Returned? ==> Fits(Echo(service, name)(arg).value)
    ensures RoundTrip(service, name, arg) == Promised(Echo(service, name), name, arg)
  {
    hide ReadStruct, ReadMessageBegin, MessageBegin, ReadException, ReadMessageBegin, WriteStruct;
    NamesDiffer();
    var h, fs := Header(name, Call, 0), FieldsOf(1, arg);
    ArgumentArrives(arg);
    assert Request(name, arg) == Message(h, fs) + [] by {
      RequestIsMessage(name, arg);
    }
    DispatchConsumesTheMessage(service, h, fs, []);
    NothingIsWritten(service, h, fs, []);
    if Echo(service, name)(arg).Returned? {
      var value := Echo(service, name)(arg).value;
      ReplyMatchesRequest(service, h, fs, [], value);
      var reply := Dispatch(service, Request(name, arg)).reply;
      assert FarSide(service, Request(name, arg)) == Some(reply);
      assert Receive(name, reply) == Promised(Echo(service, name), name, arg);
    }
  }

  /** The same, spelt out for both methods. */
  lemma EndToEndOfBoth(service: Service, arg: Option<Bytes>)
    requires Fits(arg)
    requires service.echoString(arg).Returned? ==> Fits(service.echoString(arg).value)
    requires service.echoBinary(arg).Returned? ==> Fits(service.echoBinary(arg).value)
    ensures match service.echoString(arg)
            case Raised => RoundTrip(service, EchoString, arg) == ProtocolException
            case Returned(Some(v)) => RoundTrip(service, EchoString, arg) == Value(v)
            case Returned(None) => RoundTrip(service, EchoString, arg).ApplicationException?
                                   && RoundTrip(service, EchoString, arg).code == 5
    ensures match service.echoBinary(arg)
            case Raised => RoundTrip(service, EchoBinary, arg) == ProtocolException
            case Returned(Some(v)) => RoundTrip(service, EchoBinary, arg) == Value(v)
            case Returned(None) => RoundTrip(service, EchoBinary, arg).ApplicationException?
                                   && RoundTrip(service, EchoBinary, arg).code == 5
  {
    hide RoundTrip;
    NamesDiffer();
    EndToEnd(service, EchoString, arg);
    EndToEnd(service, EchoBinary, arg);
  }

  /** A call under a name that the dispatcher does not know ends with UNKNOWN_METHOD, and says which name it was. */
  lemma UnknownNameEndToEnd(service: Service, name: Bytes, arg: Option<Bytes>)
    requires name != EchoString && name != EchoBinary && name != ThrowException
    requires FitsI32(|name|) && FitsI32(|Invalid(name)|) && Fits(arg)
    ensures RoundTrip(service, name, arg) == ApplicationException(1, Some(Invalid(name)))
  {
    hide ReadStruct, SkipFields, ReadMessageBegin, MessageBegin, ReadException, WriteException, WriteStruct;
    hide Receive, Invalid;
    var h, fs := Header(name, Call, 0), FieldsOf(1, arg);
    ArgumentArrives(arg);
    RequestIsMessage(name, arg);
    MessageAt(h, fs, []);
    SkipEncodedFields(fs, []);
    ExceptionIsThrown(name, name, 0, Invalid(name), UnknownMethod);
  }

  /** The oneway method: an empty answer if its service returns, and none if it throws. */
  lemma OnewayAnswer(service: Service, h: Header, fs: Fields, rest: Bytes)
    requires WellFormedMessage(h, fs) && h.name == ThrowException
    ensures FarSide(service, Message(h, fs) + rest) == if service.throwException.Returned? then Some([]) else None
  {
    hide ReadStruct, SkipFields, ReadMessageBegin, MessageBegin;
    NamesDiffer();
    MessageAt(h, fs, rest);
    ReadFields(None, fs, rest, None);
  }

  /** The far side refuses exactly the bytes that do not start with a message, and has no answer to them. */
  lemma RefusedBytes(service: Service, s: Bytes)
    ensures Dispatch(service, s).Malformed? <==> !StartsWithMessage(s)
    ensures !StartsWithMessage(s) ==> FarSide(service, s) == None
  {
    hide ReadStruct, ReadMessageBegin, MessageBegin;
    if ReadMessageBegin(s).Some? {
      var body := ReadMessageBegin(s).value.1;
      ReadAgreesWithSkip(Some(1), body, None);
      ReadAgreesWithSkip(None, body, None);
    }
  }

  /** The bytes of a request, one by one. */
  lemma RequestBytes(text: Bytes)
    ensures Request(EchoString, Some(text)) ==
            [0x80, 0x01, 0, 1, 0, 0, 0, 10, 101, 99, 104, 111, 83, 116, 114, 105, 110, 103, 0, 0, 0, 0]
            + ([11, 0, 1] + I32(|text|) + text + [0])
  {
    hide I16, WriteStruct;
    HeaderBytes(Call);
    StructBytes(1, Some(text));
    I16Bytes(1);
  }

  lemma HeaderBytes(mtype: Byte)
    ensures MessageBegin(EchoString, mtype, 0) ==
            [0x80, 0x01, 0, mtype, 0, 0, 0, 10, 101, 99, 104, 111, 83, 116, 114, 105, 110, 103, 0, 0, 0, 0]
  {
    hide I32;
    NameBytes();
    I32Bytes(10);
    I32Bytes(0);
  }

  lemma StructBytes(own: int, v: Option<Bytes>)
    ensures WriteStruct(own, v) == if v.None? then [0] else [11] + I16(own) + I32(|v.value|) + v.value + [0]
  {
    hide I32, I16;
    assert EncodeFields(EndOfFields) == [0];
    if v.Some? {
      assert Encode(Text(v.value)) == EncodeText(v.value);
    }
  }

  /** And of an EXCEPTION that answers it: message as field 1, type as field 2. */
  lemma UnknownReplyBytes(service: Service, name: Bytes, arg: Option<Bytes>)
    requires name != EchoString && name != EchoBinary && name != ThrowException
    requires FitsI32(|name|) && Fits(arg)
    ensures FarSide(service, Request(name, arg)) ==
            Some([0x80, 0x01, 0, 3] + (I32(|name|) + name + [0, 0, 0, 0])
                 + ([11, 0, 1] + I32(|Invalid(name)|) + Invalid(name) + [8, 0, 2, 0, 0, 0, 1, 0]))
  {
    hide I32, I16, ReadMessageBegin, Ascii, SkipFields, Invalid;
    var h, fs := Header(name, Call, 0), FieldsOf(1, arg);
    ArgumentArrives(arg);
    RequestIsMessage(name, arg);
    MessageAt(h, fs, []);
    SkipEncodedFields(fs, []);
    ExceptionBytes(Invalid(name));
    I32Bytes(0);
  }

  lemma ExceptionBytes(reason: Bytes)
    ensures WriteException(reason, UnknownMethod) == [11, 0, 1] + I32(|reason|) + reason + [8, 0, 2, 0, 0, 0, 1, 0]
  {
    hide I32, I16;
    I32Bytes(1);
    I16Bytes(1);
    I16Bytes(2);
    var number := Field(2, Fixed(TI32, I32(1)), EndOfFields);
    assert EncodeFields(EndOfFields) == [0];
    assert EncodeFields(number) == FieldHeader(TI32, 2) + (I32(1) + [0]);
    assert Encode(Text(reason)) == EncodeText(reason);
  }

  /** And of the REPLY: the result as field 0, left out if it is null. */
  lemma ReplyBytes(service: Service, arg: Option<Bytes>, v: Option<Bytes>)
    requires Fits(arg) && service.echoString(arg) == Returned(v)
    ensures FarSide(service, Request(EchoString, arg)) ==
            Some([0x80, 0x01, 0, 2, 0, 0, 0, 10, 101, 99, 104, 111, 83, 116, 114, 105, 110, 103, 0, 0, 0, 0]
                 + if v.None? then [0] else [11, 0, 0] + I32(|v.value|) + v.value + [0])
  {
    hide I16, ReadMessageBegin, MessageBegin, ReadStruct, WriteStruct, Ascii;
    NamesDiffer();
    var h, fs := Header(EchoString, Call, 0), FieldsOf(1, arg);
    ArgumentArrives(arg);
    RequestIsMessage(EchoString, arg);
    MessageAt(h, fs, []);
    ReadFields(Some(1), fs, [], None);
    HeaderBytes(Reply);
    StructBytes(0, v);
    I16Bytes(0);
    assert [11] + I16(0) == [11, 0, 0];
  }

  lemma RequestIsMessage(name: Bytes, arg: Option<Bytes>)
    ensures Request(name, arg) == Message(Header(name, Call, 0), FieldsOf(1, arg)) + []
  {
  }

  lemma ArgumentArrives(arg: Option<Bytes>)
    ensures LastOwn(Some(1), FieldsOf(1, arg), None) == arg
    ensures Fits(arg) ==> WellFormedFields(FieldsOf(1, arg))
  {
    if arg.Some? {
      assert WellFormed(Text(arg.value)) <==> FitsI32(|arg.value|);
    }
  }

  /** A request sent behind a reply that is still in the buffer is not seen: the dispatcher takes the reply for a
      request of the same method with a null argument. */
  lemma RequestBehindReply(service: Service, name: Bytes, seqid: int, value: Option<Bytes>, request: Bytes)
    requires name == EchoString || name == EchoBinary
    requires FitsI32(seqid) && Fits(value)
    ensures var reply := MessageBegin(name, Reply, seqid) + WriteStruct(0, value);
            var d := Dispatch(service, reply + request);
            match Echo(service, name)(None)
            case Raised => d == ServiceRaised(request)
            case Returned(v) => d == Answered(MessageBegin(name, Reply, seqid) + WriteStruct(0, v), request)
  {
    hide ReadStruct, ReadMessageBegin, MessageBegin;
    NamesDiffer();
    var h, fs := Header(name, Reply, seqid), FieldsOf(0, value);
    assert value.Some? ==> WellFormed(Text(value.value));
    MessageAt(h, fs, request);
    ReadFields(Some(1), fs, request, None);
    assert LastOwn(Some(1), fs, None) == None;
  }
}
