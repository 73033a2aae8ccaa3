/**
 The generated code of the service `TestHostToJvm` and the transport below it, as objects: buffers with a read offset,
 structs with a field and an is-set flag, the dispatcher with its method map, the client. Each method is proved to do
 what module Messages says about the bytes.
 */
module TestHostToJvm {
  import opened Wrappers
  import opened BinaryEncoding
  import opened Messages
  import FunctionTransports

  /** A buffer that is written at its end and read at its offset. */
  class TMemoryBuffer {
    var mBuffer: Bytes
    var mOffset: nat

    ghost predicate Valid()
      reads this
    {
      mOffset <= |mBuffer|
    }

    function Rest(): Bytes
      requires Valid()
      reads this
    {
      mBuffer[mOffset..]
    }

    constructor (data: Bytes)
      ensures Valid() && mBuffer == data && mOffset == 0
    {
      mBuffer, mOffset := data, 0;
    }

    method Write(bytes: Bytes)
      requires Valid()
      modifies this`mBuffer
      ensures Valid() && mBuffer == old(mBuffer) + bytes
    {
      mBuffer := mBuffer + bytes;
    }

    /** `None`: fewer than `n` bytes are left, and an exception is thrown. */
    method Read(n: nat) returns (bytes: Option<Bytes>)
      requires Valid()
      modifies this`mOffset
      ensures Valid()
      ensures bytes.Some? <==> n <= |old(Rest())|
      ensures bytes.Some? ==> bytes.value == old(Rest())[..n] && Rest() == old(Rest())[n..]
    {
      if mOffset + n > |mBuffer| {
        return None;
      }
      bytes := Some(mBuffer[mOffset..mOffset + n]);
      mOffset := mOffset + n;
    }

    /** Leaves the last `left` bytes unread. */
    method SkipTo(left: nat)
      requires Valid() && left <= |Rest()|
      modifies this`mOffset
      ensures Valid() && Rest() == old(Rest()[|Rest()| - left..])
    {
      mOffset := |mBuffer| - left;
    }
  }

  /** What is skipped is a prefix. */
  lemma {:induction false} SkipLeavesASuffix(t: Byte, s: Bytes)
    requires Skip(t, s).Some?
    ensures var r := Skip(t, s).value; |r| <= |s| && s[|s| - |r|..] == r
  {
    var v := SkippedIsEncoded(t, s);
  }

  /** Reading field headers and field values from a buffer. */
  class TBinaryProtocol {
    const transport: TMemoryBuffer

    constructor (transport: TMemoryBuffer)
      ensures this.transport == transport
    {
      this.transport := transport;
    }

    method ReadByte() returns (r: Option<Byte>)
      requires transport.Valid()
      modifies transport`mOffset
      ensures transport.Valid()
      ensures r.Some? <==> old(transport.Rest()) != []
      ensures r.Some? ==> r.value == old(transport.Rest())[0] && transport.Rest() == old(transport.Rest())[1..]
    {
      var b := transport.Read(1);
      if b.None? {
        return None;
      }
      r := Some(b.value[0]);
    }

    method ReadI16() returns (r: Option<int>)
      requires transport.Valid()
      modifies transport`mOffset
      ensures transport.Valid()
      ensures r.Some? <==> |old(transport.Rest())| >= 2
      ensures r.Some? ==> r.value == AsI16(old(transport.Rest())) && transport.Rest() == old(transport.Rest())[2..]
    {
      var b := transport.Read(2);
      if b.None? {
        return None;
      }
      assert b.value[..2] == b.value;
      r := Some(AsI16(b.value));
    }

    method ReadI32() returns (r: Option<int>)
      requires transport.Valid()
      modifies transport`mOffset
      ensures transport.Valid()
      ensures r.Some? <==> |old(transport.Rest())| >= 4
      ensures r.Some? ==> r.value == AsI32(old(transport.Rest())) && transport.Rest() == old(transport.Rest())[4..]
    {
      var b := transport.Read(4);
      if b.None? {
        return None;
      }
      assert b.value[..4] == b.value;
      r := Some(AsI32(b.value));
    }

    /** readString, readBinary. */
    method ReadText() returns (r: Option<Bytes>)
      requires transport.Valid()
      modifies transport`mOffset
      ensures transport.Valid()
      ensures r.Some? <==> DecodeText(old(transport.Rest())).Some?
      ensures r.Some? ==> (r.value, transport.Rest()) == DecodeText(old(transport.Rest())).value
    {
      var n := ReadI32();
      if n.None? || n.value < 0 {
        return None;
      }
      ghost var body := transport.Rest();
      r := transport.Read(n.value);
      assert r.Some? ==> transport.Rest() == old(transport.Rest())[4 + n.value..]
                         && body[..n.value] == old(transport.Rest())[4..4 + n.value];
    }

    /** TProtocolUtil.skipType. */
    method SkipType(t: Byte) returns (ok: bool)
      requires transport.Valid()
      modifies transport`mOffset
      ensures transport.Valid()
      ensures ok <==> Skip(t, old(transport.Rest())).Some?
      ensures ok ==> transport.Rest() == Skip(t, old(transport.Rest())).value
    {
      var r := Skip(t, transport.Rest());
      ok := r.Some?;
      if ok {
        SkipLeavesASuffix(t, transport.Rest());
        transport.SkipTo(|r.value|);
      }
    }

    /** A type byte, and an id unless the type is the stop byte. */
    method ReadFieldBegin() returns (r: Option<(Byte, int)>)
      requires transport.Valid()
      modifies transport`mOffset
      ensures transport.Valid()
      ensures var s := old(transport.Rest());
              && (r.Some? <==> s != [] && (s[0] == Stop || |s| >= 3))
              && (r.Some? && s[0] == Stop ==> r.value.0 == Stop && transport.Rest() == s[1..])
              && (r.Some? && s[0] != Stop ==> r.value == (s[0], AsI16(s[1..])) && transport.Rest() == s[3..])
    {
      var t := ReadByte();
      if t.None? {
        return None;
      }
      if t.value == Stop {
        return Some((Stop, 0));
      }
      var id := ReadI16();
      if id.None? {
        return None;
      }
      r := Some((t.value, id.value));
    }

    method ReadMessageBegin() returns (r: Option<Header>)
      requires transport.Valid()
      modifies transport`mOffset
      ensures transport.Valid()
      ensures r.Some? <==> Messages.ReadMessageBegin(old(transport.Rest())).Some?
      ensures r.Some? ==> (r.value, transport.Rest()) == Messages.ReadMessageBegin(old(transport.Rest())).value
    {
      var version := transport.Read(4);
      if version.None? || version.value[0] != 0x80 || version.value[1] != 0x01 {
        return None;
      }
      var name := ReadText();
      if name.None? {
        return None;
      }
      var seqid := ReadI32();
      if seqid.None? {
        return None;
      }
      r := Some(Header(name.value, version.value[3], seqid.value));
    }

    method WriteMessageBegin(name: Bytes, mtype: Byte, seqid: int)
      requires transport.Valid()
      modifies transport`mBuffer
      ensures transport.Valid() && transport.mBuffer == old(transport.mBuffer) + MessageBegin(name, mtype, seqid)
    {
      hide EncodeText, I32;
      transport.Write([0x80, 0x01, 0, mtype]);
      WriteText(name);
      transport.Write(I32(seqid));
    }

    /** writeString, writeBinary. */
    method WriteText(text: Bytes)
      requires transport.Valid()
      modifies transport`mBuffer
      ensures transport.Valid() && transport.mBuffer == old(transport.mBuffer) + EncodeText(text)
    {
      transport.Write(I32(|text|));
      transport.Write(text);
    }

    method WriteFieldBegin(t: Byte, id: int)
      requires transport.Valid()
      modifies transport`mBuffer
      ensures transport.Valid() && transport.mBuffer == old(transport.mBuffer) + FieldHeader(t, id)
    {
      transport.Write([t]);
      transport.Write(I16(id));
    }

    method WriteFieldStop()
      requires transport.Valid()
      modifies transport`mBuffer
      ensures transport.Valid() && transport.mBuffer == old(transport.mBuffer) + [Stop]
    {
      transport.Write([Stop]);
    }

    /** TApplicationException: its write method. */
    method WriteApplicationException(reason: Bytes, code: int)
      requires transport.Valid()
      modifies transport`mBuffer
      ensures transport.Valid() && transport.mBuffer == old(transport.mBuffer) + WriteException(reason, code)
    {
      hide FieldHeader, EncodeText;
      WriteFieldBegin(TString, 1);
      WriteText(reason);
      WriteFieldBegin(TI32, 2);
      transport.Write(I32(code));
      WriteFieldStop();
      ghost var fs := ExceptionFields(reason, code);
      assert EncodeFields(fs.others) == FieldHeader(TI32, 2) + (I32(code) + [Stop]);
      assert EncodeFields(fs) == FieldHeader(TString, 1) + (EncodeText(reason) + EncodeFields(fs.others));
    }

    /** Its read method. */
    method ReadApplicationException() returns (r: Option<(Option<Bytes>, int)>)
      requires transport.Valid()
      modifies transport`mOffset
      ensures transport.Valid() && r == ReadException(old(transport.Rest()), None, 0)
    {
      var reason, code := None, 0;
      while true
        invariant transport.Valid()
        invariant ReadException(transport.Rest(), reason, code) == ReadException(old(transport.Rest()), None, 0)
        decreases |transport.Rest()|
      {
        var field := ReadFieldBegin();
        if field.None? {
          return None;
        }
        var (t, id) := field.value;
        if t == Stop {
          return Some((reason, code));
        }
        if id == 1 && t == TString {
          var text := ReadText();
          if text.None? {
            return None;
          }
          reason := text;
        } else if id == 2 && t == TI32 {
          var n := ReadI32();
          if n.None? {
            return None;
          }
          code := n.value;
        } else {
          var ok := SkipType(t);
          if !ok {
            return None;
          }
        }
      }
    }
  }

  /** A generated struct of at most one string or binary field: echoString_args and echoBinary_args (field 1),
      EchoString_result and EchoBinary_result (field 0), throwException_args (none). */
  class GeneratedStruct {
    const own: Option<int>
    var value: Option<Bytes>
    var isset: bool

    /** An unset field holds null. */
    ghost predicate Valid()
      reads this
    {
      !isset ==> value.None?
    }

    constructor (own: Option<int>)
      ensures Valid() && this.own == own && value.None? && !isset
    {
      this.own, value, isset := own, None, false;
    }

    /** The setter. A field that is set to null is set. */
    method Set(v: Option<Bytes>)
      modifies this
      ensures Valid() && value == v && isset
    {
      value, isset := v, true;
    }

    /** `ok` is false if the protocol throws. A field is set afterwards if it was before or has been read. */
    method Read(inProtocol: TBinaryProtocol) returns (ok: bool)
      requires Valid() && inProtocol.transport.Valid()
      modifies this, inProtocol.transport`mOffset
      ensures Valid() && inProtocol.transport.Valid()
      ensures ok <==> ReadStruct(own, old(inProtocol.transport.Rest()), old(value)).Some?
      ensures ok ==>
                && (value, inProtocol.transport.Rest()) ==
                   ReadStruct(own, old(inProtocol.transport.Rest()), old(value)).value
                && (isset <==> old(isset) || value.Some?)
    {
      while true
        invariant Valid() && inProtocol.transport.Valid()
        invariant ReadStruct(own, inProtocol.transport.Rest(), value) ==
                  ReadStruct(own, old(inProtocol.transport.Rest()), old(value))
        invariant isset <==> old(isset) || value.Some?
        decreases |inProtocol.transport.Rest()|
      {
        var field := inProtocol.ReadFieldBegin();
        if field.None? {
          return false;
        }
        var (fieldType, fieldID) := field.value;
        if fieldType == Stop {
          return true;
        }
        if Some(fieldID) == own && fieldType == TString {
          var fieldValue := inProtocol.ReadText();
          if fieldValue.None? {
            return false;
          }
          Set(fieldValue);
        } else {
          var skipped := inProtocol.SkipType(fieldType);
          if !skipped {
            return false;
          }
        }
      }
    }

    /** The field is written if it is set and not null. */
    method Write(outProtocol: TBinaryProtocol)
      requires Valid() && outProtocol.transport.Valid()
      modifies outProtocol.transport`mBuffer
      ensures outProtocol.transport.Valid()
      ensures outProtocol.transport.mBuffer ==
              old(outProtocol.transport.mBuffer) +
              if own.Some? then WriteStruct(own.value, value) else EncodeFields(EndOfFields)
    {
      ghost var before := outProtocol.transport.mBuffer;
      if own.Some? && isset && value.Some? {
        outProtocol.WriteFieldBegin(TString, own.value);
        outProtocol.WriteText(value.value);
      }
      outProtocol.WriteFieldStop();
      if own.Some? {
        OneField(own, value, before);
      }
    }
  }

  lemma OneField(own: Option<int>, value: Option<Bytes>, before: Bytes)
    requires own.Some?
    ensures WriteStruct(own.value, value) ==
            if value.Some? then FieldHeader(TString, own.value) + (EncodeText(value.value) + [Stop]) else [Stop]
    ensures value.Some? ==>
              before + FieldHeader(TString, own.value) + EncodeText(value.value) + [Stop] ==
              before + WriteStruct(own.value, value)
  {
    if value.Some? {
      var fs := FieldsOf(own.value, value);
      EncodeOfText(fs.content);
      assert EncodeFields(fs) ==
             FieldHeader(TString, own.value) + (EncodeText(value.value) + EncodeFields(EndOfFields));
    }
  }

  /** A request that fits a Java array carries an argument whose length fits 31 bits. */
  lemma RequestFits(name: Bytes, arg: Option<Bytes>)
    requires FitsI32(|Request(name, arg)|)
    ensures Fits(arg)
  {
    OneField(Some(1), arg, []);
  }

  // ---------- the native transport

  /** The buffer of EJThriftChannelTransport is its superclass; `receiver` is the Java method that takes the bytes,
      given everything it has been sent so far (`None`: it throws). */
  class EJThriftChannelTransport {
    const memory: TMemoryBuffer
    const receiver: seq<Bytes> -> Option<Bytes>

    /** What the Java method has been given, oldest first. */
    var sent: seq<Bytes>

    /** What stood in the buffer right after the last flush, or at first. */
    ghost var inherited: Bytes

    ghost predicate Valid()
      reads this, memory
    {
      memory.Valid() && inherited <= memory.mBuffer
    }

    /** What has been written since. */
    ghost function Written(): Bytes
      requires Valid()
      reads this, memory
    {
      memory.mBuffer[|inherited|..]
    }

    constructor (receiver: seq<Bytes> -> Option<Bytes>)
      ensures Valid() && memory.mBuffer == [] && memory.mOffset == 0 && inherited == [] && sent == []
      ensures this.receiver == receiver && fresh(memory)
    {
      memory := new TMemoryBuffer([]);
      this.receiver := receiver;
      sent := [];
      inherited := [];
    }

    /** One call of the Java method. It is given the bytes written since the last flush, and nothing else, if and only
        if the buffer was empty after that flush. The response replaces the buffer; after an exception all of it stays
        where it is. The length of a Java array is an int32_t, which the conversion asserts. */
    method Flush() returns (ok: bool)
      requires Valid() && FitsI32(|memory.mBuffer|)
      modifies this, memory
      ensures Valid() && Written() == []
      ensures sent == old(sent) + [old(memory.mBuffer)]
      ensures sent[|sent| - 1] == old(Written()) <==> old(inherited) == []
      ensures ok <==> receiver(sent).Some?
      ensures ok ==> memory.Rest() == memory.mBuffer == receiver(sent).value
      ensures !ok ==> memory.mBuffer == old(memory.mBuffer) && memory.mOffset == old(memory.mOffset)
    {
      assert memory.mBuffer == inherited + Written();
      sent := sent + [memory.mBuffer];
      var response := receiver(sent);
      ok := response.Some?;
      if ok {
        memory.mBuffer := response.value;
        memory.mOffset := 0;
      }
      inherited := memory.mBuffer;
    }
  }

  // ---------- the dispatcher

  datatype Selector = ProcessEchoString | ProcessEchoBinary | ProcessThrowException

  class TestHostToJvmProcessor {
    const mService: Service
    var mMethodMap: map<Bytes, Selector>

    ghost predicate Valid()
      reads this
    {
      mMethodMap == map[EchoString := ProcessEchoString, EchoBinary := ProcessEchoBinary,
                        ThrowException := ProcessThrowException]
    }

    constructor (service: Service)
      ensures Valid() && mService == service
    {
      mService := service;
      mMethodMap := map[];
      new;
      mMethodMap := mMethodMap[EchoString := ProcessEchoString];
      mMethodMap := mMethodMap[EchoBinary := ProcessEchoBinary];
      mMethodMap := mMethodMap[ThrowException := ProcessThrowException];
      NamesDiffer();
    }

    /** One message is read and dispatched. `done` is false if an exception leaves: of the protocol, or of the
        service. */
    method ProcessOnInputProtocol(inProtocol: TBinaryProtocol, outProtocol: TBinaryProtocol) returns (done: bool)
      requires Valid() && inProtocol.transport.Valid() && outProtocol.transport.Valid()
      requires inProtocol.transport != outProtocol.transport
      modifies inProtocol.transport`mOffset, outProtocol.transport`mBuffer
      ensures inProtocol.transport.Valid() && outProtocol.transport.Valid()
      ensures var d := Dispatch(mService, old(inProtocol.transport.Rest()));
              && (done <==> d.Answered? || d.Silent?)
              && (!d.Malformed? ==> inProtocol.transport.Rest() == Unread(d))
              && outProtocol.transport.mBuffer ==
                 old(outProtocol.transport.mBuffer) + if d.Answered? then d.reply else []
    {
      NamesDiffer();
      var header := inProtocol.ReadMessageBegin();
      if header.None? {
        return false;
      }
      var Header(name, _, seqID) := header.value;
      if name !in mMethodMap {
        done := RefuseMessage(name, seqID, inProtocol, outProtocol);
      } else if mMethodMap[name].ProcessEchoString? {
        done := ProcessEcho(mService.echoString, EchoString, seqID, inProtocol, outProtocol);
      } else if mMethodMap[name].ProcessEchoBinary? {
        done := ProcessEcho(mService.echoBinary, EchoBinary, seqID, inProtocol, outProtocol);
      } else {
        done := ProcessOneway(inProtocol);
      }
    }

    method RefuseMessage(name: Bytes, seqID: int, inProtocol: TBinaryProtocol, outProtocol: TBinaryProtocol)
      returns (done: bool)
      requires inProtocol.transport.Valid() && outProtocol.transport.Valid()
      requires inProtocol.transport != outProtocol.transport
      modifies inProtocol.transport`mOffset, outProtocol.transport`mBuffer
      ensures inProtocol.transport.Valid() && outProtocol.transport.Valid()
      ensures var d := DispatchUnknown(name, seqID, old(inProtocol.transport.Rest()));
              && (done <==> d.Answered?)
              && (d.Answered? ==> inProtocol.transport.Rest() == d.unread)
              && outProtocol.transport.mBuffer ==
                 old(outProtocol.transport.mBuffer) + if d.Answered? then d.reply else []
    {
      hide MessageBegin, WriteException, Skip;
      done := inProtocol.SkipType(TStruct);
      if done {
        outProtocol.WriteMessageBegin(name, Exception, seqID);
        outProtocol.WriteApplicationException(Invalid(name), UnknownMethod);
      }
    }

    /** process_echoString and process_echoBinary. */
    method ProcessEcho(service: Option<Bytes> -> Outcome<Option<Bytes>>, name: Bytes, seqID: int,
                       inProtocol: TBinaryProtocol, outProtocol: TBinaryProtocol)
      returns (done: bool)
      requires inProtocol.transport.Valid() && outProtocol.transport.Valid()
      requires inProtocol.transport != outProtocol.transport
      modifies inProtocol.transport`mOffset, outProtocol.transport`mBuffer
      ensures inProtocol.transport.Valid() && outProtocol.transport.Valid()
      ensures var d := DispatchEcho(service, name, seqID, old(inProtocol.transport.Rest()));
              && (done <==> d.Answered?)
              && (!d.Malformed? ==> inProtocol.transport.Rest() == Unread(d))
              && outProtocol.transport.mBuffer ==
                 old(outProtocol.transport.mBuffer) + if d.Answered? then d.reply else []
    {
      var args := new GeneratedStruct(Some(1));
      done := args.Read(inProtocol);
      if !done {
        return;
      }
      var result := new GeneratedStruct(Some(0));
      var answer := service(args.value);
      if answer.Raised? {
        return false;
      }
      result.Set(answer.value);
      WriteReply(name, seqID, result, outProtocol);
    }

    method WriteReply(name: Bytes, seqID: int, result: GeneratedStruct, outProtocol: TBinaryProtocol)
      requires result.Valid() && result.own == Some(0) && outProtocol.transport.Valid()
      modifies outProtocol.transport`mBuffer
      ensures outProtocol.transport.Valid()
      ensures outProtocol.transport.mBuffer ==
              old(outProtocol.transport.mBuffer) + (MessageBegin(name, Reply, seqID) + WriteStruct(0, result.value))
    {
      hide MessageBegin, WriteStruct;
      outProtocol.WriteMessageBegin(name, Reply, seqID);
      result.Write(outProtocol);
    }

    /** process_throwException: nothing is written. */
    method ProcessOneway(inProtocol: TBinaryProtocol) returns (done: bool)
      requires inProtocol.transport.Valid()
      modifies inProtocol.transport`mOffset
      ensures inProtocol.transport.Valid()
      ensures var d := DispatchOneway(mService.throwException, old(inProtocol.transport.Rest()));
              && (done <==> d.Silent?)
              && (!d.Malformed? ==> inProtocol.transport.Rest() == Unread(d))
    {
      var args := new GeneratedStruct(None);
      done := args.Read(inProtocol);
      if done {
        done := mService.throwException.Returned?;
      }
    }
  }

  /** callHostToJvm and callJvmToHost once they have their processor: the bytes go into one buffer, the answer comes out
      of another. */
  method ProcessBytes(processor: TestHostToJvmProcessor, bytes: Bytes) returns (response: Option<Bytes>)
    requires processor.Valid()
    ensures response == FarSide(processor.mService, bytes)
  {
    var inTransport := new TMemoryBuffer(bytes);
    var inProtocol := new TBinaryProtocol(inTransport);
    var outTransport := new TMemoryBuffer([]);
    var outProtocol := new TBinaryProtocol(outTransport);
    var done := processor.ProcessOnInputProtocol(inProtocol, outProtocol);
    assert forall reply: Bytes :: [] + reply == reply;
    response := if done then Some(outTransport.mBuffer) else None;
  }

  // ---------- the client

  class TestHostToJvmClient {
    const transport: EJThriftChannelTransport
    const protocol: TBinaryProtocol

    ghost predicate Valid()
      reads this, transport, transport.memory
    {
      transport.Valid() && protocol.transport == transport.memory
    }

    constructor (transport: EJThriftChannelTransport)
      requires transport.Valid()
      ensures Valid() && this.transport == transport
    {
      this.transport := transport;
      protocol := new TBinaryProtocol(transport.memory);
    }

    /** send_echoString and send_echoBinary up to the flush. */
    method WriteCall(name: Bytes, arg: Option<Bytes>)
      requires Valid()
      modifies transport.memory`mBuffer
      ensures Valid() && transport.memory.mBuffer == old(transport.memory.mBuffer) + Request(name, arg)
    {
      hide MessageBegin, EncodeText, FieldHeader, WriteStruct;
      ghost var before := transport.memory.mBuffer;
      protocol.WriteMessageBegin(name, Call, 0);
      if arg.Some? {
        protocol.WriteFieldBegin(TString, 1);
        protocol.WriteText(arg.value);
      }
      protocol.WriteFieldStop();
      OneField(Some(1), arg, before + MessageBegin(name, Call, 0));
    }

    /** recv_echoString and recv_echoBinary. */
    method ReceiveResult(name: Bytes) returns (r: Received)
      requires Valid()
      modifies transport.memory`mOffset
      ensures Valid() && r == Receive(name, old(transport.memory.Rest()))
    {
      var header := protocol.ReadMessageBegin();
      if header.None? {
        return ProtocolException;
      }
      if header.value.mtype == Exception {
        var x := protocol.ReadApplicationException();
        return if x.Some? then ApplicationException(x.value.1, x.value.0) else ProtocolException;
      }
      var result := new GeneratedStruct(Some(0));
      var ok := result.Read(protocol);
      if !ok {
        return ProtocolException;
      }
      if result.isset {
        return Value(result.value.value);
      }
      r := ApplicationException(MissingResult, Some(name + Ascii(" failed: unknown result")));
    }

    /** echoString and echoBinary. The first call on a transport whose far side is a processor of `service` ends as
        promised, and the service is asked once. */
    method EchoCall(name: Bytes, arg: Option<Bytes>, ghost service: Service) returns (r: Received)
      requires Valid() && transport.memory.mBuffer == [] && transport.memory.mOffset == 0 && transport.sent == []
      requires name == EchoString || name == EchoBinary
      requires FitsI32(|Request(name, arg)|)
      requires transport.receiver([Request(name, arg)]) == FarSide(service, Request(name, arg))
      requires Echo(service, name)(arg).Returned? ==> Fits(Echo(service, name)(arg).value)
      modifies transport, transport.memory
      ensures r == Promised(Echo(service, name), name, arg)
      ensures transport.sent == [Request(name, arg)]
    {
      hide Request, FarSide, Receive, Echo, Promised;
      WriteCall(name, arg);
      assert [] + Request(name, arg) == Request(name, arg);
      RequestFits(name, arg);
      EndToEnd(service, name, arg);
      var ok := transport.Flush();
      assert transport.sent == [Request(name, arg)];
      if !ok {
        return ProtocolException;
      }
      r := ReceiveResult(name);
    }
  }

  // ---------- calls from Java

  /** A Java client writes to a FunctionTransport. A call writes its request from operation `mid` on, and flush number
      `k` sends it; whatever was written since the flush before is left over from a call that ended before its flush.
      The byte function is given what is left over and the request, so exactly the request if and only if nothing is
      left over. Then the call ends as promised, however many calls came before it, and however they ended at their
      flush or after it. */
  lemma EveryJavaCall(log: seq<FunctionTransports.Operation>, start: nat, mid: nat, end: nat, service: Service,
                      name: Bytes, arg: Option<Bytes>)
    requires start <= mid <= end < |log| && log[end].Flush? && (start == 0 || log[start - 1].Flush?)
    requires forall i :: start <= i < end ==> log[i].Write?
    requires FunctionTransports.Written(log[mid..end]) == Request(name, arg)
    requires name == EchoString || name == EchoBinary
    requires Fits(arg)
    requires Echo(service, name)(arg).Returned? ==> Fits(Echo(service, name)(arg).value)
    ensures var k := FunctionTransports.Flushes(log[..end]);
            var leftOver := FunctionTransports.Written(log[start..mid]);
            && k < |FunctionTransports.Payloads(log)|
            && FunctionTransports.Payloads(log)[k] == leftOver + Request(name, arg)
            && (FunctionTransports.Payloads(log)[k] == Request(name, arg) <==> leftOver == [])
            && (leftOver == [] ==>
                  (match FarSide(service, FunctionTransports.Payloads(log)[k])
                   case Some(reply) => Receive(name, reply)
                   case None => ProtocolException) == Promised(Echo(service, name), name, arg))
  {
    hide Request, FarSide, Receive, Promised, Echo, RoundTrip;
    FunctionTransports.PayloadInTwo(log, start, mid, end);
    assert [] + Request(name, arg) == Request(name, arg);
    EndToEnd(service, name, arg);
    RoundTripIs(service, name, arg);
  }

  lemma RoundTripIs(service: Service, name: Bytes, arg: Option<Bytes>)
    ensures RoundTrip(service, name, arg) ==
            match FarSide(service, Request(name, arg))
            case None => ProtocolException
            case Some(reply) => Receive(name, reply)
  {
  }
}
