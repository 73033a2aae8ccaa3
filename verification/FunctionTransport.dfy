/**
 The buffers under a Java client: a growable array with a read cursor, and the transport that cuts what is written
 into transactions, one for each flush.
 */
module FunctionTransports {
  import opened Wrappers
  import opened BinaryEncoding

  // ---------- what a transport does, as a history

  datatype Operation = Write(bytes: Bytes) | Flush

  /** The bytes written so far that no flush has sent. */
  function Pending(log: seq<Operation>): Bytes {
    if log == [] then []
    else
      match log[|log| - 1]
      case Write(bytes) => Pending(log[..|log| - 1]) + bytes
      case Flush => []
  }

  /** What each flush has sent. */
  function Payloads(log: seq<Operation>): seq<Bytes> {
    if log == [] then []
    else
      match log[|log| - 1]
      case Write(_) => Payloads(log[..|log| - 1])
      case Flush => Payloads(log[..|log| - 1]) + [Pending(log[..|log| - 1])]
  }

  /** The bytes of all writes in a row. */
  function Written(ops: seq<Operation>): Bytes {
    if ops == [] then [] else (if ops[0].Write? then ops[0].bytes else []) + Written(ops[1..])
  }

  function Flushes(ops: seq<Operation>): nat {
    if ops == [] then 0 else Count(ops[0].Flush?) + Flushes(ops[1..])
  }

  lemma {:induction false} WrittenAppend(ops: seq<Operation>, op: Operation)
    ensures Written(ops + [op]) == Written(ops) + if op.Write? then op.bytes else []
    ensures Flushes(ops + [op]) == Flushes(ops) + Count(op.Flush?)
  {
    if ops != [] {
      assert (ops + [op])[1..] == ops[1..] + [op];
      WrittenAppend(ops[1..], op);
    }
  }

  lemma {:induction false} WrittenConcat(a: seq<Operation>, b: seq<Operation>)
    ensures Written(a + b) == Written(a) + Written(b)
  {
    if a == [] {
      assert a + b == b;
    } else {
      assert (a + b)[1..] == a[1..] + b;
      WrittenConcat(a[1..], b);
    }
  }

  lemma {:induction false} PendingIsWritten(log: seq<Operation>, start: nat)
    requires start <= |log| && (start == 0 || log[start - 1].Flush?)
    requires forall i :: start <= i < |log| ==> log[i].Write?
    ensures Pending(log) == Written(log[start..])
  {
    if start < |log| {
      var before := log[..|log| - 1];
      PendingIsWritten(before, start);
      assert log[start..] == before[start..] + [log[|log| - 1]];
      WrittenAppend(before[start..], log[|log| - 1]);
    }
  }

  /** Appending to a history leaves what has been sent alone. */
  lemma {:induction false} PayloadsGrow(log: seq<Operation>, n: nat)
    requires n <= |log|
    ensures Payloads(log[..n]) <= Payloads(log)
  {
    if n < |log| {
      assert log[..|log| - 1][..n] == log[..n];
      PayloadsGrow(log[..|log| - 1], n);
    } else {
      assert log[..n] == log;
    }
  }

  lemma {:induction false} OnePayloadPerFlush(log: seq<Operation>)
    ensures |Payloads(log)| == Flushes(log)
  {
    if log != [] {
      var before := log[..|log| - 1];
      OnePayloadPerFlush(before);
      assert log == before + [log[|log| - 1]];
      WrittenAppend(before, log[|log| - 1]);
    }
  }

  /** Transactions are isolated: the k-th payload is what was written after flush k - 1 and before flush k. */
  lemma TransactionIsolation(log: seq<Operation>, start: nat, end: nat)
    requires start <= end < |log| && log[end].Flush? && (start == 0 || log[start - 1].Flush?)
    requires forall i :: start <= i < end ==> log[i].Write?
    ensures var k := Flushes(log[..end]);
            k < |Payloads(log)| && Payloads(log)[k] == Written(log[start..end])
  {
    var upTo := log[..end + 1];
    assert upTo[..end] == log[..end] && upTo[end] == log[end];
    PendingIsWritten(log[..end], start);
    assert log[..end][start..] == log[start..end];
    OnePayloadPerFlush(log[..end]);
    PayloadsGrow(log, end + 1);
  }

  /** Wherever a transaction is cut in two, its payload is what was written before the cut and what was written after.
      */
  lemma PayloadInTwo(log: seq<Operation>, start: nat, mid: nat, end: nat)
    requires start <= mid <= end < |log| && log[end].Flush? && (start == 0 || log[start - 1].Flush?)
    requires forall i :: start <= i < end ==> log[i].Write?
    ensures var k := Flushes(log[..end]);
            k < |Payloads(log)| && Payloads(log)[k] == Written(log[start..mid]) + Written(log[mid..end])
  {
    TransactionIsolation(log, start, end);
    assert log[start..end] == log[start..mid] + log[mid..end];
    WrittenConcat(log[start..mid], log[mid..end]);
  }

  lemma WriteIsPending(log: seq<Operation>, bytes: Bytes)
    ensures Pending(log + [Write(bytes)]) == Pending(log) + bytes
    ensures Payloads(log + [Write(bytes)]) == Payloads(log)
  {
    assert (log + [Write(bytes)])[..|log|] == log;
  }

  // ---------- the classes

  /** System.arraycopy between two arrays. */
  method ArrayCopy(src: array<Byte>, start: nat, dst: array<Byte>, off: nat, len: nat)
    requires src != dst && start + len <= src.Length && off + len <= dst.Length
    modifies dst
    ensures dst[..] == old(dst[..off]) + src[start..start + len] + old(dst[off + len..])
  {
    forall i | 0 <= i < len {
      dst[off + i] := src[start + i];
    }
  }

  /** `spare` is how much more room than needed the array gets when it grows. */
  class TByteArrayOutputStream {
    var buf: array<Byte>
    var count: nat

    ghost predicate Valid()
      reads this
    {
      count <= buf.Length
    }

    function Contents(): Bytes
      requires Valid()
      reads this, buf
    {
      buf[..count]
    }

    constructor (size: nat)
      ensures Valid() && Contents() == [] && fresh(buf)
    {
      buf := new Byte[size];
      count := 0;
    }

    method Grow(capacity: nat)
      requires Valid() && capacity >= count
      modifies this
      ensures Valid() && Contents() == old(Contents()) && count == old(count)
      ensures fresh(buf) && buf.Length == capacity
    {
      var grown := new Byte[capacity];
      forall i | 0 <= i < count {
        grown[i] := buf[i];
      }
      buf := grown;
    }

    method Write(b: array<Byte>, off: nat, len: nat, spare: nat)
      requires Valid() && off + len <= b.Length && b != buf
      modifies this, buf
      ensures Valid() && Contents() == old(Contents()) + b[off..off + len]
      ensures buf == old(buf) || fresh(buf)
    {
      ghost var before := Contents();
      if count + len > buf.Length {
        Grow(count + len + spare);
      }
      Put(b, off, len);
      count := count + len;
      assert Contents() == buf[..|before|] + buf[|before|..count];
    }

    method Put(b: array<Byte>, off: nat, len: nat)
      requires Valid() && off + len <= b.Length && b != buf && count + len <= buf.Length
      modifies buf
      ensures buf[..count] == old(buf[..count]) && buf[count..count + len] == b[off..off + len]
    {
      ArrayCopy(b, off, buf, count, len);
    }
  }

  /** The first `n` of the unread bytes of a buffer, and the others. */
  lemma FirstUnread(buf: Bytes, count: nat, pos: nat, n: nat)
    requires pos + n <= count <= |buf|
    ensures buf[..count][pos..][..n] == buf[pos..pos + n] && buf[..count][pos..][n..] == buf[..count][pos + n..]
  {
  }

  class TClearableMemoryBuffer {
    const size: nat
    var arr_: TByteArrayOutputStream
    var pos_: nat

    ghost predicate Valid()
      reads this, arr_
    {
      arr_.Valid()
    }

    function Contents(): Bytes
      requires Valid()
      reads this, arr_, arr_.buf
    {
      arr_.Contents()
    }

    /** What a reader has yet to get. The cursor may stand behind the end, after a reset that follows reads. */
    function Unread(): Bytes
      requires Valid()
      reads this, arr_, arr_.buf
    {
      if pos_ <= |Contents()| then Contents()[pos_..] else []
    }

    constructor (size: nat)
      ensures Valid() && Contents() == [] && pos_ == 0 && fresh(arr_) && fresh(arr_.buf)
    {
      this.size := size;
      arr_ := new TByteArrayOutputStream(size);
      pos_ := 0;
    }

    /** A new array; the read cursor stays where it is. */
    method Reset()
      modifies this
      ensures Valid() && Contents() == [] && Unread() == [] && pos_ == old(pos_)
      ensures fresh(arr_) && fresh(arr_.buf)
    {
      arr_ := new TByteArrayOutputStream(size);
    }

    method Write(b: array<Byte>, off: nat, len: nat, spare: nat)
      requires Valid() && off + len <= b.Length && b != arr_.buf
      modifies arr_, arr_.buf
      ensures Valid() && Contents() == old(Contents()) + b[off..off + len]
      ensures old(pos_) <= |old(Contents())| ==> Unread() == old(Unread()) + b[off..off + len]
      ensures arr_.buf == old(arr_.buf) || fresh(arr_.buf)
    {
      arr_.Write(b, off, len, spare);
    }

    /** At most `len` of the bytes not yet read, in their order. What comes back is negative if the cursor stands
        behind the end, and then nothing is read. */
    method Read(dst: array<Byte>, off: nat, len: nat) returns (amtToRead: int)
      requires Valid() && off + len <= dst.Length && dst != arr_.buf
      modifies this`pos_, dst
      ensures Valid() && Contents() == old(Contents())
      ensures amtToRead <= len && (0 < amtToRead < len ==> Unread() == [])
      ensures amtToRead <= 0 ==> dst[..] == old(dst[..]) && pos_ == old(pos_) && (len == 0 || old(Unread()) == [])
      ensures amtToRead <= 0 && len > 0 ==> amtToRead == |Contents()| - pos_
      ensures amtToRead > 0 ==>
                && amtToRead <= |old(Unread())|
                && dst[..] == old(dst[..off]) + old(Unread())[..amtToRead] + old(dst[off + amtToRead..])
                && Unread() == old(Unread())[amtToRead..]
    {
      var left := arr_.count - pos_;
      amtToRead := if len > left then left else len;
      if amtToRead > 0 {
        FirstUnread(arr_.buf[..], arr_.count, pos_, amtToRead);
        ArrayCopy(arr_.buf, pos_, dst, off, amtToRead);
        pos_ := pos_ + amtToRead;
      }
    }

    method Length() returns (n: nat)
      requires Valid()
      ensures n == |Contents()|
    {
      n := arr_.count;
    }

    method GetArray() returns (a: array<Byte>)
      requires Valid()
      ensures a == arr_.buf && Contents() <= a[..]
    {
      a := arr_.buf;
    }
  }

  /** The input side: a buffer that is given its bytes as a whole. */
  class TMemoryInputTransport {
    var buf: Bytes
    var pos: nat

    constructor ()
      ensures buf == [] && pos == 0
    {
      buf := [];
      pos := 0;
    }

    method Reset(response: Bytes)
      modifies this
      ensures buf == response && pos == 0
    {
      buf := response;
      pos := 0;
    }
  }

  /** What apply comes back with: bytes, null, or an exception. */
  datatype Applied = Response(bytes: Bytes) | NullResponse | Failure

  class FunctionTransport {
    const buffer: TClearableMemoryBuffer  // the superclass
    const returnBuffer: TMemoryInputTransport
    const applied: seq<Bytes> -> Applied

    /** What apply has been given so far, oldest first; its answer may depend on all of it. */
    var sent: seq<Bytes>

    ghost var log: seq<Operation>

    ghost predicate Valid()
      reads this, buffer, buffer.arr_, buffer.arr_.buf
    {
      && buffer.Valid() && buffer.pos_ == 0
      && buffer.Contents() == Pending(log) && sent == Payloads(log)
    }

    constructor (inbytes: TMemoryInputTransport, applied: seq<Bytes> -> Applied)
      ensures Valid() && log == [] && returnBuffer == inbytes && this.applied == applied
      ensures fresh(buffer) && fresh(buffer.arr_) && fresh(buffer.arr_.buf)
    {
      buffer := new TClearableMemoryBuffer(100);
      returnBuffer := inbytes;
      this.applied := applied;
      sent, log := [], [];
    }

    method Write(b: array<Byte>, off: nat, len: nat, spare: nat)
      requires Valid() && off + len <= b.Length && b != buffer.arr_.buf
      modifies this, buffer.arr_, buffer.arr_.buf
      ensures Valid() && log == old(log) + [Operation.Write(b[off..off + len])]
      ensures buffer.arr_.buf == old(buffer.arr_.buf) || fresh(buffer.arr_.buf)
    {
      hide Pending, Payloads;
      ghost var bytes := b[off..off + len];
      WriteIsPending(log, bytes);
      buffer.Write(b, off, len, spare);
      log := log + [Operation.Write(bytes)];
    }

    /** The abstract method. It is only ever entered with the out-buffer empty. */
    method Apply(bytes: Bytes) returns (response: Applied)
      requires buffer.Valid() && buffer.Contents() == []
      modifies this`sent
      ensures sent == old(sent) + [bytes] && response == applied(sent)
    {
      sent := sent + [bytes];
      response := applied(sent);
    }

    /** `returned` is false if an exception leaves flush: that of apply, or the one for a null response. */
    method Flush() returns (returned: bool)
      requires Valid()
      modifies this, buffer, returnBuffer
      ensures Valid() && log == old(log) + [Operation.Flush]
      ensures fresh(buffer.arr_) && fresh(buffer.arr_.buf)
      ensures returned <==> applied(sent).Response?
      ensures if returned then returnBuffer.buf == applied(sent).bytes && returnBuffer.pos == 0
              else returnBuffer.buf == old(returnBuffer.buf) && returnBuffer.pos == old(returnBuffer.pos)
    {
      assert (log + [Operation.Flush])[..|log|] == log;
      var contents := buffer.GetArray();
      var length := buffer.Length();
      var toSend := contents[..length];
      buffer.Reset();
      var response := Apply(toSend);
      log := log + [Operation.Flush];
      returned := response.Response?;
      if returned {
        returnBuffer.Reset(response.bytes);
      }
    }
  }
}
