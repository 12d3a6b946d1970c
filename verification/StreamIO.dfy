/** The code of nc_stream.c and the transport below it, proved to follow every run. */
module StreamIO {
  import opened Bytes
  import opened StreamRuns

  /**
   * What is known of the stream protocol below: bytes arrive in order and leave
   * in order, in pieces of any size. The two scripts are the answers to come.
   */
  class Transport {
    var received: bytes   // all that has arrived
    var consumed: nat     // how much of it has been read
    var sent: bytes       // all that was taken for sending
    var reading: seq<Answer>
    var writing: seq<Answer>
    ghost var lastRead: Answer
    ghost var lastWrite: Answer

    constructor ()
      ensures received == [] && consumed == 0 && sent == [] && lastRead == lastWrite == Answer(StatusOK, 0)
    {
      received, consumed, sent, reading, writing := [], 0, [], [], [];
      lastRead, lastWrite := Answer(StatusOK, 0), Answer(StatusOK, 0);
    }

    /** Hands over what follows, as much as the next answer says. */
    method ReadBuffer(length: nat) returns (status: Status, data: bytes)
      requires consumed <= |received|
      modifies this`consumed, this`reading, this`lastRead
      ensures reading == Rest(old(reading)) && status == Next(old(reading)).status && lastRead == Answer(status, |data|)
      ensures |data| == Moved(Next(old(reading)), length, |received| - old(consumed))
      ensures consumed == old(consumed) + |data| <= |received| && data == received[old(consumed)..consumed]
    {
      var a := Next(reading);
      var n := Moved(a, length, |received| - consumed);
      status, data := a.status, received[consumed..consumed + n];
      consumed, reading, lastRead := consumed + n, Rest(reading), Answer(a.status, n);
    }

    /** Takes from the front of `data` as much as the next answer says. */
    method WriteBuffer(data: bytes) returns (status: Status, written: nat)
      modifies this`sent, this`writing, this`lastWrite
      ensures writing == Rest(old(writing)) && status == Next(old(writing)).status
      ensures lastWrite == Answer(status, written) && written == Moved(Next(old(writing)), |data|, |data|)
      ensures sent == old(sent) + data[..written]
    {
      var a := Next(writing);
      status, written := a.status, Moved(a, |data|, |data|);
      sent, writing, lastWrite := sent + data[..written], Rest(writing), Answer(a.status, written);
    }
  }

  /** The bytes a write hands over next, and those that are left. */
  lemma NextPart(data: bytes, rest: bytes, n: nat)
    requires |rest| <= |data| && rest == data[|data| - |rest|..] && n <= |rest|
    ensures var taken := |data| - |rest|;
            rest[..n] == data[taken..taken + n] && rest[n..] == data[taken + n..]
  {
  }

  class Stream {
    const transport: Transport
    var active: bool
    var readAllCb: bool
    var readSomeCb: bool
    var readBuffer: array<byte>    // the caller's buffer
    var readLength: nat            // how much of it is filled
    var readBufferLength: nat      // how much of it is left
    var writeCb: bool
    var writeBuffer: bytes         // what is left to write
    var acceptCb: bool
    var closeCb: bool

    ghost var writing: bytes       // the bytes of the write under way
    ghost var readsDone: seq<ReadResult>      // the callbacks made
    ghost var writesDone: seq<WriteResult>
    ghost var accepts: seq<ErrorCode>
    ghost var closes: seq<ErrorCode>

    ghost predicate ReadValid()
      reads this`readAllCb, this`readSomeCb, this`readBuffer, this`readLength, this`readBufferLength,
            transport`received, transport`consumed
    {
      && transport.consumed <= |transport.received| && !(readAllCb && readSomeCb)
      && (readAllCb || readSomeCb ==> readLength + readBufferLength == readBuffer.Length)
    }

    ghost function Input(): (i: Incoming)
      requires ReadValid()
      reads this`active, this`readAllCb, this`readSomeCb, this`readBuffer, this`readLength, this`readBufferLength,
            this`readsDone, transport`received, transport`consumed, transport`lastRead, readBuffer
      ensures ReadShaped(i)
    {
      var read := if active && (readAllCb || readSomeCb)
                  then Some(Read(readAllCb, readBuffer.Length, readBuffer[..readLength])) else None;
      Incoming(transport.received, transport.consumed, read, readsDone, transport.lastRead)
    }

    ghost predicate WriteValid()
      reads this`writeCb, this`writeBuffer, this`writing
    {
      writeCb ==> |writeBuffer| <= |writing| && writeBuffer == writing[|writing| - |writeBuffer|..]
    }

    ghost function Output(): (o: Outgoing)
      requires WriteValid()
      reads this`active, this`writeCb, this`writeBuffer, this`writing, this`writesDone, transport`sent,
            transport`lastWrite
      ensures WriteShaped(o)
    {
      var write := if active && writeCb then Some(Write(writing, |writing| - |writeBuffer|)) else None;
      Outgoing(transport.sent, write, writesDone, transport.lastWrite)
    }

    ghost function Others(): Control
      reads this`active, this`acceptCb, this`accepts, this`closeCb, this`closes
    {
      Control(active && acceptCb, accepts, active && closeCb, closes)
    }

    ghost predicate Valid()
      reads this, transport
    {
      ReadValid() && WriteValid()
    }

    ghost function View(): (s: State)
      requires Valid()
      reads this, transport, readBuffer
      ensures Shaped(s)
    {
      State(Input(), Output(), Others())
    }

    constructor (transport: Transport)
      requires transport.received == [] && transport.sent == [] && transport.consumed == 0
      requires transport.lastRead == transport.lastWrite == Answer(StatusOK, 0)
      ensures Valid() && active && this.transport == transport && fresh(readBuffer) && View() == NEW
    {
      this.transport := transport;
      active := true;
      readAllCb, readSomeCb, readLength, readBufferLength := false, false, 0, 0;
      readBuffer := new byte[0];
      writeCb, writeBuffer, acceptCb, closeCb := false, [], false, false;
      writing, readsDone, writesDone, accepts, closes := [], [], [], [], [];
    }

    // ----- Reading -----------------------------------------------------------------------------------

    /** nc_stream_async_read_all and nc_stream_async_read_some; a read of nothing can only end with an error. */
    method AsyncRead(buffer: array<byte>, all: bool) returns (ok: bool)
      requires active && ReadValid()
      modifies this`readAllCb, this`readSomeCb, this`readBuffer, this`readLength, this`readBufferLength, this`readsDone,
               transport`consumed, transport`reading, transport`lastRead, buffer
      ensures ReadValid() && ok == old(Input()).read.None? && readBuffer == (if ok then buffer else old(readBuffer))
      ensures Input() == if ok then ReadMore(old(Input()).(read := Some(Read(all, buffer.Length, []))),
                                             old(transport.reading))
                         else old(Input())
    {
      hide ReadMore;
      if readAllCb || readSomeCb { return false; }
      if all { readAllCb := true; } else { readSomeCb := true; }
      readBuffer := buffer;
      readLength := 0;
      readBufferLength := buffer.Length;
      assert buffer[..0] == [];
      DoRead();
      return true;
    }

    /** nc_stream_resolve_read: the one read under way ends with `ec`. */
    method ResolveRead(ec: ErrorCode)
      requires active && ReadValid() && (readAllCb || readSomeCb)
      modifies this`readAllCb, this`readSomeCb, this`readBufferLength, this`readsDone
      ensures ReadValid() && Input() == ReadEnded(old(Input()), ec)
    {
      readsDone := readsDone + [ReadResult(readAllCb, readBuffer.Length, readBuffer[..readLength], ec)];
      readBufferLength := 0;
      if readAllCb {
        readAllCb := false;
      } else {
        readSomeCb := false;
      }
    }

    /** nc_stream_do_read */
    method DoRead()
      requires active && ReadValid()
      modifies this`readAllCb, this`readSomeCb, this`readLength, this`readBufferLength, this`readsDone,
               transport`consumed, transport`reading, transport`lastRead, readBuffer
      ensures ReadValid() && Input() == ReadMore(old(Input()), old(transport.reading))
      decreases readBufferLength
    {
      hide ReadEnded;
      if !readAllCb && !readSomeCb { return; }
      var status, data := transport.ReadBuffer(readBufferLength);
      Store(data);
      assert Input() == Fed(old(Input()), Next(old(transport.reading)));
      if status == StatusOK {
        if |data| > 0 {
          if readAllCb {
            if readBufferLength == 0 {
              ResolveRead(OK);
            } else {
              DoRead();
            }
          } else {
            ResolveRead(OK);
          }
        }
      } else {
        ResolveRead(StatusToEc(status));
      }
    }

    /** The bytes the transport copies to the read pointer, and the pointer behind them. */
    method Store(data: bytes)
      requires |data| <= readBufferLength && readLength + readBufferLength == readBuffer.Length
      modifies this`readLength, this`readBufferLength, readBuffer
      ensures readLength == old(readLength) + |data| && readBufferLength == old(readBufferLength) - |data|
      ensures readBuffer[..readLength] == old(readBuffer[..readLength]) + data
    {
      forall i | 0 <= i < |data| {
        readBuffer[readLength + i] := data[i];
      }
      readLength := readLength + |data|;
      readBufferLength := readBufferLength - |data|;
    }

    // ----- Writing -----------------------------------------------------------------------------------

    /** nc_stream_async_write; a write of nothing can only end with an error. */
    method AsyncWrite(data: bytes) returns (ok: bool)
      requires active && WriteValid()
      modifies this`writeCb, this`writeBuffer, this`writing, this`writesDone, transport`sent, transport`writing,
               transport`lastWrite
      ensures WriteValid() && ok == old(Output()).write.None?
      ensures Output() == if ok then WriteMore(old(Output()).(write := Some(Write(data, 0))), old(transport.writing))
                          else old(Output())
    {
      hide WriteMore;
      if writeCb { return false; }
      writeCb := true;
      writeBuffer, writing := data, data;
      DoWriteAll();
      return true;
    }

    /** nc_stream_do_write_all: what is left shrinks until all is handed over, an error ends it, or it would block. */
    method DoWriteAll()
      requires active && WriteValid() && writeCb
      modifies this`writeCb, this`writeBuffer, this`writesDone, transport`sent, transport`writing, transport`lastWrite
      ensures WriteValid() && Output() == WriteMore(old(Output()), old(transport.writing))
      decreases |writeBuffer|
    {
      hide WriteEnded;
      hide Drained;
      hide WriteValid;
      hide Output;
      var writeBufferLength := |writeBuffer|;
      var status, written := WriteSome();
      if status == StatusOK {
        if written == 0 {
          return;
        } else if written == writeBufferLength {
          ResolveWrite(OK);
        } else {
          DoWriteAll();
        }
      } else {
        ResolveWrite(StatusToEc(status));
      }
    }

    /** The transport takes some of what is left, and the write pointer moves behind it. */
    method WriteSome() returns (status: Status, written: nat)
      requires active && WriteValid() && writeCb
      modifies this`writeBuffer, transport`sent, transport`writing, transport`lastWrite
      ensures old(Output()).write.Some?
      ensures WriteValid() && Output() == Drained(old(Output()), Next(old(transport.writing)))
      ensures transport.writing == Rest(old(transport.writing)) && status == Next(old(transport.writing)).status
      ensures written == Output().last.count && |writeBuffer| == |old(writeBuffer)| - written
      ensures Output().write.value.taken == |Output().write.value.data| <==> written == |old(writeBuffer)|
    {
      hide Moved;
      hide Next;
      hide Rest;
      status, written := transport.WriteBuffer(writeBuffer);
      NextPart(writing, writeBuffer, written);
      writeBuffer := writeBuffer[written..];
    }

    method ResolveWrite(ec: ErrorCode)
      requires active && WriteValid() && writeCb
      modifies this`writeCb, this`writesDone
      ensures WriteValid() && Output() == WriteEnded(old(Output()), ec)
    {
      writesDone := writesDone + [WriteResult(writing, |writing| - |writeBuffer|, ec)];
      writeCb := false;
    }

    method TryWrite()
      requires active && WriteValid()
      modifies this`writeCb, this`writeBuffer, this`writesDone, transport`sent, transport`writing, transport`lastWrite
      ensures WriteValid() && Output() == WriteMore(old(Output()), old(transport.writing))
    {
      if writeCb { DoWriteAll(); }
    }

    // ----- Accepting and closing -----------------------------------------------------------------------

    method AsyncAccept() returns (ok: bool)
      requires active
      modifies this`acceptCb
      ensures ok == !old(Others()).accepting && Others() == old(Others()).(accepting := true)
    {
      if acceptCb { return false; }
      acceptCb := true;
      return true;
    }

    /** `status` is what the transport answers to the close. */
    method AsyncClose(status: Status) returns (ok: bool)
      requires active
      modifies this`closeCb, this`closes
      ensures ok == !old(Others()).closing
      ensures Others() == if ok then CloseTried(old(Others()).(closing := true), status) else old(Others())
    {
      if closeCb { return false; }
      closeCb := true;
      HandleClose(status);
      return true;
    }

    method HandleClose(status: Status)
      requires active
      modifies this`closeCb, this`closes
      ensures Others() == CloseTried(old(Others()), status)
    {
      if !closeCb { return; }
      if status == StatusOK { return; }
      if status == StatusClosed {
        ResolveClose(OK);
      } else {
        ResolveClose(StatusToEc(status));
      }
    }

    method ResolveAccept(ec: ErrorCode)
      requires active
      modifies this`acceptCb, this`accepts
      ensures Others() == AcceptEnded(old(Others()), ec)
    {
      if acceptCb {
        acceptCb := false;
        accepts := accepts + [ec];
      }
    }

    method ResolveClose(ec: ErrorCode)
      requires active
      modifies this`closeCb, this`closes
      ensures Others() == CloseEnded(old(Others()), ec)
    {
      if closeCb {
        closeCb := false;
        closes := closes + [ec];
      }
    }

    // ----- Events of the transport ---------------------------------------------------------------------

    /** nc_stream_application_event_callback */
    method ApplicationEvent(event: TransportEvent)
      requires active && Valid()
      modifies this, readBuffer, transport
      ensures active && Valid() && readBuffer == old(readBuffer) && View() == React(old(View()), event)
    {
      hide ReadMore;
      hide WriteMore;
      hide AcceptEnded;
      hide CloseEnded;
      hide CloseTried;
      hide ReadValid;
      hide WriteValid;
      hide Input;
      hide Output;
      hide Others;
      match event
      case Opened => ResolveAccept(OK);
      case DataReady(script) =>
        transport.reading := script;
        DoRead();
      case DataWrite(script) =>
        transport.writing := script;
        TryWrite();
      case ReadClosed(script) =>
        transport.reading := script;
        DoRead();
      case WriteClosed => ResolveClose(OK);
      case TransportClosed(writes, answers, status) => HandleTransportClosed(writes, answers, status);
    }

    method HandleTransportClosed(writes: seq<Answer>, answers: seq<Answer>, status: Status)
      requires active && Valid()
      modifies this, readBuffer, transport
      ensures active && Valid() && readBuffer == old(readBuffer)
      ensures Input() == ReadMore(old(Input()), answers)
      ensures Output() == WriteMore(old(Output()), writes)
      ensures Others() == CloseTried(AcceptEnded(old(Others()), ABORTED), status)
    {
      hide ReadMore;
      hide WriteMore;
      hide AcceptEnded;
      hide CloseTried;
      hide ReadValid;
      hide WriteValid;
      hide Input;
      hide Output;
      hide Others;
      transport.writing, transport.reading := writes, answers;
      EndWriting();
      EndReading(status);
    }

    method EndWriting()
      requires active && WriteValid()
      modifies this`writeCb, this`writeBuffer, this`writesDone, this`acceptCb, this`accepts,
               transport`sent, transport`writing, transport`lastWrite
      ensures WriteValid() && Output() == WriteMore(old(Output()), old(transport.writing))
      ensures Others() == AcceptEnded(old(Others()), ABORTED)
    {
      hide WriteMore;
      hide WriteValid;
      hide Output;
      hide Others;
      TryWrite();
      ResolveAccept(ABORTED);
    }

    method EndReading(status: Status)
      requires active && ReadValid()
      modifies this`readAllCb, this`readSomeCb, this`readLength, this`readBufferLength, this`readsDone, this`closeCb,
               this`closes, transport`consumed, transport`reading, transport`lastRead, readBuffer
      ensures ReadValid() && Input() == ReadMore(old(Input()), old(transport.reading))
      ensures Others() == CloseTried(old(Others()), status)
    {
      hide ReadMore;
      hide ReadValid;
      hide Input;
      hide Others;
      DoRead();
      HandleClose(status);
    }

    method Receive(data: bytes)
      requires ReadValid()
      modifies transport`received
      ensures ReadValid() && Input() == old(Input()).(received := old(Input()).received + data)
    {
      transport.received := transport.received + data;
    }

    /** nc_stream_destroy: whatever is under way is aborted; the stream is not used after that. */
    method Destroy()
      requires Valid()
      modifies this`active, this`readsDone, this`writesDone, this`accepts, this`closes
      ensures Valid() && !active
      ensures Input() == ReadEnded(old(Input()), ABORTED) && Output() == WriteEnded(old(Output()), ABORTED)
      ensures Others() == CloseEnded(AcceptEnded(old(Others()), ABORTED), ABORTED)
    {
      hide ReadEnded;
      hide WriteEnded;
      hide AcceptEnded;
      hide CloseEnded;
      hide ReadValid;
      hide WriteValid;
      hide Input;
      hide Output;
      hide Others;
      AbortedIsEnded(Input(), Output(), Others());
      if !active {
        Inactive();
        return;
      }
      CallBack();
      Deactivate();
    }

    /** The callbacks are called and not cleared. */
    method CallBack()
      requires active && Valid()
      modifies this`readsDone, this`writesDone, this`accepts, this`closes
      ensures Input() == old(Input()).(readsDone := ReadEnded(old(Input()), ABORTED).readsDone)
      ensures Output() == old(Output()).(writesDone := WriteEnded(old(Output()), ABORTED).writesDone)
      ensures Others() == old(Others()).(accepts := AcceptEnded(old(Others()), ABORTED).accepts,
                                         closes := CloseEnded(old(Others()), ABORTED).closes)
    {
      hide ReadEnded;
      hide WriteEnded;
      hide AcceptEnded;
      hide CloseEnded;
      hide Input;
      hide Output;
      hide Others;
      CallControl();
      CallRead();
      CallWrite();
    }

    method CallRead()
      requires active && ReadValid()
      modifies this`readsDone
      ensures Input() == old(Input()).(readsDone := ReadEnded(old(Input()), ABORTED).readsDone)
    {
      if readAllCb || readSomeCb {
        readsDone := readsDone + [ReadResult(readAllCb, readBuffer.Length, readBuffer[..readLength], ABORTED)];
      }
    }

    method CallWrite()
      requires active && WriteValid()
      modifies this`writesDone
      ensures Output() == old(Output()).(writesDone := WriteEnded(old(Output()), ABORTED).writesDone)
    {
      if writeCb { writesDone := writesDone + [WriteResult(writing, |writing| - |writeBuffer|, ABORTED)]; }
    }

    method CallControl()
      requires active
      modifies this`accepts, this`closes
      ensures Others() == old(Others()).(accepts := AcceptEnded(old(Others()), ABORTED).accepts,
                                         closes := CloseEnded(old(Others()), ABORTED).closes)
    {
      if acceptCb { accepts := accepts + [ABORTED]; }
      if closeCb { closes := closes + [ABORTED]; }
    }

    method Deactivate()
      requires Valid()
      modifies this`active
      ensures !active && Input() == old(Input()).(read := None) && Output() == old(Output()).(write := None)
      ensures Others() == old(Others()).(accepting := false, closing := false)
    {
      active := false;
    }

    lemma Inactive()
      requires Valid() && !active
      ensures Input().read.None? && Output().write.None? && !Others().accepting && !Others().closing
    {
    }

    method Apply(use: Use) returns (ok: bool)
      requires active && Valid()
      modifies this, readBuffer, transport
      ensures Valid() && active == !use.Destroy? && (readBuffer == old(readBuffer) || fresh(readBuffer))
      ensures View() == Step(old(View()), use) && ok == Code(old(View()), use)
    {
      hide ReadMore;
      hide WriteMore;
      hide React;
      hide ReadEnded;
      hide WriteEnded;
      hide AcceptEnded;
      hide CloseEnded;
      hide CloseTried;
      hide ReadValid;
      hide WriteValid;
      hide Input;
      hide Output;
      hide Others;
      ok := true;
      match use
      case BytesArrive(data) => Receive(data);
      case ReadInto(size, all, script) =>
        transport.reading := script;
        var buffer := new byte[size](_ => 0);
        ok := AsyncRead(buffer, all);
      case WriteOut(data, script) =>
        transport.writing := script;
        ok := AsyncWrite(data);
      case AcceptIt => ok := AsyncAccept();
      case CloseIt(status) => ok := AsyncClose(status);
      case Happens(event) => ApplicationEvent(event);
      case Destroy => Destroy();
    }
  }

  /** A stream is not used after it was destroyed. */
  predicate Proper(uses: seq<Use>) {
    forall i :: 0 <= i < |uses| - 1 ==> !uses[i].Destroy?
  }

  /** The code follows every run, whatever the transport answers, and takes each call as the run says. */
  method Replay(uses: seq<Use>) returns (x: Stream, ok: seq<bool>)
    requires Proper(uses)
    ensures fresh(x) && fresh(x.transport) && fresh(x.readBuffer) && x.Valid()
    ensures x.active == (uses == [] || !uses[|uses| - 1].Destroy?)
    ensures x.View() == Run(uses) && ok == Codes(uses)
  {
    hide Step;
    hide Code;
    hide Stream.View;
    if uses == [] {
      var transport := new Transport();
      x := new Stream(transport);
      return x, [];
    }
    var n := |uses| - 1;
    x, ok := Replay(uses[..n]);
    assert n > 0 ==> !uses[n - 1].Destroy?;
    var taken := x.Apply(uses[n]);
    ok := ok + [taken];
  }
}
