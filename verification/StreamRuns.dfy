/**
 * Reading and writing a stream (nc_stream.c): asynchronous operations over a
 * byte transport that hands over and takes bytes in pieces of any size. This is
 * the state after any run of uses, and what every run keeps.
 */
module StreamRuns {
  import opened Bytes

  datatype Status = StatusOK | StatusClosed | StatusEof | StatusAborted | StatusOther

  datatype ErrorCode = OK | CLOSED | EOF | ABORTED | UNKNOWN

  function StatusToEc(status: Status): ErrorCode {
    match status
    case StatusOK => OK
    case StatusClosed => CLOSED
    case StatusEof => EOF
    case StatusAborted => ABORTED
    case StatusOther => UNKNOWN
  }

  /** One answer of the transport: a status, and the most bytes it hands over or takes. */
  datatype Answer = Answer(status: Status, count: nat)

  /** A transport that has nothing more to say would block. */
  function Next(script: seq<Answer>): Answer {
    if script == [] then Answer(StatusOK, 0) else script[0]
  }

  function Rest(script: seq<Answer>): seq<Answer> {
    if script == [] then [] else script[1..]
  }

  /** The bytes an answer moves when there is `room` for them and so many are `there`. */
  function Moved(a: Answer, room: nat, there: nat): (n: nat)
    ensures n <= room && n <= there
  {
    if a.status != StatusOK then 0
    else if a.count <= room && a.count <= there then a.count
    else if room <= there then room
    else there
  }

  // ----- The state of a stream -------------------------------------------------------------------------

  /** A finished read: what was asked for, what it put in the buffer, and how it ended. */
  datatype ReadResult = ReadResult(all: bool, wanted: nat, data: bytes, ec: ErrorCode)

  /** A finished write: its bytes, how many of them were taken, and how it ended. */
  datatype WriteResult = WriteResult(data: bytes, taken: nat, ec: ErrorCode)

  /** A read under way: all of the buffer or some of it, its size, and what it holds so far. */
  datatype Read = Read(all: bool, wanted: nat, got: bytes)

  /** A write under way and how much of it has been taken. */
  datatype Write = Write(data: bytes, taken: nat)

  /** The reading side; `readsDone` are the callbacks made, `last` the latest answer with the bytes it moved. */
  datatype Incoming = Incoming(
    received: bytes,
    consumed: nat,
    read: Option<Read>,
    readsDone: seq<ReadResult>,
    last: Answer)

  datatype Outgoing = Outgoing(sent: bytes, write: Option<Write>, writesDone: seq<WriteResult>, last: Answer)

  datatype Control = Control(accepting: bool, accepts: seq<ErrorCode>, closing: bool, closes: seq<ErrorCode>)

  datatype State = State(input: Incoming, output: Outgoing, control: Control)

  const NEW := State(Incoming([], 0, None, [], Answer(StatusOK, 0)),
                     Outgoing([], None, [], Answer(StatusOK, 0)),
                     Control(false, [], false, []))

  datatype TransportEvent =
    | Opened
    | DataReady(reading: seq<Answer>)
    | DataWrite(writing: seq<Answer>)
    | ReadClosed(reading: seq<Answer>)
    | WriteClosed
    | TransportClosed(writing: seq<Answer>, reading: seq<Answer>, status: Status)

  /** What happens to a stream, each time with what the transport answers on the way. */
  datatype Use =
    | BytesArrive(data: bytes)
    | ReadInto(size: nat, all: bool, reading: seq<Answer>)
    | WriteOut(data: bytes, writing: seq<Answer>)
    | AcceptIt
    | CloseIt(status: Status)
    | Happens(event: TransportEvent)
    | Destroy

  predicate ReadShaped(i: Incoming) {
    i.consumed <= |i.received| && (i.read.Some? ==> |i.read.value.got| <= i.read.value.wanted)
  }

  predicate WriteShaped(o: Outgoing) {
    o.write.Some? ==> o.write.value.taken <= |o.write.value.data|
  }

  predicate Shaped(s: State) {
    ReadShaped(s.input) && WriteShaped(s.output)
  }

  function ReadEnded(i: Incoming, ec: ErrorCode): (r: Incoming)
    ensures r.received == i.received && r.consumed == i.consumed && r.read.None? && r.last == i.last
  {
    match i.read
    case None => i
    case Some(r) => i.(read := None, readsDone := i.readsDone + [ReadResult(r.all, r.wanted, r.got, ec)])
  }

  /** The bytes an answer brings to the read under way. */
  function Fed(i: Incoming, a: Answer): (r: Incoming)
    requires ReadShaped(i) && i.read.Some?
    ensures ReadShaped(r) && r.read.Some? && r.received == i.received && r.readsDone == i.readsDone
    ensures r.read.value.wanted == i.read.value.wanted && r.read.value.all == i.read.value.all
    ensures |r.read.value.got| == |i.read.value.got| + r.last.count && r.last.status == a.status
  {
    var n := Moved(a, i.read.value.wanted - |i.read.value.got|, |i.received| - i.consumed);
    i.(consumed := i.consumed + n, last := Answer(a.status, n),
       read := Some(i.read.value.(got := i.read.value.got + i.received[i.consumed..i.consumed + n])))
  }

  /** Reading goes on until the read has what it asked for, an error ends it, or it would block. */
  function ReadMore(i: Incoming, script: seq<Answer>): (r: Incoming)
    requires ReadShaped(i)
    ensures ReadShaped(r) && r.received == i.received
    decreases if i.read.None? then 0 else i.read.value.wanted - |i.read.value.got|
  {
    if i.read.None? then i
    else
      var next := Fed(i, Next(script));
      if Next(script).status != StatusOK then ReadEnded(next, StatusToEc(Next(script).status))
      else if next.last.count == 0 then next
      else if !next.read.value.all || |next.read.value.got| == next.read.value.wanted then ReadEnded(next, OK)
      else ReadMore(next, Rest(script))
  }

  function WriteEnded(o: Outgoing, ec: ErrorCode): (r: Outgoing)
    ensures r.sent == o.sent && r.write.None? && r.last == o.last
  {
    match o.write
    case None => o
    case Some(w) => o.(write := None, writesDone := o.writesDone + [WriteResult(w.data, w.taken, ec)])
  }

  /** The bytes an answer takes from the write under way. */
  function Drained(o: Outgoing, a: Answer): (r: Outgoing)
    requires WriteShaped(o) && o.write.Some?
    ensures WriteShaped(r) && r.write.Some? && r.write.value.data == o.write.value.data && r.writesDone == o.writesDone
    ensures r.write.value.taken == o.write.value.taken + r.last.count && r.last.status == a.status
  {
    var w := o.write.value;
    var n := Moved(a, |w.data| - w.taken, |w.data| - w.taken);
    o.(sent := o.sent + w.data[w.taken..w.taken + n], last := Answer(a.status, n),
       write := Some(w.(taken := w.taken + n)))
  }

  function WriteMore(o: Outgoing, script: seq<Answer>): (r: Outgoing)
    requires WriteShaped(o)
    ensures WriteShaped(r)
    decreases if o.write.None? then 0 else |o.write.value.data| - o.write.value.taken
  {
    if o.write.None? then o
    else
      var next := Drained(o, Next(script));
      if Next(script).status != StatusOK then WriteEnded(next, StatusToEc(Next(script).status))
      else if next.last.count == 0 then next
      else if next.write.value.taken == |next.write.value.data| then WriteEnded(next, OK)
      else WriteMore(next, Rest(script))
  }

  function AcceptEnded(c: Control, ec: ErrorCode): (r: Control)
    ensures !r.accepting && r.closing == c.closing && r.closes == c.closes
  {
    if c.accepting then c.(accepting := false, accepts := c.accepts + [ec]) else c
  }

  function CloseEnded(c: Control, ec: ErrorCode): Control {
    if c.closing then c.(closing := false, closes := c.closes + [ec]) else c
  }

  function CloseCode(status: Status): ErrorCode {
    if status == StatusClosed then OK else StatusToEc(status)
  }

  /** A close waits, succeeds when the transport is closed already, or ends with the error. */
  function CloseTried(c: Control, status: Status): Control {
    if status == StatusOK then c
    else CloseEnded(c, CloseCode(status))
  }

  function React(s: State, event: TransportEvent): (r: State)
    requires Shaped(s)
    ensures Shaped(r)
  {
    match event
    case Opened => s.(control := AcceptEnded(s.control, OK))
    case DataReady(reading) => s.(input := ReadMore(s.input, reading))
    case DataWrite(writing) => s.(output := WriteMore(s.output, writing))
    case ReadClosed(reading) => s.(input := ReadMore(s.input, reading))
    case WriteClosed => s.(control := CloseEnded(s.control, OK))
    case TransportClosed(writing, reading, status) =>
      State(ReadMore(s.input, reading), WriteMore(s.output, writing),
            CloseTried(AcceptEnded(s.control, ABORTED), status))
  }

  function Step(s: State, use: Use): (r: State)
    requires Shaped(s)
    ensures Shaped(r)
  {
    match use
    case BytesArrive(data) => s.(input := s.input.(received := s.input.received + data))
    case ReadInto(size, all, reading) =>
      if s.input.read.Some? then s
      else s.(input := ReadMore(s.input.(read := Some(Read(all, size, []))), reading))
    case WriteOut(data, writing) =>
      if s.output.write.Some? then s
      else s.(output := WriteMore(s.output.(write := Some(Write(data, 0))), writing))
    case AcceptIt => s.(control := s.control.(accepting := true))
    case CloseIt(status) =>
      if s.control.closing then s else s.(control := CloseTried(s.control.(closing := true), status))
    case Happens(event) => React(s, event)
    case Destroy =>
      State(ReadEnded(s.input, ABORTED), WriteEnded(s.output, ABORTED),
            CloseEnded(AcceptEnded(s.control, ABORTED), ABORTED))
  }

  /** Whether a call is taken; a second operation of a kind is refused while one is under way. */
  predicate Code(s: State, use: Use) {
    match use
    case ReadInto(_, _, _) => s.input.read.None?
    case WriteOut(_, _) => s.output.write.None?
    case AcceptIt => !s.control.accepting
    case CloseIt(_) => !s.control.closing
    case BytesArrive(_) | Happens(_) | Destroy => true
  }

  function Run(uses: seq<Use>): (s: State)
    ensures Shaped(s)
  {
    if uses == [] then NEW else Step(Run(uses[..|uses| - 1]), uses[|uses| - 1])
  }

  /** Which calls of a run are taken. */
  function Codes(uses: seq<Use>): (codes: seq<bool>)
    ensures |codes| == |uses|
  {
    if uses == [] then []
    else Codes(uses[..|uses| - 1]) + [Code(Run(uses[..|uses| - 1]), uses[|uses| - 1])]
  }

  // ----- What the uses of a run ask for ---------------------------------------------------------------------

  /** All the bytes that arrive. */
  function Arrived(uses: seq<Use>): bytes {
    if uses == [] then []
    else Arrived(uses[..|uses| - 1]) + if uses[|uses| - 1].BytesArrive? then uses[|uses| - 1].data else []
  }

  /** The reads begun, as (all, size): those asked for when every read before had its callback. */
  function ReadsBegun(uses: seq<Use>): seq<(bool, nat)> {
    if uses == [] then []
    else
      var before, use := uses[..|uses| - 1], uses[|uses| - 1];
      var begun := ReadsBegun(before);
      if use.ReadInto? && |Run(before).input.readsDone| == |begun| then begun + [(use.all, use.size)] else begun
  }

  function WritesBegun(uses: seq<Use>): seq<bytes> {
    if uses == [] then []
    else
      var before, use := uses[..|uses| - 1], uses[|uses| - 1];
      var begun := WritesBegun(before);
      if use.WriteOut? && |Run(before).output.writesDone| == |begun| then begun + [use.data] else begun
  }

  function AcceptsBegun(uses: seq<Use>): nat {
    if uses == [] then 0
    else
      var before, use := uses[..|uses| - 1], uses[|uses| - 1];
      var begun := AcceptsBegun(before);
      if use.AcceptIt? && |Run(before).control.accepts| == begun then begun + 1 else begun
  }

  function ClosesBegun(uses: seq<Use>): nat {
    if uses == [] then 0
    else
      var before, use := uses[..|uses| - 1], uses[|uses| - 1];
      var begun := ClosesBegun(before);
      if use.CloseIt? && |Run(before).control.closes| == begun then begun + 1 else begun
  }

  // ----- Reading ------------------------------------------------------------------------------------------------

  /** The bytes of finished reads, one behind the other. */
  function Delivered(readsDone: seq<ReadResult>): bytes {
    if readsDone == [] then [] else Delivered(readsDone[..|readsDone| - 1]) + readsDone[|readsDone| - 1].data
  }

  /** What finished reads had asked for. */
  function Asked(readsDone: seq<ReadResult>): seq<(bool, nat)> {
    seq(|readsDone|, i requires 0 <= i < |readsDone| => (readsDone[i].all, readsDone[i].wanted))
  }

  /** A read that succeeds has brought something, and filled the buffer if all of it was asked for. */
  predicate ReadKept(r: ReadResult) {
    && |r.data| <= r.wanted
    && (r.ec == OK ==> r.data != [] && (r.all ==> |r.data| == r.wanted))
  }

  predicate ReadsKept(readsDone: seq<ReadResult>) {
    forall i :: 0 <= i < |readsDone| ==> ReadKept(readsDone[i])
  }

  function Got(i: Incoming): bytes {
    if i.read.None? then [] else i.read.value.got
  }

  function Pending(i: Incoming): seq<(bool, nat)> {
    if i.read.None? then [] else [(i.read.value.all, i.read.value.wanted)]
  }

  /** Callbacks and the read under way hold what was consumed, in order, for the reads begun, in order. */
  predicate Consumed(i: Incoming, begun: seq<(bool, nat)>)
    requires ReadShaped(i)
  {
    && ReadsKept(i.readsDone)
    && i.received[..i.consumed] == Delivered(i.readsDone) + Got(i)
    && begun == Asked(i.readsDone) + Pending(i)
  }

  lemma DeliveredSnoc(readsDone: seq<ReadResult>, r: ReadResult)
    ensures Delivered(readsDone + [r]) == Delivered(readsDone) + r.data
    ensures Asked(readsDone + [r]) == Asked(readsDone) + [(r.all, r.wanted)]
  {
    assert (readsDone + [r])[..|readsDone|] == readsDone;
  }

  lemma ReadsKeptSnoc(readsDone: seq<ReadResult>, r: ReadResult)
    requires ReadsKept(readsDone) && ReadKept(r)
    ensures ReadsKept(readsDone + [r])
  {
  }

  lemma ConsumedEnd(i: Incoming, ec: ErrorCode, begun: seq<(bool, nat)>)
    requires ReadShaped(i) && Consumed(i, begun)
    requires i.read.Some? && ec == OK ==>
               Got(i) != [] && (i.read.value.all ==> |Got(i)| == i.read.value.wanted)
    ensures Consumed(ReadEnded(i, ec), begun)
  {
    hide Delivered;
    hide Asked;
    hide ReadsKept;
    if i.read.Some? {
      var r := ReadResult(i.read.value.all, i.read.value.wanted, i.read.value.got, ec);
      DeliveredSnoc(i.readsDone, r);
      ReadsKeptSnoc(i.readsDone, r);
    }
  }

  lemma ConsumedFed(i: Incoming, a: Answer, begun: seq<(bool, nat)>)
    requires ReadShaped(i) && Consumed(i, begun) && i.read.Some?
    ensures Consumed(Fed(i, a), begun)
  {
    hide Delivered;
    hide Asked;
    hide ReadsKept;
    hide Moved;
    var next := Fed(i, a);
    var more := i.received[i.consumed..next.consumed];
    assert i.received[..next.consumed] == i.received[..i.consumed] + more;
    assert Delivered(i.readsDone) + Got(i) + more == Delivered(i.readsDone) + (Got(i) + more);
  }

  lemma {:induction false} ConsumedMore(i: Incoming, script: seq<Answer>, begun: seq<(bool, nat)>)
    requires ReadShaped(i) && Consumed(i, begun)
    ensures Consumed(ReadMore(i, script), begun)
    decreases if i.read.None? then 0 else i.read.value.wanted - |i.read.value.got|
  {
    hide Consumed;
    hide Fed;
    if i.read.Some? {
      var a := Next(script);
      var next := Fed(i, a);
      ConsumedFed(i, a, begun);
      if a.status != StatusOK {
        ConsumedEnd(next, StatusToEc(a.status), begun);
      } else if next.last.count > 0 {
        if !next.read.value.all || |next.read.value.got| == next.read.value.wanted {
          ConsumedEnd(next, OK, begun);
        } else {
          ConsumedMore(next, Rest(script), begun);
        }
      }
    }
  }

  lemma ConsumedStep(s: State, use: Use, begun: seq<(bool, nat)>)
    requires Shaped(s) && Consumed(s.input, begun)
    ensures Consumed(Step(s, use).input,
                     if use.ReadInto? && |s.input.readsDone| == |begun| then begun + [(use.all, use.size)] else begun)
  {
    hide Delivered;
    hide ReadsKept;
    hide ReadMore;
    hide WriteMore;
    var i := s.input;
    match use
    case BytesArrive(data) =>
      assert (i.received + data)[..i.consumed] == i.received[..i.consumed];
    case ReadInto(size, all, reading) =>
      if i.read.None? {
        var t := i.(read := Some(Read(all, size, [])));
        ConsumedMore(t, reading, begun + [(all, size)]);
      }
    case Happens(DataReady(reading)) => ConsumedMore(i, reading, begun);
    case Happens(ReadClosed(reading)) => ConsumedMore(i, reading, begun);
    case Happens(TransportClosed(_, reading, _)) => ConsumedMore(i, reading, begun);
    case Destroy => ConsumedEnd(i, ABORTED, begun);
    case _ =>
  }

  lemma ReceivedStep(s: State, use: Use)
    requires Shaped(s)
    ensures Step(s, use).input.received == s.input.received + if use.BytesArrive? then use.data else []
  {
    hide ReadMore;
    hide WriteMore;
  }

  lemma {:induction false} ReadsHold(uses: seq<Use>)
    ensures Run(uses).input.received == Arrived(uses)
    ensures Consumed(Run(uses).input, ReadsBegun(uses))
  {
    hide Consumed;
    hide Step;
    if uses == [] {
      NothingConsumed();
    } else {
      var before := uses[..|uses| - 1];
      ReadsHold(before);
      ReceivedStep(Run(before), uses[|uses| - 1]);
      ConsumedStep(Run(before), uses[|uses| - 1], ReadsBegun(before));
    }
  }

  lemma NothingConsumed()
    ensures Consumed(NEW.input, [])
  {
  }

  /** The data of finished reads are blocks of what was delivered, read after read. */
  lemma {:induction false} ReadsAreConsecutive(readsDone: seq<ReadResult>, i: nat)
    requires i < |readsDone|
    ensures |Delivered(readsDone[..i])| + |readsDone[i].data| <= |Delivered(readsDone)|
    ensures var at := |Delivered(readsDone[..i])|;
            Delivered(readsDone)[at..at + |readsDone[i].data|] == readsDone[i].data
  {
    var n := |readsDone| - 1;
    if i < n {
      ReadsAreConsecutive(readsDone[..n], i);
      assert readsDone[..n][..i] == readsDone[..i];
      var at := |Delivered(readsDone[..i])|;
      var to := at + |readsDone[i].data|;
      assert Delivered(readsDone) == Delivered(readsDone[..n]) + readsDone[n].data;
      assert Delivered(readsDone)[at..to] == Delivered(readsDone[..n])[at..to];
    }
  }

  lemma BlockOf(received: bytes, consumed: nat, delivered: bytes, got: bytes, at: nat, to: nat)
    requires consumed <= |received| && received[..consumed] == delivered + got && at <= to <= |delivered|
    ensures to <= |received| && received[at..to] == delivered[at..to]
  {
    assert |received[..consumed]| == |delivered| + |got|;
    assert received[at..to] == received[..consumed][at..to] == (delivered + got)[at..to];
  }

  /**
   * In every run the callback of each read comes with the bytes of the stream
   * right behind those of the reads before it; if it says OK, all of the buffer is
   * filled, or for a partial read some of it.
   */
  lemma EachReadIsItsBlock(uses: seq<Use>, i: nat)
    requires i < |Run(uses).input.readsDone|
    ensures var readsDone := Run(uses).input.readsDone;
            var at := |Delivered(readsDone[..i])|;
            && at + |readsDone[i].data| <= |Arrived(uses)|
            && Arrived(uses)[at..at + |readsDone[i].data|] == readsDone[i].data
            && ReadKept(readsDone[i])
  {
    hide Run;
    hide Delivered;
    ReadsHold(uses);
    var input := Run(uses).input;
    ReadsAreConsecutive(input.readsDone, i);
    var at := |Delivered(input.readsDone[..i])|;
    var to := at + |input.readsDone[i].data|;
    BlockOf(input.received, input.consumed, Delivered(input.readsDone), Got(input), at, to);
  }

  /** In every run the reads begun have had one callback each, in order, but for one that may be under way. */
  lemma OneCallbackPerRead(uses: seq<Use>)
    ensures ReadsBegun(uses) == Asked(Run(uses).input.readsDone) + Pending(Run(uses).input)
    ensures Delivered(Run(uses).input.readsDone) + Got(Run(uses).input) <= Arrived(uses)
  {
    hide Run;
    hide Delivered;
    hide ReadsBegun;
    ReadsHold(uses);
  }

  // ----- Writing ------------------------------------------------------------------------------------------------

  /** The bytes of finished writes. */
  function Given(writesDone: seq<WriteResult>): seq<bytes> {
    seq(|writesDone|, i requires 0 <= i < |writesDone| => writesDone[i].data)
  }

  /** A write that succeeds has handed over all its bytes, and there were some. */
  predicate WriteKept(w: WriteResult) {
    w.taken <= |w.data| && (w.ec == OK ==> w.taken == |w.data| > 0)
  }

  predicate WritesKept(writesDone: seq<WriteResult>) {
    forall i :: 0 <= i < |writesDone| ==> WriteKept(writesDone[i])
  }

  /** What finished writes handed over, one behind the other. */
  function Taken(writesDone: seq<WriteResult>): bytes
    requires WritesKept(writesDone)
  {
    if writesDone == [] then []
    else
      var w := writesDone[|writesDone| - 1];
      Taken(writesDone[..|writesDone| - 1]) + w.data[..w.taken]
  }

  function Underway(o: Outgoing): bytes
    requires WriteShaped(o)
  {
    if o.write.None? then [] else o.write.value.data[..o.write.value.taken]
  }

  function Waiting(o: Outgoing): seq<bytes> {
    if o.write.None? then [] else [o.write.value.data]
  }

  /** What was sent is what the writes begun handed over, in order. */
  predicate Sent(o: Outgoing, begun: seq<bytes>)
    requires WriteShaped(o)
  {
    && WritesKept(o.writesDone)
    && o.sent == Taken(o.writesDone) + Underway(o)
    && begun == Given(o.writesDone) + Waiting(o)
  }

  lemma TakenSnoc(writesDone: seq<WriteResult>, w: WriteResult)
    requires WritesKept(writesDone) && WriteKept(w)
    ensures WritesKept(writesDone + [w])
    ensures Taken(writesDone + [w]) == Taken(writesDone) + w.data[..w.taken]
    ensures Given(writesDone + [w]) == Given(writesDone) + [w.data]
  {
    assert (writesDone + [w])[..|writesDone|] == writesDone;
  }

  lemma SentEnd(o: Outgoing, ec: ErrorCode, begun: seq<bytes>)
    requires WriteShaped(o) && Sent(o, begun)
    requires o.write.Some? && ec == OK ==> o.write.value.taken == |o.write.value.data| > 0
    ensures Sent(WriteEnded(o, ec), begun)
  {
    hide Taken;
    hide Given;
    hide WritesKept;
    if o.write.Some? {
      TakenSnoc(o.writesDone, WriteResult(o.write.value.data, o.write.value.taken, ec));
    }
  }

  lemma SentDrained(o: Outgoing, a: Answer, begun: seq<bytes>)
    requires WriteShaped(o) && Sent(o, begun) && o.write.Some?
    ensures Sent(Drained(o, a), begun)
  {
    hide Taken;
    hide Given;
    hide WritesKept;
    hide Moved;
    var w, to := o.write.value, Drained(o, a).write.value.taken;
    assert w.data[..to] == w.data[..w.taken] + w.data[w.taken..to];
    assert Taken(o.writesDone) + w.data[..w.taken] + w.data[w.taken..to] == Taken(o.writesDone) + w.data[..to];
  }

  lemma {:induction false} SentMore(o: Outgoing, script: seq<Answer>, begun: seq<bytes>)
    requires WriteShaped(o) && Sent(o, begun)
    ensures Sent(WriteMore(o, script), begun)
    decreases if o.write.None? then 0 else |o.write.value.data| - o.write.value.taken
  {
    hide Sent;
    hide Drained;
    if o.write.Some? {
      var a := Next(script);
      var next := Drained(o, a);
      SentDrained(o, a, begun);
      if a.status != StatusOK {
        SentEnd(next, StatusToEc(a.status), begun);
      } else if next.last.count > 0 {
        if next.write.value.taken == |next.write.value.data| {
          SentEnd(next, OK, begun);
        } else {
          SentMore(next, Rest(script), begun);
        }
      }
    }
  }

  lemma SentStep(s: State, use: Use, begun: seq<bytes>)
    requires Shaped(s) && Sent(s.output, begun)
    ensures Sent(Step(s, use).output,
                 if use.WriteOut? && |s.output.writesDone| == |begun| then begun + [use.data] else begun)
  {
    hide Taken;
    hide WritesKept;
    hide ReadMore;
    hide WriteMore;
    var o := s.output;
    match use
    case WriteOut(data, writing) =>
      if o.write.None? {
        SentMore(o.(write := Some(Write(data, 0))), writing, begun + [data]);
      }
    case Happens(DataWrite(writing)) => SentMore(o, writing, begun);
    case Happens(TransportClosed(writing, _, _)) => SentMore(o, writing, begun);
    case Destroy => SentEnd(o, ABORTED, begun);
    case _ =>
  }

  /**
   * In every run the writes begun have had one callback each, in order, but for
   * one that may be under way, and what was sent is what they handed over, in order.
   */
  lemma {:induction false} WritesInOrder(uses: seq<Use>)
    ensures Sent(Run(uses).output, WritesBegun(uses))
  {
    hide Sent;
    hide Step;
    if uses == [] {
      NothingSent();
    } else {
      var before := uses[..|uses| - 1];
      WritesInOrder(before);
      SentStep(Run(before), uses[|uses| - 1], WritesBegun(before));
    }
  }

  lemma NothingSent()
    ensures Sent(NEW.output, [])
  {
  }

  function Joined(parts: seq<bytes>): bytes {
    if parts == [] then [] else Joined(parts[..|parts| - 1]) + parts[|parts| - 1]
  }

  lemma {:induction false} TakenInFull(writesDone: seq<WriteResult>)
    requires WritesKept(writesDone) && forall i :: 0 <= i < |writesDone| ==> writesDone[i].ec == OK
    ensures Taken(writesDone) == Joined(Given(writesDone))
  {
    if writesDone != [] {
      var n := |writesDone| - 1;
      TakenInFull(writesDone[..n]);
      assert Given(writesDone)[..n] == Given(writesDone[..n]);
      assert WriteKept(writesDone[n]);
    }
  }

  /** Once every write begun has succeeded, exactly their bytes were sent. */
  lemma SentInFull(uses: seq<Use>)
    requires |Run(uses).output.writesDone| == |WritesBegun(uses)|
    requires forall i :: 0 <= i < |Run(uses).output.writesDone| ==> Run(uses).output.writesDone[i].ec == OK
    ensures Run(uses).output.sent == Joined(WritesBegun(uses))
  {
    hide Run;
    hide WritesBegun;
    hide Taken;
    hide Joined;
    WritesInOrder(uses);
    var o := Run(uses).output;
    TakenInFull(o.writesDone);
    assert o.write.None?;
    assert Given(o.writesDone) + [] == Given(o.writesDone) && Taken(o.writesDone) + [] == Taken(o.writesDone);
  }

  // ----- Waiting ------------------------------------------------------------------------------------------------

  /** A read waits with room left, a partial one with nothing, and only because the transport had nothing for it. */
  predicate ReadBlocked(i: Incoming) {
    i.read.Some? ==>
      && i.last == Answer(StatusOK, 0)
      && (i.read.value.wanted == 0 || |i.read.value.got| < i.read.value.wanted)
      && (!i.read.value.all ==> i.read.value.got == [])
  }

  predicate WriteBlocked(o: Outgoing) {
    o.write.Some? ==>
      o.last == Answer(StatusOK, 0) && (o.write.value.data == [] || o.write.value.taken < |o.write.value.data|)
  }

  /** A read that may still be fed. */
  predicate Unfilled(i: Incoming) {
    i.read.Some? ==>
      && (i.read.value.wanted == 0 || |i.read.value.got| < i.read.value.wanted)
      && (!i.read.value.all ==> i.read.value.got == [])
  }

  lemma {:induction false} ReadMoreBlocks(i: Incoming, script: seq<Answer>)
    requires ReadShaped(i) && Unfilled(i)
    ensures ReadBlocked(ReadMore(i, script))
    decreases if i.read.None? then 0 else i.read.value.wanted - |i.read.value.got|
  {
    if i.read.Some? {
      var next := Fed(i, Next(script));
      if Next(script).status == StatusOK && next.last.count > 0
         && next.read.value.all && |next.read.value.got| != next.read.value.wanted {
        ReadMoreBlocks(next, Rest(script));
      }
    }
  }

  lemma {:induction false} WriteMoreBlocks(o: Outgoing, script: seq<Answer>)
    requires WriteShaped(o)
    requires o.write.Some? ==> o.write.value.data == [] || o.write.value.taken < |o.write.value.data|
    ensures WriteBlocked(WriteMore(o, script))
    decreases if o.write.None? then 0 else |o.write.value.data| - o.write.value.taken
  {
    if o.write.Some? {
      var next := Drained(o, Next(script));
      if Next(script).status == StatusOK && next.last.count > 0
         && next.write.value.taken != |next.write.value.data| {
        WriteMoreBlocks(next, Rest(script));
      }
    }
  }

  lemma BlockedStep(s: State, use: Use)
    requires Shaped(s) && ReadBlocked(s.input) && WriteBlocked(s.output)
    ensures ReadBlocked(Step(s, use).input) && WriteBlocked(Step(s, use).output)
  {
    hide ReadMore;
    hide WriteMore;
    match use
    case ReadInto(size, all, reading) =>
      if s.input.read.None? { ReadMoreBlocks(s.input.(read := Some(Read(all, size, []))), reading); }
    case WriteOut(data, writing) =>
      if s.output.write.None? { WriteMoreBlocks(s.output.(write := Some(Write(data, 0))), writing); }
    case Happens(DataReady(reading)) => ReadMoreBlocks(s.input, reading);
    case Happens(ReadClosed(reading)) => ReadMoreBlocks(s.input, reading);
    case Happens(DataWrite(writing)) => WriteMoreBlocks(s.output, writing);
    case Happens(TransportClosed(writing, reading, _)) =>
      ReadMoreBlocks(s.input, reading);
      WriteMoreBlocks(s.output, writing);
    case _ =>
  }

  /** In every run an operation is under way only because the transport's latest answer to it was to move nothing. */
  lemma {:induction false} WaitsOnlyWhenBlocked(uses: seq<Use>)
    ensures ReadBlocked(Run(uses).input) && WriteBlocked(Run(uses).output)
  {
    hide Step;
    if uses != [] {
      WaitsOnlyWhenBlocked(uses[..|uses| - 1]);
      BlockedStep(Run(uses[..|uses| - 1]), uses[|uses| - 1]);
    }
  }

  /** From `i` to `r` a read has ended with the code of the transport's latest answer, or none has. */
  predicate ReadEndsWithAnswer(i: Incoming, r: Incoming) {
    || r.readsDone == i.readsDone
    || (|r.readsDone| == |i.readsDone| + 1 && r.readsDone[..|i.readsDone|] == i.readsDone
        && r.readsDone[|i.readsDone|].ec == StatusToEc(r.last.status))
  }

  predicate WriteEndsWithAnswer(o: Outgoing, r: Outgoing) {
    || r.writesDone == o.writesDone
    || (|r.writesDone| == |o.writesDone| + 1 && r.writesDone[..|o.writesDone|] == o.writesDone
        && r.writesDone[|o.writesDone|].ec == StatusToEc(r.last.status))
  }

  lemma {:induction false} ReadMoreEnds(i: Incoming, script: seq<Answer>)
    requires ReadShaped(i)
    ensures ReadEndsWithAnswer(i, ReadMore(i, script))
    decreases if i.read.None? then 0 else i.read.value.wanted - |i.read.value.got|
  {
    if i.read.Some? {
      var next := Fed(i, Next(script));
      if Next(script).status == StatusOK && next.last.count > 0
         && next.read.value.all && |next.read.value.got| != next.read.value.wanted {
        ReadMoreEnds(next, Rest(script));
      }
    }
  }

  lemma {:induction false} WriteMoreEnds(o: Outgoing, script: seq<Answer>)
    requires WriteShaped(o)
    ensures WriteEndsWithAnswer(o, WriteMore(o, script))
    decreases if o.write.None? then 0 else |o.write.value.data| - o.write.value.taken
  {
    if o.write.Some? {
      var next := Drained(o, Next(script));
      if Next(script).status == StatusOK && next.last.count > 0
         && next.write.value.taken != |next.write.value.data| {
        WriteMoreEnds(next, Rest(script));
      }
    }
  }

  /** At any time but at the end of the stream, a read or write ends with the code of the transport's latest answer. */
  lemma CallbackSaysWhy(s: State, use: Use)
    requires Shaped(s) && !use.Destroy?
    ensures ReadEndsWithAnswer(s.input, Step(s, use).input) && WriteEndsWithAnswer(s.output, Step(s, use).output)
  {
    hide ReadMore;
    hide WriteMore;
    match use
    case ReadInto(size, all, reading) =>
      if s.input.read.None? { ReadMoreEnds(s.input.(read := Some(Read(all, size, []))), reading); }
    case WriteOut(data, writing) =>
      if s.output.write.None? { WriteMoreEnds(s.output.(write := Some(Write(data, 0))), writing); }
    case Happens(DataReady(reading)) => ReadMoreEnds(s.input, reading);
    case Happens(ReadClosed(reading)) => ReadMoreEnds(s.input, reading);
    case Happens(DataWrite(writing)) => WriteMoreEnds(s.output, writing);
    case Happens(TransportClosed(writing, reading, _)) =>
      ReadMoreEnds(s.input, reading);
      WriteMoreEnds(s.output, writing);
    case _ =>
  }

  /** A transport that moves at least a byte whenever it can, for at least `n` answers. */
  predicate Eager(script: seq<Answer>, n: nat) {
    n <= |script| && forall k :: 0 <= k < |script| ==> script[k].status == StatusOK && script[k].count > 0
  }

  lemma {:induction false} EagerRead(i: Incoming, script: seq<Answer>)
    requires ReadShaped(i) && Unfilled(i) && Eager(script, |i.received| - i.consumed)
    ensures var r := ReadMore(i, script);
            r.read.Some? ==> r.consumed == |r.received| || r.read.value.wanted == 0
    decreases if i.read.None? then 0 else i.read.value.wanted - |i.read.value.got|
  {
    if i.read.Some? {
      var next := Fed(i, Next(script));
      assert next.last.count == 0 ==> i.consumed == |i.received| || i.read.value.wanted == 0;
      if next.last.count > 0 && next.read.value.all && |next.read.value.got| != next.read.value.wanted {
        EagerRead(next, Rest(script));
      }
    }
  }

  /**
   * The read a use lets go on: the one it begins, or on data and at the end of the
   * peer's or of the whole stream the one under way.
   */
  ghost function ReadServed(uses: seq<Use>, use: Use): Option<Read> {
    match use
    case ReadInto(size, all, _) => if Run(uses).input.read.Some? then None else Some(Read(all, size, []))
    case Happens(DataReady(_)) => Run(uses).input.read
    case Happens(ReadClosed(_)) => Run(uses).input.read
    case Happens(TransportClosed(_, _, _)) => Run(uses).input.read
    case _ => None
  }

  /** The answers the transport gives to reads during a use. */
  function Reading(use: Use): seq<Answer> {
    match use
    case ReadInto(_, _, reading) => reading
    case Happens(DataReady(reading)) => reading
    case Happens(ReadClosed(reading)) => reading
    case Happens(TransportClosed(_, reading, _)) => reading
    case _ => []
  }

  ghost function WriteServed(uses: seq<Use>, use: Use): Option<Write> {
    match use
    case WriteOut(data, _) => if Run(uses).output.write.Some? then None else Some(Write(data, 0))
    case Happens(DataWrite(_)) => Run(uses).output.write
    case Happens(TransportClosed(_, _, _)) => Run(uses).output.write
    case _ => None
  }

  function Writing(use: Use): seq<Answer> {
    match use
    case WriteOut(_, writing) => writing
    case Happens(DataWrite(writing)) => writing
    case Happens(TransportClosed(writing, _, _)) => writing
    case _ => []
  }

  lemma ReadIsServed(uses: seq<Use>, use: Use)
    requires ReadServed(uses, use).Some?
    ensures var i := Run(uses).input.(read := ReadServed(uses, use));
            && ReadShaped(i) && Unfilled(i) && i.consumed <= |Arrived(uses)| && i.received == Arrived(uses)
            && Run(uses + [use]).input == ReadMore(i, Reading(use))
  {
    hide ReadMore;
    hide WriteMore;
    hide Arrived;
    WaitsOnlyWhenBlocked(uses);
    ReadsHold(uses);
    assert (uses + [use])[..|uses|] == uses;
  }

  lemma WriteIsServed(uses: seq<Use>, use: Use)
    requires WriteServed(uses, use).Some?
    ensures var o := Run(uses).output.(write := WriteServed(uses, use));
            && WriteShaped(o) && (o.write.value.data == [] || o.write.value.taken < |o.write.value.data|)
            && Run(uses + [use]).output == WriteMore(o, Writing(use))
  {
    hide ReadMore;
    hide WriteMore;
    WaitsOnlyWhenBlocked(uses);
    assert (uses + [use])[..|uses|] == uses;
  }

  /** With an eager transport no byte that has arrived is left lying while a read waits. */
  lemma NothingLeftLying(uses: seq<Use>, use: Use)
    requires ReadServed(uses, use).Some? && Eager(Reading(use), |Arrived(uses)|)
    ensures var i := Run(uses + [use]).input;
            i.read.Some? && i.read.value.wanted > 0 ==> Delivered(i.readsDone) + Got(i) == Arrived(uses)
  {
    hide Delivered;
    hide ReadMore;
    hide Run;
    var all := uses + [use];
    ReadsHold(all);
    ReadIsServed(uses, use);
    EagerRead(Run(uses).input.(read := ReadServed(uses, use)), Reading(use));
    var i := Run(all).input;
    assert i.received[..|i.received|] == i.received;
  }

  /** How many bytes answers move that are all OK. */
  function Total(moves: seq<Answer>): nat {
    if moves == [] then 0 else moves[0].count + Total(moves[1..])
  }

  predicate Moves(moves: seq<Answer>) {
    forall k :: 0 <= k < |moves| ==> moves[k].status == StatusOK && moves[k].count > 0
  }

  /** The name the application knows an error of the transport by. */
  predicate Names(status: Status, ec: ErrorCode) {
    || (status == StatusClosed && ec == CLOSED)
    || (status == StatusEof && ec == EOF)
    || (status == StatusAborted && ec == ABORTED)
    || (status == StatusOther && ec == UNKNOWN)
  }

  lemma SlicesJoin(before: seq<byte>, data: seq<byte>, a: nat, b: nat, c: nat)
    requires a <= b <= c <= |data|
    ensures (before + data[a..b]) + data[b..c] == before + data[a..c]
  {
    assert data[a..b] + data[b..c] == data[a..c];
  }

  /** Some bytes, then an error: what the read then holds, and that it has ended. */
  lemma {:induction false} ReadFails(i: Incoming, moves: seq<Answer>, error: Answer, rest: seq<Answer>, ec: ErrorCode)
    requires ReadShaped(i) && i.read.Some? && Moves(moves) && Names(error.status, ec)
    requires moves != [] ==> i.read.value.all
    requires Total(moves) <= |i.received| - i.consumed
    requires moves == [] || Total(moves) < i.read.value.wanted - |i.read.value.got|
    ensures var r := ReadMore(i, moves + [error] + rest);
            var data := i.read.value.got + i.received[i.consumed..i.consumed + Total(moves)];
            && r.read.None? && r.consumed == i.consumed + Total(moves)
            && r.readsDone == i.readsDone + [ReadResult(i.read.value.all, i.read.value.wanted, data, ec)]
    decreases |moves|
  {
    hide ReadMore;
    var script := moves + [error] + rest;
    ReadMoreUnfolds(i, script);
    if moves == [] {
      assert script[0] == error;
      assert i.received[i.consumed..i.consumed] == [];
    } else {
      var next := Fed(i, moves[0]);
      assert script[0] == moves[0] && script[1..] == moves[1..] + [error] + rest;
      assert next.last.count == moves[0].count;
      ReadFails(next, moves[1..], error, rest, ec);
      SlicesJoin(i.read.value.got, i.received, i.consumed, i.consumed + moves[0].count, i.consumed + Total(moves));
    }
  }

  lemma ReadMoreUnfolds(i: Incoming, script: seq<Answer>)
    requires ReadShaped(i) && i.read.Some?
    ensures ReadMore(i, script)
         == var next := Fed(i, Next(script));
            if Next(script).status != StatusOK then ReadEnded(next, StatusToEc(Next(script).status))
            else if next.last.count == 0 then next
            else if !next.read.value.all || |next.read.value.got| == next.read.value.wanted then ReadEnded(next, OK)
            else ReadMore(next, Rest(script))
  {
  }

  /**
   * In every run, when a use serves a read and the transport hands over some bytes
   * that do not fill it and then an error, that read ends with those bytes and with
   * the name of the error.
   */
  lemma ErrorEndsRead(uses: seq<Use>, use: Use, moves: seq<Answer>, error: Answer, rest: seq<Answer>, ec: ErrorCode)
    requires Reading(use) == moves + [error] + rest && Moves(moves) && Names(error.status, ec)
    requires ReadServed(uses, use).Some? && Run(uses).input.consumed + Total(moves) <= |Arrived(uses)|
    requires var r := ReadServed(uses, use).value;
             moves == [] || (r.all && |r.got| + Total(moves) < r.wanted)
    ensures var before, after, r := Run(uses).input, Run(uses + [use]).input, ReadServed(uses, use).value;
            var data := r.got + Arrived(uses)[before.consumed..before.consumed + Total(moves)];
            && after.read.None?
            && after.readsDone == before.readsDone + [ReadResult(r.all, r.wanted, data, ec)]
  {
    hide Run;
    hide ReadMore;
    hide ReadServed;
    ReadIsServed(uses, use);
    ReadFails(Run(uses).input.(read := ReadServed(uses, use)), moves, error, rest, ec);
  }

  lemma WriteMoreUnfolds(o: Outgoing, script: seq<Answer>)
    requires WriteShaped(o) && o.write.Some?
    ensures WriteMore(o, script)
         == var next := Drained(o, Next(script));
            if Next(script).status != StatusOK then WriteEnded(next, StatusToEc(Next(script).status))
            else if next.last.count == 0 then next
            else if next.write.value.taken == |next.write.value.data| then WriteEnded(next, OK)
            else WriteMore(next, Rest(script))
  {
  }

  lemma {:induction false} WriteFails(o: Outgoing, moves: seq<Answer>, error: Answer, rest: seq<Answer>, ec: ErrorCode)
    requires WriteShaped(o) && o.write.Some? && Moves(moves) && Names(error.status, ec)
    requires moves == [] || o.write.value.taken + Total(moves) < |o.write.value.data|
    ensures var r, w := WriteMore(o, moves + [error] + rest), o.write.value;
            && r.write.None? && w.taken + Total(moves) <= |w.data|
            && r.sent == o.sent + w.data[w.taken..w.taken + Total(moves)]
            && r.writesDone == o.writesDone + [WriteResult(w.data, w.taken + Total(moves), ec)]
    decreases |moves|
  {
    hide WriteMore;
    var script, w := moves + [error] + rest, o.write.value;
    WriteMoreUnfolds(o, script);
    if moves == [] {
      assert script[0] == error;
      assert w.data[w.taken..w.taken] == [];
    } else {
      var next := Drained(o, moves[0]);
      assert script[0] == moves[0] && script[1..] == moves[1..] + [error] + rest;
      assert next.last.count == moves[0].count;
      WriteFails(next, moves[1..], error, rest, ec);
      SlicesJoin(o.sent, w.data, w.taken, w.taken + moves[0].count, w.taken + Total(moves));
    }
  }

  /** The same for a write: the error ends it after the bytes that were taken. */
  lemma ErrorEndsWrite(uses: seq<Use>, use: Use, moves: seq<Answer>, error: Answer, rest: seq<Answer>, ec: ErrorCode)
    requires Writing(use) == moves + [error] + rest && Moves(moves) && Names(error.status, ec)
    requires WriteServed(uses, use).Some?
    requires var w := WriteServed(uses, use).value;
             moves == [] || w.taken + Total(moves) < |w.data|
    ensures var before, after, w := Run(uses).output, Run(uses + [use]).output, WriteServed(uses, use).value;
            && after.write.None? && w.taken + Total(moves) <= |w.data|
            && after.sent == before.sent + w.data[w.taken..w.taken + Total(moves)]
            && after.writesDone == before.writesDone + [WriteResult(w.data, w.taken + Total(moves), ec)]
  {
    hide Run;
    hide WriteMore;
    hide WriteServed;
    WriteIsServed(uses, use);
    WriteFails(Run(uses).output.(write := WriteServed(uses, use)), moves, error, rest, ec);
  }

  /**
   * A close ends, when it is asked for and when the whole stream ends, with the
   * transport's status: OK when the stream is closed, else the name of the error.
   */
  lemma CloseSaysWhy(uses: seq<Use>, use: Use, status: Status, ec: ErrorCode)
    requires if status == StatusClosed then ec == OK else Names(status, ec)
    requires var closing := Run(uses).control.closing;
             || (use == CloseIt(status) && !closing)
             || (use.Happens? && use.event.TransportClosed? && use.event.status == status && closing)
    ensures var c, d := Run(uses).control, Run(uses + [use]).control;
            !d.closing && d.closes == c.closes + [ec]
  {
    hide ReadMore;
    hide WriteMore;
    assert (uses + [use])[..|uses|] == uses;
  }

  lemma {:induction false} EagerWrite(o: Outgoing, script: seq<Answer>)
    requires WriteShaped(o) && o.write.Some? && Eager(script, |o.write.value.data| - o.write.value.taken)
    requires o.write.value.taken < |o.write.value.data|
    ensures var r := WriteMore(o, script);
            r.write.None? && r.writesDone == o.writesDone + [WriteResult(o.write.value.data, |o.write.value.data|, OK)]
    decreases |o.write.value.data| - o.write.value.taken
  {
    var next := Drained(o, Next(script));
    if next.write.value.taken != |next.write.value.data| {
      EagerWrite(next, Rest(script));
    }
  }

  /** With an eager transport a write that is begun or under way succeeds. */
  lemma EagerWriteEnds(uses: seq<Use>, use: Use)
    requires WriteServed(uses, use).Some? && WriteServed(uses, use).value.data != []
    requires Eager(Writing(use), |WriteServed(uses, use).value.data|)
    ensures var o, data := Run(uses + [use]).output, WriteServed(uses, use).value.data;
            o.write.None? && o.writesDone == Run(uses).output.writesDone + [WriteResult(data, |data|, OK)]
  {
    hide Run;
    hide WriteMore;
    hide WriteServed;
    WriteIsServed(uses, use);
    EagerWrite(Run(uses).output.(write := WriteServed(uses, use)), Writing(use));
  }

  // ----- Accepting and closing --------------------------------------------------------------------------------

  predicate EndsAccept(use: Use) {
    use.Destroy? || (use.Happens? && (use.event.Opened? || use.event.TransportClosed?))
  }

  predicate EndsClose(use: Use) {
    || use.Destroy?
    || (use.Happens? && use.event.WriteClosed?)
    || (use.Happens? && use.event.TransportClosed? && use.event.status != StatusOK)
  }

  ghost predicate AcceptSince(uses: seq<Use>, k: nat) {
    k < |uses| && uses[k] == AcceptIt && forall j :: k < j < |uses| ==> !EndsAccept(uses[j])
  }

  ghost predicate CloseSince(uses: seq<Use>, k: nat) {
    k < |uses| && uses[k] == CloseIt(StatusOK) && forall j :: k < j < |uses| ==> !EndsClose(uses[j])
  }

  lemma ControlStep(s: State, use: Use)
    requires Shaped(s)
    ensures Step(s, use).control.accepting <==> use == AcceptIt || (s.control.accepting && !EndsAccept(use))
    ensures Step(s, use).control.closing <==> use == CloseIt(StatusOK) || (s.control.closing && !EndsClose(use))
  {
    hide ReadMore;
    hide WriteMore;
  }

  /** An accept is under way exactly when one was asked for and the stream has neither opened nor ended since. */
  lemma {:induction false} AcceptingIff(uses: seq<Use>)
    ensures Run(uses).control.accepting <==> exists k: nat :: AcceptSince(uses, k)
  {
    hide Step;
    if uses != [] {
      var n := |uses| - 1;
      var before := uses[..n];
      AcceptingIff(before);
      ControlStep(Run(before), uses[n]);
      forall k: nat | k < n ensures AcceptSince(uses, k) <==> AcceptSince(before, k) && !EndsAccept(uses[n]) {
      }
      assert AcceptSince(uses, n) <==> uses[n] == AcceptIt;
    }
  }

  /** A close is under way exactly when the transport put one off and has not ended it since. */
  lemma {:induction false} ClosingIff(uses: seq<Use>)
    ensures Run(uses).control.closing <==> exists k: nat :: CloseSince(uses, k)
  {
    hide Step;
    if uses != [] {
      var n := |uses| - 1;
      var before := uses[..n];
      ClosingIff(before);
      ControlStep(Run(before), uses[n]);
      forall k: nat | k < n ensures CloseSince(uses, k) <==> CloseSince(before, k) && !EndsClose(uses[n]) {
      }
      assert CloseSince(uses, n) <==> uses[n] == CloseIt(StatusOK);
    }
  }

  /** The accept callbacks of a run: one whenever an accept under way is ended, OK when the stream has opened. */
  ghost function AcceptCodes(uses: seq<Use>): seq<ErrorCode> {
    if uses == [] then []
    else
      var before, use := uses[..|uses| - 1], uses[|uses| - 1];
      AcceptCodes(before) + if EndsAccept(use) && exists k: nat :: AcceptSince(before, k)
                            then [if use == Happens(Opened) then OK else ABORTED] else []
  }

  /** The close callbacks of a run: at once when the transport does not put the close off, else when it ends. */
  ghost function CloseCodes(uses: seq<Use>): seq<ErrorCode> {
    if uses == [] then []
    else
      var before, use := uses[..|uses| - 1], uses[|uses| - 1];
      var underway := exists k: nat :: CloseSince(before, k);
      CloseCodes(before)
      + if underway && EndsClose(use) then
          [if use.Destroy? then ABORTED else if use == Happens(WriteClosed) then OK else CloseCode(use.event.status)]
        else if !underway && use.CloseIt? && use.status != StatusOK then [CloseCode(use.status)]
        else []
  }

  lemma CodesStep(s: State, use: Use)
    requires Shaped(s)
    ensures var c, d := s.control, Step(s, use).control;
            && d.accepts == c.accepts + (if EndsAccept(use) && c.accepting
                                         then [if use == Happens(Opened) then OK else ABORTED] else [])
            && d.closes == c.closes
               + if c.closing && EndsClose(use) then
                   [if use.Destroy? then ABORTED else if use == Happens(WriteClosed) then OK
                    else CloseCode(use.event.status)]
                 else if !c.closing && use.CloseIt? && use.status != StatusOK then [CloseCode(use.status)]
                 else []
  {
    hide ReadMore;
    hide WriteMore;
  }

  lemma {:induction false} ControlCodes(uses: seq<Use>)
    ensures Run(uses).control.accepts == AcceptCodes(uses) && Run(uses).control.closes == CloseCodes(uses)
  {
    hide Step;
    hide AcceptSince;
    hide CloseSince;
    if uses != [] {
      var before := uses[..|uses| - 1];
      ControlCodes(before);
      AcceptingIff(before);
      ClosingIff(before);
      CodesStep(Run(before), uses[|uses| - 1]);
    }
  }

  function One(b: bool): nat {
    if b then 1 else 0
  }

  lemma CountStep(s: State, use: Use)
    requires Shaped(s)
    ensures var c, d := s.control, Step(s, use).control;
            && |d.accepts| + One(d.accepting) == |c.accepts| + One(c.accepting || use == AcceptIt)
            && |d.closes| + One(d.closing) == |c.closes| + One(c.closing || use.CloseIt?)
  {
    hide ReadMore;
    hide WriteMore;
  }

  /** In every run each accept and each close begun has had one callback, or is under way. */
  lemma {:induction false} OneCallbackPerAcceptAndClose(uses: seq<Use>)
    ensures AcceptsBegun(uses) == |Run(uses).control.accepts| + One(Run(uses).control.accepting)
    ensures ClosesBegun(uses) == |Run(uses).control.closes| + One(Run(uses).control.closing)
  {
    hide Step;
    if uses != [] {
      OneCallbackPerAcceptAndClose(uses[..|uses| - 1]);
      CountStep(Run(uses[..|uses| - 1]), uses[|uses| - 1]);
    }
  }

  // ----- All operations ---------------------------------------------------------------------------------------

  /** Every operation of the kind of `use` that was begun has had its callback. */
  predicate Free(uses: seq<Use>, use: Use) {
    match use
    case ReadInto(_, _, _) => |Run(uses).input.readsDone| == |ReadsBegun(uses)|
    case WriteOut(_, _) => |Run(uses).output.writesDone| == |WritesBegun(uses)|
    case AcceptIt => |Run(uses).control.accepts| == AcceptsBegun(uses)
    case CloseIt(_) => |Run(uses).control.closes| == ClosesBegun(uses)
    case BytesArrive(_) | Happens(_) | Destroy => true
  }

  /** In every run each call is taken exactly when its kind is free. */
  lemma {:induction false} TakenIff(uses: seq<Use>, i: nat)
    requires i < |uses|
    ensures Codes(uses)[i] <==> Free(uses[..i], uses[i])
  {
    hide Free;
    hide Code;
    hide Run;
    var n := |uses| - 1;
    CodeIff(uses[..n], uses[n]);
    if i < n {
      TakenIff(uses[..n], i);
      assert uses[..n][..i] == uses[..i];
    }
  }

  lemma CodeIff(uses: seq<Use>, use: Use)
    ensures Code(Run(uses), use) <==> Free(uses, use)
  {
    hide Run;
    hide ReadsBegun;
    hide WritesBegun;
    hide AcceptsBegun;
    hide ClosesBegun;
    ReadsHold(uses);
    WritesInOrder(uses);
    OneCallbackPerAcceptAndClose(uses);
  }

  /** When a stream is destroyed every operation ever begun has had exactly one callback. */
  lemma DestroyEndsAll(uses: seq<Use>)
    requires uses != [] && uses[|uses| - 1] == Destroy
    ensures var s := Run(uses);
            && Asked(s.input.readsDone) == ReadsBegun(uses) && Given(s.output.writesDone) == WritesBegun(uses)
            && |s.control.accepts| == AcceptsBegun(uses) && |s.control.closes| == ClosesBegun(uses)
  {
    hide ReadsBegun;
    hide WritesBegun;
    hide AcceptsBegun;
    hide ClosesBegun;
    hide Delivered;
    hide Taken;
    ReadsHold(uses);
    WritesInOrder(uses);
    OneCallbackPerAcceptAndClose(uses);
  }

  /** Calling the callbacks and clearing them ends what is under way. */
  lemma AbortedIsEnded(i: Incoming, o: Outgoing, c: Control)
    ensures i.(readsDone := ReadEnded(i, ABORTED).readsDone).(read := None) == ReadEnded(i, ABORTED)
    ensures o.(writesDone := WriteEnded(o, ABORTED).writesDone).(write := None) == WriteEnded(o, ABORTED)
    ensures c.(accepts := AcceptEnded(c, ABORTED).accepts, closes := CloseEnded(c, ABORTED).closes)
             .(accepting := false, closing := false)
         == CloseEnded(AcceptEnded(c, ABORTED), ABORTED)
    ensures i.read.None? ==> ReadEnded(i, ABORTED) == i
    ensures o.write.None? ==> WriteEnded(o, ABORTED) == o
    ensures !c.accepting && !c.closing ==> CloseEnded(AcceptEnded(c, ABORTED), ABORTED) == c
  {
  }
}
