/**
 * nc_stream_manager.c: the table of streams and the connections they belong to,
 * the listener ports and the segment budget.
 */
module StreamManager {
  import opened Bytes
  import opened Packet

  const MAX_STREAMS := 10
  const AT_STREAM: byte := 0x05

  type Conn = nat   // the address of a connection; it is used again after the connection is gone

  datatype Stream = Stream(active: bool, streamId: nat)

  datatype Table = Table(streams: seq<Stream>, conns: seq<Option<Conn>>, rstBusy: bool)

  const FREE := Stream(false, 0)

  const EMPTY := Table([FREE, FREE, FREE, FREE, FREE, FREE, FREE, FREE, FREE, FREE],
                       [None, None, None, None, None, None, None, None, None, None], false)

  /** The flag byte of an opening packet, and which flag bytes are those of a reset. */
  datatype Flags = Flags(syn: byte, isRst: byte -> bool)

  /** What became of a packet: no stream could be named, a stream took it, or a reset was sent or not. */
  datatype Outcome = Malformed | Handled(slot: nat) | Accepted(slot: nat) | ResetSent(packet: bytes) | NotSent | Dropped

  /**
   * A packet is the first `size` bytes of the memory it was received in; `ready`
   * tells whether the events of a new stream can be made, `memory` whether there is
   * a buffer for a reset.
   */
  datatype Use =
    | Arrives(p: Conn, buffer: bytes, size: nat, ready: bool, memory: bool)
    | StreamEnds(slot: nat)
    | ConnectionEnds(p: Conn)
    | ResetLeaves

  predicate InMemory(use: Use) {
    use.Arrives? ==> use.size < |use.buffer|
  }

  // ----- What the code does ----------------------------------------------------------------------------

  predicate Shaped(t: Table) {
    |t.streams| == |t.conns| == MAX_STREAMS
  }

  predicate Matches(t: Table, i: nat, id: nat, p: Conn)
    requires Shaped(t) && i < MAX_STREAMS
  {
    t.streams[i].streamId == id && t.conns[i] == Some(p)
  }

  /** nc_stream_manager_find_stream does not look at `active`. */
  function FindFrom(t: Table, id: nat, p: Conn, i: nat): (r: Option<nat>)
    requires Shaped(t) && i <= MAX_STREAMS
    ensures r.Some? ==> i <= r.value < MAX_STREAMS && Matches(t, r.value, id, p)
    ensures forall j :: i <= j < (if r.Some? then r.value else MAX_STREAMS) ==> !Matches(t, j, id, p)
    decreases MAX_STREAMS - i
  {
    if i == MAX_STREAMS then None else if Matches(t, i, id, p) then Some(i) else FindFrom(t, id, p, i + 1)
  }

  function FreeFrom(t: Table, i: nat): (r: Option<nat>)
    requires Shaped(t) && i <= MAX_STREAMS
    ensures r.Some? ==> i <= r.value < MAX_STREAMS && !t.streams[r.value].active
    ensures forall j :: i <= j < (if r.Some? then r.value else MAX_STREAMS) ==> t.streams[j].active
    decreases MAX_STREAMS - i
  {
    if i == MAX_STREAMS then None else if !t.streams[i].active then Some(i) else FreeFrom(t, i + 1)
  }

  /** The slot a new stream gets: the first free one, for even ids only. */
  function AcceptSlot(t: Table, id: nat, ready: bool): (r: Option<nat>)
    requires Shaped(t)
    ensures r.Some? ==> r.value < MAX_STREAMS && !t.streams[r.value].active && id % 2 == 0
  {
    if id % 2 == 1 || !ready then None else FreeFrom(t, 0)
  }

  function WithStream(t: Table, i: nat, id: nat, p: Conn): Table
    requires Shaped(t) && i < MAX_STREAMS
  {
    t.(streams := t.streams[i := Stream(true, id)], conns := t.conns[i := Some(p)])
  }

  /** nc_stream_destroy: the slot is free again, but its connection stays noted. */
  function Destroyed(t: Table, i: nat): Table
    requires Shaped(t) && i < MAX_STREAMS
  {
    if t.streams[i].active then t.(streams := t.streams[i := FREE]) else t
  }

  function Without(conns: seq<Option<Conn>>, p: Conn): (r: seq<Option<Conn>>)
    ensures |r| == |conns|
    ensures forall i :: 0 <= i < |r| ==> r[i] == if conns[i] == Some(p) then None else conns[i]
  {
    if conns == [] then [] else [if conns[0] == Some(p) then None else conns[0]] + Without(conns[1..], p)
  }

  function Removed(t: Table, p: Conn): (r: Table)
    requires Shaped(t)
    ensures Shaped(r) && r.streams == t.streams && r.rstBusy == t.rstBusy
    ensures forall i :: 0 <= i < MAX_STREAMS ==> r.conns[i] == if t.conns[i] == Some(p) then None else t.conns[i]
  {
    Table(t.streams, Without(t.conns, p), t.rstBusy)
  }

  /** A reset names the stream it answers. */
  function ResetFor(id: nat, reset: bytes): bytes
    requires id < U64
  {
    [AT_STREAM] + Encode(id) + reset
  }

  /**
   * A packet for stream `id` with flag byte `flags`: the owner takes it, a SYN
   * opens a stream, or it is answered with a reset.
   */
  function Routed(t: Table, f: Flags, reset: bytes, p: Conn, id: nat, flags: byte, ready: bool, memory: bool)
    : (r: (Table, Outcome))
    requires Shaped(t) && id < U64
    ensures Shaped(r.0) && r.1 != Malformed
  {
    var found := FindFrom(t, id, p, 0);
    var slot := if flags == f.syn then AcceptSlot(t, id, ready) else None;
    if found.Some? then (t, Handled(found.value))
    else if slot.Some? then (WithStream(t, slot.value, id, p), Accepted(slot.value))
    else if f.isRst(flags) then (t, Dropped)
    else if t.rstBusy || !memory then (t, NotSent)
    else (t.(rstBusy := true), ResetSent(ResetFor(id, reset)))
  }

  /** The stream id of a packet and its length. */
  function IdOf(buffer: bytes, size: nat): (r: Option<(nat, nat)>)
    requires size <= |buffer|
    ensures r.Some? ==> r.value.0 < U62 && 1 + r.value.1 <= size
  {
    if size < 4 then None
    else
      var id := Decode(buffer[1..size]);
      DecodeBound(buffer[1..size]);
      id
  }

  lemma DecodeBound(s: bytes)
    ensures Decode(s).Some? ==> Decode(s).value.0 < U62 && Decode(s).value.1 <= |s|
  {
    if Decode(s).Some? { Shortest(s); }
  }

  function Step(t: Table, f: Flags, reset: bytes, use: Use): (r: (Table, Outcome))
    requires Shaped(t) && InMemory(use)
    ensures Shaped(r.0)
  {
    match use
    case Arrives(p, buffer, size, ready, memory) =>
      (match IdOf(buffer, size)
       case None => (t, Malformed)
       case Some(id) => Routed(t, f, reset, p, id.0, buffer[1 + id.1], ready, memory))
    case StreamEnds(slot) => (if slot < MAX_STREAMS then Destroyed(t, slot) else t, Dropped)
    case ConnectionEnds(p) => (Removed(t, p), Dropped)
    case ResetLeaves => (t.(rstBusy := false), Dropped)
  }

  predicate AllInMemory(uses: seq<Use>) {
    forall i :: 0 <= i < |uses| ==> InMemory(uses[i])
  }

  function Run(f: Flags, reset: bytes, uses: seq<Use>): (t: Table)
    requires AllInMemory(uses)
    ensures Shaped(t)
  {
    if uses == [] then EMPTY
    else Step(Run(f, reset, uses[..|uses| - 1]), f, reset, uses[|uses| - 1]).0
  }

  /** What happens to each use of a run. */
  function Outcomes(f: Flags, reset: bytes, uses: seq<Use>): (r: seq<Outcome>)
    requires AllInMemory(uses)
    ensures |r| == |uses|
  {
    if uses == [] then []
    else
      var before := uses[..|uses| - 1];
      Outcomes(f, reset, before) + [Step(Run(f, reset, before), f, reset, uses[|uses| - 1]).1]
  }

  // ----- What every table keeps --------------------------------------------------------------------------

  /** Slot `i` holds the active stream `id` of the connection at `p`. */
  predicate Owns(t: Table, i: nat, id: nat, p: Conn)
    requires Shaped(t)
  {
    i < MAX_STREAMS && t.streams[i] == Stream(true, id) && t.conns[i] == Some(p)
  }

  /** A stream of `p` in slot `i` has ended and left the address of its connection behind. */
  predicate Ended(t: Table, i: nat, p: Conn)
    requires Shaped(t)
  {
    i < MAX_STREAMS && !t.streams[i].active && t.conns[i] == Some(p)
  }

  /** Accepted ids are even, free slots have no id, and no two slots hold the same stream of a connection. */
  predicate Inv(t: Table) {
    && Shaped(t)
    && (forall i :: 0 <= i < MAX_STREAMS ==>
          if t.streams[i].active then t.streams[i].streamId % 2 == 0 else t.streams[i].streamId == 0)
    && (forall i, j :: 0 <= i < j < MAX_STREAMS && t.streams[i].active && t.streams[j].active
                       && t.conns[i].Some? && t.conns[i] == t.conns[j] ==>
          t.streams[i].streamId != t.streams[j].streamId)
  }

  lemma InvAccept(t: Table, i: nat, id: nat, p: Conn)
    requires Inv(t) && i < MAX_STREAMS && id % 2 == 0 && FindFrom(t, id, p, 0).None?
    ensures Inv(WithStream(t, i, id, p))
  {
    hide FindFrom;
    var u := WithStream(t, i, id, p);
    forall j | 0 <= j < MAX_STREAMS && j != i && t.conns[j] == Some(p) ensures t.streams[j].streamId != id {
      assert !Matches(t, j, id, p);
    }
  }

  lemma InvStep(t: Table, f: Flags, reset: bytes, use: Use)
    requires Inv(t) && InMemory(use)
    ensures Inv(Step(t, f, reset, use).0)
  {
    hide FindFrom;
    hide FreeFrom;
    hide WithStream;
    match use
    case Arrives(p, buffer, size, ready, memory) =>
      var id := IdOf(buffer, size);
      if id.Some? && Routed(t, f, reset, p, id.value.0, buffer[1 + id.value.1], ready, memory).1.Accepted? {
        InvAccept(t, AcceptSlot(t, id.value.0, ready).value, id.value.0, p);
      }
    case _ =>
  }

  /** In every run ids of active streams are even and an id has at most one owner on a connection. */
  lemma {:induction false} RunKeepsInv(f: Flags, reset: bytes, uses: seq<Use>)
    requires AllInMemory(uses)
    ensures Inv(Run(f, reset, uses))
  {
    hide Step;
    if uses != [] {
      RunKeepsInv(f, reset, uses[..|uses| - 1]);
      InvStep(Run(f, reset, uses[..|uses| - 1]), f, reset, uses[|uses| - 1]);
    }
  }

  lemma OwnerIsUnique(f: Flags, reset: bytes, uses: seq<Use>, i: nat, j: nat, id: nat, p: Conn)
    requires AllInMemory(uses) && Owns(Run(f, reset, uses), i, id, p) && Owns(Run(f, reset, uses), j, id, p)
    ensures i == j && id % 2 == 0
  {
    hide Run;
    RunKeepsInv(f, reset, uses);
  }

  // ----- Lookups ------------------------------------------------------------------------------------------

  /** The lookup of stream zero is misled by an ended stream in front of the one it should find. */
  ghost predicate Misleading(t: Table, id: nat, p: Conn)
    requires Shaped(t)
  {
    id == 0 && exists e: nat :: Ended(t, e, p) && forall j: nat :: j < e ==> !Owns(t, j, id, p)
  }

  /** The lookup finds exactly the owner of a stream if and only if it is not misled, which only id zero allows. */
  lemma FindIff(f: Flags, reset: bytes, uses: seq<Use>, id: nat, p: Conn)
    requires AllInMemory(uses)
    ensures var t := Run(f, reset, uses);
            var found := FindFrom(t, id, p, 0);
            && (found.None? ==> forall i: nat :: !Owns(t, i, id, p))
            && (found.None? || Owns(t, found.value, id, p) <==> !Misleading(t, id, p))
  {
    hide Run;
    hide FindFrom;
    RunKeepsInv(f, reset, uses);
    var t := Run(f, reset, uses);
    var found := FindFrom(t, id, p, 0);
    forall i: nat
      ensures (Owns(t, i, id, p) || (id == 0 && Ended(t, i, p))) ==> i < MAX_STREAMS && Matches(t, i, id, p)
    {
    }
    if found.Some? && !Owns(t, found.value, id, p) {
      assert Ended(t, found.value, p);
      assert forall j: nat :: j < found.value ==> !Owns(t, j, id, p);
    }
  }

  const ENDED_THEN_ZERO := [Arrives(7, [AT_STREAM, 2, 9, 0, 0], 4, true, true), StreamEnds(0)]

  /** A connection opens stream two and ends it; a lookup of its stream zero then finds the ended stream. */
  lemma StreamZeroIsMisled(f: Flags)
    requires f.syn == 9
    ensures AllInMemory(ENDED_THEN_ZERO)
    ensures var t := Run(f, [], ENDED_THEN_ZERO); FindFrom(t, 0, 7, 0) == Some(0) && !t.streams[0].active
  {
    var u := ENDED_THEN_ZERO[0];
    var b := u.buffer[1..4];
    assert b == [2, 9, 0];
    SmallId(b, 2);
    assert IdOf(u.buffer, 4) == Some((2, 1));
    assert FindFrom(EMPTY, 2, 7, 0).None?;
    assert Step(EMPTY, f, [], u) == (WithStream(EMPTY, 0, 2, 7), Accepted(0));
    assert |ENDED_THEN_ZERO[..1][..0]| == 0 && ENDED_THEN_ZERO[..2] == ENDED_THEN_ZERO;
    assert Run(f, [], ENDED_THEN_ZERO[..1]) == WithStream(EMPTY, 0, 2, 7);
  }

  /** A number below 64 is read from one byte. */
  lemma SmallId(s: bytes, v: byte)
    requires s != [] && s[0] == v < 64
    ensures Decode(s) == Some((v, 1))
  {
    assert [s[0] % 64] + s[1..1] == [v];
    Digits1(v);
  }

  // ----- Who owns a slot -----------------------------------------------------------------------------------

  /** Use `k` opened stream `id` of the connection at `p` in slot `i`. */
  predicate AcceptedAt(f: Flags, reset: bytes, uses: seq<Use>, k: nat, i: nat, id: nat, p: Conn)
    requires AllInMemory(uses)
  {
    && k < |uses| && uses[k].Arrives? && uses[k].p == p
    && IdOf(uses[k].buffer, uses[k].size).Some? && IdOf(uses[k].buffer, uses[k].size).value.0 == id
    && Step(Run(f, reset, uses[..k]), f, reset, uses[k]).1 == Accepted(i)
  }

  predicate Ends(use: Use, i: nat, p: Conn) {
    use == StreamEnds(i) || use == ConnectionEnds(p)
  }

  /** Use `k` opened it, and since then neither the stream nor the connection has ended. */
  predicate AliveSince(f: Flags, reset: bytes, uses: seq<Use>, k: nat, i: nat, id: nat, p: Conn)
    requires AllInMemory(uses)
  {
    AcceptedAt(f, reset, uses, k, i, id, p) && forall j :: k < j < |uses| ==> !Ends(uses[j], i, p)
  }

  lemma OwnsRouted(t: Table, f: Flags, reset: bytes, p: Conn, id: nat, flags: byte, ready: bool, memory: bool,
                   i: nat, id2: nat, p2: Conn)
    requires Inv(t) && id < U64
    ensures var r := Routed(t, f, reset, p, id, flags, ready, memory);
            Owns(r.0, i, id2, p2) <==> Owns(t, i, id2, p2) || (r.1 == Accepted(i) && id2 == id && p2 == p)
  {
    hide FindFrom;
    hide FreeFrom;
  }

  /** A slot changes its owner only by opening a stream or by an end. */
  lemma OwnsStep(t: Table, f: Flags, reset: bytes, use: Use, i: nat, id: nat, p: Conn)
    requires Inv(t) && InMemory(use)
    ensures var r := Step(t, f, reset, use);
            Owns(r.0, i, id, p) <==>
              (Owns(t, i, id, p) && !Ends(use, i, p))
              || (use.Arrives? && use.p == p && r.1 == Accepted(i) && IdOf(use.buffer, use.size).value.0 == id)
  {
    hide Routed;
    match use
    case Arrives(q, buffer, size, ready, memory) =>
      var read := IdOf(buffer, size);
      if read.Some? {
        OwnsRouted(t, f, reset, q, read.value.0, buffer[1 + read.value.1], ready, memory, i, id, p);
      }
    case _ =>
  }

  /**
   * In every run a slot holds a stream of a connection exactly when a packet of
   * that connection opened it there and neither has ended since. So a connection at
   * an address that was used before owns none of the streams of its predecessor.
   */
  lemma {:induction false} OwnerIff(f: Flags, reset: bytes, uses: seq<Use>, i: nat, id: nat, p: Conn)
    requires AllInMemory(uses)
    ensures Owns(Run(f, reset, uses), i, id, p) <==> exists k: nat :: AliveSince(f, reset, uses, k, i, id, p)
  {
    hide Step;
    if uses != [] {
      var n := |uses| - 1;
      var before := uses[..n];
      OwnerIff(f, reset, before, i, id, p);
      RunKeepsInv(f, reset, before);
      OwnsStep(Run(f, reset, before), f, reset, uses[n], i, id, p);
      forall k: nat | k < n ensures
        AliveSince(f, reset, uses, k, i, id, p) <==> AliveSince(f, reset, before, k, i, id, p) && !Ends(uses[n], i, p) {
        assert before[..k] == uses[..k];
      }
      AcceptedIsNew(f, reset, uses, i, id, p);
    }
  }

  /** Use `j` ended a stream of the connection at `p` in slot `e`; the slot was not taken again, and p has not ended. */
  ghost predicate EndedSince(f: Flags, reset: bytes, uses: seq<Use>, j: nat, e: nat, p: Conn)
    requires AllInMemory(uses)
  {
    && j < |uses| && uses[j] == StreamEnds(e)
    && (exists k: nat, id: nat :: AliveSince(f, reset, uses[..j], k, e, id, p))
    && forall m :: j < m < |uses| ==>
         uses[m] != ConnectionEnds(p) && Step(Run(f, reset, uses[..m]), f, reset, uses[m]).1 != Accepted(e)
  }

  lemma EndedStep(t: Table, f: Flags, reset: bytes, use: Use, e: nat, p: Conn)
    requires Inv(t) && InMemory(use)
    ensures var r := Step(t, f, reset, use);
            Ended(r.0, e, p) <==>
              || (Ended(t, e, p) && use != ConnectionEnds(p) && r.1 != Accepted(e))
              || (use == StreamEnds(e) && exists id: nat :: Owns(t, e, id, p))
  {
    hide FindFrom;
    hide FreeFrom;
    if e < MAX_STREAMS && t.streams[e].active && t.conns[e] == Some(p) {
      assert Owns(t, e, t.streams[e].streamId, p);
    }
  }

  /** In every run an ended stream has left its connection in a slot exactly when that can be told from the uses. */
  lemma {:induction false} EndedIff(f: Flags, reset: bytes, uses: seq<Use>, e: nat, p: Conn)
    requires AllInMemory(uses)
    ensures Ended(Run(f, reset, uses), e, p) <==> exists j: nat :: EndedSince(f, reset, uses, j, e, p)
  {
    hide Step;
    hide AliveSince;
    if uses != [] {
      var n := |uses| - 1;
      var before := uses[..n];
      EndedIff(f, reset, before, e, p);
      RunKeepsInv(f, reset, before);
      EndedStep(Run(f, reset, before), f, reset, uses[n], e, p);
      EndedEarlier(f, reset, uses, e, p);
      OwnedIff(f, reset, before, e, p);
    }
  }

  lemma OwnedIff(f: Flags, reset: bytes, uses: seq<Use>, e: nat, p: Conn)
    requires AllInMemory(uses)
    ensures (exists id: nat :: Owns(Run(f, reset, uses), e, id, p)) <==>
            exists k: nat, id: nat :: AliveSince(f, reset, uses, k, e, id, p)
  {
    hide Run;
    hide AliveSince;
    if id: nat :| Owns(Run(f, reset, uses), e, id, p) {
      OwnerIff(f, reset, uses, e, id, p);
    }
    if k: nat, id: nat :| AliveSince(f, reset, uses, k, e, id, p) {
      OwnerIff(f, reset, uses, e, id, p);
    }
  }

  lemma EndedEarlier(f: Flags, reset: bytes, uses: seq<Use>, e: nat, p: Conn)
    requires AllInMemory(uses) && uses != []
    ensures var n := |uses| - 1;
            && (forall j: nat :: j < n ==>
                  (EndedSince(f, reset, uses, j, e, p) <==>
                     && EndedSince(f, reset, uses[..n], j, e, p) && uses[n] != ConnectionEnds(p)
                     && Step(Run(f, reset, uses[..n]), f, reset, uses[n]).1 != Accepted(e)))
            && (EndedSince(f, reset, uses, n, e, p) <==>
                  && uses[n] == StreamEnds(e)
                  && exists k: nat, id: nat :: AliveSince(f, reset, uses[..n], k, e, id, p))
  {
    hide Step;
    hide Run;
    hide AliveSince;
    var n := |uses| - 1;
    forall m | 0 <= m <= n ensures uses[..n][..m] == uses[..m] {
    }
  }

  /** The lookup of stream zero is misled exactly by an ended stream of the connection in front of stream zero. */
  lemma MisledIff(f: Flags, reset: bytes, uses: seq<Use>, p: Conn)
    requires AllInMemory(uses)
    ensures Misleading(Run(f, reset, uses), 0, p) <==>
            exists e: nat, j: nat :: EndedSince(f, reset, uses, j, e, p) && NotBelow(f, reset, uses, e, p)
  {
    hide Run;
    hide EndedSince;
    hide AliveSince;
    var t := Run(f, reset, uses);
    if Misleading(t, 0, p) {
      var e: nat :| Ended(t, e, p) && forall j: nat :: j < e ==> !Owns(t, j, 0, p);
      EndedIff(f, reset, uses, e, p);
      var j: nat :| EndedSince(f, reset, uses, j, e, p);
      forall i: nat, k: nat | i < e ensures !AliveSince(f, reset, uses, k, i, 0, p) {
        OwnerIff(f, reset, uses, i, 0, p);
      }
      assert NotBelow(f, reset, uses, e, p);
    }
    if e: nat, j: nat :| EndedSince(f, reset, uses, j, e, p) && NotBelow(f, reset, uses, e, p) {
      EndedIff(f, reset, uses, e, p);
      forall i: nat | i < e ensures !Owns(t, i, 0, p) {
        OwnerIff(f, reset, uses, i, 0, p);
      }
    }
  }

  /** Stream zero of the connection does not live in a slot below `e`. */
  ghost predicate NotBelow(f: Flags, reset: bytes, uses: seq<Use>, e: nat, p: Conn)
    requires AllInMemory(uses)
  {
    forall i: nat, k: nat :: i < e ==> !AliveSince(f, reset, uses, k, i, 0, p)
  }

  lemma AcceptedIsNew(f: Flags, reset: bytes, uses: seq<Use>, i: nat, id: nat, p: Conn)
    requires AllInMemory(uses) && uses != []
    ensures AliveSince(f, reset, uses, |uses| - 1, i, id, p) <==>
              var n := |uses| - 1;
              && uses[n].Arrives? && uses[n].p == p
              && Step(Run(f, reset, uses[..n]), f, reset, uses[n]).1 == Accepted(i)
              && IdOf(uses[n].buffer, uses[n].size).value.0 == id
  {
    hide Routed;
  }

  // ----- What becomes of a packet ---------------------------------------------------------------------------

  /** A packet of at least four bytes that names stream `id` in the `n` bytes behind its first. */
  predicate NamesStream(buffer: bytes, size: nat, id: nat, n: nat) {
    4 <= size < |buffer| && Decode(buffer[1..size]) == Some((id, n)) && 1 + n <= size
  }

  /** Stream `id` of `p` lives in slot `i` or, as free slots have id zero, a stream of `p` has ended there. */
  predicate Answers(t: Table, i: nat, id: nat, p: Conn)
    requires Shaped(t)
  {
    Owns(t, i, id, p) || (id == 0 && Ended(t, i, p))
  }

  /** A reset can be read back: it names the stream id that was read from the packet it answers. */
  lemma ResetNamesItsStream(id: nat, reset: bytes)
    requires id < U62
    ensures Decode(ResetFor(id, reset)[1..]) == Some((id, |Encode(id)|))
  {
    hide Decode;
    hide Encode;
    RoundTrip(id, reset);
    assert ResetFor(id, reset)[1..] == Encode(id) + reset;
  }

  /** What becomes of a use that follows a run. */
  function Fate(f: Flags, reset: bytes, uses: seq<Use>, use: Use): Outcome
    requires AllInMemory(uses) && InMemory(use)
  {
    Step(Run(f, reset, uses), f, reset, use).1
  }

  lemma FoundIff(t: Table, id: nat, p: Conn)
    requires Inv(t)
    ensures forall i: nat :: i < MAX_STREAMS ==> (Matches(t, i, id, p) <==> Answers(t, i, id, p))
  {
  }

  lemma FateOfNamed(f: Flags, reset: bytes, uses: seq<Use>, use: Use, id: nat, n: nat)
    requires AllInMemory(uses) && InMemory(use) && use.Arrives? && NamesStream(use.buffer, use.size, id, n)
    ensures id < U62
    ensures Fate(f, reset, uses, use)
         == Routed(Run(f, reset, uses), f, reset, use.p, id, use.buffer[1 + n], use.ready, use.memory).1
  {
    hide Run;
    hide Routed;
    hide Decode;
    DecodeBound(use.buffer[1..use.size]);
  }

  /** A packet goes nowhere exactly when it has less than four bytes or no stream id can be read from it. */
  lemma MalformedIff(f: Flags, reset: bytes, uses: seq<Use>, use: Use)
    requires AllInMemory(uses) && InMemory(use) && use.Arrives?
    ensures Fate(f, reset, uses, use) == Malformed <==> !exists id, n :: NamesStream(use.buffer, use.size, id, n)
  {
    hide Run;
    hide Routed;
    hide Decode;
    if 4 <= use.size {
      DecodeBound(use.buffer[1..use.size]);
      if Decode(use.buffer[1..use.size]).Some? {
        var id, n := Decode(use.buffer[1..use.size]).value.0, Decode(use.buffer[1..use.size]).value.1;
        assert NamesStream(use.buffer, use.size, id, n);
      }
    }
  }

  /**
   * In every run a packet goes to slot `i` exactly when it is the first that answers
   * for its connection and stream id; and when the stream lives in slot `i` and its
   * lookup is not misled, the packet goes there.
   */
  lemma HandledIff(f: Flags, reset: bytes, uses: seq<Use>, use: Use, id: nat, n: nat, i: nat)
    requires AllInMemory(uses) && InMemory(use) && use.Arrives? && NamesStream(use.buffer, use.size, id, n)
    ensures var t, o := Run(f, reset, uses), Fate(f, reset, uses, use);
            && (o == Handled(i) <==>
                  && Answers(t, i, id, use.p)
                  && forall j: nat :: j < i ==> !Answers(t, j, id, use.p))
            && (Owns(t, i, id, use.p) && !Misleading(t, id, use.p) ==> o == Handled(i))
  {
    hide Run;
    hide Fate;
    hide NamesStream;
    hide FindFrom;
    hide AcceptSlot;
    var t := Run(f, reset, uses);
    RunKeepsInv(f, reset, uses);
    FateOfNamed(f, reset, uses, use, id, n);
    FoundIff(t, id, use.p);
    FindIff(f, reset, uses, id, use.p);
    if Owns(t, i, id, use.p) && !Misleading(t, id, use.p) {
      OwnerIsUnique(f, reset, uses, i, FindFrom(t, id, use.p, 0).value, id, use.p);
    }
  }

  /** Nothing answers the packet, it is a SYN with an even id, and slot `i` is the first free one. */
  predicate Opens(t: Table, f: Flags, use: Use, id: nat, flags: byte, i: nat)
    requires Shaped(t) && use.Arrives?
  {
    && (forall j: nat :: j < MAX_STREAMS ==> !Answers(t, j, id, use.p))
    && flags == f.syn && id % 2 == 0 && use.ready
    && i < MAX_STREAMS && !t.streams[i].active && forall j :: 0 <= j < i ==> t.streams[j].active
  }

  /** In every run a packet opens a stream in slot `i` exactly when it is a SYN that can open it there. */
  lemma AcceptedIff(f: Flags, reset: bytes, uses: seq<Use>, use: Use, id: nat, n: nat, i: nat)
    requires AllInMemory(uses) && InMemory(use) && use.Arrives? && NamesStream(use.buffer, use.size, id, n)
    ensures Fate(f, reset, uses, use) == Accepted(i) <==>
            Opens(Run(f, reset, uses), f, use, id, use.buffer[1 + n], i)
  {
    hide Run;
    hide Fate;
    hide NamesStream;
    hide FindFrom;
    hide FreeFrom;
    hide Answers;
    RunKeepsInv(f, reset, uses);
    FateOfNamed(f, reset, uses, use, id, n);
    FoundIff(Run(f, reset, uses), id, use.p);
  }

  ghost predicate OpensSome(t: Table, f: Flags, use: Use, id: nat, flags: byte)
    requires Shaped(t) && use.Arrives?
  {
    exists i: nat :: Opens(t, f, use, id, flags, i)
  }

  /**
   * In every run a reset is sent exactly for a packet that nothing answers, that
   * opens no stream and is no reset itself, when no other reset is on its way and
   * there is memory; it names the stream of the packet.
   */
  lemma ResetIff(f: Flags, reset: bytes, uses: seq<Use>, use: Use, id: nat, n: nat)
    requires AllInMemory(uses) && InMemory(use) && use.Arrives? && NamesStream(use.buffer, use.size, id, n)
    ensures var t, o := Run(f, reset, uses), Fate(f, reset, uses, use);
            && (o.ResetSent? <==>
                  && (forall j: nat :: j < MAX_STREAMS ==> !Answers(t, j, id, use.p))
                  && !OpensSome(t, f, use, id, use.buffer[1 + n])
                  && !f.isRst(use.buffer[1 + n]) && !t.rstBusy && use.memory)
            && (o.ResetSent? ==>
                  && o.packet != [] && o.packet[0] == 5 && o.packet[1..] == Encode(id) + reset
                  && Decode(o.packet[1..]) == Some((id, |Encode(id)|)))
  {
    hide Run;
    hide Fate;
    hide FindFrom;
    hide FreeFrom;
    hide Answers;
    hide Decode;
    hide Encode;
    var t := Run(f, reset, uses);
    RunKeepsInv(f, reset, uses);
    FateOfNamed(f, reset, uses, use, id, n);
    FoundIff(t, id, use.p);
    var flags := use.buffer[1 + n];
    forall i: nat ensures Opens(t, f, use, id, flags, i) <==> Fate(f, reset, uses, use) == Accepted(i) {
      AcceptedIff(f, reset, uses, use, id, n, i);
    }
    ResetNamesItsStream(id, reset);
    assert ResetFor(id, reset)[1..] == Encode(id) + reset;
  }

  /** Use `k` sent a reset, and no reset has left since. */
  predicate ResetSince(f: Flags, reset: bytes, uses: seq<Use>, k: nat)
    requires AllInMemory(uses)
  {
    && k < |uses| && Fate(f, reset, uses[..k], uses[k]).ResetSent?
    && forall j :: k < j < |uses| ==> uses[j] != ResetLeaves
  }

  lemma BusyStep(t: Table, f: Flags, reset: bytes, use: Use)
    requires Shaped(t) && InMemory(use)
    ensures var r := Step(t, f, reset, use);
            r.0.rstBusy <==> r.1.ResetSent? || (t.rstBusy && use != ResetLeaves)
  {
    hide FindFrom;
    hide AcceptSlot;
    hide IdOf;
  }

  /** A reset is on its way exactly when one was sent and none has left since. */
  lemma {:induction false} ResetBusyIff(f: Flags, reset: bytes, uses: seq<Use>)
    requires AllInMemory(uses)
    ensures Run(f, reset, uses).rstBusy <==> exists k: nat :: ResetSince(f, reset, uses, k)
  {
    hide Step;
    if uses != [] {
      var n := |uses| - 1;
      var before := uses[..n];
      ResetBusyIff(f, reset, before);
      BusyStep(Run(f, reset, before), f, reset, uses[n]);
      forall k: nat | k < n
        ensures ResetSince(f, reset, uses, k) <==> ResetSince(f, reset, before, k) && uses[n] != ResetLeaves
      {
        assert before[..k] == uses[..k];
      }
      assert ResetSince(f, reset, uses, n) <==> Fate(f, reset, before, uses[n]).ResetSent?;
    }
  }

  // ----- Where the flags are read --------------------------------------------------------------------------

  /** Two memories that hold the same packet. */
  predicate SamePacket(a: bytes, b: bytes, size: nat) {
    size < |a| && size < |b| && a[..size] == b[..size]
  }

  /** The packet alone decides what happens to it in table `t`. */
  ghost predicate DecidedByPacket(t: Table, f: Flags, reset: bytes, p: Conn, buffer: bytes, size: nat, ready: bool,
                                  memory: bool)
    requires Shaped(t) && size < |buffer|
  {
    forall other :: SamePacket(buffer, other, size) ==>
      Step(t, f, reset, Arrives(p, buffer, size, ready, memory)).1
      == Step(t, f, reset, Arrives(p, other, size, ready, memory)).1
  }

  lemma SameId(a: bytes, b: bytes, size: nat)
    requires SamePacket(a, b, size)
    ensures IdOf(a, size) == IdOf(b, size)
    ensures forall i :: 0 <= i < size ==> a[i] == b[i]
  {
    forall i | 0 <= i < size ensures a[i] == b[i] {
      assert a[..size][i] == b[..size][i];
    }
    if size >= 4 { assert a[1..size] == b[1..size]; }
  }

  /**
   * The flags stand behind the stream id, and the code does not test that the
   * packet goes on there. In every run a packet alone decides what happens to it
   * exactly when it goes on behind its stream id or the lookup finds its stream;
   * otherwise the byte that follows it in memory decides. `rst` and `other` are flag
   * bytes with and without the reset bit.
   */
  lemma FlagsIff(f: Flags, reset: bytes, uses: seq<Use>, p: Conn, buffer: bytes, size: nat, ready: bool, memory: bool,
                 rst: byte, other: byte)
    requires AllInMemory(uses) && size < |buffer| && IdOf(buffer, size).Some?
    requires f.isRst(rst) && !f.isRst(other) && rst != f.syn
    ensures DecidedByPacket(Run(f, reset, uses), f, reset, p, buffer, size, ready, memory) <==>
              || 1 + IdOf(buffer, size).value.1 < size
              || FindFrom(Run(f, reset, uses), IdOf(buffer, size).value.0, p, 0).Some?
  {
    hide Run;
    FlagsDecide(Run(f, reset, uses), f, reset, p, buffer, size, ready, memory, rst, other);
  }

  lemma FlagsDecide(t: Table, f: Flags, reset: bytes, p: Conn, buffer: bytes, size: nat, ready: bool, memory: bool,
                    rst: byte, other: byte)
    requires Shaped(t) && size < |buffer| && IdOf(buffer, size).Some?
    requires f.isRst(rst) && !f.isRst(other) && rst != f.syn
    ensures DecidedByPacket(t, f, reset, p, buffer, size, ready, memory) <==>
              1 + IdOf(buffer, size).value.1 < size || FindFrom(t, IdOf(buffer, size).value.0, p, 0).Some?
  {
    hide IdOf;
    hide FindFrom;
    hide AcceptSlot;
    var id := IdOf(buffer, size).value;
    if 1 + id.1 < size || FindFrom(t, id.0, p, 0).Some? {
      forall more | SamePacket(buffer, more, size)
        ensures Step(t, f, reset, Arrives(p, buffer, size, ready, memory)).1
             == Step(t, f, reset, Arrives(p, more, size, ready, memory)).1
      {
        SameId(buffer, more, size);
      }
    } else {
      var a, b := buffer[size := rst], buffer[size := other];
      assert a[..size] == buffer[..size] && b[..size] == buffer[..size];
      SameId(buffer, a, size);
      SameId(buffer, b, size);
      assert Step(t, f, reset, Arrives(p, a, size, ready, memory)).1 == Dropped;
      assert Step(t, f, reset, Arrives(p, b, size, ready, memory)).1 != Dropped;
    }
  }

  /** Five bytes with a stream id of four: what follows the packet in memory decides whether it is answered. */
  lemma PacketEndsWithItsId(f: Flags, p: Conn, ready: bool, memory: bool, rst: byte, other: byte)
    requires f.isRst(rst) && !f.isRst(other) && rst != f.syn
    ensures var packet := [AT_STREAM, 0x80, 0, 0, 2, 9];
            IdOf(packet, 5) == Some((2, 4)) && !DecidedByPacket(EMPTY, f, [], p, packet, 5, ready, memory)
  {
    hide IdOf;
    hide FindFrom;
    hide DecidedByPacket;
    var packet := [AT_STREAM, 0x80, 0, 0, 2, 9];
    FiveBytes();
    FlagsDecide(EMPTY, f, [], p, packet, 5, ready, memory, rst, other);
  }

  lemma FiveBytes()
    ensures IdOf([AT_STREAM, 0x80, 0, 0, 2, 9], 5) == Some((2, 4))
  {
    var s := [AT_STREAM, 0x80, 0, 0, 2, 9][1..5];
    assert s == [0x80, 0, 0, 2] && [s[0] % 64] + s[1..4] == [0, 0, 0, 2];
    Digits4(0, 0, 0, 2);
  }

  // ----- The code ---------------------------------------------------------------------------------------------

  class StreamTable {
    const streams: array<Stream>
    const conns: array<Option<Conn>>
    var rstBusy: bool
    const flags: Flags
    const reset: bytes

    ghost predicate Valid()
      reads this, streams, conns
    {
      streams.Length == conns.Length == MAX_STREAMS
    }

    ghost function View(): (t: Table)
      requires Valid()
      reads this, streams, conns
      ensures Shaped(t)
    {
      Table(streams[..], conns[..], rstBusy)
    }

    constructor (flags: Flags, reset: bytes)
      ensures Valid() && fresh(streams) && fresh(conns) && View() == EMPTY && this.flags == flags && this.reset == reset
    {
      this.flags, this.reset := flags, reset;
      streams := new Stream[MAX_STREAMS](_ => FREE);
      conns := new Option<Conn>[MAX_STREAMS](_ => None);
      rstBusy := false;
      new;
      assert streams[..] == EMPTY.streams && conns[..] == EMPTY.conns;
    }

    method FindStream(id: nat, p: Conn) returns (found: Option<nat>)
      requires Valid()
      ensures found == FindFrom(View(), id, p, 0)
    {
      for i := 0 to MAX_STREAMS
        invariant FindFrom(View(), id, p, 0) == FindFrom(View(), id, p, i)
      {
        if streams[i].streamId == id && conns[i] == Some(p) {
          return Some(i);
        }
      }
      return None;
    }

    /** Only even ids are accepted, in the first free slot. `ready` tells whether the stream's events could be made. */
    method AcceptStream(p: Conn, id: nat, ready: bool) returns (slot: Option<nat>)
      requires Valid()
      modifies streams, conns
      ensures Valid() && slot == AcceptSlot(old(View()), id, ready)
      ensures View() == if slot.Some? then WithStream(old(View()), slot.value, id, p) else old(View())
    {
      if id % 2 == 1 { return None; }
      for i := 0 to MAX_STREAMS
        invariant FreeFrom(View(), 0) == FreeFrom(View(), i) && View() == old(View())
      {
        if !streams[i].active {
          if !ready { return None; }
          streams[i] := Stream(true, id);
          conns[i] := Some(p);
          return Some(i);
        }
      }
      return None;
    }

    method DestroyStream(i: nat)
      requires Valid() && i < MAX_STREAMS
      modifies streams
      ensures Valid() && View() == Destroyed(old(View()), i)
    {
      if !streams[i].active { return; }
      streams[i] := FREE;
    }

    method RemoveConnection(p: Conn)
      requires Valid()
      modifies conns
      ensures Valid() && View() == Removed(old(View()), p)
    {
      for i := 0 to MAX_STREAMS
        invariant forall j :: 0 <= j < i ==> conns[j] == if old(conns[j]) == Some(p) then None else old(conns[j])
        invariant forall j :: i <= j < MAX_STREAMS ==> conns[j] == old(conns[j])
      {
        if conns[i] == Some(p) {
          conns[i] := None;
        }
      }
      assert conns[..] == Removed(old(View()), p).conns;
    }

    /** nc_stream_manager_handle_packet on the first `size` bytes of the memory at `buffer`. */
    method HandlePacket(p: Conn, buffer: bytes, size: nat, ready: bool, memory: bool) returns (outcome: Outcome)
      requires Valid() && size < |buffer|
      modifies this, streams, conns
      ensures Valid()
      ensures (View(), outcome) == Step(old(View()), flags, reset, Arrives(p, buffer, size, ready, memory))
    {
      hide Routed;
      hide Decode;
      if size < 4 { return Malformed; }
      var ok, id, len := VarUintRead(buffer[1..size]);
      if !ok { return Malformed; }
      DecodeBound(buffer[1..size]);
      outcome := HandleStreamPacket(p, id, buffer[1 + len], ready, memory);
    }

    method HandleStreamPacket(p: Conn, id: nat, flagByte: byte, ready: bool, memory: bool) returns (outcome: Outcome)
      requires Valid() && id < U62
      modifies this, streams, conns
      ensures Valid()
      ensures (View(), outcome) == Routed(old(View()), flags, reset, p, id, flagByte, ready, memory)
    {
      hide FindFrom;
      hide FreeFrom;
      var found := FindStream(id, p);
      if found.Some? { return Handled(found.value); }
      if flagByte == flags.syn {
        found := AcceptStream(p, id, ready);
        if found.Some? { return Accepted(found.value); }
      }
      if !flags.isRst(flagByte) {
        outcome := SendRst(id, memory);
        return;
      }
      return Dropped;
    }

    /** One reset is sent at a time, and it names the stream id it answers. */
    method SendRst(id: nat, memory: bool) returns (outcome: Outcome)
      requires id < U62
      modifies this`rstBusy
      ensures rstBusy == (old(rstBusy) || memory)
      ensures outcome == if !old(rstBusy) && memory then ResetSent(ResetFor(id, reset)) else NotSent
    {
      if rstBusy { return NotSent; }
      if !memory { return NotSent; }
      rstBusy := true;
      var packet := new byte[1 + 8 + |reset|](_ => 0);
      packet[0] := AT_STREAM;
      var next := VarUintWriteForward(packet, 1, id);
      assert packet[..next] == [AT_STREAM] + Encode(id);
      outcome := ResetSent(packet[..next] + reset);
    }

    method RstSent()
      modifies this`rstBusy
      ensures !rstBusy
    {
      rstBusy := false;
    }

    method Apply(use: Use) returns (outcome: Outcome)
      requires Valid() && InMemory(use)
      modifies this, streams, conns
      ensures Valid() && (View(), outcome) == Step(old(View()), flags, reset, use)
    {
      hide Routed;
      hide IdOf;
      outcome := Dropped;
      match use
      case Arrives(p, buffer, size, ready, memory) => outcome := HandlePacket(p, buffer, size, ready, memory);
      case StreamEnds(slot) => if slot < MAX_STREAMS { DestroyStream(slot); }
      case ConnectionEnds(p) => RemoveConnection(p);
      case ResetLeaves => RstSent();
    }
  }

  /** The code follows every run of packets, ending streams and ending connections. */
  method Replay(flags: Flags, reset: bytes, uses: seq<Use>) returns (t: StreamTable, outcomes: seq<Outcome>)
    requires AllInMemory(uses)
    ensures fresh(t) && fresh(t.streams) && fresh(t.conns) && t.Valid() && t.flags == flags && t.reset == reset
    ensures t.View() == Run(flags, reset, uses) && outcomes == Outcomes(flags, reset, uses)
  {
    hide Step;
    if uses == [] {
      t := new StreamTable(flags, reset);
      return t, [];
    }
    var n := |uses| - 1;
    t, outcomes := Replay(flags, reset, uses[..n]);
    var outcome := t.Apply(uses[n]);
    outcomes := outcomes + [outcome];
  }

  // ----- Listener ports ---------------------------------------------------------------------------------

  const EPHEMERAL_BASE := 0x8000_0000
  const EPHEMERAL_TRIES := 10

  class ListenerPorts {
    var types: seq<nat>

    /** At most one listener per port, and none on port zero. */
    ghost predicate Valid()
      reads this
    {
      && (forall i, j :: 0 <= i < j < |types| ==> types[i] != types[j])
      && 0 !in types
    }

    constructor ()
      ensures Valid() && types == []
    {
      types := [];
    }

    method PortInUse(port: nat) returns (used: bool)
      ensures used <==> port in types
    {
      for i := 0 to |types|
        invariant port !in types[..i]
      {
        if types[i] == port { return true; }
      }
      return false;
    }

    /** The first of ten random ports that is free; `random` are the values drawn. */
    method EphemeralPort(random: seq<nat>) returns (port: Option<nat>)
      requires |random| == EPHEMERAL_TRIES
      ensures port.Some? ==> EPHEMERAL_BASE <= port.value < 2 * EPHEMERAL_BASE && port.value !in types
      ensures port.None? <==>
              forall i :: 0 <= i < EPHEMERAL_TRIES ==> EPHEMERAL_BASE + random[i] % EPHEMERAL_BASE in types
    {
      for i := 0 to EPHEMERAL_TRIES
        invariant forall k :: 0 <= k < i ==> EPHEMERAL_BASE + random[k] % EPHEMERAL_BASE in types
      {
        var candidate := EPHEMERAL_BASE + random[i] % EPHEMERAL_BASE;
        var used := PortInUse(candidate);
        if !used { return Some(candidate); }
      }
      return None;
    }

    /** Port zero asks for an ephemeral port. */
    method AddListener(port: nat, random: seq<nat>) returns (ok: bool)
      requires Valid() && |random| == EPHEMERAL_TRIES
      modifies this
      ensures Valid()
      ensures port != 0 ==> (ok <==> port !in old(types))
      ensures port != 0 && ok ==> types == old(types) + [port]
      ensures port == 0 && ok ==>
                && |types| == |old(types)| + 1 && types[..|old(types)|] == old(types)
                && types[|old(types)|] >= EPHEMERAL_BASE
      ensures !ok ==> types == old(types)
    {
      var chosen := port;
      if port == 0 {
        var free := EphemeralPort(random);
        if free.None? { return false; }
        chosen := free.value;
      }
      var used := PortInUse(chosen);
      if used { return false; }
      types := types + [chosen];
      return true;
    }

    method RemoveListener(i: nat)
      requires Valid() && i < |types|
      modifies this
      ensures Valid() && types == old(types[..i] + types[i + 1..])
      ensures old(types[i]) !in types
    {
      types := types[..i] + types[i + 1..];
    }

    /** A stream that is ready goes to the one listener on its port. */
    method ReadyForAccept(port: nat) returns (listener: Option<nat>)
      requires Valid()
      ensures listener.Some? <==> port in types
      ensures listener.Some? ==> listener.value < |types| && types[listener.value] == port
                                 && forall i :: 0 <= i < |types| && types[i] == port ==> i == listener.value
    {
      for i := 0 to |types|
        invariant port !in types[..i]
      {
        if types[i] == port { return Some(i); }
      }
      return None;
    }
  }

  // ----- The segment budget -------------------------------------------------------------------------------

  class SegmentBudget {
    var maxSegments: nat
    var allocatedSegments: nat
    ghost var live: set<nat>

    ghost predicate Valid()
      reads this
    {
      allocatedSegments == |live|
    }

    constructor ()
      ensures Valid() && live == {} && maxSegments == 1000000
    {
      maxSegments, allocatedSegments, live := 1000000, 0, {};
    }

    /** A segment is refused when the budget is used up or one of its two allocations fails. */
    method Alloc(header: bool, buffer: bool, ghost segment: nat) returns (ok: bool)
      requires Valid() && segment !in live
      modifies this`allocatedSegments, this`live
      ensures Valid()
      ensures ok <==> old(|live|) < maxSegments && header && buffer
      ensures live == if ok then old(live) + {segment} else old(live)
    {
      if allocatedSegments >= maxSegments { return false; }
      if !header { return false; }
      if !buffer { return false; }
      allocatedSegments := allocatedSegments + 1;
      live := live + {segment};
      return true;
    }

    /** Freeing no segment does nothing. */
    method Free(present: bool, ghost segment: nat)
      requires Valid() && (present ==> segment in live)
      modifies this`allocatedSegments, this`live
      ensures Valid() && live == if present then old(live) - {segment} else old(live)
    {
      if !present { return; }
      assert live == (live - {segment}) + {segment};
      allocatedSegments := allocatedSegments - 1;
      live := live - {segment};
    }
  }
}
