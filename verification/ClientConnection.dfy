/**
 * The channel of a client connection (nc_client_connection.c): two remembered
 * channels and a sequence number stand for the whole history of datagrams.
 */
module ClientConnection {
  import opened Bytes

  type Endpoint = nat   // socket and remote address

  datatype Channel = Channel(ep: Endpoint, id: byte)

  /** A DTLS record as the DTLS module hands it over: its sequence number and application type. */
  datatype Record = Record(sequence: nat, applicationType: byte)

  /** What arrives: the source and channel of a datagram, or a record from the datagram before it. */
  datatype Arrival =
    | Datagram(ep: Endpoint, id: byte)
    | Data(sequence: nat, channelId: byte, keepAlive: bool)

  const AT_KEEP_ALIVE: byte := 0x04
  const PREFIX_RENDEZVOUS: byte := 241
  const CT_RENDEZVOUS_CLIENT_REQUEST: byte := 0x01
  const DEFAULT_CHANNEL_ID: byte := 0xff

  // ----- What the history says ---------------------------------------------------------------------

  /** The highest sequence number of a record that is no keep alive. */
  function TopSequence(h: seq<Arrival>): nat {
    if h == [] then 0
    else
      var top := TopSequence(h[..|h| - 1]);
      match h[|h| - 1]
      case Data(sequence, _, false) => if sequence > top then sequence else top
      case _ => top
  }

  /** The channel that record came on, or else the channel of the first datagram. */
  function TopChannel(h: seq<Arrival>, initial: byte): byte {
    if h == [] then initial
    else
      match h[|h| - 1]
      case Data(sequence, id, false) =>
        if sequence > TopSequence(h[..|h| - 1]) then id else TopChannel(h[..|h| - 1], initial)
      case _ => TopChannel(h[..|h| - 1], initial)
  }

  /** Where the latest datagram on a channel came from. */
  function Source(h: seq<Arrival>, id: byte): Option<Endpoint> {
    if h == [] then None
    else
      match h[|h| - 1]
      case Datagram(ep, on) => if on == id then Some(ep) else Source(h[..|h| - 1], id)
      case Data(_, _, _) => Source(h[..|h| - 1], id)
  }

  /** The channel of the latest datagram. */
  function Latest(h: seq<Arrival>, initial: byte): byte {
    if h == [] then initial
    else if h[|h| - 1].Datagram? then h[|h| - 1].id
    else Latest(h[..|h| - 1], initial)
  }

  predicate Payload(a: Arrival) {
    a.Data? && !a.keepAlive
  }

  lemma {:induction false} TopSequenceBounds(h: seq<Arrival>, i: nat)
    requires i < |h| && Payload(h[i])
    ensures h[i].sequence <= TopSequence(h)
  {
    if i < |h| - 1 { TopSequenceBounds(h[..|h| - 1], i); }
  }

  lemma {:induction false} TopSequenceBelow(h: seq<Arrival>, limit: nat)
    requires forall i :: 0 <= i < |h| && Payload(h[i]) ==> h[i].sequence <= limit
    ensures TopSequence(h) <= limit
  {
    if h != [] { TopSequenceBelow(h[..|h| - 1], limit); }
  }

  /** The top channel is that of the first record with the highest sequence number. */
  lemma {:induction false} TopChannelIsHighest(h: seq<Arrival>, initial: byte, i: nat)
    requires i < |h| && Payload(h[i]) && h[i].sequence > 0
    requires forall j :: 0 <= j < i && Payload(h[j]) ==> h[j].sequence < h[i].sequence
    requires forall j :: i < j < |h| && Payload(h[j]) ==> h[j].sequence <= h[i].sequence
    ensures TopChannel(h, initial) == h[i].channelId && TopSequence(h) == h[i].sequence
  {
    var before := h[..|h| - 1];
    if i == |h| - 1 {
      TopSequenceBelow(before, h[i].sequence - 1);
    } else {
      TopChannelIsHighest(before, initial, i);
    }
  }

  lemma {:induction false} TopChannelWithoutData(h: seq<Arrival>, initial: byte)
    requires forall j :: 0 <= j < |h| && Payload(h[j]) ==> h[j].sequence == 0
    ensures TopChannel(h, initial) == initial && TopSequence(h) == 0
  {
    if h != [] { TopChannelWithoutData(h[..|h| - 1], initial); }
  }

  lemma {:induction false} SourceIsLatest(h: seq<Arrival>, i: nat)
    requires i < |h| && h[i].Datagram?
    requires forall j :: i < j < |h| && h[j].Datagram? ==> h[j].id != h[i].id
    ensures Source(h, h[i].id) == Some(h[i].ep)
  {
    if i < |h| - 1 { SourceIsLatest(h[..|h| - 1], i); }
  }

  lemma Snoc(h: seq<Arrival>, a: Arrival, initial: byte, id: byte)
    ensures TopSequence(h + [a]) == if Payload(a) && a.sequence > TopSequence(h) then a.sequence else TopSequence(h)
    ensures TopChannel(h + [a], initial)
         == if Payload(a) && a.sequence > TopSequence(h) then a.channelId else TopChannel(h, initial)
    ensures Source(h + [a], id) == if a.Datagram? && a.id == id then Some(a.ep) else Source(h, id)
    ensures Latest(h + [a], initial) == if a.Datagram? then a.id else Latest(h, initial)
  {
    assert (h + [a])[..|h|] == h;
  }

  // ----- The code --------------------------------------------------------------------------------------

  const HEADER := 16

  /**
   * A datagram starts with the 16 bytes of its connection id, the last of which
   * is the channel. The code takes them off the length without a test, so what it
   * does with a shorter datagram is undefined.
   */
  predicate Whole(buffer: bytes) {
    |buffer| >= HEADER
  }

  predicate IsRendezvous(buffer: bytes) {
    |buffer| >= 17 && buffer[0] == PREFIX_RENDEZVOUS && buffer[16] == CT_RENDEZVOUS_CLIENT_REQUEST
  }

  /** A datagram and the records its DTLS payload is decrypted to, in history form. */
  function Arrivals(ep: Endpoint, id: byte, records: seq<Record>): seq<Arrival> {
    [Datagram(ep, id)] + seq(|records|, i requires 0 <= i < |records| =>
      Data(records[i].sequence, id, records[i].applicationType == AT_KEEP_ALIVE))
  }

  lemma ArrivalsSplit(ep: Endpoint, id: byte, records: seq<Record>)
    ensures Arrivals(0, id, records) != []
    ensures Arrivals(ep, id, records) == [Datagram(ep, id)] + Arrivals(0, id, records)[1..]
  {
  }

  lemma OneDatagram(ep: Endpoint, id: byte)
    ensures var h := [Datagram(ep, id)];
            TopSequence(h) == 0 && TopChannel(h, id) == id && Source(h, id) == Some(ep) && Latest(h, id) == id
  {
    Snoc([], Datagram(ep, id), id, id);
    assert [] + [Datagram(ep, id)] == [Datagram(ep, id)];
  }

  class Connection {
    var currentChannel: Channel
    var alternativeChannel: Channel
    var currentMaxSequence: nat
    const initial: byte
    ghost var history: seq<Arrival>

    /**
     * The current channel is the one of the highest-sequence record, at the
     * source of its latest datagram; the other one, if a datagram came last on a
     * different channel, is that one.
     */
    ghost predicate Valid()
      reads this
    {
      && currentMaxSequence == TopSequence(history)
      && currentChannel.id == TopChannel(history, initial)
      && Source(history, currentChannel.id) == Some(currentChannel.ep)
      && var id := Latest(history, initial);
         id == currentChannel.id
         || (alternativeChannel.id == id && Source(history, id) == Some(alternativeChannel.ep))
    }

    constructor (ep: Endpoint, id: byte)
      ensures Valid() && initial == id && history == [Datagram(ep, id)] && Latest(history, initial) == id
    {
      initial := id;
      currentChannel := Channel(ep, id);
      alternativeChannel := Channel(ep, id);
      currentMaxSequence := 0;
      history := [Datagram(ep, id)];
      new;
      hide TopSequence;
      hide TopChannel;
      hide Source;
      hide Latest;
      OneDatagram(ep, id);
    }

    /** Rendezvous requests do not count; every other datagram does. */
    method HandlePacket(ep: Endpoint, buffer: bytes, records: seq<Record>) returns (defined: bool)
      requires Valid()
      modifies this
      ensures Valid() && (defined <==> Whole(buffer))
      ensures history == if !defined || IsRendezvous(buffer) then old(history)
                         else old(history) + Arrivals(ep, buffer[15], records)
    {
      if |buffer| < HEADER { return false; }
      hide TopSequence;
      hide TopChannel;
      hide Source;
      hide Latest;
      hide Arrivals;
      if |buffer| >= 17 && buffer[0] == PREFIX_RENDEZVOUS && buffer[16] == CT_RENDEZVOUS_CLIENT_REQUEST {
        return true;
      }
      var channelId := buffer[15];
      ghost var arrival := Datagram(ep, channelId);
      Snoc(history, arrival, initial, currentChannel.id);
      Snoc(history, arrival, initial, channelId);
      if channelId != currentChannel.id {
        alternativeChannel := Channel(ep, channelId);
      } else {
        currentChannel := currentChannel.(ep := ep);
      }
      history := history + [arrival];
      HandleRecords(channelId, records);
      ArrivalsSplit(ep, channelId, records);
      ghost var rest := Arrivals(0, channelId, records)[1..];
      assert old(history) + [arrival] + rest == old(history) + ([arrival] + rest);
      return true;
    }

    /** The DTLS module delivers the records of a datagram before the next one is handled. */
    method HandleRecords(channelId: byte, records: seq<Record>)
      requires Valid() && Latest(history, initial) == channelId
      modifies this
      ensures Valid() && Latest(history, initial) == channelId
      ensures Arrivals(0, channelId, records) != [] && history == old(history) + Arrivals(0, channelId, records)[1..]
    {
      hide TopSequence;
      hide TopChannel;
      hide Source;
      hide Latest;
      for i := 0 to |records|
        invariant Valid() && Latest(history, initial) == channelId
        invariant history == old(history) + Arrivals(0, channelId, records)[1..i + 1]
      {
        HandleData(channelId, records[i].sequence, records[i].applicationType);
      }
    }

    method HandleData(channelId: byte, sequence: nat, applicationType: byte)
      requires Valid() && Latest(history, initial) == channelId
      modifies this
      ensures Valid() && Latest(history, initial) == channelId
      ensures history == old(history) + [Data(sequence, channelId, applicationType == AT_KEEP_ALIVE)]
    {
      ghost var arrival := Data(sequence, channelId, applicationType == AT_KEEP_ALIVE);
      Snoc(history, arrival, initial, currentChannel.id);
      Snoc(history, arrival, initial, channelId);
      history := history + [arrival];
      if applicationType != AT_KEEP_ALIVE {
        if sequence > currentMaxSequence {
          currentMaxSequence := sequence;
          if currentChannel.id != channelId && alternativeChannel.id == channelId {
            currentChannel := alternativeChannel;
          }
        }
      }
    }

    /** Where a packet for `channel` goes; an answer on the channel of the latest datagram goes to its sender. */
    method SendTarget(channel: byte) returns (target: Option<Channel>)
      requires Valid()
      ensures channel == currentChannel.id || channel == 255 ==> target == Some(currentChannel)
      ensures channel == Latest(history, initial) != 255 ==>
                target.Some? && target.value.id == channel && Source(history, channel) == Some(target.value.ep)
      ensures target.None? <==> channel !in {currentChannel.id, alternativeChannel.id, 255}
      ensures target.Some? ==>
                target.value == currentChannel || (target.value == alternativeChannel && target.value.id == channel)
    {
      if channel == currentChannel.id || channel == DEFAULT_CHANNEL_ID {
        return Some(currentChannel);
      } else if channel == alternativeChannel.id {
        return Some(alternativeChannel);
      }
      return None;
    }
  }

  // ----- Runs ------------------------------------------------------------------------------------------

  /** A datagram for a connection, with the records DTLS finds in it. */
  datatype Packet = Packet(ep: Endpoint, buffer: bytes, records: seq<Record>)

  predicate AllWhole(first: Packet, rest: seq<Packet>) {
    Whole(first.buffer) && forall i :: 0 <= i < |rest| ==> Whole(rest[i].buffer)
  }

  /** The history of a connection that was opened with `first`. */
  function HistoryOf(first: Packet, rest: seq<Packet>): seq<Arrival>
    requires AllWhole(first, rest)
  {
    if rest == [] then Arrivals(first.ep, first.buffer[15], first.records)
    else
      var before, p := HistoryOf(first, rest[..|rest| - 1]), rest[|rest| - 1];
      if IsRendezvous(p.buffer) then before else before + Arrivals(p.ep, p.buffer[15], p.records)
  }

  lemma HistoryStep(first: Packet, rest: seq<Packet>, i: nat)
    requires i < |rest| && AllWhole(first, rest[..i]) && Whole(rest[i].buffer)
    ensures AllWhole(first, rest[..i + 1])
    ensures HistoryOf(first, rest[..i + 1])
         == HistoryOf(first, rest[..i])
            + if IsRendezvous(rest[i].buffer) then [] else Arrivals(rest[i].ep, rest[i].buffer[15], rest[i].records)
  {
    hide Arrivals;
    assert rest[..i + 1][..i] == rest[..i];
    assert forall j :: 0 <= j < i ==> rest[..i][j] == rest[j];
  }

  // ----- What the packets say ------------------------------------------------------------------------------

  function At(first: Packet, rest: seq<Packet>, k: nat): Packet
    requires k <= |rest|
  {
    if k == 0 then first else rest[k - 1]
  }

  /** The first packet opens the connection; a later one counts unless it is a rendezvous request of a client. */
  predicate Counts(first: Packet, rest: seq<Packet>, k: nat) {
    k == 0 ||
    (k <= |rest| && !(|rest[k - 1].buffer| > 16 && rest[k - 1].buffer[0] == 241 && rest[k - 1].buffer[16] == 1))
  }

  /** Record `r` of packet `k` carries data of the application, not a keep alive. */
  predicate IsData(first: Packet, rest: seq<Packet>, k: nat, r: nat) {
    && k <= |rest| && Counts(first, rest, k)
    && r < |At(first, rest, k).records| && At(first, rest, k).records[r].applicationType != 4
  }

  function SequenceAt(first: Packet, rest: seq<Packet>, k: nat, r: nat): nat
    requires IsData(first, rest, k, r)
  {
    At(first, rest, k).records[r].sequence
  }

  lemma RecordsSnoc(ep: Endpoint, id: byte, records: seq<Record>)
    requires records != []
    ensures var n := |records| - 1;
            Arrivals(ep, id, records)
            == Arrivals(ep, id, records[..n]) + [Data(records[n].sequence, id, records[n].applicationType == 4)]
  {
  }

  lemma {:induction false} SourceAfter(h: seq<Arrival>, ep: Endpoint, id: byte, records: seq<Record>, c: byte)
    ensures Source(h + Arrivals(ep, id, records), c) == if c == id then Some(ep) else Source(h, c)
    decreases |records|
  {
    hide Arrivals;
    hide Source;
    if records == [] {
      NoRecords(ep, id);
      Snoc(h, Datagram(ep, id), id, c);
    } else {
      var n := |records| - 1;
      var a, last := Arrivals(ep, id, records[..n]), Data(records[n].sequence, id, records[n].applicationType == 4);
      SourceAfter(h, ep, id, records[..n], c);
      RecordsSnoc(ep, id, records);
      Snoc(h + a, last, id, c);
      assert h + (a + [last]) == h + a + [last];
    }
  }

  lemma NoRecords(ep: Endpoint, id: byte)
    ensures Arrivals(ep, id, []) == [Datagram(ep, id)]
  {
  }

  predicate DataBelow(records: seq<Record>, limit: int) {
    forall r :: 0 <= r < |records| && records[r].applicationType != 4 ==> records[r].sequence <= limit
  }

  /** Records whose sequence numbers are not new leave the top as it is. */
  lemma {:induction false} TopStays(h: seq<Arrival>, ep: Endpoint, id: byte, records: seq<Record>, initial: byte)
    requires DataBelow(records, TopSequence(h))
    ensures var all := h + Arrivals(ep, id, records);
            TopSequence(all) == TopSequence(h) && TopChannel(all, initial) == TopChannel(h, initial)
    decreases |records|
  {
    hide Arrivals;
    hide TopSequence;
    hide TopChannel;
    if records == [] {
      NoRecords(ep, id);
      Snoc(h, Datagram(ep, id), initial, id);
    } else {
      var n := |records| - 1;
      var a, last := Arrivals(ep, id, records[..n]), Data(records[n].sequence, id, records[n].applicationType == 4);
      TopStays(h, ep, id, records[..n], initial);
      RecordsSnoc(ep, id, records);
      Snoc(h + a, last, initial, id);
      assert h + (a + [last]) == h + a + [last];
    }
  }

  lemma {:induction false} TopBounded(h: seq<Arrival>, ep: Endpoint, id: byte, records: seq<Record>, limit: nat)
    requires TopSequence(h) <= limit && DataBelow(records, limit)
    ensures TopSequence(h + Arrivals(ep, id, records)) <= limit
    decreases |records|
  {
    hide Arrivals;
    hide TopSequence;
    if records == [] {
      NoRecords(ep, id);
      Snoc(h, Datagram(ep, id), id, id);
    } else {
      var n := |records| - 1;
      var a, last := Arrivals(ep, id, records[..n]), Data(records[n].sequence, id, records[n].applicationType == 4);
      TopBounded(h, ep, id, records[..n], limit);
      RecordsSnoc(ep, id, records);
      Snoc(h + a, last, id, id);
      assert h + (a + [last]) == h + a + [last];
    }
  }

  /** A record with a new highest sequence number moves the top to its datagram. */
  lemma {:induction false} TopMoves(h: seq<Arrival>, ep: Endpoint, id: byte, records: seq<Record>, initial: byte,
                                    r: nat)
    requires r < |records| && records[r].applicationType != 4 && TopSequence(h) < records[r].sequence
    requires DataBelow(records[..r], records[r].sequence - 1) && DataBelow(records, records[r].sequence)
    ensures var all := h + Arrivals(ep, id, records);
            TopSequence(all) == records[r].sequence && TopChannel(all, initial) == id
    decreases |records|
  {
    hide Arrivals;
    hide TopSequence;
    hide TopChannel;
    var n := |records| - 1;
    var a, last := Arrivals(ep, id, records[..n]), Data(records[n].sequence, id, records[n].applicationType == 4);
    RecordsSnoc(ep, id, records);
    assert h + (a + [last]) == h + a + [last];
    Snoc(h + a, last, initial, id);
    if r == n {
      TopBounded(h, ep, id, records[..n], records[r].sequence - 1);
    } else {
      assert records[..n][..r] == records[..r];
      TopMoves(h, ep, id, records[..n], initial, r);
    }
  }

  lemma HistoryGrows(first: Packet, rest: seq<Packet>)
    requires AllWhole(first, rest) && rest != []
    ensures var n := |rest| - 1;
            && AllWhole(first, rest[..n])
            && HistoryOf(first, rest)
               == if Counts(first, rest, n + 1)
                  then HistoryOf(first, rest[..n]) + Arrivals(rest[n].ep, rest[n].buffer[15], rest[n].records)
                  else HistoryOf(first, rest[..n])
  {
    hide Arrivals;
  }

  lemma Opening(first: Packet)
    requires AllWhole(first, [])
    ensures HistoryOf(first, []) == [] + Arrivals(first.ep, first.buffer[15], first.records)
    ensures TopSequence([]) == 0
  {
  }

  /** Earlier packets look the same without the last one. */
  lemma SameEarlier(first: Packet, rest: seq<Packet>, k: nat)
    requires rest != [] && k < |rest|
    ensures var before := rest[..|rest| - 1];
            && At(first, rest, k) == At(first, before, k) && (Counts(first, rest, k) <==> Counts(first, before, k))
            && forall r: nat :: IsData(first, rest, k, r) <==> IsData(first, before, k, r)
  {
  }

  /** Answers on a channel go to where the latest packet on it came from. */
  lemma {:induction false} SourceIsLatestPacket(first: Packet, rest: seq<Packet>, k: nat)
    requires AllWhole(first, rest) && k <= |rest| && Counts(first, rest, k)
    requires forall j :: k < j <= |rest| && Counts(first, rest, j) ==>
               At(first, rest, j).buffer[15] != At(first, rest, k).buffer[15]
    ensures Source(HistoryOf(first, rest), At(first, rest, k).buffer[15]) == Some(At(first, rest, k).ep)
    decreases |rest|
  {
    hide Arrivals;
    hide Source;
    hide HistoryOf;
    var c := At(first, rest, k).buffer[15];
    if rest == [] {
      Opening(first);
      SourceAfter([], first.ep, first.buffer[15], first.records, c);
    } else {
      var n := |rest| - 1;
      HistoryGrows(first, rest);
      if Counts(first, rest, n + 1) {
        SourceAfter(HistoryOf(first, rest[..n]), rest[n].ep, rest[n].buffer[15], rest[n].records, c);
      }
      if k <= n {
        forall j: nat | j <= n
          ensures At(first, rest, j) == At(first, rest[..n], j)
          ensures Counts(first, rest, j) <==> Counts(first, rest[..n], j)
        {
          SameEarlier(first, rest, j);
        }
        SourceIsLatestPacket(first, rest[..n], k);
      }
    }
  }

  ghost predicate AllBelow(first: Packet, rest: seq<Packet>, limit: nat) {
    forall j: nat, q: nat :: IsData(first, rest, j, q) ==> SequenceAt(first, rest, j, q) <= limit
  }

  lemma AllBelowEarlier(first: Packet, rest: seq<Packet>, limit: nat)
    requires AllBelow(first, rest, limit) && rest != []
    ensures AllBelow(first, rest[..|rest| - 1], limit)
  {
    var before := rest[..|rest| - 1];
    forall j: nat, q: nat | IsData(first, before, j, q) ensures SequenceAt(first, before, j, q) <= limit {
      SameEarlier(first, rest, j);
      assert IsData(first, rest, j, q);
    }
  }

  lemma RecordsBelow(first: Packet, rest: seq<Packet>, k: nat, limit: nat)
    requires AllBelow(first, rest, limit) && k <= |rest| && Counts(first, rest, k)
    ensures DataBelow(At(first, rest, k).records, limit)
  {
    var records := At(first, rest, k).records;
    forall q | 0 <= q < |records| && records[q].applicationType != 4 ensures records[q].sequence <= limit {
      assert IsData(first, rest, k, q) && SequenceAt(first, rest, k, q) == records[q].sequence;
    }
  }

  lemma {:induction false} PacketsBelow(first: Packet, rest: seq<Packet>, limit: nat)
    requires AllWhole(first, rest) && AllBelow(first, rest, limit)
    ensures TopSequence(HistoryOf(first, rest)) <= limit
    decreases |rest|
  {
    hide Arrivals;
    hide TopSequence;
    hide HistoryOf;
    hide AllBelow;
    if rest == [] {
      Opening(first);
      RecordsBelow(first, rest, 0, limit);
      TopBounded([], first.ep, first.buffer[15], first.records, limit);
    } else {
      var n := |rest| - 1;
      HistoryGrows(first, rest);
      AllBelowEarlier(first, rest, limit);
      PacketsBelow(first, rest[..n], limit);
      if Counts(first, rest, n + 1) {
        RecordsBelow(first, rest, n + 1, limit);
        TopBounded(HistoryOf(first, rest[..n]), rest[n].ep, rest[n].buffer[15], rest[n].records, limit);
      }
    }
  }

  /** Record `r` of packet `k` is the first with the highest sequence number, which is not zero. */
  ghost predicate Highest(first: Packet, rest: seq<Packet>, k: nat, r: nat) {
    && IsData(first, rest, k, r) && SequenceAt(first, rest, k, r) > 0
    && forall j: nat, q: nat :: IsData(first, rest, j, q) ==>
         if j < k || (j == k && q < r) then SequenceAt(first, rest, j, q) < SequenceAt(first, rest, k, r)
         else SequenceAt(first, rest, j, q) <= SequenceAt(first, rest, k, r)
  }

  lemma HighestBounds(first: Packet, rest: seq<Packet>, k: nat, r: nat)
    requires Highest(first, rest, k, r)
    ensures var top, records := SequenceAt(first, rest, k, r), At(first, rest, k).records;
            && AllBelow(first, rest, top) && DataBelow(records[..r], top - 1) && DataBelow(records, top)
            && (k > 0 && k == |rest| ==> AllBelow(first, rest[..k - 1], top - 1))
            && (k < |rest| ==> Highest(first, rest[..|rest| - 1], k, r))
  {
    var top, records := SequenceAt(first, rest, k, r), At(first, rest, k).records;
    RecordsBelow(first, rest, k, top);
    forall q | 0 <= q < r && records[q].applicationType != 4 ensures records[q].sequence <= top - 1 {
      assert IsData(first, rest, k, q) && SequenceAt(first, rest, k, q) == records[q].sequence;
    }
    if rest != [] {
      var before := rest[..|rest| - 1];
      forall j: nat, q: nat | j < |rest|
        ensures IsData(first, rest, j, q) <==> IsData(first, before, j, q)
        ensures IsData(first, rest, j, q) ==> SequenceAt(first, rest, j, q) == SequenceAt(first, before, j, q)
      {
        SameEarlier(first, rest, j);
      }
    }
  }

  /**
   * After any packets the current channel is that of the packet with the record of
   * the highest sequence number among all that carry data of the application.
   */
  lemma {:induction false} ChannelIsHighestPacket(first: Packet, rest: seq<Packet>, k: nat, r: nat)
    requires AllWhole(first, rest) && Highest(first, rest, k, r)
    ensures TopChannel(HistoryOf(first, rest), first.buffer[15]) == At(first, rest, k).buffer[15]
    ensures TopSequence(HistoryOf(first, rest)) == SequenceAt(first, rest, k, r)
    decreases |rest|
  {
    hide Arrivals;
    hide TopSequence;
    hide TopChannel;
    hide HistoryOf;
    hide AllBelow;
    HighestBounds(first, rest, k, r);
    if rest == [] {
      Opening(first);
      TopMoves([], first.ep, first.buffer[15], first.records, first.buffer[15], r);
    } else {
      var n := |rest| - 1;
      HistoryGrows(first, rest);
      var before := HistoryOf(first, rest[..n]);
      if k == n + 1 {
        PacketsBelow(first, rest[..n], SequenceAt(first, rest, k, r) - 1);
        TopMoves(before, rest[n].ep, rest[n].buffer[15], rest[n].records, first.buffer[15], r);
      } else {
        ChannelIsHighestPacket(first, rest[..n], k, r);
        if Counts(first, rest, n + 1) {
          RecordsBelow(first, rest, n + 1, SequenceAt(first, rest, k, r));
          TopStays(before, rest[n].ep, rest[n].buffer[15], rest[n].records, first.buffer[15]);
        }
      }
    }
  }

  /** Without such a record it is the channel of the first packet. */
  lemma {:induction false} ChannelIsFirst(first: Packet, rest: seq<Packet>)
    requires AllWhole(first, rest) && AllBelow(first, rest, 0)
    ensures TopChannel(HistoryOf(first, rest), first.buffer[15]) == first.buffer[15]
    decreases |rest|
  {
    hide Arrivals;
    hide TopSequence;
    hide TopChannel;
    hide HistoryOf;
    hide AllBelow;
    var c := first.buffer[15];
    if rest == [] {
      Opening(first);
      RecordsBelow(first, rest, 0, 0);
      TopStays([], first.ep, c, first.records, c);
      NoChannelYet(c);
    } else {
      var n := |rest| - 1;
      HistoryGrows(first, rest);
      AllBelowEarlier(first, rest, 0);
      ChannelIsFirst(first, rest[..n]);
      PacketsBelow(first, rest[..n], 0);
      if Counts(first, rest, n + 1) {
        RecordsBelow(first, rest, n + 1, 0);
        TopStays(HistoryOf(first, rest[..n]), rest[n].ep, rest[n].buffer[15], rest[n].records, c);
      }
    }
  }

  lemma NoChannelYet(c: byte)
    ensures TopChannel([], c) == c
  {
  }

  // ----- Opening and replaying -----------------------------------------------------------------------------

  /** nc_client_connection_open: the first datagram of the connection and what DTLS makes of it. */
  method Open(first: Packet) returns (c: Option<Connection>)
    ensures c.Some? <==> Whole(first.buffer)
    ensures c.Some? ==> fresh(c.value) && c.value.Valid() && c.value.initial == first.buffer[15]
    ensures c.Some? ==> c.value.history == HistoryOf(first, [])
  {
    hide TopSequence;
    hide TopChannel;
    hide Source;
    hide Latest;
    hide Arrivals;
    hide Connection.Valid;
    if |first.buffer| < HEADER { return None; }
    var channelId := first.buffer[15];
    var x := new Connection(first.ep, channelId);
    x.HandleRecords(channelId, first.records);
    ArrivalsSplit(first.ep, channelId, first.records);
    return Some(x);
  }

  /**
   * After any packets the current channel is what the whole history says; this is
   * defined exactly when all of them are whole.
   */
  method Replay(first: Packet, rest: seq<Packet>) returns (c: Option<Connection>)
    ensures c.Some? <==> AllWhole(first, rest)
    ensures c.Some? ==>
              var h, x := HistoryOf(first, rest), c.value;
              && x.currentMaxSequence == TopSequence(h)
              && x.currentChannel.id == TopChannel(h, first.buffer[15])
              && Source(h, x.currentChannel.id) == Some(x.currentChannel.ep)
  {
    hide Arrivals;
    hide TopSequence;
    hide TopChannel;
    hide Source;
    hide HistoryOf;
    hide IsRendezvous;
    c := Open(first);
    if c.None? { return; }
    var x := c.value;
    for i := 0 to |rest|
      invariant c == Some(x) && fresh(x) && x.Valid() && AllWhole(first, rest[..i])
      invariant x.initial == first.buffer[15] && x.history == HistoryOf(first, rest[..i])
    {
      var defined := x.HandlePacket(rest[i].ep, rest[i].buffer, rest[i].records);
      if !defined { return None; }
      HistoryStep(first, rest, i);
    }
    assert rest[..|rest|] == rest;
  }
}
