/**
 * Keep alive as in nc_keep_alive.c: when a silent connection is probed, when it
 * is given up, and who may write the one send buffer.
 */
module KeepAlive {
  import opened Bytes

  const U32 := 0x1_0000_0000

  type uint32 = x: nat | x < U32

  datatype Action = DoNothing | SendKeepAlive | Timeout

  /** One firing of the keep alive timer: all packets counted so far and whether a packet is still being sent. */
  datatype Tick = Tick(recvCount: nat, sentCount: nat, sending: bool)

  datatype Counters = Counters(lastRecvCount: uint32, lastSentCount: uint32, lost: uint32)

  function Low32(a: nat): uint32 {
    a % U32
  }

  function Add32(a: uint32, b: uint32): uint32 {
    Low32(a + b)
  }

  // ----- What the code does on a tick -------------------------------------------------------

  function ShouldSend(c: Counters, n: uint32, maxRetries: uint32, recvCount: uint32, sentCount: uint32, sending: bool)
    : (Counters, Action)
  {
    if recvCount > c.lastRecvCount && sentCount > c.lastSentCount then
      (Counters(recvCount, sentCount, 0), DoNothing)
    else if c.lost > Add32(maxRetries, n) then (c, Timeout)
    else
      var lost := Add32(c.lost, 1);
      (c.(lost := lost), if !sending && lost > n then SendKeepAlive else DoNothing)
  }

  /** The code sees the low 32 bits of the packet counts. */
  function OnTick(c: Counters, n: uint32, maxRetries: uint32, t: Tick): (Counters, Action) {
    ShouldSend(c, n, maxRetries, Low32(t.recvCount), Low32(t.sentCount), t.sending)
  }

  function Run(n: uint32, maxRetries: uint32, ticks: seq<Tick>): Counters {
    if ticks == [] then Counters(0, 0, 0)
    else OnTick(Run(n, maxRetries, ticks[..|ticks| - 1]), n, maxRetries, ticks[|ticks| - 1]).0
  }

  /** What the last of `ticks` asks for. */
  function LastAction(n: uint32, maxRetries: uint32, ticks: seq<Tick>): Action
    requires ticks != []
  {
    OnTick(Run(n, maxRetries, ticks[..|ticks| - 1]), n, maxRetries, ticks[|ticks| - 1]).1
  }

  // ----- What it is meant to do ---------------------------------------------------------------

  /** Both directions have moved since the counts in `since`. */
  predicate Progress(since: (nat, nat), t: Tick) {
    t.recvCount > since.0 && t.sentCount > since.1
  }

  /** The packet counts at the latest tick that saw progress. */
  function Snapshot(ticks: seq<Tick>): (nat, nat) {
    if ticks == [] then (0, 0)
    else
      var since, t := Snapshot(ticks[..|ticks| - 1]), ticks[|ticks| - 1];
      if Progress(since, t) then (t.recvCount, t.sentCount) else since
  }

  /** How many ticks in a row, up to the last, saw no progress. */
  function Quiet(ticks: seq<Tick>): nat {
    if ticks == [] || Progress(Snapshot(ticks[..|ticks| - 1]), ticks[|ticks| - 1]) then 0
    else Quiet(ticks[..|ticks| - 1]) + 1
  }

  /** Silent ticks n+1 to n+maxRetries+1 ask for a probe, the next one gives up. */
  function Expected(quiet: nat, n: nat, maxRetries: nat, sending: bool): Action {
    if quiet >= n + maxRetries + 2 then Timeout
    else if quiet >= n + 1 && !sending then SendKeepAlive
    else DoNothing
  }

  predicate Within(ticks: seq<Tick>, limit: nat) {
    forall i :: 0 <= i < |ticks| ==> ticks[i].recvCount <= limit && ticks[i].sentCount <= limit
  }

  lemma NoWrap(a: nat)
    ensures a < U32 ==> Low32(a) == a
  {
  }

  lemma NoWrapTick(t: Tick, c: Counters, n: uint32, maxRetries: uint32)
    requires t.recvCount < U32 && t.sentCount < U32 && n + maxRetries + 1 < U32 && c.lost <= n + maxRetries + 1
    ensures Low32(t.recvCount) == t.recvCount && Low32(t.sentCount) == t.sentCount
    ensures Add32(maxRetries, n) == maxRetries + n && (c.lost <= n + maxRetries ==> Add32(c.lost, 1) == c.lost + 1)
  {
    hide Low32;
    NoWrap(t.recvCount);
    NoWrap(t.sentCount);
    NoWrap(maxRetries + n);
    NoWrap(c.lost + 1);
  }

  /** The counters record exactly the silence so far, up to the point of giving up. */
  lemma {:induction false} CountersRecordSilence(n: uint32, maxRetries: uint32, ticks: seq<Tick>)
    requires n + maxRetries + 1 < U32 && Within(ticks, U32 - 1)
    ensures var c := Run(n, maxRetries, ticks);
            && (c.lastRecvCount, c.lastSentCount) == Snapshot(ticks)
            && c.lost == if Quiet(ticks) <= n + maxRetries + 1 then Quiet(ticks) else n + maxRetries + 1
  {
    hide Add32;
    hide Low32;
    if ticks != [] {
      var before, t := ticks[..|ticks| - 1], ticks[|ticks| - 1];
      CountersRecordSilence(n, maxRetries, before);
      NoWrapTick(t, Run(n, maxRetries, before), n, maxRetries);
    }
  }

  lemma ActsOnTime(n: uint32, maxRetries: uint32, ticks: seq<Tick>)
    requires n + maxRetries + 1 < U32 && Within(ticks, U32 - 1) && ticks != []
    ensures LastAction(n, maxRetries, ticks)
         == Expected(Quiet(ticks), n, maxRetries, ticks[|ticks| - 1].sending)
  {
    hide Add32;
    hide Low32;
    hide Run;
    var before, t := ticks[..|ticks| - 1], ticks[|ticks| - 1];
    CountersRecordSilence(n, maxRetries, before);
    NoWrapTick(t, Run(n, maxRetries, before), n, maxRetries);
  }

  // ----- Settings and counts that overflow -------------------------------------------------------

  function Silence(k: nat): seq<Tick> {
    seq(k, _ => Tick(0, 0, false))
  }

  predicate OnTime(n: uint32, maxRetries: uint32, ticks: seq<Tick>)
    requires ticks != []
  {
    LastAction(n, maxRetries, ticks) == Timeout <==> Quiet(ticks) >= n + maxRetries + 2
  }

  lemma QuietSnoc(k: nat)
    requires Quiet(Silence(k)) == k && Snapshot(Silence(k)) == (0, 0)
    ensures Quiet(Silence(k + 1)) == k + 1 && Snapshot(Silence(k + 1)) == (0, 0)
  {
    assert Silence(k + 1)[..k] == Silence(k);
  }

  /** One more silent tick below the limit counts up, modulo 2^32. */
  lemma SilentTick(c: Counters, n: uint32, maxRetries: uint32, t: Tick)
    requires Low32(t.recvCount) <= c.lastRecvCount && c.lost <= Add32(maxRetries, n)
    ensures OnTick(c, n, maxRetries, t).0 == c.(lost := Low32(c.lost + 1))
    ensures OnTick(c, n, maxRetries, t).1 != Timeout
  {
    hide Low32;
  }

  lemma {:induction false} SilenceCounts(n: uint32, maxRetries: uint32, k: nat)
    requires k <= Add32(maxRetries, n) + 1
    ensures Quiet(Silence(k)) == k && Snapshot(Silence(k)) == (0, 0)
    ensures Run(n, maxRetries, Silence(k)) == Counters(0, 0, Low32(k))
  {
    hide Quiet;
    hide Snapshot;
    hide OnTick;
    hide Low32;
    hide Add32;
    NoWrap(0);
    NoWrap(k);
    if k == 0 {
      NoTicks();
    } else {
      SilenceCounts(n, maxRetries, k - 1);
      QuietSnoc(k - 1);
      assert Silence(k)[..k - 1] == Silence(k - 1);
      NoWrap(k - 1);
      SilentTick(Counters(0, 0, Low32(k - 1)), n, maxRetries, Tick(0, 0, false));
    }
  }

  lemma NoTicks()
    ensures Quiet([]) == 0 && Snapshot([]) == (0, 0) && Quiet(Silence(0)) == 0 && Snapshot(Silence(0)) == (0, 0)
  {
  }

  /** With 32-bit sums that wrap, a silent peer is given up too early, or at the last value never. */
  lemma OverflowMissesTimeout(n: uint32, maxRetries: uint32) returns (ticks: seq<Tick>)
    requires n + maxRetries + 1 >= U32
    ensures ticks != [] && Within(ticks, 0) && !OnTime(n, maxRetries, ticks)
  {
    hide Quiet;
    hide Snapshot;
    hide Run;
    var limit: nat := Add32(maxRetries, n);
    SilenceCounts(n, maxRetries, limit + 1);
    QuietSnoc(limit + 1);
    ticks := Silence(limit + 2);
    assert ticks[..limit + 1] == Silence(limit + 1);
  }

  /** A connection whose packet counts reach 2^32 and then stand still. */
  function Wrapping(k: nat): seq<Tick> {
    [Tick(U32 - 1, U32 - 1, false)] + seq(k, _ => Tick(U32, U32, false))
  }

  /** The tick at which the counts reach 2^32 sees progress, but to the code the counts have fallen back. */
  lemma {:induction false} WrappingCounts(n: uint32, maxRetries: uint32, k: nat)
    requires n + maxRetries + 1 < U32 && 0 < k <= n + maxRetries + 1
    ensures Quiet(Wrapping(k)) == k - 1 && Snapshot(Wrapping(k)) == (U32, U32)
    ensures Run(n, maxRetries, Wrapping(k)) == Counters(U32 - 1, U32 - 1, k)
  {
    hide Low32;
    hide Add32;
    var t := Tick(U32, U32, false);
    assert Wrapping(k)[..k] == Wrapping(k - 1);
    NoWrap(U32 - 1);
    NoWrap(0);
    Reaches();
    NoWrap(maxRetries + n);
    NoWrap(k);
    if k == 1 {
      FirstTick(n, maxRetries);
    } else {
      WrappingCounts(n, maxRetries, k - 1);
    }
    SilentTick(Counters(U32 - 1, U32 - 1, k - 1), n, maxRetries, t);
  }

  lemma Reaches()
    ensures Low32(U32) == 0 && forall a: uint32, b: uint32 :: Add32(a, b) == Low32(a + b)
  {
  }

  lemma FirstTick(n: uint32, maxRetries: uint32)
    ensures Quiet(Wrapping(0)) == 0 && Snapshot(Wrapping(0)) == (U32 - 1, U32 - 1)
    ensures Run(n, maxRetries, Wrapping(0)) == Counters(U32 - 1, U32 - 1, 0)
  {
    var t := Tick(U32 - 1, U32 - 1, false);
    assert Wrapping(0) == [t] && [t][..0] == [];
    NoWrap(U32 - 1);
  }

  /** Packet counts that reach 2^32 make the timeout come one tick early. */
  lemma CountOverflowMissesTimeout(n: uint32, maxRetries: uint32) returns (ticks: seq<Tick>)
    requires n + maxRetries + 1 < U32
    ensures ticks != [] && Within(ticks, U32) && !OnTime(n, maxRetries, ticks)
  {
    hide Run;
    hide Low32;
    var k := n + maxRetries + 1;
    WrappingCounts(n, maxRetries, k);
    NoWrap(maxRetries + n);
    Reaches();
    ticks := Wrapping(k + 1);
    assert ticks[..k + 1] == Wrapping(k);
  }

  /**
   * Giving up is on time for every history with packet counts up to `limit`
   * exactly when neither the settings nor the counts overflow 32 bits.
   */
  lemma OnTimeIff(n: uint32, maxRetries: uint32, limit: nat)
    ensures (forall ticks: seq<Tick> :: ticks != [] && Within(ticks, limit) ==> OnTime(n, maxRetries, ticks))
       <==> n + maxRetries + 1 < U32 && limit < U32
  {
    hide OnTime;
    if n + maxRetries + 1 >= U32 {
      var ticks := OverflowMissesTimeout(n, maxRetries);
      assert Within(ticks, limit);
    } else if limit >= U32 {
      var ticks := CountOverflowMissesTimeout(n, maxRetries);
      assert Within(ticks, limit);
    } else {
      forall ticks: seq<Tick> | ticks != [] && Within(ticks, limit) ensures OnTime(n, maxRetries, ticks) {
        AlwaysOnTime(n, maxRetries, ticks);
      }
    }
  }

  lemma AlwaysOnTime(n: uint32, maxRetries: uint32, ticks: seq<Tick>)
    requires n + maxRetries + 1 < U32 && Within(ticks, U32 - 1) && ticks != []
    ensures OnTime(n, maxRetries, ticks)
  {
    hide LastAction;
    hide Quiet;
    ActsOnTime(n, maxRetries, ticks);
  }

  // ----- The context and its send buffer -------------------------------------------------------

  const AT_KEEP_ALIVE: byte := 0x04
  const CT_KEEP_ALIVE_REQUEST: byte := 0x03
  const CT_KEEP_ALIVE_RESPONSE: byte := 0x04
  const PACKET_SIZE := 18

  /** n is the number of whole retry intervals in the interval. */
  predicate WholeIntervals(n: nat, interval: nat, retryInterval: nat) {
    n * retryInterval <= interval < (n + 1) * retryInterval
  }

  lemma DivMod(a: nat, b: nat)
    requires b > 0
    ensures a == a / b * b + a % b && 0 <= a % b < b
  {
  }

  lemma {:induction false} MulGrows(q: nat, b: nat)
    requires b > 0
    ensures q <= q * b
  {
    if q > 0 {
      MulGrows(q - 1, b);
      assert q * b == (q - 1) * b + b;
    }
  }

  lemma Quotient(a: nat, b: nat)
    requires b > 0
    ensures 0 <= a / b <= a && WholeIntervals(a / b, a, b)
  {
    DivMod(a, b);
    var q: nat := a / b;
    MulGrows(q, b);
    assert (q + 1) * b == q * b + b;
  }

  lemma AtFirst(n: uint32, maxRetries: uint32)
    ensures Run(n, maxRetries, []) == Counters(0, 0, 0)
  {
  }

  class KeepAliveContext {
    var maxRetries: uint32
    var n: uint32
    var counters: Counters
    var isSending: bool
    const sendBuffer: array<byte>
    ghost var outstanding: bytes   // the packet handed to the sender
    ghost var rewritten: bool      // the buffer was written while a packet was outstanding

    /** The sender sees the packet it was given last. */
    ghost predicate Valid()
      reads this, sendBuffer
    {
      sendBuffer.Length == PACKET_SIZE && (isSending ==> sendBuffer[..] == outstanding)
    }

    /** nc_keep_alive_init */
    constructor ()
      ensures Valid() && fresh(sendBuffer) && !isSending && !rewritten && n == 15 && maxRetries == 15
      ensures counters == Counters(0, 0, 0)
    {
      n, maxRetries := 30000 / 2000, 15;
      counters, isSending, outstanding, rewritten := Counters(0, 0, 0), false, [], false;
      sendBuffer := new byte[PACKET_SIZE](_ => 0);
    }

    /** The division is undefined for a retry interval of zero, and then nothing is said about n. */
    method SetSettings(interval: uint32, retryInterval: uint32, retries: uint32) returns (defined: bool)
      requires Valid()
      modifies this`n, this`maxRetries
      ensures Valid() && maxRetries == retries && (defined <==> retryInterval != 0)
      ensures defined ==> WholeIntervals(n, interval, retryInterval)
    {
      hide WholeIntervals;
      maxRetries := retries;
      if retryInterval == 0 { return false; }
      Quotient(interval, retryInterval);
      n := interval / retryInterval;
      return true;
    }

    method Decide(recvCount: uint32, sentCount: uint32) returns (action: Action)
      requires Valid()
      modifies this`counters
      ensures Valid()
      ensures (counters, action) == ShouldSend(old(counters), n, maxRetries, recvCount, sentCount, isSending)
    {
      if recvCount > counters.lastRecvCount && sentCount > counters.lastSentCount {
        counters := Counters(recvCount, sentCount, 0);
        return DoNothing;
      } else if counters.lost > Add32(maxRetries, n) {
        return Timeout;
      } else {
        counters := counters.(lost := Add32(counters.lost, 1));
        if !isSending && counters.lost > n {
          return SendKeepAlive;
        } else {
          return DoNothing;
        }
      }
    }

    /** The timer handler of the connections: decide, and build the probe that is asked for. */
    method OnTimer(recvCount: uint32, sentCount: uint32, ghost ticks: seq<Tick>, ghost now: Tick)
      returns (action: Action, packet: Option<bytes>)
      requires Valid() && counters == Run(n, maxRetries, ticks)
      requires Low32(now.recvCount) == recvCount && Low32(now.sentCount) == sentCount && now.sending == isSending
      modifies this, sendBuffer
      ensures n == old(n) && maxRetries == old(maxRetries) && counters == Run(n, maxRetries, ticks + [now])
      ensures action == LastAction(n, maxRetries, ticks + [now])
      ensures n + maxRetries + 1 < U32 && Within(ticks + [now], U32 - 1) ==>
                action == Expected(Quiet(ticks + [now]), n, maxRetries, old(isSending))
      ensures Valid() && (packet.Some? <==> action == SendKeepAlive) && rewritten == old(rewritten)
      ensures packet.Some? ==> !old(isSending) && outstanding == packet.value && isSending
      ensures packet.None? ==> isSending == old(isSending) && sendBuffer[..] == old(sendBuffer[..])
    {
      ghost var all := ticks + [now];
      assert all[..|ticks|] == ticks;
      if n + maxRetries + 1 < U32 && Within(all, U32 - 1) { ActsOnTime(n, maxRetries, all); }
      action := Decide(recvCount, sentCount);
      packet := None;
      if action == SendKeepAlive {
        var p := CreateRequest();
        packet := Some(p);
      }
    }

    /** The probe is written to the buffer whether or not it is in use; it is up to the caller to ask first. */
    method CreateRequest() returns (packet: bytes)
      requires Valid()
      modifies sendBuffer, this`isSending, this`outstanding, this`rewritten
      ensures Valid() && isSending && outstanding == packet
      ensures packet == [4, 3, 0, 0, 0, 0, 0, 0, 0, 0, 0, 0, 0, 0, 0, 0, 0, 0]
      ensures rewritten == (old(rewritten) || old(isSending))
    {
      rewritten := rewritten || isSending;
      sendBuffer[0], sendBuffer[1] := AT_KEEP_ALIVE, CT_KEEP_ALIVE_REQUEST;
      forall i | 2 <= i < PACKET_SIZE {
        sendBuffer[i] := 0;
      }
      packet := sendBuffer[..];
      isSending, outstanding := true, packet;
    }

    /** A request is answered with its own sixteen bytes, unless it is short or the buffer is in use. */
    method HandleRequest(request: bytes) returns (response: Option<bytes>)
      requires Valid()
      modifies sendBuffer, this`isSending, this`outstanding
      ensures Valid()
      ensures response.Some? <==> |request| >= 18 && !old(isSending)
      ensures response.Some? ==> response.value == [4, 4] + request[2..18]
      ensures response.Some? ==> isSending && outstanding == response.value
      ensures response.None? ==> isSending == old(isSending) && sendBuffer[..] == old(sendBuffer[..])
      ensures response.None? ==> outstanding == old(outstanding)
    {
      if |request| < PACKET_SIZE || isSending { return None; }
      sendBuffer[0], sendBuffer[1] := AT_KEEP_ALIVE, CT_KEEP_ALIVE_RESPONSE;
      forall i | 2 <= i < PACKET_SIZE {
        sendBuffer[i] := request[i];
      }
      var packet := sendBuffer[..];
      assert packet == [AT_KEEP_ALIVE, CT_KEEP_ALIVE_RESPONSE] + request[2..18];
      isSending, outstanding := true, packet;
      return Some(packet);
    }

    method PacketSent()
      requires Valid()
      modifies this`isSending
      ensures Valid() && !isSending
    {
      isSending := false;
    }
  }

  // ----- Runs ------------------------------------------------------------------------------------

  /** What a connection does with its keep alive. */
  datatype Use = Timer(recvCount: nat, sentCount: nat) | Request(request: bytes) | Sent

  /** Whether a packet is outstanding after `uses`. */
  function Busy(n: uint32, maxRetries: uint32, uses: seq<Use>): bool
    decreases |uses|, 1
  {
    if uses == [] then false
    else
      var before := uses[..|uses| - 1];
      match uses[|uses| - 1]
      case Timer(_, _) =>
        Busy(n, maxRetries, before) || LastAction(n, maxRetries, Ticks(n, maxRetries, uses)) == SendKeepAlive
      case Request(request) => Busy(n, maxRetries, before) || |request| >= PACKET_SIZE
      case Sent => false
  }

  /** The ticks of the timer in `uses`. */
  function Ticks(n: uint32, maxRetries: uint32, uses: seq<Use>): (r: seq<Tick>)
    ensures uses != [] && uses[|uses| - 1].Timer? ==> r != []
    decreases |uses|, 0
  {
    if uses == [] then []
    else
      var before := uses[..|uses| - 1];
      match uses[|uses| - 1]
      case Timer(recvCount, sentCount) =>
        Ticks(n, maxRetries, before) + [Tick(recvCount, sentCount, Busy(n, maxRetries, before))]
      case Request(_) | Sent => Ticks(n, maxRetries, before)
  }

  /** Use `k` put a packet out: the timer decided to send, or a request of at least 18 bytes was answered. */
  predicate PutsOut(n: uint32, maxRetries: uint32, uses: seq<Use>, k: nat) {
    k < |uses| &&
    match uses[k]
    case Timer(_, _) => LastAction(n, maxRetries, Ticks(n, maxRetries, uses[..k + 1])) == SendKeepAlive
    case Request(request) => |request| >= 18 && !Busy(n, maxRetries, uses[..k])
    case Sent => false
  }

  predicate OutSince(n: uint32, maxRetries: uint32, uses: seq<Use>, k: nat) {
    PutsOut(n, maxRetries, uses, k) && forall j :: k < j < |uses| ==> uses[j] != Sent
  }

  lemma BusyStep(n: uint32, maxRetries: uint32, uses: seq<Use>)
    requires uses != []
    ensures var last := |uses| - 1;
            Busy(n, maxRetries, uses) <==>
            PutsOut(n, maxRetries, uses, last) || (Busy(n, maxRetries, uses[..last]) && uses[last] != Sent)
  {
    hide LastAction;
    hide Ticks;
    assert uses[..|uses| - 1 + 1] == uses;
  }

  /** In every run a packet is outstanding exactly when one was put out and none has been sent since. */
  lemma {:induction false} BusyIff(n: uint32, maxRetries: uint32, uses: seq<Use>)
    ensures Busy(n, maxRetries, uses) <==> exists k: nat :: OutSince(n, maxRetries, uses, k)
  {
    hide Busy;
    hide PutsOut;
    if uses == [] {
      NotBusyAtFirst(n, maxRetries);
    } else {
      var last := |uses| - 1;
      var before := uses[..last];
      BusyIff(n, maxRetries, before);
      BusyStep(n, maxRetries, uses);
      forall k: nat | k < last
        ensures OutSince(n, maxRetries, uses, k) <==> OutSince(n, maxRetries, before, k) && uses[last] != Sent
      {
        SamePutsOut(n, maxRetries, uses, k);
      }
      forall k: nat
        ensures PutsOut(n, maxRetries, uses, k) ==> k < |uses|
        ensures PutsOut(n, maxRetries, before, k) ==> k < last
      {
        Places(n, maxRetries, uses, k);
        Places(n, maxRetries, before, k);
      }
      assert OutSince(n, maxRetries, uses, last) <==> PutsOut(n, maxRetries, uses, last);
    }
  }

  lemma NotBusyAtFirst(n: uint32, maxRetries: uint32)
    ensures !Busy(n, maxRetries, []) && forall k: nat :: !PutsOut(n, maxRetries, [], k)
  {
  }

  lemma Places(n: uint32, maxRetries: uint32, uses: seq<Use>, k: nat)
    ensures PutsOut(n, maxRetries, uses, k) ==> k < |uses|
  {
  }

  lemma SamePutsOut(n: uint32, maxRetries: uint32, uses: seq<Use>, k: nat)
    requires k < |uses| - 1
    ensures PutsOut(n, maxRetries, uses, k) <==> PutsOut(n, maxRetries, uses[..|uses| - 1], k)
  {
    hide Busy;
    hide LastAction;
    hide Ticks;
    var before := uses[..|uses| - 1];
    assert before[..k] == uses[..k] && before[..k + 1] == uses[..k + 1];
  }

  /**
   * In any run with any settings the buffer is never written while a packet is
   * outstanding, and each tick acts on the whole history.
   */
  method Replay(interval: uint32, retryInterval: uint32, retries: uint32, uses: seq<Use>)
    returns (k: KeepAliveContext, actions: seq<Action>)
    requires retryInterval > 0
    ensures WholeIntervals(k.n, interval, retryInterval) && k.maxRetries == retries
    ensures fresh(k) && fresh(k.sendBuffer) && k.Valid() && !k.rewritten
    ensures k.isSending == Busy(k.n, k.maxRetries, uses)
    ensures var ticks := Ticks(k.n, k.maxRetries, uses);
            && k.counters == Run(k.n, k.maxRetries, ticks)
            && |actions| == |ticks|
            && forall i :: 0 <= i < |ticks| ==> actions[i] == LastAction(k.n, k.maxRetries, ticks[..i + 1])
  {
    hide Run;
    hide LastAction;
    hide WholeIntervals;
    if uses == [] {
      k := new KeepAliveContext();
      var defined := k.SetSettings(interval, retryInterval, retries);
      AtFirst(k.n, k.maxRetries);
      return k, [];
    }
    k, actions := Replay(interval, retryInterval, retries, uses[..|uses| - 1]);
    ghost var ticks := Ticks(k.n, k.maxRetries, uses[..|uses| - 1]);
    match uses[|uses| - 1]
    case Timer(recvCount, sentCount) =>
      ghost var now := Tick(recvCount, sentCount, k.isSending);
      var action, packet := k.OnTimer(Low32(recvCount), Low32(sentCount), ticks, now);
      actions := actions + [action];
      forall i | 0 <= i < |ticks| ensures actions[i] == LastAction(k.n, k.maxRetries, (ticks + [now])[..i + 1]) {
        assert (ticks + [now])[..i + 1] == ticks[..i + 1];
      }
      assert (ticks + [now])[..|ticks| + 1] == ticks + [now];
    case Request(request) => var response := k.HandleRequest(request);
    case Sent => k.PacketSent();
  }
}
