/**
 * The table of client connections (nc_client_connection_dispatch.c) with the
 * reference counter of nc_device.c: packets are routed by connection id,
 * application calls by connection reference.
 */
module ConnectionTable {
  import opened Bytes

  const MAX_CLIENT_CONNECTIONS := 10
  const U64 := 0x1_0000_0000_0000_0000
  const DTLS_HANDSHAKE: byte := 22

  datatype Slot = Slot(active: bool, id: bytes, ref: nat)

  const CLOSED := Slot(false, [], 0)

  /** `draws` counts the references asked for, `retired` are those of closed connections. */
  datatype Table = Table(slots: seq<Slot>, draws: nat, retired: set<nat>)

  const EMPTY := Table([CLOSED, CLOSED, CLOSED, CLOSED, CLOSED, CLOSED, CLOSED, CLOSED, CLOSED, CLOSED], 0, {})

  /**
   * A packet lies at the start of the receive buffer, which is longer than the
   * header; `opens` tells whether a connection could be set up once it has a
   * reference.
   */
  datatype Use = Packet(buffer: bytes, opens: bool) | Close(slot: nat)

  datatype Route = Routed(slot: nat) | Opened(slot: nat, ref: nat) | OpenFailed | Dropped | Retired(ref: nat)

  predicate InMemory(use: Use) {
    use.Packet? ==> |use.buffer| > 16
  }

  predicate AllInMemory(uses: seq<Use>) {
    forall i :: 0 <= i < |uses| ==> InMemory(uses[i])
  }

  // ----- What the code does --------------------------------------------------------------------------

  /** The fourteen bytes of a connection id between the protocol prefix and the channel. */
  function Middle(id: bytes): bytes
    requires |id| >= 16
  {
    id[1..15]
  }

  predicate Shaped(slots: seq<Slot>) {
    |slots| == MAX_CLIENT_CONNECTIONS && forall i :: 0 <= i < |slots| && slots[i].active ==> |slots[i].id| == 16
  }

  predicate Owns(slots: seq<Slot>, i: nat, buffer: bytes)
    requires Shaped(slots) && |buffer| > 16
  {
    i < |slots| && slots[i].active && Middle(slots[i].id) == Middle(buffer)
  }

  function OwnerFrom(slots: seq<Slot>, buffer: bytes, i: nat): (r: Option<nat>)
    requires Shaped(slots) && |buffer| > 16 && i <= |slots|
    ensures r.Some? ==> i <= r.value && Owns(slots, r.value, buffer)
    ensures r.None? ==> forall j: nat :: i <= j ==> !Owns(slots, j, buffer)
    decreases |slots| - i
  {
    if i == |slots| then None else if Owns(slots, i, buffer) then Some(i) else OwnerFrom(slots, buffer, i + 1)
  }

  function FreeFrom(slots: seq<Slot>, i: nat): (r: Option<nat>)
    requires i <= |slots|
    ensures r.Some? ==> i <= r.value < |slots| && !slots[r.value].active
    ensures r.None? ==> forall j :: i <= j < |slots| ==> slots[j].active
    decreases |slots| - i
  {
    if i == |slots| then None else if !slots[i].active then Some(i) else FreeFrom(slots, i + 1)
  }

  /** The reference of the draw after `draws` others; zero is refused. */
  function RefOf(draws: nat): nat {
    (draws + 1) % U64
  }

  /** Opening in a free slot: the id and the reference are stored even when the connection then fails. */
  function Open(t: Table, i: nat, buffer: bytes, opens: bool): (r: (Table, Route))
    requires Shaped(t.slots) && |buffer| > 16 && i < |t.slots|
    ensures Shaped(r.0.slots)
  {
    var ref := RefOf(t.draws);
    var ok := opens && ref != 0;
    (t.(slots := t.slots[i := Slot(ok, buffer[..16], ref)], draws := t.draws + 1),
     if ok then Opened(i, ref) else OpenFailed)
  }

  function Step(t: Table, use: Use): (r: (Table, Route))
    requires Shaped(t.slots) && InMemory(use)
    ensures Shaped(r.0.slots)
  {
    match use
    case Packet(buffer, opens) =>
      var owner, free := OwnerFrom(t.slots, buffer, 0), FreeFrom(t.slots, 0);
      if owner.Some? then (t, Routed(owner.value))
      else if buffer[16] == DTLS_HANDSHAKE && free.Some? then Open(t, free.value, buffer, opens)
      else (t, Dropped)
    case Close(slot) =>
      if slot < |t.slots| && t.slots[slot].active then
        var ref := t.slots[slot].ref;
        (t.(slots := t.slots[slot := CLOSED], retired := t.retired + {ref}), Retired(ref))
      else (t, Dropped)
  }

  function Run(uses: seq<Use>): (t: Table)
    requires AllInMemory(uses)
    ensures Shaped(t.slots)
  {
    if uses == [] then EMPTY else Step(Run(uses[..|uses| - 1]), uses[|uses| - 1]).0
  }

  /** What became of the k-th use. */
  function RouteOf(uses: seq<Use>, k: nat): Route
    requires AllInMemory(uses) && k < |uses|
  {
    Step(Run(uses[..k]), uses[k]).1
  }

  // ----- Connection ids ----------------------------------------------------------------------------------

  /** Active connections have different ids. */
  predicate Distinct(slots: seq<Slot>)
    requires Shaped(slots)
  {
    forall i, j :: 0 <= i < j < |slots| && slots[i].active && slots[j].active ==>
      Middle(slots[i].id) != Middle(slots[j].id)
  }

  lemma MiddleOfPrefix(buffer: bytes)
    requires |buffer| > 16
    ensures Middle(buffer[..16]) == Middle(buffer)
  {
    assert buffer[..16][1..15] == buffer[1..15];
  }

  lemma DistinctStep(t: Table, use: Use)
    requires Shaped(t.slots) && Distinct(t.slots) && InMemory(use)
    ensures Distinct(Step(t, use).0.slots)
  {
    hide OwnerFrom;
    hide FreeFrom;
    hide Middle;
    if use.Packet? {
      MiddleOfPrefix(use.buffer);
      forall j: nat | j < |t.slots| && t.slots[j].active && OwnerFrom(t.slots, use.buffer, 0).None?
        ensures Middle(t.slots[j].id) != Middle(use.buffer) {
        assert !Owns(t.slots, j, use.buffer);
      }
    }
  }

  /** In every run active connections have different ids. */
  lemma {:induction false} IdsAreDistinct(uses: seq<Use>)
    requires AllInMemory(uses)
    ensures Distinct(Run(uses).slots)
  {
    hide Step;
    if uses != [] {
      IdsAreDistinct(uses[..|uses| - 1]);
      DistinctStep(Run(uses[..|uses| - 1]), uses[|uses| - 1]);
    }
  }

  /** In every run a packet is routed to the one active connection with its id, and to no other. */
  lemma RoutedToOwner(uses: seq<Use>, buffer: bytes, opens: bool, i: nat)
    requires AllInMemory(uses) && |buffer| > 16
    ensures var slots := Run(uses).slots;
            Step(Run(uses), Packet(buffer, opens)).1 == Routed(i) <==>
            i < |slots| && slots[i].active && slots[i].id[1..15] == buffer[1..15]
  {
    hide Run;
    IdsAreDistinct(uses);
    if Owns(Run(uses).slots, i, buffer) {
      var owner := OwnerFrom(Run(uses).slots, buffer, 0);
      assert owner.Some? && owner.value == i;
    }
  }

  /** Connection `id` is open in slot `i` with reference `ref`. */
  predicate Holds(t: Table, i: nat, id: bytes, ref: nat)
    requires Shaped(t.slots)
  {
    i < |t.slots| && t.slots[i].active && t.slots[i].id[1..15] == id && t.slots[i].ref == ref
  }

  /** Use `k` opened the connection whose id is in bytes 1 to 14 of its packet, and it was not closed since. */
  predicate OpenSince(uses: seq<Use>, k: nat, i: nat, id: bytes, ref: nat)
    requires AllInMemory(uses)
  {
    && k < |uses| && uses[k].Packet? && uses[k].buffer[1..15] == id && RouteOf(uses, k) == Opened(i, ref)
    && forall j :: k < j < |uses| ==> uses[j] != Close(i)
  }

  lemma HoldsStep(t: Table, use: Use, i: nat, id: bytes, ref: nat)
    requires Shaped(t.slots) && InMemory(use)
    ensures Holds(Step(t, use).0, i, id, ref) <==>
              || (Holds(t, i, id, ref) && use != Close(i))
              || (use.Packet? && use.buffer[1..15] == id && Step(t, use).1 == Opened(i, ref))
  {
    hide OwnerFrom;
    hide FreeFrom;
    hide RefOf;
    if use.Packet? { MiddleOfPrefix(use.buffer); }
  }

  /** In every run a slot holds exactly the connection that a packet with its id opened there and none closed since. */
  lemma {:induction false} HoldsIff(uses: seq<Use>, i: nat, id: bytes, ref: nat)
    requires AllInMemory(uses)
    ensures Holds(Run(uses), i, id, ref) <==> exists k: nat :: OpenSince(uses, k, i, id, ref)
  {
    hide Step;
    if uses != [] {
      var n := |uses| - 1;
      var before := uses[..n];
      HoldsIff(before, i, id, ref);
      HoldsStep(Run(before), uses[n], i, id, ref);
      forall k: nat | k < n
        ensures OpenSince(uses, k, i, id, ref) <==> OpenSince(before, k, i, id, ref) && uses[n] != Close(i)
      {
        assert before[..k] == uses[..k];
      }
      assert OpenSince(uses, n, i, id, ref) <==>
             uses[n].Packet? && uses[n].buffer[1..15] == id && RouteOf(uses, n) == Opened(i, ref);
    }
  }

  /** No open connection has the packet's id, it is a handshake record, and slot `i` is the first free one. */
  predicate OpensIn(t: Table, buffer: bytes, i: nat)
    requires Shaped(t.slots) && |buffer| > 16
  {
    && (forall j :: 0 <= j < |t.slots| && t.slots[j].active ==> t.slots[j].id[1..15] != buffer[1..15])
    && buffer[16] == 22
    && i < |t.slots| && !t.slots[i].active && forall j :: 0 <= j < i ==> t.slots[j].active
  }

  lemma OpensInIff(t: Table, buffer: bytes, i: nat)
    requires Shaped(t.slots) && |buffer| > 16
    ensures OpensIn(t, buffer, i) <==>
            OwnerFrom(t.slots, buffer, 0).None? && buffer[16] == DTLS_HANDSHAKE && FreeFrom(t.slots, 0) == Some(i)
  {
    hide OwnerFrom;
    hide FreeFrom;
    FreeIsFirst(t.slots, 0);
    if OwnerFrom(t.slots, buffer, 0).None? {
      forall j: nat | j < |t.slots| && t.slots[j].active ensures t.slots[j].id[1..15] != buffer[1..15] {
        assert !Owns(t.slots, j, buffer);
      }
    }
  }

  lemma {:induction false} FreeIsFirst(slots: seq<Slot>, i: nat)
    requires i <= |slots|
    ensures var free := FreeFrom(slots, i);
            forall j :: i <= j < (if free.Some? then free.value else |slots|) ==> slots[j].active
    decreases |slots| - i
  {
    if i < |slots| && slots[i].active {
      FreeIsFirst(slots, i + 1);
    }
  }

  /**
   * In every run a packet opens a connection in slot `i` exactly when it is for a
   * new one, can be set up and the counter gives a reference; it then gets the
   * number of the draw, counted from one, modulo 2^64.
   */
  lemma OpenedIff(uses: seq<Use>, buffer: bytes, opens: bool, i: nat, ref: nat)
    requires AllInMemory(uses) && |buffer| > 16
    ensures var t, route := Run(uses), Step(Run(uses), Packet(buffer, opens)).1;
            && (route == Opened(i, ref) <==>
                  OpensIn(t, buffer, i) && opens && ref == (t.draws + 1) % 0x1_0000_0000_0000_0000 && ref != 0)
            && (route == OpenFailed <==>
                  && (exists j: nat :: OpensIn(t, buffer, j))
                  && !(opens && (t.draws + 1) % 0x1_0000_0000_0000_0000 != 0))
  {
    hide Run;
    hide OwnerFrom;
    hide FreeFrom;
    hide OpensIn;
    var t := Run(uses);
    forall j: nat
      ensures OpensIn(t, buffer, j) <==>
              OwnerFrom(t.slots, buffer, 0).None? && buffer[16] == DTLS_HANDSHAKE && FreeFrom(t.slots, 0) == Some(j)
    {
      OpensInIff(t, buffer, j);
    }
  }

  /** How many packets of a run have drawn a reference. */
  function Draws(uses: seq<Use>): nat
    requires AllInMemory(uses)
  {
    if uses == [] then 0
    else
      var route := RouteOf(uses, |uses| - 1);
      Draws(uses[..|uses| - 1]) + if route.Opened? || route.OpenFailed? then 1 else 0
  }

  lemma {:induction false} DrawsCounted(uses: seq<Use>)
    requires AllInMemory(uses)
    ensures Run(uses).draws == Draws(uses)
  {
    hide Step;
    if uses != [] {
      DrawsCounted(uses[..|uses| - 1]);
      DrawsGrow(Run(uses[..|uses| - 1]), uses[|uses| - 1]);
    }
  }

  // ----- References ----------------------------------------------------------------------------------------

  predicate Drawn(ref: nat, draws: nat) {
    0 < ref <= draws && ref < U64
  }

  /** References are those drawn so far, each in use once or retired. */
  predicate RefsInv(t: Table) {
    && (forall r :: r in t.retired ==> Drawn(r, t.draws))
    && (forall i :: 0 <= i < |t.slots| && t.slots[i].active ==>
          Drawn(t.slots[i].ref, t.draws) && t.slots[i].ref !in t.retired)
    && (forall i, j :: 0 <= i < j < |t.slots| && t.slots[i].active && t.slots[j].active ==>
          t.slots[i].ref != t.slots[j].ref)
  }

  lemma RefsStep(t: Table, use: Use)
    requires Shaped(t.slots) && InMemory(use) && RefsInv(t) && Step(t, use).0.draws <= U64
    ensures RefsInv(Step(t, use).0)
  {
    hide OwnerFrom;
    hide FreeFrom;
    hide Middle;
    if t.draws < U64 - 1 { assert RefOf(t.draws) == t.draws + 1; }
  }

  lemma DrawsGrow(t: Table, use: Use)
    requires Shaped(t.slots) && InMemory(use)
    ensures t.draws <= Step(t, use).0.draws && t.retired <= Step(t, use).0.retired
    ensures Step(t, use).0.draws == t.draws + if Step(t, use).1.Opened? || Step(t, use).1.OpenFailed? then 1 else 0
    ensures Step(t, use).1.Opened? ==> Step(t, use).1.ref == RefOf(t.draws) != 0
    ensures Step(t, use).0.retired == t.retired + if Step(t, use).1.Retired? then {Step(t, use).1.ref} else {}
  {
    hide OwnerFrom;
    hide FreeFrom;
    hide RefOf;
  }

  /** In every run with at most 2^64 draws references are distinct and none is given out twice. */
  lemma {:induction false} RefsAreDistinct(uses: seq<Use>)
    requires AllInMemory(uses) && Run(uses).draws <= U64
    ensures RefsInv(Run(uses))
  {
    hide Step;
    if uses != [] {
      var n := |uses| - 1;
      DrawsGrow(Run(uses[..n]), uses[n]);
      RefsAreDistinct(uses[..n]);
      RefsStep(Run(uses[..n]), uses[n]);
    }
  }

  lemma {:induction false} RunsGrow(uses: seq<Use>, k: nat)
    requires AllInMemory(uses) && k <= |uses|
    ensures Run(uses[..k]).draws <= Run(uses).draws && Run(uses[..k]).retired <= Run(uses).retired
  {
    hide Step;
    if k == |uses| {
      assert uses[..k] == uses;
    } else {
      var n := |uses| - 1;
      RunsGrow(uses[..n], k);
      assert uses[..n][..k] == uses[..k];
      DrawsGrow(Run(uses[..n]), uses[n]);
    }
  }

  /** A reference is retired exactly when a connection that had it was closed. */
  lemma {:induction false} RetiredIff(uses: seq<Use>, ref: nat)
    requires AllInMemory(uses)
    ensures ref in Run(uses).retired <==> exists k: nat :: k < |uses| && RouteOf(uses, k) == Retired(ref)
  {
    hide Step;
    if uses != [] {
      var n := |uses| - 1;
      RetiredIff(uses[..n], ref);
      DrawsGrow(Run(uses[..n]), uses[n]);
      forall k: nat | k < n ensures RouteOf(uses, k) == RouteOf(uses[..n], k) {
        assert uses[..n][..k] == uses[..k];
      }
      assert RouteOf(uses, n) == Step(Run(uses[..n]), uses[n]).1;
    }
  }

  /** In every run with at most 2^64 draws all connections ever opened have different references. */
  lemma OpenedOnce(uses: seq<Use>, j: nat, k: nat)
    requires AllInMemory(uses) && j < k < |uses| && Run(uses).draws <= U64
    requires RouteOf(uses, j).Opened? && RouteOf(uses, k).Opened?
    ensures RouteOf(uses, j).ref != RouteOf(uses, k).ref
  {
    hide Run;
    hide RefOf;
    hide RouteOf;
    hide AllInMemory;
    OpenedRef(uses, j);
    OpenedRef(uses, k);
    InMemoryPrefix(uses, k);
    RunsGrow(uses[..k], j + 1);
    assert uses[..k][..j + 1] == uses[..j + 1];
    RunsGrow(uses, k + 1);
    RefBelow(Run(uses[..j]).draws);
    RefBelow(Run(uses[..k]).draws);
  }

  lemma InMemoryPrefix(uses: seq<Use>, k: nat)
    requires AllInMemory(uses) && k <= |uses|
    ensures AllInMemory(uses[..k])
  {
  }

  /** An opened connection has the reference of its draw. */
  lemma OpenedRef(uses: seq<Use>, k: nat)
    requires AllInMemory(uses) && k < |uses| && RouteOf(uses, k).Opened?
    ensures AllInMemory(uses[..k]) && AllInMemory(uses[..k + 1])
    ensures RouteOf(uses, k).ref == RefOf(Run(uses[..k]).draws) != 0
    ensures Run(uses[..k + 1]).draws == Run(uses[..k]).draws + 1
  {
    hide Step;
    hide RefOf;
    OneStep(uses, k);
    DrawsGrow(Run(uses[..k]), uses[k]);
  }

  lemma RefBelow(draws: nat)
    requires draws < U64 && RefOf(draws) != 0
    ensures RefOf(draws) == draws + 1
  {
  }

  lemma OneStep(uses: seq<Use>, k: nat)
    requires AllInMemory(uses) && k < |uses|
    ensures Run(uses[..k + 1]) == Step(Run(uses[..k]), uses[k]).0
  {
    hide Step;
    assert uses[..k + 1][..k] == uses[..k];
  }

  /** nc_client_connection_dispatch_connection_from_ref */
  function LookupFrom(slots: seq<Slot>, ref: nat, i: nat): (r: Option<nat>)
    requires i <= |slots|
    ensures r.Some? ==> i <= r.value < |slots| && slots[r.value].active && slots[r.value].ref == ref
    ensures r.None? ==> forall j :: i <= j < |slots| && slots[j].active ==> slots[j].ref != ref
    decreases |slots| - i
  {
    if i == |slots| then None
    else if slots[i].active && slots[i].ref == ref then Some(i)
    else LookupFrom(slots, ref, i + 1)
  }

  /** A reference finds exactly the active connection it was given to. */
  lemma LookupIff(uses: seq<Use>, ref: nat, i: nat)
    requires AllInMemory(uses) && Run(uses).draws <= U64
    ensures var slots := Run(uses).slots;
            LookupFrom(slots, ref, 0) == Some(i) <==> i < |slots| && slots[i].active && slots[i].ref == ref
  {
    hide Run;
    hide LookupFrom;
    RefsAreDistinct(uses);
  }

  /** The reference of a connection closed at any time before never resolves again. */
  lemma RetiredStaysDead(uses: seq<Use>, k: nat)
    requires AllInMemory(uses) && Run(uses).draws <= U64 && k < |uses| && RouteOf(uses, k).Retired?
    ensures LookupFrom(Run(uses).slots, RouteOf(uses, k).ref, 0).None?
  {
    hide Run;
    hide RouteOf;
    hide LookupFrom;
    RefsAreDistinct(uses);
    RetiredIff(uses, RouteOf(uses, k).ref);
  }

  // ----- More draws than references ------------------------------------------------------------------------

  /** Active connections have different references. */
  predicate RefsDistinct(slots: seq<Slot>) {
    forall i, j :: 0 <= i < j < |slots| && slots[i].active && slots[j].active ==> slots[i].ref != slots[j].ref
  }

  /** The first packet of a connection whose id is told by one byte. */
  function Hello(b: byte): bytes {
    [240, b, 0, 0, 0, 0, 0, 0, 0, 0, 0, 0, 0, 0, 0, 0, DTLS_HANDSHAKE]
  }

  /** Connection 1 is open in slot 0 with reference 1 and nothing else is active. */
  predicate OnlyFirst(t: Table) {
    && Shaped(t.slots) && t.slots[0].active && t.slots[0].id == Hello(1)[..16] && t.slots[0].ref == 1
    && forall i :: 0 < i < |t.slots| ==> !t.slots[i].active
  }

  lemma HelloByte(a: byte)
    ensures Middle(Hello(a)) != [] && Middle(Hello(a))[0] == a
  {
    assert Hello(a)[1] == a;
  }

  lemma HelloMiddle(a: byte, b: byte)
    ensures Middle(Hello(a)) == Middle(Hello(b)) <==> a == b
    ensures Middle(Hello(a)[..16]) == Middle(Hello(a))
  {
    MiddleOfPrefix(Hello(a));
    HelloByte(a);
    HelloByte(b);
  }

  lemma NewcomerIsFree(t: Table, b: byte)
    requires OnlyFirst(t) && b != 1
    ensures OwnerFrom(t.slots, Hello(b), 0).None? && FreeFrom(t.slots, 0) == Some(1)
  {
    hide Middle;
    HelloMiddle(1, b);
    assert FreeFrom(t.slots, 0) == FreeFrom(t.slots, 1);
  }

  lemma FailedOpenDraws(t: Table)
    requires OnlyFirst(t)
    ensures var r := Step(t, Packet(Hello(2), false)); OnlyFirst(r.0) && r.0.draws == t.draws + 1
  {
    hide OwnerFrom;
    hide FreeFrom;
    NewcomerIsFree(t, 2);
  }

  function FailedOpens(n: nat): seq<Use> {
    seq(n, _ => Packet(Hello(2), false))
  }

  lemma FirstOpen()
    ensures var r := Step(EMPTY, Packet(Hello(1), true)); OnlyFirst(r.0) && r.0.draws == 1
  {
  }

  /** One connection is opened, then `n` attempts fail. */
  function Attempts(n: nat): seq<Use> {
    [Packet(Hello(1), true)] + FailedOpens(n)
  }

  lemma {:induction false} AttemptsDraw(n: nat)
    ensures AllInMemory(Attempts(n)) && OnlyFirst(Run(Attempts(n))) && Run(Attempts(n)).draws == n + 1
  {
    hide Step;
    if n == 0 {
      FirstOpen();
      assert Attempts(0) == [Packet(Hello(1), true)] && |Attempts(0)[..0]| == 0;
    } else {
      AttemptsDraw(n - 1);
      assert Attempts(n)[..n] == Attempts(n - 1);
      FailedOpenDraws(Run(Attempts(n - 1)));
    }
  }

  /** After 2^64 draws the counter has come around, and the next connection gets the reference of the first. */
  lemma SecondFirst(t: Table)
    requires OnlyFirst(t) && t.draws == U64
    ensures var r := Step(t, Packet(Hello(3), true)); r.0.draws == U64 + 1 && !RefsDistinct(r.0.slots)
    ensures var r := Step(t, Packet(Hello(3), true)); TwoFirst(r.0)
  {
    hide OwnerFrom;
    hide FreeFrom;
    NewcomerIsFree(t, 3);
    assert RefOf(U64) == 1;
    var r := Step(t, Packet(Hello(3), true));
    assert r.0.slots[0].active && r.0.slots[1].active && r.0.slots[0].ref == r.0.slots[1].ref;
  }

  /** Two active connections share a reference and slot 2 is free. */
  predicate TwoFirst(t: Table) {
    && Shaped(t.slots) && t.slots[0].active && t.slots[1].active && t.slots[0].ref == t.slots[1].ref
    && t.slots[0].id == Hello(1)[..16] && t.slots[1].id == Hello(3)[..16]
    && forall i :: 1 < i < |t.slots| ==> !t.slots[i].active
  }

  lemma FailedOpenKeepsTwo(t: Table)
    requires TwoFirst(t)
    ensures var r := Step(t, Packet(Hello(2), false)); TwoFirst(r.0) && r.0.draws == t.draws + 1
  {
    hide Middle;
    HelloMiddle(1, 2);
    HelloMiddle(3, 2);
    assert OwnerFrom(t.slots, Hello(2), 0).None?;
    assert FreeFrom(t.slots, 0) == FreeFrom(t.slots, 1) == FreeFrom(t.slots, 2) == Some(2);
  }

  /** A run with `U64 + 1 + n` draws in which two connections share a reference. */
  function Overdrawn(n: nat): seq<Use> {
    Attempts(U64 - 1) + [Packet(Hello(3), true)] + FailedOpens(n)
  }

  lemma {:induction false} OverdrawnShares(n: nat)
    ensures AllInMemory(Overdrawn(n)) && TwoFirst(Run(Overdrawn(n))) && Run(Overdrawn(n)).draws == U64 + 1 + n
  {
    hide Step;
    hide Attempts;
    if n == 0 {
      AttemptsDraw(U64 - 1);
      SecondFirst(Run(Attempts(U64 - 1)));
      assert Overdrawn(0) == Attempts(U64 - 1) + [Packet(Hello(3), true)];
      assert Overdrawn(0)[..|Overdrawn(0)| - 1] == Attempts(U64 - 1);
    } else {
      OverdrawnShares(n - 1);
      assert Overdrawn(n)[..|Overdrawn(n)| - 1] == Overdrawn(n - 1);
      FailedOpenKeepsTwo(Run(Overdrawn(n - 1)));
    }
  }

  /** Active connections have different references in every run with `n` draws exactly when n is at most 2^64. */
  lemma DistinctIff(n: nat)
    ensures (forall uses :: AllInMemory(uses) && Run(uses).draws == n ==> RefsDistinct(Run(uses).slots)) <==> n <= U64
  {
    hide Run;
    hide Overdrawn;
    if n <= U64 {
      forall uses | AllInMemory(uses) && Run(uses).draws == n ensures RefsDistinct(Run(uses).slots) {
        RefsAreDistinct(uses);
      }
    } else {
      var uses := Overdrawn(n - U64 - 1);
      OverdrawnShares(n - U64 - 1);
      assert !RefsDistinct(Run(uses).slots);
    }
  }

  // ----- The code ------------------------------------------------------------------------------------------

  /** nc_device_next_connection_ref: the counter wraps, and the wrapped value is refused. */
  method NextConnectionRef(counter: nat) returns (next: nat, ref: Option<nat>)
    requires counter < U64
    ensures next == RefOf(counter) && ref == if RefOf(counter) == 0 then None else Some(RefOf(counter))
    ensures ref.Some? ==> ref.value == counter + 1
  {
    var prev := counter;
    next := (counter + 1) % U64;
    if prev > next {
      return next, None;
    }
    return next, Some(next);
  }

  class Dispatch {
    const elms: array<Slot>
    var connectionRef: nat
    ghost var draws: nat
    ghost var retired: set<nat>

    ghost predicate Valid()
      reads this, elms
    {
      Shaped(elms[..]) && connectionRef == draws % U64
    }

    ghost function View(): (t: Table)
      requires Valid()
      reads this, elms
      ensures Shaped(t.slots)
    {
      Table(elms[..], draws, retired)
    }

    constructor ()
      ensures Valid() && fresh(elms) && View() == EMPTY
    {
      elms := new Slot[MAX_CLIENT_CONNECTIONS](_ => CLOSED);
      connectionRef, draws, retired := 0, 0, {};
      new;
      assert elms[..] == EMPTY.slots;
    }

    method HandlePacket(buffer: bytes, opens: bool) returns (route: Route)
      requires Valid() && |buffer| > 16
      modifies this, elms
      ensures Valid() && (View(), route) == Step(old(View()), Packet(buffer, opens))
    {
      hide RefOf;
      for i := 0 to elms.Length
        invariant OwnerFrom(elms[..], buffer, 0) == OwnerFrom(elms[..], buffer, i)
      {
        if elms[i].active && buffer[1..15] == elms[i].id[1..15] {
          return Routed(i);
        }
      }
      if buffer[16] == DTLS_HANDSHAKE {
        for i := 0 to elms.Length
          invariant Valid() && View() == old(View()) && FreeFrom(elms[..], 0) == FreeFrom(elms[..], i)
        {
          if !elms[i].active {
            route := OpenIn(i, buffer, opens);
            return;
          }
        }
      }
      return Dropped;
    }

    /** nc_client_connection_open on a free slot. */
    method OpenIn(i: nat, buffer: bytes, opens: bool) returns (route: Route)
      requires Valid() && i < elms.Length && !elms[i].active && |buffer| > 16
      modifies this`connectionRef, this`draws, elms
      ensures Valid() && (View(), route) == Open(old(View()), i, buffer, opens)
    {
      elms[i] := Slot(false, buffer[..16], 0);
      var next, ref := NextConnectionRef(connectionRef);
      SameRef(draws);
      connectionRef, draws := next, draws + 1;
      assert elms[..] == old(elms[..])[i := elms[i]];
      if ref.None? { return OpenFailed; }
      elms[i] := elms[i].(ref := ref.value);
      assert elms[..] == old(elms[..])[i := elms[i]];
      if !opens { return OpenFailed; }
      elms[i] := elms[i].(active := true);
      assert elms[..] == old(elms[..])[i := elms[i]];
      return Opened(i, ref.value);
    }

    /** Destroying a connection retires its reference; a slot that is not active is not closed. */
    method CloseConnection(i: nat) returns (route: Route)
      requires Valid()
      modifies this`retired, elms
      ensures Valid() && (View(), route) == Step(old(View()), Close(i))
    {
      if i >= elms.Length || !elms[i].active { return Dropped; }
      var ref := elms[i].ref;
      retired := retired + {ref};
      elms[i] := CLOSED;
      return Retired(ref);
    }

    method ConnectionFromRef(ref: nat) returns (found: Option<nat>)
      requires Valid()
      ensures found == LookupFrom(elms[..], ref, 0)
    {
      for i := 0 to elms.Length
        invariant LookupFrom(elms[..], ref, 0) == LookupFrom(elms[..], ref, i)
      {
        if elms[i].active && elms[i].ref == ref {
          return Some(i);
        }
      }
      return None;
    }

    method Apply(use: Use) returns (route: Route)
      requires Valid() && InMemory(use)
      modifies this, elms
      ensures Valid() && (View(), route) == Step(old(View()), use)
    {
      hide Step;
      match use
      case Packet(buffer, opens) => route := HandlePacket(buffer, opens);
      case Close(slot) => route := CloseConnection(slot);
    }
  }

  /** The counter holds the number of draws modulo 2^64. */
  lemma SameRef(draws: nat)
    ensures RefOf(draws % U64) == RefOf(draws)
  {
  }

  /** The code follows every run of packets and closes. */
  method Replay(uses: seq<Use>) returns (d: Dispatch, routes: seq<Route>)
    requires AllInMemory(uses)
    ensures fresh(d) && fresh(d.elms) && d.Valid() && d.View() == Run(uses) && |routes| == |uses|
    ensures forall k :: 0 <= k < |uses| ==> routes[k] == RouteOf(uses, k)
  {
    hide Step;
    if uses == [] {
      d := new Dispatch();
      return d, [];
    }
    var n := |uses| - 1;
    d, routes := Replay(uses[..n]);
    var route := d.Apply(uses[n]);
    routes := routes + [route];
    forall k | 0 <= k < n ensures routes[k] == RouteOf(uses, k) {
      assert uses[..n][..k] == uses[..k];
    }
  }
}
