/**
 * nc_dns_multi_resolver.c: both address families are asked at once and their
 * answers are merged into one array of alternating addresses.
 */
module DnsMerge {
  import opened Bytes

  datatype IpAddress = V4(a: bytes) | V6(b: bytes)

  datatype ErrorCode = OK | InProgress | Failed(code: nat)

  const MAX_IPS := 4

  // ----- Alternating addresses ----------------------------------------------------------------

  /** The elements of `a` and `b` in turns, then what is left of the longer one. */
  function Interleave<T>(a: seq<T>, b: seq<T>): seq<T> {
    if a == [] then b
    else if b == [] then a
    else [a[0], b[0]] + Interleave(a[1..], b[1..])
  }

  /** Nothing is lost or repeated. */
  lemma {:induction false} InterleaveLength<T>(a: seq<T>, b: seq<T>)
    ensures |Interleave(a, b)| == |a| + |b|
  {
    if a != [] && b != [] { InterleaveLength(a[1..], b[1..]); }
  }

  lemma SplitFirst<T>(s: seq<T>)
    requires s != []
    ensures multiset(s) == multiset{s[0]} + multiset(s[1..])
  {
    assert s == [s[0]] + s[1..];
  }

  lemma {:induction false} InterleaveContents<T>(a: seq<T>, b: seq<T>)
    ensures multiset(Interleave(a, b)) == multiset(a) + multiset(b)
  {
    if a != [] && b != [] {
      InterleaveContents(a[1..], b[1..]);
      SplitFirst(a);
      SplitFirst(b);
      assert Interleave(a, b) == [a[0]] + ([b[0]] + Interleave(a[1..], b[1..]));
    }
  }

  /** An element of the first family stands behind the elements before it and their partners. */
  lemma {:induction false} FirstPositions<T>(a: seq<T>, b: seq<T>, j: nat)
    requires j < |a|
    ensures j + Min(j, |b|) < |Interleave(a, b)| && Interleave(a, b)[j + Min(j, |b|)] == a[j]
  {
    InterleaveLength(a, b);
    if j > 0 && b != [] {
      FirstPositions(a[1..], b[1..], j - 1);
      var rest := Interleave(a[1..], b[1..]);
      assert Interleave(a, b) == [a[0], b[0]] + rest;
      assert Interleave(a, b)[j + Min(j, |b|)] == rest[j - 1 + Min(j - 1, |b| - 1)];
    }
  }

  /** An element of the second family stands right behind its partner of the first. */
  lemma {:induction false} SecondPositions<T>(a: seq<T>, b: seq<T>, j: nat)
    requires j < |b|
    ensures j + Min(j + 1, |a|) < |Interleave(a, b)| && Interleave(a, b)[j + Min(j + 1, |a|)] == b[j]
  {
    InterleaveLength(a, b);
    if j > 0 && a != [] {
      SecondPositions(a[1..], b[1..], j - 1);
      var rest := Interleave(a[1..], b[1..]);
      assert Interleave(a, b) == [a[0], b[0]] + rest;
      assert Interleave(a, b)[j + Min(j + 1, |a|)] == rest[j - 1 + Min(j, |a| - 1)];
    }
  }

  function Min(a: nat, b: nat): nat {
    if a < b then a else b
  }

  function Nth<T>(s: seq<T>, i: nat): seq<T> {
    if i < |s| then [s[i]] else []
  }

  function Round<T>(a: seq<T>, b: seq<T>, i: nat): seq<T> {
    Nth(a, i) + Nth(b, i)
  }

  /** What the first `i` rounds of the merge loop produce without a limit. */
  function Rounds<T>(a: seq<T>, b: seq<T>, i: nat): seq<T> {
    if i == 0 then [] else Rounds(a, b, i - 1) + Round(a, b, i - 1)
  }

  lemma RoundTail<T>(a: seq<T>, b: seq<T>, i: nat)
    requires a != [] && b != []
    ensures Round(a, b, 0) == [a[0], b[0]] && (i > 0 ==> Round(a, b, i) == Round(a[1..], b[1..], i - 1))
  {
  }

  lemma {:induction false} RoundsCons<T>(a: seq<T>, b: seq<T>, i: nat)
    requires a != [] && b != []
    ensures Rounds(a, b, i + 1) == [a[0], b[0]] + Rounds(a[1..], b[1..], i)
  {
    hide Round;
    RoundTail(a, b, i);
    if i == 0 {
      assert Rounds(a, b, 1) == Rounds(a, b, 0) + Round(a, b, 0) == [a[0], b[0]];
    } else {
      RoundsCons(a, b, i - 1);
      var head, tail, round := [a[0], b[0]], Rounds(a[1..], b[1..], i - 1), Round(a[1..], b[1..], i - 1);
      assert head + tail + round == head + (tail + round);
    }
  }

  lemma TakeNext<T>(s: seq<T>, i: nat)
    ensures Take(s, i) + Nth(s, i) == Take(s, i + 1)
  {
  }

  lemma RoundOfOne<T>(a: seq<T>, b: seq<T>, i: nat)
    requires a == [] || b == []
    ensures Round(a, b, i) == Nth(a + b, i)
  {
    if a == [] {
      assert a + b == b;
    } else {
      assert a + b == a;
    }
  }

  lemma {:induction false} RoundsOfOne<T>(a: seq<T>, b: seq<T>, i: nat)
    requires a == [] || b == []
    ensures Rounds(a, b, i) == Take(a + b, i)
  {
    hide Take;
    hide Round;
    hide Nth;
    if i == 0 {
      NoRounds(a, b, 0);
      TakeNone(a + b);
    } else {
      RoundsOfOne(a, b, i - 1);
      RoundOfOne(a, b, i - 1);
      TakeNext(a + b, i - 1);
    }
  }

  lemma TakeNone<T>(s: seq<T>)
    ensures Take(s, 0) == []
  {
  }

  lemma TakeAll<T>(s: seq<T>, i: nat)
    requires |s| <= i
    ensures Take(s, i) == s
  {
  }

  lemma InterleaveOne<T>(a: seq<T>, b: seq<T>)
    requires a == [] || b == []
    ensures Interleave(a, b) == a + b
  {
    assert a + b == if a == [] then b else a;
  }

  lemma InterleaveBoth<T>(a: seq<T>, b: seq<T>)
    requires a != [] && b != []
    ensures Interleave(a, b) == [a[0], b[0]] + Interleave(a[1..], b[1..])
  {
  }

  lemma {:induction false} RoundsInterleave<T>(a: seq<T>, b: seq<T>, i: nat)
    requires i >= |a| && i >= |b|
    ensures Rounds(a, b, i) == Interleave(a, b)
  {
    hide Rounds;
    hide Take;
    hide Interleave;
    if a == [] || b == [] {
      RoundsOfOne(a, b, i);
      TakeAll(a + b, i);
      InterleaveOne(a, b);
    } else {
      RoundsCons(a, b, i - 1);
      RoundsInterleave(a[1..], b[1..], i - 1);
      InterleaveBoth(a, b);
    }
  }

  function Take<T>(s: seq<T>, n: nat): seq<T> {
    if |s| <= n then s else s[..n]
  }

  lemma NoRounds<T>(a: seq<T>, b: seq<T>, n: nat)
    ensures Rounds(a, b, 0) == [] && Take(Rounds(a, b, 0), n) == []
  {
  }

  lemma NextRound<T>(a: seq<T>, b: seq<T>, i: nat)
    ensures Rounds(a, b, i + 1) == Rounds(a, b, i) + Nth(a, i) + Nth(b, i)
  {
  }

  lemma TakeMore<T>(s: seq<T>, more: seq<T>, n: nat)
    ensures Take(Take(s, n) + more, n) == Take(s + more, n)
  {
  }

  // ----- The resolver ----------------------------------------------------------------------------

  /** An error only when both families failed. */
  function ResultCode(ec4: ErrorCode, ec6: ErrorCode): ErrorCode {
    if ec4 != OK && ec6 != OK then ec4 else OK
  }

  /** The addresses promised to the caller: the alternation, as far as there is room. */
  function Merged(v4: seq<IpAddress>, v6: seq<IpAddress>, room: nat): (r: seq<IpAddress>)
    ensures |r| <= room
  {
    Take(Interleave(v4, v6), room)
  }

  class MultiResolver {
    var v4Ips: seq<IpAddress>
    var v6Ips: seq<IpAddress>
    var v4Ec: ErrorCode
    var v6Ec: ErrorCode
    const ips: array<IpAddress>
    var ipsResolved: nat              // the caller's count of addresses
    var completions: seq<ErrorCode>   // how often and with what the completion event was resolved

    /** The completion event fired once if both families have answered, and not before. */
    ghost predicate Valid()
      reads this, ips
    {
      && |v4Ips| <= MAX_IPS && |v6Ips| <= MAX_IPS
      && (v4Ec == InProgress || v6Ec == InProgress ==> completions == [])
      && (v4Ec != InProgress && v6Ec != InProgress ==> completions == [ResultCode(v4Ec, v6Ec)])
      && (completions == [OK] ==> ipsResolved <= ips.Length && ips[..ipsResolved] == Merged(v4Ips, v6Ips, ips.Length))
    }

    /** nc_dns_multi_resolver_resolve; `count` is what the caller's count holds before. */
    constructor (ips: array<IpAddress>, count: nat)
      ensures Valid() && this.ips == ips && ipsResolved == count
      ensures v4Ec == v6Ec == InProgress && v4Ips == v6Ips == []
    {
      this.ips, ipsResolved, v4Ips, v6Ips, v4Ec, v6Ec, completions := ips, count, [], [], InProgress, InProgress, [];
    }

    method ResolvedV4(ec: ErrorCode, found: seq<IpAddress>)
      requires Valid() && v4Ec == InProgress && ec != InProgress && |found| <= MAX_IPS
      modifies this, ips
      ensures Valid() && v4Ec == ec && v4Ips == found && v6Ec == old(v6Ec) && v6Ips == old(v6Ips)
      ensures completions != [OK] ==> ipsResolved == old(ipsResolved) && ips[..] == old(ips[..])
    {
      v4Ips, v4Ec := found, ec;
      Resolved();
    }

    method ResolvedV6(ec: ErrorCode, found: seq<IpAddress>)
      requires Valid() && v6Ec == InProgress && ec != InProgress && |found| <= MAX_IPS
      modifies this, ips
      ensures Valid() && v6Ec == ec && v6Ips == found && v4Ec == old(v4Ec) && v4Ips == old(v4Ips)
      ensures completions != [OK] ==> ipsResolved == old(ipsResolved) && ips[..] == old(ips[..])
    {
      v6Ips, v6Ec := found, ec;
      Resolved();
    }

    /** dns_resolved */
    method Resolved()
      requires |v4Ips| <= MAX_IPS && |v6Ips| <= MAX_IPS && completions == []
      modifies this`completions, this`ipsResolved, ips
      ensures Valid()
      ensures completions != [OK] ==> ipsResolved == old(ipsResolved) && ips[..] == old(ips[..])
    {
      if v4Ec == InProgress || v6Ec == InProgress { return; }
      var ec := ResolvedEc();
      completions := completions + [ec];
    }

    /** Stores the i-th address of a family, if there is one and room for it. */
    method Put(family: seq<IpAddress>, i: nat, resolved: nat) returns (r: nat)
      requires resolved <= ips.Length
      modifies ips
      ensures r <= ips.Length && ips[..r] == Take(old(ips[..resolved]) + Nth(family, i), ips.Length)
    {
      r := resolved;
      if resolved < ips.Length {
        if i < |family| {
          ips[resolved] := family[i];
          r := r + 1;
        }
      }
    }

    /** dns_resolved_ec: on failure the caller's array and count stay as they were. */
    method ResolvedEc() returns (ec: ErrorCode)
      modifies this`ipsResolved, ips
      ensures ec == ResultCode(v4Ec, v6Ec)
      ensures ec == OK ==> ipsResolved <= ips.Length && ips[..ipsResolved] == Merged(v4Ips, v6Ips, ips.Length)
      ensures ec != OK ==> ipsResolved == old(ipsResolved) && ips[..] == old(ips[..])
    {
      hide Rounds;
      hide Take;
      if v4Ec != OK && v6Ec != OK { return v4Ec; }
      var resolved: nat := 0;
      NoRounds(v4Ips, v6Ips, ips.Length);
      assert ips[..0] == [];
      for i := 0 to |v4Ips| + |v6Ips|
        invariant resolved <= ips.Length && ips[..resolved] == Take(Rounds(v4Ips, v6Ips, i), ips.Length)
      {
        ghost var before := Rounds(v4Ips, v6Ips, i);
        resolved := Put(v4Ips, i, resolved);
        TakeMore(before, Nth(v4Ips, i), ips.Length);
        resolved := Put(v6Ips, i, resolved);
        TakeMore(before + Nth(v4Ips, i), Nth(v6Ips, i), ips.Length);
        NextRound(v4Ips, v6Ips, i);
      }
      RoundsInterleave(v4Ips, v6Ips, |v4Ips| + |v6Ips|);
      ipsResolved := resolved;
      ec := OK;
    }
  }

  /** Whichever family answers first, the caller sees the same completion and the same addresses. */
  method ResolveInEitherOrder(ec4: ErrorCode, v4: seq<IpAddress>, ec6: ErrorCode, v6: seq<IpAddress>,
                              ips: array<IpAddress>, count: nat, v4First: bool) returns (r: MultiResolver)
    requires ec4 != InProgress && ec6 != InProgress && |v4| <= MAX_IPS && |v6| <= MAX_IPS
    modifies ips
    ensures r.ips == ips && r.completions == [if ec4 == OK || ec6 == OK then OK else ec4]
    ensures ec4 == OK || ec6 == OK ==>
              r.ipsResolved <= ips.Length && ips[..r.ipsResolved] == Merged(v4, v6, ips.Length)
    ensures ec4 != OK && ec6 != OK ==> r.ipsResolved == count && ips[..] == old(ips[..])
  {
    hide Merged;
    r := new MultiResolver(ips, count);
    if v4First {
      r.ResolvedV4(ec4, v4);
      r.ResolvedV6(ec6, v6);
    } else {
      r.ResolvedV6(ec6, v6);
      r.ResolvedV4(ec4, v4);
    }
  }

  // ----- The attacher's endpoints ------------------------------------------------------------------

  datatype Endpoint = Endpoint(ip: IpAddress, port: nat)

  const MAX_ENDPOINTS := 4

  /**
   * The endpoint loop of the attacher. Its guard tests an index that stays zero,
   * so whatever the number of addresses, none is held back: the loop stays inside
   * the array exactly when that has room for all of them.
   */
  method CollectEndpoints(ips: seq<IpAddress>, port: nat, endpoints: array<Endpoint>)
    returns (inside: bool, size: nat)
    modifies endpoints
    ensures inside <==> |ips| <= endpoints.Length
    ensures inside ==> size == |ips| && endpoints[size..] == old(endpoints[size..])
    ensures inside ==> forall k :: 0 <= k < size ==> endpoints[k] == Endpoint(ips[k], port)
  {
    var endpointsIndex := 0;
    size := 0;
    for i := 0 to |ips|
      invariant size == i <= endpoints.Length
      invariant forall k :: 0 <= k < i ==> endpoints[k] == Endpoint(ips[k], port)
      invariant endpoints[i..] == old(endpoints[i..])
    {
      if endpointsIndex < MAX_ENDPOINTS {
        if size == endpoints.Length { return false, size; }
        endpoints[size] := Endpoint(ips[i], port);
        size := size + 1;
      }
    }
    inside := true;
  }

  /**
   * dns_resolved_callback behind the resolver: the resolver was given room for
   * four addresses, and that keeps the endpoints within their array of four.
   */
  method ResolveEndpoints(ec4: ErrorCode, v4: seq<IpAddress>, ec6: ErrorCode, v6: seq<IpAddress>, v4First: bool,
                          port: nat, ips: array<IpAddress>, endpoints: array<Endpoint>) returns (size: Option<nat>)
    requires ec4 != InProgress && ec6 != InProgress && |v4| <= MAX_IPS && |v6| <= MAX_IPS
    requires ips.Length == MAX_IPS && endpoints.Length == MAX_ENDPOINTS
    modifies ips, endpoints
    ensures size.Some? <==> ec4 == OK || ec6 == OK
    ensures size.Some? ==> size.value == |Merged(v4, v6, 4)| <= 4
    ensures size.Some? ==>
              forall k :: 0 <= k < size.value ==> endpoints[k] == Endpoint(Merged(v4, v6, 4)[k], port)
  {
    hide Merged;
    var r := ResolveInEitherOrder(ec4, v4, ec6, v6, ips, 0, v4First);
    if r.completions[0] != OK { return None; }
    var inside, n := CollectEndpoints(ips[..r.ipsResolved], port, endpoints);
    size := Some(n);
  }
}
