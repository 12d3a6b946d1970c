/**
 * Listeners (nabto_device_event_handler.c): a queue of events on one side, one
 * armed future at a time on the other, and a callback that sees every event.
 */
module Listeners {
  import opened Bytes

  type Future = nat
  type Event = nat

  datatype ErrorCode = OK | INVALID_STATE | OPERATION_IN_PROGRESS | STOPPED | ABORTED | UNKNOWN | Other(code: nat)

  /** One call of the listener's callback. */
  datatype Call = Call(ec: ErrorCode, fut: Option<Future>, event: Option<Event>)

  /** A use of a listener; `answer` is what the callback returns if it is called for an event. */
  datatype Use =
    | Initialize(cb: bool)
    | Add(x: Event, answer: ErrorCode)
    | Listen(f: Future, answer: ErrorCode)
    | Error(ec: ErrorCode)
    | StopIt

  // ----- What the code does ------------------------------------------------------------------------

  /**
   * The fields of a listener, then what has happened since it was initialised
   * last: the calls of the callback and the codes futures were resolved with.
   */
  datatype State = State(
    isInitialized: bool,
    cb: bool,
    events: seq<Event>,
    fut: Option<Future>,
    ec: ErrorCode,
    calls: seq<Call>,
    resolved: seq<(Future, ErrorCode)>)

  const NEW := State(false, false, [], None, OK, [], [])

  const LAST_CALL := Call(ABORTED, None, None)

  /** An aborted listener drains its events as stopped, so ABORTED stays the last call. */
  function DrainCode(ec: ErrorCode): ErrorCode {
    if ec == ABORTED then STOPPED else ec
  }

  function Drains(code: ErrorCode, events: seq<Event>): seq<Call> {
    seq(|events|, k requires 0 <= k < |events| => Call(code, None, Some(events[k])))
  }

  /** A waiting future takes the front event; without a callback it is resolved as UNKNOWN. */
  function Paired(s: State, answer: ErrorCode): State {
    if s.fut.None? || s.events == [] then s
    else
      s.(events := s.events[1..],
         fut := None,
         calls := if s.cb then s.calls + [Call(OK, s.fut, Some(s.events[0]))] else s.calls,
         resolved := s.resolved + [(s.fut.value, if s.cb then answer else UNKNOWN)])
  }

  /** Queued events are drained, a waiting future ends with the error, and the callback is called a last time. */
  function Failed(s: State, error: ErrorCode): State {
    s.(cb := false,
       events := [],
       fut := None,
       ec := error,
       calls := if s.cb then s.calls + Drains(DrainCode(error), s.events) + [LAST_CALL] else s.calls,
       resolved := if s.fut.Some? then s.resolved + [(s.fut.value, error)] else s.resolved)
  }

  function Step(s: State, use: Use): State {
    match use
    case Initialize(cb) => State(true, cb, [], s.fut, OK, [], [])
    case Add(x, answer) =>
      if !s.isInitialized || s.ec != OK then s else Paired(s.(events := s.events + [x]), answer)
    case Listen(f, answer) =>
      if !s.isInitialized || s.ec != OK || s.fut.Some? then s else Paired(s.(fut := Some(f)), answer)
    case Error(ec) => if s.isInitialized then Failed(s, ec) else s
    case StopIt => if s.isInitialized && s.ec == OK then Failed(s, STOPPED) else s
  }

  /** What the caller is told. */
  function Code(s: State, use: Use): ErrorCode {
    match use
    case Initialize(_) => OK
    case Add(_, _) => if s.isInitialized then s.ec else INVALID_STATE
    case Listen(_, _) =>
      if !s.isInitialized then INVALID_STATE
      else if s.ec == OK && s.fut.Some? then OPERATION_IN_PROGRESS
      else s.ec
    case Error(_) => OK
    case StopIt => if !s.isInitialized then INVALID_STATE else if s.ec == OK then STOPPED else s.ec
  }

  function Run(uses: seq<Use>): State {
    if uses == [] then NEW else Step(Run(uses[..|uses| - 1]), uses[|uses| - 1])
  }

  // ----- What a run means ----------------------------------------------------------------------------

  /**
   * A run without queues: the events accepted and futures armed since the latest
   * initialisation, the answers for the pairs so far, and the error that ended it.
   */
  datatype Meaning = Meaning(
    started: bool,
    over: bool,
    withCb: bool,
    accepted: seq<Event>,
    armed: seq<Future>,
    answers: seq<ErrorCode>,
    cause: ErrorCode)

  const NOTHING := Meaning(false, false, false, [], [], [], OK)

  predicate Open(m: Meaning) {
    m.started && !m.over
  }

  /** More futures than events: the last future waits. */
  predicate Waiting(m: Meaning) {
    |m.armed| > |m.accepted|
  }

  function Answer(m: Meaning, answer: ErrorCode): ErrorCode {
    if m.withCb then answer else UNKNOWN
  }

  function Ended(m: Meaning, cause: ErrorCode): Meaning {
    if Open(m) then m.(over := true, cause := cause) else m
  }

  /** A second initialisation forgets what was queued, but a future that waits goes on waiting. */
  function Next(m: Meaning, use: Use): Meaning {
    match use
    case Initialize(cb) =>
      Meaning(true, false, cb, [], if Open(m) && Waiting(m) then [m.armed[|m.armed| - 1]] else [], [], OK)
    case Add(x, answer) =>
      if !Open(m) then m
      else m.(accepted := m.accepted + [x],
              answers := if Waiting(m) then m.answers + [Answer(m, answer)] else m.answers)
    case Listen(f, answer) =>
      if !Open(m) || Waiting(m) then m
      else m.(armed := m.armed + [f],
              answers := if |m.accepted| > |m.armed| then m.answers + [Answer(m, answer)] else m.answers)
    case Error(ec) => Ended(m, ec)
    case StopIt => Ended(m, STOPPED)
  }

  function Meant(uses: seq<Use>): Meaning {
    if uses == [] then NOTHING else Next(Meant(uses[..|uses| - 1]), uses[|uses| - 1])
  }

  /** What the callers of nabto_device_listener_set_error_code keep to: only errors are reported. */
  predicate Proper(uses: seq<Use>) {
    forall i :: 0 <= i < |uses| && uses[i].Error? ==> uses[i].ec != OK
  }

  predicate Ends(use: Use) {
    use.Initialize? || use.Error? || use.StopIt?
  }

  /** A listener is open from an initialisation to the first error or stop behind it. */
  ghost predicate OpenSince(uses: seq<Use>, i: nat) {
    i < |uses| && uses[i].Initialize? && forall j :: i < j < |uses| ==> !Ends(uses[j])
  }

  lemma {:induction false} OpenIff(uses: seq<Use>)
    ensures Open(Meant(uses)) <==> exists i: nat :: OpenSince(uses, i)
  {
    if uses != [] {
      var n := |uses| - 1;
      var before := uses[..n];
      OpenIff(before);
      if uses[n].Initialize? {
        assert OpenSince(uses, n);
      } else if Ends(uses[n]) {
        assert forall i: nat :: OpenSince(uses, i) ==> i == n;
      } else {
        forall i: nat ensures OpenSince(uses, i) <==> OpenSince(before, i) {
          if OpenSince(before, i) { assert OpenSince(uses, i); }
        }
      }
    }
  }

  // ----- The law of a listener's history -----------------------------------------------------------

  /** The k-th future was given the k-th event. */
  function Deliveries(armed: seq<Future>, accepted: seq<Event>, n: nat): seq<Call>
    requires n <= |armed| && n <= |accepted|
  {
    seq(n, k requires 0 <= k < n => Call(OK, Some(armed[k]), Some(accepted[k])))
  }

  function Zip(armed: seq<Future>, answers: seq<ErrorCode>): seq<(Future, ErrorCode)>
    requires |answers| <= |armed|
  {
    seq(|answers|, k requires 0 <= k < |answers| => (armed[k], answers[k]))
  }

  /** As many pairs as there are events and futures; at most one future is ahead of the events. */
  predicate Counted(m: Meaning) {
    && |m.answers| <= |m.accepted| && |m.answers| <= |m.armed| <= |m.answers| + 1
    && (|m.answers| == |m.accepted| || |m.answers| == |m.armed|)
    && (m.over ==> m.started && m.cause != OK)
    && (!m.started ==> m.accepted == [] && m.armed == [])
  }

  function ExpectedCalls(m: Meaning): seq<Call>
    requires Counted(m)
  {
    var d := |m.answers|;
    if !m.withCb then []
    else if !m.over then Deliveries(m.armed, m.accepted, d)
    else Deliveries(m.armed, m.accepted, d) + Drains(DrainCode(m.cause), m.accepted[d..]) + [LAST_CALL]
  }

  function ExpectedResolved(m: Meaning): seq<(Future, ErrorCode)>
    requires Counted(m)
  {
    if m.over && |m.armed| > |m.answers| then Zip(m.armed, m.answers) + [(m.armed[|m.answers|], m.cause)]
    else Zip(m.armed, m.answers)
  }

  /**
   * The listener's fields hold what is left of the run, and its calls are the
   * deliveries in order, then the drained events in order, then one ABORTED.
   */
  predicate Lawful(s: State, m: Meaning) {
    var d := |m.answers|;
    && Counted(m)
    && s.isInitialized == m.started && (s.ec == OK <==> !m.over) && s.cb == (Open(m) && m.withCb)
    && s.events == (if m.over then [] else m.accepted[d..])
    && s.fut == (if !m.over && |m.armed| > d then Some(m.armed[d]) else None)
    && s.calls == ExpectedCalls(m)
    && s.resolved == ExpectedResolved(m)
  }

  lemma LawfulInitialize(s: State, m: Meaning, cb: bool)
    requires Lawful(s, m)
    ensures Lawful(Step(s, Initialize(cb)), Next(m, Initialize(cb)))
  {
  }

  lemma LawfulAdd(s: State, m: Meaning, x: Event, answer: ErrorCode)
    requires Lawful(s, m) && Open(m)
    ensures Lawful(Step(s, Add(x, answer)), Next(m, Add(x, answer)))
  {
    hide Deliveries;
    hide Zip;
    OneMoreEvent(m.armed, m.accepted, x, |m.answers|);
    if Waiting(m) {
      LawfulPair(s, m, x, answer);
    }
  }

  /** The event meets the future that waits. */
  lemma LawfulPair(s: State, m: Meaning, x: Event, answer: ErrorCode)
    requires Lawful(s, m) && Open(m) && Waiting(m)
    ensures Lawful(Step(s, Add(x, answer)), Next(m, Add(x, answer)))
  {
    hide Deliveries;
    hide Zip;
    var d := |m.answers|;
    assert s.events == [] && s.fut == Some(m.armed[d]);
    assert s.events + [x] == [x] && [x][1..] == [];
    assert (m.accepted + [x])[d + 1..] == [] && (m.accepted + [x])[d] == x;
    OneMoreEvent(m.armed, m.accepted, x, d);
    Extended(m.armed, m.accepted + [x], m.answers, Answer(m, answer));
  }

  lemma OneMoreEvent(armed: seq<Future>, accepted: seq<Event>, x: Event, d: nat)
    requires d <= |armed| && d <= |accepted|
    ensures (accepted + [x])[d..] == accepted[d..] + [x]
    ensures Deliveries(armed, accepted + [x], d) == Deliveries(armed, accepted, d)
  {
  }

  lemma LawfulListen(s: State, m: Meaning, f: Future, answer: ErrorCode)
    requires Lawful(s, m) && Open(m) && !Waiting(m)
    ensures Lawful(Step(s, Listen(f, answer)), Next(m, Listen(f, answer)))
  {
    hide Deliveries;
    hide Zip;
    var d := |m.answers|;
    assert d == |m.armed|;
    OneMore(m.armed, f, m.accepted, m.answers);
    if |m.accepted| > d {
      Extended(m.armed + [f], m.accepted, m.answers, Answer(m, answer));
      assert m.accepted[d..][1..] == m.accepted[d + 1..];
    }
  }

  /** A future more changes nothing for the pairs there were. */
  lemma OneMore(armed: seq<Future>, f: Future, accepted: seq<Event>, answers: seq<ErrorCode>)
    requires |answers| == |armed| <= |accepted|
    ensures Deliveries(armed + [f], accepted, |armed|) == Deliveries(armed, accepted, |armed|)
    ensures Zip(armed + [f], answers) == Zip(armed, answers)
  {
  }

  /** One more pair. */
  lemma Extended(armed: seq<Future>, accepted: seq<Event>, answers: seq<ErrorCode>, answer: ErrorCode)
    requires |answers| < |armed| && |answers| < |accepted|
    ensures var d := |answers|;
            && Deliveries(armed, accepted, d + 1)
               == Deliveries(armed, accepted, d) + [Call(OK, Some(armed[d]), Some(accepted[d]))]
            && Zip(armed, answers + [answer]) == Zip(armed, answers) + [(armed[d], answer)]
  {
  }

  lemma LawfulEnd(s: State, m: Meaning, error: ErrorCode)
    requires Lawful(s, m) && m.started && error != OK
    ensures Lawful(Failed(s, error), Ended(m, error))
  {
  }

  lemma {:induction false} RunIsLawful(uses: seq<Use>)
    requires Proper(uses)
    ensures Lawful(Run(uses), Meant(uses))
  {
    hide Lawful;
    if uses == [] {
      NewIsLawful();
    } else {
      var n := |uses| - 1;
      RunIsLawful(uses[..n]);
      LawfulStep(Run(uses[..n]), Meant(uses[..n]), uses[n]);
    }
  }

  lemma NewIsLawful()
    ensures Lawful(NEW, NOTHING)
  {
  }

  lemma LawfulStep(s: State, m: Meaning, use: Use)
    requires Lawful(s, m) && (use.Error? ==> use.ec != OK)
    ensures Lawful(Step(s, use), Next(m, use))
  {
    match use
    case Initialize(cb) => LawfulInitialize(s, m, cb);
    case Add(x, answer) => if Open(m) { LawfulAdd(s, m, x, answer); }
    case Listen(f, answer) => if Open(m) && !Waiting(m) { LawfulListen(s, m, f, answer); }
    case Error(ec) => if m.started { LawfulEnd(s, m, ec); }
    case StopIt => if Open(m) { LawfulEnd(s, m, STOPPED); }
  }

  // ----- What every run keeps ------------------------------------------------------------------------

  /** An event is accepted exactly when the listener was initialised and no error or stop came after that. */
  lemma AcceptedIff(uses: seq<Use>, x: Event, answer: ErrorCode)
    requires Proper(uses)
    ensures Code(Run(uses), Add(x, answer)) == OK <==> exists i: nat :: OpenSince(uses, i)
    ensures Meant(uses + [Add(x, answer)]).accepted
         == Meant(uses).accepted + if Code(Run(uses), Add(x, answer)) == OK then [x] else []
  {
    hide Run;
    RunIsLawful(uses);
    OpenIff(uses);
    assert (uses + [Add(x, answer)])[..|uses|] == uses;
  }

  /** A future is armed exactly when the listener is open and no future waits. */
  lemma ArmedIff(uses: seq<Use>, f: Future, answer: ErrorCode)
    requires Proper(uses)
    ensures Code(Run(uses), Listen(f, answer)) == OK <==>
              (exists i: nat :: OpenSince(uses, i)) && |Meant(uses).armed| <= |Meant(uses).accepted|
    ensures Meant(uses + [Listen(f, answer)]).armed
         == Meant(uses).armed + if Code(Run(uses), Listen(f, answer)) == OK then [f] else []
  {
    hide Run;
    RunIsLawful(uses);
    OpenIff(uses);
    assert (uses + [Listen(f, answer)])[..|uses|] == uses;
  }

  /** The events among a sequence of calls. */
  function EventsOf(calls: seq<Call>): seq<Event> {
    if calls == [] then [] else EventOf(calls[0]) + EventsOf(calls[1..])
  }

  function EventOf(call: Call): seq<Event> {
    match call.event
    case Some(x) => [x]
    case None => []
  }

  lemma {:induction false} EventsOfConcat(a: seq<Call>, b: seq<Call>)
    ensures EventsOf(a + b) == EventsOf(a) + EventsOf(b)
  {
    hide EventOf;
    if a == [] {
      assert a + b == b;
    } else {
      EventsOfConcat(a[1..], b);
      assert (a + b)[0] == a[0] && (a + b)[1..] == a[1..] + b;
      var x, y, z := EventOf(a[0]), EventsOf(a[1..]), EventsOf(b);
      assert x + (y + z) == x + y + z;
    }
  }

  lemma {:induction false} EventsOfAll(calls: seq<Call>, events: seq<Event>)
    requires |calls| == |events| && (forall k :: 0 <= k < |calls| ==> calls[k].event == Some(events[k]))
    ensures EventsOf(calls) == events
  {
    if calls != [] { EventsOfAll(calls[1..], events[1..]); }
  }

  lemma NoEventLast()
    ensures EventsOf([LAST_CALL]) == []
  {
  }

  /**
   * In every run the callback has seen the accepted events in order, each once,
   * up to those still queued, and all of them once the listener has ended.
   */
  lemma EveryEventReachesTheCallback(uses: seq<Use>)
    requires Proper(uses) && Meant(uses).withCb
    ensures EventsOf(Run(uses).calls) + Run(uses).events == Meant(uses).accepted
    ensures Meant(uses).over ==> Run(uses).events == []
  {
    hide EventsOf;
    hide Run;
    hide Meant;
    hide Zip;
    RunIsLawful(uses);
    var m, calls := Meant(uses), Run(uses).calls;
    var d := |m.answers|;
    var first := Deliveries(m.armed, m.accepted, d);
    EventsOfAll(first, m.accepted[..d]);
    assert m.accepted[..d] + m.accepted[d..] == m.accepted;
    if m.over {
      var drains := Drains(DrainCode(m.cause), m.accepted[d..]);
      EventsOfAll(drains, m.accepted[d..]);
      EventsOfConcat(first, drains);
      EventsOfConcat(first + drains, [LAST_CALL]);
      NoEventLast();
      assert EventsOf(calls) == m.accepted + [] == m.accepted;
    }
  }

  /** In every run ABORTED is called exactly once, as the last call, and only when the listener has ended. */
  lemma AbortedIsLast(uses: seq<Use>)
    requires Proper(uses) && Meant(uses).withCb
    ensures Meant(uses).over ==> Run(uses).calls != []
    ensures forall k :: 0 <= k < |Run(uses).calls| ==>
              (Run(uses).calls[k].ec == ABORTED <==> Meant(uses).over && k == |Run(uses).calls| - 1)
  {
    hide Run;
    hide Meant;
    RunIsLawful(uses);
  }

  /** The k-th future of the run and what became of it. */
  predicate Served(s: State, m: Meaning, k: nat)
    requires k < |m.armed|
  {
    if k < |m.answers| then
      && k < |m.accepted| && k < |s.resolved| && s.resolved[k] == (m.armed[k], m.answers[k])
      && (m.withCb ==> k < |s.calls| && s.calls[k] == Call(OK, Some(m.armed[k]), Some(m.accepted[k])))
    else if m.over then k < |s.resolved| && s.resolved[k] == (m.armed[k], m.cause)
    else |s.resolved| <= k && s.fut == Some(m.armed[k]) && s.events == []
  }

  /**
   * In every run the k-th armed future gets the k-th accepted event and is
   * resolved once with the answer for it, or with the error that ended the
   * listener; or it still waits, and then no event is queued.
   */
  lemma KthFutureKthEvent(uses: seq<Use>, k: nat)
    requires Proper(uses) && k < |Meant(uses).armed|
    ensures Served(Run(uses), Meant(uses), k)
    ensures |Run(uses).resolved| <= |Meant(uses).armed|
  {
    hide Run;
    hide Meant;
    RunIsLawful(uses);
  }

  lemma {:induction false} CallbackIs(uses: seq<Use>, i: nat)
    requires OpenSince(uses, i)
    ensures Meant(uses).started && Meant(uses).withCb == uses[i].cb
  {
    if i < |uses| - 1 {
      assert OpenSince(uses[..|uses| - 1], i);
      CallbackIs(uses[..|uses| - 1], i);
    }
  }

  /**
   * An event that meets a waiting future, or a future that meets a queued event,
   * resolves that future at once: with what the callback answers, or with UNKNOWN
   * when the listener was initialised without one.
   */
  lemma PairIsResolved(uses: seq<Use>, i: nat, use: Use)
    requires Proper(uses) && OpenSince(uses, i)
    requires var m := Meant(uses);
             (use.Add? && |m.armed| > |m.accepted|) || (use.Listen? && |m.accepted| > |m.armed|)
    ensures var fut := if use.Add? then Meant(uses).armed[|Meant(uses).armed| - 1] else use.f;
            Run(uses + [use]).resolved == Run(uses).resolved + [(fut, if uses[i].cb then use.answer else UNKNOWN)]
  {
    hide Step;
    hide Meant;
    hide Lawful;
    RunIsLawful(uses);
    OpenIff(uses);
    CallbackIs(uses, i);
    PairStep(Run(uses), Meant(uses), use);
    assert (uses + [use])[..|uses|] == uses;
  }

  lemma PairStep(s: State, m: Meaning, use: Use)
    requires Lawful(s, m) && Open(m)
    requires (use.Add? && |m.armed| > |m.accepted|) || (use.Listen? && |m.accepted| > |m.armed|)
    ensures var fut := if use.Add? then m.armed[|m.armed| - 1] else use.f;
            Step(s, use).resolved == s.resolved + [(fut, if m.withCb then use.answer else UNKNOWN)]
  {
    hide ExpectedCalls;
    hide ExpectedResolved;
  }

  /** A second initialisation empties the queue and the history; a future that waits goes on waiting. */
  lemma Reinitialized(uses: seq<Use>, cb: bool)
    requires Proper(uses)
    ensures var s, m := Run(uses + [Initialize(cb)]), Meant(uses);
            && s.events == [] && s.calls == [] && s.resolved == []
            && s.fut == if Open(m) && |m.armed| > |m.accepted| then Some(m.armed[|m.armed| - 1]) else None
  {
    RunIsLawful(uses);
    assert (uses + [Initialize(cb)])[..|uses|] == uses;
  }

  lemma {:induction false} InitializedIff(uses: seq<Use>)
    ensures Run(uses).isInitialized <==> exists i :: 0 <= i < |uses| && uses[i].Initialize?
  {
    if uses != [] {
      var n := |uses| - 1;
      InitializedIff(uses[..n]);
      assert uses == uses[..n] + [uses[n]];
    }
  }

  /** Use `k` was the error or stop that ended the listener. */
  ghost predicate EndedBy(uses: seq<Use>, k: nat) {
    && k < |uses| && (uses[k].Error? || uses[k].StopIt?) && (exists i: nat :: OpenSince(uses[..k], i))
    && forall j :: k < j < |uses| ==> !uses[j].Initialize?
  }

  function Reason(use: Use): ErrorCode
    requires use.Error? || use.StopIt?
  {
    match use
    case Error(ec) => ec
    case StopIt => STOPPED
  }

  lemma {:induction false} CauseIs(uses: seq<Use>, k: nat)
    requires EndedBy(uses, k)
    ensures Meant(uses).over && Meant(uses).cause == Reason(uses[k])
  {
    var n := |uses| - 1;
    if k == n {
      OpenIff(uses[..n]);
    } else {
      assert uses[..n][..k] == uses[..k];
      CauseIs(uses[..n], k);
    }
  }

  /**
   * When an error or a stop ends a listener, the events that no future has taken
   * come to the callback in order with that error, or with STOPPED when it is
   * ABORTED, then the callback is told ABORTED once without an event; and a future
   * that waits is resolved with the error.
   */
  lemma EndReachesEveryone(uses: seq<Use>, k: nat, e: nat)
    requires Proper(uses) && EndedBy(uses, k)
    ensures var s, m, reason := Run(uses), Meant(uses), Reason(uses[k]);
            && (m.withCb && |m.answers| <= e < |m.accepted| ==>
                  && e < |s.calls|
                  && s.calls[e] == Call(if reason == ABORTED then STOPPED else reason, None, Some(m.accepted[e])))
            && (m.withCb ==>
                  |s.calls| == |m.accepted| + 1 && s.calls[|m.accepted|] == Call(ABORTED, None, None))
            && (|m.armed| > |m.accepted| ==>
                  |s.resolved| == |m.armed| && s.resolved[|m.accepted|] == (m.armed[|m.accepted|], reason))
  {
    hide Run;
    hide Meant;
    RunIsLawful(uses);
    CauseIs(uses, k);
  }

  /** Use `k` is the latest error of an initialised listener, or the stop of an open one with no error since. */
  ghost predicate ToldBy(uses: seq<Use>, k: nat) {
    && k < |uses| && (forall j :: k < j < |uses| ==> !uses[j].Initialize? && !uses[j].Error?)
    && (|| (uses[k].Error? && exists i :: 0 <= i < k && uses[i].Initialize?)
        || (uses[k].StopIt? && exists i: nat :: OpenSince(uses[..k], i)))
  }

  lemma ErrorStep(s: State, use: Use)
    ensures var t := Step(s, use);
            && t.isInitialized == (s.isInitialized || use.Initialize?)
            && (!use.Initialize? && !use.Error? && !use.StopIt? ==> t.ec == s.ec)
            && (use.Error? && s.isInitialized ==> t.ec == use.ec)
            && (use.StopIt? && s.isInitialized ==> t.ec == if s.ec == OK then STOPPED else s.ec)
  {
  }

  lemma {:induction false} StandingError(uses: seq<Use>, k: nat)
    requires Proper(uses) && ToldBy(uses, k)
    ensures Run(uses).isInitialized && Run(uses).ec == Reason(uses[k]) != OK
  {
    hide Step;
    hide OpenSince;
    hide Lawful;
    var n := |uses| - 1;
    var before := uses[..n];
    ErrorStep(Run(before), uses[n]);
    if k < n {
      assert before[..k] == uses[..k];
      StandingError(before, k);
    } else if uses[n].StopIt? {
      OpenIff(before);
      OpenState(before);
    } else {
      var i :| 0 <= i < n && uses[i].Initialize?;
      assert before[i].Initialize?;
      InitializedIff(before);
    }
  }

  lemma OpenState(uses: seq<Use>)
    requires Proper(uses)
    ensures Open(Meant(uses)) <==> Run(uses).isInitialized && Run(uses).ec == OK
  {
    hide Run;
    hide Meant;
    RunIsLawful(uses);
  }

  /**
   * What every caller is told: INVALID_STATE before the first initialisation, the
   * standing error once there is one, and before that OK, except that a second
   * future is told OPERATION_IN_PROGRESS and a stop STOPPED.
   */
  lemma CallersAreTold(uses: seq<Use>, use: Use)
    requires Proper(uses) && !use.Initialize? && !use.Error?
    ensures (forall i :: 0 <= i < |uses| ==> !uses[i].Initialize?) ==> Code(Run(uses), use) == INVALID_STATE
    ensures forall k: nat :: ToldBy(uses, k) ==> Code(Run(uses), use) == Reason(uses[k])
    ensures (exists i: nat :: OpenSince(uses, i)) ==>
              Code(Run(uses), use) == (if use.StopIt? then STOPPED
                                       else if use.Listen? && |Meant(uses).armed| > |Meant(uses).accepted|
                                       then OPERATION_IN_PROGRESS else OK)
  {
    hide Run;
    hide Meant;
    InitializedIff(uses);
    RunIsLawful(uses);
    OpenIff(uses);
    forall k: nat | ToldBy(uses, k) ensures Run(uses).isInitialized && Run(uses).ec == Reason(uses[k]) != OK {
      StandingError(uses, k);
    }
  }

  // ----- Reporting OK --------------------------------------------------------------------------------

  /** A future and an event are both taken after `uses`, and the event reaches no callback and no queue. */
  predicate Loses(uses: seq<Use>, f: Future, x: Event, answer: ErrorCode) {
    var s := Run(uses);
    var t := Step(s, Listen(f, answer));
    var u := Step(t, Add(x, answer));
    Code(s, Listen(f, answer)) == OK && Code(t, Add(x, answer)) == OK && u.calls == s.calls && u.events == []
  }

  /**
   * Whatever came before, reporting `ec` ends the listener if and only if it is an
   * error or the listener was never initialised; otherwise the next event is lost.
   */
  lemma ReportEndsIff(uses: seq<Use>, ec: ErrorCode, f: Future, x: Event, answer: ErrorCode)
    ensures var reported := uses + [Error(ec)];
            var initialized := exists i :: 0 <= i < |uses| && uses[i].Initialize?;
            && (Code(Run(reported), Add(x, answer)) != OK <==> ec != OK || !initialized)
            && (Loses(reported, f, x, answer) <==> ec == OK && initialized)
  {
    hide Run;
    hide Step;
    hide Code;
    InitializedIff(uses);
    Reported(uses, ec);
    LosesIff(Run(uses), ec, f, x, answer);
  }

  lemma Reported(uses: seq<Use>, ec: ErrorCode)
    ensures Run(uses + [Error(ec)]) == Step(Run(uses), Error(ec))
  {
    hide Step;
    assert (uses + [Error(ec)])[..|uses|] == uses;
  }

  lemma LosesIff(s: State, ec: ErrorCode, f: Future, x: Event, answer: ErrorCode)
    ensures var r := Step(s, Error(ec));
            var t := Step(r, Listen(f, answer));
            var u := Step(t, Add(x, answer));
            && (Code(r, Add(x, answer)) != OK <==> ec != OK || !s.isInitialized)
            && (ec == OK && s.isInitialized <==>
                  && Code(r, Listen(f, answer)) == OK && Code(t, Add(x, answer)) == OK
                  && u.calls == r.calls && u.events == [])
  {
    hide Drains;
    var r := Step(s, Error(ec));
    if s.isInitialized && ec == OK {
      assert Step(r, Listen(f, answer)) == r.(fut := Some(f));
    }
  }

  // ----- The code --------------------------------------------------------------------------------------

  class Listener {
    var isInitialized: bool
    var cb: bool
    var events: seq<Event>
    var fut: Option<Future>
    var ec: ErrorCode
    ghost var calls: seq<Call>
    ghost var resolved: seq<(Future, ErrorCode)>

    ghost function View(): State
      reads this
    {
      State(isInitialized, cb, events, fut, ec, calls, resolved)
    }

    /** nabto_device_listener_new */
    constructor ()
      ensures View() == NEW
    {
      isInitialized, cb, events, fut, ec, calls, resolved := false, false, [], None, OK, [], [];
    }

    /** nabto_device_listener_init, which may also be called again. */
    method Init(callback: bool)
      modifies this
      ensures View() == Step(old(View()), Initialize(callback))
    {
      cb, events, ec, isInitialized := callback, [], OK, true;
      calls, resolved := [], [];
    }

    method AddEvent(x: Event, answer: ErrorCode) returns (r: ErrorCode)
      modifies this
      ensures View() == Step(old(View()), Add(x, answer)) && r == Code(old(View()), Add(x, answer))
    {
      if !isInitialized { return INVALID_STATE; }
      if ec != OK { return ec; }
      events := events + [x];
      TryResolve(answer);
      return OK;
    }

    /** One future at a time can wait. */
    method InitFuture(f: Future) returns (r: ErrorCode)
      modifies this`fut
      ensures r == Code(old(View()), Listen(f, OK)) && fut == if r == OK then Some(f) else old(fut)
    {
      if !isInitialized { return INVALID_STATE; }
      if ec != OK { return ec; }
      if fut.Some? { return OPERATION_IN_PROGRESS; }
      fut := Some(f);
      return OK;
    }

    /** How the API listens for the next event: arm the future, then pair it with a queued event. */
    method Arm(f: Future, answer: ErrorCode) returns (r: ErrorCode)
      modifies this
      ensures View() == Step(old(View()), Listen(f, answer)) && r == Code(old(View()), Listen(f, answer))
    {
      r := InitFuture(f);
      if r != OK { return; }
      TryResolve(answer);
    }

    method TryResolve(answer: ErrorCode)
      modifies this
      ensures View() == Paired(old(View()), answer)
    {
      if fut.Some? && events != [] {
        var code := UNKNOWN;
        var item := events[0];
        events := events[1..];
        if cb {
          code := answer;
          calls := calls + [Call(OK, fut, Some(item))];
        }
        resolved := resolved + [(fut.value, code)];
        fut := None;
      }
    }

    method SetErrorCode(error: ErrorCode)
      modifies this
      ensures View() == Step(old(View()), Error(error))
    {
      if !isInitialized { return; }
      ec := error;
      ResolveErrorState();
    }

    /** nabto_device_listener_stop_internal */
    method Stop() returns (r: ErrorCode)
      modifies this
      ensures View() == Step(old(View()), StopIt) && r == Code(old(View()), StopIt)
    {
      if !isInitialized { return INVALID_STATE; }
      if ec == OK {
        SetErrorCode(STOPPED);
        return STOPPED;
      }
      return ec;
    }

    /** The queued events go to the callback, first one first. */
    method DrainEvents(code: ErrorCode)
      modifies this`events, this`calls
      ensures events == []
      ensures calls == if cb then old(calls) + Drains(code, old(events)) else old(calls)
    {
      ghost var queued := events;
      while events != []
        invariant |events| <= |queued| && events == queued[|queued| - |events|..]
        invariant calls == if cb then old(calls) + Drains(code, queued[..|queued| - |events|]) else old(calls)
        decreases |events|
      {
        ghost var n := |queued| - |events|;
        DrainsMore(code, queued, n);
        var item := events[0];
        events := events[1..];
        if cb {
          calls := calls + [Call(code, None, Some(item))];
        }
      }
      assert queued[..|queued|] == queued;
    }

    /** nabto_device_listener_resolve_error_state */
    method ResolveErrorState()
      modifies this
      ensures View() == Failed(old(View()), old(ec))
    {
      var code := ec;
      if ec == ABORTED {
        code := STOPPED;
      }
      DrainEvents(code);
      if fut.Some? {
        resolved := resolved + [(fut.value, ec)];
        fut := None;
      }
      if cb {
        calls := calls + [LAST_CALL];
      }
      cb := false;
    }

    method Apply(use: Use) returns (r: ErrorCode)
      modifies this
      ensures View() == Step(old(View()), use) && r == Code(old(View()), use)
    {
      hide Step;
      r := OK;
      match use
      case Initialize(callback) => Init(callback);
      case Add(x, answer) => r := AddEvent(x, answer);
      case Listen(f, answer) => r := Arm(f, answer);
      case Error(error) => SetErrorCode(error);
      case StopIt => r := Stop();
    }
  }

  lemma DrainsMore(code: ErrorCode, queued: seq<Event>, n: nat)
    requires n < |queued|
    ensures Drains(code, queued[..n + 1]) == Drains(code, queued[..n]) + [Call(code, None, Some(queued[n]))]
  {
  }

  /** The code follows every sequence of uses and answers each as the run says. */
  method Replay(uses: seq<Use>) returns (l: Listener, codes: seq<ErrorCode>)
    ensures fresh(l) && l.View() == Run(uses) && |codes| == |uses|
    ensures forall i :: 0 <= i < |uses| ==> codes[i] == Code(Run(uses[..i]), uses[i])
  {
    hide Step;
    hide Code;
    if uses == [] {
      l := new Listener();
      return l, [];
    }
    var n := |uses| - 1;
    l, codes := Replay(uses[..n]);
    var code := l.Apply(uses[n]);
    codes := codes + [code];
    forall i | 0 <= i < n ensures codes[i] == Code(Run(uses[..i]), uses[i]) {
      assert uses[..n][..i] == uses[..i];
    }
  }
}
