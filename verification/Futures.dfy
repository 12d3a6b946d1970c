/**
 * Futures and the future queue (nabto_device_future.c and
 * nabto_device_future_queue.c) as atomic steps: what the application threads do
 * under a future's mutex, and what the callback thread does between its locks.
 */
module Futures {
  import opened Bytes

  /**
   * A future: `ready`, `ec` and `cb` are its fields; the rest describes the
   * operation it presently serves: the code it was resolved with, whether a
   * callback was asked for, and the codes the callback was called with.
   */
  datatype Future = Future(ready: bool, ec: int, cb: bool, resolved: Option<int>, asked: bool, calls: seq<int>)

  /** The callback thread: waiting, holding a popped future, or having taken its callback. */
  datatype Worker = Waiting | Popped(f: nat) | Taken(f: nat, cb: bool) | Exited

  datatype State = State(futures: map<nat, Future>, queue: seq<nat>, stopped: bool, worker: Worker)

  datatype Event =
    | New(f: nat)
    | Reset(f: nat)
    | SetCallback(f: nat)
    | Resolve(f: nat, ec: int)
    | Stop
    | Pop
    | Take
    | Call
    | Exit

  const FRESH := Future(false, 0, false, None, false, [])

  const INITIAL := State(map[], [], false, Waiting)

  /** A future is done when it has been resolved and the callback asked for has been called. */
  predicate Done(x: Future) {
    x.resolved.Some? && (x.asked ==> |x.calls| == 1)
  }

  /**
   * The rule of the API: a new operation starts on a future that is unused or
   * done, each operation resolves once, and a callback is not set again after that.
   */
  predicate Enabled(s: State, e: Event) {
    match e
    case New(f) => f !in s.futures
    case Reset(f) => f in s.futures && (s.futures[f] == FRESH || Done(s.futures[f]))
    case SetCallback(f) => f in s.futures && !(s.futures[f].asked && s.futures[f].ready)
    case Resolve(f, _) => f in s.futures && s.futures[f].resolved.None?
    case Stop => true
    case Pop => s.worker == Waiting && s.queue != []
    case Take => s.worker.Popped? && s.worker.f in s.futures
    case Call => s.worker.Taken? && s.worker.f in s.futures
    case Exit => s.worker == Waiting && s.queue == [] && s.stopped
  }

  function With(s: State, f: nat, x: Future): State {
    s.(futures := s.futures[f := x])
  }

  function Posted(s: State, f: nat, post: bool): State {
    if post then s.(queue := s.queue + [f]) else s
  }

  /** A callback on a future that is ready is queued at once. */
  function CallbackSet(s: State, f: nat): State
    requires f in s.futures
  {
    var x := s.futures[f];
    Posted(With(s, f, x.(cb := true, asked := true)), f, x.ready)
  }

  function Resolved(s: State, f: nat, ec: int): State
    requires f in s.futures
  {
    var x := s.futures[f];
    Posted(With(s, f, x.(ready := true, ec := ec, resolved := Some(ec))), f, x.cb)
  }

  function Step(s: State, e: Event): State
    requires Enabled(s, e)
  {
    match e
    case New(f) => With(s, f, FRESH)
    case Reset(f) => With(s, f, FRESH)
    case SetCallback(f) => CallbackSet(s, f)
    case Resolve(f, ec) => Resolved(s, f, ec)
    case Stop => s.(stopped := true)
    case Pop => s.(queue := s.queue[1..], worker := Popped(s.queue[0]))
    case Take =>
      var f := s.worker.f;
      With(s, f, s.futures[f].(cb := false)).(worker := Taken(f, s.futures[f].cb))
    case Call =>
      var f := s.worker.f;
      var x := s.futures[f];
      var t := s.(worker := Waiting);
      if s.worker.cb then With(t, f, x.(calls := x.calls + [x.ec])) else t
    case Exit => s.(worker := Exited)
  }

  function Run(es: seq<Event>): Option<State> {
    if es == [] then Some(INITIAL)
    else
      var n := |es| - 1;
      match Run(es[..n])
      case None => None
      case Some(s) => if Enabled(s, es[n]) then Some(Step(s, es[n])) else None
  }

  // ----- Every callback is accounted for ---------------------------------------------------------

  predicate Holds(w: Worker, f: nat) {
    (w.Popped? || w.Taken?) && w.f == f
  }

  /** Calls that are owed or made for `f`: in the queue, with the callback thread, or done. */
  function Account(s: State, f: nat): nat
    requires f in s.futures
  {
    multiset(s.queue)[f] + (if Holds(s.worker, f) then 1 else 0) + |s.futures[f].calls|
  }

  /** One future: its fields mirror its operation, and its one callback is owed or made once both sides are in. */
  predicate FutureInv(s: State, f: nat)
    requires f in s.futures
  {
    var x := s.futures[f];
    && (x.ready <==> x.resolved.Some?)
    && (x.ready ==> x.ec == x.resolved.value)
    && Account(s, f) == (if x.asked && x.ready then 1 else 0)
    && (x.cb <==> x.asked && x.calls == [] && !(s.worker.Taken? && s.worker.f == f))
    && (s.worker.Taken? && s.worker.f == f ==> s.worker.cb)
    && (x.calls == [] || x.calls == [x.ec])
  }

  ghost predicate Inv(s: State) {
    && (forall f :: f in s.futures ==> FutureInv(s, f))
    && (forall f :: f in s.queue ==> f in s.futures)
    && (s.worker.Popped? || s.worker.Taken? ==> s.worker.f in s.futures)
  }

  lemma Appended(queue: seq<nat>, f: nat)
    ensures forall g :: multiset(queue + [f])[g] == multiset(queue)[g] + if g == f then 1 else 0
  {
  }

  lemma Front(queue: seq<nat>)
    requires queue != []
    ensures forall g :: multiset(queue)[g] == multiset(queue[1..])[g] + if g == queue[0] then 1 else 0
  {
    assert queue == [queue[0]] + queue[1..];
  }

  lemma StartKeepsFuture(s: State, e: Event, g: nat)
    requires Inv(s) && Enabled(s, e) && (e.New? || e.Reset? || e.Stop?) && g in Step(s, e).futures
    ensures FutureInv(Step(s, e), g)
  {
    assert g !in s.queue ==> multiset(s.queue)[g] == 0;
  }

  lemma ApplicationKeepsFuture(s: State, e: Event, g: nat)
    requires Inv(s) && Enabled(s, e) && (e.SetCallback? || e.Resolve?) && g in Step(s, e).futures
    ensures FutureInv(Step(s, e), g)
  {
    Appended(s.queue, e.f);
    assert FutureInv(s, e.f) && FutureInv(s, g);
  }

  lemma ThreadKeepsFuture(s: State, e: Event, g: nat)
    requires Inv(s) && Enabled(s, e) && (e.Pop? || e.Take? || e.Call? || e.Exit?) && g in Step(s, e).futures
    ensures FutureInv(Step(s, e), g)
  {
    if e.Pop? { Front(s.queue); }
    assert FutureInv(s, g);
  }

  lemma InvStep(s: State, e: Event)
    requires Inv(s) && Enabled(s, e)
    ensures Inv(Step(s, e))
  {
    hide FutureInv;
    forall g | g in Step(s, e).futures ensures FutureInv(Step(s, e), g) {
      match e
      case New(_) | Reset(_) | Stop => StartKeepsFuture(s, e, g);
      case SetCallback(_) | Resolve(_, _) => ApplicationKeepsFuture(s, e, g);
      case Pop | Take | Call | Exit => ThreadKeepsFuture(s, e, g);
    }
  }

  lemma {:induction false} RunsAccount(es: seq<Event>)
    requires Run(es).Some?
    ensures Inv(Run(es).value)
  {
    if es != [] {
      RunsAccount(es[..|es| - 1]);
      InvStep(Run(es[..|es| - 1]).value, es[|es| - 1]);
    }
  }

  /** In every interleaving the callback runs at most once per operation, with its code, and f is queued once. */
  lemma CallbackAtMostOnce(es: seq<Event>, f: nat)
    requires Run(es).Some? && f in Run(es).value.futures
    ensures var s := Run(es).value;
            var x := s.futures[f];
            && |x.calls| <= 1 && multiset(s.queue)[f] <= 1
            && (x.calls != [] ==> x.resolved.Some? && x.calls == [x.resolved.value])
  {
    RunsAccount(es);
  }

  /** When the stopped thread exits, every operation that was resolved and asked for a callback has had it. */
  lemma NothingLostAtExit(es: seq<Event>, f: nat)
    requires Run(es).Some? && Enabled(Run(es).value, Exit) && f in Run(es).value.futures
    ensures var x := Run(es).value.futures[f];
            x.resolved.Some? && x.asked ==> x.calls == [x.resolved.value]
  {
    RunsAccount(es);
    assert multiset(Run(es).value.queue)[f] == 0;
  }

  /** Work left for the callback thread: three steps for each queued future. */
  function Backlog(s: State): nat {
    3 * |s.queue| + if s.worker.Popped? then 2 else if s.worker.Taken? then 1 else 0
  }

  /** While a call is owed the callback thread has a step to take, and each of its steps shortens the backlog. */
  lemma CallsAreMade(es: seq<Event>, f: nat)
    requires Run(es).Some? && Run(es).value.worker != Exited && f in Run(es).value.futures
    ensures var s := Run(es).value;
            var x := s.futures[f];
            && (x.asked && x.resolved.Some? && x.calls == [] ==>
                  Enabled(s, Pop) || Enabled(s, Take) || Enabled(s, Call))
            && (Enabled(s, Pop) ==> Backlog(Step(s, Pop)) < Backlog(s))
            && (Enabled(s, Take) ==> Backlog(Step(s, Take)) < Backlog(s))
            && (Enabled(s, Call) ==> Backlog(Step(s, Call)) < Backlog(s))
  {
    RunsAccount(es);
    assert multiset(Run(es).value.queue)[f] > 0 ==> Run(es).value.queue != [];
  }

  // ----- The order of the callbacks -------------------------------------------------------------------

  /** No operation on `f` has been started after event `i`. */
  predicate SameOperation(es: seq<Event>, i: nat, f: nat) {
    forall j :: i < j < |es| ==> es[j] != New(f) && es[j] != Reset(f)
  }

  /** Event `i` asks for a callback of the operation that `f` serves. */
  predicate AskedAt(es: seq<Event>, i: nat, f: nat) {
    i < |es| && es[i] == SetCallback(f) && SameOperation(es, i, f)
  }

  predicate ResolvedAt(es: seq<Event>, i: nat, f: nat, ec: int) {
    i < |es| && es[i] == Resolve(f, ec) && SameOperation(es, i, f)
  }

  ghost predicate Asked(es: seq<Event>, f: nat) {
    exists i: nat :: AskedAt(es, i, f)
  }

  ghost predicate ResolvedWith(es: seq<Event>, f: nat, ec: int) {
    exists i: nat :: ResolvedAt(es, i, f, ec)
  }

  ghost predicate IsResolved(es: seq<Event>, f: nat) {
    exists ec :: ResolvedWith(es, f, ec)
  }

  /** The futures whose callbacks became due: asked for and resolved, in the order the later of the two came in. */
  ghost function Due(es: seq<Event>): seq<nat> {
    if es == [] then []
    else
      var before := es[..|es| - 1];
      match es[|es| - 1]
      case SetCallback(f) => Due(before) + if IsResolved(before, f) then [f] else []
      case Resolve(f, _) => Due(before) + if Asked(before, f) then [f] else []
      case _ => Due(before)
  }

  /** How many callbacks have been made. */
  function Calls(es: seq<Event>): nat {
    if es == [] then 0 else Calls(es[..|es| - 1]) + if es[|es| - 1] == Call then 1 else 0
  }

  lemma SameGrows(es: seq<Event>, e: Event, i: nat, f: nat)
    requires i < |es|
    ensures SameOperation(es + [e], i, f) <==> SameOperation(es, i, f) && e != New(f) && e != Reset(f)
  {
    var all := es + [e];
    assert all[|es|] == e;
    assert forall j :: 0 <= j < |es| ==> all[j] == es[j];
  }

  lemma AskedGrows(es: seq<Event>, e: Event, f: nat)
    ensures Asked(es + [e], f) <==> e == SetCallback(f) || (Asked(es, f) && e != New(f) && e != Reset(f))
  {
    var all, n := es + [e], |es|;
    forall i: nat | i < n ensures AskedAt(all, i, f) <==> AskedAt(es, i, f) && e != New(f) && e != Reset(f) {
      SameGrows(es, e, i, f);
    }
    assert AskedAt(all, n, f) <==> e == SetCallback(f);
  }

  lemma ResolvedGrows(es: seq<Event>, e: Event, f: nat, ec: int)
    ensures ResolvedWith(es + [e], f, ec) <==>
            e == Resolve(f, ec) || (ResolvedWith(es, f, ec) && e != New(f) && e != Reset(f))
  {
    var all, n := es + [e], |es|;
    forall i: nat | i < n
      ensures ResolvedAt(all, i, f, ec) <==> ResolvedAt(es, i, f, ec) && e != New(f) && e != Reset(f)
    {
      SameGrows(es, e, i, f);
    }
    assert ResolvedAt(all, n, f, ec) <==> e == Resolve(f, ec);
  }

  lemma OperationStep(s: State, e: Event, f: nat)
    requires Enabled(s, e) && f in Step(s, e).futures
    ensures var y := Step(s, e).futures[f];
            if f !in s.futures then e == New(f) && !y.asked && y.resolved.None?
            else
              var x := s.futures[f];
              && (y.asked <==> e == SetCallback(f) || (x.asked && e != New(f) && e != Reset(f)))
              && (y.resolved == if e.Resolve? && e.f == f then Some(e.ec)
                                else if e == Reset(f) then None else x.resolved)
  {
  }

  /** In every run a future knows exactly what was asked of and reported to its operation. */
  lemma {:induction false} OperationIs(es: seq<Event>, f: nat, ec: int)
    requires Run(es).Some?
    ensures f in Run(es).value.futures ==>
              var x := Run(es).value.futures[f];
              (x.asked <==> Asked(es, f)) && (x.resolved == Some(ec) <==> ResolvedWith(es, f, ec))
    ensures f !in Run(es).value.futures ==> !Asked(es, f) && !ResolvedWith(es, f, ec)
  {
    hide Step;
    hide Asked;
    hide ResolvedWith;
    if es == [] {
      NothingYet(f, ec);
    } else {
      var n := |es| - 1;
      assert es == es[..n] + [es[n]];
      var s := Run(es[..n]).value;
      OperationIs(es[..n], f, ec);
      AskedGrows(es[..n], es[n], f);
      ResolvedGrows(es[..n], es[n], f, ec);
      FuturesStay(s, es[n]);
      if f in Step(s, es[n]).futures {
        OperationStep(s, es[n], f);
      }
    }
  }

  lemma NothingYet(f: nat, ec: int)
    ensures !Asked([], f) && !ResolvedWith([], f, ec)
  {
  }

  function Held(w: Worker): seq<nat> {
    if w.Popped? || w.Taken? then [w.f] else []
  }

  /** What became due and has not been called is with the callback thread or queued, in that order. */
  ghost predicate Ordered(s: State, es: seq<Event>) {
    Calls(es) <= |Due(es)| && Due(es)[Calls(es)..] == Held(s.worker) + s.queue
  }

  lemma DueGrows(es: seq<Event>, e: Event)
    ensures Due(es + [e]) == Due(es) + if e.SetCallback? && IsResolved(es, e.f) then [e.f]
                                       else if e.Resolve? && Asked(es, e.f) then [e.f] else []
    ensures Calls(es + [e]) == Calls(es) + if e == Call then 1 else 0
  {
    hide IsResolved;
    hide Asked;
    assert (es + [e])[..|es|] == es;
  }

  lemma OrderStep(s: State, es: seq<Event>, e: Event)
    requires Inv(s) && Enabled(s, e) && Ordered(s, es)
    requires e.SetCallback? ==> (s.futures[e.f].resolved.Some? <==> IsResolved(es, e.f))
    requires e.Resolve? ==> (s.futures[e.f].asked <==> Asked(es, e.f))
    ensures Ordered(Step(s, e), es + [e])
  {
    hide Due;
    hide Calls;
    hide IsResolved;
    hide Asked;
    DueGrows(es, e);
    if e.SetCallback? || e.Resolve? {
      hide Step;
      hide Inv;
      hide Enabled;
      PostedWhenDue(s, e);
      LongerTail(Due(es), Due(es + [e])[|Due(es)|..], Calls(es));
    } else {
      hide Inv;
      ThreadTakesFront(s, e);
      if e.Call? { assert Due(es)[Calls(es) + 1..] == Due(es)[Calls(es)..][1..]; }
    }
  }

  lemma LongerTail(a: seq<nat>, b: seq<nat>, c: nat)
    requires c <= |a|
    ensures (a + b)[c..] == a[c..] + b
  {
  }

  /** What the callback thread holds and the queue behind it lose their front when a call is made, and only then. */
  lemma ThreadTakesFront(s: State, e: Event)
    requires Enabled(s, e) && !e.SetCallback? && !e.Resolve?
    ensures var pending, left := Held(s.worker) + s.queue, Held(Step(s, e).worker) + Step(s, e).queue;
            if e.Call? then pending != [] && left == pending[1..] else left == pending
  {
  }

  lemma PostedWhenDue(s: State, e: Event)
    requires Inv(s) && Enabled(s, e) && (e.SetCallback? || e.Resolve?)
    ensures var due := if e.SetCallback? then s.futures[e.f].resolved.Some? else s.futures[e.f].asked;
            Step(s, e).worker == s.worker && Step(s, e).queue == s.queue + if due then [e.f] else []
  {
    assert FutureInv(s, e.f);
  }

  lemma {:induction false} RunsAreOrdered(es: seq<Event>)
    requires Run(es).Some?
    ensures Ordered(Run(es).value, es)
  {
    hide Step;
    hide IsResolved;
    hide Asked;
    if es == [] {
      assert Ordered(INITIAL, []);
    } else {
      hide Ordered;
      hide Inv;
      var n := |es| - 1;
      assert es == es[..n] + [es[n]];
      RunsAreOrdered(es[..n]);
      RunsAccount(es[..n]);
      OperationKnown(es[..n], es[n]);
      OrderStep(Run(es[..n]).value, es[..n], es[n]);
    }
  }

  lemma OperationKnown(es: seq<Event>, e: Event)
    requires Run(es).Some? && Enabled(Run(es).value, e)
    ensures var s := Run(es).value;
            && (e.SetCallback? ==> (s.futures[e.f].resolved.Some? <==> IsResolved(es, e.f)))
            && (e.Resolve? ==> (s.futures[e.f].asked <==> Asked(es, e.f)))
  {
    hide Run;
    hide Asked;
    hide ResolvedWith;
    var s := Run(es).value;
    if e.Resolve? {
      OperationIs(es, e.f, 0);
    } else if e.SetCallback? {
      forall ec ensures s.futures[e.f].resolved == Some(ec) <==> ResolvedWith(es, e.f, ec) {
        OperationIs(es, e.f, ec);
      }
      if s.futures[e.f].resolved.Some? {
        assert ResolvedWith(es, e.f, s.futures[e.f].resolved.value);
      }
    }
  }

  /**
   * In every interleaving the callbacks are made in the order in which they became
   * due: the next one to be made is that of the future at the place given by the
   * number made so far, with the code its operation was resolved with.
   */
  lemma CalledInOrder(es: seq<Event>)
    requires Run(es + [Call]).Some?
    ensures Run(es).Some? && Calls(es) < |Due(es)|
    ensures var f := Due(es)[Calls(es)];
            var s, t := Run(es).value, Run(es + [Call]).value;
            && f in s.futures && s.futures[f].calls == []
            && exists ec :: ResolvedWith(es, f, ec) && t.futures == s.futures[f := s.futures[f].(calls := [ec])]
  {
    hide Due;
    hide Calls;
    hide ResolvedWith;
    hide Ordered;
    hide Step;
    hide Inv;
    assert (es + [Call])[..|es|] == es;
    RunSnoc(es, Call);
    RunsAccount(es);
    NextToCall(es);
    var ec := CallMade(Run(es).value);
    OperationIs(es, Due(es)[Calls(es)], ec);
  }

  lemma CallMade(s: State) returns (ec: int)
    requires Inv(s) && Enabled(s, Call)
    ensures var x := s.futures[s.worker.f];
            && x.calls == [] && x.resolved == Some(ec)
            && Step(s, Call).futures == s.futures[s.worker.f := x.(calls := [ec])]
  {
    var x := s.futures[s.worker.f];
    assert FutureInv(s, s.worker.f);
    ec := x.ec;
    assert x.calls + [ec] == [ec];
  }

  /** A callback is made only for a future whose callback is due. */
  lemma NextToCall(es: seq<Event>)
    requires Run(es).Some? && Enabled(Run(es).value, Call)
    ensures Calls(es) < |Due(es)| && Run(es).value.worker.f == Due(es)[Calls(es)]
  {
    hide Due;
    hide Calls;
    hide Run;
    RunsAreOrdered(es);
    assert Due(es)[Calls(es)..][0] == Run(es).value.worker.f;
  }

  lemma {:induction false} StoppedIff(es: seq<Event>)
    requires Run(es).Some?
    ensures Run(es).value.stopped <==> Stop in es
    ensures Run(es).value.worker == Exited <==> Exit in es
  {
    if es != [] {
      var n := |es| - 1;
      assert es == es[..n] + [es[n]];
      StoppedIff(es[..n]);
    }
  }

  /** The callback thread may exit exactly when it was told to stop and has made every callback that became due. */
  lemma ExitIff(es: seq<Event>)
    requires Run(es).Some?
    ensures Run(es + [Exit]).Some? <==> Stop in es && Exit !in es && Calls(es) == |Due(es)|
  {
    hide Due;
    hide Calls;
    hide Step;
    RunSnoc(es, Exit);
    StoppedIff(es);
    RunsAreOrdered(es);
    assert |Due(es)[Calls(es)..]| == |Due(es)| - Calls(es);
  }

  // ----- Why polling is not enough to reuse a future with a callback --------------------------------

  /** The state after `es` from `s` on, or None when the rule forbids it. */
  function RunFrom(s: State, es: seq<Event>): Option<State>
    decreases |es|
  {
    if es == [] then Some(s)
    else if Enabled(s, es[0]) then RunFrom(Step(s, es[0]), es[1..])
    else None
  }

  /** What an operation is promised: its callback has not run, or has run once with the code it was resolved with. */
  predicate Promise(s: State, f: nat) {
    && f in s.futures
    && var x := s.futures[f];
       x.calls == [] || (x.resolved.Some? && x.calls == [x.resolved.value])
  }

  /** Whatever happens from `s` on, the promise to the operations on `f` is kept. */
  ghost predicate SafeFrom(s: State, f: nat) {
    forall es :: RunFrom(s, es).Some? ==> Promise(RunFrom(s, es).value, f)
  }

  lemma {:induction false} InvFrom(s: State, es: seq<Event>, f: nat)
    requires Inv(s) && RunFrom(s, es).Some? && f in s.futures
    ensures Promise(RunFrom(s, es).value, f)
    decreases |es|
  {
    hide Step;
    hide Enabled;
    if es == [] {
      assert FutureInv(s, f);
    } else {
      InvStep(s, es[0]);
      FuturesStay(s, es[0]);
      InvFrom(Step(s, es[0]), es[1..], f);
    }
  }

  lemma FuturesStay(s: State, e: Event)
    requires Enabled(s, e)
    ensures s.futures.Keys <= Step(s, e).futures.Keys
  {
  }

  /** After the callback thread has exited nothing is called any more. */
  lemma {:induction false} SilentFrom(s: State, es: seq<Event>, f: nat)
    requires s.worker == Exited && f in s.futures && s.futures[f].calls == [] && RunFrom(s, es).Some?
    ensures Promise(RunFrom(s, es).value, f)
    decreases |es|
  {
    if es != [] { SilentFrom(Step(s, es[0]), es[1..], f); }
  }

  lemma {:induction false} RunFromConcat(s: State, a: seq<Event>, b: seq<Event>)
    requires RunFrom(s, a).Some?
    ensures RunFrom(s, a + b) == RunFrom(RunFrom(s, a).value, b)
    decreases |a|
  {
    hide Step;
    hide Enabled;
    if a == [] {
      assert a + b == b;
    } else {
      RunFromConcat(Step(s, a[0]), a[1..], b);
      assert (a + b)[1..] == a[1..] + b;
    }
  }

  /** The callback thread can work its way to a queued future that was reset behind its back. */
  lemma {:induction false} DrainTo(s: State, f: nat) returns (es: seq<Event>)
    requires f in s.futures && s.futures[f] == FRESH && s.worker != Exited
    requires f in s.queue && !(s.worker.Taken? && s.worker.f == f)
    requires forall g :: g in s.queue ==> g in s.futures
    requires s.worker.Popped? || s.worker.Taken? ==> s.worker.f in s.futures && s.worker.f != f
    ensures RunFrom(s, es).Some?
    ensures var t := RunFrom(s, es).value; t.worker == Popped(f) && f in t.futures && t.futures[f] == FRESH
    decreases Backlog(s)
  {
    var e := if s.worker.Popped? then Take else if s.worker.Taken? then Call else Pop;
    var t := Step(s, e);
    if t.worker == Popped(f) {
      es := [e];
      assert RunFrom(t, []) == Some(t);
    } else {
      var rest := DrainTo(t, f);
      es := [e] + rest;
      assert es[1..] == rest;
    }
  }

  /** A popped future that was reset takes the callback of its next operation and calls it before it is resolved. */
  lemma CalledTooEarly(s: State, f: nat) returns (es: seq<Event>)
    requires s.worker == Popped(f) && f in s.futures && s.futures[f] == FRESH
    ensures RunFrom(s, es).Some? && !Promise(RunFrom(s, es).value, f)
  {
    es := [SetCallback(f), Take, Call];
    var t := Step(s, SetCallback(f));
    var u := Step(t, Take);
    var v := Step(u, Call);
    assert es[1..] == [Take, Call] && [Take, Call][1..] == [Call] && [Call][1..] == [];
    assert RunFrom(u, [Call]) == RunFrom(v, []) == Some(v);
    assert RunFrom(t, [Take, Call]) == RunFrom(u, [Call]);
  }

  lemma OwedCallBreaksPromise(s: State, f: nat) returns (es: seq<Event>)
    requires Inv(s) && f in s.futures && s.futures[f].ready && !Done(s.futures[f]) && s.worker != Exited
    ensures var t := With(s, f, FRESH); RunFrom(t, es).Some? && !Promise(RunFrom(t, es).value, f)
  {
    var t := With(s, f, FRESH);
    assert FutureInv(s, f);
    if s.worker.Taken? && s.worker.f == f {
      es := [Call];
      assert RunFrom(Step(t, Call), []) == Some(Step(t, Call)) && es[1..] == [];
    } else if s.worker == Popped(f) {
      es := CalledTooEarly(t, f);
    } else {
      assert multiset(s.queue)[f] == 1;
      var first := DrainTo(t, f);
      var second := CalledTooEarly(RunFrom(t, first).value, f);
      RunFromConcat(t, first, second);
      es := first + second;
    }
  }

  /**
   * Starting a new operation on a resolved future is safe, whatever happens
   * then, exactly when no callback of it is still owed or nobody is left to call it.
   */
  lemma ReuseIff(es: seq<Event>, f: nat)
    requires Run(es).Some? && f in Run(es).value.futures && Run(es).value.futures[f].resolved.Some?
    ensures var s := Run(es).value;
            SafeFrom(With(s, f, FRESH), f) <==> Done(s.futures[f]) || s.worker == Exited
  {
    hide Run;
    hide Step;
    hide RunFrom;
    hide Promise;
    RunsAccount(es);
    var s := Run(es).value;
    var t := With(s, f, FRESH);
    assert FutureInv(s, f);
    if s.worker == Exited {
      forall more | RunFrom(t, more).Some? ensures Promise(RunFrom(t, more).value, f) {
        SilentFrom(t, more, f);
      }
    } else if Done(s.futures[f]) {
      ResetKeeps(s, f);
      forall more | RunFrom(t, more).Some? ensures Promise(RunFrom(t, more).value, f) {
        InvFrom(t, more, f);
      }
    } else {
      var more := OwedCallBreaksPromise(s, f);
    }
  }

  lemma ResetKeeps(s: State, f: nat)
    requires Inv(s) && f in s.futures && Done(s.futures[f])
    ensures Inv(With(s, f, FRESH))
  {
    hide Inv;
    InvStep(s, Reset(f));
  }

  const POLLED := [New(0), Reset(0), SetCallback(0), Resolve(0, 5)]

  lemma RunSnoc(es: seq<Event>, e: Event)
    requires Run(es).Some?
    ensures Run(es + [e]) == if Enabled(Run(es).value, e) then Some(Step(Run(es).value, e)) else None
  {
    assert (es + [e])[..|es|] == es;
  }

  /**
   * A future that polls as resolved may still be queued: an operation started on
   * it then loses the callback, which the thread pops and finds gone.
   */
  lemma PolledReuseLosesCallback()
    ensures Run(POLLED).Some?
    ensures var s := Run(POLLED).value;
            && 0 in s.futures && s.futures[0].ready && !Done(s.futures[0])
            && var t := With(s, 0, FRESH);
            && Enabled(t, Pop) && Enabled(Step(t, Pop), Take)
            && Step(Step(t, Pop), Take).worker == Taken(0, false)
  {
    RunSnoc([], POLLED[0]);
    assert [] + [POLLED[0]] == POLLED[..1];
    RunSnoc(POLLED[..1], POLLED[1]);
    assert POLLED[..1] + [POLLED[1]] == POLLED[..2];
    RunSnoc(POLLED[..2], POLLED[2]);
    assert POLLED[..2] + [POLLED[2]] == POLLED[..3];
    RunSnoc(POLLED[..3], POLLED[3]);
    assert POLLED[..3] + [POLLED[3]] == POLLED;
  }

  // ----- The code ------------------------------------------------------------------------------------

  class FutureSystem {
    var futures: map<nat, Future>
    var queue: seq<nat>
    var stopped: bool
    var worker: Worker

    ghost function View(): State
      reads this
    {
      State(futures, queue, stopped, worker)
    }

    constructor ()
      ensures View() == INITIAL
    {
      futures, queue, stopped, worker := map[], [], false, Waiting;
    }

    /** nabto_device_future_reset */
    method Reset(f: nat)
      requires f in futures
      modifies this`futures
      ensures View() == With(old(View()), f, FRESH)
    {
      futures := futures[f := Future(false, 0, false, None, false, [])];
    }

    method SetCallback(f: nat)
      requires f in futures
      modifies this`futures, this`queue
      ensures View() == CallbackSet(old(View()), f)
    {
      futures := futures[f := futures[f].(cb := true, asked := true)];
      if futures[f].ready {
        Post(f);
      }
    }

    method Resolve(f: nat, ec: int)
      requires f in futures
      modifies this`futures, this`queue
      ensures View() == Resolved(old(View()), f, ec)
    {
      futures := futures[f := futures[f].(ec := ec, ready := true, resolved := Some(ec))];
      if futures[f].cb {
        Post(f);
      }
    }

    /** nabto_device_future_error_code: the polled state of a future. */
    method ErrorCode(f: nat) returns (ec: Option<int>)
      requires f in futures && FutureInv(View(), f)
      ensures ec == futures[f].resolved
    {
      if !futures[f].ready { return None; }
      return Some(futures[f].ec);
    }

    method Post(f: nat)
      modifies this`queue
      ensures queue == old(queue) + [f]
    {
      queue := queue + [f];
    }

    method Stop()
      modifies this`stopped
      ensures View() == Step(old(View()), Event.Stop)
    {
      stopped := true;
    }

    /** One round of execution_thread under the queue's mutex; false means that it goes to sleep. */
    method PopRound() returns (moved: bool)
      requires worker == Waiting
      modifies this`queue, this`worker
      ensures moved <==> old(queue) != [] || stopped
      ensures View() == if old(queue) != [] then Step(old(View()), Pop)
                        else if stopped then Step(old(View()), Exit)
                        else old(View())
    {
      if queue != [] {
        var f := queue[0];
        queue := queue[1..];
        worker := Popped(f);
        return true;
      } else if stopped {
        worker := Exited;
        return true;
      } else {
        return false;
      }
    }

    /** nabto_device_future_popped, up to the unlock. */
    method TakeCallback()
      requires Enabled(View(), Take)
      modifies this`futures, this`worker
      ensures View() == Step(old(View()), Take)
    {
      var f := worker.f;
      var cb := futures[f].cb;
      futures := futures[f := futures[f].(cb := false)];
      worker := Taken(f, cb);
    }

    /** nabto_device_future_popped, after the unlock: the code is read when the callback is called. */
    method CallCallback()
      requires Enabled(View(), Call)
      modifies this`futures, this`worker
      ensures View() == Step(old(View()), Call)
    {
      var f := worker.f;
      if worker.cb {
        futures := futures[f := futures[f].(calls := futures[f].calls + [futures[f].ec])];
      }
      worker := Waiting;
    }

    method New(f: nat)
      requires Enabled(View(), Event.New(f))
      modifies this`futures
      ensures View() == Step(old(View()), Event.New(f))
    {
      futures := futures[f := Future(false, 0, false, None, false, [])];
    }

    /** The step of each event. */
    method Deliver(e: Event)
      requires Enabled(View(), e)
      modifies this
      ensures View() == Step(old(View()), e)
    {
      match e
      case New(f) => New(f);
      case Reset(f) => Reset(f);
      case SetCallback(f) => SetCallback(f);
      case Resolve(f, ec) => Resolve(f, ec);
      case Stop => Stop();
      case Pop => var _ := PopRound();
      case Take => TakeCallback();
      case Call => CallCallback();
      case Exit => var _ := PopRound();
    }
  }

  /** The code follows every interleaving of the steps. */
  method Replay(es: seq<Event>) returns (x: FutureSystem)
    requires Run(es).Some?
    ensures fresh(x) && Run(es) == Some(x.View())
  {
    hide Step;
    hide Enabled;
    if es == [] {
      x := new FutureSystem();
    } else {
      x := Replay(es[..|es| - 1]);
      x.Deliver(es[|es| - 1]);
    }
  }
}
