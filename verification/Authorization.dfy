/**
 * The life of an authorization request (nabto_device_authorization.c): shared
 * by the platform that waits for a verdict and the application that gives one,
 * and freed by whichever side finishes last.
 */
module Authorization {
  import opened Bytes

  /** Who holds the request besides the platform; a listener that stops lets go of what it had queued. */
  datatype Holder = Nobody | ListenerQueue | Application | Lost

  /**
   * The flags of the request, then what has happened to it: whether the platform
   * gave it up or asked for a verdict, who holds it, the verdicts given in order,
   * the calls of the platform's callback and how often it was freed.
   */
  datatype State = State(
    apiDone: bool,
    platformDone: bool,
    verdictDone: bool,
    verdict: bool,
    verdictEvent: bool,
    discarded: bool,
    checked: bool,
    holder: Holder,
    given: seq<bool>,
    calls: seq<bool>,
    freed: nat)

  datatype Event =
    | Discard
    | CheckAccess(taken: bool)
    | Deliver
    | ListenerStops
    | Verdict(v: bool)
    | AppFree
    | VerdictEventRuns

  /** create_request */
  const CREATED := State(true, false, false, false, false, false, false, Nobody, [], [], 0)

  /**
   * The platform either discards a request or asks for access, once; the
   * application gives verdicts on a request it was handed and frees it once.
   */
  predicate Enabled(s: State, e: Event) {
    match e
    case Discard | CheckAccess(_) => !s.discarded && !s.checked
    case Deliver | ListenerStops => s.holder == ListenerQueue
    case Verdict(_) | AppFree => s.holder == Application
    case VerdictEventRuns => s.verdictEvent
  }

  function FreedIf(s: State, done: bool): (r: State)
    ensures r.holder == s.holder && r.given == s.given
  {
    if done then s.(freed := s.freed + 1) else s
  }

  /** Only the first verdict counts. */
  function DoVerdict(s: State, v: bool): (r: State)
    ensures r.holder == s.holder && r.given == s.given + [v]
  {
    if s.verdictDone then s.(given := s.given + [v])
    else s.(verdict := v, verdictDone := true, verdictEvent := true, given := s.given + [v])
  }

  function Step(s: State, e: Event): State
    requires Enabled(s, e)
  {
    match e
    case Discard => FreedIf(s.(platformDone := true, discarded := true), s.apiDone)
    case CheckAccess(taken) =>
      var t := s.(checked := true);
      if taken then t.(apiDone := false, holder := ListenerQueue) else DoVerdict(t.(apiDone := true), false)
    case Deliver => s.(holder := Application)
    case ListenerStops => s.(holder := Lost)
    case Verdict(v) => DoVerdict(s, v)
    case AppFree =>
      var t := if s.verdictDone then s else DoVerdict(s, false);
      FreedIf(t.(apiDone := true, holder := Nobody), s.platformDone)
    case VerdictEventRuns =>
      FreedIf(s.(verdictEvent := false, calls := s.calls + [s.verdict], platformDone := true), s.apiDone)
  }

  function Run(es: seq<Event>): Option<State> {
    if es == [] then Some(CREATED)
    else
      var n := |es| - 1;
      match Run(es[..n])
      case None => None
      case Some(s) => if Enabled(s, es[n]) then Some(Step(s, es[n])) else None
  }

  predicate Inv(s: State) {
    && !(s.discarded && s.checked)
    && (s.apiDone <==> s.holder == Nobody)
    && (s.holder != Nobody ==> s.checked)
    && (s.platformDone <==> s.discarded || s.calls != [])
    && s.freed == (if s.apiDone && s.platformDone then 1 else 0)
    && (s.verdictDone <==> s.given != [])
    && (s.verdictDone ==> s.verdict == s.given[0] && s.checked)
    && |s.calls| + (if s.verdictEvent then 1 else 0) == (if s.verdictDone then 1 else 0)
    && (s.calls != [] ==> s.calls == [s.verdict])
    && (s.checked && s.holder == Nobody ==> s.verdictDone)
    && (s.holder == ListenerQueue || s.holder == Lost ==> !s.verdictDone)
  }

  lemma InvStep(s: State, e: Event)
    requires Inv(s) && Enabled(s, e)
    ensures Inv(Step(s, e))
  {
  }

  lemma {:induction false} RunsKeep(es: seq<Event>)
    requires Run(es).Some?
    ensures Inv(Run(es).value)
  {
    if es != [] {
      RunsKeep(es[..|es| - 1]);
      InvStep(Run(es[..|es| - 1]).value, es[|es| - 1]);
    }
  }

  predicate AnyVerdict(es: seq<Event>) {
    exists i :: 0 <= i < |es| && es[i].Verdict?
  }

  /** The first verdict the application gives; a request without one is denied. */
  function FirstVerdict(es: seq<Event>): bool {
    if es == [] then false
    else if es[0].Verdict? then es[0].v
    else FirstVerdict(es[1..])
  }

  lemma {:induction false} FirstVerdictGrows(es: seq<Event>, e: Event)
    ensures FirstVerdict(es + [e]) == if AnyVerdict(es) || !e.Verdict? then FirstVerdict(es) else e.v
    ensures !AnyVerdict(es) ==> !FirstVerdict(es)
  {
    if es == [] {
      assert FirstVerdict([e][1..]) == false;
    } else {
      assert (es + [e])[1..] == es[1..] + [e];
      FirstVerdictGrows(es[1..], e);
      assert AnyVerdict(es) <==> es[0].Verdict? || AnyVerdict(es[1..]) by {
        if AnyVerdict(es) && !es[0].Verdict? {
          var i :| 0 <= i < |es| && es[i].Verdict?;
          assert es[1..][i - 1].Verdict?;
        }
        if AnyVerdict(es[1..]) {
          var i :| 0 <= i < |es| - 1 && es[1..][i].Verdict?;
          assert es[i + 1].Verdict?;
        }
      }
    }
  }

  lemma AnyVerdictGrows(es: seq<Event>, e: Event)
    ensures AnyVerdict(es + [e]) <==> AnyVerdict(es) || e.Verdict?
  {
    if AnyVerdict(es) {
      var i :| 0 <= i < |es| && es[i].Verdict?;
      assert (es + [e])[i].Verdict?;
    }
    assert (es + [e])[|es|] == e;
  }

  /** What the state of a request says of the events that led to it. */
  predicate Tells(s: State, es: seq<Event>) {
    && (s.discarded <==> Discard in es)
    && (s.apiDone <==> (CheckAccess(true) in es ==> AppFree in es))
    && (s.checked <==> CheckAccess(true) in es || CheckAccess(false) in es)
    && (s.calls != [] <==> VerdictEventRuns in es)
    && (s.verdictDone ==> s.verdict == FirstVerdict(es))
    && (AnyVerdict(es) ==> s.verdictDone)
    && (s.verdictDone && !AnyVerdict(es) ==> s.holder == Nobody)
    && (AppFree in es ==> s.checked && s.holder == Nobody)
  }

  lemma TellsStep(s: State, es: seq<Event>, e: Event)
    requires Inv(s) && Enabled(s, e) && Tells(s, es)
    ensures Tells(Step(s, e), es + [e])
  {
    hide FirstVerdict;
    hide AnyVerdict;
    FirstVerdictGrows(es, e);
    AnyVerdictGrows(es, e);
  }

  lemma {:induction false} RunsTell(es: seq<Event>)
    requires Run(es).Some?
    ensures Tells(Run(es).value, es)
  {
    hide Inv;
    hide Step;
    hide Enabled;
    if es == [] {
      assert Run(es) == Some(CREATED);
    } else {
      var n := |es| - 1;
      RunsTell(es[..n]);
      RunsKeep(es[..n]);
      TellsStep(Run(es[..n]).value, es[..n], es[n]);
      assert es == es[..n] + [es[n]];
    }
  }

  /**
   * The callback has run exactly when the event of the verdict has, once, with the
   * first verdict the application gave, or with no when it gave none.
   */
  lemma FirstVerdictCounts(es: seq<Event>)
    requires Run(es).Some?
    ensures Run(es).value.calls == if VerdictEventRuns in es then [FirstVerdict(es)] else []
  {
    hide Run;
    hide FirstVerdict;
    RunsKeep(es);
    RunsTell(es);
  }

  /**
   * Freed at most once: when the platform has discarded it or been called, and the
   * application, if it was handed to the listener, has freed it. Nothing that may
   * still happen touches a freed request.
   */
  lemma FreedOnce(es: seq<Event>, e: Event)
    requires Run(es).Some?
    ensures var s := Run(es).value;
            && s.freed <= 1
            && (s.freed == 1 <==>
                && (Discard in es || VerdictEventRuns in es)
                && (CheckAccess(true) in es ==> AppFree in es))
            && (Enabled(s, e) ==> s.freed == 0)
  {
    hide Run;
    hide FirstVerdict;
    hide AnyVerdict;
    RunsKeep(es);
    RunsTell(es);
  }

  /** A run after which nothing more can happen. */
  predicate Settled(s: State) {
    forall e :: e in {Discard, Deliver, AppFree, VerdictEventRuns} ==> !Enabled(s, e)
  }

  /** The listener stopped while the request was still in its queue. */
  predicate DroppedFromQueue(es: seq<Event>) {
    ListenerStops in es
  }

  lemma {:induction false} LostByStop(es: seq<Event>)
    requires Run(es).Some?
    ensures Run(es).value.holder == Lost <==> DroppedFromQueue(es)
  {
    hide Inv;
    hide Enabled;
    hide Step;
    if es != [] {
      var n := |es| - 1;
      LostByStop(es[..n]);
      assert es == es[..n] + [es[n]];
      RunsKeep(es[..n]);
      LostStays(Run(es[..n]).value, es[n]);
    }
  }

  lemma LostStays(s: State, e: Event)
    requires Inv(s) && Enabled(s, e)
    ensures Step(s, e).holder == Lost <==> s.holder == Lost || e == ListenerStops
  {
    hide FreedIf;
    hide DoVerdict;
  }

  /**
   * A run that has come to its end was discarded without a call, or got exactly
   * one call with the first verdict, and the request is freed; except when the
   * listener stopped with the request in its queue: then it is neither answered nor
   * freed.
   */
  lemma SettledIsFreed(es: seq<Event>)
    requires Run(es).Some? && Settled(Run(es).value)
    ensures var s := Run(es).value;
            && (s.freed == 1 <==> !DroppedFromQueue(es))
            && s.calls == if Discard in es || DroppedFromQueue(es) then [] else [FirstVerdict(es)]
  {
    hide Run;
    hide FirstVerdict;
    hide AnyVerdict;
    RunsKeep(es);
    RunsTell(es);
    LostByStop(es);
    var s := Run(es).value;
    assert !Enabled(s, Discard) && !Enabled(s, Deliver) && !Enabled(s, AppFree) && !Enabled(s, VerdictEventRuns);
  }

  /** A request that is queued when its listener stops comes to an end without an answer and is never freed. */
  lemma DroppedRequestIsNotFreed()
    ensures var run := Run([CheckAccess(true), ListenerStops]);
            run.Some? && Settled(run.value) && run.value.freed == 0 && run.value.calls == []
  {
    var es := [CheckAccess(true), ListenerStops];
    assert es[..1] == [CheckAccess(true)] && es[..1][..0] == [];
    assert Run([]) == Some(CREATED);
    assert Run(es[..1]) == Some(Step(CREATED, CheckAccess(true)));
  }

  lemma {:induction false} NoVerdictIsNo(es: seq<Event>)
    requires forall e :: e in es ==> !e.Verdict?
    ensures !FirstVerdict(es)
  {
    if es != [] {
      NoVerdictIsNo(es[1..]);
    }
  }

  /** Without a verdict from the application the answer is no. */
  lemma DeniedWithoutVerdict(es: seq<Event>)
    requires Run(es).Some? && (forall e :: e in es ==> !e.Verdict?)
    ensures Run(es).value.calls == [] || Run(es).value.calls == [false]
  {
    hide Run;
    FirstVerdictCounts(es);
    NoVerdictIsNo(es);
  }

  /** Each event brings the request closer to its end, except further verdicts. */
  function Rank(s: State): nat {
    (if !s.discarded && !s.checked then 4 else 0)
    + (match s.holder case Nobody | Lost => 0 case ListenerQueue => 3 case Application => 2)
    + (if s.verdictEvent then 1 else 0) + (if s.verdictDone then 0 else 1)
  }

  lemma RankFalls(es: seq<Event>, e: Event)
    requires Run(es).Some? && Enabled(Run(es).value, e)
    ensures var s := Run(es).value;
            Rank(Step(s, e)) < Rank(s) || (e.Verdict? && Rank(Step(s, e)) == Rank(s))
  {
    RunsKeep(es);
  }

  // ----- The code ---------------------------------------------------------------------------------

  class AuthorizationRequest {
    var apiDone: bool
    var platformDone: bool
    var verdictDone: bool
    var verdict: bool
    ghost var verdictEvent: bool
    ghost var discarded: bool
    ghost var checked: bool
    ghost var holder: Holder
    ghost var given: seq<bool>
    ghost var calls: seq<bool>
    ghost var freed: nat

    ghost function View(): State
      reads this
    {
      State(apiDone, platformDone, verdictDone, verdict, verdictEvent, discarded, checked, holder, given, calls, freed)
    }

    /** create_request */
    constructor ()
      ensures View() == CREATED
    {
      apiDone, platformDone, verdictDone, verdict := true, false, false, false;
      verdictEvent, discarded, checked, holder := false, false, false, Nobody;
      given, calls, freed := [], [], 0;
    }

    method Free()
      modifies this`freed
      ensures freed == old(freed) + 1
    {
      freed := freed + 1;
    }

    method DiscardRequest()
      requires Enabled(View(), Discard)
      modifies this
      ensures View() == Step(old(View()), Discard)
    {
      discarded := true;
      platformDone := true;
      if apiDone { Free(); }
    }

    /** `accepted` is whether a listener is set and takes the request. */
    method CheckAccess(accepted: bool)
      requires Enabled(View(), Event.CheckAccess(accepted))
      modifies this
      ensures View() == Step(old(View()), Event.CheckAccess(accepted))
    {
      checked := true;
      apiDone := false;
      if accepted {
        holder := ListenerQueue;
        return;
      }
      apiDone := true;
      GiveVerdict(false);
    }

    /** do_verdict, which is also nabto_device_authorization_request_verdict. */
    method GiveVerdict(v: bool)
      modifies this`verdict, this`verdictDone, this`verdictEvent, this`given
      ensures View() == DoVerdict(old(View()), v)
    {
      if !verdictDone {
        verdict := v;
        verdictDone := true;
        verdictEvent := true;
      }
      given := given + [v];
    }

    /** nabto_device_authorization_request_free */
    method RequestFree()
      requires Enabled(View(), AppFree)
      modifies this
      ensures View() == Step(old(View()), AppFree)
    {
      if !verdictDone {
        GiveVerdict(false);
      }
      apiDone := true;
      holder := Nobody;
      if platformDone { Free(); }
    }

    method HandleVerdict()
      requires Enabled(View(), VerdictEventRuns)
      modifies this
      ensures View() == Step(old(View()), VerdictEventRuns)
    {
      verdictEvent := false;
      calls := calls + [verdict];
      platformDone := true;
      if apiDone { Free(); }
    }

    /** The listener hands the request to the application. */
    method HandOver()
      requires Enabled(View(), Event.Deliver)
      modifies this`holder
      ensures View() == Step(old(View()), Event.Deliver)
    {
      holder := Application;
    }

    /** nabto_device_authorization_listener_callback does nothing with a request drained from the queue. */
    method DrainedByListener()
      requires Enabled(View(), ListenerStops)
      modifies this`holder
      ensures View() == Step(old(View()), ListenerStops)
    {
      holder := Lost;
    }

    /** The step of each event. */
    method Deliver(e: Event)
      requires Enabled(View(), e)
      modifies this
      ensures View() == Step(old(View()), e)
    {
      match e
      case Discard => DiscardRequest();
      case CheckAccess(taken) => CheckAccess(taken);
      case Deliver => HandOver();
      case ListenerStops => DrainedByListener();
      case Verdict(v) => GiveVerdict(v);
      case AppFree => RequestFree();
      case VerdictEventRuns => HandleVerdict();
    }
  }

  /** The code follows every order of verdicts, frees and events. */
  method Replay(es: seq<Event>) returns (x: AuthorizationRequest)
    requires Run(es).Some?
    ensures fresh(x) && Run(es) == Some(x.View())
  {
    hide Step;
    hide Enabled;
    if es == [] {
      x := new AuthorizationRequest();
    } else {
      x := Replay(es[..|es| - 1]);
      x.Deliver(es[|es| - 1]);
    }
  }
}
