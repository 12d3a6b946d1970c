/** The state diagram of the attacher: which event leads where, for every run the platform contract allows. */
module AttachDiagram {
  import opened Bytes
  import opened AttachProtocol
  import opened AttachSafety
  import opened AttachHistory
  import opened AttachTheorems

  // ----- Redirects, read off the events ----------------------------------------------------------------

  function NextRedirects(s: State, e: Event, was: nat): nat {
    if s.moduleState == Closed then was
    else if e.TimerFires? then 0
    else if e.StartReply? && e.status == StatusRedirect then was + 1
    else was
  }

  /** How many redirects came since the attacher was started or the reattach timer fired last. */
  function RedirectsSince(es: seq<Event>): nat
    requires Run(es).Some?
  {
    if es == [] then 0
    else NextRedirects(Run(es[..|es| - 1]).value, es[|es| - 1], RedirectsSince(es[..|es| - 1]))
  }

  predicate NextRedirected(s: State, e: Event, was: bool) {
    if e.StartReply? && e.status == StatusRedirect && s.moduleState != Closed then true
    else was && !e.DtlsClosed? && !e.DtlsAccessDenied?
  }

  /** The session under way was answered with a redirect. */
  predicate Redirected(es: seq<Event>)
    requires Run(es).Some?
  {
    es != [] && NextRedirected(Run(es[..|es| - 1]).value, es[|es| - 1], Redirected(es[..|es| - 1]))
  }

  lemma RedirectStep(s: State, e: Event)
    requires Enabled(s, e) && Wired(s)
    ensures Step(s, e).redirectAttempts == NextRedirects(s, e, s.redirectAttempts)
    ensures Step(s, e).state == Redirect <==> NextRedirected(s, e, s.state == Redirect)
  {
    hide Requests;
    hide Uploaded;
    hide Answered;
    hide AddedToken;
    hide EntryLog;
  }

  lemma {:induction false} RedirectsAreCounted(es: seq<Event>)
    requires Run(es).Some?
    ensures Run(es).value.redirectAttempts == RedirectsSince(es)
    ensures Run(es).value.state == Redirect <==> Redirected(es)
  {
    hide Step;
    hide Enabled;
    hide NextRedirects;
    hide NextRedirected;
    if es != [] {
      var before := es[..|es| - 1];
      RedirectsAreCounted(before);
      RunsAreSafe(before);
      RedirectStep(Run(before).value, es[|es| - 1]);
    }
  }

  /**
   * When the session of a running attacher that was redirected closes, the new
   * server is looked up if and only if fewer than five redirects came since
   * the start or the latest firing of the timer; otherwise the timer is armed.
   */
  lemma RedirectIsFollowed(es: seq<Event>)
    requires Run(es).Some? && Run(es).value.moduleState == Running && Redirected(es)
    ensures var s := Run(es).value;
            && Enabled(s, DtlsClosed)
            && var t := Step(s, DtlsClosed);
               if RedirectsSince(es) < 5 then
                 t.state == Dns && t.platform.dnsPending && !t.platform.timer && t.log == s.log + [Lookup]
               else
                 t.state == RetryWait && t.platform.timer && !t.platform.dnsPending && t.log == s.log
  {
    hide Run;
    RunsAreSafe(es);
    RedirectsAreCounted(es);
  }

  // ----- The diagram -------------------------------------------------------------------------------------

  /** Where an event takes a running attacher that has followed `redirects` redirects. */
  function NextState(state: AttachState, e: Event, redirects: nat): AttachState {
    match e
    case DnsResolved(resolved) => if resolved then DtlsAttachRequest else RetryWait
    case TimerFires => Dns
    case StartReply(status, _) => if status == StatusRedirect then Redirect else state
    case EndReply(accepted, _) => if accepted then Attached else state
    case DtlsClosed => if state == Redirect && redirects < 5 then Dns else RetryWait
    case DtlsAccessDenied => AccessDeniedWait
    case _ => state
  }

  /** What an event makes of the DTLS session of a running attacher. */
  function NextSession(s: State, e: Event): Dtls {
    match e
    case DnsResolved(resolved) => if resolved then Connecting else Idle
    case HandshakeComplete(alpn, memory) => if alpn && memory && s.start.None? then Open else Closing
    case DtlsClosed | DtlsAccessDenied => Idle
    case StartReply(status, memory) =>
      if status != StatusAttached then Ending(s.platform.dtls)
      else if s.tokens.version == s.tokens.synchronized then if memory && s.end.None? then Open else Closing
      else if memory && s.tokens.upload.None? then Open
      else Closing
    case TokensReply(acknowledged, memory) =>
      if s.tokens.upload.None? || !s.tokens.upload.value.attaching then s.platform.dtls
      else if acknowledged && memory && s.end.None? then Open
      else Ending(s.platform.dtls)
    case EndReply(accepted, _) => if accepted then Open else Ending(s.platform.dtls)
    case KeepAliveTimeout => Ending(s.platform.dtls)
    case _ => s.platform.dtls
  }

  function Ending(dtls: Dtls): Dtls {
    if dtls == Idle then Idle else Closing
  }

  /** The attach-start request goes out after a handshake with ALPN, and is gone when it is answered. */
  function NextStart(s: State, e: Event): Option<nat> {
    match e
    case HandshakeComplete(alpn, memory) =>
      if alpn && memory && s.start.None? then Some(s.platform.session) else s.start
    case StartReply(_, _) => None
    case _ => s.start
  }

  /** Attach-end goes out when the tokens are settled: there are none to upload, or the upload is acknowledged. */
  function NextEnd(s: State, e: Event): Option<nat> {
    match e
    case StartReply(status, memory) =>
      if status == StatusAttached && s.tokens.version == s.tokens.synchronized && memory && s.end.None?
      then Some(s.platform.session) else s.end
    case TokensReply(acknowledged, memory) =>
      if s.tokens.upload.Some? && s.tokens.upload.value.attaching && acknowledged && memory && s.end.None?
      then Some(s.platform.session) else s.end
    case EndReply(_, _) => None
    case _ => s.end
  }

  predicate DiagramStep(s: State, e: Event, t: State) {
    && t.moduleState == Running && t.state == NextState(s.state, e, s.redirectAttempts)
    && t.platform.dtls == NextSession(s, e) && t.start == NextStart(s, e) && t.end == NextEnd(s, e)
  }

  lemma DiagramOnRequest(s: State, e: Event)
    requires IsRequest(e) && e != AsyncClose && e != Stop && s.moduleState == Running
    ensures DiagramStep(s, e, RequestStep(s, e))
  {
    hide Uploaded;
    hide AddedToken;
  }

  lemma DiagramOnStart(s: State, e: Event)
    requires e.StartReply? && Enabled(s, e) && s.moduleState == Running
    ensures DiagramStep(s, e, ReplyStep(s, e))
  {
    hide Uploaded;
    hide TokensReplyStep;
    hide EndAcceptedStep;
  }

  lemma DiagramOnTokens(s: State, e: Event)
    requires e.TokensReply? && Enabled(s, e) && s.moduleState == Running
    ensures DiagramStep(s, e, ReplyStep(s, e))
  {
    hide Uploaded;
    hide Answered;
    hide StartAcceptedStep;
    hide EndAcceptedStep;
  }

  lemma DiagramOnEnd(s: State, e: Event)
    requires e.EndReply? && Enabled(s, e) && s.moduleState == Running
    ensures DiagramStep(s, e, ReplyStep(s, e))
  {
    hide Uploaded;
    hide EntryLog;
    hide StartAcceptedStep;
    hide TokensReplyStep;
  }

  lemma DiagramOnNetwork(s: State, e: Event)
    requires !IsRequest(e) && !IsReply(e) && Enabled(s, e) && Wired(s) && s.moduleState == Running
    ensures DiagramStep(s, e, NetworkStep(s, e))
  {
    hide Requests;
    hide Progressing;
    hide EntryLog;
  }

  /** In every run of a running attacher each event but a close leads where the diagram says. */
  lemma FollowsTheDiagram(es: seq<Event>, e: Event)
    requires Run(es).Some? && Run(es).value.moduleState == Running && Enabled(Run(es).value, e)
    requires e != AsyncClose && e != Stop
    ensures var s, t := Run(es).value, Step(Run(es).value, e);
            && t.moduleState == Running && t.state == NextState(s.state, e, RedirectsSince(es))
            && t.platform.dtls == NextSession(s, e) && t.start == NextStart(s, e) && t.end == NextEnd(s, e)
  {
    hide NextStart;
    hide NextEnd;
    hide RequestStep;
    hide ReplyStep;
    hide NetworkStep;
    hide Enabled;
    hide Run;
    hide NextState;
    hide NextSession;
    var s := Run(es).value;
    RunsAreSafe(es);
    RedirectsAreCounted(es);
    if IsRequest(e) {
      DiagramOnRequest(s, e);
    } else if IsReply(e) {
      match e
      case StartReply(_, _) => DiagramOnStart(s, e);
      case TokensReply(_, _) => DiagramOnTokens(s, e);
      case EndReply(_, _) => DiagramOnEnd(s, e);
    } else {
      DiagramOnNetwork(s, e);
    }
  }

  // ----- Closing -----------------------------------------------------------------------------------------

  /** What a close does at once: it waits for a lookup or a session, and otherwise the close event is posted. */
  lemma CloseIsTaken(es: seq<Event>, e: Event)
    requires Run(es).Some? && (e == AsyncClose || e == Stop)
    ensures var s, t := Run(es).value, Step(Run(es).value, e);
            && t.moduleState == (if s.moduleState == Setup then Setup else Closed)
            && t.closedCb == (s.closedCb || e == AsyncClose)
            && if s.moduleState == Setup then t.state == s.state && t.platform.closeEvent
               else match s.state
                 case RetryWait | AccessDeniedWait =>
                   t.state == AttacherClosed && t.platform.closeEvent && !t.platform.timer
                 case AttacherClosed => t.state == AttacherClosed && t.platform.closeEvent
                 case DtlsAttachRequest | Attached =>
                   t.state == s.state && t.platform.dtls == Ending(s.platform.dtls)
                 case Dns | Redirect => t.state == s.state && t.platform == s.platform
  {
    hide Run;
  }

  /** A closed attacher is done when what it waited for has come; the session it has is closed. */
  lemma ClosedFollowsTheDiagram(es: seq<Event>, e: Event)
    requires Run(es).Some? && Run(es).value.moduleState == Closed && Enabled(Run(es).value, e) && !IsRequest(e)
    ensures var s, t := Run(es).value, Step(Run(es).value, e);
            match e
            case DnsResolved(_) | DtlsClosed | DtlsAccessDenied | TimerFires =>
              t.state == AttacherClosed && t.platform.closeEvent
            case HandshakeComplete(_, _) => t.state == s.state && t.platform.dtls == Closing && t.start == s.start
            case StartReply(_, _) | EndReply(_, _) => t.state == s.state && t.platform.dtls == Ending(s.platform.dtls)
            case TokensReply(_, _) => t.state == s.state && t.end == s.end
  {
    hide Run;
    hide Uploaded;
  }

  /** The owner is told exactly when the close event runs while a close callback is owed. */
  lemma CloseEventTells(es: seq<Event>)
    requires Run(es).Some? && Enabled(Run(es).value, CloseEventRuns)
    ensures var s, t := Run(es).value, Step(Run(es).value, CloseEventRuns);
            && t.log == s.log + (if exists k: nat :: CloseOwedSince(es, k) then [CloseCalled] else [])
            && !t.platform.closeEvent && !t.platform.timer && t.state == s.state && t.moduleState == s.moduleState
  {
    hide Run;
    CloseOwedIff(es);
  }

  /** Event `k` asked for a close, and the close event has not run since. */
  predicate CloseOwedSince(es: seq<Event>, k: nat) {
    k < |es| && es[k] == AsyncClose && forall j :: k < j < |es| ==> es[j] != CloseEventRuns
  }

  lemma OwedStep(s: State, e: Event)
    requires Enabled(s, e)
    ensures Step(s, e).closedCb <==> e == AsyncClose || (s.closedCb && e != CloseEventRuns)
  {
    hide Uploaded;
    hide Answered;
    hide AddedToken;
    hide EntryLog;
    hide Started;
    hide Stopped;
  }

  lemma {:induction false} CloseOwedIff(es: seq<Event>)
    requires Run(es).Some?
    ensures Run(es).value.closedCb <==> exists k: nat :: CloseOwedSince(es, k)
  {
    hide Step;
    hide Enabled;
    if es != [] {
      var n := |es| - 1;
      var before := es[..n];
      EnabledLast(es);
      CloseOwedIff(before);
      OwedStep(Run(before).value, es[n]);
      forall k: nat | k < n ensures CloseOwedSince(es, k) <==> CloseOwedSince(before, k) && es[n] != CloseEventRuns {
      }
      assert CloseOwedSince(es, n) <==> es[n] == AsyncClose;
    }
  }

  // ----- The tokens ------------------------------------------------------------------------------------

  function TokensAdded(es: seq<Event>): nat {
    if es == [] then 0 else TokensAdded(es[..|es| - 1]) + if es[|es| - 1].AddToken? then 1 else 0
  }

  predicate TokensAfter(s: State, e: Event, t: State) {
    && t.tokens.version == s.tokens.version + (if e.AddToken? then 1 else 0)
    && t.tokens.local == s.tokens.local + if e.AddToken? && e.stored then {e.token} else {}
  }

  lemma TokensOnRequest(s: State, e: Event)
    requires IsRequest(e)
    ensures TokensAfter(s, e, RequestStep(s, e))
  {
    hide CloseDtls;
    hide DoClose;
    hide Enter;
  }

  lemma TokensOnReply(s: State, e: Event)
    requires IsReply(e) && Enabled(s, e)
    ensures TokensAfter(s, e, ReplyStep(s, e))
  {
    hide CloseDtls;
    hide Enter;
    hide SendEnd;
    hide Uploaded;
    hide Answered;
    UploadKeeps(s.tokens);
    if e.TokensReply? {
      AnswerKeeps(s.tokens, e.acknowledged);
      UploadKeeps(Answered(s.tokens, e.acknowledged));
    }
  }

  lemma UploadKeeps(t: Tokens)
    ensures forall attaching: bool, session: nat, memory: bool ::
              var u := Uploaded(t, attaching, session, memory); u.version == t.version && u.local == t.local
  {
  }

  lemma AnswerKeeps(t: Tokens, acknowledged: bool)
    ensures var u := Answered(t, acknowledged); u.version == t.version && u.local == t.local
  {
  }

  lemma TokensOnNetwork(s: State, e: Event)
    requires !IsRequest(e) && !IsReply(e)
    ensures TokensAfter(s, e, NetworkStep(s, e))
  {
    hide CloseDtls;
    hide Enter;
    hide DtlsClosedStep;
  }

  lemma TokenStep(s: State, e: Event)
    requires Enabled(s, e)
    ensures TokensAfter(s, e, Step(s, e))
  {
    hide RequestStep;
    hide ReplyStep;
    hide NetworkStep;
    hide TokensAfter;
    if IsRequest(e) {
      TokensOnRequest(s, e);
    } else if IsReply(e) {
      TokensOnReply(s, e);
    } else {
      TokensOnNetwork(s, e);
    }
  }

  /** In every run the version counts the tokens added, stored or not, and the local tokens are those stored. */
  lemma {:induction false} TokensAreCounted(es: seq<Event>, token: string)
    requires Run(es).Some?
    ensures Run(es).value.tokens.version == TokensAdded(es)
    ensures token in Run(es).value.tokens.local <==>
            exists i :: 0 <= i < |es| && es[i].AddToken? && es[i].token == token && es[i].stored
  {
    hide Step;
    hide Enabled;
    if es != [] {
      var n := |es| - 1;
      var before := es[..n];
      TokensAreCounted(before, token);
      EnabledLast(es);
      TokenStep(Run(before).value, es[n]);
      assert es == before + [es[n]];
    }
  }

  lemma EnabledLast(es: seq<Event>)
    requires Run(es).Some? && es != []
    ensures Run(es[..|es| - 1]).Some? && Enabled(Run(es[..|es| - 1]).value, es[|es| - 1])
  {
  }

  /** Before it is started an attacher only starts, and then begins with a lookup. */
  lemma StartsWithLookup(es: seq<Event>, e: Event)
    requires Run(es).Some? && Run(es).value.moduleState == Setup && Enabled(Run(es).value, e)
    ensures var t := Step(Run(es).value, e);
            if e == Start then t.moduleState == Running && t.state == Dns && t.platform.dnsPending
            else t.moduleState == Setup && !t.platform.dnsPending && t.platform.dtls == Idle
  {
    hide Run;
    hide Uploaded;
    hide AddedToken;
    RunsAreSafe(es);
    NothingOutstanding(es);
  }

  lemma {:induction false} NothingOutstanding(es: seq<Event>)
    requires Run(es).Some? && Run(es).value.moduleState == Setup
    ensures var s := Run(es).value; s.start.None? && s.end.None? && s.tokens.upload.None?
  {
    if es != [] {
      var before := es[..|es| - 1];
      StaysInSetup(Run(before).value, es[|es| - 1]);
      NothingOutstanding(before);
      RunsAreSafe(before);
      SetupKeeps(Run(before).value, es[|es| - 1]);
    }
  }

  lemma StaysInSetup(s: State, e: Event)
    requires Enabled(s, e) && Step(s, e).moduleState == Setup
    ensures s.moduleState == Setup
  {
    hide Uploaded;
    hide Answered;
    hide AddedToken;
  }

  lemma SetupKeeps(s: State, e: Event)
    requires Enabled(s, e) && Wired(s) && s.moduleState == Setup
    requires s.start.None? && s.end.None? && s.tokens.upload.None?
    ensures var t := Step(s, e); t.start.None? && t.end.None? && t.tokens.upload.None?
  {
    hide Uploaded;
    hide AddedToken;
  }
}
