/**
 * The attach protocol of nc_attacher.c and nc_attacher_sct.c as a transition
 * table: what one event does to the attacher, and which events the platform
 * may deliver in which state.
 */
module AttachProtocol {
  import opened Bytes

  datatype ModuleState = Setup | Running | Closed

  datatype AttachState =
    | Dns
    | DtlsAttachRequest
    | RetryWait
    | AccessDeniedWait
    | Redirect
    | Attached
    | AttacherClosed

  /** Idle covers a context that was never connected, was reset, or has reported CLOSED. */
  datatype Dtls = Idle | Connecting | Open | Closing

  datatype AttachStatus = StatusAttached | StatusRedirect | StatusError

  /** An upload in flight: whether attaching waits for it, and the session it was sent on. */
  datatype Upload = Upload(attaching: bool, session: nat)

  /**
   * The server connect tokens. `sent` is what the latest upload carried, `acked`
   * what the latest acknowledged one carried; `failed` says that the latest
   * attempt to upload came to nothing, `refused` that a token could not be
   * stored since then.
   */
  datatype Tokens = Tokens(
    version: nat,
    uploading: nat,
    synchronized: nat,
    upload: Option<Upload>,
    local: set<string>,
    sent: set<string>,
    acked: set<string>,
    failed: bool,
    refused: bool)

  /** What a run has done so far; sessions are numbered by DTLS connects. */
  datatype Note =
    | Lookup
    | TimerFired
    | Connect
    | HandshakeDone(session: nat)
    | StartAccepted(session: nat)
    | TokensSettled(session: nat)
    | EndAccepted(session: nat)
    | AttachedEvent(session: nat)
    | DetachedEvent
    | CloseAsked
    | CloseCalled

  /** What the platform holds for the attacher. */
  datatype Platform = Platform(
    closeEvent: bool,          // posted and not yet run
    timer: bool,               // the reattach timer is armed
    dnsPending: bool,
    dtls: Dtls,
    session: nat)

  datatype State = State(
    moduleState: ModuleState,
    state: AttachState,
    redirectAttempts: nat,
    closedCb: bool,
    platform: Platform,
    start: Option<nat>,        // outstanding attach-start request, by session
    end: Option<nat>,          // outstanding attach-end request, by session
    tokens: Tokens,
    log: seq<Note>)

  /** `memory` says whether the allocations of the one request a step may make succeed. */
  datatype Event =
    | Start
    | AsyncClose
    | Stop
    | AddToken(token: string, stored: bool, memory: bool)
    | CloseEventRuns
    | DnsResolved(resolved: bool)
    | TimerFires
    | HandshakeComplete(alpn: bool, memory: bool)
    | DtlsClosed
    | DtlsAccessDenied
    | StartReply(status: AttachStatus, memory: bool)
    | TokensReply(acknowledged: bool, memory: bool)
    | EndReply(accepted: bool, memory: bool)
    | KeepAliveTimeout

  const MAX_REDIRECT_FOLLOW := 5

  const NO_TOKENS := Tokens(0, 0, 0, None, {}, {}, {}, false, false)

  const INITIAL :=
    State(Setup, Dns, 0, false, Platform(false, false, false, Idle, 0), None, None, NO_TOKENS, [])

  // ----- The platform's side of the contract ------------------------------------------

  /**
   * A request gets a real answer only on the session it was sent on, while that
   * session is open; any outstanding request may fail at any time.
   */
  predicate MayAnswer(s: State, request: Option<nat>, positive: bool) {
    request.Some? && (positive ==> s.platform.dtls == Open && request.value == s.platform.session)
  }

  function UploadSession(t: Tokens): Option<nat> {
    match t.upload
    case None => None
    case Some(u) => Some(u.session)
  }

  /** Events the platform may deliver; the event queue runs a posted close event before a later DNS answer. */
  predicate Enabled(s: State, e: Event) {
    match e
    case Start | AsyncClose | Stop | AddToken(_, _, _) | KeepAliveTimeout => true
    case CloseEventRuns => s.platform.closeEvent
    case DnsResolved(_) => s.platform.dnsPending && !s.platform.closeEvent
    case TimerFires => s.platform.timer
    case HandshakeComplete(_, _) => s.platform.dtls == Connecting
    case DtlsClosed | DtlsAccessDenied => s.platform.dtls != Idle
    case StartReply(status, _) => MayAnswer(s, s.start, status != StatusError)
    case TokensReply(acknowledged, _) => MayAnswer(s, UploadSession(s.tokens), acknowledged)
    case EndReply(accepted, _) => MayAnswer(s, s.end, accepted)
  }

  // ----- The attacher's side -----------------------------------------------------------

  function Noted(s: State, note: Note): State {
    s.(log := s.log + [note])
  }

  predicate DtlsState(state: AttachState) {
    state == DtlsAttachRequest || state == Attached || state == Redirect
  }

  predicate WaitState(state: AttachState) {
    state == RetryWait || state == AccessDeniedWait
  }

  function ClosedDtls(p: Platform): Platform {
    p.(dtls := if p.dtls == Idle then Idle else Closing)
  }

  /** Closing a context that is not connected does nothing. */
  function CloseDtls(s: State): (r: State)
    ensures r.tokens == s.tokens && r.state == s.state && r.log == s.log
  {
    s.(platform := ClosedDtls(s.platform))
  }

  /** Reaching `state` may start a lookup or a connect. */
  function EntryLog(log: seq<Note>, state: AttachState): seq<Note> {
    if state == Dns then log + [Lookup] else if state == DtlsAttachRequest then log + [Connect] else log
  }

  function Started(p: Platform, state: AttachState): Platform {
    Platform(
      p.closeEvent || state == AttacherClosed,
      p.timer || WaitState(state),
      p.dnsPending || state == Dns,
      if state == DtlsAttachRequest then Connecting else p.dtls,
      if state == DtlsAttachRequest then p.session + 1 else p.session)
  }

  /** Changing to `state`: a lookup, a connect, the timer or the close event is started there. */
  function Enter(s: State, state: AttachState): (r: State)
    ensures r.tokens == s.tokens && r.state == state && r.log == EntryLog(s.log, state)
  {
    s.(state := state, platform := Started(s.platform, state), log := EntryLog(s.log, state))
  }

  function Stopped(p: Platform, state: AttachState): Platform {
    if WaitState(state) then p.(timer := false, closeEvent := true)
    else if state == AttacherClosed then p.(closeEvent := true)
    else if state == DtlsAttachRequest || state == Attached then ClosedDtls(p)
    else p
  }

  /** Closing: what is waited for decides whether the attacher is closed at once. */
  function DoClose(s: State): (r: State)
    ensures r.tokens == s.tokens && (r.state == s.state || r.state == AttacherClosed) && r.log == s.log
  {
    if s.moduleState == Setup then s.(platform := s.platform.(closeEvent := true))
    else
      s.(moduleState := Closed,
         state := if WaitState(s.state) then AttacherClosed else s.state,
         platform := Stopped(s.platform, s.state))
  }

  /** A change of the token set always comes with a new version. */
  function AddedToken(t: Tokens, token: string, stored: bool): (r: Tokens)
    ensures r.upload == t.upload
  {
    if stored then t.(version := t.version + 1, local := t.local + {token})
    else t.(version := t.version + 1, refused := true)
  }

  predicate UploadStarts(t: Tokens, memory: bool) {
    t.version != t.synchronized && t.upload.None? && memory
  }

  /** An upload that is due and not already under way either starts or counts as failed. */
  function Uploaded(t: Tokens, attaching: bool, session: nat, memory: bool): (r: Tokens)
    ensures r.upload == if UploadStarts(t, memory) then Some(Upload(attaching, session)) else t.upload
    ensures r.refused ==> t.refused
  {
    if t.version == t.synchronized || t.upload.Some? then t
    else if !memory then t.(failed := true, refused := false)
    else t.(uploading := t.version, upload := Some(Upload(attaching, session)), sent := t.local,
            failed := false, refused := false)
  }

  function Answered(t: Tokens, acknowledged: bool): (r: Tokens)
    ensures r.upload.None? && r.refused == t.refused
  {
    if acknowledged then t.(upload := None, synchronized := t.uploading, acked := t.sent)
    else t.(upload := None, failed := true)
  }

  function SendTokens(s: State, attaching: bool, memory: bool): State {
    s.(tokens := Uploaded(s.tokens, attaching, s.platform.session, memory))
  }

  /** The attach-start request goes out unless one is outstanding or memory is short. */
  function SendStart(s: State, memory: bool): State {
    if s.start.None? && memory then s.(start := Some(s.platform.session)) else CloseDtls(s)
  }

  function SendEnd(s: State, memory: bool): (r: State)
    ensures r.tokens == s.tokens && r.state == s.state
  {
    if s.end.None? && memory then s.(end := Some(s.platform.session)) else CloseDtls(s)
  }

  /** Attach-start was accepted: upload the tokens, or go on when there are none to upload. */
  function StartAcceptedStep(s: State, memory: bool): (r: State)
    ensures r.tokens.refused ==> s.tokens.refused
  {
    var t := Noted(s, StartAccepted(s.platform.session));
    if t.tokens.version == t.tokens.synchronized then SendEnd(Noted(t, TokensSettled(s.platform.session)), memory)
    else if UploadStarts(t.tokens, memory) then SendTokens(t, true, memory)
    else CloseDtls(SendTokens(t, true, memory))
  }

  function DtlsClosedStep(s: State): (r: State)
    ensures r.tokens == s.tokens && r.state != Attached
  {
    match s.state
    case Attached => Enter(Noted(s, DetachedEvent), RetryWait)
    case Redirect => Enter(s, if s.redirectAttempts >= MAX_REDIRECT_FOLLOW then RetryWait else Dns)
    case AccessDeniedWait => s
    case Dns | DtlsAttachRequest | RetryWait | AttacherClosed => Enter(s, RetryWait)
  }

  function TokensReplyStep(s: State, acknowledged: bool, memory: bool): (r: State)
    requires s.tokens.upload.Some?
    ensures r.tokens.refused ==> s.tokens.refused
  {
    var t := s.(tokens := Answered(s.tokens, acknowledged));
    if !s.tokens.upload.value.attaching then
      if acknowledged then SendTokens(t, false, memory) else t
    else if s.moduleState == Closed || !acknowledged then CloseDtls(t)
    else SendEnd(Noted(t, TokensSettled(s.platform.session)), memory)
  }

  function EndAcceptedStep(s: State, memory: bool): (r: State)
    ensures r.tokens.refused ==> s.tokens.refused
  {
    var t := Enter(Noted(s, EndAccepted(s.platform.session)), Attached);
    SendTokens(Noted(t, AttachedEvent(s.platform.session)), false, memory)
  }

  /** Calls by the owner of the attacher, and the events it posts to itself. */
  predicate IsRequest(e: Event) {
    e.Start? || e.AsyncClose? || e.Stop? || e.AddToken? || e.CloseEventRuns? || e.KeepAliveTimeout?
  }

  /** Answers to the three CoAP requests. */
  predicate IsReply(e: Event) {
    e.StartReply? || e.TokensReply? || e.EndReply?
  }

  function RequestStep(s: State, e: Event): State
    requires IsRequest(e)
  {
    match e
    case Start =>
      if s.moduleState != Setup then s else Enter(s.(moduleState := Running), Dns)
    case AsyncClose => DoClose(Noted(s.(closedCb := true), CloseAsked))
    case Stop => DoClose(s)
    case AddToken(token, stored, memory) =>
      var t := s.(tokens := AddedToken(s.tokens, token, stored));
      if stored && s.state == Attached then SendTokens(t, false, memory) else t
    case CloseEventRuns =>
      var t := s.(platform := s.platform.(timer := false, closeEvent := false), closedCb := false);
      if s.closedCb then Noted(t, CloseCalled) else t
    case KeepAliveTimeout => CloseDtls(s)
  }

  function ReplyStep(s: State, e: Event): State
    requires IsReply(e) && Enabled(s, e)
  {
    match e
    case StartReply(status, memory) =>
      var t := s.(start := None);
      if s.moduleState == Closed || status == StatusError then CloseDtls(t)
      else if status == StatusAttached then StartAcceptedStep(t, memory)
      else CloseDtls(t.(state := Redirect, redirectAttempts := s.redirectAttempts + 1))
    case TokensReply(acknowledged, memory) => TokensReplyStep(s, acknowledged, memory)
    case EndReply(accepted, memory) =>
      var t := s.(end := None);
      if !accepted || s.moduleState == Closed then CloseDtls(t) else EndAcceptedStep(t, memory)
  }

  /** DNS answers, DTLS events and the reattach timer. */
  function NetworkStep(s: State, e: Event): State
    requires !IsRequest(e) && !IsReply(e)
  {
    match e
    case DnsResolved(resolved) =>
      var t := s.(platform := s.platform.(dnsPending := false));
      if s.moduleState == Closed then Enter(t, AttacherClosed)
      else Enter(t, if resolved then DtlsAttachRequest else RetryWait)
    case TimerFires =>
      var t := Noted(s.(platform := s.platform.(timer := false)), TimerFired);
      if s.moduleState == Closed then Enter(t, AttacherClosed) else Enter(t.(redirectAttempts := 0), Dns)
    case HandshakeComplete(alpn, memory) =>
      var t := s.(platform := s.platform.(dtls := Open));
      if s.moduleState == Closed || !alpn then CloseDtls(t)
      else SendStart(Noted(t, HandshakeDone(s.platform.session)), memory)
    case DtlsClosed =>
      var t := s.(platform := s.platform.(dtls := Idle));
      if s.moduleState == Closed then Enter(t, AttacherClosed) else DtlsClosedStep(t)
    case DtlsAccessDenied =>
      var t := s.(platform := s.platform.(dtls := Idle));
      Enter(t, if s.moduleState == Closed then AttacherClosed else AccessDeniedWait)
  }

  function Step(s: State, e: Event): State
    requires Enabled(s, e)
  {
    if IsRequest(e) then RequestStep(s, e)
    else if IsReply(e) then ReplyStep(s, e)
    else NetworkStep(s, e)
  }

  // ----- Runs ------------------------------------------------------------------------------

  /** The state after `es`, or None when the platform may not deliver these events. */
  function Run(es: seq<Event>): Option<State> {
    if es == [] then Some(INITIAL)
    else
      var n := |es| - 1;
      match Run(es[..n])
      case None => None
      case Some(s) => if Enabled(s, es[n]) then Some(Step(s, es[n])) else None
  }
}
