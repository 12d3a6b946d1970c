/**
 * The attacher as nc_attacher.c, nc_attacher_attach_start.c,
 * nc_attacher_attach_end.c and nc_attacher_sct.c write it: handlers that update
 * one context and call each other, each proved to make one step of the protocol.
 */
module Attacher {
  import opened Bytes
  import opened AttachProtocol

  datatype ErrorCode = OK | NoOperation | OperationStarted | OperationInProgress | OutOfMemory | InvalidState

  datatype DtlsEvent = EventHandshakeComplete | EventClosed | EventAccessDenied

  class AttachContext {
    var moduleState: ModuleState
    var state: AttachState
    var redirectAttempts: nat
    var closedCb: bool
    var platform: Platform
    var startCallback: Option<nat>   // set while the request is out, with the session it belongs to
    var endCallback: Option<nat>
    var sctContext: Tokens
    ghost var log: seq<Note>

    ghost function View(): State
      reads this
    {
      State(moduleState, state, redirectAttempts, closedCb, platform, startCallback, endCallback, sctContext, log)
    }

    /** nc_attacher_init */
    constructor ()
      ensures View() == INITIAL
    {
      moduleState, state, redirectAttempts, closedCb := Setup, Dns, 0, false;
      platform := Platform(false, false, false, Idle, 0);
      startCallback, endCallback, sctContext, log := None, None, NO_TOKENS, [];
    }

    // ----- Calls into the platform -------------------------------------------------------

    method PlatformClose()
      modifies this`platform
      ensures View() == CloseDtls(old(View()))
    {
      if platform.dtls != Idle { platform := platform.(dtls := Closing); }
    }

    method HandleStateChange()
      modifies this
      ensures View() == Enter(old(View()), old(state))
    {
      match state
      case Dns =>
        platform := platform.(dnsPending := true);
        log := log + [Lookup];
      case AttacherClosed =>
        platform := platform.(closeEvent := true);
      case Redirect =>
      case RetryWait =>
        platform := platform.(timer := true);
      case AccessDeniedWait =>
        platform := platform.(timer := true);
      case DtlsAttachRequest =>
        platform := platform.(dtls := Connecting, session := platform.session + 1);
        log := log + [Connect];
      case Attached =>
    }

    // ----- Calls by the owner --------------------------------------------------------------

    method Start() returns (ec: ErrorCode)
      modifies this
      ensures View() == Step(old(View()), AttachProtocol.Start)
      ensures ec == OK <==> old(moduleState) == Setup
    {
      if moduleState != Setup { return InvalidState; }
      state := Dns;
      moduleState := Running;
      HandleStateChange();
      return OK;
    }

    method AsyncClose()
      modifies this
      ensures View() == Step(old(View()), AttachProtocol.AsyncClose)
    {
      closedCb := true;
      log := log + [CloseAsked];
      DoClose();
    }

    method Stop()
      modifies this
      ensures View() == Step(old(View()), AttachProtocol.Stop)
    {
      DoClose();
    }

    method AddServerConnectToken(token: string, stored: bool, memory: bool) returns (ec: ErrorCode)
      modifies this
      ensures View() == Step(old(View()), AddToken(token, stored, memory))
      ensures ec == if stored then OK else OutOfMemory
    {
      sctContext := sctContext.(version := sctContext.version + 1);
      if !stored {
        sctContext := sctContext.(refused := true);
        return OutOfMemory;
      }
      sctContext := sctContext.(local := sctContext.local + {token});
      if state == Attached {
        SendSctRequest(memory);
      }
      return OK;
    }

    method IsSynchronized() returns (ec: ErrorCode)
      ensures ec == OperationInProgress <==> state == Attached && sctContext.synchronized != sctContext.version
      ensures ec == OK || ec == OperationInProgress
    {
      if state == Attached {
        if sctContext.synchronized == sctContext.version { return OK; } else { return OperationInProgress; }
      } else {
        return OK;
      }
    }

    method DoClose()
      modifies this
      ensures View() == AttachProtocol.DoClose(old(View()))
    {
      if moduleState == Setup {
        platform := platform.(closeEvent := true);
        return;
      }
      moduleState := Closed;
      match state
      case RetryWait =>
        platform := platform.(timer := false);
        state := AttacherClosed;
        HandleStateChange();
      case AccessDeniedWait =>
        platform := platform.(timer := false);
        state := AttacherClosed;
        HandleStateChange();
      case AttacherClosed =>
        platform := platform.(closeEvent := true);
      case DtlsAttachRequest =>
        PlatformClose();
      case Attached =>
        PlatformClose();
      case Dns =>
      case Redirect =>
    }

    method ResolveClose()
      requires platform.closeEvent
      modifies this
      ensures View() == Step(old(View()), CloseEventRuns)
    {
      platform := platform.(timer := false);
      platform := platform.(closeEvent := false);
      if closedCb {
        closedCb := false;
        log := log + [CloseCalled];
      }
    }

    // ----- DNS, the reattach timer and DTLS ------------------------------------------------

    method DnsResolvedCallback(resolved: bool)
      requires Enabled(View(), DnsResolved(resolved))
      modifies this
      ensures View() == Step(old(View()), DnsResolved(resolved))
    {
      hide RequestStep;
      platform := platform.(dnsPending := false);
      if moduleState == Closed {
        state := AttacherClosed;
        HandleStateChange();
        return;
      }
      if !resolved {
        state := RetryWait;
        HandleStateChange();
        return;
      }
      state := DtlsAttachRequest;
      HandleStateChange();
    }

    method Reattach()
      requires Enabled(View(), TimerFires)
      modifies this
      ensures View() == Step(old(View()), TimerFires)
    {
      hide ReplyStep;
      platform := platform.(timer := false);
      log := log + [TimerFired];
      if moduleState == Closed {
        state := AttacherClosed;
      } else {
        state := Dns;
        redirectAttempts := 0;
      }
      HandleStateChange();
    }

    /** The protocol's name for a DTLS event. */
    static function AsEvent(event: DtlsEvent, alpn: bool, memory: bool): Event {
      match event
      case EventHandshakeComplete => HandshakeComplete(alpn, memory)
      case EventClosed => DtlsClosed
      case EventAccessDenied => DtlsAccessDenied
    }

    method DtlsEventHandler(event: DtlsEvent, alpn: bool, memory: bool)
      requires Enabled(View(), AsEvent(event, alpn, memory))
      modifies this
      ensures View() == Step(old(View()), AsEvent(event, alpn, memory))
    {
      platform := platform.(dtls := if event == EventHandshakeComplete then Open else Idle);
      if moduleState == Closed {
        if event == EventHandshakeComplete {
          PlatformClose();
        } else {
          state := AttacherClosed;
          HandleStateChange();
        }
        return;
      }
      match event
      case EventHandshakeComplete => HandleDtlsConnected(alpn, memory);
      case EventClosed => HandleDtlsClosed();
      case EventAccessDenied =>
        state := AccessDeniedWait;
        HandleStateChange();
    }

    method HandleDtlsClosed()
      modifies this
      ensures View() == DtlsClosedStep(old(View()))
    {
      match state
      case DtlsAttachRequest =>
        state := RetryWait;
        HandleStateChange();
      case Attached =>
        log := log + [DetachedEvent];
        state := RetryWait;
        HandleStateChange();
      case Redirect =>
        if redirectAttempts >= MAX_REDIRECT_FOLLOW {
          state := RetryWait;
        } else {
          state := Dns;
        }
        HandleStateChange();
      case AccessDeniedWait =>
      case _ =>
        state := RetryWait;
        HandleStateChange();
    }

    method HandleDtlsConnected(alpn: bool, memory: bool)
      modifies this
      ensures var s := old(View());
              View() == if alpn then SendStart(Noted(s, HandshakeDone(s.platform.session)), memory) else CloseDtls(s)
    {
      if !alpn {
        PlatformClose();
        return;
      }
      log := log + [HandshakeDone(platform.session)];
      var ec := AttachStartRequest(memory);
      if ec != OperationStarted {
        PlatformClose();
      }
    }

    // ----- The attach-start, token and attach-end requests -------------------------------------

    method AttachStartRequest(memory: bool) returns (ec: ErrorCode)
      modifies this`startCallback
      ensures ec == OperationStarted <==> old(startCallback).None? && memory
      ensures startCallback == if ec == OperationStarted then Some(platform.session) else old(startCallback)
    {
      if startCallback.Some? { return OperationInProgress; }
      if !memory { return OutOfMemory; }
      startCallback := Some(platform.session);
      return OperationStarted;
    }

    /** The response handler of attach-start, with the callback it runs. */
    method AttachStartHandler(status: AttachStatus, memory: bool)
      requires Enabled(View(), StartReply(status, memory))
      modifies this
      ensures View() == Step(old(View()), StartReply(status, memory))
    {
      hide TokensReplyStep;
      hide SendEnd;
      hide RequestStep;
      startCallback := None;
      if moduleState == Closed {
        PlatformClose();
        return;
      }
      match status
      case StatusAttached =>
        log := log + [StartAccepted(platform.session)];
        SendAttachSctRequest(memory);
      case StatusRedirect =>
        state := Redirect;
        redirectAttempts := redirectAttempts + 1;
        PlatformClose();
      case StatusError =>
        PlatformClose();
    }

    method SendAttachSctRequest(memory: bool)
      modifies this
      ensures var s := old(View());
              View() == if sctContext.version == sctContext.synchronized
                        then SendEnd(Noted(s, TokensSettled(s.platform.session)), memory)
                        else if UploadStarts(s.tokens, memory) then SendTokens(s, true, memory)
                        else CloseDtls(SendTokens(s, true, memory))
    {
      var ec := SctUpload(true, memory);
      match ec
      case NoOperation =>
        log := log + [TokensSettled(platform.session)];
        SendAttachEndRequest(memory);
      case OperationStarted =>
      case _ => PlatformClose();
    }

    /** nc_attacher_sct_upload */
    method SctUpload(attaching: bool, memory: bool) returns (ec: ErrorCode)
      modifies this
      ensures View() == SendTokens(old(View()), attaching, memory)
      ensures ec == NoOperation <==> sctContext.version == sctContext.synchronized
      ensures ec == OperationStarted <==> UploadStarts(old(sctContext), memory)
    {
      if sctContext.version == sctContext.synchronized { return NoOperation; }
      if sctContext.upload.Some? { return OperationInProgress; }
      if !memory {
        sctContext := sctContext.(failed := true, refused := false);
        return OutOfMemory;
      }
      sctContext := sctContext.(upload := Some(Upload(attaching, platform.session)), uploading := sctContext.version,
                                sent := sctContext.local, failed := false, refused := false);
      return OperationStarted;
    }

    method SendSctRequest(memory: bool)
      modifies this
      ensures View() == SendTokens(old(View()), false, memory)
    {
      var _ := SctUpload(false, memory);
    }

    /** sct_request_handler, with the callback it runs. */
    method SctRequestHandler(acknowledged: bool, memory: bool)
      requires Enabled(View(), TokensReply(acknowledged, memory))
      modifies this
      ensures View() == Step(old(View()), TokensReply(acknowledged, memory))
    {
      hide SendTokens;
      hide SendEnd;
      hide AttachProtocol.CloseDtls;
      hide RequestStep;
      var attaching := sctContext.upload.value.attaching;
      if acknowledged {
        sctContext := sctContext.(synchronized := sctContext.uploading, acked := sctContext.sent);
      } else {
        sctContext := sctContext.(failed := true);
      }
      sctContext := sctContext.(upload := None);
      if attaching {
        SendAttachSctRequestCallback(acknowledged, memory);
      } else if acknowledged {
        SendSctRequest(memory);
      }
    }

    method SendAttachSctRequestCallback(ok: bool, memory: bool)
      modifies this
      ensures var s := old(View());
              View() == if s.moduleState == Closed || !ok then CloseDtls(s)
                        else SendEnd(Noted(s, TokensSettled(s.platform.session)), memory)
    {
      if moduleState == Closed {
        PlatformClose();
        return;
      }
      if ok {
        log := log + [TokensSettled(platform.session)];
        SendAttachEndRequest(memory);
      } else {
        PlatformClose();
      }
    }

    method AttachEndRequest(memory: bool) returns (ec: ErrorCode)
      modifies this`endCallback
      ensures ec == OperationStarted <==> old(endCallback).None? && memory
      ensures endCallback == if ec == OperationStarted then Some(platform.session) else old(endCallback)
    {
      if endCallback.Some? { return OperationInProgress; }
      if !memory { return OutOfMemory; }
      endCallback := Some(platform.session);
      return OperationStarted;
    }

    method SendAttachEndRequest(memory: bool)
      modifies this
      ensures View() == SendEnd(old(View()), memory)
    {
      var ec := AttachEndRequest(memory);
      if ec != OperationStarted {
        PlatformClose();
      }
    }

    /** The response handler of attach-end, with the callback it runs. */
    method AttachEndHandler(accepted: bool, memory: bool)
      requires Enabled(View(), EndReply(accepted, memory))
      modifies this
      ensures View() == Step(old(View()), EndReply(accepted, memory))
    {
      hide RequestStep;
      endCallback := None;
      if !accepted {
        PlatformClose();
        return;
      }
      if moduleState == Closed {
        PlatformClose();
        return;
      }
      log := log + [EndAccepted(platform.session)];
      state := Attached;
      HandleStateChange();
      log := log + [AttachedEvent(platform.session)];
      SendSctRequest(memory);
    }

    /** keep_alive_event when the keep alive has timed out. */
    method KeepAliveTimeout()
      modifies this
      ensures View() == Step(old(View()), AttachProtocol.KeepAliveTimeout)
    {
      PlatformClose();
    }

    /** The handler of each event. */
    method Deliver(e: Event)
      requires Enabled(View(), e)
      modifies this
      ensures View() == Step(old(View()), e)
    {
      hide Step;
      match e
      case Start => var _ := Start();
      case AsyncClose => AsyncClose();
      case Stop => Stop();
      case AddToken(token, stored, memory) => var _ := AddServerConnectToken(token, stored, memory);
      case CloseEventRuns => ResolveClose();
      case DnsResolved(resolved) => DnsResolvedCallback(resolved);
      case TimerFires => Reattach();
      case HandshakeComplete(alpn, memory) => DtlsEventHandler(EventHandshakeComplete, alpn, memory);
      case DtlsClosed => DtlsEventHandler(EventClosed, false, false);
      case DtlsAccessDenied => DtlsEventHandler(EventAccessDenied, false, false);
      case StartReply(status, memory) => AttachStartHandler(status, memory);
      case TokensReply(acknowledged, memory) => SctRequestHandler(acknowledged, memory);
      case EndReply(accepted, memory) => AttachEndHandler(accepted, memory);
      case KeepAliveTimeout => KeepAliveTimeout();
    }
  }

  /** The handlers follow the protocol through every run the platform may deliver. */
  method Replay(es: seq<Event>) returns (x: AttachContext)
    requires Run(es).Some?
    ensures fresh(x) && Run(es) == Some(x.View())
  {
    hide Step;
    hide Enabled;
    if es == [] {
      x := new AttachContext();
    } else {
      x := Replay(es[..|es| - 1]);
      x.Deliver(es[|es| - 1]);
    }
  }
}
