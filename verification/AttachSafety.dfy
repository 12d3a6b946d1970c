/**
 * What every run of the attach protocol keeps: exactly one thing to wait for,
 * closing that ends in CLOSED, and token versions that mean what they say.
 */
module AttachSafety {
  import opened Bytes
  import opened AttachProtocol

  // ----- One thing to wait for ---------------------------------------------------------------

  /**
   * The outstanding DNS query, DTLS session and timer are exactly what the state
   * waits for, so never two of them at once.
   */
  predicate WakeUps(s: State) {
    && (s.platform.dnsPending <==> s.moduleState != Setup && s.state == Dns)
    && (s.platform.dtls != Idle <==> DtlsState(s.state))
    && (s.platform.timer <==> WaitState(s.state))
    && (s.moduleState == Setup ==> s.state == Dns)
    && (s.moduleState == Running ==> s.state != AttacherClosed)
    && (s.moduleState == Closed ==> !s.platform.timer && (s.platform.dtls == Idle || s.platform.dtls == Closing))
    && (s.platform.dtls == Connecting ==> s.state == DtlsAttachRequest)
    && (s.state == Redirect ==> s.platform.dtls == Closing)
    && (s.moduleState == Running && s.platform.closeEvent ==> s.state == Dns)
    && (s.closedCb ==> s.platform.closeEvent || (s.moduleState == Closed && s.state != AttacherClosed))
  }

  /** Requests belong to the present session or to an earlier one, and a connecting session has none. */
  predicate Requests(s: State) {
    && (s.start.Some? ==> s.start.value <= s.platform.session)
    && (s.end.Some? ==> s.end.value <= s.platform.session)
    && (s.tokens.upload.Some? ==> s.tokens.upload.value.session <= s.platform.session)
    && (s.platform.dtls == Connecting ==>
         s.start != Some(s.platform.session) && s.end != Some(s.platform.session)
         && UploadSession(s.tokens) != Some(s.platform.session))
  }

  predicate AttachUpload(s: State) {
    s.tokens.upload == Some(Upload(true, s.platform.session))
  }

  /** How many steps of the attach sequence are under way on the present session. */
  function Pending(s: State): nat {
    (if s.start == Some(s.platform.session) then 1 else 0) + (if s.end == Some(s.platform.session) then 1 else 0)
    + (if AttachUpload(s) then 1 else 0)
  }

  /** An open session has exactly one step of the attach sequence under way, or is attached. */
  predicate Progressing(s: State) {
    s.platform.dtls == Open ==> Pending(s) == if s.state == Attached then 0 else 1
  }

  predicate Wired(s: State) {
    WakeUps(s) && Requests(s) && Progressing(s)
  }

  lemma WiredOnCall(s: State, e: Event)
    requires Wired(s) && Enabled(s, e) && (e.Start? || e.CloseEventRuns? || e.KeepAliveTimeout?)
    ensures Wired(Step(s, e))
  {
    hide ReplyStep;
    hide NetworkStep;
    hide DoClose;
  }

  /** Only an upload that attaching waits for matters to the attach sequence. */
  lemma WiredTokens(s: State, t: Tokens)
    requires Wired(s)
    requires t.upload == s.tokens.upload || (!AttachUpload(s) && t.upload.None?)
          || (!AttachUpload(s) && (s.state == Attached || s.platform.dtls == Open)
              && t.upload == Some(Upload(false, s.platform.session)))
    ensures Wired(s.(tokens := t))
  {
  }

  lemma WiredOnAddToken(s: State, e: Event)
    requires Wired(s) && e.AddToken?
    ensures Wired(Step(s, e))
  {
    hide Wired;
    hide Uploaded;
    hide AddedToken;
    var t := AddedToken(s.tokens, e.token, e.stored);
    var u := if e.stored && s.state == Attached then Uploaded(t, false, s.platform.session, e.memory) else t;
    assert Step(s, e) == s.(tokens := u);
    WiredTokens(s, u);
  }

  lemma WiredOnClose(s: State, e: Event)
    requires Wired(s) && (e.AsyncClose? || e.Stop?)
    ensures Wired(Step(s, e))
  {
    hide UploadSession;
    hide ReplyStep;
    hide NetworkStep;
  }

  lemma WiredOnLookup(s: State, e: Event)
    requires Wired(s) && Enabled(s, e) && (e.DnsResolved? || e.TimerFires?)
    ensures Wired(Step(s, e))
  {
    hide ReplyStep;
    hide RequestStep;
  }

  lemma WiredOnHandshake(s: State, e: Event)
    requires Wired(s) && Enabled(s, e) && (e.HandshakeComplete? || e.DtlsAccessDenied?)
    ensures Wired(Step(s, e))
  {
    hide ReplyStep;
    hide RequestStep;
  }

  lemma WiredOnDtlsClosed(s: State, e: Event)
    requires Wired(s) && Enabled(s, e) && e.DtlsClosed?
    ensures Wired(Step(s, e))
  {
    hide EntryLog;
    hide ReplyStep;
    hide RequestStep;
  }

  lemma WiredOnStartRefused(s: State, e: Event)
    requires Wired(s) && Enabled(s, e) && e.StartReply? && (s.moduleState == Closed || e.status != StatusAttached)
    ensures Wired(Step(s, e))
  {
    hide RequestStep;
    hide NetworkStep;
    hide StartAcceptedStep;
  }

  lemma WiredOnStartAccepted(s: State, e: Event)
    requires Wired(s) && Enabled(s, e) && e.StartReply? && s.moduleState != Closed && e.status == StatusAttached
    ensures Wired(Step(s, e))
  {
    hide UploadSession;
    hide RequestStep;
    hide NetworkStep;
    hide Uploaded;
  }

  /** The reply to an upload that attaching does not wait for. */
  lemma WiredOnTokensReply(s: State, e: Event)
    requires Wired(s) && Enabled(s, e) && e.TokensReply? && !s.tokens.upload.value.attaching
    ensures Wired(Step(s, e))
  {
    hide Wired;
    hide Uploaded;
    hide Answered;
    var t := Answered(s.tokens, e.acknowledged);
    var u := if e.acknowledged then Uploaded(t, false, s.platform.session, e.memory) else t;
    assert Step(s, e) == s.(tokens := u);
    WiredTokens(s, u);
  }

  lemma WiredOnAttachTokensFailed(s: State, e: Event)
    requires Wired(s) && Enabled(s, e) && e.TokensReply? && s.tokens.upload.value.attaching
    requires s.moduleState == Closed || !e.acknowledged
    ensures Wired(Step(s, e))
  {
    hide RequestStep;
    hide NetworkStep;
    hide Uploaded;
    hide Answered;
    hide SendEnd;
    hide UploadSession;
  }

  lemma WiredOnAttachTokensReply(s: State, e: Event)
    requires Wired(s) && Enabled(s, e) && e.TokensReply? && s.tokens.upload.value.attaching
    requires s.moduleState != Closed && e.acknowledged
    ensures Wired(Step(s, e))
  {
    hide RequestStep;
    hide NetworkStep;
    hide Uploaded;
    hide Answered;
  }

  lemma WiredOnEndReply(s: State, e: Event)
    requires Wired(s) && Enabled(s, e) && e.EndReply?
    ensures Wired(Step(s, e))
  {
    hide SendEnd;
    hide RequestStep;
    hide NetworkStep;
    hide Uploaded;
  }

  lemma WiredStep(s: State, e: Event)
    requires Wired(s) && Enabled(s, e)
    ensures Wired(Step(s, e))
  {
    hide Step;
    hide Wired;
    match e
    case Start | CloseEventRuns | KeepAliveTimeout => WiredOnCall(s, e);
    case AddToken(_, _, _) => WiredOnAddToken(s, e);
    case AsyncClose | Stop => WiredOnClose(s, e);
    case DnsResolved(_) | TimerFires => WiredOnLookup(s, e);
    case HandshakeComplete(_, _) | DtlsAccessDenied => WiredOnHandshake(s, e);
    case DtlsClosed => WiredOnDtlsClosed(s, e);
    case StartReply(status, _) =>
      if s.moduleState == Closed || status != StatusAttached {
        WiredOnStartRefused(s, e);
      } else {
        WiredOnStartAccepted(s, e);
      }
    case TokensReply(acknowledged, _) =>
      if !s.tokens.upload.value.attaching {
        WiredOnTokensReply(s, e);
      } else if s.moduleState == Closed || !acknowledged {
        WiredOnAttachTokensFailed(s, e);
      } else {
        WiredOnAttachTokensReply(s, e);
      }
    case EndReply(_, _) => WiredOnEndReply(s, e);
  }

  // ----- Token versions ------------------------------------------------------------------------

  predicate TokensValid(t: Tokens) {
    && t.synchronized <= t.uploading <= t.version
    && (t.upload.Some? ==> t.synchronized < t.uploading && !t.failed)
    && (t.upload.Some? && t.uploading == t.version ==> t.sent == t.local)
    && (t.synchronized == t.version ==> t.acked == t.local)
    && (t.failed ==> t.synchronized < t.version)
    && (t.refused ==> t.uploading < t.version)
  }

  /** While attached, tokens the server lacks are on their way, or an attempt failed, or one was never stored. */
  predicate TokensCovered(s: State) {
    s.state == Attached && s.tokens.version != s.tokens.synchronized ==>
      s.tokens.upload.Some? || s.tokens.failed || s.tokens.refused
  }

  lemma TokensStep(t: Tokens, token: string, flag: bool, attaching: bool, session: nat)
    requires TokensValid(t)
    ensures TokensValid(AddedToken(t, token, flag))
    ensures TokensValid(Uploaded(t, attaching, session, flag))
    ensures t.upload.Some? ==> TokensValid(Answered(t, flag))
  {
  }

  predicate TokensKept(s: State) {
    TokensValid(s.tokens) && TokensCovered(s)
  }

  /** Sending tokens covers whatever was missing before. */
  lemma SendTokensKeeps(s: State, attaching: bool, memory: bool)
    requires TokensValid(s.tokens)
    ensures TokensKept(SendTokens(s, attaching, memory))
  {
  }

  lemma TokensKeptOnRequest(s: State, e: Event)
    requires IsRequest(e) && TokensKept(s)
    ensures TokensKept(RequestStep(s, e))
  {
    hide Uploaded;
    hide AddedToken;
    hide TokensValid;
    hide DoClose;
    hide Enter;
    if e.AddToken? {
      TokensStep(s.tokens, e.token, e.stored, false, s.platform.session);
      var t := s.(tokens := AddedToken(s.tokens, e.token, e.stored));
      SendTokensKeeps(t, false, e.memory);
      if !e.stored || s.state != Attached { Refused(s, e.token, e.stored); }
    }
  }

  lemma Refused(s: State, token: string, stored: bool)
    requires TokensKept(s) && (!stored || s.state != Attached)
    ensures TokensKept(s.(tokens := AddedToken(s.tokens, token, stored)))
  {
  }

  lemma TokensKeptOnNetwork(s: State, e: Event)
    requires !IsRequest(e) && !IsReply(e) && TokensKept(s)
    ensures TokensKept(NetworkStep(s, e))
  {
    hide TokensValid;
    hide Enter;
    hide DtlsClosedStep;
    hide CloseDtls;
  }

  lemma AnsweredKeeps(s: State, acknowledged: bool)
    requires TokensKept(s) && s.tokens.upload.Some?
    requires acknowledged && s.state == Attached ==> !s.tokens.upload.value.attaching
    ensures s.state != Attached || !acknowledged ==> TokensKept(s.(tokens := Answered(s.tokens, acknowledged)))
  {
  }

  lemma TokensKeptOnReply(s: State, e: Event)
    requires IsReply(e) && Enabled(s, e) && Wired(s) && TokensKept(s)
    ensures TokensKept(ReplyStep(s, e))
  {
    hide Uploaded;
    hide Answered;
    hide TokensValid;
    hide Enter;
    hide CloseDtls;
    match e
    case StartReply(_, memory) =>
      SendTokensKeeps(Noted(s.(start := None), StartAccepted(s.platform.session)), true, memory);
    case TokensReply(acknowledged, memory) =>
      TokensStep(s.tokens, "", acknowledged, false, s.platform.session);
      AnsweredKeeps(s, acknowledged);
      SendTokensKeeps(s.(tokens := Answered(s.tokens, acknowledged)), false, memory);
    case EndReply(_, memory) =>
      var t := Enter(Noted(s.(end := None), EndAccepted(s.platform.session)), Attached);
      SendTokensKeeps(Noted(t, AttachedEvent(s.platform.session)), false, memory);
  }
}
