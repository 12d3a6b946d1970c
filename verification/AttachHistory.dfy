/**
 * What the log of every run of the attach protocol shows: bounded redirects,
 * the order of the attach steps, paired attach events and close callbacks.
 */
module AttachHistory {
  import opened Bytes
  import opened AttachProtocol
  import opened AttachSafety

  // ----- Reading a log -----------------------------------------------------------------------

  /** DNS lookups since the reattach timer last fired. */
  function Lookups(log: seq<Note>): nat {
    if log == [] || log[|log| - 1] == TimerFired then 0
    else Lookups(log[..|log| - 1]) + if log[|log| - 1] == Lookup then 1 else 0
  }

  /** DTLS connects since the reattach timer last fired. */
  function Connects(log: seq<Note>): nat {
    if log == [] || log[|log| - 1] == TimerFired then 0
    else Connects(log[..|log| - 1]) + if log[|log| - 1] == Connect then 1 else 0
  }

  /** The latest attach event reported to the application is ATTACHED. */
  predicate Online(log: seq<Note>) {
    log != [] && (log[|log| - 1].AttachedEvent? || (log[|log| - 1] != DetachedEvent && Online(log[..|log| - 1])))
  }

  function Count(log: seq<Note>, note: Note): nat {
    if log == [] then 0 else Count(log[..|log| - 1], note) + if log[|log| - 1] == note then 1 else 0
  }

  predicate IsMilestone(note: Note, session: nat) {
    note in Sequence(session)
  }

  /** The whole attach sequence of a session. */
  function Sequence(session: nat): seq<Note> {
    [HandshakeDone(session), StartAccepted(session), TokensSettled(session), EndAccepted(session)]
  }

  /** The steps of the attach sequence that the log shows for `session`, in order. */
  function Milestones(log: seq<Note>, session: nat): seq<Note> {
    if log == [] then []
    else Milestones(log[..|log| - 1], session)
         + if IsMilestone(log[|log| - 1], session) then [log[|log| - 1]] else []
  }

  // ----- Redirects, attach events and close callbacks ----------------------------------------

  /** Lookups and connects are paid for by redirects, of which there are at most five. */
  predicate Bounded(s: State) {
    && Connects(s.log) + (if s.platform.dnsPending then 1 else 0) <= Lookups(s.log) <= MAX_REDIRECT_FOLLOW
    && (s.moduleState == Setup ==> s.redirectAttempts == Lookups(s.log) == 0)
    && (s.state == Redirect ==> Lookups(s.log) <= s.redirectAttempts <= MAX_REDIRECT_FOLLOW)
    && (s.moduleState != Setup && (s.state == Dns || s.state == DtlsAttachRequest) ==>
         Lookups(s.log) <= s.redirectAttempts + 1 <= MAX_REDIRECT_FOLLOW)
  }

  /** Each DETACHED in the log takes back an ATTACHED. */
  predicate DetachesPaired(log: seq<Note>) {
    forall k :: 0 <= k < |log| && log[k] == DetachedEvent ==> Online(log[..k])
  }

  /** Each ATTACHED in the log ends the whole attach sequence of its session. */
  predicate AttachesOrdered(log: seq<Note>) {
    forall k :: 0 <= k < |log| && log[k].AttachedEvent? ==>
      Milestones(log[..k], log[k].session) == Sequence(log[k].session)
  }

  predicate Reported(s: State) {
    && DetachesPaired(s.log)
    && (s.state == Attached ==> Online(s.log))
    && Count(s.log, CloseCalled) + (if s.closedCb then 1 else 0) <= Count(s.log, CloseAsked)
  }

  /** The log of the present session shows the steps before the one under way, and later sessions have none. */
  ghost predicate InOrder(s: State) {
    && AttachesOrdered(s.log)
    && (forall n: nat :: n > s.platform.session ==> Milestones(s.log, n) == [])
    && (s.platform.dtls == Connecting ==> Milestones(s.log, s.platform.session) == [])
    && (s.platform.dtls == Open && s.start == Some(s.platform.session) ==>
         Milestones(s.log, s.platform.session) == Sequence(s.platform.session)[..1])
    && (s.platform.dtls == Open && AttachUpload(s) ==>
         Milestones(s.log, s.platform.session) == Sequence(s.platform.session)[..2])
    && (s.platform.dtls == Open && s.end == Some(s.platform.session) ==>
         Milestones(s.log, s.platform.session) == Sequence(s.platform.session)[..3])
  }

  ghost predicate History(s: State) {
    Bounded(s) && Reported(s) && InOrder(s)
  }

  /** How one more note changes what a log shows. */
  lemma Snoc(log: seq<Note>, x: Note)
    ensures Lookups(log + [x]) == if x == TimerFired then 0 else Lookups(log) + if x == Lookup then 1 else 0
    ensures Connects(log + [x]) == if x == TimerFired then 0 else Connects(log) + if x == Connect then 1 else 0
    ensures Online(log + [x]) <==> x.AttachedEvent? || (x != DetachedEvent && Online(log))
    ensures Count(log + [x], CloseAsked) == Count(log, CloseAsked) + if x == CloseAsked then 1 else 0
    ensures Count(log + [x], CloseCalled) == Count(log, CloseCalled) + if x == CloseCalled then 1 else 0
    ensures forall n: nat :: Milestones(log + [x], n) == Milestones(log, n) + if IsMilestone(x, n) then [x] else []
    ensures DetachesPaired(log) && (x == DetachedEvent ==> Online(log)) ==> DetachesPaired(log + [x])
    ensures AttachesOrdered(log) && (x.AttachedEvent? ==> Milestones(log, x.session) == Sequence(x.session)) ==>
              AttachesOrdered(log + [x])
  {
    hide Lookups;
    hide Online;
    hide Connects;
    hide Count;
    hide Milestones;
    Last(log, x);
    forall k | 0 <= k <= |log| ensures (log + [x])[..k] == log[..k] {
    }
    assert log[..|log|] == log;
  }

  lemma Last(log: seq<Note>, x: Note)
    ensures Lookups(log + [x]) == if x == TimerFired then 0 else Lookups(log) + if x == Lookup then 1 else 0
    ensures Connects(log + [x]) == if x == TimerFired then 0 else Connects(log) + if x == Connect then 1 else 0
    ensures Online(log + [x]) <==> x.AttachedEvent? || (x != DetachedEvent && Online(log))
    ensures Count(log + [x], CloseAsked) == Count(log, CloseAsked) + if x == CloseAsked then 1 else 0
    ensures Count(log + [x], CloseCalled) == Count(log, CloseCalled) + if x == CloseCalled then 1 else 0
    ensures forall n: nat :: Milestones(log + [x], n) == Milestones(log, n) + if IsMilestone(x, n) then [x] else []
  {
    assert (log + [x])[..|log|] == log;
  }

  /** The next step of the attach sequence of `session`. */
  lemma Advances(log: seq<Note>, session: nat, k: nat)
    requires k < 4 && AttachesOrdered(log) && Milestones(log, session) == Sequence(session)[..k]
    ensures var after := log + [Sequence(session)[k]];
            && AttachesOrdered(after) && Milestones(after, session) == Sequence(session)[..k + 1]
            && forall n: nat :: n != session ==> Milestones(after, n) == Milestones(log, n)
  {
    hide Lookups;
    hide Online;
    hide Connects;
    hide Count;
    hide Milestones;
    hide AttachesOrdered;
    hide DetachesPaired;
    var note := Sequence(session)[k];
    Snoc(log, note);
    assert Sequence(session)[..k + 1] == Sequence(session)[..k] + [note];
  }

  lemma OnStart(s: State, e: Event)
    requires Wired(s) && History(s) && Enabled(s, e) && e.Start?
    ensures History(Step(s, e))
  {
    hide Requests;
    hide NetworkStep;
    hide ReplyStep;
    hide Lookups;
    hide Connects;
    hide Online;
    hide Count;
    hide Milestones;
    hide DetachesPaired;
    hide AttachesOrdered;
    Snoc(s.log, Lookup);
  }

  lemma OnCloseRequest(s: State, e: Event)
    requires Wired(s) && History(s) && Enabled(s, e) && (e.AsyncClose? || e.Stop?)
    ensures History(Step(s, e))
  {
    hide MayAnswer;
    hide Requests;
    hide NetworkStep;
    hide ReplyStep;
    hide Lookups;
    hide Connects;
    hide Online;
    hide Count;
    hide Milestones;
    hide DetachesPaired;
    hide AttachesOrdered;
    Snoc(s.log, CloseAsked);
  }

  lemma OnSilent(s: State, e: Event)
    requires Wired(s) && History(s) && Enabled(s, e) && (e.AddToken? || e.KeepAliveTimeout? || e.DtlsAccessDenied?)
    ensures History(Step(s, e))
  {
    hide WakeUps;
    hide Requests;
    hide Lookups;
    hide Connects;
    hide Online;
    hide Count;
    hide Milestones;
    hide DetachesPaired;
    hide AttachesOrdered;
    hide Uploaded;
    hide AddedToken;
  }

  lemma OnCloseEvent(s: State, e: Event)
    requires Wired(s) && History(s) && Enabled(s, e) && e.CloseEventRuns?
    ensures History(Step(s, e))
  {
    hide Requests;
    hide NetworkStep;
    hide ReplyStep;
    hide Lookups;
    hide Connects;
    hide Online;
    hide Count;
    hide Milestones;
    hide DetachesPaired;
    hide AttachesOrdered;
    Snoc(s.log, CloseCalled);
  }

  lemma OnDns(s: State, e: Event)
    requires Wired(s) && History(s) && Enabled(s, e) && e.DnsResolved?
    ensures History(Step(s, e))
  {
    hide MayAnswer;
    hide Requests;
    hide RequestStep;
    hide ReplyStep;
    hide Lookups;
    hide Connects;
    hide Online;
    hide Count;
    hide Milestones;
    hide DetachesPaired;
    hide AttachesOrdered;
    Snoc(s.log, Connect);
  }

  lemma OnTimer(s: State, e: Event)
    requires Wired(s) && History(s) && Enabled(s, e) && e.TimerFires?
    ensures History(Step(s, e))
  {
    hide Requests;
    hide RequestStep;
    hide ReplyStep;
    hide Lookups;
    hide Connects;
    hide Online;
    hide Count;
    hide Milestones;
    hide DetachesPaired;
    hide AttachesOrdered;
    Snoc(s.log, TimerFired);
    Snoc(s.log + [TimerFired], Lookup);
  }

  lemma OnHandshake(s: State, e: Event)
    requires Wired(s) && History(s) && Enabled(s, e) && e.HandshakeComplete?
    ensures History(Step(s, e))
  {
    hide RequestStep;
    hide ReplyStep;
    hide Lookups;
    hide Connects;
    hide Online;
    hide Count;
    hide Milestones;
    hide DetachesPaired;
    hide AttachesOrdered;
    Snoc(s.log, HandshakeDone(s.platform.session));
  }

  lemma OnDetached(s: State, e: Event)
    requires Wired(s) && History(s) && Enabled(s, e) && e.DtlsClosed? && s.state == Attached
    ensures History(Step(s, e))
  {
    hide Requests;
    hide RequestStep;
    hide ReplyStep;
    hide Lookups;
    hide Connects;
    hide Online;
    hide Count;
    hide Milestones;
    hide DetachesPaired;
    hide AttachesOrdered;
    Snoc(s.log, DetachedEvent);
  }

  lemma OnDtlsClosed(s: State, e: Event)
    requires Wired(s) && History(s) && Enabled(s, e) && e.DtlsClosed? && s.state != Attached
    ensures History(Step(s, e))
  {
    hide MayAnswer;
    hide Requests;
    hide RequestStep;
    hide ReplyStep;
    hide Lookups;
    hide Connects;
    hide Online;
    hide Count;
    hide Milestones;
    hide DetachesPaired;
    hide AttachesOrdered;
    Snoc(s.log, Lookup);
  }

  lemma OnRefusal(s: State, e: Event)
    requires Wired(s) && History(s) && Enabled(s, e)
    requires (e.StartReply? && (s.moduleState == Closed || e.status != StatusAttached))
          || (e.EndReply? && (s.moduleState == Closed || !e.accepted))
    ensures History(Step(s, e))
  {
    hide Sequence;
    hide Requests;
    hide RequestStep;
    hide NetworkStep;
    hide DoClose;
    hide Lookups;
    hide Connects;
    hide Online;
    hide Count;
    hide Milestones;
    hide DetachesPaired;
    hide AttachesOrdered;
    hide StartAcceptedStep;
    hide EndAcceptedStep;
  }

  lemma OnStartWithoutTokensCounts(s: State, e: Event)
    requires Wired(s) && History(s) && Enabled(s, e)
    requires s.moduleState != Closed && e.StartReply? && e.status == StatusAttached
    requires s.tokens.version == s.tokens.synchronized
    ensures Bounded(Step(s, e)) && Reported(Step(s, e))
  {
    hide InOrder;
    hide Progressing;
    hide RequestStep;
    hide NetworkStep;
    hide DoClose;
    hide Lookups;
    hide Connects;
    hide Online;
    hide Count;
    hide Milestones;
    hide DetachesPaired;
    hide AttachesOrdered;
    hide Uploaded;
    Snoc(s.log, StartAccepted(s.platform.session));
    Snoc(s.log + [StartAccepted(s.platform.session)], TokensSettled(s.platform.session));
  }

  lemma OnStartWithoutTokensOrder(s: State, e: Event)
    requires Wired(s) && History(s) && Enabled(s, e)
    requires s.moduleState != Closed && e.StartReply? && e.status == StatusAttached
    requires s.tokens.version == s.tokens.synchronized
    ensures InOrder(Step(s, e))
  {
    hide Bounded;
    hide Reported;
    hide Progressing;
    hide RequestStep;
    hide NetworkStep;
    hide DoClose;
    hide Lookups;
    hide Connects;
    hide Online;
    hide Count;
    hide Milestones;
    hide DetachesPaired;
    hide AttachesOrdered;
    hide Uploaded;
    Advances(s.log, s.platform.session, 1);
    Advances(s.log + [StartAccepted(s.platform.session)], s.platform.session, 2);
  }

  lemma OnStartWithoutTokens(s: State, e: Event)
    requires Wired(s) && History(s) && Enabled(s, e)
    requires s.moduleState != Closed && e.StartReply? && e.status == StatusAttached
    requires s.tokens.version == s.tokens.synchronized
    ensures History(Step(s, e))
  {
    hide Step;
    OnStartWithoutTokensCounts(s, e);
    OnStartWithoutTokensOrder(s, e);
  }

  lemma OnStartWithTokens(s: State, e: Event)
    requires Wired(s) && History(s) && Enabled(s, e)
    requires s.moduleState != Closed && e.StartReply? && e.status == StatusAttached
    requires s.tokens.version != s.tokens.synchronized
    ensures History(Step(s, e))
  {
    hide Requests;
    hide RequestStep;
    hide NetworkStep;
    hide DoClose;
    hide Lookups;
    hide Connects;
    hide Online;
    hide Count;
    hide Milestones;
    hide DetachesPaired;
    hide AttachesOrdered;
    hide Uploaded;
    hide SendEnd;
    Snoc(s.log, StartAccepted(s.platform.session));
  }

  lemma OnTokensReply(s: State, e: Event)
    requires Wired(s) && History(s) && Enabled(s, e)
    requires e.TokensReply? && !s.tokens.upload.value.attaching
    ensures History(Step(s, e))
  {
    hide WakeUps;
    hide Requests;
    hide RequestStep;
    hide NetworkStep;
    hide DoClose;
    hide Lookups;
    hide Connects;
    hide Online;
    hide Count;
    hide Milestones;
    hide DetachesPaired;
    hide AttachesOrdered;
    hide Uploaded;
    hide Answered;
    hide SendEnd;
  }

  lemma OnAttachTokensReplyCounts(s: State, e: Event)
    requires Wired(s) && History(s) && Enabled(s, e)
    requires e.TokensReply? && s.tokens.upload.value.attaching
    ensures Bounded(Step(s, e)) && Reported(Step(s, e))
  {
    hide InOrder;
    hide Progressing;
    hide Requests;
    hide RequestStep;
    hide NetworkStep;
    hide DoClose;
    hide Lookups;
    hide Connects;
    hide Online;
    hide Count;
    hide Milestones;
    hide DetachesPaired;
    hide AttachesOrdered;
    hide Uploaded;
    hide Answered;
    Snoc(s.log, TokensSettled(s.platform.session));
  }

  lemma OnAttachTokensReplyOrder(s: State, e: Event)
    requires Wired(s) && History(s) && Enabled(s, e)
    requires e.TokensReply? && s.tokens.upload.value.attaching
    ensures InOrder(Step(s, e))
  {
    hide Bounded;
    hide Reported;
    hide Progressing;
    hide Requests;
    hide RequestStep;
    hide NetworkStep;
    hide DoClose;
    hide Lookups;
    hide Connects;
    hide Online;
    hide Count;
    hide Milestones;
    hide DetachesPaired;
    hide AttachesOrdered;
    hide Uploaded;
    hide Answered;
    if s.moduleState != Closed && e.acknowledged {
      Advances(s.log, s.platform.session, 2);
    }
  }

  lemma OnAttachTokensReply(s: State, e: Event)
    requires Wired(s) && History(s) && Enabled(s, e)
    requires e.TokensReply? && s.tokens.upload.value.attaching
    ensures History(Step(s, e))
  {
    hide Step;
    OnAttachTokensReplyCounts(s, e);
    OnAttachTokensReplyOrder(s, e);
  }

  lemma OnEndAcceptedCounts(s: State, e: Event)
    requires Wired(s) && History(s) && Enabled(s, e)
    requires s.moduleState != Closed && e.EndReply? && e.accepted
    ensures Bounded(Step(s, e)) && Reported(Step(s, e))
  {
    hide InOrder;
    hide Requests;
    hide RequestStep;
    hide NetworkStep;
    hide DoClose;
    hide Lookups;
    hide Connects;
    hide Online;
    hide Count;
    hide Milestones;
    hide DetachesPaired;
    hide AttachesOrdered;
    hide Uploaded;
    Snoc(s.log, EndAccepted(s.platform.session));
    Snoc(s.log + [EndAccepted(s.platform.session)], AttachedEvent(s.platform.session));
  }

  lemma OnEndAcceptedOrder(s: State, e: Event)
    requires Wired(s) && History(s) && Enabled(s, e)
    requires s.moduleState != Closed && e.EndReply? && e.accepted
    ensures InOrder(Step(s, e))
  {
    hide Bounded;
    hide Reported;
    hide Requests;
    hide RequestStep;
    hide NetworkStep;
    hide DoClose;
    hide Lookups;
    hide Connects;
    hide Online;
    hide Count;
    hide Milestones;
    hide DetachesPaired;
    hide AttachesOrdered;
    hide Uploaded;
    Snoc(s.log, EndAccepted(s.platform.session));
    Snoc(s.log + [EndAccepted(s.platform.session)], AttachedEvent(s.platform.session));
  }

  lemma OnEndAccepted(s: State, e: Event)
    requires Wired(s) && History(s) && Enabled(s, e)
    requires s.moduleState != Closed && e.EndReply? && e.accepted
    ensures History(Step(s, e))
  {
    hide Step;
    OnEndAcceptedCounts(s, e);
    OnEndAcceptedOrder(s, e);
  }

  lemma HistoryStep(s: State, e: Event)
    requires Wired(s) && History(s) && Enabled(s, e)
    ensures History(Step(s, e))
  {
    hide Step;
    hide Wired;
    hide History;
    match e
    case Start => OnStart(s, e);
    case AsyncClose | Stop => OnCloseRequest(s, e);
    case AddToken(_, _, _) | KeepAliveTimeout | DtlsAccessDenied => OnSilent(s, e);
    case CloseEventRuns => OnCloseEvent(s, e);
    case DnsResolved(_) => OnDns(s, e);
    case TimerFires => OnTimer(s, e);
    case HandshakeComplete(_, _) => OnHandshake(s, e);
    case DtlsClosed => if s.state == Attached { OnDetached(s, e); } else { OnDtlsClosed(s, e); }
    case StartReply(status, _) =>
      if s.moduleState == Closed || status != StatusAttached {
        OnRefusal(s, e);
      } else if s.tokens.version == s.tokens.synchronized {
        OnStartWithoutTokens(s, e);
      } else {
        OnStartWithTokens(s, e);
      }
    case TokensReply(_, _) =>
      if s.tokens.upload.value.attaching { OnAttachTokensReply(s, e); } else { OnTokensReply(s, e); }
    case EndReply(accepted, _) =>
      if s.moduleState != Closed && accepted { OnEndAccepted(s, e); } else { OnRefusal(s, e); }
  }
}
