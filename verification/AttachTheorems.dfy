/** The guarantees of the attach protocol, for every run the platform contract allows. */
module AttachTheorems {
  import opened Bytes
  import opened AttachProtocol
  import opened AttachSafety
  import opened AttachHistory

  lemma RunSnoc(es: seq<Event>, e: Event)
    requires Run(es).Some?
    ensures Run(es + [e]) == if Enabled(Run(es).value, e) then Some(Step(Run(es).value, e)) else None
  {
    hide Step;
    hide Enabled;
    assert (es + [e])[..|es|] == es;
  }

  lemma {:induction false} RunsAreSafe(es: seq<Event>)
    requires Run(es).Some?
    ensures var s := Run(es).value; Wired(s) && TokensKept(s) && History(s)
  {
    if es == [] {
      InitiallySafe();
    } else {
      RunsAreSafe(es[..|es| - 1]);
      SafeStep(Run(es[..|es| - 1]).value, es[|es| - 1]);
    }
  }

  lemma InitiallySafe()
    ensures Wired(INITIAL) && TokensKept(INITIAL) && History(INITIAL)
  {
  }

  lemma SafeStep(s: State, e: Event)
    requires Enabled(s, e) && Wired(s) && TokensKept(s) && History(s)
    ensures Wired(Step(s, e)) && TokensKept(Step(s, e)) && History(Step(s, e))
  {
    hide RequestStep;
    hide ReplyStep;
    hide NetworkStep;
    hide Enabled;
    hide Wired;
    hide TokensKept;
    hide History;
    WiredStep(s, e);
    HistoryStep(s, e);
    if IsRequest(e) {
      TokensKeptOnRequest(s, e);
    } else if IsReply(e) {
      TokensKeptOnReply(s, e);
    } else {
      TokensKeptOnNetwork(s, e);
    }
  }

  // ----- What an attached device has uploaded -----------------------------------------------------

  /** What the tokens were when an attach-start was accepted. */
  datatype Accepted = Accepted(session: nat, version: nat, tokens: set<string>)

  function NextAccepted(s: State, e: Event, was: Option<Accepted>): Option<Accepted> {
    if e.StartReply? && e.status == StatusAttached && s.moduleState != Closed
    then Some(Accepted(s.platform.session, s.tokens.version, s.tokens.local))
    else was
  }

  /** The latest attach-start that was accepted in a run. */
  function LatestAccepted(es: seq<Event>): Option<Accepted>
    requires Run(es).Some?
  {
    if es == [] then None
    else NextAccepted(Run(es[..|es| - 1]).value, es[|es| - 1], LatestAccepted(es[..|es| - 1]))
  }

  /** An attach upload carries the tokens of its attach-start, and attach-end is sent only after the server has them. */
  predicate Carried(s: State, latest: Option<Accepted>) {
    && (s.platform.dtls == Open && AttachUpload(s) ==>
          latest == Some(Accepted(s.platform.session, s.tokens.uploading, s.tokens.sent)))
    && (s.platform.dtls == Open && s.end == Some(s.platform.session) ==>
          latest == Some(Accepted(s.platform.session, s.tokens.synchronized, s.tokens.acked)))
    && (s.platform.dtls == Open && s.tokens.upload == Some(Upload(false, s.platform.session)) ==> s.state == Attached)
  }

  lemma CarriedOnRequest(s: State, e: Event, latest: Option<Accepted>)
    requires IsRequest(e) && Enabled(s, e) && Wired(s) && Carried(s, latest)
    ensures Carried(RequestStep(s, e), NextAccepted(s, e, latest))
  {
    hide Requests;
    hide Uploaded;
  }

  lemma CarriedOnNetwork(s: State, e: Event, latest: Option<Accepted>)
    requires !IsRequest(e) && !IsReply(e) && Enabled(s, e) && Wired(s) && Carried(s, latest)
    ensures Carried(NetworkStep(s, e), NextAccepted(s, e, latest))
  {
    hide EntryLog;
    hide Progressing;
  }

  lemma CarriedOnStart(s: State, e: Event, latest: Option<Accepted>)
    requires e.StartReply? && Enabled(s, e) && Wired(s) && TokensKept(s) && Carried(s, latest)
    ensures Carried(ReplyStep(s, e), NextAccepted(s, e, latest))
  {
    hide TokensReplyStep;
    hide EndAcceptedStep;
  }

  lemma CarriedOnTokens(s: State, e: Event, latest: Option<Accepted>)
    requires e.TokensReply? && Enabled(s, e) && Wired(s) && Carried(s, latest)
    ensures Carried(ReplyStep(s, e), NextAccepted(s, e, latest))
  {
    hide Requests;
    hide StartAcceptedStep;
    hide EndAcceptedStep;
  }

  lemma CarriedOnEnd(s: State, e: Event, latest: Option<Accepted>)
    requires e.EndReply? && Enabled(s, e) && Wired(s) && Carried(s, latest)
    ensures Carried(ReplyStep(s, e), NextAccepted(s, e, latest))
  {
    hide StartAcceptedStep;
    hide TokensReplyStep;
  }

  lemma {:induction false} TokensAreCarried(es: seq<Event>)
    requires Run(es).Some?
    ensures Carried(Run(es).value, LatestAccepted(es))
  {
    hide RequestStep;
    hide ReplyStep;
    hide NetworkStep;
    hide Enabled;
    hide NextAccepted;
    if es != [] {
      hide Carried;
      var before, e := es[..|es| - 1], es[|es| - 1];
      var s := Run(before).value;
      TokensAreCarried(before);
      RunsAreSafe(before);
      if IsRequest(e) {
        CarriedOnRequest(s, e, LatestAccepted(before));
      } else if IsReply(e) {
        match e
        case StartReply(_, _) => CarriedOnStart(s, e, LatestAccepted(before));
        case TokensReply(_, _) => CarriedOnTokens(s, e, LatestAccepted(before));
        case EndReply(_, _) => CarriedOnEnd(s, e, LatestAccepted(before));
      } else {
        CarriedOnNetwork(s, e, LatestAccepted(before));
      }
    }
  }

  /**
   * Whenever the device attaches, the server has acknowledged exactly the tokens
   * there were when the attach-start of this session was accepted.
   */
  lemma AttachedWithTokens(es: seq<Event>, e: Event)
    requires Run(es).Some? && Enabled(Run(es).value, e)
    requires Run(es).value.state != Attached && Step(Run(es).value, e).state == Attached
    ensures var s := Run(es).value;
            LatestAccepted(es) == Some(Accepted(s.platform.session, s.tokens.synchronized, s.tokens.acked))
  {
    hide Run;
    hide LatestAccepted;
    TokensAreCarried(es);
    AttachesByEnd(Run(es).value, e);
  }

  lemma AttachesByEnd(s: State, e: Event)
    requires Enabled(s, e) && s.state != Attached && Step(s, e).state == Attached
    ensures s.platform.dtls == Open && s.end == Some(s.platform.session)
  {
    hide AddedToken;
    hide EntryLog;
    hide WakeUps;
  }

  // ----- Waiting and closing --------------------------------------------------------------------

  function One(b: bool): nat {
    if b then 1 else 0
  }

  /** A running attacher waits for exactly one thing, the one its state names, and inside a session for one request. */
  lemma NeverStuck(es: seq<Event>)
    requires Run(es).Some? && Run(es).value.moduleState == Running
    ensures var s := Run(es).value;
            && One(s.platform.dnsPending) + One(s.platform.dtls != Idle) + One(s.platform.timer) == 1
            && (s.platform.dnsPending <==> s.state == Dns)
            && (s.platform.dtls != Idle <==> s.state in {DtlsAttachRequest, Redirect, Attached})
            && (s.platform.timer <==> s.state in {RetryWait, AccessDeniedWait})
            && (s.platform.dtls == Open && s.state != Attached ==> Pending(s) == 1)
  {
    RunsAreSafe(es);
  }

  /** From `s` to `t` the attacher stays closed, at most changes to CLOSED, and starts nothing new. */
  predicate WindsDown(s: State, t: State) {
    && t.moduleState == Closed
    && (t.state == s.state || t.state == AttacherClosed)
    && t.platform.session == s.platform.session
    && (t.platform.dnsPending ==> s.platform.dnsPending) && (t.platform.timer ==> s.platform.timer)
    && Lookups(t.log) <= Lookups(s.log)
  }

  lemma NoLookup(log: seq<Note>, x: Note)
    requires x != Lookup
    ensures Lookups(log + [x]) <= Lookups(log)
  {
    assert (log + [x])[..|log|] == log;
  }

  lemma WindsDownOnRequest(s: State, e: Event)
    requires s.moduleState == Closed && IsRequest(e)
    ensures WindsDown(s, RequestStep(s, e))
  {
    hide Lookups;
    hide Uploaded;
    hide AddedToken;
    NoLookup(s.log, CloseAsked);
    NoLookup(s.log, CloseCalled);
  }

  lemma WindsDownOnNetwork(s: State, e: Event)
    requires s.moduleState == Closed && WakeUps(s) && Enabled(s, e) && !IsRequest(e) && !IsReply(e)
    ensures WindsDown(s, NetworkStep(s, e))
  {
    hide Lookups;
    NoLookup(s.log, TimerFired);
  }

  lemma WindsDownOnReply(s: State, e: Event)
    requires s.moduleState == Closed && Enabled(s, e) && IsReply(e)
    ensures WindsDown(s, ReplyStep(s, e))
  {
    hide Lookups;
    hide Uploaded;
    hide Answered;
    hide SendEnd;
    hide StartAcceptedStep;
    hide EndAcceptedStep;
  }

  /** A closed attacher can only wind down, whatever happens. */
  lemma ClosedOnlyCloses(es: seq<Event>, e: Event)
    requires Run(es).Some? && Run(es).value.moduleState == Closed && Enabled(Run(es).value, e)
    ensures WindsDown(Run(es).value, Step(Run(es).value, e))
  {
    hide WindsDown;
    hide RequestStep;
    hide ReplyStep;
    hide NetworkStep;
    var s := Run(es).value;
    RunsAreSafe(es);
    if IsRequest(e) {
      WindsDownOnRequest(s, e);
    } else if IsReply(e) {
      WindsDownOnReply(s, e);
    } else {
      WindsDownOnNetwork(s, e);
    }
  }

  /** How far the close callback is away: the outstanding answer, then the close event. */
  function CloseRank(s: State): nat {
    if !s.closedCb then 0 else if s.platform.closeEvent then 1 else 2
  }

  function CloseWaitsFor(s: State): Event {
    if s.platform.closeEvent then CloseEventRuns else if s.platform.dnsPending then DnsResolved(false) else DtlsClosed
  }

  /**
   * While a close callback is owed, what it waits for is outstanding and brings
   * it closer, and no event moves it away.
   */
  lemma CloseCompletes(es: seq<Event>, e: Event)
    requires Run(es).Some? && Run(es).value.closedCb && Enabled(Run(es).value, e)
    ensures var s := Run(es).value;
            && Enabled(s, CloseWaitsFor(s))
            && CloseRank(Step(s, CloseWaitsFor(s))) < CloseRank(s)
            && CloseRank(Step(s, e)) <= CloseRank(s)
  {
    hide SendEnd;
    hide Uploaded;
    hide Answered;
    hide AddedToken;
    hide TokensKept;
    hide History;
    hide Requests;
    hide Progressing;
    RunsAreSafe(es);
  }

  /** The close callback runs at most once for each request to close. */
  lemma CloseCallbackOncePerRequest(es: seq<Event>)
    requires Run(es).Some?
    ensures Count(Run(es).value.log, CloseCalled) <= Count(Run(es).value.log, CloseAsked)
  {
    RunsAreSafe(es);
  }

  // ----- Redirects and attach events -----------------------------------------------------------

  lemma AtMostFiveLookups(es: seq<Event>)
    requires Run(es).Some?
    ensures Connects(Run(es).value.log) <= Lookups(Run(es).value.log) <= 5
  {
    RunsAreSafe(es);
  }

  /** ATTACHED is reported only after handshake, attach-start, tokens and attach-end of its own session. */
  lemma AttachedInOrder(es: seq<Event>, k: nat)
    requires Run(es).Some? && k < |Run(es).value.log| && Run(es).value.log[k].AttachedEvent?
    ensures var log := Run(es).value.log;
            Milestones(log[..k], log[k].session) == Sequence(log[k].session)
  {
    RunsAreSafe(es);
  }

  lemma {:induction false} OnlineSince(log: seq<Note>, i: nat)
    requires i < |log| && log[i] == DetachedEvent && Online(log)
    ensures exists k :: i < k < |log| && log[k].AttachedEvent?
  {
    var n := |log| - 1;
    if !log[n].AttachedEvent? {
      OnlineSince(log[..n], i);
      var k :| i < k < n && log[..n][k].AttachedEvent?;
      assert log[k].AttachedEvent?;
    }
  }

  /** Between two DETACHED events the device was attached again. */
  lemma NoDoubleDetach(es: seq<Event>, i: nat, j: nat)
    requires Run(es).Some? && i < j < |Run(es).value.log|
    requires Run(es).value.log[i] == Run(es).value.log[j] == DetachedEvent
    ensures exists k :: i < k < j && Run(es).value.log[k].AttachedEvent?
  {
    hide Online;
    var log := Run(es).value.log;
    RunsAreSafe(es);
    OnlineSince(log[..j], i);
    var k :| i < k < j && log[..j][k].AttachedEvent?;
    assert log[k].AttachedEvent?;
  }

  // ----- Tokens ----------------------------------------------------------------------------------

  /** Equal versions mean that the latest acknowledged upload carried exactly the local tokens. */
  lemma TokenVersions(es: seq<Event>)
    requires Run(es).Some?
    ensures var t := Run(es).value.tokens;
            && t.synchronized <= t.uploading <= t.version
            && (t.upload.Some? ==> t.synchronized < t.version)
            && (t.synchronized == t.version ==> t.acked == t.local)
  {
    RunsAreSafe(es);
  }

  /** What became of the latest attempt to upload tokens. */
  datatype Attempt = NotTried | InFlight | Failed | Acknowledged

  predicate Due(t: Tokens) {
    t.version != t.synchronized && t.upload.None?
  }

  /** The event makes the attacher try an upload: tokens are due and none are under way. */
  predicate Tries(s: State, e: Event)
    requires Enabled(s, e)
  {
    match e
    case AddToken(_, stored, _) => stored && s.state == Attached && s.tokens.upload.None?
    case StartReply(status, _) => status == StatusAttached && s.moduleState != Closed && Due(s.tokens)
    case EndReply(accepted, _) => accepted && s.moduleState != Closed && Due(s.tokens)
    case TokensReply(acknowledged, _) =>
      acknowledged && !s.tokens.upload.value.attaching && s.tokens.uploading != s.tokens.version
    case _ => false
  }

  /** An attempt without memory fails at once; one under way ends with its reply. */
  function NextAttempt(s: State, e: Event, was: Attempt): Attempt
    requires Enabled(s, e)
  {
    if Tries(s, e) then if e.memory then InFlight else Failed
    else if e.TokensReply? then if e.acknowledged then Acknowledged else Failed
    else was
  }

  function LatestAttempt(es: seq<Event>): Attempt
    requires Run(es).Some?
  {
    if es == [] then NotTried
    else NextAttempt(Run(es[..|es| - 1]).value, es[|es| - 1], LatestAttempt(es[..|es| - 1]))
  }

  predicate NextRefused(s: State, e: Event, was: bool)
    requires Enabled(s, e)
  {
    !Tries(s, e) && (was || (e.AddToken? && !e.stored))
  }

  /** A token could not be stored since the latest attempt. */
  predicate RefusedSince(es: seq<Event>)
    requires Run(es).Some?
  {
    es != [] && NextRefused(Run(es[..|es| - 1]).value, es[|es| - 1], RefusedSince(es[..|es| - 1]))
  }

  /** The tokens of a state record the latest attempt and the refusals since. */
  predicate Records(t: Tokens, latest: Attempt, refused: bool) {
    (t.upload.Some? <==> latest == InFlight) && (t.failed <==> latest == Failed) && (t.refused <==> refused)
  }

  lemma RecordsRequest(s: State, e: Event, latest: Attempt, refused: bool)
    requires IsRequest(e) && Enabled(s, e) && TokensKept(s) && Records(s.tokens, latest, refused)
    ensures Records(RequestStep(s, e).tokens, NextAttempt(s, e, latest), NextRefused(s, e, refused))
  {
    hide Enter;
    hide CloseDtls;
    hide DoClose;
  }

  lemma RecordsReply(s: State, e: Event, latest: Attempt, refused: bool)
    requires IsReply(e) && Enabled(s, e) && TokensKept(s) && Records(s.tokens, latest, refused)
    ensures Records(ReplyStep(s, e).tokens, NextAttempt(s, e, latest), NextRefused(s, e, refused))
  {
    hide Enter;
    hide CloseDtls;
    hide SendEnd;
  }

  lemma RecordsNetwork(s: State, e: Event, latest: Attempt, refused: bool)
    requires !IsRequest(e) && !IsReply(e) && Enabled(s, e) && Records(s.tokens, latest, refused)
    ensures Records(NetworkStep(s, e).tokens, NextAttempt(s, e, latest), NextRefused(s, e, refused))
  {
    hide Enter;
    hide CloseDtls;
    hide DtlsClosedStep;
  }

  lemma {:induction false} AttemptsAreRecorded(es: seq<Event>)
    requires Run(es).Some?
    ensures Records(Run(es).value.tokens, LatestAttempt(es), RefusedSince(es))
  {
    hide RequestStep;
    hide ReplyStep;
    hide NetworkStep;
    hide Enabled;
    hide NextAttempt;
    hide NextRefused;
    if es != [] {
      hide Records;
      var before, e := es[..|es| - 1], es[|es| - 1];
      var s := Run(before).value;
      AttemptsAreRecorded(before);
      RunsAreSafe(before);
      if IsRequest(e) {
        RecordsRequest(s, e, LatestAttempt(before), RefusedSince(before));
      } else if IsReply(e) {
        RecordsReply(s, e, LatestAttempt(before), RefusedSince(before));
      } else {
        RecordsNetwork(s, e, LatestAttempt(before), RefusedSince(before));
      }
    }
  }

  /** The promise that attached devices synchronize: a mismatch is being uploaded or an attempt failed. */
  predicate Synchronizing(es: seq<Event>)
    requires Run(es).Some?
  {
    var s := Run(es).value;
    s.state == Attached && s.tokens.version != s.tokens.synchronized ==> LatestAttempt(es) in {InFlight, Failed}
  }

  /**
   * The promise is broken exactly by a token that could not be stored after an
   * acknowledged upload, or before any.
   */
  lemma SynchronizingIff(es: seq<Event>)
    requires Run(es).Some? && Run(es).value.state == Attached
    ensures Synchronizing(es) <==> !(LatestAttempt(es) in {NotTried, Acknowledged} && RefusedSince(es))
  {
    hide Run;
    hide LatestAttempt;
    hide RefusedSince;
    RunsAreSafe(es);
    AttemptsAreRecorded(es);
  }

  lemma {:induction false} NothingRefused(es: seq<Event>)
    requires Run(es).Some?
    requires forall i :: 0 <= i < |es| && es[i].AddToken? ==> es[i].stored
    ensures !RefusedSince(es)
  {
    hide Enabled;
    hide Step;
    hide Tries;
    if es != [] {
      NothingRefused(es[..|es| - 1]);
    }
  }

  /** With memory for every added token the promise holds throughout. */
  lemma StoredTokensSynchronize(es: seq<Event>)
    requires Run(es).Some?
    requires forall i :: 0 <= i < |es| && es[i].AddToken? ==> es[i].stored
    ensures Synchronizing(es)
  {
    hide Run;
    hide LatestAttempt;
    hide RefusedSince;
    NothingRefused(es);
    if Run(es).value.state == Attached { SynchronizingIff(es); }
  }

  const ATTACHING := [Start, DnsResolved(true), HandshakeComplete(true, true), StartReply(StatusAttached, true),
                      EndReply(true, true)]

  /** A token that cannot be stored still raises the version, and nothing uploads it. */
  lemma RefusedTokenIsNotSynchronized()
    ensures var es := ATTACHING + [AddToken("t", false, true)];
            Run(es).Some? && !Synchronizing(es)
  {
    hide Run;
    hide LatestAttempt;
    hide RefusedSince;
    var s := AttachingRun();
    RunSnoc(ATTACHING, AddToken("t", false, true));
    NotStored(s);
    AttemptsAreRecorded(ATTACHING + [AddToken("t", false, true)]);
  }

  lemma NotStored(s: State)
    requires s.state == Attached && s.tokens == NO_TOKENS
    ensures var t := Step(s, AddToken("t", false, true));
            t.state == Attached && t.tokens == NO_TOKENS.(version := 1, refused := true)
  {
  }

  /** A running attacher without tokens or a queued close event. */
  predicate Plain(s: State) {
    s.moduleState == Running && !s.platform.closeEvent && s.tokens == NO_TOKENS && s.end.None?
  }

  lemma Begin()
    ensures Enabled(INITIAL, ATTACHING[0])
    ensures var t := Step(INITIAL, ATTACHING[0]); Plain(t) && t.platform.dnsPending && t.start.None?
  {
  }

  lemma LookupAndConnect(s: State)
    requires Plain(s) && s.platform.dnsPending && s.start.None?
    ensures Enabled(s, ATTACHING[1])
    ensures var t := Step(s, ATTACHING[1]); Plain(t) && t.platform.dtls == Connecting && t.start.None?
  {
  }

  lemma HandshakeAndStart(s: State)
    requires Plain(s) && s.platform.dtls == Connecting && s.start.None?
    ensures Enabled(s, ATTACHING[2])
    ensures var t := Step(s, ATTACHING[2]); Plain(t) && t.platform.dtls == Open && t.start == Some(t.platform.session)
  {
  }

  lemma StartAndEnd(s: State)
    requires Plain(s) && s.platform.dtls == Open && s.start == Some(s.platform.session)
    ensures Enabled(s, ATTACHING[3])
    ensures var t := Step(s, ATTACHING[3]);
            && Enabled(t, ATTACHING[4])
            && var u := Step(t, ATTACHING[4]);
            u.state == Attached && u.tokens == NO_TOKENS
  {
  }

  lemma AttachingRun() returns (s: State)
    ensures Run(ATTACHING) == Some(s) && s.state == Attached && s.tokens == NO_TOKENS
  {
    hide Run;
    hide Step;
    hide Enabled;
    Empty();
    Begin();
    RunSnoc([], ATTACHING[0]);
    assert [] + [ATTACHING[0]] == ATTACHING[..1];
    s := Step(INITIAL, ATTACHING[0]);
    LookupAndConnect(s);
    RunSnoc(ATTACHING[..1], ATTACHING[1]);
    assert ATTACHING[..1] + [ATTACHING[1]] == ATTACHING[..2];
    s := Step(s, ATTACHING[1]);
    HandshakeAndStart(s);
    RunSnoc(ATTACHING[..2], ATTACHING[2]);
    assert ATTACHING[..2] + [ATTACHING[2]] == ATTACHING[..3];
    s := Step(s, ATTACHING[2]);
    StartAndEnd(s);
    RunSnoc(ATTACHING[..3], ATTACHING[3]);
    assert ATTACHING[..3] + [ATTACHING[3]] == ATTACHING[..4];
    s := Step(s, ATTACHING[3]);
    RunSnoc(ATTACHING[..4], ATTACHING[4]);
    assert ATTACHING[..4] + [ATTACHING[4]] == ATTACHING;
    s := Step(s, ATTACHING[4]);
  }

  lemma Empty()
    ensures Run([]) == Some(INITIAL)
  {
  }

  /** The close event of a close requested before start must not run after the DNS answer: it would stop the timer. */
  lemma QueueOrderMatters()
    ensures var s := Run([Stop, Start]);
            && s.Some? && s.value.platform.closeEvent && s.value.platform.dnsPending
            && var t := NetworkStep(s.value, DnsResolved(false));
            && Enabled(t, CloseEventRuns)
            && var u := Step(t, CloseEventRuns);
            u.moduleState == Running && !u.platform.dnsPending && u.platform.dtls == Idle && !u.platform.timer
  {
    hide Run;
    StopThenStart();
  }

  const STOPPED_THEN_STARTED :=
    INITIAL.(moduleState := Running, platform := Platform(true, false, true, Idle, 0), log := [Lookup])

  lemma StopThenStart()
    ensures Run([Stop, Start]) == Some(STOPPED_THEN_STARTED)
  {
    hide Run;
    Empty();
    RunSnoc([], Stop);
    assert [] + [Stop] == [Stop];
    RunSnoc([Stop], Start);
    assert [Stop] + [Start] == [Stop, Start];
    assert INITIAL.log + [Lookup] == [Lookup];
  }
}
