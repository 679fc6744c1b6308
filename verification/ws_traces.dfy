/**
  Properties of WSClient over whole schedules of events, and the scenarios
  below: concurrent callers may be written in any order, but none is lost or
  written twice; a request whose write fails is kept and is the first frame
  written on the next connection; a failed resend skips the worker restart and
  leads to another redial rather than a stop; giving up deactivates the client;
  responses are delivered in the order they were read; and the coordinator's
  redialling follows the loop rule of `reconnect`.
 */
module WsTraces {
  import opened Options
  import opened Backoff
  import opened WsClient
  import opened WsInvariant
  import Reconnect

  lemma PrefixDistinct(rs: seq<Request>, n: nat)
    requires IdsDistinct(rs) && n <= |rs|
    ensures IdsDistinct(rs[..n])
  {
  }

  /**
    From a started client, whatever happens: every request the writer took is
    written, waiting in the backlog, or held by a parked writer, in the order
    taken; no two of them share an identifier, and none shares one with a
    caller still blocked in `Send`; and each one-slot queue holds at most one item.
   */
  lemma NoRequestLostOrDuplicated(cfg: Config, events: seq<Event>)
    ensures Start(cfg, true).Some?
    ensures var c := Apply(Start(cfg, true).value, events);
            && c.accepted == c.sent + c.backlog + WriterHeld(c.writer)
            && |c.backlog| <= 1 && |c.reconnectAfter| <= 1
            && IdsDistinct(c.sent)
            && (forall i :: 0 <= i < |c.sent| ==> c.sent[i].id < c.nextReqId && c.sent[i].id !in c.pending)
  {
    StartEstablishes(cfg);
    var c := Apply(Start(cfg, true).value, events);
    ApplyPreserves(Start(cfg, true).value, events);
    assert c.sent == c.accepted[..|c.sent|];
    PrefixDistinct(c.accepted, |c.sent|);
    assert forall i :: 0 <= i < |c.sent| ==> c.sent[i] == c.accepted[i];
  }

  /**
    From a started client, whatever happens: the WaitGroup counts exactly the
    workers that have not exited, each exit closed the connection once, and the
    coordinator only redials once both workers of the old connection are gone.
   */
  lemma WaitGroupTracksWorkers(cfg: Config, events: seq<Event>)
    ensures Start(cfg, true).Some?
    ensures var c := Apply(Start(cfg, true).value, events);
            && 0 <= c.wg == Alive(c) <= 2
            && c.connCloses + c.wg == c.workersSpawned
            && (c.coordinator.Redialling? || c.coordinator == Resuming ==>
                  c.writer == WriterExited && c.reader == ReaderExited)
            && (IsActive(c) <==> c.running && !c.coordinator.Redialling?)
  {
    StartEstablishes(cfg);
    ApplyPreserves(Start(cfg, true).value, events);
  }

  /** A failed request write keeps the request in the backlog and queues exactly one error. */
  lemma FailedWriteKeepsRequest(c: Client, id: int)
    requires Inv(c) && c.writer == WriterLive && c.reconnectAfter == [] && id in c.pending
    ensures var c' := Step(c, SendTaken(id, false));
            && c'.backlog == [Request(id, c.pending[id])]
            && c'.reconnectAfter == [WriteFailed]
            && c'.sent == c.sent
            && c'.writer == WriterExited && c'.wg == c.wg - 1
  {
    assert c.backlog == [];
  }

  /** An enabled first event is taken, then the rest of the schedule runs. */
  lemma ApplyCons(c: Client, e: Event, rest: seq<Event>)
    requires Enabled(c, e)
    ensures Apply(c, [e] + rest) == Apply(Step(c, e), rest)
  {
    assert ([e] + rest)[0] == e;
    assert ([e] + rest)[1..] == rest;
  }

  /**
    Two callers take identifiers n and n+1, and the second one wins the race
    for the writer: the requests are written in the order n+1, n. Nothing ties
    the order of writes to the order identifiers were handed out.
   */
  lemma ConcurrentCallersMayBeWrittenOutOfOrder(c: Client, first: string, second: string)
    requires Inv(c) && c.writer == WriterLive
    ensures var n := c.nextReqId;
            var c' := Apply(c, [Call(first, true), Call(second, true), SendTaken(n + 1, true), SendTaken(n, true)]);
            && c'.sent == c.sent + [Request(n + 1, second), Request(n, first)]
            && c'.nextReqId == n + 2
            && c'.pending == c.pending
  {
    var n := c.nextReqId;
    var e0, e1, e2, e3 := Call(first, true), Call(second, true), SendTaken(n + 1, true), SendTaken(n, true);
    var c1 := Step(c, e0);
    var c2 := Step(c1, e1);
    assert c2.pending == c.pending[n := first][n + 1 := second];
    var c3 := Step(c2, e2);
    var c4 := Step(c3, e3);
    assert c4.sent == c.sent + [Request(n + 1, second), Request(n, first)];
    assert c4.pending == c.pending by {
      assert n !in c.pending && n + 1 !in c.pending;
    }
    assert [e0, e1, e2, e3] == [e0] + [e1, e2, e3];
    ApplyCons(c, e0, [e1, e2, e3]);
    assert [e1, e2, e3] == [e1] + [e2, e3];
    ApplyCons(c1, e1, [e2, e3]);
    assert [e2, e3] == [e2] + [e3];
    ApplyCons(c2, e2, [e3]);
    ApplyOne(c3, e3);
  }

  /** Running two schedules one after the other is running their concatenation. */
  lemma {:induction false} ApplyConcat(c: Client, first: seq<Event>, second: seq<Event>)
    ensures Apply(c, first + second) == Apply(Apply(c, first), second)
    decreases |first|
  {
    if |first| > 0 {
      var next := if Enabled(c, first[0]) then Step(c, first[0]) else c;
      assert (first + second)[0] == first[0];
      assert (first + second)[1..] == first[1..] + second;
      ApplyConcat(next, first[1..], second);
    } else {
      assert first + second == second;
    }
  }

  lemma ApplyOne(c: Client, e: Event)
    requires Enabled(c, e)
    ensures Apply(c, [e]) == Step(c, e)
  {
    assert [e][1..] == [];
  }

  /**
    The failing half: a caller takes an identifier, the writer takes its request
    and fails to write it, then the reader's read fails on the closed connection.
   */
  lemma WriteFailureHalf(c: Client, methodName: string)
    requires Inv(c) && !c.ctxDone
    requires c.writer == WriterLive && c.reader == ReaderLive
    requires c.coordinator == Awaiting && c.reconnectAfter == []
    ensures var d := Apply(c, [Call(methodName, true), SendTaken(c.nextReqId, false),
                               Read(ReadFailed(NonCloseError))]);
            && Inv(d) && !d.ctxDone && d.coordinator == Awaiting && d.wg == 0
            && d.reconnectAfter == [WriteFailed] && d.backlog == [Request(c.nextReqId, methodName)]
            && d.sent == c.sent && d.generation == c.generation && d.running == c.running
  {
    var e0 := Call(methodName, true);
    var e1 := SendTaken(c.nextReqId, false);
    var e2 := Read(ReadFailed(NonCloseError));
    var c1 := Step(c, e0);
    StepPreserves(c, e0);
    assert c1.pending[c.nextReqId] == methodName && c1.writer == WriterLive && c1.reconnectAfter == [];
    FailedWriteKeepsRequest(c1, c.nextReqId);
    var c2 := Step(c1, e1);
    StepPreserves(c1, e1);
    var c3 := Step(c2, e2);
    StepPreserves(c2, e2);
    ApplyOne(c2, e2);
    assert [e0, e1, e2][1..] == [e1, e2];
    assert [e1, e2][1..] == [e2];
  }

  /** The recovering half: take the error, join, dial once successfully, resend the backlog. */
  lemma RecoveryHalf(d: Client, req: Request, jitter: Jitter)
    requires Inv(d) && !d.ctxDone && d.coordinator == Awaiting && d.wg == 0
    requires d.reconnectAfter != [] && d.backlog == [req]
    ensures var c' := Apply(d, [CoordinatorTake, CoordinatorJoin,
                                CoordinatorAttempt(Reconnect.Attempt(jitter, Reconnect.DialSucceeded)),
                                CoordinatorResume(true)]);
            && c'.connWrites == [RequestFrame(req)] && c'.sent == d.sent + [req]
            && c'.backlog == [] && c'.reconnectAfter == []
            && c'.writer == WriterLive && c'.reader == ReaderLive && c'.wg == 2
            && c'.generation == d.generation + 1 && IsActive(c') == d.running
  {
    var e2 := CoordinatorAttempt(Reconnect.Attempt(jitter, Reconnect.DialSucceeded));
    var d1 := Step(d, CoordinatorTake);
    var d2 := Step(d1, CoordinatorJoin);
    var d3 := Step(d2, e2);
    assert d3.coordinator == Resuming && d3.connWrites == [] && d3.backlog == [req];
    var d4 := Step(d3, CoordinatorResume(true));
    assert d4.connWrites == [RequestFrame(req)] && d4.sent == d.sent + [req] && d4.backlog == [];
    var l3 := [CoordinatorJoin, e2, CoordinatorResume(true)];
    var l2 := [e2, CoordinatorResume(true)];
    assert [CoordinatorTake, CoordinatorJoin, e2, CoordinatorResume(true)][1..] == l3;
    assert l3[1..] == l2;
    assert l2[1..] == [CoordinatorResume(true)];
    ApplyOne(d3, CoordinatorResume(true));
    assert Apply(d2, l2) == d4;
    assert Apply(d1, l3) == d4;
  }

  /**
    The scenario of a request whose write fails: the reader then sees its
    connection closed under it, the coordinator takes the error, waits for both
    workers, redials once successfully and resends the backlog. The request is
    the first frame written on the new connection and a new worker pair runs.
   */
  lemma BacklogIsFirstFrameAfterReconnect(c: Client, methodName: string, jitter: Jitter)
    requires Inv(c) && !c.ctxDone
    requires c.writer == WriterLive && c.reader == ReaderLive
    requires c.coordinator == Awaiting && c.reconnectAfter == []
    ensures var c' := Apply(c, [Call(methodName, true), SendTaken(c.nextReqId, false),
                                Read(ReadFailed(NonCloseError)),
                                CoordinatorTake, CoordinatorJoin,
                                CoordinatorAttempt(Reconnect.Attempt(jitter, Reconnect.DialSucceeded)),
                                CoordinatorResume(true)]);
            && c'.connWrites == [RequestFrame(Request(c.nextReqId, methodName))]
            && c'.sent == c.sent + [Request(c.nextReqId, methodName)]
            && c'.backlog == [] && c'.reconnectAfter == []
            && c'.writer == WriterLive && c'.reader == ReaderLive && c'.wg == 2
            && c'.generation == c.generation + 1 && IsActive(c') == c.running
  {
    var failing := [Call(methodName, true), SendTaken(c.nextReqId, false), Read(ReadFailed(NonCloseError))];
    var recovering := [CoordinatorTake, CoordinatorJoin,
                       CoordinatorAttempt(Reconnect.Attempt(jitter, Reconnect.DialSucceeded)),
                       CoordinatorResume(true)];
    assert failing + recovering == [Call(methodName, true), SendTaken(c.nextReqId, false),
                                    Read(ReadFailed(NonCloseError)),
                                    CoordinatorTake, CoordinatorJoin,
                                    CoordinatorAttempt(Reconnect.Attempt(jitter, Reconnect.DialSucceeded)),
                                    CoordinatorResume(true)];
    ApplyConcat(c, failing, recovering);
    WriteFailureHalf(c, methodName);
    RecoveryHalf(Apply(c, failing), Request(c.nextReqId, methodName), jitter);
  }

  /**
    A failed backlog resend does not restart the workers and does not stop the
    client: the requeued request stays, and the error it queued is what the
    coordinator takes next, leading to another full redial.
   */
  lemma ResendFailureRedialsAgain(c: Client)
    requires Inv(c) && c.coordinator == Resuming && !c.ctxDone && c.backlog != []
    ensures var c' := Step(c, CoordinatorResume(false));
            && c'.coordinator == Awaiting
            && c'.writer == WriterExited && c'.reader == ReaderExited && c'.wg == 0
            && c'.backlog == c.backlog && c'.reconnectAfter == [ResendFailed]
            && c'.running == c.running
            && Enabled(c', CoordinatorTake)
            && var c'' := Step(Step(c', CoordinatorTake), CoordinatorJoin);
               c''.coordinator == Redialling(0) && IsReconnecting(c'') && c''.backlog == c.backlog
  {
  }

  /** The last permitted failed dial stops the client: it is no longer active and ResponsesCh is closed. */
  lemma GivingUpDeactivates(c: Client, jitter: Jitter)
    requires Inv(c) && c.coordinator == Redialling(c.cfg.maxReconnectAttempts)
    ensures var c' := Step(c, CoordinatorAttempt(Reconnect.Attempt(jitter, Reconnect.DialFailed)));
            && !IsActive(c') && !IsReconnecting(c') && c'.coordinator == Finished
            && (c.running ==> c'.responsesClosed)
            && c'.wg == 0 && c'.backlog == c.backlog
  {
  }

  /**
    A read error that is not a close frame (a timeout or a broken socket) ends
    the reader without waking the writer or queueing an error: the client still
    reports itself active and no reconnect is pending.
   */
  lemma NonCloseReadErrorStaysSilent(c: Client)
    requires Inv(c) && c.reader == ReaderLive && c.writer == WriterLive && c.reconnectAfter == []
    ensures var c' := Step(c, Read(ReadFailed(NonCloseError)));
            && c'.reader == ReaderExited && c'.writer == WriterLive
            && c'.reconnectAfter == [] && !c'.readQuitClosed
            && IsActive(c') == IsActive(c)
  {
  }

  // ---------------------------------------------------------------------------
  // Delivery order

  /** The responses a run of frames should deliver: the valid ones, in order. */
  function Forwarded(frames: seq<Frame>): seq<Response>
  {
    if |frames| == 0 then []
    else (if Forwardable(frames[0]) then [frames[0].response] else []) + Forwarded(frames[1..])
  }

  /** The responses one event puts on ResponsesCh: a valid frame that the reader delivers before any cancellation. */
  function Delivers(e: Event): seq<Response>
  {
    if e.Read? && e.outcome.FrameRead? && !e.outcome.cancelled && Forwardable(e.outcome.frame)
    then [e.outcome.frame.response] else []
  }

  lemma WriterKeepsResponses(c: Client, e: Event)
    requires Enabled(c, e)
    requires e.SendTaken? || e.Tick? || e.WriterQuitSeen? || e.WriterCancelSeen? || e.WriterUnpark?
    ensures Step(c, e).responses == c.responses
  {
  }

  lemma CoordinatorKeepsResponses(c: Client, e: Event)
    requires Enabled(c, e)
    requires e.CoordinatorTake? || e.CoordinatorCancel? || e.CoordinatorJoin? || e.CoordinatorAttempt?
    ensures Step(c, e).responses == c.responses
  {
  }

  lemma ResumeKeepsResponses(c: Client, resendOk: bool)
    requires Enabled(c, CoordinatorResume(resendOk))
    ensures Step(c, CoordinatorResume(resendOk)).responses == c.responses
  {
    assert ProcessBacklog(c.(reconnectAfter := []), resendOk).0.responses == c.responses;
  }

  /** Only the reader's delivery of a valid frame touches the delivered responses. */
  lemma StepResponses(c: Client, e: Event)
    requires Enabled(c, e)
    ensures Step(c, e).responses == c.responses + Delivers(e)
  {
    match e
    case Read(_) =>
    case CoordinatorResume(resendOk) => ResumeKeepsResponses(c, resendOk);
    case SendTaken(_, _) => WriterKeepsResponses(c, e);
    case Tick(_, _) => WriterKeepsResponses(c, e);
    case WriterQuitSeen => WriterKeepsResponses(c, e);
    case WriterCancelSeen(_) => WriterKeepsResponses(c, e);
    case WriterUnpark => WriterKeepsResponses(c, e);
    case CoordinatorTake => CoordinatorKeepsResponses(c, e);
    case CoordinatorCancel => CoordinatorKeepsResponses(c, e);
    case CoordinatorJoin => CoordinatorKeepsResponses(c, e);
    case CoordinatorAttempt(_) => CoordinatorKeepsResponses(c, e);
    case _ =>
  }

  /** The frame the reader takes in one event, if it takes one before any cancellation. */
  function Took(c: Client, e: Event): seq<Frame>
  {
    if Enabled(c, e) && e.Read? && e.outcome.FrameRead? && !e.outcome.cancelled then [e.outcome.frame] else []
  }

  /** The frames the reader takes during a schedule, in order, leaving out reads that lost to cancellation. */
  function FramesRead(c: Client, events: seq<Event>): seq<Frame>
    decreases |events|
  {
    if |events| == 0 then []
    else Took(c, events[0]) + FramesRead(if Enabled(c, events[0]) then Step(c, events[0]) else c, events[1..])
  }

  lemma {:induction false} ForwardedConcat(a: seq<Frame>, b: seq<Frame>)
    ensures Forwarded(a + b) == Forwarded(a) + Forwarded(b)
    decreases |a|
  {
    if |a| == 0 {
      assert a + b == b;
    } else {
      assert (a + b)[0] == a[0];
      assert (a + b)[1..] == a[1..] + b;
      ForwardedConcat(a[1..], b);
    }
  }

  /** One event, enabled or not, delivers exactly the valid frame it took. */
  lemma NextResponses(c: Client, e: Event)
    ensures (if Enabled(c, e) then Step(c, e) else c).responses == c.responses + Forwarded(Took(c, e))
  {
    if Enabled(c, e) {
      StepResponses(c, e);
      if e.Read? && e.outcome.FrameRead? && !e.outcome.cancelled {
        assert [e.outcome.frame][1..] == [];
      }
    }
  }

  /**
    Whatever else happens in between, responses reach ResponsesCh exactly in
    the order the reader took their frames, skipping the unparsable ones and
    those with a bad identifier, and nothing else adds or removes one.
   */
  lemma {:induction false} ResponsesInReadOrder(c: Client, events: seq<Event>)
    ensures Apply(c, events).responses == c.responses + Forwarded(FramesRead(c, events))
    decreases |events|
  {
    if |events| > 0 {
      var next := if Enabled(c, events[0]) then Step(c, events[0]) else c;
      assert Apply(c, events) == Apply(next, events[1..]);
      ResponsesInReadOrder(next, events[1..]);
      NextResponses(c, events[0]);
      ForwardedConcat(Took(c, events[0]), FramesRead(next, events[1..]));
    }
  }

  // ---------------------------------------------------------------------------
  // Redialling

  function AttemptEvents(xs: seq<Reconnect.Attempt>): (events: seq<Event>)
    ensures |events| == |xs|
  {
    seq(|xs|, i requires 0 <= i < |xs| => CoordinatorAttempt(xs[i]))
  }

  /** Once the loop has returned, further iterations are not ready and change nothing. */
  lemma {:induction false} AttemptsAfterReturnAreIgnored(c: Client, xs: seq<Reconnect.Attempt>)
    requires !c.coordinator.Redialling?
    ensures Apply(c, AttemptEvents(xs)) == c
    decreases |xs|
  {
    if |xs| > 0 {
      assert !Enabled(c, AttemptEvents(xs)[0]);
      assert AttemptEvents(xs)[1..] == AttemptEvents(xs[1..]);
      AttemptsAfterReturnAreIgnored(c, xs[1..]);
    }
  }

  /**
    The coordinator's redial phase follows the loop of `reconnect` iteration by
    iteration: it is still redialling exactly when the loop is, at the same
    attempt; it resumes exactly when the loop reconnected; and giving up stops
    the client.
   */
  lemma {:induction false} RedialFollowsLoop(c: Client, xs: seq<Reconnect.Attempt>)
    requires Inv(c) && c.coordinator.Redialling?
    requires c.ctxDone || forall i :: 0 <= i < |xs| ==> xs[i].outcome != Reconnect.ContextDone
    ensures var r := Reconnect.RunFrom(c.cfg.maxReconnectAttempts, c.coordinator.attempt, xs);
            var c' := Apply(c, AttemptEvents(xs));
            && (c'.coordinator.Redialling? <==> r.verdict.Redialling?)
            && (r.verdict.Redialling? ==> c'.coordinator.attempt == r.verdict.attempt)
            && (c'.coordinator == Resuming <==> r.verdict == Reconnect.Reconnected)
            && (r.verdict == Reconnect.Reconnected ==> c'.generation == c.generation + 1)
            && (r.verdict == Reconnect.GaveUp ==> c'.coordinator == Finished && !c'.running)
            && (IsReconnecting(c') <==> r.verdict.Redialling?)
    decreases |xs|
  {
    var max := c.cfg.maxReconnectAttempts;
    var a := c.coordinator.attempt;
    if |xs| > 0 {
      var e := CoordinatorAttempt(xs[0]);
      assert AttemptEvents(xs)[0] == e;
      assert AttemptEvents(xs)[1..] == AttemptEvents(xs[1..]);
      assert Enabled(c, e);
      var next := Step(c, e);
      StepPreserves(c, e);
      if next.coordinator.Redialling? {
        assert forall i :: 0 <= i < |xs[1..]| ==> xs[1..][i] == xs[i + 1];
        RedialFollowsLoop(next, xs[1..]);
      } else {
        AttemptsAfterReturnAreIgnored(next, xs[1..]);
      }
    }
  }

}
