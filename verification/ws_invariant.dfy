/**
  The invariant the WSClient bookkeeping keeps across every event, and the
  proof that each step preserves it.

  It says: both one-slot queues hold at most one item; the WaitGroup counts
  exactly the workers that have not run their deferred exit, and every exit
  closed the connection once; the writer never blocks on the backlog, because
  the backlog is empty whenever a writer is around; every request the writer
  took is either written, in the backlog, or still held by a parked writer, in
  the order the writer took them; no identifier is taken twice, whether by two
  requests the writer took or by one of those and a caller still blocked in
  `Send`; and the
  reconnecting flag is raised exactly while the coordinator is redialling,
  when no worker is alive.
 */
module WsInvariant {
  import opened Options
  import opened WsClient
  import Reconnect

  /** The request a parked writer still holds. */
  function WriterHeld(w: Writer): seq<Request>
  {
    match w
    case WriterParked(Some(r), _) => [r]
    case WriterParkedOnBacklog(r) => [r]
    case _ => []
  }

  /** No two requests share an identifier. */
  predicate IdsDistinct(rs: seq<Request>)
  {
    forall i, j :: 0 <= i < j < |rs| ==> rs[i].id != rs[j].id
  }

  predicate Inv(c: Client)
  {
    && |c.backlog| <= SlotCapacity
    && |c.reconnectAfter| <= SlotCapacity
    && c.wg == Alive(c)
    && c.connCloses + c.wg == c.workersSpawned
    && (c.writer != WriterExited ==> c.backlog == [])
    && !c.writer.WriterParkedOnBacklog?
    && (c.reader == ReaderLive ==> !c.readQuitClosed)
    && c.accepted == c.sent + c.backlog + WriterHeld(c.writer)
    && IdsDistinct(c.accepted)
    && (forall i :: 0 <= i < |c.accepted| ==> c.accepted[i].id < c.nextReqId && c.accepted[i].id !in c.pending)
    && (forall id :: id in c.pending ==> id < c.nextReqId)
    && (c.coordinator.Redialling? ==> c.coordinator.attempt <= c.cfg.maxReconnectAttempts)
    && (c.coordinator.Redialling? || c.coordinator == Resuming ==> c.wg == 0)
    && (c.reconnecting <==> c.coordinator.Redialling?)
    && (c.coordinator == Resuming ==> c.workersSpawned == 0 && c.connWrites == [])
    && (c.responsesClosed ==> !c.running)
  }

  lemma StartEstablishes(cfg: Config)
    ensures Start(cfg, true).Some? && Inv(Start(cfg, true).value)
  {
  }

  /** A failed first dial leaves a client that satisfies the invariant yet stays active with nothing running. */
  lemma FailedStartStaysActive(cfg: Config)
    ensures Start(cfg, false).None?
    ensures Inv(StartAfterFailedDial(cfg)) && IsActive(StartAfterFailedDial(cfg))
  {
  }

  lemma AppendDistinct(rs: seq<Request>, r: Request)
    requires IdsDistinct(rs)
    requires forall i :: 0 <= i < |rs| ==> rs[i].id != r.id
    ensures IdsDistinct(rs + [r])
  {
  }

  lemma CallPreserves(c: Client, methodName: string, encodes: bool)
    requires Inv(c)
    ensures Inv(Step(c, Call(methodName, encodes)))
  {
  }

  lemma SendTakenPreserves(c: Client, id: int, writeOk: bool)
    requires Inv(c) && Enabled(c, SendTaken(id, writeOk))
    ensures Inv(Step(c, SendTaken(id, writeOk)))
  {
    var c' := Step(c, SendTaken(id, writeOk));
    var req := Request(id, c.pending[id]);
    AppendDistinct(c.accepted, req);
    assert c'.accepted == c.accepted + [req];
    if writeOk {
      assert c'.accepted == c'.sent + c'.backlog + WriterHeld(c'.writer);
    } else if c.reconnectAfter == [] {
      assert c'.backlog == [req] && c'.writer == WriterExited;
      assert c'.accepted == c'.sent + c'.backlog + WriterHeld(c'.writer);
    } else {
      assert c'.writer == WriterParked(Some(req), WriteFailed);
      assert c'.accepted == c'.sent + c'.backlog + WriterHeld(c'.writer);
    }
  }

  lemma SendCancelledPreserves(c: Client, id: int)
    requires Inv(c) && Enabled(c, SendCancelled(id))
    ensures Inv(Step(c, SendCancelled(id)))
  {
  }

  lemma TickPreserves(c: Client, now: int, pingOk: bool)
    requires Inv(c) && Enabled(c, Tick(now, pingOk))
    ensures Inv(Step(c, Tick(now, pingOk)))
  {
    var c' := Step(c, Tick(now, pingOk));
    assert WriterHeld(c'.writer) == [];
    assert c'.accepted == c'.sent + c'.backlog + WriterHeld(c'.writer);
  }

  lemma WriterExitPreserves(c: Client, e: Event)
    requires Inv(c) && Enabled(c, e)
    requires e.WriterQuitSeen? || e.WriterCancelSeen?
    ensures Inv(Step(c, e))
  {
  }

  lemma UnparkPreserves(c: Client)
    requires Inv(c) && Enabled(c, WriterUnpark)
    ensures Inv(Step(c, WriterUnpark))
  {
    var c' := Step(c, WriterUnpark);
    assert c.backlog == [];
    assert c'.accepted == c.accepted && c'.sent == c.sent && c'.nextReqId == c.nextReqId;
    assert c'.accepted == c'.sent + c'.backlog + WriterHeld(c'.writer);
  }

  lemma ReadPreserves(c: Client, outcome: ReadOutcome)
    requires Inv(c) && Enabled(c, Read(outcome))
    ensures Inv(Step(c, Read(outcome)))
  {
    var c' := Step(c, Read(outcome));
    assert c'.accepted == c.accepted && c'.pending == c.pending && c'.nextReqId == c.nextReqId;
  }

  lemma ReaderUnparkPreserves(c: Client)
    requires Inv(c) && Enabled(c, ReaderUnpark)
    ensures Inv(Step(c, ReaderUnpark))
  {
  }

  lemma CancelPreserves(c: Client)
    requires Inv(c)
    ensures Inv(Step(c, Cancel))
  {
  }

  lemma CoordinatorPreserves(c: Client, e: Event)
    requires Inv(c) && Enabled(c, e)
    requires e.CoordinatorTake? || e.CoordinatorCancel? || e.CoordinatorJoin? || e.CoordinatorAttempt?
    ensures Inv(Step(c, e))
  {
    if e.CoordinatorAttempt? {
      var v := Reconnect.AttemptStep(c.cfg.maxReconnectAttempts, c.coordinator.attempt, e.attempt.outcome);
      assert v.Redialling? ==> v.attempt <= c.cfg.maxReconnectAttempts;
    }
  }

  lemma ResumePreserves(c: Client, resendOk: bool)
    requires Inv(c) && Enabled(c, CoordinatorResume(resendOk))
    ensures Inv(Step(c, CoordinatorResume(resendOk)))
  {
    var c' := Step(c, CoordinatorResume(resendOk));
    if c.backlog != [] && resendOk {
      assert c'.sent == c.sent + c.backlog;
      assert c'.accepted == c'.sent + c'.backlog + WriterHeld(c'.writer);
    }
  }

  /** Every step keeps the invariant. */
  lemma StepPreserves(c: Client, e: Event)
    requires Inv(c) && Enabled(c, e)
    ensures Inv(Step(c, e))
  {
    match e
    case Call(m, encodes) => CallPreserves(c, m, encodes);
    case SendTaken(id, w) => SendTakenPreserves(c, id, w);
    case SendCancelled(id) => SendCancelledPreserves(c, id);
    case CoordinatorResume(ok) => ResumePreserves(c, ok);
    case Tick(now, pingOk) => TickPreserves(c, now, pingOk);
    case WriterQuitSeen => WriterExitPreserves(c, e);
    case WriterCancelSeen(_) => WriterExitPreserves(c, e);
    case WriterUnpark => UnparkPreserves(c);
    case Read(outcome) => ReadPreserves(c, outcome);
    case ReaderUnpark => ReaderUnparkPreserves(c);
    case Cancel => CancelPreserves(c);
    case CoordinatorTake => CoordinatorPreserves(c, e);
    case CoordinatorCancel => CoordinatorPreserves(c, e);
    case CoordinatorJoin => CoordinatorPreserves(c, e);
    case CoordinatorAttempt(_) => CoordinatorPreserves(c, e);
  }

  /** Any schedule of events keeps the invariant. */
  lemma {:induction false} ApplyPreserves(c: Client, events: seq<Event>)
    requires Inv(c)
    ensures Inv(Apply(c, events))
    decreases |events|
  {
    if |events| > 0 {
      var next := if Enabled(c, events[0]) then Step(c, events[0]) else c;
      if Enabled(c, events[0]) {
        StepPreserves(c, events[0]);
      }
      ApplyPreserves(next, events[1..]);
    }
  }

}
