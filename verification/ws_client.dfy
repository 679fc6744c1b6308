/**
  The connection bookkeeping of WSClient (rpc/jsonrpc/client/ws_client.go) as one
  immutable record and one step function per event.

  Goroutines become event kinds: a caller's `Call` in two halves (taking an
  identifier, then the `Send` that hands the request over), one kind per select case of
  `writeRoutine`, one per read outcome of `readRoutine`, and the phases of
  `reconnectRoutine`. The socket is abstract: every write, ping, read and dial is
  an input saying whether it succeeded. A channel send into a full one-slot
  queue blocks in the source; here it parks the worker, and a later resume event
  completes the send once the coordinator has made room.
 */
module WsClient {
  import opened Options
  import Reconnect

  /** Close code 1000, "normal closure" (section 7.4.1 of RFC 6455). */
  const CloseNormalClosure: int := 1000

  /** Capacity of `backlog` and of `reconnectAfter` as made in `Start`; `send` is unbuffered. */
  const SlotCapacity: nat := 1

  /** The options that shape the bookkeeping; deadlines only change which I/O fails. */
  datatype Config = Config(maxReconnectAttempts: nat, pingPeriod: nat)

  /** DefaultWSOptions: 10 reconnect attempts and no pings. */
  function DefaultConfig(): Config
  {
    Config(10, 0)
  }

  datatype Request = Request(id: int, methodName: string)

  datatype Response = Response(id: int, result: string)

  /** A data frame after `json.Unmarshal`; `idValid` is the verdict of `validateResponseID`. */
  datatype Frame = Unparsable | Parsed(response: Response, idValid: bool)

  /** A failed `ReadMessage`: a close frame with its code, or any other error. */
  datatype ReadError = NonCloseError | CloseError(code: int)

  datatype ReadOutcome =
    | ReadFailed(err: ReadError)
      /** A frame was read; `cancelled` says the context won the race against delivery. */
    | FrameRead(frame: Frame, cancelled: bool)

  /** The error a worker or the coordinator pushes onto `reconnectAfter`. */
  datatype Fault = WriteFailed | PingFailed | ReadFailedWith(code: int) | ResendFailed

  /** What the client wrote on the current connection. */
  datatype Outbound = RequestFrame(request: Request) | PingFrame | CloseFrame

  /**
    The write worker. `WriterParked` is blocked on `reconnectAfter <- fault`, still
    holding the request it failed to write (if any); `WriterParkedOnBacklog` is
    blocked on `backlog <- request`.
   */
  datatype Writer =
    | WriterLive
    | WriterParked(held: Option<Request>, fault: Fault)
    | WriterParkedOnBacklog(request: Request)
    | WriterExited

  /** The read worker. `ReaderParked` is blocked on `reconnectAfter <- fault`. */
  datatype Reader = ReaderLive | ReaderParked(fault: Fault) | ReaderExited

  /**
    The phases of `reconnectRoutine`: waiting for an error, waiting for the
    workers to finish (`wg.Wait`), inside `reconnect`, draining and resending
    the backlog after a successful dial, and returned.
   */
  datatype Coordinator =
    | Awaiting
    | Joining(cause: Fault)
    | Redialling(attempt: nat)
    | Resuming
    | Finished

  datatype Client = Client(
    cfg: Config,
    running: bool,             // the RunState
    ctxDone: bool,             // the context given to Start is done
    reconnecting: bool,
    nextReqId: int,
    pending: map<int, string>, // callers blocked in `Send`: the identifier each took, and its method
    backlog: seq<Request>,
    reconnectAfter: seq<Fault>,
    readQuitClosed: bool,      // readRoutineQuit of the current worker pair
    writer: Writer,
    reader: Reader,
    wg: int,                   // the worker WaitGroup counter
    coordinator: Coordinator,
    generation: nat,           // successful dials so far
    workersSpawned: nat,       // workers started on the current connection
    connCloses: nat,           // Close calls on the current connection
    connWrites: seq<Outbound>, // frames written on the current connection
    sentLastPingAt: int,
    accepted: seq<Request>,    // requests the writer took from `send`
    sent: seq<Request>,        // requests written successfully, on any connection
    responses: seq<Response>,  // responses delivered on ResponsesCh
    responsesClosed: bool
  )

  /** IsReconnecting: the flag `reconnect` raises on entry and lowers on return. */
  predicate IsReconnecting(c: Client)
  {
    c.reconnecting
  }

  /** IsActive: running and not reconnecting. */
  predicate IsActive(c: Client)
  {
    c.running && !IsReconnecting(c)
  }

  /** The number of workers that have not yet run their deferred exit. */
  function Alive(c: Client): nat
  {
    (if c.writer == WriterExited then 0 else 1) + (if c.reader == ReaderExited then 0 else 1)
  }

  /** `startReadWriteRoutines`: `wg.Add(2)`, a fresh `readRoutineQuit`, both workers live. */
  function StartWorkers(c: Client): (c': Client)
    requires c.writer == WriterExited && c.reader == ReaderExited
    ensures c'.wg == c.wg + 2 && Alive(c') == 2
    ensures !c'.readQuitClosed
    ensures c'.workersSpawned == c.workersSpawned + 2
    ensures c'.backlog == c.backlog && c'.reconnectAfter == c.reconnectAfter && c'.sent == c.sent
  {
    c.(wg := c.wg + 2, readQuitClosed := false, writer := WriterLive, reader := ReaderLive,
       workersSpawned := c.workersSpawned + 2)
  }

  /**
    `Start`: dial once; on success make the queues, start the worker pair and the
    coordinator. A failed first dial returns the error and starts nothing.
   */
  function Start(cfg: Config, dialOk: bool): (r: Option<Client>)
    ensures r.Some? <==> dialOk
    ensures r.Some? ==>
              && IsActive(r.value)
              && r.value.wg == 2 && Alive(r.value) == 2
              && r.value.backlog == [] && r.value.reconnectAfter == []
              && r.value.nextReqId == 0 && r.value.pending == map[] && r.value.coordinator == Awaiting
  {
    if !dialOk then None
    else
      var initial := Client(cfg, true, false, false, 0, map[], [], [], false, WriterExited, ReaderExited, 0,
                          Awaiting, 1, 0, 0, [], 0, [], [], [], false);
      Some(StartWorkers(initial))
  }

  /**
    What `Start` leaves behind when the first dial fails: `RunState.Start` has
    already succeeded and nothing undoes it, so the client reports itself
    running and active, while no worker and no coordinator was started.
   */
  function StartAfterFailedDial(cfg: Config): (c: Client)
    ensures IsActive(c) && c.running
    ensures c.wg == 0 && Alive(c) == 0 && c.coordinator == Finished
    ensures c.backlog == [] && c.reconnectAfter == [] && c.pending == map[] && c.generation == 0
  {
    Client(cfg, true, false, false, 0, map[], [], [], false, WriterExited, ReaderExited, 0,
           Finished, 0, 0, 0, [], 0, [], [], [], false)
  }

  // ---------------------------------------------------------------------------
  // Request identifiers

  /** `nextRequestID`: return the counter, then advance it by one. */
  function NextRequestId(c: Client): (r: (int, Client))
    ensures r.0 == c.nextReqId
    ensures r.1.nextReqId == r.0 + 1
    ensures r.1.(nextReqId := c.nextReqId) == c
  {
    (c.nextReqId, c.(nextReqId := c.nextReqId + 1))
  }

  /** `n` successive calls of `nextRequestID`: the identifiers handed out, in order. */
  function AllocateIds(c: Client, n: nat): (r: (seq<int>, Client))
    ensures |r.0| == n
    ensures r.1.nextReqId == c.nextReqId + n
    ensures r.1.(nextReqId := c.nextReqId) == c
    ensures forall i :: 0 <= i < n ==> c.nextReqId <= r.0[i] < r.1.nextReqId
    ensures forall i, j :: 0 <= i < j < n ==> r.0[i] < r.0[j]
    decreases n
  {
    if n == 0 then ([], c)
    else
      var (id, c1) := NextRequestId(c);
      var (ids, c2) := AllocateIds(c1, n - 1);
      ([id] + ids, c2)
  }

  // ---------------------------------------------------------------------------
  // writeRoutine

  /** The deferred exit of `writeRoutine`: close the connection, `wg.Done()`. */
  function WriterExit(c: Client): (c': Client)
    ensures c'.writer == WriterExited && c'.wg == c.wg - 1 && c'.connCloses == c.connCloses + 1
    ensures c'.(writer := c.writer, wg := c.wg, connCloses := c.connCloses) == c
  {
    c.(writer := WriterExited, wg := c.wg - 1, connCloses := c.connCloses + 1)
  }

  /** After the error is queued: `backlog <- request` when one is held, then return. */
  function WriterRequeue(c: Client, held: Option<Request>): Client
  {
    match held
    case None => WriterExit(c)
    case Some(r) =>
      if |c.backlog| < SlotCapacity then WriterExit(c.(backlog := c.backlog + [r]))
      else c.(writer := WriterParkedOnBacklog(r))
  }

  /** A failed write: `reconnectAfter <- fault`, then requeue and return. */
  function WriterFail(c: Client, held: Option<Request>, fault: Fault): Client
  {
    if |c.reconnectAfter| < SlotCapacity then WriterRequeue(c.(reconnectAfter := c.reconnectAfter + [fault]), held)
    else c.(writer := WriterParked(held, fault))
  }

  /**
    The `request := <-c.send` case: the request is taken and written. A failed
    write queues one error, puts the request in the backlog and exits; nothing
    is lost and the response queue is untouched.
   */
  function WriteRequest(c: Client, req: Request, writeOk: bool): (c': Client)
    requires c.writer == WriterLive
    ensures c'.accepted == c.accepted + [req]
    ensures c'.responses == c.responses && c'.nextReqId == c.nextReqId && c'.reader == c.reader
    ensures writeOk ==>
              c' == c.(accepted := c.accepted + [req], sent := c.sent + [req],
                       connWrites := c.connWrites + [RequestFrame(req)])
    ensures !writeOk ==> c'.sent == c.sent && c'.connWrites == c.connWrites && c'.writer != WriterLive
    ensures !writeOk && c.reconnectAfter == [] && c.backlog == [] ==>
              c' == c.(accepted := c.accepted + [req], reconnectAfter := [WriteFailed], backlog := [req],
                       writer := WriterExited, wg := c.wg - 1, connCloses := c.connCloses + 1)
    ensures !writeOk && c.reconnectAfter != [] ==>
              c' == c.(accepted := c.accepted + [req], writer := WriterParked(Some(req), WriteFailed))
  {
    var c1 := c.(accepted := c.accepted + [req]);
    if writeOk then c1.(sent := c.sent + [req], connWrites := c.connWrites + [RequestFrame(req)])
    else WriterFail(c1, Some(req), WriteFailed)
  }

  /**
    The ticker case. A successful ping records the time it was sent; a failed
    one queues an error but adds nothing to the backlog.
   */
  function WritePing(c: Client, now: int, pingOk: bool): (c': Client)
    requires c.writer == WriterLive && c.cfg.pingPeriod > 0
    ensures c'.backlog == c.backlog && c'.accepted == c.accepted && c'.sent == c.sent
    ensures pingOk ==>
              c' == c.(sentLastPingAt := now, connWrites := c.connWrites + [PingFrame])
    ensures !pingOk ==> c'.sentLastPingAt == c.sentLastPingAt && c'.writer != WriterLive
    ensures !pingOk && c.reconnectAfter == [] ==>
              c' == c.(reconnectAfter := [PingFailed], writer := WriterExited, wg := c.wg - 1,
                       connCloses := c.connCloses + 1)
  {
    if pingOk then c.(sentLastPingAt := now, connWrites := c.connWrites + [PingFrame])
    else WriterFail(c, None, PingFailed)
  }

  /** The `<-c.readRoutineQuit` case: exit without signalling a reconnect. */
  function WriterSeesReaderQuit(c: Client): (c': Client)
    requires c.writer == WriterLive && c.readQuitClosed
    ensures c'.reconnectAfter == c.reconnectAfter && c'.backlog == c.backlog
    ensures c'.writer == WriterExited && c'.wg == c.wg - 1
  {
    WriterExit(c)
  }

  /** The `<-ctx.Done()` case: a best-effort close frame, then exit without signalling. */
  function WriterSeesCancel(c: Client, closeOk: bool): (c': Client)
    requires c.writer == WriterLive && c.ctxDone
    ensures c'.reconnectAfter == c.reconnectAfter && c'.backlog == c.backlog
    ensures c'.writer == WriterExited && c'.wg == c.wg - 1
    ensures c'.connWrites == c.connWrites + (if closeOk then [CloseFrame] else [])
  {
    WriterExit(c.(connWrites := c.connWrites + (if closeOk then [CloseFrame] else [])))
  }

  /** A parked writer completes its blocked send once the queue has room. */
  function WriterResume(c: Client): (c': Client)
    requires c.writer.WriterParked? ==> |c.reconnectAfter| < SlotCapacity
    requires c.writer.WriterParkedOnBacklog? ==> |c.backlog| < SlotCapacity
    requires c.writer.WriterParked? || c.writer.WriterParkedOnBacklog?
    ensures c.writer.WriterParked? && c.writer.held.None? ==>
              c' == c.(reconnectAfter := c.reconnectAfter + [c.writer.fault], writer := WriterExited,
                       wg := c.wg - 1, connCloses := c.connCloses + 1)
    ensures c.writer.WriterParked? && c.writer.held.Some? && |c.backlog| < SlotCapacity ==>
              c' == c.(reconnectAfter := c.reconnectAfter + [c.writer.fault],
                       backlog := c.backlog + [c.writer.held.value], writer := WriterExited,
                       wg := c.wg - 1, connCloses := c.connCloses + 1)
    ensures c.writer.WriterParkedOnBacklog? ==>
              c' == c.(backlog := c.backlog + [c.writer.request], writer := WriterExited,
                       wg := c.wg - 1, connCloses := c.connCloses + 1)
  {
    match c.writer
    case WriterParked(held, fault) => WriterRequeue(c.(reconnectAfter := c.reconnectAfter + [fault]), held)
    case WriterParkedOnBacklog(r) => WriterExit(c.(backlog := c.backlog + [r]))
  }

  // ---------------------------------------------------------------------------
  // readRoutine

  /** The deferred exit of `readRoutine`: close the connection, `wg.Done()`. */
  function ReaderExit(c: Client): (c': Client)
    ensures c'.reader == ReaderExited && c'.wg == c.wg - 1 && c'.connCloses == c.connCloses + 1
    ensures c'.(reader := c.reader, wg := c.wg, connCloses := c.connCloses) == c
  {
    c.(reader := ReaderExited, wg := c.wg - 1, connCloses := c.connCloses + 1)
  }

  /** `reconnectAfter <- fault`, then return; parks while the slot is taken. */
  function ReaderFail(c: Client, fault: Fault): Client
  {
    if |c.reconnectAfter| < SlotCapacity then ReaderExit(c.(reconnectAfter := c.reconnectAfter + [fault]))
    else c.(reader := ReaderParked(fault))
  }

  /** `IsUnexpectedCloseError(err, CloseNormalClosure)`: a close frame whose code is not 1000. */
  predicate UnexpectedClose(err: ReadError)
  {
    err.CloseError? && err.code != CloseNormalClosure
  }

  /** A response that survives parsing and identifier validation. */
  predicate Forwardable(f: Frame)
  {
    f.Parsed? && f.idValid
  }

  /**
    One turn of the read loop. Only an unexpected close closes `readRoutineQuit`
    and signals a reconnect; any other read error ends the worker silently.
    Unparsable frames and frames with a bad identifier are skipped; a valid
    response is appended to the delivered responses unless cancellation wins.
   */
  function ReadStep(c: Client, outcome: ReadOutcome): (c': Client)
    requires c.reader == ReaderLive
    requires outcome.FrameRead? && outcome.cancelled && Forwardable(outcome.frame) ==> c.ctxDone
    ensures c'.writer == c.writer && c'.backlog == c.backlog && c'.accepted == c.accepted && c'.sent == c.sent
    ensures c'.readQuitClosed <==> c.readQuitClosed || (outcome.ReadFailed? && UnexpectedClose(outcome.err))
    ensures outcome.ReadFailed? && !UnexpectedClose(outcome.err) ==>
              c' == c.(reader := ReaderExited, wg := c.wg - 1, connCloses := c.connCloses + 1)
    ensures outcome.ReadFailed? && UnexpectedClose(outcome.err) ==> c'.reader != ReaderLive
    ensures outcome.ReadFailed? && UnexpectedClose(outcome.err) && c.reconnectAfter == [] ==>
              c'.reconnectAfter == [ReadFailedWith(outcome.err.code)] && c'.reader == ReaderExited
    ensures outcome.FrameRead? && !Forwardable(outcome.frame) ==> c' == c
    ensures outcome.FrameRead? && Forwardable(outcome.frame) && !outcome.cancelled ==>
              c' == c.(responses := c.responses + [outcome.frame.response])
    ensures outcome.FrameRead? && Forwardable(outcome.frame) && outcome.cancelled ==>
              c'.responses == c.responses && c'.reader == ReaderExited
  {
    match outcome
    case ReadFailed(err) =>
      if !UnexpectedClose(err) then ReaderExit(c)
      else ReaderFail(c.(readQuitClosed := true), ReadFailedWith(err.code))
    case FrameRead(frame, cancelled) =>
      if !Forwardable(frame) then c
      else if cancelled then ReaderExit(c)
      else c.(responses := c.responses + [frame.response])
  }

  /** A parked reader completes its blocked send once the queue has room. */
  function ReaderResume(c: Client): (c': Client)
    requires c.reader.ReaderParked? && |c.reconnectAfter| < SlotCapacity
    ensures c' == c.(reconnectAfter := c.reconnectAfter + [c.reader.fault], reader := ReaderExited,
                     wg := c.wg - 1, connCloses := c.connCloses + 1)
  {
    ReaderExit(c.(reconnectAfter := c.reconnectAfter + [c.reader.fault]))
  }

  // ---------------------------------------------------------------------------
  // reconnectRoutine

  /** `originalError := <-c.reconnectAfter`: take the error and wait for the workers. */
  function TakeSignal(c: Client): (c': Client)
    requires c.coordinator == Awaiting && |c.reconnectAfter| > 0
    ensures c'.coordinator == Joining(c.reconnectAfter[0])
    ensures c'.reconnectAfter == c.reconnectAfter[1..]
    ensures c'.backlog == c.backlog && c'.wg == c.wg && c'.writer == c.writer && c'.reader == c.reader
  {
    c.(coordinator := Joining(c.reconnectAfter[0]), reconnectAfter := c.reconnectAfter[1..])
  }

  /** `wg.Wait()` has returned: both workers are gone; `reconnect` raises the flag. */
  function Join(c: Client): (c': Client)
    requires c.coordinator.Joining? && c.wg == 0
    ensures c'.coordinator == Redialling(0) && IsReconnecting(c') && !IsActive(c')
    ensures c'.backlog == c.backlog && c'.reconnectAfter == c.reconnectAfter && c'.wg == 0
  {
    c.(reconnecting := true, coordinator := Redialling(0))
  }

  /** `Stop`: when running, stop and close ResponsesCh; otherwise Stop returns an error early. */
  function Stop(c: Client): (c': Client)
    ensures !c'.running
    ensures c'.responsesClosed <==> c.responsesClosed || c.running
    ensures c'.(running := c.running, responsesClosed := c.responsesClosed) == c
  {
    if c.running then c.(running := false, responsesClosed := true) else c
  }

  /**
    One iteration of the redial loop, using the loop rule of `Reconnect`. A
    successful dial lowers the flag and opens a fresh connection; giving up
    lowers the flag and stops the client; cancellation lowers the flag and
    ends the coordinator.
   */
  function Redial(c: Client, outcome: Reconnect.AttemptOutcome): (c': Client)
    requires c.coordinator.Redialling? && c.coordinator.attempt <= c.cfg.maxReconnectAttempts
    ensures c'.backlog == c.backlog && c'.wg == c.wg && c'.accepted == c.accepted && c'.sent == c.sent
    ensures c'.coordinator.Redialling? ==> c'.reconnecting == c.reconnecting
    ensures !c'.coordinator.Redialling? ==> !c'.reconnecting
    ensures outcome == Reconnect.DialFailed && c.coordinator.attempt < c.cfg.maxReconnectAttempts ==>
              c' == c.(coordinator := Redialling(c.coordinator.attempt + 1))
    ensures outcome == Reconnect.DialFailed && c.coordinator.attempt == c.cfg.maxReconnectAttempts ==>
              c'.coordinator == Finished && !c'.running && !IsActive(c')
    ensures outcome == Reconnect.DialSucceeded ==>
              && c'.coordinator == Resuming && !c'.reconnecting
              && c'.generation == c.generation + 1
              && c'.connWrites == [] && c'.connCloses == 0 && c'.workersSpawned == 0
    ensures outcome == Reconnect.ContextDone ==>
              c' == c.(reconnecting := false, coordinator := Finished)
  {
    match Reconnect.AttemptStep(c.cfg.maxReconnectAttempts, c.coordinator.attempt, outcome)
    case Redialling(next) => c.(coordinator := Redialling(next))
    case Reconnected =>
      c.(reconnecting := false, generation := c.generation + 1, workersSpawned := 0,
         connCloses := 0, connWrites := [], coordinator := Resuming)
    case Cancelled => c.(reconnecting := false, coordinator := Finished)
    case GaveUp => Stop(c.(reconnecting := false, coordinator := Finished))
  }

  /**
    `processBacklog` on the fresh connection: with an empty backlog, nothing. A
    successful resend empties the backlog; a failed one queues an error, puts
    the same request back and reports failure.
   */
  function ProcessBacklog(c: Client, resendOk: bool): (r: (Client, bool))
    requires |c.backlog| <= SlotCapacity && c.reconnectAfter == []
    ensures r.1 <==> c.backlog != [] && !resendOk
    ensures r.0.sent + r.0.backlog == c.sent + c.backlog
    ensures r.0.(backlog := c.backlog, sent := c.sent, connWrites := c.connWrites, reconnectAfter := []) == c
    ensures !r.1 ==> r.0.backlog == [] && r.0.reconnectAfter == []
    ensures !r.1 ==> r.0.connWrites == c.connWrites + (if c.backlog == [] then [] else [RequestFrame(c.backlog[0])])
    ensures r.1 ==> r.0.backlog == c.backlog && r.0.connWrites == c.connWrites && r.0.reconnectAfter == [ResendFailed]
  {
    if |c.backlog| == 0 then (c, false)
    else
      var request := c.backlog[0];
      var taken := c.(backlog := c.backlog[1..]);
      assert taken.backlog == [];
      if resendOk then
        (taken.(sent := c.sent + [request], connWrites := c.connWrites + [RequestFrame(request)]), false)
      else
        (taken.(reconnectAfter := [ResendFailed], backlog := taken.backlog + [request]), true)
  }

  /**
    After a successful `reconnect`: drain `reconnectAfter`, process the backlog,
    and restart the workers only when that succeeded. The coordinator goes back
    to waiting either way.
   */
  function Resume(c: Client, resendOk: bool): (c': Client)
    requires c.coordinator == Resuming && !c.ctxDone
    requires |c.backlog| <= SlotCapacity
    requires c.writer == WriterExited && c.reader == ReaderExited
    ensures c'.coordinator == Awaiting
    ensures ProcessBacklog(c.(reconnectAfter := []), resendOk).1 ==>
              c'.wg == c.wg && c'.writer == WriterExited && c'.reconnectAfter == [ResendFailed]
              && c'.backlog == c.backlog
    ensures !ProcessBacklog(c.(reconnectAfter := []), resendOk).1 ==>
              c'.wg == c.wg + 2 && c'.writer == WriterLive && c'.reader == ReaderLive
              && c'.backlog == [] && c'.reconnectAfter == []
  {
    var (c1, failed) := ProcessBacklog(c.(reconnectAfter := []), resendOk);
    if failed then c1.(coordinator := Awaiting) else StartWorkers(c1).(coordinator := Awaiting)
  }

  // ---------------------------------------------------------------------------
  // Events

  datatype Event =
    | Call(methodName: string, encodes: bool)
    | SendTaken(id: int, writeOk: bool)
    | SendCancelled(id: int)
    | Tick(now: int, pingOk: bool)
    | WriterQuitSeen
    | WriterCancelSeen(closeOk: bool)
    | WriterUnpark
    | Read(outcome: ReadOutcome)
    | ReaderUnpark
    | Cancel
    | CoordinatorTake
    | CoordinatorCancel
    | CoordinatorJoin
    | CoordinatorAttempt(attempt: Reconnect.Attempt)
    | CoordinatorResume(resendOk: bool)

  predicate Enabled(c: Client, e: Event)
  {
    match e
    case Call(_, _) => true
    case SendTaken(id, _) => id in c.pending && c.writer == WriterLive
    case SendCancelled(id) => id in c.pending
    case Tick(_, _) => c.writer == WriterLive && c.cfg.pingPeriod > 0
    case WriterQuitSeen => c.writer == WriterLive && c.readQuitClosed
    case WriterCancelSeen(_) => c.writer == WriterLive && c.ctxDone
    case WriterUnpark =>
      || (c.writer.WriterParked? && |c.reconnectAfter| < SlotCapacity)
      || (c.writer.WriterParkedOnBacklog? && |c.backlog| < SlotCapacity)
    case Read(outcome) =>
      && c.reader == ReaderLive
      && (outcome.FrameRead? && outcome.cancelled && Forwardable(outcome.frame) ==> c.ctxDone)
    case ReaderUnpark => c.reader.ReaderParked? && |c.reconnectAfter| < SlotCapacity
    case Cancel => true
    case CoordinatorTake => c.coordinator == Awaiting && |c.reconnectAfter| > 0
    case CoordinatorCancel => c.ctxDone && (c.coordinator == Awaiting || c.coordinator == Resuming)
    case CoordinatorJoin => c.coordinator.Joining? && c.wg == 0
    case CoordinatorAttempt(a) =>
      && c.coordinator.Redialling?
      && c.coordinator.attempt <= c.cfg.maxReconnectAttempts
      && (a.outcome == Reconnect.ContextDone ==> c.ctxDone)
    case CoordinatorResume(_) =>
      && c.coordinator == Resuming && !c.ctxDone && |c.backlog| <= SlotCapacity
      && c.writer == WriterExited && c.reader == ReaderExited
  }

  /**
    `Call` up to its `Send`: take the next identifier and build the request.
    When the parameters do not encode, `Call` returns that error and the
    identifier is spent; otherwise the caller blocks in `Send` with it.
   */
  function CallBegins(c: Client, methodName: string, encodes: bool): (c': Client)
    ensures c'.nextReqId == c.nextReqId + 1
    ensures encodes ==> c'.pending == c.pending[c.nextReqId := methodName]
    ensures !encodes ==> c'.pending == c.pending
    ensures c'.(nextReqId := c.nextReqId, pending := c.pending) == c
  {
    var (id, c1) := NextRequestId(c);
    if encodes then c1.(pending := c1.pending[id := methodName]) else c1
  }

  /**
    The `c.send <- request` case of `Send`: the writer takes the request of the
    caller blocked with identifier `id` and writes it. Callers hand over in
    whatever order they win the unbuffered channel, not in identifier order.
   */
  function HandOff(c: Client, id: int, writeOk: bool): (c': Client)
    requires id in c.pending && c.writer == WriterLive
    ensures c'.pending == c.pending - {id}
    ensures c'.accepted == c.accepted + [Request(id, c.pending[id])]
    ensures c'.nextReqId == c.nextReqId && c'.responses == c.responses
    ensures writeOk ==> c'.sent == c.sent + [Request(id, c.pending[id])]
    ensures !writeOk ==> c'.sent == c.sent && c'.writer != WriterLive
  {
    WriteRequest(c.(pending := c.pending - {id}), Request(id, c.pending[id]), writeOk)
  }

  /** The `<-ctx.Done()` case of `Send`: the caller gives up; the writer never sees the request. */
  function SendGivesUp(c: Client, id: int): (c': Client)
    requires id in c.pending
    ensures c'.pending == c.pending - {id}
    ensures c'.(pending := c.pending) == c
  {
    c.(pending := c.pending - {id})
  }

  function Step(c: Client, e: Event): Client
    requires Enabled(c, e)
  {
    match e
    case Call(methodName, encodes) => CallBegins(c, methodName, encodes)
    case SendTaken(id, writeOk) => HandOff(c, id, writeOk)
    case SendCancelled(id) => SendGivesUp(c, id)
    case Tick(now, pingOk) => WritePing(c, now, pingOk)
    case WriterQuitSeen => WriterSeesReaderQuit(c)
    case WriterCancelSeen(closeOk) => WriterSeesCancel(c, closeOk)
    case WriterUnpark => WriterResume(c)
    case Read(outcome) => ReadStep(c, outcome)
    case ReaderUnpark => ReaderResume(c)
    case Cancel => c.(ctxDone := true)
    case CoordinatorTake => TakeSignal(c)
    case CoordinatorCancel => c.(coordinator := Finished)
    case CoordinatorJoin => Join(c)
    case CoordinatorAttempt(a) => Redial(c, a.outcome)
    case CoordinatorResume(resendOk) => Resume(c, resendOk)
  }

  /** Run a schedule of events; an event whose case is not ready is skipped. */
  function Apply(c: Client, events: seq<Event>): Client
    decreases |events|
  {
    if |events| == 0 then c
    else
      var next := if Enabled(c, events[0]) then Step(c, events[0]) else c;
      Apply(next, events[1..])
  }

}
