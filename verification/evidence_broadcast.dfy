/**
  One peer's `broadcastEvidenceLoop` (internal/evidence/reactor.go) as a
  state machine over a cursor into the pool's evidence list.

  The pool is abstract: an element of its list is an `EvidenceId`, and the
  pool answers `EvidenceFront()` and `next.Next()` through the events that
  carry them (`None` stands for a nil element). The loop either waits at the
  top for evidence, sends the element it holds, or waits after a send for the
  interval to pass or for the element's successor.
 */
module EvidenceBroadcast {
  import opened Options

  /** An element of the pool's evidence list. */
  type EvidenceId = nat

  /** `broadcastEvidenceIntervalS`: after a send the loop restarts from the front after ten seconds. */
  const BroadcastEvidenceIntervalS: nat := 10

  /**
    Where the loop is: at the top of the `for` (waiting for evidence when it
    holds none, about to send when it holds one), in the `select` after a
    send, or returned.
   */
  datatype Phase = AtTop | AwaitingAdvance | Exited

  /** The loop's `next` cursor, where it is, and every element it has gossiped so far. */
  datatype Loop = Loop(next: Option<EvidenceId>, phase: Phase, gossiped: seq<EvidenceId>)

  /** How sending the held element ends: delivered, `Send` returning an error, or `EvidenceToProto` failing (a panic). */
  datatype SendResult = Delivered | SendFailed | ConvertPanicked

  datatype BroadcastEvent =
    | EvidenceAvailable(front: Option<EvidenceId>)
    | SendNext(result: SendResult)
    | IntervalElapsed
    | NextAvailable(next: Option<EvidenceId>)
    | CloserDone
    | ContextDone

  /** The loop as `go r.broadcastEvidenceLoop(...)` starts it. */
  function Initial(): Loop
  {
    Loop(None, AtTop, [])
  }

  /** The loop blocks in a `select` whose cases include the closer and the context. */
  predicate Blocked(l: Loop)
  {
    (l.phase == AtTop && l.next.None?) || l.phase == AwaitingAdvance
  }

  /** Which events the loop can take where it is. */
  predicate Ready(l: Loop, e: BroadcastEvent)
  {
    match e
    case EvidenceAvailable(_) => l.phase == AtTop && l.next.None?
    case SendNext(_) => l.phase == AtTop && l.next.Some?
    case IntervalElapsed => l.phase == AwaitingAdvance
    case NextAvailable(_) => l.phase == AwaitingAdvance
    case CloserDone => Blocked(l)
    case ContextDone => Blocked(l)
  }

  /** After a send the loop waits on the element it sent, so it holds one. */
  predicate LoopInv(l: Loop)
  {
    l.phase == AwaitingAdvance ==> l.next.Some?
  }

  /** One event of the loop. */
  function Step(l: Loop, e: BroadcastEvent): (l': Loop)
    requires Ready(l, e)
    ensures LoopInv(l) ==> LoopInv(l')
    ensures l'.phase == Exited <==> e.CloserDone? || e.ContextDone? || (e.SendNext? && e.result != Delivered)
    ensures e == SendNext(Delivered) ==> l'.gossiped == l.gossiped + [l.next.value] && l'.next == l.next
    ensures e != SendNext(Delivered) ==> l'.gossiped == l.gossiped
    ensures e.IntervalElapsed? ==> l' == Loop(None, AtTop, l.gossiped)
    ensures e.EvidenceAvailable? ==> l'.next == e.front && l'.phase == AtTop
    ensures e.NextAvailable? ==> l'.next == e.next && l'.phase == AtTop
  {
    match e
    case EvidenceAvailable(front) => l.(next := front)
    case SendNext(result) =>
      if result == Delivered then l.(phase := AwaitingAdvance, gossiped := l.gossiped + [l.next.value])
      else l.(phase := Exited)
    case IntervalElapsed => l.(next := None, phase := AtTop)
    case NextAvailable(n) => l.(next := n, phase := AtTop)
    case CloserDone => l.(phase := Exited)
    case ContextDone => l.(phase := Exited)
  }

  /** A schedule of events; events the loop cannot take where it is are skipped. */
  function Run(l: Loop, events: seq<BroadcastEvent>): Loop
    decreases |events|
  {
    if |events| == 0 then l
    else Run(Next(l, events[0]), events[1..])
  }

  /** The element an event carries for the loop, if any. */
  function Handed(e: BroadcastEvent): Option<EvidenceId>
  {
    match e
    case EvidenceAvailable(front) => front
    case NextAvailable(n) => n
    case _ => None
  }

  /** The element the loop takes from the pool in one event: only an event it is ready for hands it anything. */
  function Taken(l: Loop, e: BroadcastEvent): Option<EvidenceId>
  {
    if Ready(l, e) then Handed(e) else None
  }

  /** The loop state after one event of a schedule, skipped or taken. */
  function Next(l: Loop, e: BroadcastEvent): Loop
  {
    if Ready(l, e) then Step(l, e) else l
  }

  /** The elements the pool actually handed the loop during a schedule (the front, or a successor). */
  function Supplied(l: Loop, events: seq<BroadcastEvent>): set<EvidenceId>
    decreases |events|
  {
    if |events| == 0 then {}
    else
      (if Taken(l, events[0]).Some? then {Taken(l, events[0]).value} else {})
      + Supplied(Next(l, events[0]), events[1..])
  }

  /** How many non-nil elements the pool actually handed the loop during a schedule. */
  function SupplyCount(l: Loop, events: seq<BroadcastEvent>): nat
    decreases |events|
  {
    if |events| == 0 then 0
    else (if Taken(l, events[0]).Some? then 1 else 0) + SupplyCount(Next(l, events[0]), events[1..])
  }

  /** An element carried by an event the loop is not waiting for supplies nothing. */
  lemma SkippedEventSuppliesNothing(l: Loop, e: BroadcastEvent)
    requires !Ready(l, e)
    ensures Supplied(l, [e]) == {} && SupplyCount(l, [e]) == 0
  {
    assert [e][1..] == [];
  }

  /** Once returned, the loop takes no more events and gossips nothing more. */
  lemma {:induction false} ExitIsFinal(l: Loop, events: seq<BroadcastEvent>)
    requires l.phase == Exited
    ensures Run(l, events) == l
    decreases |events|
  {
    if |events| > 0 {
      assert !Ready(l, events[0]);
      ExitIsFinal(l, events[1..]);
    }
  }

  /**
    The loop gossips only elements the pool handed it: everything sent was
    either held already or supplied by a later `EvidenceFront` or `Next` that
    the loop took.
   */
  lemma {:induction false} GossipsOnlySupplied(l: Loop, events: seq<BroadcastEvent>)
    requires LoopInv(l)
    ensures forall id :: id in Run(l, events).gossiped ==>
              id in l.gossiped || (l.next.Some? && id == l.next.value) || id in Supplied(l, events)
    decreases |events|
  {
    if |events| > 0 {
      var e := events[0];
      var l1 := Next(l, e);
      GossipsOnlySupplied(l1, events[1..]);
      forall id | id in Run(l, events).gossiped
        ensures id in l.gossiped || (l.next.Some? && id == l.next.value) || id in Supplied(l, events)
      {
        assert Run(l, events) == Run(l1, events[1..]);
        assert Supplied(l1, events[1..]) <= Supplied(l, events);
        if id in l1.gossiped && !(id in l.gossiped) {
          assert e == SendNext(Delivered) && Ready(l, e);
          assert id == l.next.value;
        } else if l1.next.Some? && id == l1.next.value && !(l.next.Some? && id == l.next.value) {
          assert Taken(l, e) == Some(id);
        }
      }
    }
  }

  /** The held element counts as one outstanding send while the loop is about to send it. */
  function Pending(l: Loop): nat
  {
    if l.phase == AtTop && l.next.Some? then 1 else 0
  }

  /**
    After a send the loop waits for the interval or the next element before
    sending again, so it never sends more often than the pool hands it
    elements: one send per element handed over, plus the one it was holding.
   */
  lemma {:induction false} SendsBoundedBySupply(l: Loop, events: seq<BroadcastEvent>)
    requires LoopInv(l)
    ensures |Run(l, events).gossiped| + Pending(Run(l, events)) <= |l.gossiped| + Pending(l) + SupplyCount(l, events)
    decreases |events|
  {
    if |events| > 0 {
      var e := events[0];
      SendsBoundedBySupply(Next(l, e), events[1..]);
    }
  }

  /** A freshly started loop never sends more than the pool supplied. */
  lemma FreshLoopSendsBoundedBySupply(events: seq<BroadcastEvent>)
    ensures |Run(Initial(), events).gossiped| <= SupplyCount(Initial(), events)
  {
    SendsBoundedBySupply(Initial(), events);
  }

}
