/**
  The evidence reactor's peer bookkeeping (internal/evidence/reactor.go):
  `processPeerUpdate` starting and signalling one broadcast loop per peer,
  the loop's deferred exit removing its entry and releasing the wait group,
  and `OnStop` closing every closer, waiting for the group and closing the
  pool.

  `OnStop` is split at its `peerWG.Wait()`: `BeginStop` is the part up to
  the wait (the service stops reporting itself running, then every closer is
  closed), `FinishStop` the part after it, which can only happen once the
  group is empty.
 */
module EvidenceReactor {
  import opened Options
  import EvidenceMessages
  import B = EvidenceBroadcast

  type NodeId = EvidenceMessages.NodeId

  /** `p2p.PeerStatusUp`, `p2p.PeerStatusDown`, and any other status, which the reactor ignores. */
  datatype PeerStatus = PeerStatusUp | PeerStatusDown | OtherStatus

  /** A tracked peer: whether its closer has been closed, and where its broadcast loop is. */
  datatype PeerRoutine = PeerRoutine(closed: bool, loop: B.Loop)

  datatype Reactor = Reactor(
    running: bool,
    ctxDone: bool,
    updatesLoopExited: bool,
    peerRoutines: map<NodeId, PeerRoutine>,
    peerWG: int,
    poolClosed: bool)

  /** The reactor just after `OnStart`: running, no peer tracked. */
  function Started(): Reactor
  {
    Reactor(true, false, false, map[], 0, false)
  }

  /** `processPeerUpdate`. */
  function ProcessPeerUpdate(r: Reactor, node: NodeId, status: PeerStatus): (r': Reactor)
    ensures status == PeerStatusUp && r.running && node !in r.peerRoutines ==>
              && r'.peerRoutines == r.peerRoutines[node := PeerRoutine(false, B.Initial())]
              && r'.peerWG == r.peerWG + 1
              && r'.running == r.running && r'.ctxDone == r.ctxDone && r'.poolClosed == r.poolClosed
    ensures status == PeerStatusUp && (!r.running || node in r.peerRoutines) ==> r' == r
    ensures status == PeerStatusDown && node in r.peerRoutines ==>
              && r'.peerRoutines.Keys == r.peerRoutines.Keys
              && r'.peerRoutines[node] == r.peerRoutines[node].(closed := true)
              && (forall p :: p in r.peerRoutines && p != node ==> r'.peerRoutines[p] == r.peerRoutines[p])
              && r'.peerWG == r.peerWG
    ensures status == PeerStatusDown && node !in r.peerRoutines ==> r' == r
    ensures status == OtherStatus ==> r' == r
  {
    match status
    case PeerStatusUp =>
      if !r.running || node in r.peerRoutines then r
      else r.(peerRoutines := r.peerRoutines[node := PeerRoutine(false, B.Initial())], peerWG := r.peerWG + 1)
    case PeerStatusDown =>
      if node in r.peerRoutines then r.(peerRoutines := r.peerRoutines[node := r.peerRoutines[node].(closed := true)])
      else r
    case OtherStatus => r
  }

  /** The guard a peer's loop sees: the closer case needs the closer closed, the context case the context done. */
  predicate PeerReady(r: Reactor, node: NodeId, e: B.BroadcastEvent)
  {
    && node in r.peerRoutines
    && B.Ready(r.peerRoutines[node].loop, e)
    && (e.CloserDone? ==> r.peerRoutines[node].closed)
    && (e.ContextDone? ==> r.ctxDone)
  }

  /**
    One event of a peer's broadcast loop. When the loop returns, its deferred
    function deletes the map entry and calls `peerWG.Done()`.
   */
  function PeerStep(r: Reactor, node: NodeId, e: B.BroadcastEvent): (r': Reactor)
    requires PeerReady(r, node, e)
    ensures B.Step(r.peerRoutines[node].loop, e).phase == B.Exited ==>
              && r'.peerRoutines == r.peerRoutines - {node}
              && r'.peerWG == r.peerWG - 1
    ensures B.Step(r.peerRoutines[node].loop, e).phase != B.Exited ==>
              && r'.peerRoutines == r.peerRoutines[node := r.peerRoutines[node].(loop := B.Step(r.peerRoutines[node].loop, e))]
              && r'.peerWG == r.peerWG
    ensures r'.running == r.running && r'.ctxDone == r.ctxDone && r'.poolClosed == r.poolClosed
  {
    var l' := B.Step(r.peerRoutines[node].loop, e);
    if l'.phase == B.Exited then r.(peerRoutines := r.peerRoutines - {node}, peerWG := r.peerWG - 1)
    else r.(peerRoutines := r.peerRoutines[node := r.peerRoutines[node].(loop := l')])
  }

  /** `OnStop` up to the wait: the reactor no longer runs, and every tracked closer is closed. */
  function BeginStop(r: Reactor): (r': Reactor)
    ensures !r'.running
    ensures r'.peerRoutines.Keys == r.peerRoutines.Keys
    ensures forall p :: p in r'.peerRoutines ==> r'.peerRoutines[p] == r.peerRoutines[p].(closed := true)
    ensures r'.peerWG == r.peerWG && r'.ctxDone == r.ctxDone && r'.poolClosed == r.poolClosed
  {
    r.(running := false, peerRoutines := map p | p in r.peerRoutines :: r.peerRoutines[p].(closed := true))
  }

  /** `OnStop` after the wait: the evidence pool is closed. */
  function FinishStop(r: Reactor): (r': Reactor)
    requires r.peerWG == 0
    ensures r'.poolClosed
    ensures r'.peerRoutines == r.peerRoutines && r'.running == r.running
  {
    r.(poolClosed := true)
  }

  datatype ReactorEvent =
    | PeerUpdate(node: NodeId, status: PeerStatus)
    | UpdatesLoopExits
    | Cancel
    | Peer(node: NodeId, event: B.BroadcastEvent)
    | Stop
    | StopCompletes

  predicate Enabled(r: Reactor, e: ReactorEvent)
  {
    match e
    case PeerUpdate(_, _) => !r.updatesLoopExited
    case UpdatesLoopExits => r.ctxDone && !r.updatesLoopExited
    case Cancel => !r.ctxDone
    case Peer(node, ev) => PeerReady(r, node, ev)
    case Stop => r.running
    case StopCompletes => !r.running && r.peerWG == 0 && !r.poolClosed
  }

  function Step(r: Reactor, e: ReactorEvent): Reactor
    requires Enabled(r, e)
  {
    match e
    case PeerUpdate(node, status) => ProcessPeerUpdate(r, node, status)
    case UpdatesLoopExits => r.(updatesLoopExited := true)
    case Cancel => r.(ctxDone := true)
    case Peer(node, ev) => PeerStep(r, node, ev)
    case Stop => BeginStop(r)
    case StopCompletes => FinishStop(r)
  }

  /** A schedule of events; disabled events are skipped. */
  function Apply(r: Reactor, events: seq<ReactorEvent>): Reactor
    decreases |events|
  {
    if |events| == 0 then r
    else Apply(if Enabled(r, events[0]) then Step(r, events[0]) else r, events[1..])
  }

  /**
    The wait group counts exactly the tracked peers; every tracked loop is
    still running; once the reactor stops running every closer is closed;
    and the pool is closed only after every loop has gone.
   */
  predicate Inv(r: Reactor)
  {
    && r.peerWG == |r.peerRoutines|
    && (forall p :: p in r.peerRoutines ==>
          r.peerRoutines[p].loop.phase != B.Exited && B.LoopInv(r.peerRoutines[p].loop))
    && (!r.running ==> forall p :: p in r.peerRoutines ==> r.peerRoutines[p].closed)
    && (r.poolClosed ==> !r.running && r.peerRoutines == map[])
  }

  lemma StartedEstablishes()
    ensures Inv(Started())
  {
  }

  lemma PeerUpdatePreserves(r: Reactor, node: NodeId, status: PeerStatus)
    requires Inv(r)
    ensures Inv(ProcessPeerUpdate(r, node, status))
  {
    var r' := ProcessPeerUpdate(r, node, status);
    if status == PeerStatusUp && r.running && node !in r.peerRoutines {
      assert |r'.peerRoutines| == |r.peerRoutines| + 1 by {
        assert r'.peerRoutines.Keys == r.peerRoutines.Keys + {node};
      }
    }
  }

  lemma PeerStepPreserves(r: Reactor, node: NodeId, e: B.BroadcastEvent)
    requires Inv(r) && PeerReady(r, node, e)
    ensures Inv(PeerStep(r, node, e))
  {
    var r' := PeerStep(r, node, e);
    if B.Step(r.peerRoutines[node].loop, e).phase == B.Exited {
      assert |r'.peerRoutines| == |r.peerRoutines| - 1 by {
        assert r'.peerRoutines.Keys == r.peerRoutines.Keys - {node};
      }
    } else {
      assert r'.peerRoutines.Keys == r.peerRoutines.Keys;
    }
  }

  lemma BeginStopPreserves(r: Reactor)
    requires Inv(r) && r.running
    ensures Inv(BeginStop(r))
  {
    var r' := BeginStop(r);
    assert r'.peerRoutines.Keys == r.peerRoutines.Keys;
    assert |r'.peerRoutines| == |r.peerRoutines|;
  }

  lemma StepPreserves(r: Reactor, e: ReactorEvent)
    requires Inv(r) && Enabled(r, e)
    ensures Inv(Step(r, e))
  {
    match e
    case PeerUpdate(node, status) => PeerUpdatePreserves(r, node, status);
    case Peer(node, ev) => PeerStepPreserves(r, node, ev);
    case Stop => BeginStopPreserves(r);
    case UpdatesLoopExits =>
    case Cancel =>
    case StopCompletes =>
  }

  /** Any schedule keeps the invariant. */
  lemma {:induction false} ApplyPreserves(r: Reactor, events: seq<ReactorEvent>)
    requires Inv(r)
    ensures Inv(Apply(r, events))
    decreases |events|
  {
    if |events| > 0 {
      if Enabled(r, events[0]) {
        StepPreserves(r, events[0]);
      }
      ApplyPreserves(if Enabled(r, events[0]) then Step(r, events[0]) else r, events[1..]);
    }
  }

  /** From `OnStart` on, the wait group always equals the number of tracked peers. */
  lemma WaitGroupCountsPeers(events: seq<ReactorEvent>)
    ensures Apply(Started(), events).peerWG == |Apply(Started(), events).peerRoutines|
  {
    ApplyPreserves(Started(), events);
  }

  /**
    Once shutdown has begun no new loop is started: whatever peer updates
    arrive later, the tracked peers are a subset of those tracked before.
   */
  lemma {:induction false} NoLoopStartsAfterStop(r: Reactor, events: seq<ReactorEvent>)
    requires !r.running
    ensures Apply(r, events).peerRoutines.Keys <= r.peerRoutines.Keys
    ensures !Apply(r, events).running
    decreases |events|
  {
    if |events| > 0 {
      var r1 := if Enabled(r, events[0]) then Step(r, events[0]) else r;
      assert r1.peerRoutines.Keys <= r.peerRoutines.Keys && !r1.running;
      NoLoopStartsAfterStop(r1, events[1..]);
    }
  }

  lemma {:induction false} ApplyConcat(r: Reactor, first: seq<ReactorEvent>, second: seq<ReactorEvent>)
    ensures Apply(r, first + second) == Apply(Apply(r, first), second)
    decreases |first|
  {
    if |first| == 0 {
      assert first + second == second;
    } else {
      assert (first + second)[0] == first[0];
      assert (first + second)[1..] == first[1..] + second;
      ApplyConcat(if Enabled(r, first[0]) then Step(r, first[0]) else r, first[1..], second);
    }
  }

  /**
    The events that take one closed peer's loop to its return: a loop about to
    send finishes the send and then sees its closer; a blocked loop sees it at once.
   */
  function ExitEvents(node: NodeId, l: B.Loop): seq<ReactorEvent>
  {
    if l.phase == B.AtTop && l.next.Some? then [Peer(node, B.SendNext(B.Delivered)), Peer(node, B.CloserDone)]
    else [Peer(node, B.CloserDone)]
  }

  /** A closed peer's loop returns, removing exactly its own entry and one wait-group count. */
  lemma PeerExits(r: Reactor, node: NodeId)
    requires Inv(r)
    requires node in r.peerRoutines && r.peerRoutines[node].closed
    ensures Apply(r, ExitEvents(node, r.peerRoutines[node].loop)) ==
              r.(peerRoutines := r.peerRoutines - {node}, peerWG := r.peerWG - 1)
  {
    var l := r.peerRoutines[node].loop;
    if l.phase == B.AtTop && l.next.Some? {
      var e1 := Peer(node, B.SendNext(B.Delivered));
      assert Enabled(r, e1);
      var r1 := Step(r, e1);
      assert r1.peerRoutines[node].closed && r1.peerRoutines[node].loop.phase == B.AwaitingAdvance;
      var e2 := Peer(node, B.CloserDone);
      assert Enabled(r1, e2);
      assert r1.peerRoutines - {node} == r.peerRoutines - {node};
      assert Step(r1, e2) == r.(peerRoutines := r.peerRoutines - {node}, peerWG := r.peerWG - 1);
      assert ExitEvents(node, l) == [e1, e2];
      assert Apply(r, [e1, e2]) == Apply(r1, [e2]);
      assert Apply(r1, [e2]) == Apply(Step(r1, e2), []);
    } else {
      assert Enabled(r, Peer(node, B.CloserDone));
    }
  }

  /** The exit events of every peer in `order`, each computed from its loop in `m`. */
  function DrainEvents(m: map<NodeId, PeerRoutine>, order: seq<NodeId>): seq<ReactorEvent>
    requires forall k :: 0 <= k < |order| ==> order[k] in m
    decreases |order|
  {
    if |order| == 0 then []
    else ExitEvents(order[0], m[order[0]].loop) + DrainEvents(m, order[1..])
  }

  predicate Distinct(order: seq<NodeId>)
  {
    forall i, j :: 0 <= i < j < |order| ==> order[i] != order[j]
  }

  /** Removing a returned loop's entry after shutdown began keeps the invariant. */
  lemma RemovePreserves(r: Reactor, node: NodeId)
    requires Inv(r) && !r.running && node in r.peerRoutines
    ensures Inv(r.(peerRoutines := r.peerRoutines - {node}, peerWG := r.peerWG - 1))
  {
    var r1 := r.(peerRoutines := r.peerRoutines - {node}, peerWG := r.peerWG - 1);
    assert r1.peerRoutines.Keys == r.peerRoutines.Keys - {node};
  }

  /** Dropping the head of a duplicate-free listing of the keys lists the remaining keys. */
  lemma ListingTail(keys: set<NodeId>, order: seq<NodeId>)
    requires |order| > 0 && Distinct(order)
    requires forall p :: p in keys <==> p in order
    ensures Distinct(order[1..])
    ensures forall p :: p in keys - {order[0]} <==> p in order[1..]
  {
    forall p
      ensures p in keys - {order[0]} <==> p in order[1..]
    {
      if p in order && p != order[0] {
        var k :| 0 <= k < |order| && order[k] == p;
        assert order[1..][k - 1] == p;
      }
      if p in order[1..] {
        var k :| 0 <= k < |order[1..]| && order[1..][k] == p;
        assert order[k + 1] == p;
      }
    }
  }

  lemma {:induction false} DrainFrom(r: Reactor, m: map<NodeId, PeerRoutine>, order: seq<NodeId>)
    requires Inv(r) && !r.running
    requires Distinct(order)
    requires forall p :: p in r.peerRoutines <==> p in order
    requires forall k :: 0 <= k < |order| ==> order[k] in m && r.peerRoutines[order[k]] == m[order[k]]
    ensures Apply(r, DrainEvents(m, order)) == r.(peerRoutines := map[], peerWG := 0)
    decreases |order|
  {
    if |order| == 0 {
      assert r.peerRoutines.Keys == {};
    } else {
      var node := order[0];
      var r1 := r.(peerRoutines := r.peerRoutines - {node}, peerWG := r.peerWG - 1);
      PeerExits(r, node);
      ApplyConcat(r, ExitEvents(node, m[node].loop), DrainEvents(m, order[1..]));
      RemovePreserves(r, node);
      ListingTail(r.peerRoutines.Keys, order);
      assert forall k :: 0 <= k < |order[1..]| ==> order[1..][k] == order[k + 1];
      DrainFrom(r1, m, order[1..]);
    }
  }

  /**
    `OnStop` cannot wait forever on a live reactor: after `BeginStop` every
    tracked loop has a closed closer, and letting each one return, in any
    order, empties the map and the wait group, so the wait returns and the
    pool is closed.
   */
  lemma StopDrains(r: Reactor, order: seq<NodeId>)
    requires Inv(r) && r.running
    requires Distinct(order)
    requires forall p :: p in r.peerRoutines <==> p in order
    ensures forall k :: 0 <= k < |order| ==> order[k] in BeginStop(r).peerRoutines
    ensures Apply(BeginStop(r), DrainEvents(BeginStop(r).peerRoutines, order)).peerRoutines == map[]
    ensures Enabled(Apply(BeginStop(r), DrainEvents(BeginStop(r).peerRoutines, order)), StopCompletes)
  {
    var s := BeginStop(r);
    BeginStopPreserves(r);
    DrainFrom(s, s.peerRoutines, order);
  }

}
