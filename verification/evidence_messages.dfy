/**
  Inbound message handling of the evidence reactor (internal/evidence/reactor.go):
  `handleEvidenceMessage`, `handleMessage` and the error path of
  `processEvidenceCh`.

  The evidence pool and the proto conversion are abstract: each list item
  carries whether `EvidenceFromProto` accepts it and what `AddEvidence` does
  with it, including panicking.
 */
module EvidenceMessages {
  import opened Options

  /** `EvidenceChannel = p2p.ChannelID(0x38)`. */
  const EvidenceChannel: int := 0x38

  type NodeId = string

  /** What the pool's `AddEvidence` does with one converted item. */
  datatype AddOutcome = Added | InvalidEvidence | OtherAddError | AddPanics

  /** One item of an `EvidenceList`: whether it converts, and what adding it does. */
  datatype ProtoEvidence = ProtoEvidence(converts: bool, add: AddOutcome)

  datatype Message = EvidenceList(evidence: seq<ProtoEvidence>) | OtherMessage

  datatype Envelope = Envelope(from: NodeId, message: Message)

  /** The errors `handleMessage` can return. `Invalid(i)` is the ErrInvalidEvidence of item `i`. */
  datatype HandleError = Invalid(index: nat) | UnknownMessage | UnknownChannel(channel: int) | PanicRecovered

  /** How `handleEvidenceMessage` ends: nil, an error, or a panic unwinding out of it. */
  datatype Ending = Completed | Errored(err: HandleError) | Panicked

  /** The ending, and the indices of the items handed to `AddEvidence`, in order. */
  datatype Outcome = Outcome(ending: Ending, submitted: seq<nat>)

  /** An item that ends the loop: it converts, and adding it fails with ErrInvalidEvidence or panics. */
  predicate Stops(x: ProtoEvidence)
  {
    x.converts && (x.add == InvalidEvidence || x.add == AddPanics)
  }

  function Last(s: seq<nat>): nat
    requires |s| > 0
  {
    s[|s| - 1]
  }

  /** Where the loop stopped looking: one past the stopping item, or the end of the list. */
  function StopPoint(items: seq<ProtoEvidence>, o: Outcome): nat
  {
    if o.ending == Completed || |o.submitted| == 0 then |items| else Last(o.submitted) + 1
  }

  /**
    The loop over the list from item `i`. Items that fail conversion are
    skipped; the first ErrInvalidEvidence is returned at once and later items
    are never looked at; other `AddEvidence` errors are ignored.
   */
  function HandleItems(items: seq<ProtoEvidence>, i: nat): (o: Outcome)
    requires i <= |items|
    ensures forall k :: 0 <= k < |o.submitted| ==> i <= o.submitted[k] < |items| && items[o.submitted[k]].converts
    ensures forall k, l :: 0 <= k < l < |o.submitted| ==> o.submitted[k] < o.submitted[l]
    decreases |items| - i
  {
    if i == |items| then Outcome(Completed, [])
    else if !items[i].converts then HandleItems(items, i + 1)
    else
      match items[i].add
      case InvalidEvidence => Outcome(Errored(Invalid(i)), [i])
      case AddPanics => Outcome(Panicked, [i])
      case _ =>
        var rest := HandleItems(items, i + 1);
        Outcome(rest.ending, [i] + rest.submitted)
  }

  /** The loop completes exactly when no item from `i` on converts and is then rejected as invalid or panics. */
  lemma {:induction false} CompletesIffNoStopper(items: seq<ProtoEvidence>, i: nat)
    requires i <= |items|
    ensures HandleItems(items, i).ending == Completed <==> forall j :: i <= j < |items| ==> !Stops(items[j])
    decreases |items| - i
  {
    if i < |items| && !Stops(items[i]) {
      CompletesIffNoStopper(items, i + 1);
    }
  }

  /**
    When the loop ends early, it ends at the first stopping item: an invalid
    item is reported by its index, a panic passes through, and that item is the
    last one handed to the pool.
   */
  lemma {:induction false} StopsAtFirstStopper(items: seq<ProtoEvidence>, i: nat)
    requires i <= |items|
    requires HandleItems(items, i).ending != Completed
    ensures |HandleItems(items, i).submitted| > 0
    ensures Stops(items[Last(HandleItems(items, i).submitted)])
    ensures forall j :: i <= j < Last(HandleItems(items, i).submitted) ==> !Stops(items[j])
    ensures HandleItems(items, i).ending.Errored? <==> items[Last(HandleItems(items, i).submitted)].add == InvalidEvidence
    ensures HandleItems(items, i).ending.Errored? ==>
              HandleItems(items, i).ending == Errored(Invalid(Last(HandleItems(items, i).submitted)))
    decreases |items| - i
  {
    if i < |items| && !Stops(items[i]) {
      StopsAtFirstStopper(items, i + 1);
      var rest := HandleItems(items, i + 1);
      if items[i].converts {
        assert HandleItems(items, i).submitted == [i] + rest.submitted;
      }
    }
  }

  /** Every item before the stopping point that converts is handed to the pool. */
  lemma {:induction false} SubmitsEveryConvertedItem(items: seq<ProtoEvidence>, i: nat, j: nat)
    requires i <= |items|
    requires i <= j < StopPoint(items, HandleItems(items, i))
    requires items[j].converts
    ensures j in HandleItems(items, i).submitted
    decreases |items| - i
  {
    var o := HandleItems(items, i);
    if j > i {
      if !items[i].converts {
        SubmitsEveryConvertedItem(items, i + 1, j);
      } else {
        var rest := HandleItems(items, i + 1);
        assert o.submitted == [i] + rest.submitted;
        assert StopPoint(items, rest) == StopPoint(items, o);
        SubmitsEveryConvertedItem(items, i + 1, j);
      }
    }
  }

  /** `handleEvidenceMessage`: an `EvidenceList` is folded over; any other message is an error. */
  function HandleEvidenceMessage(env: Envelope): (o: Outcome)
    ensures env.message.OtherMessage? ==> o == Outcome(Errored(UnknownMessage), [])
    ensures env.message.EvidenceList? ==> o == HandleItems(env.message.evidence, 0)
  {
    match env.message
    case EvidenceList(items) => HandleItems(items, 0)
    case OtherMessage => Outcome(Errored(UnknownMessage), [])
  }

  /**
    `handleEvidenceMessage` returns nil exactly for an evidence list with no
    stopping item. Otherwise it ends at the first stopping item, and an
    ErrInvalidEvidence names that item's index; the only other error is the
    unknown-message one, returned exactly for a message that is not a list.
   */
  lemma HandleEvidenceMessageEnding(env: Envelope)
    ensures var o := HandleEvidenceMessage(env);
            && (o.ending == Completed <==>
                  env.message.EvidenceList? && forall j :: 0 <= j < |env.message.evidence| ==> !Stops(env.message.evidence[j]))
            && (o.ending == Errored(UnknownMessage) <==> env.message.OtherMessage?)
            && (o.ending.Errored? ==> o.ending.err.Invalid? || o.ending.err == UnknownMessage)
            && (env.message.EvidenceList? && o.ending != Completed ==>
                  && |o.submitted| > 0 && Last(o.submitted) < |env.message.evidence|
                  && Stops(env.message.evidence[Last(o.submitted)])
                  && (forall j :: 0 <= j < Last(o.submitted) ==> !Stops(env.message.evidence[j]))
                  && (o.ending.Errored? ==> o.ending == Errored(Invalid(Last(o.submitted)))))
  {
    if env.message.EvidenceList? {
      CompletesIffNoStopper(env.message.evidence, 0);
      if HandleEvidenceMessage(env).ending != Completed {
        StopsAtFirstStopper(env.message.evidence, 0);
      }
    }
  }

  /** What `handleMessage` returns, and which items reached the pool. */
  datatype Handled = Handled(err: Option<HandleError>, submitted: seq<nat>)

  /**
    `handleMessage`: only the evidence channel is handled; a panic while
    handling is recovered and returned as an error.
   */
  function HandleMessage(chId: int, env: Envelope): (h: Handled)
    ensures h.err.None? <==>
              && chId == EvidenceChannel
              && env.message.EvidenceList?
              && forall j :: 0 <= j < |env.message.evidence| ==> !Stops(env.message.evidence[j])
    ensures chId != EvidenceChannel ==> h == Handled(Some(UnknownChannel(chId)), [])
    ensures chId == EvidenceChannel && env.message.EvidenceList? ==>
              && h.submitted == HandleItems(env.message.evidence, 0).submitted
              && (h.err == Some(PanicRecovered) <==> HandleItems(env.message.evidence, 0).ending == Panicked)
  {
    if chId != EvidenceChannel then Handled(Some(UnknownChannel(chId)), [])
    else
      HandleEvidenceMessageEnding(env);
      var o := HandleEvidenceMessage(env);
      match o.ending
      case Completed => Handled(None, o.submitted)
      case Errored(e) => Handled(Some(e), o.submitted)
      case Panicked => Handled(Some(PanicRecovered), o.submitted)
  }

  /** The error reported against the peer that sent the envelope: `p2p.PeerError{NodeID, Err}`. */
  datatype PeerError = PeerError(nodeId: NodeId, err: HandleError)

  /** The peer error `processEvidenceCh` sends for one envelope, if handling it failed. */
  function ReportFor(chId: int, env: Envelope): (r: Option<PeerError>)
    ensures r.Some? <==> HandleMessage(chId, env).err.Some?
    ensures r.Some? ==> r.value.nodeId == env.from && Some(r.value.err) == HandleMessage(chId, env).err
  {
    match HandleMessage(chId, env).err
    case None => None
    case Some(e) => Some(PeerError(env.from, e))
  }

  /** One event seen by `processEvidenceCh`: an envelope (and whether reporting its error succeeds), or cancellation. */
  datatype ChannelEvent = Receive(envelope: Envelope, reportOk: bool) | ContextDone

  /** Whether the loop goes on after the event. */
  predicate Continues(chId: int, e: ChannelEvent)
  {
    e.Receive? && (ReportFor(chId, e.envelope).None? || e.reportOk)
  }

  /** The run of the loop: the report made for each consumed event, and whether it returned. */
  datatype ChannelRun = ChannelRun(reports: seq<Option<PeerError>>, consumed: nat, exited: bool)

  /**
    `processEvidenceCh` over a sequence of events. It returns exactly at the
    first cancellation or the first failed report; every handler error before
    that is reported against the envelope's sender.
   */
  function ProcessEvidenceCh(chId: int, events: seq<ChannelEvent>): (r: ChannelRun)
    ensures r.consumed <= |events| && |r.reports| == r.consumed
    ensures forall j :: 0 <= j < r.consumed ==>
              r.reports[j] == (if events[j].Receive? then ReportFor(chId, events[j].envelope) else None)
    ensures forall j :: 0 <= j < r.consumed && j + 1 < r.consumed ==> Continues(chId, events[j])
    ensures r.exited <==> r.consumed > 0 && !Continues(chId, events[r.consumed - 1])
    ensures !r.exited ==> r.consumed == |events|
    decreases |events|
  {
    if |events| == 0 then ChannelRun([], 0, false)
    else
      match events[0]
      case ContextDone => ChannelRun([None], 1, true)
      case Receive(env, reportOk) =>
        var report := ReportFor(chId, env);
        if report.Some? && !reportOk then ChannelRun([report], 1, true)
        else
          var rest := ProcessEvidenceCh(chId, events[1..]);
          ChannelRun([report] + rest.reports, rest.consumed + 1, rest.exited)
  }

}
