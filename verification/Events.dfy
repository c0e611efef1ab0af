/** Sealed reasoning events and the hash chain that links them. */
module Events {
  import opened Prelude
  import opened Domain
  import opened State

  /** A digest is the content it was computed from, so equal digests mean equal content. `Foreign`
      stands for digests of content outside this model. */
  datatype Digest =
    | Genesis
    | OfState(state: PuzzleState)
    | OfEvent(body: EventBody)
    | Foreign(content: Identifier)

  datatype Origin = GivenOrigin | HumanRule | AssumptionOrigin | SearchOrigin | SystemOrigin
  datatype Opening = ByAssumption | BySearch | ByDemonstration
  datatype Closure = AsContradicted | AsSolved | AsAbandoned

  datatype Payload =
    | InitialStateCreated(stateHash: Digest)
    | CandidatesEliminated(variable: VariableId, values: seq<ValueId>, source: Digest,
                           resultState: Identifier, origin: Origin)
    | ValueAssigned(variable: VariableId, value: ValueId, source: Digest,
                    resultState: Identifier, origin: Origin)
    | BranchOpened(parent: Identifier, source: Digest, assumption: Atom, opening: Opening,
                   resultState: Identifier)
    | ContradictionDetected(contradiction: Identifier, source: Digest, resultState: Identifier)
    | BranchClosed(source: Digest, closure: Closure)
    | LifecycleEvent(content: Identifier)

  /** Every field the digest covers; `context` stands for type, version, time, producer and causality. */
  datatype EventBody = EventBody(
    eventId: Identifier,
    trace: Identifier,
    revision: Identifier,
    branch: Identifier,
    sequenceNo: nat,
    context: Identifier,
    previous: Digest,
    payload: Payload)

  datatype Event = Event(body: EventBody, hash: Digest)

  function Seal(body: EventBody): Event {
    Event(body, OfEvent(body))
  }

  predicate Verified(e: Event) {
    e.hash == OfEvent(e.body)
  }

  // ----- chains -----

  datatype Fault =
    | NonContiguousSequence | PreviousHashMismatch | EventHashMismatch
    | TraceMismatch | RevisionMismatch

  datatype ChainVerification = ChainVerification(
    total: nat, firstInvalid: Option<nat>, fault: Option<Fault>, untrusted: seq<nat>)
  {
    predicate Valid() {
      firstInvalid.None?
    }
  }

  /** What is wrong at position `i`, given the event before it; the first failing test is named. */
  function FaultAt(events: seq<Event>, i: nat): Option<Fault>
    requires i < |events|
  {
    var e := events[i];
    if e.body.sequenceNo != i then Some(NonContiguousSequence)
    else if e.body.previous != (if i == 0 then Genesis else events[i - 1].hash) then Some(PreviousHashMismatch)
    else if !Verified(e) then Some(EventHashMismatch)
    else if i > 0 && e.body.trace != events[i - 1].body.trace then Some(TraceMismatch)
    else if i > 0 && e.body.revision != events[i - 1].body.revision then Some(RevisionMismatch)
    else None
  }

  /** The named fault is there, and none that is looked for before it. */
  predicate NamesFirst(events: seq<Event>, i: nat, fault: Fault)
    requires i < |events|
  {
    var e := events[i];
    var ordered := e.body.sequenceNo == i;
    var linked := ordered && e.body.previous == if i == 0 then Genesis else events[i - 1].hash;
    match fault
    case NonContiguousSequence => !ordered
    case PreviousHashMismatch => ordered && !linked
    case EventHashMismatch => linked && !Verified(e)
    case TraceMismatch => linked && Verified(e) && i > 0 && e.body.trace != events[i - 1].body.trace
    case RevisionMismatch =>
      linked && Verified(e) && i > 0 && e.body.trace == events[i - 1].body.trace && e.body.revision != events[i - 1].body.revision
  }

  predicate Intact(events: seq<Event>) {
    forall i :: 0 <= i < |events| ==> FaultAt(events, i).None?
  }

  function SequenceNumbers(events: seq<Event>): seq<nat> {
    seq(|events|, i requires 0 <= i < |events| => events[i].body.sequenceNo)
  }

  /** `verify_chain`: the report names the first position whose order, linkage, digest or identity
      fails, and distrusts exactly the events from there on. */
  method VerifyChain(events: seq<Event>) returns (r: ChainVerification)
    ensures r.total == |events|
    ensures r.Valid() <==> Intact(events)
    ensures r.Valid() ==> r.untrusted == [] && r.fault.None?
    ensures !r.Valid() ==> exists i: nat ::
      && i < |events|
      && FaultAt(events, i).Some? && r.fault == FaultAt(events, i) && NamesFirst(events, i, r.fault.value)
      && (forall j: nat :: j < i ==> FaultAt(events, j).None?)
      && r.firstInvalid == Some(events[i].body.sequenceNo)
      && r.untrusted == SequenceNumbers(events[i..])
  {
    hide NamesFirst;
    var previous := Genesis;
    var trace: Option<Identifier> := None;
    var revision: Option<Identifier> := None;
    for i := 0 to |events|
      invariant forall j: nat :: j < i ==> FaultAt(events, j).None?
      invariant previous == if i == 0 then Genesis else events[i - 1].hash
      invariant trace == if i == 0 then None else Some(events[i - 1].body.trace)
      invariant revision == if i == 0 then None else Some(events[i - 1].body.revision)
    {
      var e := events[i];
      var fault: Option<Fault> := None;
      if e.body.sequenceNo != i {
        fault := Some(NonContiguousSequence);
      } else if e.body.previous != previous {
        fault := Some(PreviousHashMismatch);
      } else if !Verified(e) {
        fault := Some(EventHashMismatch);
      } else if trace.Some? && e.body.trace != trace.value {
        fault := Some(TraceMismatch);
      } else if revision.Some? && e.body.revision != revision.value {
        fault := Some(RevisionMismatch);
      }
      assert fault == FaultAt(events, i);
      if fault.Some? {
        FaultIsFirst(events, i);
        return ChainVerification(|events|, Some(e.body.sequenceNo), fault, SequenceNumbers(events[i..]));
      }
      trace, revision, previous := Some(e.body.trace), Some(e.body.revision), e.hash;
    }
    return ChainVerification(|events|, None, None, []);
  }

  lemma {:induction false} FaultIsFirst(events: seq<Event>, i: nat)
    requires i < |events| && FaultAt(events, i).Some?
    ensures NamesFirst(events, i, FaultAt(events, i).value)
  {
  }

  lemma {:induction false} IntactPrefix(events: seq<Event>, n: nat)
    requires Intact(events) && n <= |events|
    ensures Intact(events[..n])
  {
    forall i | 0 <= i < n ensures FaultAt(events[..n], i).None? {
      assert FaultAt(events, i).None?;
    }
  }

  /** The head hash commits to the whole history: intact chains with the same head are equal. */
  lemma {:induction false} HeadCommitsToHistory(a: seq<Event>, b: seq<Event>)
    requires Intact(a) && Intact(b) && |a| > 0 && |b| > 0
    requires a[|a| - 1].hash == b[|b| - 1].hash
    ensures a == b
    decreases |a|
  {
    var n := |a| - 1;
    assert FaultAt(a, n).None? && FaultAt(b, |b| - 1).None?;
    assert a[n] == b[|b| - 1];
    assert |b| == |a|;
    if n > 0 {
      IntactPrefix(a, n);
      IntactPrefix(b, n);
      HeadCommitsToHistory(a[..n], b[..n]);
    }
    assert a == a[..n] + [a[n]] && b == b[..n] + [b[n]];
  }

  /** Extending an intact chain by one well-linked sealed event keeps it intact. */
  lemma {:induction false} IntactExtend(events: seq<Event>, e: Event)
    requires Intact(events)
    ensures Intact(events + [e]) <==> FaultAt(events + [e], |events|).None?
  {
    var longer := events + [e];
    forall i | 0 <= i < |events| ensures FaultAt(longer, i).None? {
      assert FaultAt(events, i).None?;
    }
  }

  /** An intact chain belongs to one trace and one revision. */
  lemma {:induction false} IntactIdentity(events: seq<Event>, i: nat)
    requires Intact(events) && i < |events|
    ensures events[i].body.trace == events[0].body.trace
    ensures events[i].body.revision == events[0].body.revision
  {
    if i > 0 {
      assert FaultAt(events, i).None?;
      IntactIdentity(events, i - 1);
    }
  }

  /** Sealed, at the position of its number, following the event before it, in the trace and revision of the first. */
  predicate WellPlaced(events: seq<Event>, i: nat)
    requires i < |events|
  {
    var body := events[i].body;
    && body.sequenceNo == i && events[i].hash == OfEvent(body)
    && body.previous == (if i == 0 then Genesis else events[i - 1].hash)
    && body.trace == events[0].body.trace && body.revision == events[0].body.revision
  }

  /** Intact are exactly the sequences all of whose events are well placed. */
  lemma {:induction false} IntactExactly(events: seq<Event>)
    ensures Intact(events) <==> forall i :: 0 <= i < |events| ==> WellPlaced(events, i)
  {
    if Intact(events) {
      forall i | 0 <= i < |events| ensures WellPlaced(events, i) {
        assert FaultAt(events, i).None?;
        IntactIdentity(events, i);
      }
    }
    if forall i :: 0 <= i < |events| ==> WellPlaced(events, i) {
      forall i | 0 <= i < |events| ensures FaultAt(events, i).None? {
        assert WellPlaced(events, i) && (i > 0 ==> WellPlaced(events, i - 1));
      }
    }
  }
}
