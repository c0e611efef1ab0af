/** The SQLite event store: two tables, transactional appends, and verified reads. */
module EventStore {
  import opened Prelude
  import opened Events

  type TraceId = Identifier
  type EventId = Identifier

  // ----- what the store refines: a map from trace to its events -----

  type Log = map<TraceId, seq<Event>>

  predicate InStream(stream: seq<Event>, id: EventId) {
    exists i :: 0 <= i < |stream| && stream[i].body.eventId == id
  }

  predicate KnownId(log: Log, id: EventId) {
    exists t :: t in log && InStream(log[t], id)
  }

  /** Why an event is refused, if it is: its digest, a repeat in its stream, a break in continuity, or a
      repeat in another stream, looked for in this order. */
  function Refusal(log: Log, e: Event): Option<Error> {
    var t := e.body.trace;
    if !Verified(e) then Some(StreamIntegrity)
    else if t in log && InStream(log[t], e.body.eventId) then Some(DuplicateEvent)
    else if !Continues(if t in log then log[t] else [], e) then Some(StreamConflict)
    else if KnownId(log, e.body.eventId) then Some(DuplicateEvent)
    else None
  }

  predicate Continues(stream: seq<Event>, e: Event) {
    if stream == [] then e.body.sequenceNo == 0 && e.body.previous == Genesis
    else
      var head := stream[|stream| - 1];
      && e.body.revision == head.body.revision
      && e.body.sequenceNo == head.body.sequenceNo + 1 && e.body.previous == head.hash
  }

  function Extended(log: Log, e: Event): Log {
    var t := e.body.trace;
    log[t := (if t in log then log[t] else []) + [e]]
  }

  /** Streams are nonempty intact chains of their own trace. */
  ghost predicate SoundStream(t: TraceId, stream: seq<Event>) {
    stream != [] && Intact(stream) && forall i :: 0 <= i < |stream| ==> stream[i].body.trace == t
  }

  ghost predicate Sound(log: Log) {
    && (forall t :: t in log ==> SoundStream(t, log[t]))
    && forall t, u, i: nat, j: nat :: SameId(log, t, i, u, j) ==> t == u && i == j
  }

  predicate SameId(log: Log, t: TraceId, i: nat, u: TraceId, j: nat) {
    && t in log && u in log && i < |log[t]| && j < |log[u]|
    && log[t][i].body.eventId == log[u][j].body.eventId
  }

  /** In an intact stream sequence numbers are positions. */
  lemma {:induction false} SequenceIsPosition(stream: seq<Event>, i: nat)
    requires Intact(stream) && i < |stream|
    ensures stream[i].body.sequenceNo == i && Verified(stream[i])
  {
    assert FaultAt(stream, i).None?;
  }

  /** Accepting an event keeps every stream a sound chain with identifiers of its own. */
  lemma {:induction false} AcceptingKeepsSound(log: Log, e: Event)
    requires Sound(log) && Refusal(log, e).None?
    ensures Sound(Extended(log, e))
  {
    var t := e.body.trace;
    var before := if t in log then log[t] else [];
    var next := Extended(log, e);
    ContinuingKeepsIntact(before, e, t);
    forall u, v, i: nat, j: nat | SameId(next, u, i, v, j) ensures u == v && i == j {
      IsOldOrNew(log, e, u, i);
      IsOldOrNew(log, e, v, j);
      assert u in log && i < |log[u]| && v in log && j < |log[v]| ==> SameId(log, u, i, v, j);
    }
  }

  lemma {:induction false} ContinuingKeepsIntact(stream: seq<Event>, e: Event, t: TraceId)
    requires stream == [] || SoundStream(t, stream)
    requires Verified(e) && e.body.trace == t && Continues(stream, e)
    ensures SoundStream(t, stream + [e])
  {
    IntactExtend(stream, e);
    if stream != [] {
      SequenceIsPosition(stream, |stream| - 1);
    }
  }

  lemma {:induction false} IsOldOrNew(log: Log, e: Event, u: TraceId, i: nat)
    requires u in Extended(log, e) && i < |Extended(log, e)[u]| && !KnownId(log, e.body.eventId)
    ensures var x := Extended(log, e)[u][i];
      || (u in log && i < |log[u]| && x == log[u][i] && x.body.eventId != e.body.eventId)
      || (u == e.body.trace && x == e && i == |Extended(log, e)[u]| - 1)
  {
    assert u in log ==> !InStream(log[u], e.body.eventId);
  }

  // ----- the tables -----

  datatype StreamRow = StreamRow(revision: Identifier, latestSequence: nat, latestHash: Digest)

  /** The envelope is missing when its stored text does not validate. */
  datatype EventRow = EventRow(
    id: EventId, trace: TraceId, sequenceNo: nat, previous: Digest, hash: Digest, envelope: Option<Event>)

  type Streams = map<TraceId, StreamRow>
  type Rows = map<EventId, EventRow>

  function RowOf(e: Event): EventRow {
    EventRow(e.body.eventId, e.body.trace, e.body.sequenceNo, e.body.previous, e.hash, Some(e))
  }

  function HeadRow(stream: seq<Event>): StreamRow
    requires stream != []
  {
    var head := stream[|stream| - 1];
    StreamRow(head.body.revision, head.body.sequenceNo, head.hash)
  }

  /** The index columns repeat the envelope. */
  predicate IndexesAgree(row: EventRow) {
    row.envelope.Some? && row == RowOf(row.envelope.value)
  }

  // ----- queries -----

  function Numbered(rows: Rows, t: TraceId, n: nat): set<EventId> {
    set id | id in rows && rows[id].trace == t && rows[id].sequenceNo == n
  }

  function SequencesOf(rows: Rows, t: TraceId): set<int> {
    set id | id in rows && rows[id].trace == t :: rows[id].sequenceNo
  }

  lemma {:induction false} NumberedExist(rows: Rows, t: TraceId, n: int)
    requires n in SequencesOf(rows, t)
    ensures n >= 0 && Numbered(rows, t, n) != {}
  {
    var id :| id in rows && rows[id].trace == t && rows[id].sequenceNo == n;
    assert id in Numbered(rows, t, n);
  }

  /** The rows of one trace in sequence order. */
  function Selected(rows: Rows, t: TraceId, ns: seq<int>): seq<EventRow>
    requires forall n :: n in ns ==> n in SequencesOf(rows, t)
  {
    if ns == [] then []
    else
      var n := ns[0];
      assert n in ns;
      NumberedExist(rows, t, n);
      [rows[Least(Numbered(rows, t, n))]] + Selected(rows, t, ns[1..])
  }

  /** `_load_rows` from the start of the stream. */
  function LoadRows(rows: Rows, t: TraceId): seq<EventRow> {
    Selected(rows, t, Ascending(SequencesOf(rows, t)))
  }

  /** A loaded stream, or the sequence number at which its stored form is damaged. */
  datatype Loaded = Stream(events: seq<Event>) | Damaged(sequenceNo: nat)

  function ReadRows(rows: seq<EventRow>): Loaded {
    if rows == [] then Stream([])
    else
      var n := |rows| - 1;
      match ReadRows(rows[..n])
      case Damaged(k) => Damaged(k)
      case Stream(events) =>
        if rows[n].envelope.None? then Damaged(rows[n].sequenceNo)
        else if !IndexesAgree(rows[n]) then Damaged(rows[n].envelope.value.body.sequenceNo)
        else Stream(events + [rows[n].envelope.value])
  }

  /** `_validate_stream_index` */
  function CheckHead(streams: Streams, t: TraceId, events: seq<Event>): Loaded {
    if t !in streams then
      if events != [] then Damaged(events[0].body.sequenceNo) else Stream(events)
    else if events == [] then Damaged(0)
    else if streams[t] != HeadRow(events) then Damaged(events[|events| - 1].body.sequenceNo)
    else Stream(events)
  }

  function LoadStream(streams: Streams, rows: Rows, t: TraceId): Loaded {
    match ReadRows(LoadRows(rows, t))
    case Damaged(k) => Damaged(k)
    case Stream(events) => CheckHead(streams, t, events)
  }

  /** The stored form of the trace is undamaged and its chain intact. */
  predicate Readable(streams: Streams, rows: Rows, t: TraceId) {
    LoadStream(streams, rows, t).Stream? && Intact(LoadStream(streams, rows, t).events)
  }

  // ----- the tables hold the log -----

  ghost predicate Holds(streams: Streams, rows: Rows, log: Log) {
    && streams.Keys == log.Keys
    && (forall t :: t in log ==> log[t] != [] && streams[t] == HeadRow(log[t]))
    && (forall t, i :: t in log && 0 <= i < |log[t]| ==> Stored(rows, log[t][i]))
    && (forall id :: id in rows ==> Logged(log, id, rows[id]))
  }

  predicate Stored(rows: Rows, e: Event) {
    e.body.eventId in rows && rows[e.body.eventId] == RowOf(e)
  }

  predicate Logged(log: Log, id: EventId, row: EventRow) {
    && row.id == id && row.trace in log && row.sequenceNo < |log[row.trace]|
    && row == RowOf(log[row.trace][row.sequenceNo])
  }

  lemma {:induction false} SequencesAreRange(streams: Streams, rows: Rows, log: Log, t: TraceId)
    requires Sound(log) && Holds(streams, rows, log) && t in log
    ensures forall n :: n in SequencesOf(rows, t) <==> 0 <= n < |log[t]|
  {
    forall n | 0 <= n < |log[t]| ensures n in SequencesOf(rows, t) {
      assert Stored(rows, log[t][n]) && SoundStream(t, log[t]);
      SequenceIsPosition(log[t], n);
      assert rows[log[t][n].body.eventId].trace == t;
    }
    forall n | n in SequencesOf(rows, t) ensures 0 <= n < |log[t]| {
      var id :| id in rows && rows[id].trace == t && rows[id].sequenceNo == n;
      assert Logged(log, id, rows[id]);
    }
  }

  lemma {:induction false} AscendingRange(ns: seq<int>, low: int, high: int)
    requires low <= high && (forall i, j :: 0 <= i < j < |ns| ==> ns[i] < ns[j])
    requires forall n :: n in ns <==> low <= n < high
    ensures |ns| == high - low && forall i :: 0 <= i < |ns| ==> ns[i] == low + i
    decreases high - low
  {
    if ns == [] {
      assert low !in ns;
    } else {
      assert ns[0] in ns;
      assert low in ns;
      var k :| 0 <= k < |ns| && ns[k] == low;
      assert ns[0] == low;
      var rest := ns[1..];
      forall n ensures n in rest <==> low + 1 <= n < high {
        if n in rest {
          var j :| 0 <= j < |rest| && rest[j] == n;
          assert ns[j + 1] == n && n in ns;
        }
        if low + 1 <= n < high {
          assert n in ns;
          var j :| 0 <= j < |ns| && ns[j] == n;
          assert rest[j - 1] == n;
        }
      }
      AscendingRange(rest, low + 1, high);
      assert forall i :: 0 < i < |ns| ==> ns[i] == rest[i - 1];
    }
  }

  lemma {:induction false} RowAtPosition(streams: Streams, rows: Rows, log: Log, t: TraceId, n: nat)
    requires Sound(log) && Holds(streams, rows, log) && t in log && n < |log[t]|
    ensures Numbered(rows, t, n) == {log[t][n].body.eventId}
    ensures rows[log[t][n].body.eventId] == RowOf(log[t][n])
  {
    var e := log[t][n];
    assert Stored(rows, e) && SoundStream(t, log[t]);
    SequenceIsPosition(log[t], n);
    forall id | id in Numbered(rows, t, n) ensures id == e.body.eventId {
      assert Logged(log, id, rows[id]);
    }
    assert e.body.eventId in Numbered(rows, t, n);
  }

  function RowsOf(stream: seq<Event>): (rows: seq<EventRow>)
    ensures |rows| == |stream|
  {
    seq(|stream|, i requires 0 <= i < |stream| => RowOf(stream[i]))
  }

  lemma {:induction false} SelectedRows(streams: Streams, rows: Rows, log: Log, t: TraceId, ns: seq<int>, start: nat)
    requires Sound(log) && Holds(streams, rows, log) && t in log && start <= |log[t]|
    requires |ns| == |log[t]| - start && forall i :: 0 <= i < |ns| ==> ns[i] == start + i
    requires forall n :: n in ns ==> n in SequencesOf(rows, t)
    ensures Selected(rows, t, ns) == RowsOf(log[t][start..])
    decreases |ns|
  {
    hide Sound, Holds, SequencesOf, RowOf;
    if ns != [] {
      RowAtPosition(streams, rows, log, t, start);
      SelectedRows(streams, rows, log, t, ns[1..], start + 1);
      assert RowsOf(log[t][start..]) == [RowOf(log[t][start])] + RowsOf(log[t][start + 1..]);
      var only := Numbered(rows, t, start);
      assert Least(only) in only;
    }
  }

  lemma {:induction false} ReadBack(stream: seq<Event>)
    ensures ReadRows(RowsOf(stream)) == Stream(stream)
  {
    if stream != [] {
      var n := |stream| - 1;
      ReadBack(stream[..n]);
      assert RowsOf(stream)[..n] == RowsOf(stream[..n]);
      assert stream[..n] + [stream[n]] == stream;
    }
  }

  /** Loading returns exactly the logged stream. */
  lemma {:induction false} LoadedIsLogged(streams: Streams, rows: Rows, log: Log, t: TraceId)
    requires Sound(log) && Holds(streams, rows, log)
    ensures LoadStream(streams, rows, t) == Stream(if t in log then log[t] else [])
  {
    hide Sound, ReadRows, Selected;
    var ns := Ascending(SequencesOf(rows, t));
    if t in log {
      SequencesAreRange(streams, rows, log, t);
      AscendingMembers(rows, t, |log[t]|);
      AscendingRange(ns, 0, |log[t]|);
      SelectedRows(streams, rows, log, t, ns, 0);
      assert log[t][0..] == log[t];
      ReadBack(log[t]);
    } else {
      NothingSelected(streams, rows, log, t);
    }
  }

  lemma {:induction false} AscendingMembers(rows: Rows, t: TraceId, size: nat)
    requires forall n :: n in SequencesOf(rows, t) <==> 0 <= n < size
    ensures forall n :: n in Ascending(SequencesOf(rows, t)) <==> 0 <= n < size
  {
    hide SequencesOf;
    forall n ensures n in Ascending(SequencesOf(rows, t)) <==> 0 <= n < size {
      assert n in Ascending(SequencesOf(rows, t)) <==> n in SequencesOf(rows, t);
    }
  }

  lemma {:induction false} NothingSelected(streams: Streams, rows: Rows, log: Log, t: TraceId)
    requires Holds(streams, rows, log) && t !in log
    ensures ReadRows(LoadRows(rows, t)) == Stream([])
  {
    forall id | id in rows ensures rows[id].trace != t {
      assert Logged(log, id, rows[id]);
    }
    assert SequencesOf(rows, t) == {};
  }

  // ----- the store -----

  class Store {
    var streams: Streams
    var rows: Rows
    /** The log the tables hold. */
    ghost var log: Log

    ghost predicate Valid()
      reads this
    {
      Sound(log) && Holds(streams, rows, log)
    }

    constructor ()
      ensures Valid() && log == map[]
    {
      streams, rows, log := map[], map[], map[];
    }

    /** `_load_stream`: read the rows in order, then compare the head index. */
    method Load(t: TraceId) returns (loaded: Loaded)
      ensures loaded == LoadStream(streams, rows, t)
    {
      var found := LoadRows(rows, t);
      var events: seq<Event> := [];
      for i := 0 to |found|
        invariant ReadRows(found[..i]) == Stream(events)
      {
        assert found[..i + 1][..i] == found[..i];
        var row := found[i];
        if row.envelope.None? {
          DamageStays(found, i + 1, row.sequenceNo);
          return Damaged(row.sequenceNo);
        }
        if !IndexesAgree(row) {
          DamageStays(found, i + 1, row.envelope.value.body.sequenceNo);
          return Damaged(row.envelope.value.body.sequenceNo);
        }
        events := events + [row.envelope.value];
      }
      assert found[..|found|] == found;
      return CheckHead(streams, t, events);
    }

    /** Insertion into the event table; a repeated identifier, hash or position violates a constraint. */
    method InsertEvent(row: EventRow) returns (ok: bool)
      modifies this`rows
      ensures ok <==> !Collides(old(rows), row)
      ensures rows == if ok then old(rows)[row.id := row] else old(rows)
    {
      if row.id in rows || exists id :: id in rows && Clashes(rows[id], row) {
        return false;
      }
      rows := rows[row.id := row];
      return true;
    }

    /** `append`: an accepted event is added at the end of its trace and nowhere else; a refused one leaves
        both tables as they were, even when the refusal comes after the stream row was inserted. A store
        damaged from outside refuses the traces it can no longer read or verify. */
    method Append(e: Event) returns (r: Result<()>)
      modifies this
      ensures r.Err? ==> streams == old(streams) && rows == old(rows) && log == old(log)
      ensures old(Valid()) ==> Valid() && (r.Ok? <==> Refusal(old(log), e).None?)
      ensures old(Valid()) && r.Ok? ==> log == Extended(old(log), e)
      ensures old(Valid()) && r.Err? ==> Some(r.error) == Refusal(old(log), e)
      ensures !Verified(e) || !Readable(old(streams), old(rows), e.body.trace) ==> r == Err(StreamIntegrity)
    {
      hide Sound, Holds, Intact, FaultAt, LoadStream, HeadRow, KnownId, InStream, Collides;
      var t := e.body.trace;
      if !Verified(e) {
        return Err(StreamIntegrity);
      }
      ghost var sound := Valid();
      var savedStreams, savedRows := streams, rows;
      var loaded := Load(t);
      if sound {
        LoadedIsLogged(streams, rows, log, t);
        StreamIsIntact(log, t);
        HeadIsIndexed(streams, rows, log, t);
      }
      if loaded.Damaged? {
        return Err(StreamIntegrity);
      }
      var verification := VerifyChain(loaded.events);
      if !verification.Valid() {
        return Err(StreamIntegrity);
      }
      if InStream(loaded.events, e.body.eventId) {
        NothingInEmpty(e.body.eventId);
        return Err(DuplicateEvent);
      }
      if t !in streams {
        if e.body.sequenceNo != 0 || e.body.previous != Genesis {
          return Err(StreamConflict);
        }
        streams := streams[t := StreamRow(e.body.revision, e.body.sequenceNo, e.hash)];
      } else {
        var head := streams[t];
        if e.body.revision != head.revision || e.body.sequenceNo != head.latestSequence + 1
           || e.body.previous != head.latestHash {
          return Err(StreamConflict);
        }
      }
      if sound {
        CollisionMeansKnown(savedStreams, savedRows, log, e);
      }
      var inserted := InsertEvent(RowOf(e));
      if !inserted {
        streams, rows := savedStreams, savedRows;
        return Err(DuplicateEvent);
      }
      streams := streams[t := streams[t].(latestSequence := e.body.sequenceNo, latestHash := e.hash)];
      if sound {
        ExtendedIsHeld(savedStreams, savedRows, log, e, streams, rows);
        AcceptingKeepsSound(log, e);
        log := Extended(log, e);
      }
      return Ok(());
    }

    /** `read_stream`: the exact suffix after the given sequence number, or a refusal when the stored form is
        damaged or its chain is broken. */
    method ReadStream(t: TraceId, after: int) returns (r: Result<seq<Event>>)
      ensures Readable(streams, rows, t) ==>
        var events := LoadStream(streams, rows, t).events;
        r == Ok(events[if after < 0 then 0 else if after < |events| then after + 1 else |events|..])
      ensures !Readable(streams, rows, t) ==> r == Err(StreamIntegrity)
      ensures Valid() ==> Readable(streams, rows, t) && LoadStream(streams, rows, t).events == (if t in log then log[t] else [])
    {
      hide Sound, Holds, Intact, FaultAt, LoadStream, LaterThan;
      var loaded := Load(t);
      if Valid() {
        LoadedIsLogged(streams, rows, log, t);
        StreamIsIntact(log, t);
      }
      if loaded.Damaged? {
        return Err(StreamIntegrity);
      }
      var verification := VerifyChain(loaded.events);
      if !verification.Valid() {
        return Err(StreamIntegrity);
      }
      LaterIsSuffix(loaded.events, after);
      return Ok(LaterThan(loaded.events, after));
    }

    /** `verify_stream`: damage to the stored form is reported at its sequence number, with every row from
        there on distrusted; otherwise the chain is verified. */
    method VerifyStream(t: TraceId) returns (r: ChainVerification, damaged: bool)
      ensures damaged <==> LoadStream(streams, rows, t).Damaged?
      ensures damaged ==> var first := LoadStream(streams, rows, t).sequenceNo;
        && r.firstInvalid == Some(first) && r.total == |LoadRows(rows, t)|
        && r.untrusted == From(LoadRows(rows, t), first)
      ensures !damaged ==> (r.Valid() <==> Intact(LoadStream(streams, rows, t).events))
      ensures Valid() ==> !damaged && r.Valid()
    {
      if Valid() {
        LoadedIsLogged(streams, rows, log, t);
        StreamIsIntact(log, t);
      }
      var found := LoadRows(rows, t);
      var loaded := Load(t);
      if loaded.Damaged? {
        return ChainVerification(|found|, Some(loaded.sequenceNo), None, From(found, loaded.sequenceNo)), true;
      }
      r := VerifyChain(loaded.events);
      damaged := false;
    }
  }

  /** The events numbered above `after`. */
  function LaterThan(events: seq<Event>, after: int): seq<Event> {
    if events == [] then []
    else
      var n := |events| - 1;
      LaterThan(events[..n], after) + (if events[n].body.sequenceNo > after then [events[n]] else [])
  }

  lemma {:induction false} LaterIsSuffix(events: seq<Event>, after: int)
    requires Intact(events)
    ensures LaterThan(events, after)
      == events[if after < 0 then 0 else if after < |events| then after + 1 else |events|..]
  {
    if events != [] {
      var n := |events| - 1;
      SequenceIsPosition(events, n);
      IntactPrefix(events, n);
      LaterIsSuffix(events[..n], after);
      var start := if after < 0 then 0 else after + 1;
      if start <= n {
        assert events[..n][start..] + [events[n]] == events[start..];
      }
    }
  }

  /** The sequence numbers of the rows at or after `first`. */
  function From(rows: seq<EventRow>, first: nat): seq<nat> {
    if rows == [] then []
    else
      var rest := From(rows[1..], first);
      if rows[0].sequenceNo >= first then [rows[0].sequenceNo] + rest else rest
  }

  /** Two rows that a uniqueness constraint keeps apart. */
  predicate Clashes(a: EventRow, b: EventRow) {
    a.hash == b.hash || (a.trace == b.trace && a.sequenceNo == b.sequenceNo)
  }

  predicate Collides(rows: Rows, row: EventRow) {
    row.id in rows || exists id :: id in rows && Clashes(rows[id], row)
  }

  lemma {:induction false} DamageStays(rows: seq<EventRow>, i: nat, k: nat)
    requires i <= |rows| && ReadRows(rows[..i]) == Damaged(k)
    ensures ReadRows(rows) == Damaged(k)
    decreases |rows| - i
  {
    if i < |rows| {
      assert rows[..i + 1][..i] == rows[..i];
      DamageStays(rows, i + 1, k);
    } else {
      assert rows[..i] == rows;
    }
  }

  lemma {:induction false} StreamIsIntact(log: Log, t: TraceId)
    requires Sound(log)
    ensures Intact(if t in log then log[t] else [])
  {
    if t in log {
      assert SoundStream(t, log[t]);
    }
  }

  lemma {:induction false} NothingInEmpty(id: EventId)
    ensures !InStream([], id)
  {
  }

  lemma {:induction false} HeadIsIndexed(streams: Streams, rows: Rows, log: Log, t: TraceId)
    requires Holds(streams, rows, log)
    ensures t in streams <==> t in log
    ensures t in streams ==> log[t] != [] && streams[t] == HeadRow(log[t])
    ensures t in streams ==>
      var head := log[t][|log[t]| - 1];
      streams[t] == StreamRow(head.body.revision, head.body.sequenceNo, head.hash)
  {
  }

  /** For an event that continues its stream, the table constraints reject exactly known identifiers. */
  lemma {:induction false} CollisionMeansKnown(streams: Streams, rows: Rows, log: Log, e: Event)
    requires Sound(log) && Holds(streams, rows, log) && Verified(e)
    requires Continues(if e.body.trace in log then log[e.body.trace] else [], e)
    ensures Collides(rows, RowOf(e)) <==> KnownId(log, e.body.eventId)
  {
    var id := e.body.eventId;
    if id in rows {
      assert Logged(log, id, rows[id]);
      assert InStream(log[rows[id].trace], id);
    }
    if KnownId(log, id) {
      var t :| t in log && InStream(log[t], id);
      var i :| 0 <= i < |log[t]| && log[t][i].body.eventId == id;
      assert Stored(rows, log[t][i]);
    }
    forall other | other in rows && Clashes(rows[other], RowOf(e)) ensures KnownId(log, id) {
      ClashMeansSame(streams, rows, log, e, other);
    }
  }

  lemma {:induction false} ClashMeansSame(streams: Streams, rows: Rows, log: Log, e: Event, other: EventId)
    requires Sound(log) && Holds(streams, rows, log) && Verified(e) && other in rows
    requires Continues(if e.body.trace in log then log[e.body.trace] else [], e)
    requires Clashes(rows[other], RowOf(e))
    ensures KnownId(log, e.body.eventId)
  {
    var row := rows[other];
    assert Logged(log, other, row);
    var t, n := row.trace, row.sequenceNo;
    assert SoundStream(t, log[t]);
    SequenceIsPosition(log[t], n);
    SequenceIsPosition(log[t], |log[t]| - 1);
    assert row.hash == e.hash;
    assert log[t][n].body == e.body;
    assert InStream(log[t], e.body.eventId);
  }

  lemma {:induction false} ExtendedIsHeld(streams: Streams, rows: Rows, log: Log, e: Event, nextStreams: Streams,
      nextRows: Rows)
    requires Sound(log) && Holds(streams, rows, log) && Refusal(log, e).None?
    requires nextRows == rows[e.body.eventId := RowOf(e)]
    requires nextStreams == streams[e.body.trace := StreamRow(e.body.revision, e.body.sequenceNo, e.hash)]
    ensures Holds(nextStreams, nextRows, Extended(log, e))
  {
    hide Sound, Stored, Logged, Refusal;
    var next := Extended(log, e);
    NewPosition(log, e);
    forall u, i | u in next && 0 <= i < |next[u]| ensures Stored(nextRows, next[u][i]) {
      StaysStored(streams, rows, log, e, u, i);
    }
    forall id | id in nextRows ensures Logged(next, id, nextRows[id]) {
      StaysLogged(streams, rows, log, e, id);
    }
  }

  lemma {:induction false} StaysStored(streams: Streams, rows: Rows, log: Log, e: Event, u: TraceId, i: nat)
    requires Holds(streams, rows, log) && Refusal(log, e).None?
    requires u in Extended(log, e) && i < |Extended(log, e)[u]|
    ensures Stored(rows[e.body.eventId := RowOf(e)], Extended(log, e)[u][i])
  {
    hide RowOf;
    IsOldOrNew(log, e, u, i);
    if u in log && i < |log[u]| {
      assert Stored(rows, log[u][i]);
    }
  }

  lemma {:induction false} StaysLogged(streams: Streams, rows: Rows, log: Log, e: Event, id: EventId)
    requires Sound(log) && Holds(streams, rows, log) && Refusal(log, e).None?
    requires id in rows || id == e.body.eventId
    ensures Logged(Extended(log, e), id, rows[e.body.eventId := RowOf(e)][id])
  {
    hide Sound;
    NewPosition(log, e);
    if id != e.body.eventId {
      assert Logged(log, id, rows[id]);
    }
  }

  /** The accepted event stands at the position it is numbered with. */
  lemma {:induction false} NewPosition(log: Log, e: Event)
    requires Sound(log) && Refusal(log, e).None?
    ensures var stream := Extended(log, e)[e.body.trace];
      e.body.sequenceNo == |stream| - 1 && stream[e.body.sequenceNo] == e
  {
    var t := e.body.trace;
    if t in log {
      assert SoundStream(t, log[t]);
      SequenceIsPosition(log[t], |log[t]| - 1);
    }
  }

  // ----- runs of appends -----

  /** The log after offering events one after another; refused ones change nothing. */
  function Offered(log: Log, es: seq<Event>): Log {
    if es == [] then log
    else
      var earlier := Offered(log, es[..|es| - 1]);
      var e := es[|es| - 1];
      if Refusal(earlier, e).None? then Extended(earlier, e) else earlier
  }

  /** Streams only ever grow at their end, and stay sound. */
  lemma {:induction false} StreamsOnlyGrow(log: Log, es: seq<Event>)
    requires Sound(log)
    ensures Sound(Offered(log, es))
    ensures forall t :: t in log ==> t in Offered(log, es) && log[t] <= Offered(log, es)[t]
  {
    hide Sound, Refusal;
    if es != [] {
      var earlier := Offered(log, es[..|es| - 1]);
      StreamsOnlyGrow(log, es[..|es| - 1]);
      if Refusal(earlier, es[|es| - 1]).None? {
        AcceptingKeepsSound(earlier, es[|es| - 1]);
      }
    }
  }

  /** Offering an accepted event again is refused: appends are not repeatable. */
  lemma {:induction false} RepeatIsRefused(log: Log, e: Event, es: seq<Event>)
    requires Sound(log) && Refusal(log, e).None?
    ensures Refusal(Offered(Extended(log, e), es), e).Some?
  {
    AcceptingKeepsSound(log, e);
    StreamsOnlyGrow(Extended(log, e), es);
    var next, later, t := Extended(log, e), Offered(Extended(log, e), es), e.body.trace;
    assert next[t][|next[t]| - 1] == e;
    assert later[t][|next[t]| - 1] == e;
    assert InStream(later[t], e.body.eventId);
  }
}
