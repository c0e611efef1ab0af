/** The SQLite attempt store: four tables of observed attempts, changed by transactions and read back by replay. */
module AttemptStore {
  import opened Prelude
  import opened LogicGrid
  import opened Play
  import opened Normalization
  import opened AttemptEvidence
  import Projections
  import EventStore
  import PlayRuns

  type AttemptId = Projections.AttemptId
  type UserId = Projections.UserId

  // ----- records -----

  /** A session digest stands as the session it is computed from. */
  datatype Submission = Submission(attempt: AttemptId, revision: Identifier, session: Session, event: EventId, evaluation: Evaluation)
  datatype Request = Request(attempt: AttemptId, revision: Identifier, session: Session, outcome: HintOutcome)

  datatype LinkDigest<T> = LinkGenesis | OfLink(link: Link<T>)

  /** An observation chained to the one before it. */
  datatype Link<T> = Link(content: T, time: int, previous: LinkDigest<T>)

  function LastLink<T>(links: seq<Link<T>>): LinkDigest<T> {
    if links == [] then LinkGenesis else OfLink(links[|links| - 1])
  }

  datatype Persisted = Persisted(
    user: UserId, started: int, updated: int, session: Session, evidence: ActionEvidence,
    observations: seq<Observed<PlayEvent>>, evaluations: seq<Link<Submission>>, hints: seq<Link<Request>>,
    projection: seq<Projections.Event>, attempt: Projections.Attempt)

  function Times<T>(items: seq<Observed<T>>): seq<int> {
    seq(|items|, i requires 0 <= i < |items| => items[i].time)
  }

  function LinkTimes<T>(links: seq<Link<T>>): seq<int> {
    seq(|links|, i requires 0 <= i < |links| => links[i].time)
  }

  function Latest(times: seq<int>, floor: int): (m: int)
    ensures m >= floor && forall i :: 0 <= i < |times| ==> times[i] <= m
  {
    if times == [] then floor
    else
      var earlier := Latest(times[..|times| - 1], floor);
      if times[|times| - 1] > earlier then times[|times| - 1] else earlier
  }

  predicate Chronological(times: seq<int>) {
    forall i, j :: 0 <= i < j < |times| ==> times[i] <= times[j]
  }

  predicate Linked<T(==)>(links: seq<Link<T>>) {
    forall i :: 0 <= i < |links| ==> links[i].previous == LastLink(links[..i])
  }

  predicate Belongs(attempt: AttemptId, revision: Identifier, session: Session) {
    attempt == session.view.attempt && revision == session.view.revision
  }

  predicate Mentions(events: seq<PlayEvent>, id: EventId) {
    exists e :: e in events && e.body.id == id
  }

  /** The checks of the record validator that do not restate a derived field. */
  predicate Admissible(session: Session, observations: seq<Observed<PlayEvent>>, evaluations: seq<Link<Submission>>,
      hints: seq<Link<Request>>) {
    && Observes(observations, session.events)
    && Chronological(Times(observations)) && Chronological(LinkTimes(evaluations)) && Chronological(LinkTimes(hints))
    && Linked(evaluations) && Linked(hints)
    && (forall o :: o in evaluations ==> Belongs(o.content.attempt, o.content.revision, session) && Mentions(session.events, o.content.event))
    && (forall o :: o in hints ==> Belongs(o.content.attempt, o.content.revision, session))
  }

  predicate Observes(observations: seq<Observed<PlayEvent>>, events: seq<PlayEvent>) {
    |observations| == |events| && forall i :: 0 <= i < |events| ==> observations[i].content == events[i]
  }

  function Source(user: UserId, started: int, session: Session, observations: seq<Observed<PlayEvent>>,
      evaluations: seq<Link<Submission>>, hints: seq<Link<Request>>): Record {
    Record(session.view.attempt, user, session.view.revision, started, observations,
           seq(|evaluations|, i requires 0 <= i < |evaluations| => Observed(evaluations[i].content.evaluation, evaluations[i].time)),
           seq(|hints|, i requires 0 <= i < |hints| => Observed(hints[i].content.outcome, hints[i].time)))
  }

  /** `build_persisted_logic_grid_attempt` */
  function BuildRecord(user: UserId, started: int, session: Session, observations: seq<Observed<PlayEvent>>,
      evaluations: seq<Link<Submission>>, hints: seq<Link<Request>>): Result<Persisted> {
    var updated := Latest(LinkTimes(hints), Latest(LinkTimes(evaluations), Latest(Times(observations), started)));
    var evidence :- BuildEvidence(session.events);
    var projection := Normalized(Source(user, started, session, observations, evaluations, hints));
    var attempt :- Projections.AttemptOf(projection);
    if Admissible(session, observations, evaluations, hints)
    then Ok(Persisted(user, started, updated, session, evidence, observations, evaluations, hints, projection, attempt))
    else Err(InvalidValue)
  }

  function Rebuilt(record: Persisted, session: Session): Result<Persisted> {
    BuildRecord(record.user, record.started, session, record.observations, record.evaluations, record.hints)
  }

  // ----- what the store refines: an archive of records -----

  /** The mode is the one the attempt was created in. */
  datatype Entry = Entry(mode: Mode, record: Persisted)

  type Archive = map<AttemptId, Entry>

  predicate Holding(archive: Archive, a: AttemptId, i: nat, id: EventId) {
    a in archive && i < |archive[a].record.observations| && archive[a].record.observations[i].content.body.id == id
  }

  ghost predicate KnownEvent(archive: Archive, id: EventId) {
    exists a, i: nat :: Holding(archive, a, i, id)
  }

  /** Reading replays the stored events in the stored mode, and must find the stored session again. */
  function ReadBack(archive: Archive, spec: GridSpec, a: AttemptId): Result<Option<Persisted>>
    requires Shaped(spec)
  {
    if a !in archive then Ok(None)
    else
      var record := archive[a].record;
      if Replay(spec, a, archive[a].mode, record.session.events) == Ok(record.session) then Ok(Some(record)) else Err(StreamIntegrity)
  }

  function Created(archive: Archive, spec: GridSpec, session: Session, user: UserId, time: int): Result<Archive>
    requires Shaped(spec)
  {
    var a := session.view.attempt;
    if session.events != [] then Err(StreamConflict)
    else
      var replayed :- Replay(spec, a, session.view.mode, []);
      if replayed != session then Err(StreamIntegrity)
      else
        var record :- BuildRecord(user, time, session, [], [], []);
        if a in archive then Err(AttemptExists) else Ok(archive[a := Entry(session.view.mode, record)])
  }

  /** What an append persists, once the current record is read. */
  function Continued(current: Persisted, session: Session, time: int): Result<Persisted> {
    var n := |current.session.events|;
    if |session.events| != n + 1 then Err(StreamConflict)
    else if session.events[..n] != current.session.events then Err(StreamConflict)
    else if time < current.updated then Err(StreamConflict)
    else
      BuildRecord(current.user, current.started, session, current.observations + [Observed(session.events[n], time)],
            current.evaluations, current.hints)
  }

  ghost function Appended(archive: Archive, spec: GridSpec, session: Session, time: int): Result<Archive>
    requires Shaped(spec)
  {
    var a := session.view.attempt;
    var replayed :- Replay(spec, a, session.view.mode, session.events);
    if replayed != session then Err(StreamIntegrity)
    else
      var found :- ReadBack(archive, spec, a);
      if found.None? then Err(StreamConflict)
      else
        var record :- Continued(found.value, session, time);
        if session.events != [] && KnownEvent(archive, session.events[|session.events| - 1].body.id) then Err(StreamConflict)
        else Ok(archive[a := archive[a].(record := record)])
  }

  function Judged(current: Persisted, s: Submission, time: int): Result<Persisted> {
    if s.revision != current.session.view.revision then Err(StreamIntegrity)
    else if s.session != current.session then Err(StreamConflict)
    else if !Mentions(current.session.events, s.event) then Err(StreamIntegrity)
    else if time < current.updated then Err(StreamConflict)
    else
      BuildRecord(current.user, current.started, current.session, current.observations,
            current.evaluations + [Link(s, time, LastLink(current.evaluations))], current.hints)
  }

  function Evaluated(archive: Archive, spec: GridSpec, s: Submission, time: int): Result<Archive>
    requires Shaped(spec)
  {
    var found :- ReadBack(archive, spec, s.attempt);
    if found.None? then Err(StreamConflict)
    else
      var record :- Judged(found.value, s, time);
      Ok(archive[s.attempt := archive[s.attempt].(record := record)])
  }

  function Advised(current: Persisted, q: Request, time: int): Result<Persisted> {
    if q.revision != current.session.view.revision then Err(StreamIntegrity)
    else if q.session != current.session then Err(StreamConflict)
    else if time < current.updated then Err(StreamConflict)
    else
      BuildRecord(current.user, current.started, current.session, current.observations, current.evaluations,
            current.hints + [Link(q, time, LastLink(current.hints))])
  }

  /** A hint for an attempt without events is refused late: the stream index has no last event to name. */
  function Hinted(archive: Archive, spec: GridSpec, q: Request, time: int): Result<Archive>
    requires Shaped(spec)
  {
    var found :- ReadBack(archive, spec, q.attempt);
    if found.None? then Err(StreamConflict)
    else
      var record :- Advised(found.value, q, time);
      if record.session.events == [] then Err(NoEvents)
      else Ok(archive[q.attempt := archive[q.attempt].(record := record)])
  }

  // ----- the tables -----

  datatype StreamRow = StreamRow(
    user: UserId, revision: Identifier, mode: Mode, status: Status, started: int, updated: int,
    latestSequence: int, latestHash: PlayDigest, session: Session, record: Persisted)

  datatype PlayRow = PlayRow(
    id: EventId, sequenceNo: nat, time: int, previous: PlayDigest, hash: PlayDigest, observation: Observed<PlayEvent>)

  datatype LinkRow<T> = LinkRow(previous: LinkDigest<T>, hash: LinkDigest<T>, observation: Link<T>)

  /** A table with one row for each attempt and sequence number. */
  type Rows<R> = map<(AttemptId, nat), R>

  datatype Tables = Tables(
    streams: map<AttemptId, StreamRow>, plays: Rows<PlayRow>, evaluations: Rows<LinkRow<Submission>>, hints: Rows<LinkRow<Request>>)

  function StreamRowOf(mode: Mode, record: Persisted): StreamRow {
    var events := record.session.events;
    StreamRow(record.user, record.session.view.revision, mode, record.session.view.status, record.started, record.updated,
              if events == [] then -1 else events[|events| - 1].body.sequenceNo, LastHash(events), record.session, record)
  }

  function PlayRowOf(o: Observed<PlayEvent>): PlayRow {
    PlayRow(o.content.body.id, o.content.body.sequenceNo, o.time, o.content.body.previous, o.content.hash, o)
  }

  function LinkRowOf<T>(link: Link<T>): LinkRow<T> {
    LinkRow(link.previous, OfLink(link), link)
  }

  function Numbers<R>(table: Rows<R>, a: AttemptId): set<int> {
    set k | k in table && k.0 == a :: k.1
  }

  function Picked<R>(table: Rows<R>, a: AttemptId, ns: seq<int>): seq<R>
    requires forall n :: n in ns ==> n >= 0 && (a, n) in table
  {
    if ns == [] then []
    else
      var n := ns[0];
      assert n in ns && forall m :: m in ns[1..] ==> m in ns;
      [table[(a, n)]] + Picked(table, a, ns[1..])
  }

  /** `WHERE attempt_id = ? ORDER BY sequence_no` */
  function Column<R>(table: Rows<R>, a: AttemptId): seq<R> {
    var ns := Ascending(Numbers(table, a));
    assert forall n :: n in ns ==> n in Numbers(table, a);
    Picked(table, a, ns)
  }

  function LoadPlays(rows: seq<PlayRow>): Result<seq<Observed<PlayEvent>>> {
    if rows == [] then Ok([])
    else
      var n := |rows| - 1;
      var earlier :- LoadPlays(rows[..n]);
      if rows[n] == PlayRowOf(rows[n].observation) then Ok(earlier + [rows[n].observation]) else Err(StreamIntegrity)
  }

  function LoadLinks<T(==)>(rows: seq<LinkRow<T>>): Result<seq<Link<T>>> {
    if rows == [] then Ok([])
    else
      var n := |rows| - 1;
      var earlier :- LoadLinks(rows[..n]);
      if rows[n] == LinkRowOf(rows[n].observation) then Ok(earlier + [rows[n].observation]) else Err(StreamIntegrity)
  }

  function Contents(observations: seq<Observed<PlayEvent>>): seq<PlayEvent> {
    seq(|observations|, i requires 0 <= i < |observations| => observations[i].content)
  }

  /** `_read_verified` */
  function Read(t: Tables, spec: GridSpec, a: AttemptId): Result<Option<Persisted>>
    requires Shaped(spec)
  {
    if a !in t.streams then Ok(None)
    else
      var row := t.streams[a];
      var observations :- LoadPlays(Column(t.plays, a));
      var evaluations :- LoadLinks(Column(t.evaluations, a));
      var hints :- LoadLinks(Column(t.hints, a));
      var replayed := Replay(spec, a, row.mode, Contents(observations));
      if replayed.Err? then Err(StreamIntegrity)
      else
        var built := BuildRecord(row.user, row.started, replayed.value, observations, evaluations, hints);
        if built.Err? then Err(StreamIntegrity)
        else if row != StreamRowOf(replayed.value.view.mode, built.value) then Err(StreamIntegrity)
        else Ok(Some(built.value))
  }

  // ----- the tables hold the archive -----

  function PlayRows(e: Entry): seq<PlayRow> {
    seq(|e.record.observations|, i requires 0 <= i < |e.record.observations| => PlayRowOf(e.record.observations[i]))
  }

  function LinkRows<T>(links: seq<Link<T>>): (r: seq<LinkRow<T>>)
    ensures |r| == |links|
  {
    seq(|links|, i requires 0 <= i < |links| => LinkRowOf(links[i]))
  }

  ghost predicate Tabulates<R>(table: Rows<R>, archive: Archive, rows: Entry -> seq<R>) {
    && (forall a, n: nat :: (a, n) in table <==> a in archive && n < |rows(archive[a])|)
    && (forall a, n: nat :: (a, n) in table ==> table[(a, n)] == rows(archive[a])[n])
  }

  ghost predicate Holds(t: Tables, archive: Archive) {
    && t.streams.Keys == archive.Keys
    && (forall a :: a in archive ==> t.streams[a] == StreamRowOf(archive[a].mode, archive[a].record))
    && Tabulates(t.plays, archive, PlayRows)
    && Tabulates(t.evaluations, archive, (e: Entry) => LinkRows(e.record.evaluations))
    && Tabulates(t.hints, archive, (e: Entry) => LinkRows(e.record.hints))
  }

  predicate NumberedAndSealed(events: seq<PlayEvent>) {
    forall i :: 0 <= i < |events| ==> events[i].body.sequenceNo == i && events[i].hash == OfPlayEvent(events[i].body)
  }

  ghost predicate SoundEntry(a: AttemptId, record: Persisted) {
    && record.session.view.attempt == a
    && Rebuilt(record, record.session) == Ok(record)
    && NumberedAndSealed(record.session.events)
  }

  /** Every record is what its observations are built into, and no event belongs to two places. */
  ghost predicate Sound(archive: Archive) {
    && (forall a :: a in archive ==> SoundEntry(a, archive[a].record))
    && (forall a, i: nat, b, j: nat, id :: Holding(archive, a, i, id) && Holding(archive, b, j, id) ==> a == b && i == j)
  }

  // ----- reading what is held -----

  lemma {:induction false} PickedRange<R>(table: Rows<R>, a: AttemptId, ns: seq<int>, rows: seq<R>, start: nat)
    requires start <= |rows| && |ns| == |rows| - start && forall i :: 0 <= i < |ns| ==> ns[i] == start + i
    requires forall n: nat :: n < |rows| ==> (a, n) in table && table[(a, n)] == rows[n]
    requires forall n :: n in ns ==> n >= 0 && (a, n) in table
    ensures Picked(table, a, ns) == rows[start..]
    decreases |ns|
  {
    if ns != [] {
      PickedRange(table, a, ns[1..], rows, start + 1);
      assert rows[start..] == [rows[start]] + rows[start + 1..];
    }
  }

  lemma {:induction false} ColumnIsRows<R>(table: Rows<R>, a: AttemptId, rows: seq<R>)
    requires forall n: nat :: (a, n) in table <==> n < |rows|
    requires forall n: nat :: n < |rows| ==> table[(a, n)] == rows[n]
    ensures Column(table, a) == rows
  {
    hide Picked;
    var ns := Ascending(Numbers(table, a));
    forall n ensures n in ns <==> 0 <= n < |rows| {
      assert n in ns <==> n in Numbers(table, a);
      if 0 <= n < |rows| {
        assert (a, n) in table;
      }
    }
    EventStore.AscendingRange(ns, 0, |rows|);
    PickedRange(table, a, ns, rows, 0);
    assert rows[0..] == rows;
  }

  lemma {:induction false} PlaysLoad(observations: seq<Observed<PlayEvent>>, rows: seq<PlayRow>)
    requires |rows| == |observations| && forall i :: 0 <= i < |rows| ==> rows[i] == PlayRowOf(observations[i])
    ensures LoadPlays(rows) == Ok(observations)
  {
    if rows != [] {
      var n := |rows| - 1;
      PlaysLoad(observations[..n], rows[..n]);
      assert observations == observations[..n] + [observations[n]];
    }
  }

  lemma {:induction false} LinksLoad<T>(links: seq<Link<T>>, rows: seq<LinkRow<T>>)
    requires |rows| == |links| && forall i :: 0 <= i < |rows| ==> rows[i] == LinkRowOf(links[i])
    ensures LoadLinks(rows) == Ok(links)
  {
    if rows != [] {
      var n := |rows| - 1;
      LinksLoad(links[..n], rows[..n]);
      assert links == links[..n] + [links[n]];
    }
  }

  lemma {:induction false} BuiltFrom(user: UserId, started: int, session: Session,
      observations: seq<Observed<PlayEvent>>, evaluations: seq<Link<Submission>>, hints: seq<Link<Request>>)
    requires BuildRecord(user, started, session, observations, evaluations, hints).Ok?
    ensures var r := BuildRecord(user, started, session, observations, evaluations, hints).value;
      && r.user == user && r.started == started && r.session == session && r.observations == observations
      && r.evaluations == evaluations && r.hints == hints
      && Admissible(session, observations, evaluations, hints) && Contents(observations) == session.events
  {
    hide Chronological, Linked, Latest, Normalized, Projections.AttemptOf, Mentions;
  }

  /** The rows of one attempt hold its record, whatever the other rows hold. */
  ghost predicate HoldsAttempt(t: Tables, archive: Archive, a: AttemptId) {
    && (a in t.streams <==> a in archive)
    && (a in archive ==>
          var entry := archive[a];
          && t.streams[a] == StreamRowOf(entry.mode, entry.record)
          && HoldsRows(t.plays, a, PlayRows(entry))
          && HoldsRows(t.evaluations, a, LinkRows(entry.record.evaluations))
          && HoldsRows(t.hints, a, LinkRows(entry.record.hints)))
  }

  ghost predicate HoldsRows<R>(table: Rows<R>, a: AttemptId, rows: seq<R>) {
    && (forall n: nat :: (a, n) in table <==> n < |rows|)
    && (forall n: nat :: n < |rows| ==> table[(a, n)] == rows[n])
  }

  lemma {:induction false} HoldsEachAttempt(t: Tables, archive: Archive, a: AttemptId)
    requires Holds(t, archive)
    ensures HoldsAttempt(t, archive, a)
  {
    hide PlayRows, LinkRows, StreamRowOf;
    assert a in t.streams.Keys <==> a in archive.Keys;
  }

  /** Reading an attempt whose rows hold a sound record gives what the archive says, whatever damage there is
      to other attempts. */
  lemma {:induction false} ReadIsReadBack(t: Tables, archive: Archive, spec: GridSpec, a: AttemptId)
    requires Shaped(spec) && HoldsAttempt(t, archive, a) && (a in archive ==> SoundEntry(a, archive[a].record))
    ensures Read(t, spec, a) == ReadBack(archive, spec, a)
  {
    hide Replay, BuildRecord, LoadPlays, LoadLinks, Column, Shaped;
    if a in archive {
      var entry := archive[a];
      var record := entry.record;
      ColumnIsRows(t.plays, a, PlayRows(entry));
      ColumnIsRows(t.evaluations, a, LinkRows(record.evaluations));
      ColumnIsRows(t.hints, a, LinkRows(record.hints));
      PlaysLoad(record.observations, PlayRows(entry));
      LinksLoad(record.evaluations, LinkRows(record.evaluations));
      LinksLoad(record.hints, LinkRows(record.hints));
      BuiltFrom(record.user, record.started, record.session, record.observations, record.evaluations, record.hints);
      var replayed := Replay(spec, a, entry.mode, record.session.events);
      if replayed.Ok? {
        PlayRuns.ReplayedIsRun(spec, a, entry.mode, record.session.events, replayed.value);
        var built := Rebuilt(record, replayed.value);
        if built.Ok? {
          BuiltFrom(record.user, record.started, replayed.value, record.observations, record.evaluations, record.hints);
        }
      }
    }
  }
}
