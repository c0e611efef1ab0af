/** The store object: reads verified by replay, writes inside a transaction. */
module AttemptDatabase {
  import opened Prelude
  import opened LogicGrid
  import opened Play
  import opened Normalization
  import opened AttemptStore
  import opened AttemptTables
  import opened AttemptCalls

  /** The archive after an answer. */
  ghost function Settled(archive: Archive, answer: Result<Archive>): Archive {
    if answer.Ok? then answer.value else archive
  }

  /** What a call does to any tables: it commits its writes, or answers with an error and writes nothing. */
  predicate Commits(r: Result<Persisted>, w: Writes, before: Tables, after: Tables) {
    match w
    case Ok((record, tables)) => r == Ok(record) && after == tables
    case Err(error) => r == Err(error) && after == before
  }

  /** What it does to tables that hold an archive. */
  ghost predicate Answers(r: Result<Persisted>, expected: Result<Archive>, a: AttemptId, before: Archive,
      after: Archive) {
    match expected
    case Ok(archive) => after == archive && a in archive && r == Ok(archive[a].record)
    case Err(error) => r == Err(error) && after == before
  }

  class Database {
    var streams: map<AttemptId, StreamRow>
    var plays: Rows<PlayRow>
    var evaluations: Rows<LinkRow<Submission>>
    var hints: Rows<LinkRow<Request>>
    /** The archive the tables hold. */
    ghost var archive: Archive

    function State(): Tables
      reads this
    {
      Tables(streams, plays, evaluations, hints)
    }

    ghost predicate Valid()
      reads this
    {
      Sound(archive) && Holds(State(), archive)
    }

    constructor ()
      ensures Valid() && archive == map[]
    {
      streams, plays, evaluations, hints, archive := map[], map[], map[], map[], map[];
    }

    method LoadObservations(a: AttemptId) returns (r: Result<seq<Observed<PlayEvent>>>)
      ensures r == LoadPlays(Column(plays, a))
    {
      var rows := Column(plays, a);
      var observations: seq<Observed<PlayEvent>> := [];
      for i := 0 to |rows|
        invariant LoadPlays(rows[..i]) == Ok(observations)
      {
        assert rows[..i + 1][..i] == rows[..i];
        if rows[i] != PlayRowOf(rows[i].observation) {
          PlayDamageStays(rows, i + 1);
          return Err(StreamIntegrity);
        }
        observations := observations + [rows[i].observation];
      }
      assert rows[..|rows|] == rows;
      return Ok(observations);
    }

    method LoadChain<T(==)>(rows: seq<LinkRow<T>>) returns (r: Result<seq<Link<T>>>)
      ensures r == LoadLinks(rows)
    {
      var links: seq<Link<T>> := [];
      for i := 0 to |rows|
        invariant LoadLinks(rows[..i]) == Ok(links)
      {
        assert rows[..i + 1][..i] == rows[..i];
        if rows[i] != LinkRowOf(rows[i].observation) {
          LinkDamageStays(rows, i + 1);
          return Err(StreamIntegrity);
        }
        links := links + [rows[i].observation];
      }
      assert rows[..|rows|] == rows;
      return Ok(links);
    }

    method ReadVerified(spec: GridSpec, a: AttemptId) returns (r: Result<Option<Persisted>>)
      requires Shaped(spec)
      ensures r == Read(State(), spec, a)
      ensures Valid() ==> r == ReadBack(archive, spec, a)
    {
      hide BuildRecord, Replay, Column, LoadPlays, LoadLinks, Sound, Holds, Shaped;
      if Valid() {
        HeldIsRead(State(), archive, spec, a);
      }
      if a !in streams {
        return Ok(None);
      }
      var row := streams[a];
      var observations :- LoadObservations(a);
      var judged :- LoadChain(Column(evaluations, a));
      var advised :- LoadChain(Column(hints, a));
      var replayed := ReplayStream(spec, a, row.mode, Contents(observations));
      if replayed.Err? {
        return Err(StreamIntegrity);
      }
      var built := BuildRecord(row.user, row.started, replayed.value, observations, judged, advised);
      if built.Err? || row != StreamRowOf(replayed.value.view.mode, built.value) {
        return Err(StreamIntegrity);
      }
      return Ok(Some(built.value));
    }

    method InsertPlay(a: AttemptId, row: PlayRow) returns (ok: bool)
      modifies this`plays
      ensures ok <==> !PlayCollides(old(plays), a, row)
      ensures plays == if ok then old(plays)[(a, row.sequenceNo) := row] else old(plays)
    {
      if PlayCollides(plays, a, row) {
        return false;
      }
      plays := plays[(a, row.sequenceNo) := row];
      return true;
    }

    method InsertEvaluation(a: AttemptId, n: nat, row: LinkRow<Submission>) returns (ok: bool)
      modifies this`evaluations
      ensures ok <==> !LinkCollides(old(evaluations), a, n, row)
      ensures evaluations == if ok then old(evaluations)[(a, n) := row] else old(evaluations)
    {
      if LinkCollides(evaluations, a, n, row) {
        return false;
      }
      evaluations := evaluations[(a, n) := row];
      return true;
    }

    method InsertHint(a: AttemptId, n: nat, row: LinkRow<Request>) returns (ok: bool)
      modifies this`hints
      ensures ok <==> !LinkCollides(old(hints), a, n, row)
      ensures hints == if ok then old(hints)[(a, n) := row] else old(hints)
    {
      if LinkCollides(hints, a, n, row) {
        return false;
      }
      hints := hints[(a, n) := row];
      return true;
    }

    /** `_update_stream` */
    method UpdateStream(record: Persisted) returns (r: Result<()>)
      modifies this`streams
      ensures r.Ok? <==> UpdatedStreams(old(streams), record).Ok?
      ensures r.Ok? ==> streams == UpdatedStreams(old(streams), record).value
      ensures r.Err? ==> r.error == UpdatedStreams(old(streams), record).error && streams == old(streams)
    {
      var a := record.session.view.attempt;
      var events := record.session.events;
      if events == [] {
        return Err(NoEvents);
      }
      var event := events[|events| - 1];
      if a !in streams {
        return Err(StreamConflict);
      }
      streams := streams[a := streams[a].(
        status := record.session.view.status, updated := record.updated, latestSequence := event.body.sequenceNo,
        latestHash := event.hash, session := record.session, record := record)];
      return Ok(());
    }

    method Rollback(saved: Tables)
      modifies this`streams, this`plays, this`evaluations, this`hints
      ensures State() == saved
    {
      streams, plays, evaluations, hints := saved.streams, saved.plays, saved.evaluations, saved.hints;
    }

    /** `create` */
    method Create(spec: GridSpec, session: Session, user: UserId, time: int) returns (r: Result<Persisted>)
      requires Shaped(spec)
      modifies this
      ensures Commits(r, CreateWrites(old(State()), spec, session, user, time), old(State()), State())
      ensures old(Valid()) ==> Valid()
      ensures old(Valid()) ==> Answers(r, Created(old(archive), spec, session, user, time), session.view.attempt, old(archive), archive)
    {
      hide BuildRecord, Replay, Sound, Holds, Shaped, StreamRowOf;
      if Valid() {
        CreateRefines(State(), archive, spec, session, user, time);
        archive := Settled(archive, Created(archive, spec, session, user, time));
      }
      var a := session.view.attempt;
      if session.events != [] {
        return Err(StreamConflict);
      }
      var replayed := ReplayStream(spec, a, session.view.mode, []);
      if replayed.Err? {
        return Err(replayed.error);
      }
      if replayed.value != session {
        return Err(StreamIntegrity);
      }
      var record := BuildRecord(user, time, session, [], [], []);
      if record.Err? {
        return Err(record.error);
      }
      if a in streams {
        return Err(AttemptExists);
      }
      streams := streams[a := StreamRowOf(session.view.mode, record.value)];
      return record;
    }

    /** `append` */
    method Append(spec: GridSpec, session: Session, time: int) returns (r: Result<Persisted>)
      requires Shaped(spec)
      modifies this
      ensures Commits(r, AppendWrites(old(State()), spec, session, time), old(State()), State())
      ensures old(Valid()) ==> Valid()
      ensures old(Valid()) ==> Answers(r, Appended(old(archive), spec, session, time), session.view.attempt, old(archive), archive)
    {
      hide BuildRecord, Replay, Sound, Holds, Shaped, PlayCollides, KnownEvent, PlayRowOf, Read, UpdatedStreams;
      if Valid() {
        AppendRefines(State(), archive, spec, session, time);
        archive := Settled(archive, Appended(archive, spec, session, time));
      }
      var a := session.view.attempt;
      var replayed := ReplayStream(spec, a, session.view.mode, session.events);
      if replayed.Err? {
        return Err(replayed.error);
      }
      if replayed.value != session {
        return Err(StreamIntegrity);
      }
      var saved := State();
      var found :- ReadVerified(spec, a);
      if found.None? {
        return Err(StreamConflict);
      }
      var current := found.value;
      var record :- Continued(current, session, time);
      var observation := Observed(session.events[|current.session.events|], time);
      var inserted := InsertPlay(a, PlayRowOf(observation));
      if !inserted {
        Rollback(saved);
        return Err(StreamConflict);
      }
      var updated := UpdateStream(record);
      if updated.Err? {
        Rollback(saved);
        return Err(updated.error);
      }
      return Ok(record);
    }

    /** `record_move_evaluation` */
    method RecordEvaluation(spec: GridSpec, s: Submission, time: int) returns (r: Result<Persisted>)
      requires Shaped(spec)
      modifies this
      ensures Commits(r, EvaluationWrites(old(State()), spec, s, time), old(State()), State())
      ensures old(Valid()) ==> Valid()
      ensures old(Valid()) ==> Answers(r, Evaluated(old(archive), spec, s, time), s.attempt, old(archive), archive)
    {
      hide BuildRecord, Replay, Sound, Holds, Shaped, LinkCollides, Read, UpdatedStreams, LinkRowOf, Judged;
      if Valid() {
        EvaluationRefines(State(), archive, spec, s, time);
        archive := Settled(archive, Evaluated(archive, spec, s, time));
      }
      var saved := State();
      var found :- ReadVerified(spec, s.attempt);
      if found.None? {
        return Err(StreamConflict);
      }
      var current := found.value;
      var record :- Judged(current, s, time);
      var link := Link(s, time, LastLink(current.evaluations));
      var inserted := InsertEvaluation(s.attempt, |current.evaluations|, LinkRowOf(link));
      if !inserted {
        Rollback(saved);
        return Err(StreamConflict);
      }
      var updated := UpdateStream(record);
      if updated.Err? {
        Rollback(saved);
        return Err(updated.error);
      }
      return Ok(record);
    }

    /** `record_hint_result` */
    method RecordHint(spec: GridSpec, q: Request, time: int) returns (r: Result<Persisted>)
      requires Shaped(spec)
      modifies this
      ensures Commits(r, HintWrites(old(State()), spec, q, time), old(State()), State())
      ensures old(Valid()) ==> Valid()
      ensures old(Valid()) ==> Answers(r, Hinted(old(archive), spec, q, time), q.attempt, old(archive), archive)
    {
      hide BuildRecord, Replay, Sound, Holds, Shaped, LinkCollides, Read, UpdatedStreams, LinkRowOf, Advised;
      if Valid() {
        HintRefines(State(), archive, spec, q, time);
        archive := Settled(archive, Hinted(archive, spec, q, time));
      }
      var saved := State();
      var found :- ReadVerified(spec, q.attempt);
      if found.None? {
        return Err(StreamConflict);
      }
      var current := found.value;
      var record :- Advised(current, q, time);
      var link := Link(q, time, LastLink(current.hints));
      var inserted := InsertHint(q.attempt, |current.hints|, LinkRowOf(link));
      if !inserted {
        Rollback(saved);
        return Err(StreamConflict);
      }
      var updated := UpdateStream(record);
      if updated.Err? {
        Rollback(saved);
        return Err(updated.error);
      }
      return Ok(record);
    }
  }

  lemma {:induction false} PlayDamageStays(rows: seq<PlayRow>, i: nat)
    requires i <= |rows| && LoadPlays(rows[..i]) == Err(StreamIntegrity)
    ensures LoadPlays(rows) == Err(StreamIntegrity)
    decreases |rows| - i
  {
    if i < |rows| {
      assert rows[..i + 1][..i] == rows[..i];
      PlayDamageStays(rows, i + 1);
    } else {
      assert rows[..i] == rows;
    }
  }

  lemma {:induction false} LinkDamageStays<T>(rows: seq<LinkRow<T>>, i: nat)
    requires i <= |rows| && LoadLinks(rows[..i]) == Err(StreamIntegrity)
    ensures LoadLinks(rows) == Err(StreamIntegrity)
    decreases |rows| - i
  {
    if i < |rows| {
      assert rows[..i + 1][..i] == rows[..i];
      LinkDamageStays(rows, i + 1);
    } else {
      assert rows[..i] == rows;
    }
  }
}
