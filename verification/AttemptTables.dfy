/** What the writes of the attempt store do to its tables. */
module AttemptTables {
  import opened Prelude
  import opened LogicGrid
  import opened Play
  import opened Normalization
  import opened AttemptStore
  import AttemptEvidence
  import PlayRuns

  // ----- constraints -----

  /** The uniqueness constraints of the event table. */
  predicate PlayCollides(plays: Rows<PlayRow>, a: AttemptId, row: PlayRow) {
    (a, row.sequenceNo) in plays || exists k :: k in plays && (plays[k].id == row.id || plays[k].hash == row.hash)
  }

  predicate LinkCollides<T(==)>(table: Rows<LinkRow<T>>, a: AttemptId, n: nat, row: LinkRow<T>) {
    (a, n) in table || exists k :: k in table && table[k].hash == row.hash
  }

  /** For a sealed event at the next position, the constraints reject exactly known events. */
  lemma {:induction false} PlayCollisionMeansKnown(t: Tables, archive: Archive, a: AttemptId, o: Observed<PlayEvent>)
    requires Sound(archive) && Holds(t, archive) && a in archive
    requires
      && o.content.body.sequenceNo == |archive[a].record.observations|
      && o.content.hash == OfPlayEvent(o.content.body)
    ensures PlayCollides(t.plays, a, PlayRowOf(o)) <==> KnownEvent(archive, o.content.body.id)
  {
    hide BuildRecord, StreamRowOf;
    var row := PlayRowOf(o);
    var id := o.content.body.id;
    if KnownEvent(archive, id) {
      var b, i: nat :| Holding(archive, b, i, id);
      assert (b, i) in t.plays && t.plays[(b, i)] == PlayRows(archive[b])[i];
    }
    forall k | k in t.plays && (t.plays[k].id == row.id || t.plays[k].hash == row.hash) ensures KnownEvent(archive, id) {
      var b, i := k.0, k.1;
      assert (b, i) in t.plays;
      assert t.plays[(b, i)] == PlayRows(archive[b])[i];
      assert SoundEntry(b, archive[b].record);
      var record := archive[b].record;
      BuiltFrom(record.user, record.started, record.session, record.observations, record.evaluations, record.hints);
      assert record.observations[i].content == record.session.events[i];
      assert Holding(archive, b, i, id);
    }
  }

  lemma {:induction false} LinkDigestsDiffer<T>(links: seq<Link<T>>, i: nat, j: nat)
    requires Linked(links) && i < |links| && j < |links| && links[i] == links[j]
    ensures i == j
  {
    assert links[i].previous == LastLink(links[..i]) && links[j].previous == LastLink(links[..j]);
    if i > 0 && j > 0 {
      LinkDigestsDiffer(links, i - 1, j - 1);
    }
  }

  lemma {:induction false} NextLinkIsNew<T>(links: seq<Link<T>>, link: Link<T>)
    requires Linked(links) && link.previous == LastLink(links)
    ensures link !in links && Linked(links + [link])
  {
    var more := links + [link];
    forall i | 0 <= i < |more| ensures more[i].previous == LastLink(more[..i]) {
      if i < |links| {
        assert more[..i] == links[..i];
      } else {
        assert more[..i] == links;
      }
    }
    if link in links {
      var i :| 0 <= i < |links| && links[i] == link;
      LinkDigestsDiffer(more, i, |links|);
    }
  }

  /** A chained observation of its own attempt never violates the constraints. */
  lemma {:induction false} EvaluationIsNew(t: Tables, archive: Archive, link: Link<Submission>)
    requires Sound(archive) && Holds(t, archive) && link.content.attempt in archive
    requires link.previous == LastLink(archive[link.content.attempt].record.evaluations)
    ensures !LinkCollides(t.evaluations, link.content.attempt, |archive[link.content.attempt].record.evaluations|, LinkRowOf(link))
  {
    hide BuildRecord, StreamRowOf, Linked;
    var a := link.content.attempt;
    forall k | k in t.evaluations ensures t.evaluations[k].hash != OfLink(link) {
      var b, i := k.0, k.1;
      assert (b, i) in t.evaluations;
      var record := archive[b].record;
      assert t.evaluations[(b, i)] == LinkRows(record.evaluations)[i];
      assert SoundEntry(b, record);
      BuiltFrom(record.user, record.started, record.session, record.observations, record.evaluations, record.hints);
      var other := record.evaluations[i];
      assert other in record.evaluations && other.content.attempt == b;
      if b == a {
        NextLinkIsNew(record.evaluations, link);
      }
    }
  }

  lemma {:induction false} HintIsNew(t: Tables, archive: Archive, link: Link<Request>)
    requires Sound(archive) && Holds(t, archive) && link.content.attempt in archive
    requires link.previous == LastLink(archive[link.content.attempt].record.hints)
    ensures !LinkCollides(t.hints, link.content.attempt, |archive[link.content.attempt].record.hints|, LinkRowOf(link))
  {
    hide BuildRecord, StreamRowOf, Linked;
    var a := link.content.attempt;
    forall k | k in t.hints ensures t.hints[k].hash != OfLink(link) {
      var b, i := k.0, k.1;
      assert (b, i) in t.hints;
      var record := archive[b].record;
      assert t.hints[(b, i)] == LinkRows(record.hints)[i];
      assert SoundEntry(b, record);
      BuiltFrom(record.user, record.started, record.session, record.observations, record.evaluations, record.hints);
      var other := record.hints[i];
      assert other in record.hints && other.content.attempt == b;
      if b == a {
        NextLinkIsNew(record.hints, link);
      }
    }
  }

  // ----- effects -----

  lemma {:induction false} TabulatesMore<R>(table: Rows<R>, archive: Archive, rows: Entry -> seq<R>, a: AttemptId,
      entry: Entry, row: R)
    requires Tabulates(table, archive, rows) && a in archive && rows(entry) == rows(archive[a]) + [row]
    ensures Tabulates(table[(a, |rows(archive[a])|) := row], archive[a := entry], rows)
  {
  }

  lemma {:induction false} TabulatesSame<R>(table: Rows<R>, archive: Archive, rows: Entry -> seq<R>, a: AttemptId,
      entry: Entry)
    requires Tabulates(table, archive, rows) && rows(entry) == (if a in archive then rows(archive[a]) else [])
    ensures Tabulates(table, archive[a := entry], rows)
  {
  }

  /** Replacing one sound record by a sound continuation keeps the archive sound. */
  lemma {:induction false} ReplacedIsSound(archive: Archive, a: AttemptId, entry: Entry)
    requires Sound(archive) && SoundEntry(a, entry.record)
    requires a in archive && entry.record.observations == archive[a].record.observations
    ensures Sound(archive[a := entry])
  {
    hide SoundEntry;
    var next := archive[a := entry];
    forall b, i: nat, c, j: nat, id | Holding(next, b, i, id) && Holding(next, c, j, id) ensures b == c && i == j {
      assert Holding(archive, b, i, id) && Holding(archive, c, j, id);
    }
  }

  lemma {:induction false} ExtendedIsSound(archive: Archive, a: AttemptId, entry: Entry, o: Observed<PlayEvent>)
    requires Sound(archive) && SoundEntry(a, entry.record) && !KnownEvent(archive, o.content.body.id)
    requires a in archive && entry.record.observations == archive[a].record.observations + [o]
    ensures Sound(archive[a := entry])
  {
    hide SoundEntry;
    var next := archive[a := entry];
    var n := |archive[a].record.observations|;
    forall b, i: nat, c, j: nat, id | Holding(next, b, i, id) && Holding(next, c, j, id) ensures b == c && i == j {
      assert (b == a && i == n) || Holding(archive, b, i, id);
      assert (c == a && j == n) || Holding(archive, c, j, id);
    }
  }

  lemma {:induction false} AddedIsSound(archive: Archive, a: AttemptId, entry: Entry)
    requires Sound(archive) && SoundEntry(a, entry.record) && a !in archive && entry.record.observations == []
    ensures Sound(archive[a := entry])
  {
    hide SoundEntry;
    var next := archive[a := entry];
    forall b, i: nat, c, j: nat, id | Holding(next, b, i, id) && Holding(next, c, j, id) ensures b == c && i == j {
      assert Holding(archive, b, i, id) && Holding(archive, c, j, id);
    }
  }

  // ----- replayed sessions -----

  lemma {:induction false} ReplayedIsSealed(spec: GridSpec, a: AttemptId, mode: Mode, events: seq<PlayEvent>)
    requires Shaped(spec) && Replay(spec, a, mode, events).Ok?
    ensures NumberedAndSealed(events) && AttemptEvidence.IdsDiffer(events)
    ensures Replay(spec, a, mode, events).value.view.revision == spec.puzzle.revision
  {
    hide Step;
    PlayRuns.ReplayedIsRun(spec, a, mode, events, Replay(spec, a, mode, events).value);
    if events != [] {
      var n := |events| - 1;
      var earlier := Replay(spec, a, mode, events[..n]).value;
      PlayRuns.ReplayedIsRun(spec, a, mode, events[..n], earlier);
      ReplayedIsSealed(spec, a, mode, events[..n]);
      var e := events[n];
      PlayRuns.StepRecords(earlier, spec, e.body.id, e.body.action);
      StepKeepsRevision(earlier, spec, e.body.id, e.body.action);
      StepIsFresh(earlier, spec, e.body.id, e.body.action);
      forall i, j | 0 <= i < j < |events| ensures events[i].body.id != events[j].body.id {
        var x := events[i];
        assert x in earlier.events && events[..n][i] == x;
        if j < n {
          assert events[..n][j] == events[j];
        }
      }
      forall i | 0 <= i < |events| ensures events[i].body.sequenceNo == i && events[i].hash == OfPlayEvent(events[i].body) {
        if i < n {
          assert events[..n][i] == events[i];
        }
      }
    }
  }

  lemma {:induction false} StepIsFresh(s: Session, spec: GridSpec, id: EventId, action: Action)
    requires Shaped(spec) && Step(s, spec, id, action).Ok?
    ensures forall e :: e in s.events ==> e.body.id != id
  {
    hide Decide;
  }

  lemma {:induction false} StepKeepsRevision(s: Session, spec: GridSpec, id: EventId, action: Action)
    requires Shaped(spec) && Step(s, spec, id, action).Ok?
    ensures Step(s, spec, id, action).value.view.revision == s.view.revision
  {
    hide Project, Conflicts, Accepts, CleanListing, CellRejection, MoveEvents, WellShaped;
    PlayRuns.StepRecords(s, spec, id, action);
  }
}
