/** What the event store accepts and what it takes for damage. */
module EventStoreTheorems {
  import opened Prelude
  import opened Events
  import opened EventStore

  // ----- acceptance -----

  lemma {:induction false} SoundExtensionContinues(log: Log, e: Event)
    requires Sound(log) && Sound(Extended(log, e))
    ensures Verified(e) && Continues(if e.body.trace in log then log[e.body.trace] else [], e)
  {
    var t := e.body.trace;
    var before := if t in log then log[t] else [];
    var stream, n := Extended(log, e)[t], |before|;
    assert SoundStream(t, stream) && stream[n] == e;
    assert FaultAt(stream, n).None?;
    if n > 0 {
      assert stream[n - 1] == before[n - 1];
      SequenceIsPosition(before, n - 1);
    }
  }

  lemma {:induction false} SoundExtensionIsNew(log: Log, e: Event)
    requires Sound(log) && Sound(Extended(log, e))
    ensures !KnownId(log, e.body.eventId)
  {
    var t, next := e.body.trace, Extended(log, e);
    forall u, i | u in log && 0 <= i < |log[u]| ensures log[u][i].body.eventId != e.body.eventId {
      assert next[u][i] == log[u][i] && next[t][|next[t]| - 1] == e;
      if log[u][i].body.eventId == e.body.eventId {
        assert SameId(next, u, i, t, |next[t]| - 1);
      }
    }
  }

  /** On a sound log an event is accepted exactly when the log it makes is sound, and the reason given for a refusal
      is the first that applies: its digest, a repeat in its own stream, a break in continuity, a repeat elsewhere. */
  lemma {:induction false} AcceptedExactly(log: Log, e: Event)
    requires Sound(log)
    ensures Refusal(log, e).None? <==> Sound(Extended(log, e))
    ensures var own := e.body.trace in log && InStream(log[e.body.trace], e.body.eventId);
      && (Refusal(log, e) == Some(StreamIntegrity) <==> !Verified(e))
      && (Refusal(log, e) == Some(StreamConflict) <==>
            Verified(e) && !own && !Continues(if e.body.trace in log then log[e.body.trace] else [], e))
      && (Refusal(log, e) == Some(DuplicateEvent) <==>
            && Verified(e)
            && (own || (KnownId(log, e.body.eventId) && Continues(if e.body.trace in log then log[e.body.trace] else [], e))))
  {
    hide Sound, Continues, Verified, InStream;
    if Refusal(log, e).None? {
      AcceptingKeepsSound(log, e);
    } else if Sound(Extended(log, e)) {
      SoundExtensionContinues(log, e);
      SoundExtensionIsNew(log, e);
      assert false;
    }
  }

  // ----- what is read -----

  /** No two rows share an identifier, a hash or a position: what the constraints of the table keep up. */
  predicate Unclashed(rows: Rows) {
    && (forall id :: id in rows ==> rows[id].id == id)
    && forall id, other :: id in rows && other in rows && id != other ==> !Clashes(rows[id], rows[other])
  }

  /** The rows of the trace, in the order of their positions. */
  ghost predicate Lists(rows: Rows, t: TraceId, found: seq<EventRow>) {
    && (forall id :: id in rows && rows[id].trace == t <==> exists i :: 0 <= i < |found| && found[i].id == id)
    && (forall i :: 0 <= i < |found| ==> found[i].id in rows && rows[found[i].id] == found[i])
    && (forall i, j :: 0 <= i < j < |found| ==> found[i].sequenceNo < found[j].sequenceNo)
  }

  lemma {:induction false} PickedRow(rows: Rows, t: TraceId, n: nat)
    requires Unclashed(rows) && Numbered(rows, t, n) != {}
    ensures var id := Least(Numbered(rows, t, n));
      && id in rows && rows[id].trace == t && rows[id].sequenceNo == n && rows[id].id == id
      && forall other :: other in rows && rows[other].trace == t && rows[other].sequenceNo == n ==> other == id
  {
    var id := Least(Numbered(rows, t, n));
    assert id in Numbered(rows, t, n);
    forall other | other in rows && rows[other].trace == t && rows[other].sequenceNo == n ensures other == id {
      if other != id {
        assert Clashes(rows[id], rows[other]);
      }
    }
  }

  lemma {:induction false} SelectedAt(rows: Rows, t: TraceId, ns: seq<int>, i: nat)
    requires Unclashed(rows) && i < |ns| && forall n :: n in ns ==> n in SequencesOf(rows, t)
    ensures |Selected(rows, t, ns)| == |ns|
    ensures var row := Selected(rows, t, ns)[i];
      && row.id in rows && rows[row.id] == row && row.trace == t && row.sequenceNo == ns[i]
      && forall other :: other in rows && rows[other].trace == t && rows[other].sequenceNo == ns[i] ==> other == row.id
  {
    hide Unclashed, SequencesOf;
    var n := ns[0];
    assert n in ns;
    NumberedExist(rows, t, n);
    PickedRow(rows, t, n);
    forall m | m in ns[1..] ensures m in SequencesOf(rows, t) {
      assert m in ns;
    }
    if |ns| > 1 {
      SelectedAt(rows, t, ns[1..], if i > 0 then i - 1 else 0);
    }
  }

  lemma {:induction false} LoadedRows(rows: Rows, t: TraceId)
    requires Unclashed(rows)
    ensures Lists(rows, t, LoadRows(rows, t))
  {
    hide Unclashed;
    var ns := Ascending(SequencesOf(rows, t));
    assert forall n :: n in ns ==> n in SequencesOf(rows, t);
    var found := LoadRows(rows, t);
    if ns != [] {
      SelectedAt(rows, t, ns, 0);
    }
    forall i | 0 <= i < |ns| ensures found[i].id in rows && rows[found[i].id] == found[i] && found[i].sequenceNo == ns[i] {
      SelectedAt(rows, t, ns, i);
    }
    forall id ensures id in rows && rows[id].trace == t <==> exists i :: 0 <= i < |found| && found[i].id == id {
      if id in rows && rows[id].trace == t {
        var n := rows[id].sequenceNo;
        assert n in SequencesOf(rows, t);
        assert n in ns;
        var i :| 0 <= i < |ns| && ns[i] == n;
        SelectedAt(rows, t, ns, i);
        assert found[i].id == id;
      }
      if i :| 0 <= i < |found| && found[i].id == id {
        SelectedAt(rows, t, ns, i);
      }
    }
  }

  /** The stored text of the row validates, and every column repeats it. */
  predicate Whole(row: EventRow) {
    && row.envelope.Some?
    && row.id == row.envelope.value.body.eventId && row.trace == row.envelope.value.body.trace
    && row.sequenceNo == row.envelope.value.body.sequenceNo && row.previous == row.envelope.value.body.previous
    && row.hash == row.envelope.value.hash
  }

  /** The number a damaged row is reported under. */
  function ReportedAs(row: EventRow): nat {
    if row.envelope.None? then row.sequenceNo else row.envelope.value.body.sequenceNo
  }

  lemma {:induction false} ReadExactly(rows: seq<EventRow>)
    ensures (exists events :: ReadRows(rows) == Stream(events)) <==> forall i :: 0 <= i < |rows| ==> Whole(rows[i])
    ensures ReadRows(rows).Stream? ==>
      |ReadRows(rows).events| == |rows| && forall i :: 0 <= i < |rows| ==> rows[i].envelope == Some(ReadRows(rows).events[i])
    ensures ReadRows(rows).Damaged? ==>
      exists i :: 0 <= i < |rows| && !Whole(rows[i]) && ReadRows(rows).sequenceNo == ReportedAs(rows[i])
        && forall j :: 0 <= j < i ==> Whole(rows[j])
  {
    if rows != [] {
      var n := |rows| - 1;
      ReadExactly(rows[..n]);
      assert forall i :: 0 <= i < n ==> rows[..n][i] == rows[i];
      if ReadRows(rows[..n]).Damaged? {
        var i :| 0 <= i < n && !Whole(rows[..n][i]) && ReadRows(rows[..n]).sequenceNo == ReportedAs(rows[..n][i])
          && forall j :: 0 <= j < i ==> Whole(rows[..n][j]);
        assert !Whole(rows[i]);
      } else if ReadRows(rows).Stream? {
        assert ReadRows(rows) == Stream(ReadRows(rows).events);
      }
    } else {
      assert ReadRows(rows) == Stream([]);
    }
  }

  /** The stream index names the last event, and there is one exactly when there are events. */
  predicate Indexed(streams: Streams, t: TraceId, events: seq<Event>) {
    && (t in streams <==> events != [])
    && (events != [] ==>
          var last := events[|events| - 1];
          && streams[t].revision == last.body.revision && streams[t].latestSequence == last.body.sequenceNo
          && streams[t].latestHash == last.hash)
  }

  /** A trace loads exactly when all its rows are whole and the stream index agrees with them, as the events of its
      rows in order; otherwise the damage is reported at the first row that is not whole, or, if only the index
      disagrees, at the last event, or the first one where the index misses the stream, or at zero without events. */
  lemma {:induction false} LoadedExactly(streams: Streams, rows: Rows, t: TraceId)
    requires Unclashed(rows)
    ensures var found, loaded := LoadRows(rows, t), LoadStream(streams, rows, t);
      && Lists(rows, t, found)
      && (loaded.Stream? <==>
            && (forall i :: 0 <= i < |found| ==> Whole(found[i]))
            && Indexed(streams, t, seq(|found|, i requires 0 <= i < |found| && Whole(found[i]) => found[i].envelope.value)))
      && (loaded.Stream? ==>
            |loaded.events| == |found| && forall i :: 0 <= i < |found| ==> found[i].envelope == Some(loaded.events[i]))
      && (loaded.Damaged? && (exists i :: 0 <= i < |found| && !Whole(found[i])) ==>
            exists i :: 0 <= i < |found| && !Whole(found[i]) && loaded.sequenceNo == ReportedAs(found[i])
              && forall j :: 0 <= j < i ==> Whole(found[j]))
      && (loaded.Damaged? && (forall i :: 0 <= i < |found| ==> Whole(found[i])) ==>
            loaded.sequenceNo ==
              if found == [] then 0 else if t in streams then found[|found| - 1].sequenceNo else found[0].sequenceNo)
  {
    hide Unclashed, Lists, LoadRows, Whole;
    LoadedRows(rows, t);
    var found := LoadRows(rows, t);
    ReadExactly(found);
    if ReadRows(found).Stream? {
      assert ReadRows(found) == Stream(ReadRows(found).events);
      var events := ReadRows(found).events;
      assert events == seq(|found|, i requires 0 <= i < |found| && Whole(found[i]) => found[i].envelope.value);
      WholeRepeats(found, events);
    }
  }

  /** The trace has a row at this position. */
  ghost predicate HasPosition(rows: Rows, t: TraceId, n: nat) {
    exists id :: id in rows && rows[id].trace == t && rows[id].sequenceNo == n
  }

  predicate Numbers(found: seq<EventRow>, n: nat) {
    exists i :: 0 <= i < |found| && found[i].sequenceNo == n
  }

  predicate Increasing(ns: seq<nat>) {
    forall i, j :: 0 <= i < j < |ns| ==> ns[i] < ns[j]
  }

  /** Distrusted are exactly the positions of the trace's rows from the damage on, in order. */
  lemma {:induction false} DistrustedExactly(rows: Rows, t: TraceId, first: nat)
    requires Unclashed(rows)
    ensures var distrusted := From(LoadRows(rows, t), first);
      && (forall n :: n in distrusted <==> n >= first && HasPosition(rows, t, n))
      && Increasing(distrusted)
  {
    hide Unclashed, LoadRows, From;
    LoadedRows(rows, t);
    var found := LoadRows(rows, t);
    FromExactly(found, first);
    forall n ensures Numbers(found, n) <==> HasPosition(rows, t, n) {
      if i :| 0 <= i < |found| && found[i].sequenceNo == n {
        assert rows[found[i].id].trace == t && rows[found[i].id].sequenceNo == n;
      }
      if id :| id in rows && rows[id].trace == t && rows[id].sequenceNo == n {
        var i :| 0 <= i < |found| && found[i].id == id;
        assert found[i].sequenceNo == n;
      }
    }
  }

  lemma {:induction false} FromExactly(found: seq<EventRow>, first: nat)
    requires forall i, j :: 0 <= i < j < |found| ==> found[i].sequenceNo < found[j].sequenceNo
    ensures forall n :: n in From(found, first) <==> n >= first && Numbers(found, n)
    ensures Increasing(From(found, first))
  {
    hide Increasing;
    if found == [] {
      NoneIncreases();
    } else {
      var rest := found[1..];
      FromExactly(rest, first);
      assert forall i :: 0 <= i < |rest| ==> rest[i] == found[i + 1];
      forall n ensures Numbers(found, n) <==> found[0].sequenceNo == n || Numbers(rest, n) {
        if i :| 0 <= i < |found| && found[i].sequenceNo == n {
          assert i == 0 || rest[i - 1].sequenceNo == n;
        }
      }
      var r := From(rest, first);
      forall k | 0 <= k < |r| ensures found[0].sequenceNo < r[k] {
        var n := r[k];
        assert n in r && Numbers(rest, n);
      }
      AscendingCons(found[0].sequenceNo, r);
    }
  }

  lemma {:induction false} NoneIncreases()
    ensures Increasing([])
  {
  }

  lemma {:induction false} AscendingCons(n: nat, r: seq<nat>)
    requires forall k :: 0 <= k < |r| ==> n < r[k]
    requires Increasing(r)
    ensures Increasing([n] + r)
  {
    var s := [n] + r;
    forall i, j | 0 <= i < j < |s| ensures s[i] < s[j] {
      assert s[j] == r[j - 1];
      assert i > 0 ==> s[i] == r[i - 1];
    }
  }

  lemma {:induction false} WholeRepeats(found: seq<EventRow>, events: seq<Event>)
    requires |events| == |found| && forall i :: 0 <= i < |found| ==> Whole(found[i]) && found[i].envelope == Some(events[i])
    ensures forall i :: 0 <= i < |found| ==> found[i].sequenceNo == events[i].body.sequenceNo
  {
  }

  /** Insertion keeps the constraints, and refuses only rows that would break them. */
  lemma {:induction false} InsertionKeepsUnclashed(rows: Rows, row: EventRow)
    requires Unclashed(rows)
    ensures Collides(rows, row) <==> row.id in rows || !Unclashed(rows[row.id := row])
  {
    var next := rows[row.id := row];
    if row.id !in rows {
      if id :| id in rows && Clashes(rows[id], row) {
        assert Clashes(next[id], next[row.id]) && id != row.id;
      } else {
        forall id, other | id in next && other in next && id != other ensures !Clashes(next[id], next[other]) {
          ClashesBothWays(next[id], next[other]);
        }
      }
    }
  }

  lemma {:induction false} ClashesBothWays(a: EventRow, b: EventRow)
    ensures Clashes(a, b) <==> Clashes(b, a)
  {
  }
}
