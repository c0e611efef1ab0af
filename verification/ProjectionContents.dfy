/** What rebuilt projections contain, read off the source events. */
module ProjectionContents {
  import opened Prelude
  import opened Sorting
  import opened Projections
  import opened ProjectionTheorems
  import L = LearningTheorems

  // ----- indexes -----

  /** One event, as an index of either kind reads it. */
  datatype Change =
    | Records(id: Identifier, content: Identifier)
    | Supersedes(id: Identifier, replacement: Identifier)
    | Removes(id: Identifier)
    | Foreign

  function NoveltyChange(e: Event): Change {
    match e.body.payload
    case NoveltyRecorded(revision, content) => Records(revision, content)
    case NoveltyRemoved(revision) => Removes(revision)
    case _ => Foreign
  }

  function ArtifactChange(e: Event): Change {
    match e.body.payload
    case ArtifactRecorded(artifact, content) => Records(artifact, content)
    case ArtifactSuperseded(artifact, replacement) => Supersedes(artifact, replacement)
    case ArtifactRemoved(artifact) => Removes(artifact)
    case _ => Foreign
  }

  type Reading = Event -> Change

  /** The entry recorded at `j` has not been removed before `n`. */
  ghost predicate Stands(events: seq<Event>, read: Reading, n: nat, id: Identifier, j: nat)
    requires n <= |events|
  {
    j < n && read(events[j]).Records? && read(events[j]).id == id
    && forall k :: j < k < n ==> read(events[k]) != Removes(id)
  }

  ghost predicate Present(events: seq<Event>, read: Reading, n: nat, id: Identifier)
    requires n <= |events|
  {
    exists j: nat :: Stands(events, read, n, id, j)
  }

  /** New identifiers are recorded, present ones removed or superseded by another present one. */
  ghost predicate Admitted(events: seq<Event>, read: Reading, i: nat)
    requires i < |events|
  {
    match read(events[i])
    case Records(id, _) => !Present(events, read, i, id)
    case Supersedes(id, replacement) =>
      id != replacement && Present(events, read, i, id) && Present(events, read, i, replacement)
    case Removes(id) => Present(events, read, i, id)
    case Foreign => false
  }

  /** `k` is the last event since `j` that supersedes the entry. */
  ghost predicate LastReplaced(events: seq<Event>, read: Reading, n: nat, id: Identifier, j: nat, k: nat)
    requires n <= |events|
  {
    j < k < n && read(events[k]).Supersedes? && read(events[k]).id == id
    && forall l :: k < l < n ==> !(read(events[l]).Supersedes? && read(events[l]).id == id)
  }

  ghost predicate NeverReplaced(events: seq<Event>, read: Reading, n: nat, id: Identifier, j: nat)
    requires n <= |events|
  {
    forall k :: j < k < n ==> !(read(events[k]).Supersedes? && read(events[k]).id == id)
  }

  /** The entries are those recorded and not removed since, each with its own record and its last replacement. */
  ghost predicate Indexes(events: seq<Event>, read: Reading, n: nat, entries: Entries)
    requires n <= |events|
  {
    && (forall id :: id in entries <==> Present(events, read, n, id))
    && (forall id, j: nat :: Stands(events, read, n, id, j) ==> Entered(events, read, n, entries, id, j))
  }

  ghost predicate Entered(events: seq<Event>, read: Reading, n: nat, entries: Entries, id: Identifier, j: nat)
    requires n <= |events| && Stands(events, read, n, id, j)
  {
    && id in entries && entries[id].content == read(events[j]).content && entries[id].source == events[j].body.id
    && (NeverReplaced(events, read, n, id, j) ==> entries[id].supersededBy == None)
    && (forall k: nat :: LastReplaced(events, read, n, id, j, k) ==> entries[id].supersededBy == Some(read(events[k]).replacement))
  }

  /** What one change does to the entries. */
  function Changed(entries: Entries, change: Change, source: EventId): Entries {
    match change
    case Records(id, content) => entries[id := Entry(content, source, None)]
    case Supersedes(id, replacement) =>
      if id in entries then entries[id := entries[id].(supersededBy := Some(replacement))] else entries
    case Removes(id) => entries - {id}
    case Foreign => entries
  }

  predicate Acceptable(entries: Entries, change: Change) {
    match change
    case Records(id, _) => id !in entries
    case Supersedes(id, replacement) => id != replacement && id in entries && replacement in entries
    case Removes(id) => id in entries
    case Foreign => false
  }

  lemma {:induction false} StandsLonger(events: seq<Event>, read: Reading, n: nat, id: Identifier, j: nat)
    requires n < |events|
    ensures Stands(events, read, n + 1, id, j) <==>
      if j == n then read(events[n]).Records? && read(events[n]).id == id
      else Stands(events, read, n, id, j) && read(events[n]) != Removes(id)
  {
  }

  lemma {:induction false} PresentLonger(events: seq<Event>, read: Reading, n: nat, id: Identifier)
    requires n < |events|
    ensures Present(events, read, n + 1, id) <==>
      || (read(events[n]).Records? && read(events[n]).id == id)
      || (Present(events, read, n, id) && read(events[n]) != Removes(id))
  {
    hide Stands;
    if Present(events, read, n + 1, id) {
      var j: nat :| Stands(events, read, n + 1, id, j);
      StandsLonger(events, read, n, id, j);
    }
    if Present(events, read, n, id) {
      var j: nat :| Stands(events, read, n, id, j);
      StandsLonger(events, read, n, id, j);
      assert j < n by { StandsBefore(events, read, n, id, j); }
    }
    StandsLonger(events, read, n, id, n);
  }

  lemma {:induction false} StandsBefore(events: seq<Event>, read: Reading, n: nat, id: Identifier, j: nat)
    requires n <= |events| && Stands(events, read, n, id, j)
    ensures j < n
  {
  }

  lemma {:induction false} ChangeIndexes(events: seq<Event>, read: Reading, n: nat, entries: Entries)
    requires n < |events| && Indexes(events, read, n, entries)
    ensures Admitted(events, read, n) <==> Acceptable(entries, read(events[n]))
    ensures Admitted(events, read, n) ==>
      Indexes(events, read, n + 1, Changed(entries, read(events[n]), events[n].body.id))
  {
    hide Stands, Present, NeverReplaced, LastReplaced;
    if Admitted(events, read, n) {
      var next := Changed(entries, read(events[n]), events[n].body.id);
      forall id ensures id in next <==> Present(events, read, n + 1, id) {
        PresentLonger(events, read, n, id);
      }
      var m := n + 1;
      forall id, j: nat | Stands(events, read, m, id, j) ensures Entered(events, read, m, next, id, j) {
        EntryCarries(events, read, n, entries, id, j);
      }
    }
  }

  /** Event `n` supersedes the entry. */
  ghost predicate Replaces(events: seq<Event>, read: Reading, n: nat, id: Identifier)
    requires n < |events|
  {
    read(events[n]).Supersedes? && read(events[n]).id == id
  }

  lemma {:induction false} NeverLonger(events: seq<Event>, read: Reading, n: nat, id: Identifier, j: nat)
    requires j < n < |events|
    ensures NeverReplaced(events, read, n + 1, id, j) <==>
      NeverReplaced(events, read, n, id, j) && !Replaces(events, read, n, id)
  {
  }

  lemma {:induction false} LastLonger(events: seq<Event>, read: Reading, n: nat, id: Identifier, j: nat, k: nat)
    requires j < n < |events|
    ensures LastReplaced(events, read, n + 1, id, j, k) <==>
      if Replaces(events, read, n, id) then k == n else LastReplaced(events, read, n, id, j, k)
  {
    if LastReplaced(events, read, n + 1, id, j, k) && k < n {
      assert !Replaces(events, read, n, id);
    }
  }

  lemma {:induction false} EntryCarries(events: seq<Event>, read: Reading, n: nat, entries: Entries, id: Identifier,
      j: nat)
    requires n < |events| && Indexes(events, read, n, entries) && Admitted(events, read, n)
    requires Stands(events, read, n + 1, id, j)
    ensures Entered(events, read, n + 1, Changed(entries, read(events[n]), events[n].body.id), id, j)
  {
    hide NeverReplaced, LastReplaced, Present, Stands;
    StandsLonger(events, read, n, id, j);
    if j < n {
      assert Entered(events, read, n, entries, id, j);
      NeverLonger(events, read, n, id, j);
      var m := n + 1;
      forall k: nat ensures LastReplaced(events, read, m, id, j, k) <==>
        if Replaces(events, read, n, id) then k == n else LastReplaced(events, read, n, id, j, k)
      {
        LastLonger(events, read, n, id, j, k);
      }
      assert Present(events, read, n, id) by { StandsIsPresent(events, read, n, id, j); }
    } else {
      NewIsUnreplaced(events, read, n + 1, id, j);
    }
  }

  lemma {:induction false} StandsIsPresent(events: seq<Event>, read: Reading, n: nat, id: Identifier, j: nat)
    requires n <= |events| && Stands(events, read, n, id, j)
    ensures Present(events, read, n, id)
  {
  }

  lemma {:induction false} NewIsUnreplaced(events: seq<Event>, read: Reading, m: nat, id: Identifier, j: nat)
    requires m <= |events| && Stands(events, read, m, id, j) && j + 1 >= m
    ensures j + 1 == m && forall k: nat :: !LastReplaced(events, read, m, id, j, k)
  {
  }

  lemma {:induction false} NothingIndexed(events: seq<Event>, read: Reading)
    ensures Indexes(events, read, 0, map[])
  {
  }

  /** The novelty index is built exactly when every event of the stream is admitted, and then holds exactly the
      revisions recorded and not removed since. */
  lemma {:induction false} NoveltyExactly(events: seq<Event>, n: nat)
    requires n <= |events|
    ensures Novelty(events[..n]).Ok? <==> forall i :: 0 <= i < n ==> Admitted(events, NoveltyChange, i)
    ensures Novelty(events[..n]).Ok? ==> Indexes(events, NoveltyChange, n, Novelty(events[..n]).value)
  {
    hide Admitted, Indexes;
    if n > 0 {
      NoveltyExactly(events, n - 1);
      assert events[..n][..n - 1] == events[..n - 1];
      if Novelty(events[..n - 1]).Ok? {
        ChangeIndexes(events, NoveltyChange, n - 1, Novelty(events[..n - 1]).value);
      }
    } else {
      NothingIndexed(events, NoveltyChange);
    }
  }

  /** The artifact index likewise; an entry also keeps the last replacement recorded since. */
  lemma {:induction false} ArtifactsExactly(events: seq<Event>, n: nat)
    requires n <= |events|
    ensures Artifacts(events[..n]).Ok? <==> forall i :: 0 <= i < n ==> Admitted(events, ArtifactChange, i)
    ensures Artifacts(events[..n]).Ok? ==> Indexes(events, ArtifactChange, n, Artifacts(events[..n]).value)
  {
    hide Admitted, Indexes;
    if n > 0 {
      ArtifactsExactly(events, n - 1);
      assert events[..n][..n - 1] == events[..n - 1];
      if Artifacts(events[..n - 1]).Ok? {
        ChangeIndexes(events, ArtifactChange, n - 1, Artifacts(events[..n - 1]).value);
      }
    } else {
      NothingIndexed(events, ArtifactChange);
    }
  }

  // ----- attempts -----

  datatype Fact = AcceptedMoves | RejectedMoves | HintsRevealed | Explanations | Replays

  predicate Is(fact: Fact, p: Payload) {
    match fact
    case AcceptedMoves => p.MoveEvaluated? && p.accepted
    case RejectedMoves => p.MoveEvaluated? && !p.accepted
    case HintsRevealed => p.HintRevealed?
    case Explanations => p.StepExplained?
    case Replays => p.ReplayViewed?
  }

  function CountOf(a: Attempt, fact: Fact): nat {
    match fact
    case AcceptedMoves => a.accepted
    case RejectedMoves => a.rejected
    case HintsRevealed => a.hints
    case Explanations => a.explanations
    case Replays => a.replays
  }

  /** The positions before `n` of events that are such a fact. */
  function Positions(events: seq<Event>, n: nat, fact: Fact): set<nat>
    requires n <= |events|
  {
    set i: nat | i < n && Is(fact, events[i].body.payload)
  }

  predicate Terminal(p: Payload) {
    p.AttemptCompleted? || p.AttemptAbandoned?
  }

  /** The stream starts an attempt, stays with it, starts no other, and ends with its terminal event if it has one. */
  predicate Continues(events: seq<Event>, i: nat)
    requires i < |events|
  {
    var p := events[i].body.payload;
    if i == 0 then p.AttemptStarted?
    else
      && events[0].body.payload.AttemptStarted?
      && !p.AttemptStarted? && p.Kind() == AttemptStream && p.attempt == events[0].body.payload.attempt
      && !Terminal(events[i - 1].body.payload)
  }

  /** `k` is the last self-assessment before `n`. */
  predicate LastAssessed(events: seq<Event>, n: nat, k: nat)
    requires n <= |events|
  {
    k < n && events[k].body.payload.SelfAssessed? && forall l :: k < l < n ==> !events[l].body.payload.SelfAssessed?
  }

  ghost predicate Summarizes(events: seq<Event>, n: nat, a: Attempt)
    requires 0 < n <= |events| && events[0].body.payload.AttemptStarted?
  {
    var start, last := events[0].body.payload, events[n - 1].body.payload;
    && a.attempt == start.attempt && a.user == start.user && a.revision == start.revision
    && a.stream == events[0].body.stream && a.head == events[n - 1].hash
    && |a.sources| == n && (forall i :: 0 <= i < n ==> a.sources[i] == events[i].body.id)
    && a.status == (if last.AttemptCompleted? then Completed else if last.AttemptAbandoned? then Abandoned else Active)
    && (forall fact :: CountOf(a, fact) == |Positions(events, n, fact)|)
    && (forall k: nat :: LastAssessed(events, n, k) ==> a.assessment == Some(events[k].body.payload.rating))
    && (a.assessment.Some? ==> exists k: nat :: LastAssessed(events, n, k))
  }

  lemma {:induction false} PositionsExtend(events: seq<Event>, n: nat, fact: Fact)
    requires n < |events|
    ensures |Positions(events, n + 1, fact)| == |Positions(events, n, fact)| + if Is(fact, events[n].body.payload) then 1 else 0
  {
    hide Is;
    var more := Positions(events, n, fact) + if Is(fact, events[n].body.payload) then {n} else {};
    assert Positions(events, n + 1, fact) == more;
  }

  lemma {:induction false} AssessmentExtends(events: seq<Event>, n: nat, k: nat)
    requires n < |events|
    ensures LastAssessed(events, n + 1, k) <==>
      if events[n].body.payload.SelfAssessed? then k == n else LastAssessed(events, n, k)
  {
  }

  lemma {:induction false} AbsorbedSummarizes(events: seq<Event>, n: nat, a: Attempt)
    requires 0 < n < |events| && events[0].body.payload.AttemptStarted? && Summarizes(events, n, a)
    ensures Absorb(a, events[n]).Ok? <==> Continues(events, n)
    ensures Absorb(a, events[n]).Ok? ==>
      Summarizes(events, n + 1, Absorb(a, events[n]).value.(sources := a.sources + [events[n].body.id], head := events[n].hash))
  {
    hide Tally, LastAssessed, Positions;
    var p := events[n].body.payload;
    if Absorb(a, events[n]).Ok? {
      var next := Absorb(a, events[n]).value.(sources := a.sources + [events[n].body.id], head := events[n].hash);
      forall fact ensures CountOf(next, fact) == |Positions(events, n + 1, fact)| {
        PositionsExtend(events, n, fact);
      }
      forall k: nat ensures LastAssessed(events, n + 1, k) <==> if p.SelfAssessed? then k == n else LastAssessed(events, n, k) {
        AssessmentExtends(events, n, k);
      }
    }
  }

  lemma {:induction false} StartSummarizes(events: seq<Event>, a: Attempt)
    requires |events| > 0 && Counted(events[..1]) == Ok(a)
    ensures Continues(events, 0) && Summarizes(events, 1, a)
  {
    forall fact ensures CountOf(a, fact) == |Positions(events, 1, fact)| {
      assert Positions(events, 1, fact) == {};
    }
  }

  /** An attempt is rebuilt exactly from streams of this shape, and then says who started what, where it stands,
      how often each kind of fact occurred, the last self-assessment, and which events it comes from. */
  lemma {:induction false} AttemptExactly(events: seq<Event>, n: nat)
    requires 0 < n <= |events|
    ensures Counted(events[..n]).Ok? <==> forall i :: 0 <= i < n ==> Continues(events, i)
    ensures Counted(events[..n]).Ok? ==> Continues(events, 0) && Summarizes(events, n, Counted(events[..n]).value)
  {
    hide Continues, Absorb, Summarizes;
    if n == 1 {
      if Counted(events[..1]).Ok? {
        StartSummarizes(events, Counted(events[..1]).value);
      } else {
        NotStarted(events);
      }
    } else {
      AttemptExactly(events, n - 1);
      assert events[..n][..n - 1] == events[..n - 1];
      if Counted(events[..n - 1]).Ok? {
        StartsAttempt(events);
        AbsorbedSummarizes(events, n - 1, Counted(events[..n - 1]).value);
      }
    }
  }

  lemma {:induction false} StartsAttempt(events: seq<Event>)
    requires |events| > 0 && Continues(events, 0)
    ensures events[0].body.payload.AttemptStarted?
  {
  }

  lemma {:induction false} NotStarted(events: seq<Event>)
    requires |events| > 0 && Counted(events[..1]).Err?
    ensures !Continues(events, 0)
  {
  }

  // ----- the bundle -----

  /** `s` is the sorted stream of some identifier of this kind. */
  ghost predicate IsStream(events: seq<Event>, kind: StreamKind, t: StreamId, s: seq<Event>) {
    s != [] && s[0].Kind() == kind && s == StreamOf(events, t) && t in StreamIds(events)
  }

  predicate OfKind(events: seq<Event>, kind: StreamKind, t: StreamId) {
    var s := StreamOf(events, t);
    s != [] && s[0].Kind() == kind
  }

  function Kinded(events: seq<Event>, ids: seq<StreamId>, kind: StreamKind): set<StreamId> {
    set t | t in ids && OfKind(events, kind, t)
  }

  lemma {:induction false} MatchingStreams(events: seq<Event>, ids: seq<StreamId>, kind: StreamKind)
    requires NoDuplicates(ids)
    ensures |StreamsOfKind(events, ids, kind)| == |Kinded(events, ids, kind)|
  {
    hide StreamOf;
    if ids != [] {
      var first, rest := ids[0], ids[1..];
      assert ids == [first] + rest && first !in rest;
      MatchingStreams(events, rest, kind);
      KindedExtends(events, first, rest, kind);
    }
  }

  lemma {:induction false} KindedExtends(events: seq<Event>, first: StreamId, rest: seq<StreamId>, kind: StreamKind)
    requires first !in rest
    ensures |Kinded(events, [first] + rest, kind)| == |Kinded(events, rest, kind)| + if OfKind(events, kind, first) then 1 else 0
  {
    hide OfKind;
    var more := Kinded(events, rest, kind) + if OfKind(events, kind, first) then {first} else {};
    assert Kinded(events, [first] + rest, kind) == more;
  }

  /** At most one stream of the kind. */
  ghost predicate Single(events: seq<Event>, kind: StreamKind) {
    forall t, u, s: seq<Event>, r: seq<Event> :: IsStream(events, kind, t, s) && IsStream(events, kind, u, r) ==> t == u
  }

  lemma {:induction false} SingleExactly(events: seq<Event>, kind: StreamKind)
    ensures SingleStream(events, kind).Ok? <==> Single(events, kind)
    ensures SingleStream(events, kind).Ok? ==>
      var s := SingleStream(events, kind).value;
      && (forall t, r: seq<Event> :: IsStream(events, kind, t, r) ==> s == r)
      && ((forall t, r: seq<Event> :: !IsStream(events, kind, t, r)) ==> s == [])
  {
    hide StreamOf, StreamIds, StreamsOfKind;
    var ids := StreamIds(events);
    StreamIdsMembers(events);
    MatchingStreams(events, ids, kind);
    var matching := StreamsOfKind(events, ids, kind);
    var named := Kinded(events, ids, kind);
    forall t, s | IsStream(events, kind, t, s) ensures t in named && s in matching {
      StreamsMembers(events, ids, kind, s);
    }
    forall t | t in named ensures IsStream(events, kind, t, StreamOf(events, t)) {
    }
    if |matching| > 1 {
      var t := AnyOf(named);
      assert |named - {t}| == |named| - 1;
      var u := AnyOf(named - {t});
      assert IsStream(events, kind, t, StreamOf(events, t)) && IsStream(events, kind, u, StreamOf(events, u));
    } else {
      forall t, u | t in named && u in named ensures t == u {
        AtMostOne(named, t, u);
      }
      if matching != [] {
        var s := matching[0];
        assert s in matching;
        StreamsMembers(events, ids, kind, s);
      }
    }
  }

  lemma {:induction false} AtMostOne<T>(all: set<T>, t: T, u: T)
    requires |all| <= 1 && t in all && u in all
    ensures t == u
  {
    if t != u {
      SubsetSize({t, u}, all);
    }
  }

  /** The index of this kind is that of its stream, named with its head, or empty where there is no such stream. */
  ghost predicate IndexShown(events: seq<Event>, kind: StreamKind, read: Reading, index: Index) {
    && (forall t, s: seq<Event> :: IsStream(events, kind, t, s) ==>
          && index.stream == Some(s[0].body.stream) && index.head == Some(s[|s| - 1].hash)
          && Indexes(s, read, |s|, index.entries))
    && ((forall t, s: seq<Event> :: !IsStream(events, kind, t, s)) ==> index == Index(map[], None, None))
  }

  ghost predicate AllAdmitted(events: seq<Event>, kind: StreamKind, read: Reading) {
    forall t, s: seq<Event>, i :: IsStream(events, kind, t, s) && 0 <= i < |s| ==> Admitted(s, read, i)
  }

  ghost predicate AllAttempts(events: seq<Event>) {
    forall t, s: seq<Event>, i :: IsStream(events, AttemptStream, t, s) && 0 <= i < |s| ==> Continues(s, i)
  }

  /** A memory is rebuilt exactly from valid streams, each attempt well formed, at most one novelty and one artifact
      stream, and every change of those admitted. Its indexes are those of the two streams, and its attempts, in
      the order of their identifiers, those of the attempt streams. */
  lemma {:induction false} RebuildExactly(events: seq<Event>)
    ensures Rebuild(events).Ok? <==>
      && ValidSource(events) && AllAttempts(events)
      && Single(events, NoveltyStream) && AllAdmitted(events, NoveltyStream, NoveltyChange)
      && Single(events, ArtifactStream) && AllAdmitted(events, ArtifactStream, ArtifactChange)
    ensures Rebuild(events).Ok? ==>
      var bundle := Rebuild(events).value;
      && bundle.sources == |events|
      && IndexShown(events, NoveltyStream, NoveltyChange, bundle.novelty)
      && IndexShown(events, ArtifactStream, ArtifactChange, bundle.artifacts)
      && (forall a :: a in bundle.attempts <==> exists t, s: seq<Event> :: IsStream(events, AttemptStream, t, s) && Counted(s) == Ok(a))
      && (forall i, j :: 0 <= i < j < |bundle.attempts| ==> bundle.attempts[i].attempt <= bundle.attempts[j].attempt)
  {
    hide ValidSource, SingleStream, Novelty, Artifacts, IsStream, AllAdmitted, AllAttempts, Single, LearningFor, Ascending, Users, Sort,
      AttemptsOf, StreamsOfKind, StreamIds, IndexShown, Counted;
    if ValidSource(events) {
      AttemptsExactly(events);
      RebuildParts(events);
      SingleExactly(events, NoveltyStream);
      SingleExactly(events, ArtifactStream);
      if Single(events, NoveltyStream) {
        NoveltyShown(events);
      }
      if Single(events, ArtifactStream) {
        ArtifactsShown(events);
      }
    }
  }

  lemma {:induction false} NoveltyShown(events: seq<Event>)
    requires SingleStream(events, NoveltyStream).Ok?
    ensures var s := SingleStream(events, NoveltyStream).value;
      && (Novelty(s).Ok? <==> AllAdmitted(events, NoveltyStream, NoveltyChange))
      && (Novelty(s).Ok? ==> IndexShown(events, NoveltyStream, NoveltyChange, IndexOver(s, Novelty(s).value)))
  {
    hide IsStream, SingleStream, Novelty, Admitted, Indexes;
    SingleExactly(events, NoveltyStream);
    var s := SingleStream(events, NoveltyStream).value;
    assert s[..|s|] == s;
    NoveltyExactly(s, |s|);
    NothingYet();
    StreamsAreNamed(events, NoveltyStream);
  }

  lemma {:induction false} ArtifactsShown(events: seq<Event>)
    requires SingleStream(events, ArtifactStream).Ok?
    ensures var s := SingleStream(events, ArtifactStream).value;
      && (Artifacts(s).Ok? <==> AllAdmitted(events, ArtifactStream, ArtifactChange))
      && (Artifacts(s).Ok? ==> IndexShown(events, ArtifactStream, ArtifactChange, IndexOver(s, Artifacts(s).value)))
  {
    hide IsStream, SingleStream, Artifacts, Admitted, Indexes;
    SingleExactly(events, ArtifactStream);
    var s := SingleStream(events, ArtifactStream).value;
    assert s[..|s|] == s;
    ArtifactsExactly(s, |s|);
    NothingYet();
    StreamsAreNamed(events, ArtifactStream);
  }

  lemma {:induction false} NothingYet()
    ensures Novelty([]) == Ok(map[]) && Artifacts([]) == Ok(map[])
  {
  }

  lemma {:induction false} StreamsAreNamed(events: seq<Event>, kind: StreamKind)
    ensures forall t, s: seq<Event> :: IsStream(events, kind, t, s) ==> s != []
  {
    hide StreamOf, StreamIds;
  }

  lemma {:induction false} AttemptsExactly(events: seq<Event>)
    requires ValidSource(events)
    ensures Unordered(events).Ok? <==> AllAttempts(events)
    ensures Unordered(events).Ok? ==>
      var attempts := Sort(Unordered(events).value, ByAttempt());
      && (forall a :: a in attempts <==> exists t, s: seq<Event> :: IsStream(events, AttemptStream, t, s) && Counted(s) == Ok(a))
      && (forall i, j :: 0 <= i < j < |attempts| ==> attempts[i].attempt <= attempts[j].attempt)
  {
    hide StreamOf, StreamIds, StreamsOfKind, Counted, Continues, Chained;
    var ids := StreamIds(events);
    var streams := StreamsOfKind(events, ids, AttemptStream);
    forall s ensures s in streams <==> exists t :: IsStream(events, AttemptStream, t, s) {
      StreamsMembers(events, ids, AttemptStream, s);
      if s in streams {
        var t :| t in ids && s == StreamOf(events, t);
        assert IsStream(events, AttemptStream, t, s);
      }
    }
    AttemptsListed(streams);
    forall s | s in streams ensures AttemptOf(s).Ok? <==> forall i :: 0 <= i < |s| ==> Continues(s, i) {
      AttemptExactly(s, |s|);
      assert s[..|s|] == s;
    }
    if Unordered(events).Ok? {
      var all := Unordered(events).value;
      SortKeeps(all, ByAttempt());
      forall a ensures a in all <==> exists t, s: seq<Event> :: IsStream(events, AttemptStream, t, s) && Counted(s) == Ok(a) {
        if a in all {
          var i :| 0 <= i < |all| && all[i] == a;
          var s := streams[i];
          assert s in streams && Counted(s) == Ok(a);
        }
        if t, s :| IsStream(events, AttemptStream, t, s) && Counted(s) == Ok(a) {
          assert s in streams;
          var i :| 0 <= i < |streams| && streams[i] == s;
          assert all[i] == a;
        }
      }
      AttemptsInOrder(all);
    }
  }

  lemma {:induction false} AttemptsInOrder(all: seq<Attempt>)
    ensures var attempts := Sort(all, ByAttempt());
      forall i, j :: 0 <= i < j < |attempts| ==> attempts[i].attempt <= attempts[j].attempt
  {
    hide Sort;
    var attempts := Sort(all, ByAttempt());
    SortKeeps(all, ByAttempt());
    forall i, j | 0 <= i < j < |attempts| ensures attempts[i].attempt <= attempts[j].attempt {
      OrderedIsSorted(attempts, ByAttempt(), i, j);
    }
  }

  // ----- where a user's attempts stand -----

  /** The user's attempt streams that end this way. */
  ghost function EndingAs(events: seq<Event>, streams: set<StreamId>, status: Status): set<StreamId> {
    set t | t in streams && StandsAt(events, t, status)
  }

  ghost predicate StandsAt(events: seq<Event>, t: StreamId, status: Status) {
    var s := StreamOf(events, t);
    s != [] && var last := s[|s| - 1].body.payload;
    match status
    case Completed => last.AttemptCompleted?
    case Abandoned => last.AttemptAbandoned?
    case Active => !last.AttemptCompleted? && !last.AttemptAbandoned?
  }

  lemma {:induction false} EndingExtends(events: seq<Event>, streams: set<StreamId>, t: StreamId, status: Status)
    requires t !in streams
    ensures |EndingAs(events, streams + {t}, status)| == |EndingAs(events, streams, status)| + if StandsAt(events, t, status) then 1 else 0
  {
    hide StandsAt;
    var more := EndingAs(events, streams, status) + if StandsAt(events, t, status) then {t} else {};
    assert EndingAs(events, streams + {t}, status) == more;
  }

  lemma {:induction false} LastIsNew(attempts: seq<Attempt>)
    requires attempts != [] && KeysDiffer(attempts, L.ByStream())
    ensures var n := |attempts| - 1;
      && KeysDiffer(attempts[..n], L.ByStream()) && attempts[n].stream !in L.StreamsIn(attempts[..n])
      && L.StreamsIn(attempts) == L.StreamsIn(attempts[..n]) + {attempts[n].stream}
  {
    var n := |attempts| - 1;
    assert attempts == attempts[..n] + [attempts[n]];
    forall a | a in attempts[..n] ensures a.stream != attempts[n].stream {
      var i :| 0 <= i < n && attempts[i] == a;
      assert L.ByStream()(attempts[i]) != L.ByStream()(attempts[n]);
    }
  }

  lemma {:induction false} StatusesCount(events: seq<Event>, attempts: seq<Attempt>, status: Status)
    requires KeysDiffer(attempts, L.ByStream())
    requires forall a :: a in attempts ==> AttemptOf(StreamOf(events, a.stream)) == Ok(a)
    ensures HowMany(attempts, status) == |EndingAs(events, L.StreamsIn(attempts), status)|
  {
    hide StreamOf, AttemptOf, StandsAt, EndingAs, KeysDiffer, L.StreamsIn;
    if attempts != [] {
      var n := |attempts| - 1;
      assert attempts == attempts[..n] + [attempts[n]];
      LastIsNew(attempts);
      StatusesCount(events, attempts[..n], status);
      AttemptStands(events, attempts[n], status);
      EndingExtends(events, L.StreamsIn(attempts[..n]), attempts[n].stream, status);
    } else {
      NothingEnds(events, status);
    }
  }

  lemma {:induction false} NothingEnds(events: seq<Event>, status: Status)
    ensures EndingAs(events, L.StreamsIn([]), status) == {}
  {
  }

  lemma {:induction false} AttemptStands(events: seq<Event>, a: Attempt, status: Status)
    requires AttemptOf(StreamOf(events, a.stream)) == Ok(a)
    ensures StandsAt(events, a.stream, status) <==> a.status == status
  {
    hide StreamOf, Chained, Continues;
    var s := StreamOf(events, a.stream);
    assert s[..|s|] == s;
    AttemptExactly(s, |s|);
  }

  /** A user's completed, abandoned and active attempts are counted by how their streams end, and the view names
      exactly the streams it is made of, each with its head. */
  lemma {:induction false} LearningStatuses(events: seq<Event>, i: nat)
    requires Rebuild(events).Ok? && i < |Rebuild(events).value.learning|
    ensures var l := Rebuild(events).value.learning[i];
      var streams := L.StreamsOfUser(events, l.user);
      && l.completed == |EndingAs(events, streams, Completed)|
      && l.abandoned == |EndingAs(events, streams, Abandoned)|
      && l.active == |EndingAs(events, streams, Active)|
      && Elements(l.streams) == streams && |l.streams| == |l.heads| == |streams|
      && forall k :: 0 <= k < |l.streams| ==>
           StreamOf(events, l.streams[k]) != [] && l.heads[k] == StreamOf(events, l.streams[k])[|StreamOf(events, l.streams[k])| - 1].hash
  {
    hide Sort, OfUser, Ascending, LearningFor, EndingAs, L.StreamsOfUser, HowMany, L.StreamsIn, StreamOf, Counted, Unordered,
      ValidSource, L.Observed, L.Faithful, LessonOf, Chained;
    var attempts := Rebuild(events).value.attempts;
    var users := Ascending(Users(attempts));
    var l := Rebuild(events).value.learning[i];
    RebuildIsValid(events);
    RebuildParts(events);
    L.LearningUsers(attempts, users);
    var observed := L.Observed(events, users[i]);
    assert l == LearningOf(users[i], observed) by { ObservedIs(events, users[i]); }
    L.ObservedAttempts(events, users[i], 0);
    forall a | a in observed ensures AttemptOf(StreamOf(events, a.stream)) == Ok(a) {
      ObservedIsRebuilt(events, users[i], a);
    }
    StatusesCount(events, observed, Completed);
    StatusesCount(events, observed, Abandoned);
    StatusesCount(events, observed, Active);
    StreamsListed(observed, l.streams);
    forall k | 0 <= k < |observed|
      ensures StreamOf(events, l.streams[k]) != []
      ensures l.heads[k] == StreamOf(events, l.streams[k])[|StreamOf(events, l.streams[k])| - 1].hash
    {
      var a := observed[k];
      assert a in observed;
      HeadIsLast(StreamOf(events, a.stream), a);
    }
  }

  lemma {:induction false} HeadIsLast(s: seq<Event>, a: Attempt)
    requires AttemptOf(s) == Ok(a)
    ensures s != [] && a.head == s[|s| - 1].hash
  {
    hide Chained, Continues;
    assert s[..|s|] == s;
    AttemptExactly(s, |s|);
  }

  lemma {:induction false} StreamsListed(attempts: seq<Attempt>, streams: seq<StreamId>)
    requires |streams| == |attempts| && forall k :: 0 <= k < |attempts| ==> streams[k] == attempts[k].stream
    requires KeysDiffer(attempts, L.ByStream())
    ensures Elements(streams) == L.StreamsIn(attempts) && |streams| == |L.StreamsIn(attempts)|
  {
    forall t ensures t in Elements(streams) <==> t in L.StreamsIn(attempts) {
      if t in Elements(streams) {
        var k :| 0 <= k < |streams| && streams[k] == t;
        assert attempts[k] in attempts;
      }
      if t in L.StreamsIn(attempts) {
        var a :| a in attempts && a.stream == t;
        var k :| 0 <= k < |attempts| && attempts[k] == a;
        assert streams[k] == t;
      }
    }
    forall j, k | 0 <= j < k < |streams| ensures streams[j] != streams[k] {
      assert L.ByStream()(attempts[j]) != L.ByStream()(attempts[k]);
    }
    DistinctSize(streams);
  }

  lemma {:induction false} RebuildIsValid(events: seq<Event>)
    requires Rebuild(events).Ok?
    ensures ValidSource(events)
  {
    hide ValidSource, SingleStream, AttemptsOf, StreamsOfKind, Novelty, Artifacts, LearningFor, Ascending, Users,
      Sort, StreamIds;
  }

  lemma {:induction false} ObservedIs(events: seq<Event>, u: UserId)
    requires Rebuild(events).Ok?
    ensures L.Observed(events, u) == Sort(OfUser(Rebuild(events).value.attempts, u), ByAttempt())
  {
  }

  lemma {:induction false} ObservedIsRebuilt(events: seq<Event>, u: UserId, a: Attempt)
    requires Rebuild(events).Ok? && ValidSource(events) && a in L.Observed(events, u)
    ensures AttemptOf(StreamOf(events, a.stream)) == Ok(a)
  {
    hide Sort, OfUser, Unordered, ValidSource, StreamOf, AttemptOf, LearningFor;
    RebuildParts(events);
    var attempts := Rebuild(events).value.attempts;
    SortKeeps(OfUser(attempts, u), ByAttempt());
    OfUserMembers(attempts, u, a);
    SortKeeps(Unordered(events).value, ByAttempt());
    AttemptRebuilt(events, a);
  }

  lemma {:induction false} OfUserMembers(attempts: seq<Attempt>, u: UserId, a: Attempt)
    ensures a in OfUser(attempts, u) <==> a in attempts && a.user == u
  {
    if attempts != [] {
      var n := |attempts| - 1;
      assert attempts == attempts[..n] + [attempts[n]];
      OfUserMembers(attempts[..n], u, a);
    }
  }
}
