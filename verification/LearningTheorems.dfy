/** Learning totals are counts of source events. */
module LearningTheorems {
  import opened Prelude
  import opened Sorting
  import opened Projections
  import opened ProjectionTheorems

  datatype Evidence = AcceptedMove | RejectedMove | Hint | Explanation

  /** `e` is evidence of this kind about rule `r`. */
  predicate Shows(e: Event, kind: Evidence, r: RuleId) {
    var p := e.body.payload;
    match kind
    case AcceptedMove => p.MoveEvaluated? && p.accepted && p.rule == Some(r)
    case RejectedMove => p.MoveEvaluated? && !p.accepted && p.rule == Some(r)
    case Hint => p.HintRevealed? && p.rule == Some(r)
    case Explanation => p.StepExplained? && p.explained == r
  }

  function Total(c: Counts, kind: Evidence): nat {
    match kind
    case AcceptedMove => c.accepted
    case RejectedMove => c.rejected
    case Hint => c.hints
    case Explanation => c.explanations
  }

  function LessonTotal(l: Lesson, kind: Evidence): nat {
    match kind
    case AcceptedMove => l.accepted
    case RejectedMove => l.rejected
    case Hint => l.hints
    case Explanation => l.explanations
  }

  function Showing(events: seq<Event>, kind: Evidence, r: RuleId): set<Event> {
    set e | e in events && Shows(e, kind, r)
  }

  /** The identifiers of all evidence about `r`. */
  function About(events: seq<Event>, r: RuleId): set<EventId> {
    set e | e in events && RuleOf(e.body.payload) == Some(r) :: e.body.id
  }

  lemma {:induction false} ShowingExtends(init: seq<Event>, e: Event, kind: Evidence, r: RuleId)
    ensures Showing(init + [e], kind, r) == Showing(init, kind, r) + (if Shows(e, kind, r) then {e} else {})
    ensures About(init + [e], r) == About(init, r) + (if RuleOf(e.body.payload) == Some(r) then {e.body.id} else {})
  {
    hide Shows, RuleOf;
    var events := init + [e];
    assert forall x :: x in events <==> x in init || x == e;
    forall id ensures id in About(events, r) <==> id in About(init, r) + (if RuleOf(e.body.payload) == Some(r) then {e.body.id} else {}) {
      if id in About(events, r) {
        var x :| x in events && RuleOf(x.body.payload) == Some(r) && x.body.id == id;
        assert x in init || x == e;
      }
      if id in About(init, r) {
        var x :| x in init && RuleOf(x.body.payload) == Some(r) && x.body.id == id;
        assert x in events;
      }
      if RuleOf(e.body.payload) == Some(r) && id == e.body.id {
        assert e in events;
      }
    }
  }

  lemma {:induction false} DistinctPrefix(events: seq<Event>)
    requires events != [] && DistinctIds(events)
    ensures var n := |events| - 1; DistinctIds(events[..n]) && events[n] !in events[..n] && events == events[..n] + [events[n]]
  {
    var n := |events| - 1;
    forall i, j | 0 <= i < j < n ensures events[..n][i].body.id != events[..n][j].body.id {
      assert events[i].body.id != events[j].body.id;
    }
  }

  lemma {:induction false} AbsorbTallies(a: Attempt, e: Event, kind: Evidence, r: RuleId)
    requires Absorb(a, e).Ok?
    ensures Total(CountsOf(Absorb(a, e).value.rules, r), kind) == Total(CountsOf(a.rules, r), kind) + (if Shows(e, kind, r) then 1 else 0)
    ensures var noted := if RuleOf(e.body.payload) == Some(r) then [e.body.id] else [];
      CountsOf(Absorb(a, e).value.rules, r).evidence == CountsOf(a.rules, r).evidence + noted
    ensures r in Absorb(a, e).value.rules <==> r in a.rules || RuleOf(e.body.payload) == Some(r)
  {
  }

  lemma {:induction false} ElementsExtend<T>(s: seq<T>, x: T)
    ensures Elements(s + [x]) == Elements(s) + {x} && Elements(s + []) == Elements(s)
  {
    assert s + [] == s;
  }

  /** An attempt's tallies are the numbers of its events that show each kind of evidence. */
  lemma {:induction false} AttemptTallies(events: seq<Event>, kind: Evidence, r: RuleId)
    requires DistinctIds(events) && Counted(events).Ok?
    ensures Total(CountsOf(Counted(events).value.rules, r), kind) == |Showing(events, kind, r)|
    ensures Elements(CountsOf(Counted(events).value.rules, r).evidence) == About(events, r)
    ensures r in Counted(events).value.rules <==> About(events, r) != {}
  {
    hide Absorb, Shows, RuleOf, CountsOf, Elements, DistinctIds, About, Total, Tally;
    var n := |events| - 1;
    DistinctPrefix(events);
    ShowingExtends(events[..n], events[n], kind, r);
    if n == 0 {
      StartsUntallied(events, kind, r);
    } else {
      var earlier := Counted(events[..n]).value;
      AttemptTallies(events[..n], kind, r);
      AbsorbTallies(earlier, events[n], kind, r);
      ElementsExtend(CountsOf(earlier.rules, r).evidence, events[n].body.id);
    }
  }

  lemma {:induction false} StartsUntallied(events: seq<Event>, kind: Evidence, r: RuleId)
    requires |events| == 1 && Counted(events).Ok?
    ensures Total(CountsOf(Counted(events).value.rules, r), kind) == 0 && Showing(events, kind, r) == {}
    ensures Elements(CountsOf(Counted(events).value.rules, r).evidence) == About(events, r) == {}
    ensures r !in Counted(events).value.rules
  {
    var e := events[0];
    assert events == [e];
    assert !Shows(e, kind, r) && RuleOf(e.body.payload) == None;
  }

  // ----- totals over attempts -----

  /** The events of some streams that show one kind of evidence about a rule. */
  function Evidenced(events: seq<Event>, streams: set<StreamId>, kind: Evidence, r: RuleId): set<Event> {
    set e | e in events && e.body.stream in streams && Shows(e, kind, r)
  }

  function EvidenceAbout(events: seq<Event>, streams: set<StreamId>, r: RuleId): set<EventId> {
    set e | e in events && e.body.stream in streams && RuleOf(e.body.payload) == Some(r) :: e.body.id
  }

  /** Those of some streams that hold evidence about a rule. */
  function Practised(events: seq<Event>, streams: set<StreamId>, r: RuleId): set<StreamId> {
    set e | e in events && e.body.stream in streams && RuleOf(e.body.payload) == Some(r) :: e.body.stream
  }

  function ByStream(): Attempt -> StreamId {
    (a: Attempt) => a.stream
  }

  function StreamsIn(attempts: seq<Attempt>): set<StreamId> {
    set a | a in attempts :: a.stream
  }

  /** The attempt's tallies about `r` are those of the events in the stream it names. */
  predicate Faithful(events: seq<Event>, a: Attempt, r: RuleId) {
    && (forall kind: Evidence :: Total(CountsOf(a.rules, r), kind) == |Evidenced(events, {a.stream}, kind, r)|)
    && Elements(CountsOf(a.rules, r).evidence) == EvidenceAbout(events, {a.stream}, r)
    && (r in a.rules <==> EvidenceAbout(events, {a.stream}, r) != {})
  }

  lemma {:induction false} EvidencedSplits(events: seq<Event>, streams: set<StreamId>, t: StreamId, kind: Evidence,
      r: RuleId)
    requires t !in streams
    ensures |Evidenced(events, streams + {t}, kind, r)| == |Evidenced(events, streams, kind, r)| + |Evidenced(events, {t}, kind, r)|
  {
    hide Shows;
    var a, b := Evidenced(events, streams, kind, r), Evidenced(events, {t}, kind, r);
    assert Evidenced(events, streams + {t}, kind, r) == a + b;
    assert a * b == {};
  }

  lemma {:induction false} EvidenceAboutSplits(events: seq<Event>, streams: set<StreamId>, t: StreamId, r: RuleId)
    requires t !in streams
    ensures EvidenceAbout(events, streams + {t}, r) == EvidenceAbout(events, streams, r) + EvidenceAbout(events, {t}, r)
    ensures Practised(events, streams + {t}, r) == Practised(events, streams, r) + (if EvidenceAbout(events, {t}, r) != {} then {t} else {})
  {
    hide RuleOf;
    var more := Practised(events, streams + {t}, r);
    assert EvidenceAbout(events, streams + {t}, r) == EvidenceAbout(events, streams, r) + EvidenceAbout(events, {t}, r);
    if EvidenceAbout(events, {t}, r) != {} {
      var id :| id in EvidenceAbout(events, {t}, r);
      assert t in more;
    }
    if t in more {
      var e :| e in events && e.body.stream == t && RuleOf(e.body.payload) == Some(r);
      assert e.body.id in EvidenceAbout(events, {t}, r);
    }
    assert forall u :: u != t ==> (u in more <==> u in Practised(events, streams, r));
  }

  lemma {:induction false} LessonExtends(attempts: seq<Attempt>, kind: Evidence, r: RuleId)
    requires attempts != []
    ensures var n := |attempts| - 1;
      var lesson, earlier, counts := LessonOf(attempts, r), LessonOf(attempts[..n], r), CountsOf(attempts[n].rules, r);
      && LessonTotal(lesson, kind) == LessonTotal(earlier, kind) + Total(counts, kind)
      && lesson.evidence == earlier.evidence + Elements(counts.evidence)
      && lesson.attempts == earlier.attempts + (if r in attempts[n].rules then 1 else 0)
  {
  }

  lemma {:induction false} RulesSeenExtends(attempts: seq<Attempt>, r: RuleId)
    requires attempts != []
    ensures var n := |attempts| - 1; r in RulesSeen(attempts) <==> r in RulesSeen(attempts[..n]) || r in attempts[n].rules
  {
    var n := |attempts| - 1;
    assert attempts == attempts[..n] + [attempts[n]];
    if r in attempts[n].rules {
      assert attempts[n] in attempts;
    }
    if r in RulesSeen(attempts[..n]) {
      var a :| a in attempts[..n] && r in a.rules;
      assert a in attempts;
    }
  }

  lemma {:induction false} LessonCounts(events: seq<Event>, attempts: seq<Attempt>, kind: Evidence, r: RuleId)
    requires forall a :: a in attempts ==> Faithful(events, a, r)
    requires KeysDiffer(attempts, ByStream())
    ensures LessonTotal(LessonOf(attempts, r), kind) == |Evidenced(events, StreamsIn(attempts), kind, r)|
    ensures LessonOf(attempts, r).evidence == EvidenceAbout(events, StreamsIn(attempts), r)
    ensures LessonOf(attempts, r).attempts == |Practised(events, StreamsIn(attempts), r)|
    ensures r in RulesSeen(attempts) <==> EvidenceAbout(events, StreamsIn(attempts), r) != {}
    ensures |attempts| == |StreamsIn(attempts)|
  {
    hide Evidenced, EvidenceAbout, Practised, Elements, LessonOf, CountsOf, RulesSeen, Total, LessonTotal, KeysDiffer,
      StreamsIn, Faithful;
    if attempts == [] {
      NoStreams(events, kind, r);
      NothingLearned(kind, r);
    } else {
      var n := |attempts| - 1;
      var a := attempts[n];
      var init := attempts[..n];
      StreamsExtend(attempts);
      LessonCounts(events, init, kind, r);
      EvidencedSplits(events, StreamsIn(init), a.stream, kind, r);
      EvidenceAboutSplits(events, StreamsIn(init), a.stream, r);
      PractisedWithin(events, StreamsIn(init), r);
      assert a in attempts;
      FaithfulTallies(events, a, kind, r);
      LessonExtends(attempts, kind, r);
      RulesSeenExtends(attempts, r);
    }
  }

  lemma {:induction false} FaithfulTallies(events: seq<Event>, a: Attempt, kind: Evidence, r: RuleId)
    requires Faithful(events, a, r)
    ensures Total(CountsOf(a.rules, r), kind) == |Evidenced(events, {a.stream}, kind, r)|
    ensures Elements(CountsOf(a.rules, r).evidence) == EvidenceAbout(events, {a.stream}, r)
    ensures r in a.rules <==> EvidenceAbout(events, {a.stream}, r) != {}
  {
  }

  lemma {:induction false} NothingLearned(kind: Evidence, r: RuleId)
    ensures
      && LessonOf([], r) == NO_LESSON
      && LessonTotal(NO_LESSON, kind) == 0
      && RulesSeen([]) == {}
      && StreamsIn([]) == {}
  {
  }

  lemma {:induction false} NoStreams(events: seq<Event>, kind: Evidence, r: RuleId)
    ensures Evidenced(events, {}, kind, r) == {} && EvidenceAbout(events, {}, r) == {} && Practised(events, {}, r) == {}
  {
  }

  lemma {:induction false} PractisedWithin(events: seq<Event>, streams: set<StreamId>, r: RuleId)
    ensures Practised(events, streams, r) <= streams
  {
  }

  lemma {:induction false} StreamsExtend(attempts: seq<Attempt>)
    requires attempts != [] && KeysDiffer(attempts, ByStream())
    ensures var n := |attempts| - 1; KeysDiffer(attempts[..n], ByStream()) && attempts[n].stream !in StreamsIn(attempts[..n])
    ensures var n := |attempts| - 1; StreamsIn(attempts) == StreamsIn(attempts[..n]) + {attempts[n].stream}
    ensures forall a :: a in attempts[..|attempts| - 1] ==> a in attempts
  {
    var n := |attempts| - 1;
    assert attempts == attempts[..n] + [attempts[n]];
    forall i | 0 <= i < n ensures attempts[i].stream != attempts[n].stream {
      assert ByStream()(attempts[i]) != ByStream()(attempts[n]);
    }
    forall i, j | 0 <= i < j < n ensures ByStream()(attempts[..n][i]) != ByStream()(attempts[..n][j]) {
      assert ByStream()(attempts[i]) != ByStream()(attempts[j]);
    }
    assert forall a :: a in attempts <==> a in attempts[..n] || a == attempts[n];
  }

  // ----- learning counts source events -----

  /** The streams whose attempts `u` started. */
  function StreamsOfUser(events: seq<Event>, u: UserId): set<StreamId> {
    set e | e in events && e.body.payload.AttemptStarted? && e.body.payload.user == u :: e.body.stream
  }

  lemma {:induction false} RebuiltAttemptIsFaithful(events: seq<Event>, a: Attempt, r: RuleId)
    requires ValidSource(events) && Unordered(events).Ok? && a in Unordered(events).value
    ensures Faithful(events, a, r)
  {
    hide Unordered, Counted, StreamOf, Shows, RuleOf, CountsOf;
    AttemptRebuilt(events, a);
    var s := StreamOf(events, a.stream);
    StreamMembers(events, a.stream);
    assert DistinctIds(s) by {
      forall i, j | 0 <= i < j < |s| ensures s[i].body.id != s[j].body.id {
        assert Linked(s, j);
      }
    }
    forall kind: Evidence ensures Total(CountsOf(a.rules, r), kind) == |Evidenced(events, {a.stream}, kind, r)| {
      AttemptTallies(s, kind, r);
      assert Showing(s, kind, r) == Evidenced(events, {a.stream}, kind, r);
    }
    AttemptTallies(s, AcceptedMove, r);
    SameEvidence(events, s, a.stream, r);
  }

  lemma {:induction false} SameEvidence(events: seq<Event>, s: seq<Event>, t: StreamId, r: RuleId)
    requires forall x :: x in s <==> x in events && x.body.stream == t
    ensures About(s, r) == EvidenceAbout(events, {t}, r)
  {
    hide RuleOf;
    forall id ensures id in About(s, r) <==> id in EvidenceAbout(events, {t}, r) {
      if id in About(s, r) {
        var x :| x in s && RuleOf(x.body.payload) == Some(r) && x.body.id == id;
        assert x in events;
      }
      if id in EvidenceAbout(events, {t}, r) {
        var x :| x in events && x.body.stream in {t} && RuleOf(x.body.payload) == Some(r) && x.body.id == id;
        assert x in s;
      }
    }
  }

  /** Non-empty and no two from the same stream. */
  predicate FromDifferentStreams(streams: seq<seq<Event>>) {
    && (forall i :: 0 <= i < |streams| ==> streams[i] != [])
    && (forall i, j :: 0 <= i < j < |streams| ==> streams[i][0].body.stream != streams[j][0].body.stream)
  }

  lemma {:induction false} StreamsDiffer(events: seq<Event>, ids: seq<StreamId>, kind: StreamKind)
    requires NoDuplicates(ids)
    ensures FromDifferentStreams(StreamsOfKind(events, ids, kind))
  {
    hide StreamOf;
    if ids != [] {
      var rest: seq<seq<Event>> := StreamsOfKind(events, ids[1..], kind);
      StreamsDiffer(events, ids[1..], kind);
      var s := StreamOf(events, ids[0]);
      StreamMembers(events, ids[0]);
      forall j | 0 <= j < |rest| ensures rest[j][0].body.stream != ids[0] {
        var later := rest[j];
        assert later in rest;
        StreamsMembers(events, ids[1..], kind, later);
        var t :| t in ids[1..] && later == StreamOf(events, t);
        StreamMembers(events, t);
        var first := later[0];
        assert first in later;
      }
      if s != [] {
        var first := s[0];
        assert first in s;
      }
      var streams: seq<seq<Event>> := StreamsOfKind(events, ids, kind);
      assert streams == rest || (s != [] && streams == [s] + rest);
    }
  }

  lemma {:induction false} AttemptStreamsDiffer(events: seq<Event>)
    requires Unordered(events).Ok?
    ensures KeysDiffer(Unordered(events).value, ByStream())
  {
    hide StreamIds, Counted, Chained, StreamsOfKind;
    var streams := StreamsOfKind(events, StreamIds(events), AttemptStream);
    var all := Unordered(events).value;
    StreamIdsMembers(events);
    StreamsDiffer(events, StreamIds(events), AttemptStream);
    AttemptsListed(streams);
    forall i, j | 0 <= i < j < |all| ensures ByStream()(all[i]) != ByStream()(all[j]) {
      CountedStarts(streams[i]);
      CountedStarts(streams[j]);
      assert all[i].stream != all[j].stream;
    }
  }

  lemma {:induction false} OfUserKeeps(attempts: seq<Attempt>, u: UserId)
    requires KeysDiffer(attempts, ByStream())
    ensures KeysDiffer(OfUser(attempts, u), ByStream())
    ensures forall a :: a in OfUser(attempts, u) <==> a in attempts && a.user == u
  {
    if attempts != [] {
      var n := |attempts| - 1;
      StreamsExtend(attempts);
      OfUserKeeps(attempts[..n], u);
      assert attempts == attempts[..n] + [attempts[n]];
      var earlier := OfUser(attempts[..n], u);
      var mine := OfUser(attempts, u);
      forall i, j | 0 <= i < j < |mine| ensures ByStream()(mine[i]) != ByStream()(mine[j]) {
        if j == n || mine != earlier {
          var a := mine[i];
          if j == |earlier| {
            assert a in earlier && a.stream in StreamsIn(attempts[..n]);
            assert mine[i].stream != mine[j].stream;
          }
        }
      }
    }
  }

  /** The attempts a user's learning is made of. */
  function Observed(events: seq<Event>, u: UserId): seq<Attempt>
    requires Rebuild(events).Ok?
  {
    Sort(OfUser(Rebuild(events).value.attempts, u), ByAttempt())
  }

  lemma {:induction false} ObservedAttempts(events: seq<Event>, u: UserId, r: RuleId)
    requires Rebuild(events).Ok?
    ensures KeysDiffer(Observed(events, u), ByStream())
    ensures forall a :: a in Observed(events, u) ==> Faithful(events, a, r)
    ensures StreamsIn(Observed(events, u)) == StreamsOfUser(events, u)
  {
    hide Faithful, StreamOf, AttemptOf, Sort, OfUser, Unordered, ValidSource, LearningFor;
    RebuildParts(events);
    var all := Unordered(events).value;
    var attempts := Rebuild(events).value.attempts;
    AttemptStreamsDiffer(events);
    SortKeeps(all, ByAttempt());
    KeysDifferPermutes(all, attempts, ByStream());
    OfUserKeeps(attempts, u);
    SortKeeps(OfUser(attempts, u), ByAttempt());
    KeysDifferPermutes(OfUser(attempts, u), Observed(events, u), ByStream());
    forall a | a in Observed(events, u) ensures Faithful(events, a, r) && a.stream in StreamsOfUser(events, u) {
      RebuiltAttemptIsFaithful(events, a, r);
      AttemptRebuilt(events, a);
      var e :| e in events && StartedBy(a, e);
    }
    forall t | t in StreamsOfUser(events, u) ensures t in StreamsIn(Observed(events, u)) {
      var e :| e in events && e.body.payload.AttemptStarted? && e.body.payload.user == u && e.body.stream == t;
      var a := StartIsRebuilt(events, e);
      assert a in Observed(events, u);
    }
  }

  lemma {:induction false} StatusesPartition(attempts: seq<Attempt>)
    ensures HowMany(attempts, Completed) + HowMany(attempts, Abandoned) + HowMany(attempts, Active) == |attempts|
  {
    if attempts != [] {
      StatusesPartition(attempts[..|attempts| - 1]);
    }
  }

  /** One learning view for each user who started an attempt, in ascending order. */
  lemma {:induction false} LearnersStartedAttempts(events: seq<Event>)
    requires Rebuild(events).Ok?
    ensures var learning := Rebuild(events).value.learning;
      && (forall i, j :: 0 <= i < j < |learning| ==> learning[i].user < learning[j].user)
      && (forall u :: (exists i :: 0 <= i < |learning| && learning[i].user == u) <==> StreamsOfUser(events, u) != {})
  {
    hide Sort, OfUser, Unordered, ValidSource, Ascending, StreamOf, AttemptOf, LearningOf;
    RebuildParts(events);
    var all := Unordered(events).value;
    var attempts := Rebuild(events).value.attempts;
    SortKeeps(all, ByAttempt());
    var users := Ascending(Users(attempts));
    var learning := Rebuild(events).value.learning;
    LearningUsers(attempts, users);
    forall u ensures u in users <==> StreamsOfUser(events, u) != {} {
      if u in users {
        var a :| a in attempts && a.user == u;
        AttemptRebuilt(events, a);
        var e :| e in events && StartedBy(a, e);
        assert e.body.stream in StreamsOfUser(events, u);
      }
      if t :| t in StreamsOfUser(events, u) {
        var e :| e in events && e.body.payload.AttemptStarted? && e.body.payload.user == u && e.body.stream == t;
        var a := StartIsRebuilt(events, e);
        assert a in attempts;
      }
    }
    forall u ensures (exists i :: 0 <= i < |learning| && learning[i].user == u) <==> u in users {
      if i :| 0 <= i < |users| && users[i] == u {
        assert learning[i].user == u;
      }
    }
  }

  lemma {:induction false} LearningUsers(attempts: seq<Attempt>, users: seq<UserId>)
    ensures forall i :: 0 <= i < |users| ==>
      LearningFor(attempts, users)[i] == LearningOf(users[i], Sort(OfUser(attempts, users[i]), ByAttempt()))
    ensures forall i :: 0 <= i < |users| ==> LearningFor(attempts, users)[i].user == users[i]
  {
  }

  /**
   * A user's totals about a rule are the numbers of source events showing each kind of evidence
   * in the streams of that user's attempts; a rule is listed exactly when there is evidence about it.
   */
  lemma {:induction false} LearningCountsEvents(events: seq<Event>, i: nat, kind: Evidence, r: RuleId)
    requires Rebuild(events).Ok? && i < |Rebuild(events).value.learning|
    ensures var l := Rebuild(events).value.learning[i];
      var streams := StreamsOfUser(events, l.user);
      && l.observed == |streams| == l.completed + l.abandoned + l.active
      && (r in l.rules <==> EvidenceAbout(events, streams, r) != {})
      && (r in l.rules ==> LessonTotal(l.rules[r], kind) == |Evidenced(events, streams, kind, r)|)
      && (r in l.rules ==> l.rules[r].evidence == EvidenceAbout(events, streams, r))
      && (r in l.rules ==> l.rules[r].attempts == |Practised(events, streams, r)|)
  {
    hide Sort, OfUser, Ascending, LearningFor, Evidenced, EvidenceAbout, Practised, StreamsOfUser, LessonOf, HowMany,
      Faithful, RulesSeen, StreamsIn;
    var attempts := Rebuild(events).value.attempts;
    var users := Ascending(Users(attempts));
    var l := Rebuild(events).value.learning[i];
    assert Rebuild(events).value.learning == LearningFor(attempts, users);
    LearningUsers(attempts, users);
    var u := users[i];
    var observed := Observed(events, u);
    assert l == LearningOf(u, observed);
    ObservedAttempts(events, u, r);
    LessonCounts(events, observed, kind, r);
    StatusesPartition(observed);
  }
}
