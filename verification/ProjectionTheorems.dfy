/**
 * A rebuild reads its events as a set: every enumeration of them succeeds or fails together,
 * the bundles agree exactly when different streams start different attempts, and the learning
 * totals count source events.
 */
module ProjectionTheorems {
  import opened Prelude
  import opened Sorting
  import opened Projections

  // ----- sequences with the same entries -----

  lemma {:induction false} Occurrences<T>(s: seq<T>, x: T)
    ensures multiset(s)[x] >= 2 <==> exists i, j :: 0 <= i < j < |s| && s[i] == x && s[j] == x
  {
    if s != [] {
      var n := |s| - 1;
      var init := s[..n];
      assert s == init + [s[n]];
      Occurrences(init, x);
      if s[n] == x {
        assert multiset(s)[x] == multiset(init)[x] + 1;
        if multiset(init)[x] >= 1 {
          assert x in init;
          var i :| 0 <= i < n && init[i] == x;
          assert s[i] == x && s[n] == x;
        }
        forall i, j | 0 <= i < j < |s| && s[i] == x && s[j] == x ensures multiset(init)[x] >= 1 {
          assert init[i] == x;
        }
      } else {
        assert multiset(s)[x] == multiset(init)[x];
        if i, j :| 0 <= i < j < |s| && s[i] == x && s[j] == x {
          assert init[i] == x && init[j] == x;
        }
        if i, j :| 0 <= i < j < |init| && init[i] == x && init[j] == x {
          assert s[i] == x && s[j] == x;
        }
      }
    }
  }

  ghost predicate KeysDiffer<T, K>(s: seq<T>, key: T -> K) {
    forall i, j :: 0 <= i < j < |s| ==> key(s[i]) != key(s[j])
  }

  lemma {:induction false} KeysDifferPermutes<T(!new), K>(a: seq<T>, b: seq<T>, key: T -> K)
    requires multiset(a) == multiset(b) && KeysDiffer(a, key)
    ensures KeysDiffer(b, key)
    ensures forall x, y :: x in b && y in b && key(x) == key(y) ==> x == y
  {
    SameMembers(a, b);
    forall x, y | x in a && y in a && key(x) == key(y) ensures x == y {
      var i :| 0 <= i < |a| && a[i] == x;
      var j :| 0 <= j < |a| && a[j] == y;
      assert i == j;
    }
    forall i, j | 0 <= i < j < |b| ensures key(b[i]) != key(b[j]) {
      if key(b[i]) == key(b[j]) {
        var x := b[i];
        var y := b[j];
        assert x in a && y in a;
        assert x == y;
        Occurrences(b, x);
        Occurrences(a, x);
        assert false;
      }
    }
  }

  lemma {:induction false} SameMembers<T>(a: seq<T>, b: seq<T>)
    requires multiset(a) == multiset(b)
    ensures |a| == |b|
    ensures forall x :: x in a <==> x in b
  {
    assert |multiset(a)| == |a| && |multiset(b)| == |b|;
    forall x ensures x in a <==> x in b {
      assert x in multiset(a) <==> x in a;
      assert x in multiset(b) <==> x in b;
    }
  }

  /** Moving an entry to the front. */
  function Fronted<T>(s: seq<T>, i: nat): seq<T>
    requires i < |s|
  {
    [s[i]] + s[..i] + s[i + 1..]
  }

  lemma {:induction false} FrontedPermutes<T>(s: seq<T>, i: nat)
    requires i < |s|
    ensures multiset(Fronted(s, i)) == multiset(s)
    ensures Fronted(s, i)[0] == s[i] && Fronted(s, i)[1..] == s[..i] + s[i + 1..]
  {
    assert s == s[..i] + [s[i]] + s[i + 1..];
    assert Fronted(s, i) == [s[i]] + (s[..i] + s[i + 1..]);
  }

  lemma {:induction false} RestPermutes<T>(a: seq<T>, b: seq<T>) returns (j: nat)
    requires a != [] && multiset(a) == multiset(b)
    ensures j < |b| && b[j] == a[0]
    ensures multiset(a[1..]) == multiset(b[..j] + b[j + 1..])
  {
    SameMembers(a, b);
    var x := a[0];
    assert x in b;
    j :| 0 <= j < |b| && b[j] == x;
    FrontedPermutes(b, j);
    TailMultiset(a);
    TailMultiset(Fronted(b, j));
  }

  // ----- streams -----

  lemma {:induction false} StreamCounts(events: seq<Event>, t: StreamId, x: Event)
    ensures multiset(OfStream(events, t))[x] == if x.body.stream == t then multiset(events)[x] else 0
  {
    if events != [] {
      StreamCounts(events[1..], t, x);
      assert events == [events[0]] + events[1..];
    }
  }

  lemma {:induction false} StreamMembers(events: seq<Event>, t: StreamId)
    ensures forall x :: x in StreamOf(events, t) <==> x in events && x.body.stream == t
    ensures multiset(StreamOf(events, t)) == multiset(OfStream(events, t))
  {
    SortKeeps(OfStream(events, t), BySequence());
    forall x ensures x in OfStream(events, t) <==> x in events && x.body.stream == t {
      StreamCounts(events, t, x);
      assert x in OfStream(events, t) <==> x in multiset(OfStream(events, t));
      assert x in events <==> x in multiset(events);
    }
  }

  /** A chain tells its events apart by position, so the enumeration does not show in it. */
  lemma {:induction false} StreamForgetsOrder(events: seq<Event>, other: seq<Event>, t: StreamId)
    requires multiset(events) == multiset(other) && Chained(StreamOf(events, t))
    ensures StreamOf(other, t) == StreamOf(events, t)
  {
    var a, b := OfStream(events, t), OfStream(other, t);
    assert multiset(a) == multiset(b) by {
      forall x ensures multiset(a)[x] == multiset(b)[x] {
        StreamCounts(events, t, x);
        StreamCounts(other, t, x);
      }
    }
    var sorted := StreamOf(events, t);
    StreamMembers(events, t);
    forall i, j | 0 <= i < j < |sorted| ensures BySequence()(sorted[i]) != BySequence()(sorted[j]) {
      assert Linked(sorted, i) && Linked(sorted, j);
    }
    KeysDifferPermutes(sorted, a, BySequence());
    SortForgetsOrder(a, b, BySequence());
  }

  lemma {:induction false} StreamIdsMembers(events: seq<Event>)
    ensures NoDuplicates(StreamIds(events))
    ensures forall t :: t in StreamIds(events) <==> exists x :: x in events && x.body.stream == t
  {
    if events != [] {
      var n := |events| - 1;
      StreamIdsMembers(events[..n]);
      assert events == events[..n] + [events[n]];
      forall t ensures t in StreamIds(events) <==> exists x :: x in events && x.body.stream == t {
        if t in StreamIds(events) {
          if t in StreamIds(events[..n]) {
            var x :| x in events[..n] && x.body.stream == t;
            assert x in events;
          } else {
            assert events[n] in events;
          }
        }
        if x :| x in events && x.body.stream == t {
          assert x in events[..n] || x == events[n];
        }
      }
    }
  }

  lemma {:induction false} SameSetsPermute<T>(a: seq<T>, b: seq<T>)
    requires NoDuplicates(a) && NoDuplicates(b)
    requires forall x :: x in a <==> x in b
    ensures multiset(a) == multiset(b)
  {
    forall x ensures multiset(a)[x] == multiset(b)[x] {
      Occurrences(a, x);
      Occurrences(b, x);
      assert x in multiset(a) <==> x in a;
      assert x in multiset(b) <==> x in b;
    }
  }

  lemma {:induction false} StreamIdsPermute(events: seq<Event>, other: seq<Event>)
    requires multiset(events) == multiset(other)
    ensures multiset(StreamIds(events)) == multiset(StreamIds(other))
  {
    StreamIdsMembers(events);
    StreamIdsMembers(other);
    SameMembers(events, other);
    forall t ensures t in StreamIds(events) <==> t in StreamIds(other) {
      if x :| x in events && x.body.stream == t {
        assert x in other;
      }
      if x :| x in other && x.body.stream == t {
        assert x in events;
      }
    }
    SameSetsPermute(StreamIds(events), StreamIds(other));
  }

  function ById(): Event -> EventId {
    (e: Event) => e.body.id
  }

  lemma {:induction false} DistinctIdsPermute(events: seq<Event>, other: seq<Event>)
    requires multiset(events) == multiset(other) && DistinctIds(events)
    ensures DistinctIds(other)
  {
    KeysDifferPermutes(events, other, ById());
    forall i, j | 0 <= i < j < |other| ensures other[i].body.id != other[j].body.id {
      assert ById()(other[i]) != ById()(other[j]);
    }
  }

  lemma {:induction false} ValidSourcePermutes(events: seq<Event>, other: seq<Event>)
    requires multiset(events) == multiset(other) && ValidSource(events)
    ensures ValidSource(other)
    ensures forall t :: t in StreamIds(events) ==> StreamOf(other, t) == StreamOf(events, t)
  {
    DistinctIdsPermute(events, other);
    StreamIdsPermute(events, other);
    SameMembers(StreamIds(events), StreamIds(other));
    forall t | t in StreamIds(events) ensures StreamOf(other, t) == StreamOf(events, t) {
      StreamForgetsOrder(events, other, t);
    }
  }

  // ----- streams of one kind -----

  lemma {:induction false} StreamsConcat(events: seq<Event>, a: seq<StreamId>, b: seq<StreamId>, kind: StreamKind)
    ensures StreamsOfKind(events, a + b, kind) == StreamsOfKind(events, a, kind) + StreamsOfKind(events, b, kind)
  {
    if a == [] {
      assert a + b == b;
    } else {
      assert (a + b)[1..] == a[1..] + b;
      StreamsConcat(events, a[1..], b, kind);
    }
  }

  lemma {:induction false} StreamsPermute(events: seq<Event>, a: seq<StreamId>, b: seq<StreamId>, kind: StreamKind)
    requires multiset(a) == multiset(b)
    ensures multiset(StreamsOfKind(events, a, kind)) == multiset(StreamsOfKind(events, b, kind))
  {
    hide StreamsOfKind;
    SameMembers(a, b);
    if a == [] {
      assert b == [];
    } else {
      var j := RestPermutes(a, b);
      StreamsPermute(events, a[1..], b[..j] + b[j + 1..], kind);
      StreamsConcat(events, [a[0]], a[1..], kind);
      StreamsConcat(events, b[..j], b[j + 1..], kind);
      StreamsConcat(events, b[..j], [b[j]] + b[j + 1..], kind);
      StreamsConcat(events, [b[j]], b[j + 1..], kind);
      assert a == [a[0]] + a[1..] && b == b[..j] + ([b[j]] + b[j + 1..]);
    }
  }

  lemma {:induction false} StreamsAgree(events: seq<Event>, other: seq<Event>, ids: seq<StreamId>, kind: StreamKind)
    requires forall t :: t in ids ==> StreamOf(other, t) == StreamOf(events, t)
    ensures StreamsOfKind(other, ids, kind) == StreamsOfKind(events, ids, kind)
  {
    if ids != [] {
      var t := ids[0];
      assert t in ids;
      StreamsAgree(events, other, ids[1..], kind);
    }
  }

  lemma {:induction false} StreamsMembers(events: seq<Event>, ids: seq<StreamId>, kind: StreamKind, s: seq<Event>)
    ensures s in StreamsOfKind(events, ids, kind) <==> s != [] && s[0].Kind() == kind && exists t :: t in ids && s == StreamOf(events, t)
  {
    if ids != [] {
      StreamsMembers(events, ids[1..], kind, s);
      assert ids == [ids[0]] + ids[1..];
      assert ids[0] in ids;
    }
  }

  lemma {:induction false} StreamsForgetOrder(events: seq<Event>, other: seq<Event>, kind: StreamKind)
    requires multiset(events) == multiset(other) && ValidSource(events)
    ensures multiset(StreamsOfKind(events, StreamIds(events), kind)) == multiset(StreamsOfKind(other, StreamIds(other), kind))
  {
    ValidSourcePermutes(events, other);
    StreamIdsPermute(events, other);
    StreamsAgree(events, other, StreamIds(events), kind);
    StreamsPermute(other, StreamIds(events), StreamIds(other), kind);
  }

  lemma {:induction false} SingleStreamForgetsOrder(events: seq<Event>, other: seq<Event>, kind: StreamKind)
    requires multiset(events) == multiset(other) && ValidSource(events)
    ensures SingleStream(events, kind) == SingleStream(other, kind)
  {
    hide StreamsOfKind, ValidSource, StreamIds;
    StreamsForgetOrder(events, other, kind);
    var a := StreamsOfKind(events, StreamIds(events), kind);
    var b := StreamsOfKind(other, StreamIds(other), kind);
    SameMembers(a, b);
    if |a| == 1 {
      var x := a[0];
      assert x in b;
    }
  }

  // ----- attempts -----

  lemma {:induction false} AttemptsListed(streams: seq<seq<Event>>)
    ensures AttemptsOf(streams).Ok? <==> forall s :: s in streams ==> AttemptOf(s).Ok?
    ensures AttemptsOf(streams).Err? ==> AttemptsOf(streams) == Err(InvalidValue)
    ensures AttemptsOf(streams).Ok? ==> |AttemptsOf(streams).value| == |streams|
    ensures AttemptsOf(streams).Ok? ==> forall i :: 0 <= i < |streams| ==> AttemptOf(streams[i]) == Ok(AttemptsOf(streams).value[i])
  {
    if streams != [] {
      AttemptsListed(streams[1..]);
      var first := streams[0];
      assert streams == [first] + streams[1..] && first in streams;
      AttemptErrors(first);
    }
  }

  lemma {:induction false} AttemptErrors(events: seq<Event>)
    ensures AttemptOf(events).Err? ==> AttemptOf(events) == Err(InvalidValue)
  {
    CountedErrors(events);
  }

  lemma {:induction false} CountedErrors(events: seq<Event>)
    ensures Counted(events).Err? ==> Counted(events) == Err(InvalidValue)
  {
    if |events| > 1 {
      CountedErrors(events[..|events| - 1]);
    }
  }

  lemma {:induction false} AttemptsConcat(a: seq<seq<Event>>, b: seq<seq<Event>>)
    requires AttemptsOf(a + b).Ok?
    ensures AttemptsOf(a).Ok? && AttemptsOf(b).Ok?
    ensures AttemptsOf(a + b).value == AttemptsOf(a).value + AttemptsOf(b).value
  {
    AttemptsListed(a);
    AttemptsListed(b);
    AttemptsListed(a + b);
    forall i | 0 <= i < |a| + |b| ensures AttemptsOf(a + b).value[i] == (AttemptsOf(a).value + AttemptsOf(b).value)[i] {
      assert AttemptOf((a + b)[i]) == Ok(AttemptsOf(a + b).value[i]);
    }
  }

  lemma {:induction false} AttemptsPermute(a: seq<seq<Event>>, b: seq<seq<Event>>)
    requires multiset(a) == multiset(b)
    ensures AttemptsOf(a).Ok? <==> AttemptsOf(b).Ok?
    ensures AttemptsOf(a).Ok? ==> multiset(AttemptsOf(a).value) == multiset(AttemptsOf(b).value)
  {
    hide AttemptOf, AttemptsOf;
    SameMembers(a, b);
    AttemptsListed(a);
    AttemptsListed(b);
    if AttemptsOf(a).Ok? && a == [] {
      assert b == [];
    } else if AttemptsOf(a).Ok? {
      var j := RestPermutes(a, b);
      AttemptsPermute(a[1..], b[..j] + b[j + 1..]);
      assert a == [a[0]] + a[1..] && b == b[..j] + ([b[j]] + b[j + 1..]);
      AttemptsConcat([a[0]], a[1..]);
      AttemptsConcat(b[..j], [b[j]] + b[j + 1..]);
      AttemptsConcat([b[j]], b[j + 1..]);
      AttemptsListed(b[..j] + b[j + 1..]);
      AttemptsConcat(b[..j], b[j + 1..]);
    }
  }

  /** What an attempt takes from the one event that starts it. */
  predicate StartedBy(a: Attempt, e: Event) {
    var p := e.body.payload;
    p.AttemptStarted? && a.attempt == p.attempt && a.user == p.user && a.stream == e.body.stream
  }

  lemma {:induction false} CountedStarts(events: seq<Event>)
    requires Counted(events).Ok?
    ensures events != [] && StartedBy(Counted(events).value, events[0])
    ensures forall i :: 0 < i < |events| ==> !events[i].body.payload.AttemptStarted?
  {
    if |events| > 1 {
      var n := |events| - 1;
      CountedStarts(events[..n]);
      forall i | 0 < i < |events| ensures !events[i].body.payload.AttemptStarted? {
        if i < n {
          assert events[..n][i] == events[i];
        }
      }
    }
  }

  /** The attempts of a source before they are sorted. */
  function Unordered(events: seq<Event>): Result<seq<Attempt>> {
    AttemptsOf(StreamsOfKind(events, StreamIds(events), AttemptStream))
  }

  /** Each attempt is rebuilt from the stream it names. */
  lemma {:induction false} AttemptRebuilt(events: seq<Event>, a: Attempt)
    requires Unordered(events).Ok? && a in Unordered(events).value
    ensures AttemptOf(StreamOf(events, a.stream)) == Ok(a)
    ensures exists e :: e in events && StartedBy(a, e)
  {
    hide Chained, Counted, StreamOf, StreamIds;
    var streams := StreamsOfKind(events, StreamIds(events), AttemptStream);
    AttemptsListed(streams);
    var i :| 0 <= i < |streams| && Unordered(events).value[i] == a;
    var s := streams[i];
    assert s in streams;
    StreamsMembers(events, StreamIds(events), AttemptStream, s);
    var t :| t in StreamIds(events) && s == StreamOf(events, t);
    StreamMembers(events, t);
    CountedStarts(s);
    var e := s[0];
    assert e in s;
    assert e in events && StartedBy(a, e);
  }

  /** Each event that starts an attempt starts the one rebuilt from its stream. */
  lemma {:induction false} StartIsRebuilt(events: seq<Event>, e: Event) returns (a: Attempt)
    requires ValidSource(events) && Unordered(events).Ok?
    requires e in events && e.body.payload.AttemptStarted?
    ensures AttemptOf(StreamOf(events, e.body.stream)) == Ok(a)
    ensures StartedBy(a, e) && a in Unordered(events).value
  {
    hide Counted, StreamOf, StreamIds;
    var t := e.body.stream;
    var s := StreamOf(events, t);
    StreamIdsMembers(events);
    StreamMembers(events, t);
    assert t in StreamIds(events) && e in s;
    var i :| 0 <= i < |s| && s[i] == e;
    assert Linked(s, i);
    var streams := StreamsOfKind(events, StreamIds(events), AttemptStream);
    StreamsMembers(events, StreamIds(events), AttemptStream, s);
    AttemptsListed(streams);
    var k :| 0 <= k < |streams| && streams[k] == s;
    a := Unordered(events).value[k];
    CountedStarts(s);
    assert i == 0;
  }

  /** Different attempt streams start different attempts. */
  predicate SeparateAttempts(events: seq<Event>) {
    forall x, y :: x in events && y in events && StartSameAttempt(x, y) ==> x.body.stream == y.body.stream
  }

  predicate StartSameAttempt(x: Event, y: Event) {
    var p, q := x.body.payload, y.body.payload;
    p.AttemptStarted? && q.AttemptStarted? && p.attempt == q.attempt
  }

  lemma {:induction false} SeparateAttemptsAreKeyed(events: seq<Event>)
    requires Unordered(events).Ok? && SeparateAttempts(events)
    ensures KeyedApart(Unordered(events).value, ByAttempt())
  {
    hide AttemptOf, StreamOf, Unordered;
    forall a, b | a in Unordered(events).value && b in Unordered(events).value && ByAttempt()(a) == ByAttempt()(b) ensures a == b {
      AttemptRebuilt(events, a);
      AttemptRebuilt(events, b);
      var x :| x in events && StartedBy(a, x);
      var y :| y in events && StartedBy(b, y);
      assert a.attempt == [a.attempt][0] == [b.attempt][0] == b.attempt;
    }
  }

  // ----- enumerations -----

  lemma {:induction false} UnorderedPermutes(events: seq<Event>, other: seq<Event>)
    requires multiset(events) == multiset(other) && ValidSource(events)
    ensures Unordered(events).Ok? <==> Unordered(other).Ok?
    ensures Unordered(events).Ok? ==> multiset(Unordered(events).value) == multiset(Unordered(other).value)
  {
    StreamsForgetOrder(events, other, AttemptStream);
    AttemptsPermute(StreamsOfKind(events, StreamIds(events), AttemptStream), StreamsOfKind(other, StreamIds(other), AttemptStream));
  }

  lemma {:induction false} RebuildParts(events: seq<Event>)
    requires ValidSource(events)
    ensures Rebuild(events).Ok? ==> Unordered(events).Ok? && Rebuild(events).value.attempts == Sort(Unordered(events).value, ByAttempt())
    ensures Rebuild(events).Ok? ==>
      var bundle := Rebuild(events).value;
      bundle.learning == LearningFor(bundle.attempts, Ascending(Users(bundle.attempts)))
    ensures Rebuild(events).Ok? ==> Rebuild(events).value.sources == |events|
  {
    hide ValidSource, SingleStream, AttemptsOf, StreamsOfKind, Novelty, Artifacts, LearningFor, Ascending, Users,
      Sort, StreamIds;
  }

  /** Whether a rebuild succeeds does not depend on the order its events are enumerated in. */
  lemma {:induction false} RebuildSucceedsInAnyOrder(events: seq<Event>, other: seq<Event>)
    requires multiset(events) == multiset(other)
    ensures Rebuild(events).Ok? <==> Rebuild(other).Ok?
  {
    if Rebuild(events).Ok? {
      SucceedsAgain(events, other);
    }
    if Rebuild(other).Ok? {
      SucceedsAgain(other, events);
    }
  }

  lemma {:induction false} SucceedsAgain(events: seq<Event>, other: seq<Event>)
    requires multiset(events) == multiset(other) && Rebuild(events).Ok?
    ensures Rebuild(other).Ok? && ValidSource(events)
    ensures Rebuild(other).value.novelty == Rebuild(events).value.novelty
    ensures Rebuild(other).value.artifacts == Rebuild(events).value.artifacts
  {
    hide ValidSource, SingleStream, AttemptsOf, StreamsOfKind, Novelty, Artifacts, LearningFor;
    ValidSourcePermutes(events, other);
    UnorderedPermutes(events, other);
    SingleStreamForgetsOrder(events, other, NoveltyStream);
    SingleStreamForgetsOrder(events, other, ArtifactStream);
  }

  lemma {:induction false} NoveltyErrors(events: seq<Event>)
    ensures Novelty(events).Err? ==> Novelty(events) == Err(InvalidValue)
  {
    if events != [] {
      NoveltyErrors(events[..|events| - 1]);
    }
  }

  lemma {:induction false} ArtifactErrors(events: seq<Event>)
    ensures Artifacts(events).Err? ==> Artifacts(events) == Err(InvalidValue)
  {
    if events != [] {
      ArtifactErrors(events[..|events| - 1]);
    }
  }

  lemma {:induction false} RebuildErrors(events: seq<Event>)
    ensures Rebuild(events).Err? ==> Rebuild(events) == Err(InvalidValue)
  {
    hide Novelty, Artifacts, AttemptsOf, StreamsOfKind, ValidSource;
    AttemptsListed(StreamsOfKind(events, StreamIds(events), AttemptStream));
    var novelties := SingleStream(events, NoveltyStream);
    var artifacts := SingleStream(events, ArtifactStream);
    if novelties.Ok? {
      NoveltyErrors(novelties.value);
    }
    if artifacts.Ok? {
      ArtifactErrors(artifacts.value);
    }
  }

  /** With separate attempts the whole result is the same in every order. */
  lemma {:induction false} RebuildForgetsOrder(events: seq<Event>, other: seq<Event>)
    requires multiset(events) == multiset(other) && SeparateAttempts(events)
    ensures Rebuild(other) == Rebuild(events)
  {
    hide Rebuild, Unordered, LearningFor, Ascending, Users, Sort, SeparateAttempts, KeyedApart;
    RebuildSucceedsInAnyOrder(events, other);
    RebuildErrors(events);
    RebuildErrors(other);
    if Rebuild(events).Ok? {
      SucceedsAgain(events, other);
      SucceedsAgain(other, events);
      RebuildParts(events);
      RebuildParts(other);
      UnorderedPermutes(events, other);
      SeparateAttemptsAreKeyed(events);
      SortForgetsOrder(Unordered(events).value, Unordered(other).value, ByAttempt());
      SameMembers(events, other);
    }
  }

  // ----- the converse -----

  /** The first entry with a key. */
  function FirstWith<T>(s: seq<T>, key: T -> Key, k: Key): Option<T> {
    if s == [] then None else if key(s[0]) == k then Some(s[0]) else FirstWith(s[1..], key, k)
  }

  lemma {:induction false} InsertIsFirst<T>(x: T, s: seq<T>, key: T -> Key)
    ensures FirstWith(Insert(x, s, key), key, key(x)) == Some(x)
  {
    if s == [] || LexLeq(key(x), key(s[0])) {
      assert ([x] + s)[0] == x;
    } else {
      LexTotal(key(x), key(x));
      InsertIsFirst(x, s[1..], key);
      assert Insert(x, s, key)[1..] == Insert(x, s[1..], key);
    }
  }

  /** The first stream of an enumeration comes first among the attempts that share its identifier. */
  lemma {:induction false} FirstStreamLeads(events: seq<Event>)
    requires events != [] && events[0].body.payload.AttemptStarted? && Rebuild(events).Ok?
    ensures var key := [events[0].body.payload.attempt];
      exists a :: FirstWith(Rebuild(events).value.attempts, ByAttempt(), key) == Some(a) && StartedBy(a, events[0])
  {
    hide AttemptOf, StreamOf, Novelty, Artifacts, LearningFor, SingleStream;
    var e := events[0];
    var ids := StreamIds(events);
    FirstStreamId(events);
    RebuildParts(events);
    StreamMembers(events, ids[0]);
    StreamIdsMembers(events);
    var a := StartIsRebuilt(events, e);
    var streams := StreamsOfKind(events, ids, AttemptStream);
    var s := StreamOf(events, ids[0]);
    assert e in s;
    LeadsItsKind(events, s);
    var all := Unordered(events).value;
    AttemptsListed(streams);
    assert streams[0] == s && all[0] == a;
    InsertIsFirst(a, Sort(all[1..], ByAttempt()), ByAttempt());
  }

  lemma {:induction false} FirstStreamId(events: seq<Event>)
    requires events != []
    ensures StreamIds(events) != [] && StreamIds(events)[0] == events[0].body.stream
  {
    if |events| > 1 {
      FirstStreamId(events[..|events| - 1]);
    } else {
      assert StreamIds(events[..0]) == [];
    }
  }

  lemma {:induction false} LeadsItsKind(events: seq<Event>, s: seq<Event>)
    requires events != [] && ValidSource(events) && events[0].body.payload.AttemptStarted?
    requires s == StreamOf(events, events[0].body.stream)
    ensures s != [] && s[0].Kind() == AttemptStream
  {
    hide StreamOf, StreamIds;
    var e := events[0];
    StreamMembers(events, e.body.stream);
    StreamIdsMembers(events);
    assert e in s && e.body.stream in StreamIds(events);
    var i :| 0 <= i < |s| && s[i] == e;
    assert Linked(s, i);
  }

  /** Without it, two enumerations of the same events disagree: the two attempts trade places. */
  lemma {:induction false} SharedAttemptShowsOrder(events: seq<Event>) returns (other: seq<Event>)
    requires Rebuild(events).Ok? && !SeparateAttempts(events)
    ensures multiset(other) == multiset(events) && Rebuild(other) != Rebuild(events)
  {
    hide Rebuild, StreamOf;
    var x, y :| x in events && y in events && StartSameAttempt(x, y) && x.body.stream != y.body.stream;
    var i :| 0 <= i < |events| && events[i] == x;
    var j :| 0 <= j < |events| && events[j] == y;
    var xFirst, yFirst := Fronted(events, i), Fronted(events, j);
    FrontedPermutes(events, i);
    FrontedPermutes(events, j);
    RebuildSucceedsInAnyOrder(events, xFirst);
    RebuildSucceedsInAnyOrder(events, yFirst);
    FirstStreamLeads(xFirst);
    FirstStreamLeads(yFirst);
    var k := [x.body.payload.attempt];
    var a :| FirstWith(Rebuild(xFirst).value.attempts, ByAttempt(), k) == Some(a) && StartedBy(a, x);
    var b :| FirstWith(Rebuild(yFirst).value.attempts, ByAttempt(), k) == Some(b) && StartedBy(b, y);
    assert a.stream != b.stream;
    other := if Rebuild(xFirst) == Rebuild(events) then yFirst else xFirst;
  }

  /** Independence of enumeration order is exactly the absence of a shared attempt identifier. */
  lemma {:induction false} OrderIndependence(events: seq<Event>)
    requires Rebuild(events).Ok?
    ensures SeparateAttempts(events) <==> forall other :: multiset(other) == multiset(events) ==> Rebuild(other) == Rebuild(events)
  {
    hide Rebuild, SeparateAttempts;
    if SeparateAttempts(events) {
      forall other | multiset(other) == multiset(events) ensures Rebuild(other) == Rebuild(events) {
        RebuildForgetsOrder(events, other);
      }
    } else {
      var other := SharedAttemptShowsOrder(events);
    }
  }

  lemma {:induction false} TwoStreams(events: seq<Event>, x: Event, y: Event, kind: StreamKind)
    requires StreamOf(events, x.body.stream) == [x] && StreamOf(events, y.body.stream) == [y]
    requires x.Kind() == AttemptStream && y.Kind() == AttemptStream
    ensures var ids := [x.body.stream, y.body.stream];
      StreamsOfKind(events, ids, kind) == if kind == AttemptStream then [[x], [y]] else []
  {
    hide StreamOf;
    var ids := [x.body.stream, y.body.stream];
    assert ids[1..] == [y.body.stream] && ids[1..][1..] == [];
    assert StreamsOfKind(events, ids[1..], kind) == if kind == AttemptStream then [[y]] else [];
  }

  lemma {:induction false} TwoStreamIds(x: Event, y: Event)
    requires x.body.stream != y.body.stream
    ensures StreamIds([x, y]) == [x.body.stream, y.body.stream]
  {
    assert [x, y][..1] == [x] && [x][..0] == [];
    assert StreamIds([x]) == [x.body.stream];
  }

  predicate StartsAlone(e: Event) {
    && e.body.payload.AttemptStarted? && e.body.sequenceNo == 0
    && e.body.previous == ProjectionGenesis && e.hash == OfBody(e.body)
  }

  lemma {:induction false} StartIsAccepted(e: Event)
    requires StartsAlone(e)
    ensures Chained([e]) && AttemptOf([e]).Ok?
  {
    assert Linked([e], 0);
  }

  /** Two streams may start the same attempt and still be rebuilt. */
  lemma {:induction false} SharedAttemptIsAccepted() returns (events: seq<Event>)
    ensures Rebuild(events).Ok? && !SeparateAttempts(events)
  {
    hide Chained, Linked, AttemptOf, StreamIds, StreamOf, StreamsOfKind, LearningFor, Sort, AttemptsOf;
    var b0 := Body(NamedEvent(0), NamedStream(0), 0, 0, ProjectionGenesis, AttemptStarted(7, 0, 0));
    var b1 := Body(NamedEvent(1), NamedStream(1), 0, 0, ProjectionGenesis, AttemptStarted(7, 0, 0));
    var x, y := Event(b0, OfBody(b0)), Event(b1, OfBody(b1));
    events := [x, y];
    assert x in events && y in events && StartSameAttempt(x, y);
    Singles(x, y);
    TwoStreamIds(x, y);
    StartIsAccepted(x);
    StartIsAccepted(y);
    TwoStreams(events, x, y, AttemptStream);
    TwoStreams(events, x, y, NoveltyStream);
    TwoStreams(events, x, y, ArtifactStream);
    AttemptsListed([[x], [y]]);
  }

  lemma {:induction false} Singles(x: Event, y: Event)
    requires x.body.stream != y.body.stream
    ensures StreamOf([x, y], x.body.stream) == [x] && StreamOf([x, y], y.body.stream) == [y]
  {
    assert [x, y] == [x] + [y] && [x] == [] + [x];
    forall t ensures OfStream([x, y], t) == (if x.body.stream == t then [x] else []) + (if y.body.stream == t then [y] else []) {
      OfStreamExtends([x], y, t);
      OfStreamExtends([], x, t);
    }
    assert [x][1..] == [] && [y][1..] == [];
    assert OfStream([x, y], x.body.stream) == [x];
    assert OfStream([x, y], y.body.stream) == [y];
    assert Sort<Event>([], BySequence()) == [];
  }

  // ----- the rebuild command -----

  lemma {:induction false} StreamsGrow(events: seq<Event>, ids: seq<StreamId>, i: nat, kind: StreamKind)
    requires i < |ids|
    ensures var s := StreamOf(events, ids[i]);
      var more := if s != [] && s[0].Kind() == kind then [s] else [];
      StreamsOfKind(events, ids[..i + 1], kind) == StreamsOfKind(events, ids[..i], kind) + more
  {
    assert ids[..i + 1] == ids[..i] + [ids[i]];
    StreamsConcat(events, ids[..i], [ids[i]], kind);
    assert [ids[i]][1..] == [];
  }

  lemma {:induction false} NoStreamsAtFirst(events: seq<Event>, ids: seq<StreamId>, kind: StreamKind)
    ensures StreamsOfKind(events, ids[..0], kind) == []
  {
    assert ids[..0] == [];
  }

  /** The sorted streams, in the order of their first events. */
  predicate Listed(events: seq<Event>, streams: seq<seq<Event>>) {
    && |streams| == |StreamIds(events)|
    && forall i :: 0 <= i < |streams| ==> streams[i] == StreamOf(events, StreamIds(events)[i])
  }

  /** `_validated_streams` */
  method ValidatedStreams(events: seq<Event>) returns (ok: bool, streams: seq<seq<Event>>)
    ensures ok <==> ValidSource(events)
    ensures ok ==> Listed(events, streams)
  {
    hide Chained, StreamIds, OfStream;
    var distinct, ids, grouped := GroupEvents(events);
    if !distinct {
      return false, [];
    }
    streams := [];
    for i := 0 to |ids|
      invariant |streams| == i
      invariant forall j :: 0 <= j < i ==> streams[j] == StreamOf(events, ids[j]) && Chained(streams[j])
    {
      var t := ids[i];
      assert t in ids;
      var ordered := Sort(grouped[t], BySequence());
      var failures := ChainFailures(ordered);
      if failures != 0 {
        return false, [];
      }
      streams := streams + [ordered];
    }
    ok := true;
  }

  /** `_single_stream` */
  method CanonicalStream(events: seq<Event>, streams: seq<seq<Event>>, kind: StreamKind) returns (r: Result<seq<Event>>)
    requires Listed(events, streams)
    ensures r == SingleStream(events, kind)
  {
    hide StreamIds, StreamOf, StreamsOfKind;
    var ids := StreamIds(events);
    var matching := [];
    NoStreamsAtFirst(events, ids, kind);
    for i := 0 to |streams|
      invariant matching == StreamsOfKind(events, ids[..i], kind)
    {
      StreamsGrow(events, ids, i, kind);
      if streams[i] != [] && streams[i][0].Kind() == kind {
        matching := matching + [streams[i]];
      }
    }
    assert ids[..|ids|] == ids;
    r := if |matching| > 1 then Err(InvalidValue) else Ok(if matching == [] then [] else matching[0]);
  }

  /** The attempt projections, in the order of their streams. */
  method RebuildAttempts(events: seq<Event>, streams: seq<seq<Event>>) returns (r: Result<seq<Attempt>>)
    requires Listed(events, streams)
    ensures r == Unordered(events)
  {
    hide StreamIds, StreamOf, StreamsOfKind, AttemptOf;
    var ids := StreamIds(events);
    var attempts := [];
    NoStreamsAtFirst(events, ids, AttemptStream);
    AttemptsListed([]);
    for i := 0 to |streams|
      invariant AttemptsOf(StreamsOfKind(events, ids[..i], AttemptStream)) == Ok(attempts)
    {
      StreamsGrow(events, ids, i, AttemptStream);
      if streams[i] != [] && streams[i][0].Kind() == AttemptStream {
        var earlier := StreamsOfKind(events, ids[..i], AttemptStream);
        var rebuilt := RebuildAttempt(streams[i]);
        AttemptsGrow(earlier, streams[i]);
        if rebuilt.Err? {
          StreamsConcat(events, ids[..i + 1], ids[i + 1..], AttemptStream);
          assert ids == ids[..i + 1] + ids[i + 1..];
          AttemptsStop(earlier + [streams[i]], StreamsOfKind(events, ids[i + 1..], AttemptStream));
          return Err(InvalidValue);
        }
        attempts := attempts + [rebuilt.value];
      } else {
        assert StreamsOfKind(events, ids[..i], AttemptStream) + [] == StreamsOfKind(events, ids[..i], AttemptStream);
      }
    }
    assert ids[..|ids|] == ids;
    r := Ok(attempts);
  }

  lemma {:induction false} AttemptsGrow(earlier: seq<seq<Event>>, s: seq<Event>)
    requires AttemptsOf(earlier).Ok?
    ensures AttemptOf(s).Ok? ==> AttemptsOf(earlier + [s]) == Ok(AttemptsOf(earlier).value + [AttemptOf(s).value])
    ensures AttemptOf(s).Err? ==> AttemptsOf(earlier + [s]) == Err(InvalidValue)
  {
    hide AttemptOf;
    AttemptsListed(earlier);
    AttemptsListed(earlier + [s]);
    assert s in earlier + [s];
    if AttemptOf(s).Ok? {
      forall x | x in earlier + [s] ensures AttemptOf(x).Ok? {
        assert x in earlier || x == s;
      }
      AttemptsConcat(earlier, [s]);
      AttemptsListed([s]);
      var one := AttemptsOf([s]).value;
      assert AttemptOf([s][0]) == Ok(one[0]);
      assert one == [AttemptOf(s).value];
    }
  }

  lemma {:induction false} AttemptsStop(a: seq<seq<Event>>, b: seq<seq<Event>>)
    requires AttemptsOf(a).Err?
    ensures AttemptsOf(a + b) == Err(InvalidValue)
  {
    hide AttemptOf;
    AttemptsListed(a);
    AttemptsListed(a + b);
    var s :| s in a && AttemptOf(s).Err?;
    assert s in a + b;
  }

  /** `rebuild_memory_projections` */
  method RebuildMemory(events: seq<Event>) returns (r: Result<Bundle>)
    ensures r == Rebuild(events)
  {
    hide ValidSource, StreamIds, StreamOf, StreamsOfKind, Novelty, Artifacts, LearningFor, SingleStream, AttemptsOf;
    RebuildErrors(events);
    var ok, streams := ValidatedStreams(events);
    if !ok {
      return Err(InvalidValue);
    }
    var unordered :- RebuildAttempts(events, streams);
    var attempts := Sort(unordered, ByAttempt());
    var learning := RebuildLearning(attempts);
    var novelties :- CanonicalStream(events, streams, NoveltyStream);
    var novelty :- RebuildNovelty(novelties);
    var artifactEvents :- CanonicalStream(events, streams, ArtifactStream);
    var artifacts :- RebuildArtifacts(artifactEvents);
    r := Ok(Bundle(attempts, learning, IndexOver(novelties, novelty), IndexOver(artifactEvents, artifacts), |events|));
  }
}
