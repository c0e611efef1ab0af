/** The action counts kept with a stored attempt, and the checks that guard them. */
module AttemptEvidence {
  import opened Prelude
  import opened Play

  datatype KindEvidence = KindEvidence(kind: int, accepted: nat, rejected: nat, sources: seq<EventId>)
  datatype ActionEvidence = ActionEvidence(accepted: nat, rejected: nat, kinds: seq<KindEvidence>, sources: seq<EventId>)

  /** The place of an action's kind among the alphabetically sorted kind names. */
  function KindRank(a: Action): int {
    match a
    case AssignCell(_, _) => 0
    case CheckCompletion => 1
    case ClearCell(_, _) => 2
    case CreateCheckpoint(_, _) => 3
    case ExcludeCell(_, _) => 4
    case PauseSession => 5
    case RedoMove(_) => 6
    case RestoreCheckpoint(_) => 7
    case ResumeSession => 8
    case UndoMove => 9
    case ValidateProgress => 10
  }

  function KindOf(e: PlayEvent): int {
    KindRank(e.body.action)
  }

  function OfKind(events: seq<PlayEvent>, k: int): seq<PlayEvent> {
    if events == [] then []
    else
      var n := |events| - 1;
      OfKind(events[..n], k) + (if KindOf(events[n]) == k then [events[n]] else [])
  }

  function HowMany(events: seq<PlayEvent>, accepted: bool): nat {
    if events == [] then 0
    else
      var n := |events| - 1;
      HowMany(events[..n], accepted) + (if events[n].body.accepted == accepted then 1 else 0)
  }

  function Ids(events: seq<PlayEvent>): (ids: seq<EventId>)
    ensures |ids| == |events|
  {
    seq(|events|, i requires 0 <= i < |events| => events[i].body.id)
  }

  function KindsIn(events: seq<PlayEvent>): set<int> {
    set e | e in events :: KindOf(e)
  }

  function EvidenceFor(k: int, events: seq<PlayEvent>): KindEvidence {
    KindEvidence(k, HowMany(events, true), HowMany(events, false), Ids(events))
  }

  function EvidenceOf(events: seq<PlayEvent>): ActionEvidence {
    var ks := Ascending(KindsIn(events));
    ActionEvidence(HowMany(events, true), HowMany(events, false),
                   seq(|ks|, i requires 0 <= i < |ks| => EvidenceFor(ks[i], OfKind(events, ks[i]))), Ids(events))
  }

  // ----- the validators -----

  predicate ValidKind(e: KindEvidence) {
    e.accepted + e.rejected == |e.sources| && NoDuplicates(e.sources)
  }

  function Grouped(kinds: seq<KindEvidence>): seq<EventId> {
    if kinds == [] then [] else kinds[0].sources + Grouped(kinds[1..])
  }

  /** The counts add up, kinds are in order, and the kinds' sources are all the sources. */
  predicate ValidEvidence(e: ActionEvidence) {
    && e.accepted + e.rejected == |e.sources|
    && (forall i, j :: 0 <= i < j < |e.kinds| ==> e.kinds[i].kind <= e.kinds[j].kind)
    && Elements(Grouped(e.kinds)) == Elements(e.sources) && |Grouped(e.kinds)| == |e.sources|
  }

  function BuildEvidence(events: seq<PlayEvent>): Result<ActionEvidence> {
    var e := EvidenceOf(events);
    if (forall k :: k in e.kinds ==> ValidKind(k)) && ValidEvidence(e) then Ok(e) else Err(InvalidValue)
  }

  /** `build_logic_grid_attempt_evidence`: events join a dictionary of lists, one for each kind. */
  method CollectEvidence(events: seq<PlayEvent>) returns (r: Result<ActionEvidence>)
    ensures r == BuildEvidence(events)
  {
    hide OfKind, HowMany, KindRank, KindOf, ValidKind, ValidEvidence, Ids, Ascending, KindsIn;
    var byKind: map<int, seq<PlayEvent>> := map[];
    NothingOfKind(events);
    for i := 0 to |events|
      invariant byKind.Keys == KindsIn(events[..i])
      invariant forall k :: k in byKind ==> byKind[k] == OfKind(events[..i], k)
      invariant forall k :: k !in byKind ==> OfKind(events[..i], k) == []
    {
      var e := events[i];
      assert events[..i + 1][..i] == events[..i] && events[..i + 1] == events[..i] + [e];
      var k := KindOf(e);
      KindsExtend(events[..i], e);
      byKind := byKind[k := (if k in byKind then byKind[k] else []) + [e]];
    }
    assert events[..|events|] == events;
    var ks := Ascending(byKind.Keys);
    var kinds := seq(|ks|, i requires 0 <= i < |ks| => EvidenceFor(ks[i], OfKind(events, ks[i])));
    var evidence := ActionEvidence(HowMany(events, true), HowMany(events, false), kinds, Ids(events));
    assert evidence == EvidenceOf(events);
    if (forall k :: k in kinds ==> ValidKind(k)) && ValidEvidence(evidence) {
      return Ok(evidence);
    }
    return Err(InvalidValue);
  }

  lemma {:induction false} NothingOfKind(events: seq<PlayEvent>)
    ensures KindsIn(events[..0]) == {} && forall k :: OfKind(events[..0], k) == []
  {
  }

  lemma {:induction false} KindsExtend(events: seq<PlayEvent>, e: PlayEvent)
    ensures KindsIn(events + [e]) == KindsIn(events) + {KindOf(e)}
    ensures forall k :: OfKind(events + [e], k) == OfKind(events, k) + (if KindOf(e) == k then [e] else [])
  {
    hide KindOf;
    assert (events + [e])[..|events|] == events;
    assert forall x :: x in events + [e] <==> x in events || x == e;
  }

  // ----- when they pass -----

  lemma {:induction false} Decided(events: seq<PlayEvent>)
    ensures HowMany(events, true) + HowMany(events, false) == |events|
  {
    if events != [] {
      Decided(events[..|events| - 1]);
    }
  }

  lemma {:induction false} OfKindMembers(events: seq<PlayEvent>, k: int)
    ensures forall e :: e in OfKind(events, k) <==> e in events && KindOf(e) == k
  {
    if events != [] {
      var n := |events| - 1;
      OfKindMembers(events[..n], k);
      assert events == events[..n] + [events[n]];
    }
  }

  function Groups(events: seq<PlayEvent>, ks: seq<int>): (kinds: seq<KindEvidence>)
    ensures |kinds| == |ks|
  {
    seq(|ks|, i requires 0 <= i < |ks| => EvidenceFor(ks[i], OfKind(events, ks[i])))
  }

  function OfKinds(events: seq<PlayEvent>, ks: set<int>): nat {
    if events == [] then 0
    else
      var n := |events| - 1;
      OfKinds(events[..n], ks) + (if KindOf(events[n]) in ks then 1 else 0)
  }

  lemma {:induction false} AllOfKinds(events: seq<PlayEvent>, ks: set<int>)
    requires forall e :: e in events ==> KindOf(e) in ks
    ensures OfKinds(events, ks) == |events|
  {
    if events != [] {
      var n := |events| - 1;
      assert events == events[..n] + [events[n]] && events[n] in events;
      AllOfKinds(events[..n], ks);
    }
  }

  lemma {:induction false} OneMoreKind(events: seq<PlayEvent>, k: int, ks: set<int>)
    requires k !in ks
    ensures OfKinds(events, ks + {k}) == |OfKind(events, k)| + OfKinds(events, ks)
  {
    if events != [] {
      OneMoreKind(events[..|events| - 1], k, ks);
    }
  }

  /** Grouping by different kinds keeps every event of these kinds, once. */
  lemma {:induction false} GroupedSize(events: seq<PlayEvent>, ks: seq<int>)
    requires NoDuplicates(ks)
    ensures |Grouped(Groups(events, ks))| == OfKinds(events, Elements(ks))
  {
    var groups := Groups(events, ks);
    if ks == [] {
      NoneOfKinds(events);
      assert Elements(ks) == {};
    } else {
      GroupedSize(events, ks[1..]);
      assert groups[1..] == Groups(events, ks[1..]);
      OneMoreKind(events, ks[0], Elements(ks[1..]));
      assert Elements(ks) == Elements(ks[1..]) + {ks[0]};
    }
  }

  lemma {:induction false} NoneOfKinds(events: seq<PlayEvent>)
    ensures OfKinds(events, {}) == 0
  {
    if events != [] {
      NoneOfKinds(events[..|events| - 1]);
    }
  }

  lemma {:induction false} GroupedMembers(events: seq<PlayEvent>, ks: seq<int>, id: EventId)
    ensures id in Grouped(Groups(events, ks)) <==> exists e :: e in events && KindOf(e) in ks && e.body.id == id
  {
    var groups := Groups(events, ks);
    if ks != [] {
      GroupedMembers(events, ks[1..], id);
      assert groups[1..] == Groups(events, ks[1..]);
      OfKindMembers(events, ks[0]);
      var first := OfKind(events, ks[0]);
      assert ks == [ks[0]] + ks[1..];
      IdsMembers(first, id);
    }
  }

  lemma {:induction false} IdsMembers(events: seq<PlayEvent>, id: EventId)
    ensures id in Ids(events) <==> exists e :: e in events && e.body.id == id
  {
    if id in Ids(events) {
      var i :| 0 <= i < |events| && Ids(events)[i] == id;
      assert events[i] in events;
    }
    if e :| e in events && e.body.id == id {
      var i :| 0 <= i < |events| && events[i] == e;
      assert Ids(events)[i] == id;
    }
  }

  /** The evidence passes its checks exactly when no kind names an event identifier twice. */
  lemma {:induction false} EvidenceStands(events: seq<PlayEvent>)
    ensures BuildEvidence(events).Ok? <==> forall k :: k in KindsIn(events) ==> NoDuplicates(Ids(OfKind(events, k)))
  {
    hide OfKind, HowMany, Grouped, Ascending, OfKinds, Ids;
    var ks := Ascending(KindsIn(events));
    var kinds := Groups(events, ks);
    AscendingElements(KindsIn(events));
    assert EvidenceOf(events).kinds == kinds;
    Decided(events);
    GroupedSize(events, ks);
    AllOfKinds(events, Elements(ks));
    forall id ensures id in Grouped(kinds) <==> id in Ids(events) {
      GroupedMembers(events, ks, id);
      IdsMembers(events, id);
    }
    assert Elements(Grouped(kinds)) == Elements(Ids(events));
    assert ValidEvidence(EvidenceOf(events));
    forall i | 0 <= i < |ks| ensures ValidKind(kinds[i]) <==> NoDuplicates(Ids(OfKind(events, ks[i]))) {
      Decided(OfKind(events, ks[i]));
    }
    if forall k :: k in kinds ==> ValidKind(k) {
      forall k | k in KindsIn(events) ensures NoDuplicates(Ids(OfKind(events, k))) {
        assert k in ks;
        var i :| 0 <= i < |ks| && ks[i] == k;
        var kind := kinds[i];
        assert kind in kinds;
      }
    }
    if forall k :: k in KindsIn(events) ==> NoDuplicates(Ids(OfKind(events, k))) {
      forall kind | kind in kinds ensures ValidKind(kind) {
        var i :| 0 <= i < |kinds| && kinds[i] == kind;
        var k := ks[i];
        assert k in ks;
      }
    }
  }

  predicate IdsDiffer(events: seq<PlayEvent>) {
    forall i, j :: 0 <= i < j < |events| ==> events[i].body.id != events[j].body.id
  }

  lemma {:induction false} IdsDifferByKind(events: seq<PlayEvent>, k: int)
    requires IdsDiffer(events)
    ensures IdsDiffer(OfKind(events, k))
  {
    if events != [] {
      var n := |events| - 1;
      var e := events[n];
      IdsDifferByKind(events[..n], k);
      OfKindMembers(events[..n], k);
      var earlier := OfKind(events[..n], k);
      forall i | 0 <= i < |earlier| ensures earlier[i].body.id != e.body.id {
        var x := earlier[i];
        assert x in earlier;
        var j :| 0 <= j < n && events[..n][j] == x;
        assert events[j] == x;
      }
    }
  }

  /** In particular different event identifiers are enough. */
  lemma {:induction false} DistinctEventsStand(events: seq<PlayEvent>)
    requires IdsDiffer(events)
    ensures BuildEvidence(events).Ok?
  {
    hide BuildEvidence, OfKind;
    EvidenceStands(events);
    forall k | k in KindsIn(events) ensures NoDuplicates(Ids(OfKind(events, k))) {
      IdsDifferByKind(events, k);
    }
  }

  // ----- what they say -----

  /** Two actions are of one kind when they are built alike. */
  predicate SameKind(a: Action, b: Action) {
    match a
    case AssignCell(_, _) => b.AssignCell?
    case CheckCompletion => b.CheckCompletion?
    case ClearCell(_, _) => b.ClearCell?
    case CreateCheckpoint(_, _) => b.CreateCheckpoint?
    case ExcludeCell(_, _) => b.ExcludeCell?
    case PauseSession => b.PauseSession?
    case RedoMove(_) => b.RedoMove?
    case RestoreCheckpoint(_) => b.RestoreCheckpoint?
    case ResumeSession => b.ResumeSession?
    case UndoMove => b.UndoMove?
    case ValidateProgress => b.ValidateProgress?
  }

  /** Where events with this outcome stand, of every kind or of the kind of one action. */
  ghost function Places(events: seq<PlayEvent>, like: Option<Action>, accepted: bool): set<nat> {
    set i: nat | i < |events| && events[i].body.accepted == accepted
      && (like.Some? ==> SameKind(events[i].body.action, like.value))
  }

  /** The counts are the numbers of such places, and the sources are the events' identifiers. */
  ghost predicate Summarizes(k: KindEvidence, events: seq<PlayEvent>, like: Action) {
    && k.kind == KindRank(like)
    && k.accepted == |Places(events, Some(like), true)| && k.rejected == |Places(events, Some(like), false)|
    && forall id :: id in k.sources <==> exists e :: e in events && SameKind(e.body.action, like) && e.body.id == id
  }

  /** The evidence lists all events in order, counts the accepted and the rejected ones, and has one entry for
      each kind of action that occurs, in the order of the kinds, that summarizes the events of this kind. */
  lemma {:induction false} EvidenceExactly(events: seq<PlayEvent>)
    requires BuildEvidence(events).Ok?
    ensures var evidence := BuildEvidence(events).value;
      && |evidence.sources| == |events|
      && (forall i :: 0 <= i < |events| ==> evidence.sources[i] == events[i].body.id)
      && evidence.accepted == |Places(events, None, true)| && evidence.rejected == |Places(events, None, false)|
      && (forall i, j :: 0 <= i < j < |evidence.kinds| ==> evidence.kinds[i].kind < evidence.kinds[j].kind)
      && (forall e :: e in events ==> exists k :: k in evidence.kinds && Summarizes(k, events, e.body.action))
      && (forall k :: k in evidence.kinds ==> exists e :: e in events && Summarizes(k, events, e.body.action))
  {
    hide KindRank, SameKind, HowMany, OfKind, Ascending, Places, Summarizes, ValidKind, ValidEvidence, KindsIn;
    CountedPlaces(events, true);
    CountedPlaces(events, false);
    var kinds := BuildEvidence(events).value.kinds;
    assert kinds == EvidenceOf(events).kinds;
    forall e | e in events ensures exists k :: k in kinds && Summarizes(k, events, e.body.action) {
      var k := KindListed(events, e);
    }
    forall k | k in kinds ensures exists e :: e in events && Summarizes(k, events, e.body.action) {
      var i :| 0 <= i < |kinds| && kinds[i] == k;
      var e := ListedKind(events, i);
    }
  }

  lemma {:induction false} KindListed(events: seq<PlayEvent>, e: PlayEvent) returns (k: KindEvidence)
    requires e in events
    ensures k in EvidenceOf(events).kinds && Summarizes(k, events, e.body.action)
  {
    hide KindRank, SameKind, HowMany, OfKind, Ids, Ascending, Places, Summarizes;
    var ks := Ascending(KindsIn(events));
    var kind := KindOf(e);
    assert kind in KindsIn(events) && kind in ks;
    var i :| 0 <= i < |ks| && ks[i] == kind;
    KindSummarized(events, e.body.action);
    k := EvidenceOf(events).kinds[i];
  }

  lemma {:induction false} ListedKind(events: seq<PlayEvent>, i: nat) returns (e: PlayEvent)
    requires i < |EvidenceOf(events).kinds|
    ensures e in events && Summarizes(EvidenceOf(events).kinds[i], events, e.body.action)
  {
    hide KindRank, SameKind, HowMany, OfKind, Ids, Ascending, Places, Summarizes;
    var ks := Ascending(KindsIn(events));
    var kind := ks[i];
    assert kind in ks && kind in KindsIn(events);
    e :| e in events && KindOf(e) == kind;
    KindSummarized(events, e.body.action);
  }

  lemma {:induction false} RanksTellKinds(a: Action, b: Action)
    ensures KindRank(a) == KindRank(b) <==> SameKind(a, b)
  {
  }

  lemma {:induction false} CountedPlaces(events: seq<PlayEvent>, accepted: bool)
    ensures HowMany(events, accepted) == |Places(events, None, accepted)|
  {
    if events != [] {
      var n := |events| - 1;
      CountedPlaces(events[..n], accepted);
      var last: set<nat> := if events[n].body.accepted == accepted then {n} else {};
      assert Places(events, None, accepted) == Places(events[..n], None, accepted) + last;
    }
  }

  lemma {:induction false} KindCounted(events: seq<PlayEvent>, like: Action, accepted: bool)
    ensures HowMany(OfKind(events, KindRank(like)), accepted) == |Places(events, Some(like), accepted)|
  {
    hide KindRank, SameKind;
    if events != [] {
      var n := |events| - 1;
      var e := events[n];
      KindCounted(events[..n], like, accepted);
      RanksTellKinds(e.body.action, like);
      var earlier := OfKind(events[..n], KindRank(like));
      assert (earlier + [e])[..|earlier|] == earlier && earlier + [] == earlier;
      var last: set<nat> := if SameKind(e.body.action, like) && e.body.accepted == accepted then {n} else {};
      assert Places(events, Some(like), accepted) == Places(events[..n], Some(like), accepted) + last;
    }
  }

  lemma {:induction false} KindSummarized(events: seq<PlayEvent>, like: Action)
    ensures Summarizes(EvidenceFor(KindRank(like), OfKind(events, KindRank(like))), events, like)
  {
    hide KindRank, SameKind, HowMany, OfKind, Ids, Places;
    var mine := OfKind(events, KindRank(like));
    KindCounted(events, like, true);
    KindCounted(events, like, false);
    OfKindMembers(events, KindRank(like));
    forall id
      ensures id in Ids(mine) <==> exists e :: e in events && SameKind(e.body.action, like) && e.body.id == id
    {
      IdsMembers(mine, id);
      forall e ensures e in mine <==> e in events && SameKind(e.body.action, like) {
        RanksTellKinds(e.body.action, like);
      }
    }
  }
}
