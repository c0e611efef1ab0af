/** What every reachable play session keeps. */
module PlayTheorems {
  import opened Prelude
  import opened Domain
  import opened Sorting
  import opened Solutions
  import opened State
  import opened LogicGrid
  import opened Play

  // ----- walking the move tree -----

  ghost predicate Grows(moves: Moves, more: Moves) {
    forall n :: n in moves ==> n in more && more[n] == moves[n]
  }

  /** Later moves do not disturb a path. */
  lemma {:induction false} PathGrows(moves: Moves, more: Moves, at: Option<EventId>, seen: set<EventId>)
    requires Grows(moves, more) && Path(moves, at, seen).Ok?
    ensures Path(more, at, seen) == Path(moves, at, seen)
    decreases |moves.Keys - seen|
  {
    if at.Some? {
      var n := at.value;
      assert moves.Keys - (seen + {n}) == moves.Keys - seen - {n};
      PathGrows(moves, more, moves[n].body.parent, seen + {n});
    }
  }

  lemma {:induction false} PathNeedsLess(moves: Moves, at: Option<EventId>, seen: set<EventId>, fewer: set<EventId>)
    requires Path(moves, at, seen).Ok? && fewer <= seen
    ensures Path(moves, at, fewer) == Path(moves, at, seen)
    decreases |moves.Keys - seen|
  {
    if at.Some? {
      var n := at.value;
      assert moves.Keys - (seen + {n}) == moves.Keys - seen - {n};
      PathNeedsLess(moves, moves[n].body.parent, seen + {n}, fewer + {n});
    }
  }

  lemma {:induction false} PathAvoidsStrangers(moves: Moves, at: Option<EventId>, seen: set<EventId>, x: EventId)
    requires Path(moves, at, seen).Ok? && x !in moves
    ensures Path(moves, at, seen + {x}) == Path(moves, at, seen)
    decreases |moves.Keys - seen|
  {
    if at.Some? {
      var n := at.value;
      assert moves.Keys - (seen + {n}) == moves.Keys - seen - {n};
      PathAvoidsStrangers(moves, moves[n].body.parent, seen + {n}, x);
      assert seen + {n} + {x} == seen + {x} + {n};
    }
  }

  lemma {:induction false} PathMembers(moves: Moves, at: Option<EventId>, seen: set<EventId>)
    requires Path(moves, at, seen).Ok?
    ensures forall e :: e in Path(moves, at, seen).value ==> exists n :: n in moves && moves[n] == e
    decreases |moves.Keys - seen|
  {
    if at.Some? {
      var n := at.value;
      assert moves.Keys - (seen + {n}) == moves.Keys - seen - {n};
      PathMembers(moves, moves[n].body.parent, seen + {n});
    }
  }

  /** The path to a move is the path to its parent and the move itself. */
  lemma {:induction false} PathOfMove(moves: Moves, n: EventId)
    requires n in moves && Path(moves, Some(n), {}).Ok?
    ensures Path(moves, moves[n].body.parent, {}).Ok?
    ensures Path(moves, Some(n), {}).value == Path(moves, moves[n].body.parent, {}).value + [moves[n]]
  {
    PathNeedsLess(moves, moves[n].body.parent, {} + {n}, {});
  }

  /** A fresh move hangs below its parent. */
  lemma {:induction false} PathOfNewMove(moves: Moves, e: PlayEvent)
    requires e.body.id !in moves && Path(moves, e.body.parent, {}).Ok?
    ensures var more := moves[e.body.id := e];
      Path(more, Some(e.body.id), {}) == Ok(Path(moves, e.body.parent, {}).value + [e])
  {
    var id := e.body.id;
    var more := moves[id := e];
    PathAvoidsStrangers(moves, e.body.parent, {}, id);
    PathGrows(moves, more, e.body.parent, {} + {id});
  }

  /** Every move can be reached from the root. */
  ghost predicate Rooted(moves: Moves) {
    forall n :: n in moves ==> Path(moves, Some(n), {}).Ok?
  }

  predicate AtNode(moves: Moves, at: Option<EventId>) {
    at.Some? ==> at.value in moves
  }

  ghost predicate CellMoves(moves: Moves) {
    forall n :: n in moves ==> moves[n].body.action.IsCell()
  }

  lemma {:induction false} NodeProjects(puzzle: Puzzle, moves: Moves, at: Option<EventId>)
    requires Rooted(moves) && CellMoves(moves) && AtNode(moves, at)
    ensures Path(moves, at, {}).Ok? && OnlyCells(Path(moves, at, {}).value)
    ensures Project(puzzle, moves, at) == Ok(Follow(GivenMarks(puzzle), Path(moves, at, {}).value))
  {
    PathMembers(moves, at, {});
    var path := Path(moves, at, {}).value;
    forall i | 0 <= i < |path| ensures path[i].body.action.IsCell() {
      assert path[i] in path;
    }
  }

  /** Projecting a node is projecting its parent and applying the node's action. */
  lemma {:induction false} MoveProjects(puzzle: Puzzle, moves: Moves, n: EventId)
    requires Rooted(moves) && CellMoves(moves) && n in moves
    ensures Project(puzzle, moves, moves[n].body.parent).Ok?
    ensures Project(puzzle, moves, Some(n))
      == Ok(Mark(Project(puzzle, moves, moves[n].body.parent).value, moves[n].body.action))
  {
    PathOfMove(moves, n);
    var above, path := Path(moves, moves[n].body.parent, {}).value, Path(moves, Some(n), {}).value;
    NodeProjects(puzzle, moves, Some(n));
    assert path[..|above|] == above;
    assert forall i :: 0 <= i < |above| ==> above[i] == path[i];
  }

  lemma {:induction false} ParentIsNode(moves: Moves, n: EventId)
    requires Rooted(moves) && n in moves
    ensures AtNode(moves, moves[n].body.parent)
  {
    PathOfMove(moves, n);
  }

  lemma {:induction false} ProjectGrows(puzzle: Puzzle, moves: Moves, more: Moves, at: Option<EventId>)
    requires Grows(moves, more) && Project(puzzle, moves, at).Ok?
    ensures Project(puzzle, more, at) == Project(puzzle, moves, at)
  {
    PathGrows(moves, more, at, {});
  }

  // ----- marks -----

  /** No cell is both assigned and excluded. */
  ghost predicate Unmixed(marks: Marks) {
    forall v :: v in marks.assignments ==> (v, marks.assignments[v]) !in marks.exclusions
  }

  /** The given cells, and every cell of an assigned given item, are as the puzzle gives them. */
  ghost predicate KeepsGivens(puzzle: Puzzle, marks: Marks) {
    var given := GivenMarks(puzzle);
    && (forall v :: v in given.assignments ==> v in marks.assignments && marks.assignments[v] == given.assignments[v])
    && (forall v, x :: v in given.assignments ==> ((v, x) in marks.exclusions <==> (v, x) in given.exclusions))
    && given.exclusions <= marks.exclusions
  }

  ghost predicate Proper(puzzle: Puzzle, marks: Marks) {
    Unmixed(marks) && KeepsGivens(puzzle, marks)
  }

  lemma {:induction false} MarkKeepsProper(spec: GridSpec, marks: Marks, action: Action)
    requires Shaped(spec) && action.IsCell() && CellRejection(spec, action).None? && Proper(spec.puzzle, marks)
    ensures Proper(spec.puzzle, Mark(marks, action))
  {
  }

  ghost predicate Permitted(spec: GridSpec, moves: Moves)
    requires Shaped(spec)
  {
    forall n :: n in moves ==> moves[n].body.action.IsCell() && CellRejection(spec, moves[n].body.action).None?
  }

  lemma {:induction false} FollowKeepsProper(spec: GridSpec, marks: Marks, path: seq<PlayEvent>)
    requires Shaped(spec) && Proper(spec.puzzle, marks)
    requires forall e :: e in path ==> e.body.action.IsCell() && CellRejection(spec, e.body.action).None?
    ensures Proper(spec.puzzle, Follow(marks, path))
  {
    hide Proper, CellRejection, Mark;
    if path != [] {
      var n := |path| - 1;
      FollowKeepsProper(spec, marks, path[..n]);
      assert path[n] in path;
      MarkKeepsProper(spec, Follow(marks, path[..n]), path[n].body.action);
    }
  }

  lemma {:induction false} GivenLookup(givens: seq<Atom>)
    ensures forall v :: v in GivenAssignments(givens) ==> AssignmentAtom(v, GivenAssignments(givens)[v]) in givens
    ensures forall g :: g in givens && g.AssignmentAtom? ==> g.variable in GivenAssignments(givens)
  {
    if givens != [] {
      var n := |givens| - 1;
      GivenLookup(givens[..n]);
      assert givens == givens[..n] + [givens[n]];
    }
  }

  lemma {:induction false} GivensAreProper(spec: GridSpec)
    requires Valid(spec)
    ensures Proper(spec.puzzle, GivenMarks(spec.puzzle))
  {
    hide ValidCategories, ValidConstraints, Anchor;
    var marks, givens := GivenMarks(spec.puzzle), spec.puzzle.givens;
    GivenLookup(givens);
    forall v | v in marks.assignments ensures (v, marks.assignments[v]) !in marks.exclusions {
      var g := AssignmentAtom(v, marks.assignments[v]);
      assert g in givens;
      forall h | h in givens && h.ExclusionAtom? ensures (h.variable, h.value) != (v, marks.assignments[v]) {
        assert !Clash(spec, g, h);
      }
    }
  }

  /** At every node the givens hold and no cell is both assigned and excluded. */
  lemma {:induction false} NodesAreProper(spec: GridSpec, moves: Moves, at: Option<EventId>)
    requires Valid(spec) && Rooted(moves) && Permitted(spec, moves) && AtNode(moves, at)
    ensures Project(spec.puzzle, moves, at).Ok? && Proper(spec.puzzle, Project(spec.puzzle, moves, at).value)
  {
    hide Proper, ValidCategories, ValidConstraints, ValidGivens;
    GivensAreProper(spec);
    NodeProjects(spec.puzzle, moves, at);
    PathMembers(moves, at, {});
    FollowKeepsProper(spec, GivenMarks(spec.puzzle), Path(moves, at, {}).value);
  }

  // ----- the stream and its moves -----

  ghost predicate UniqueIds(events: seq<PlayEvent>) {
    forall i, j :: 0 <= i < j < |events| ==> events[i].body.id != events[j].body.id
  }

  lemma {:induction false} MovesAreKnown(events: seq<PlayEvent>)
    ensures forall n :: n in MoveEvents(events) ==> MoveEvents(events)[n] in events && KnownId(events, n)
  {
    if events != [] {
      var n := |events| - 1;
      MovesAreKnown(events[..n]);
      forall k | k in MoveEvents(events) ensures MoveEvents(events)[k] in events && KnownId(events, k) {
        var e := MoveEvents(events)[k];
        if k in MoveEvents(events[..n]) && MoveEvents(events[..n])[k] == e {
          assert e in events[..n];
        }
      }
    }
  }

  lemma {:induction false} MovesAppend(events: seq<PlayEvent>, e: PlayEvent)
    ensures MoveEvents(events + [e])
      == if e.IsMove() then MoveEvents(events)[e.body.id := e] else MoveEvents(events)
  {
    assert (events + [e])[..|events|] == events;
  }

  lemma {:induction false} FreshMovesGrow(events: seq<PlayEvent>, e: PlayEvent)
    requires !KnownId(events, e.body.id)
    ensures Grows(MoveEvents(events), MoveEvents(events + [e])) && e.body.id !in MoveEvents(events)
  {
    MovesAppend(events, e);
    MovesAreKnown(events);
  }

  // ----- the invariant -----

  /** The cursor and every checkpoint point into the tree, and the marks are those of the cursor. */
  ghost predicate Anchored(spec: GridSpec, moves: Moves, view: View)
    requires Shaped(spec)
  {
    && AtNode(moves, view.head)
    && Project(spec.puzzle, moves, view.head) == Ok(view.marks)
    && forall k :: k in view.checkpoints ==> AtNode(moves, k.move)
  }

  /** Checkpoints were named by retained events, in order. */
  ghost predicate Dated(view: View, events: seq<PlayEvent>) {
    forall k :: k in view.checkpoints ==> KnownId(events, k.id) && k.captured <= |events|
  }

  /** No node of the tree shows a structural conflict. */
  ghost predicate Peaceful(spec: GridSpec, moves: Moves)
    requires Shaped(spec)
  {
    && Conflicts(spec, GivenMarks(spec.puzzle)) == []
    && forall n :: n in moves ==>
         Project(spec.puzzle, moves, Some(n)).Ok? && Conflicts(spec, Project(spec.puzzle, moves, Some(n)).value) == []
  }

  /** A strict session that starts without conflicts has none anywhere. */
  ghost predicate StrictlyPeaceful(spec: GridSpec, moves: Moves, mode: Mode)
    requires Shaped(spec)
  {
    mode.Strict? && Conflicts(spec, GivenMarks(spec.puzzle)) == [] ==> Peaceful(spec, moves)
  }

  ghost predicate Tree(spec: GridSpec, moves: Moves)
    requires Shaped(spec)
  {
    Rooted(moves) && Permitted(spec, moves)
  }

  /** What every session reachable by actions satisfies. */
  ghost predicate Sane(spec: GridSpec, s: Session)
    requires Shaped(spec)
  {
    var moves := MoveEvents(s.events);
    && s.view.revision == spec.puzzle.revision && |s.events| <= MAX_PLAY_EVENTS
    && WellShaped(s.view) && UniqueIds(s.events) && Dated(s.view, s.events)
    && Tree(spec, moves) && Anchored(spec, moves, s.view)
    && StrictlyPeaceful(spec, moves, s.view.mode)
    && (s.view.status.Completed? ==> Accepts(spec, s.view.marks.assignments))
  }

  // ----- conflicts -----

  lemma {:induction false} ConflictsInOrder(spec: GridSpec, marks: Marks)
    requires Shaped(spec)
    ensures var cs := Conflicts(spec, marks);
      forall i, j :: 0 <= i < j < |cs| ==> LexLeq(ConflictOrder()(cs[i]), ConflictOrder()(cs[j]))
  {
    hide ExhaustedConflicts, CategoryConflicts, ConflictOrder, LexLeq;
    var found := ExhaustedConflicts(spec, marks, Ascending(spec.puzzle.variables.Keys)) + CategoryConflicts(spec.categories, marks);
    SortKeeps(found, ConflictOrder());
    forall i, j | 0 <= i < j < |Sort(found, ConflictOrder())|
      ensures LexLeq(ConflictOrder()(Sort(found, ConflictOrder())[i]), ConflictOrder()(Sort(found, ConflictOrder())[j]))
    {
      OrderedIsSorted(Sort(found, ConflictOrder()), ConflictOrder(), i, j);
    }
  }

  // ----- completion -----

  /** Completion is accepted exactly when the final checker accepts the assignments. */
  lemma {:induction false} CompletionMeansAccepted(s: Session, spec: GridSpec)
    requires Shaped(spec)
    ensures DecideCompletion(s, spec).accepted <==> Accepts(spec, s.view.marks.assignments)
  {
    var a := s.view.marks.assignments;
    var listing := Listed(a);
    ListedReadsBack(a);
    ListedEntries(a);
  }

  // ----- one decision -----

  /** A decision that leaves the tree alone leads to a well-anchored, well-shaped view. */
  ghost predicate Settles(s: Session, spec: GridSpec, id: EventId, d: Decision)
    requires Shaped(spec)
  {
    && d.view.revision == s.view.revision && d.view.mode == s.view.mode && d.view.attempt == s.view.attempt
    && WellShaped(d.view) && Anchored(spec, MoveEvents(s.events), d.view)
    && (forall k :: k in d.view.checkpoints ==> k in s.view.checkpoints || (k.id == id && k.captured == |s.events|))
    && (d.view.status.Completed? ==> Accepts(spec, d.view.marks.assignments))
  }

  lemma {:induction false} RefusalSettles(s: Session, spec: GridSpec, id: EventId, code: Code)
    requires Shaped(spec) && Sane(spec, s)
    ensures Settles(s, spec, id, Refuse(s, code))
  {
  }

  /** Changing only the status, or only the conflicts, settles. */
  lemma {:induction false} UpdateSettles(s: Session, spec: GridSpec, id: EventId, d: Decision)
    requires Shaped(spec) && Sane(spec, s)
    requires d.view == s.view.(status := d.view.status, conflicts := d.view.conflicts)
    requires d.view.conflicts == s.view.conflicts || d.view.conflicts == [] || d.view.conflicts == Conflicts(spec, s.view.marks)
    requires d.view.status.Completed? ==> Accepts(spec, s.view.marks.assignments)
    ensures Settles(s, spec, id, d)
  {
    hide Conflicts, Accepts, Project, Tree, StrictlyPeaceful, UniqueIds, MoveEvents;
    ConflictsInOrder(spec, s.view.marks);
  }

  lemma {:induction false} MoveSettles(s: Session, spec: GridSpec, id: EventId, accepted: bool, code: Code,
      target: Option<EventId>)
    requires
      && Shaped(spec)
      && Valid(spec)
      && Sane(spec, s)
      && s.view.status.Active?
      && AtNode(MoveEvents(s.events), target)
    ensures MoveTo(s, spec, accepted, code, target).Ok?
    ensures Settles(s, spec, id, MoveTo(s, spec, accepted, code, target).value)
  {
    hide Conflicts, Accepts, Project, StrictlyPeaceful, UniqueIds, MoveEvents, KeepsGivens, ValidCategories, ValidConstraints, ValidGivens,
      Rooted, Permitted;
    NodesAreProper(spec, MoveEvents(s.events), target);
    ConflictsInOrder(spec, Project(spec.puzzle, MoveEvents(s.events), target).value);
  }

  lemma {:induction false} CheckpointSettles(s: Session, spec: GridSpec, id: EventId, name: Identifier,
      folded: Identifier)
    requires Shaped(spec) && Sane(spec, s) && !KnownId(s.events, id)
    ensures Settles(s, spec, id, DecideCheckpoint(s, id, name, folded))
  {
    hide Conflicts, Accepts, Project, Tree, StrictlyPeaceful, UniqueIds, MoveEvents, ConflictOrder, LexLeq;
    var ks := s.view.checkpoints;
    var d := DecideCheckpoint(s, id, name, folded);
    forall i | 0 <= i < |ks| ensures ks[i] in ks && ks[i].id != id && ks[i].captured <= |s.events| {
      assert ks[i] in ks;
    }
    if d.accepted {
      forall i | 0 <= i < |ks| ensures ks[i].folded != folded {
        assert ks[i] in ks;
      }
    }
  }

  lemma {:induction false} FoundCheckpoint(ks: seq<Checkpoint>, i: nat)
    requires i < |ks| && forall j :: 0 <= j < i ==> ks[j].id != ks[i].id
    ensures FindCheckpoint(ks, ks[i].id) == Some(ks[i])
  {
    if i > 0 {
      assert forall j :: 0 <= j < i - 1 ==> ks[1..][j] == ks[j + 1];
      assert ks[1..][i - 1] == ks[i] && ks[0].id != ks[i].id;
      FoundCheckpoint(ks[1..], i - 1);
    }
  }

  /** The action is a cell action that the session accepts. */
  predicate Adds(s: Session, spec: GridSpec, id: EventId, action: Action)
    requires Shaped(spec)
  {
    && s.view.status.Active? && action.IsCell()
    && DecideCell(s, spec, id, action).accepted
  }

  lemma {:induction false} ActiveDecisionSettles(s: Session, spec: GridSpec, id: EventId, action: Action)
    requires Shaped(spec) && Valid(spec) && Sane(spec, s) && !KnownId(s.events, id) && !Adds(s, spec, id, action)
    requires s.view.status.Active?
    requires !action.ResumeSession? && !action.PauseSession? && !action.CreateCheckpoint?
    ensures Decide(s, spec, id, action).Ok? && Settles(s, spec, id, Decide(s, spec, id, action).value)
  {
    hide Valid, Conflicts, Accepts, Project, StrictlyPeaceful, UniqueIds, MoveEvents, Settles, WellShaped, Dated, MoveTo, CellRejection,
      Rooted, Permitted, CleanListing;
    var moves := MoveEvents(s.events);
    if action.RestoreCheckpoint? {
      var found := FindCheckpoint(s.view.checkpoints, action.checkpoint);
      if found.Some? {
        MoveSettles(s, spec, id, true, CheckpointRestored, found.value.move);
      } else {
        RefusalSettles(s, spec, id, CheckpointUnavailable);
      }
    } else if action.IsCell() {
      RefusalSettles(s, spec, id, DecideCell(s, spec, id, action).code);
    } else if action.UndoMove? {
      if s.view.head.None? {
        MoveSettles(s, spec, id, false, NothingToUndo, None);
      } else {
        ParentIsNode(moves, s.view.head.value);
        MoveSettles(s, spec, id, true, MoveUndone, moves[s.view.head.value].body.parent);
      }
    } else if action.RedoMove? {
      if action.target in moves && moves[action.target].body.parent == s.view.head {
        MoveSettles(s, spec, id, true, MoveRedone, Some(action.target));
      } else {
        MoveSettles(s, spec, id, false, RedoTargetUnavailable, s.view.head);
      }
    } else {
      if action.CheckCompletion? {
        CompletionMeansAccepted(s, spec);
      }
      UpdateSettles(s, spec, id, Decide(s, spec, id, action).value);
    }
  }

  lemma {:induction false} DecisionSettles(s: Session, spec: GridSpec, id: EventId, action: Action)
    requires Shaped(spec) && Valid(spec) && Sane(spec, s) && !KnownId(s.events, id) && !Adds(s, spec, id, action)
    ensures Decide(s, spec, id, action).Ok? && Settles(s, spec, id, Decide(s, spec, id, action).value)
  {
    hide Valid, Conflicts, Accepts, Project, UniqueIds, MoveEvents, Settles, WellShaped, Dated, MoveTo, DecideCell, DecideCompletion, Sane,
      KnownId, FindCheckpoint;
    if s.view.status.Completed? {
      RefusalSettles(s, spec, id, SessionClosed);
    } else if action.ResumeSession? || action.PauseSession? {
      UpdateSettles(s, spec, id, Decide(s, spec, id, action).value);
    } else if action.CreateCheckpoint? {
      CheckpointSettles(s, spec, id, action.name, action.folded);
    } else if s.view.status.Paused? {
      RefusalSettles(s, spec, id, SessionPaused);
    } else {
      ActiveDecisionSettles(s, spec, id, action);
    }
  }

  // ----- one step -----

  /** The session has room for a fresh event. */
  ghost predicate Accommodates(s: Session, id: EventId) {
    !KnownId(s.events, id) && |s.events| < MAX_PLAY_EVENTS
  }

  lemma {:induction false} AppendedIds(events: seq<PlayEvent>, e: PlayEvent)
    requires UniqueIds(events) && !KnownId(events, e.body.id)
    ensures UniqueIds(events + [e])
    ensures forall id :: KnownId(events, id) ==> KnownId(events + [e], id)
    ensures KnownId(events + [e], e.body.id)
  {
    forall i | 0 <= i < |events| ensures events[i].body.id != e.body.id {
      assert events[i] in events;
    }
    forall id | KnownId(events, id) ensures KnownId(events + [e], id) {
      var f :| f in events && f.body.id == id;
      assert f in events + [e];
    }
    assert e in events + [e];
  }

  lemma {:induction false} DatesCarry(s: Session, d: Decision, id: EventId, e: PlayEvent)
    requires Dated(s.view, s.events) && UniqueIds(s.events) && !KnownId(s.events, id) && e.body.id == id
    requires forall k :: k in d.view.checkpoints ==> k in s.view.checkpoints || (k.id == id && k.captured == |s.events|)
    ensures Dated(d.view, s.events + [e])
  {
    AppendedIds(s.events, e);
  }

  /** A decision that leaves the tree alone is recorded without fail and keeps the session sane. */
  lemma {:induction false} SettlingKeepsSane(s: Session, spec: GridSpec, id: EventId, action: Action)
    requires Shaped(spec) && Valid(spec) && Sane(spec, s) && Accommodates(s, id) && !Adds(s, spec, id, action)
    ensures Step(s, spec, id, action).Ok? && Sane(spec, Step(s, spec, id, action).value)
    ensures MoveEvents(Step(s, spec, id, action).value.events) == MoveEvents(s.events)
  {
    hide Valid, Conflicts, Accepts, Project, UniqueIds, MoveEvents, WellShaped, MoveTo, DecideCell, DecideCompletion, KnownId,
      FindCheckpoint, Rooted, Permitted, Anchored, Dated, Peaceful, Tree, StrictlyPeaceful;
    DecisionSettles(s, spec, id, action);
    var d := Decide(s, spec, id, action).value;
    var e := EventFor(s, id, action, d);
    UnaddedIsNoMove(s, spec, id, action);
    MovesAppend(s.events, e);
    AppendedIds(s.events, e);
    DatesCarry(s, d, id, e);
  }

  lemma {:induction false} UnaddedIsNoMove(s: Session, spec: GridSpec, id: EventId, action: Action)
    requires Shaped(spec) && Decide(s, spec, id, action).Ok? && !Adds(s, spec, id, action)
    ensures !EventFor(s, id, action, Decide(s, spec, id, action).value).IsMove()
  {
    hide Conflicts, DecideCell, MoveTo, DecideCompletion;
    if action.IsCell() && s.view.status.Active? {
      assert Decide(s, spec, id, action) == Ok(DecideCell(s, spec, id, action));
    }
  }

  /** The new node of an accepted mark shows exactly the marked cells. */
  lemma {:induction false} NewNode(s: Session, spec: GridSpec, id: EventId, action: Action, e: PlayEvent)
    requires Shaped(spec) && Valid(spec) && Sane(spec, s) && !KnownId(s.events, id) && action.IsCell()
    requires CellRejection(spec, action).None?
    requires e.body.id == id && e.body.action == action && e.body.accepted && e.body.parent == s.view.head
    ensures var more := MoveEvents(s.events + [e]);
      && Grows(MoveEvents(s.events), more) && id in more && id !in MoveEvents(s.events)
      && more == MoveEvents(s.events)[id := e]
      && Tree(spec, more)
      && Project(spec.puzzle, more, Some(id)) == Ok(Mark(s.view.marks, action))
  {
    hide Conflicts, Accepts, UniqueIds, MoveEvents, WellShaped, KnownId, Dated, Peaceful, StrictlyPeaceful, CellRejection, Mark, Valid,
      Project;
    var moves := MoveEvents(s.events);
    FreshMovesGrow(s.events, e);
    MovesAppend(s.events, e);
    var more := moves[id := e];
    NodeProjects(spec.puzzle, moves, s.view.head);
    PathOfNewMove(moves, e);
    forall n | n in more ensures Path(more, Some(n), {}).Ok? {
      if n != id {
        PathGrows(moves, more, Some(n), {});
      }
    }
    MoveProjects(spec.puzzle, more, id);
    ProjectGrows(spec.puzzle, moves, more, s.view.head);
  }

  lemma {:induction false} PeaceGrows(spec: GridSpec, moves: Moves, id: EventId, e: PlayEvent, mode: Mode)
    requires Shaped(spec) && StrictlyPeaceful(spec, moves, mode) && id !in moves
    requires Project(spec.puzzle, moves[id := e], Some(id)).Ok?
    requires mode.Strict? ==> Conflicts(spec, Project(spec.puzzle, moves[id := e], Some(id)).value) == []
    ensures StrictlyPeaceful(spec, moves[id := e], mode)
  {
    hide Conflicts, Project;
    var more := moves[id := e];
    if mode.Strict? && Conflicts(spec, GivenMarks(spec.puzzle)) == [] {
      forall n | n in more
        ensures
          && Project(spec.puzzle, more, Some(n)).Ok?
          && Conflicts(spec, Project(spec.puzzle, more, Some(n)).value) == []
      {
        if n != id {
          ProjectGrows(spec.puzzle, moves, more, Some(n));
        }
      }
    }
  }

  lemma {:induction false} AnchorsGrow(spec: GridSpec, moves: Moves, more: Moves, view: View, next: View)
    requires Shaped(spec) && Anchored(spec, moves, view) && Grows(moves, more)
    requires next.checkpoints == view.checkpoints && AtNode(more, next.head)
    requires Project(spec.puzzle, more, next.head) == Ok(next.marks)
    ensures Anchored(spec, more, next)
  {
    hide Project;
    forall k | k in next.checkpoints ensures AtNode(more, k.move) {
      assert AtNode(moves, k.move);
      if k.move.Some? {
        var n := k.move.value;
        assert n in moves;
      }
    }
  }

  lemma {:induction false} AddedView(s: Session, spec: GridSpec, id: EventId, action: Action)
    requires Shaped(spec) && Valid(spec) && Sane(spec, s) && Adds(s, spec, id, action)
    ensures var d := DecideCell(s, spec, id, action);
      && Decide(s, spec, id, action) == Ok(d) && CellRejection(spec, action).None?
      && WellShaped(d.view) && d.view.marks == Mark(s.view.marks, action) && d.view.head == Some(id)
      && d.view.checkpoints == s.view.checkpoints && d.view.status == s.view.status && d.view.mode == s.view.mode
      && d.view.revision == s.view.revision && d.view.attempt == s.view.attempt
      && (s.view.mode.Strict? ==> Conflicts(spec, d.view.marks) == [])
  {
    hide Valid, Conflicts, Accepts, UniqueIds, MoveEvents, KnownId, Dated, Peaceful, StrictlyPeaceful, KeepsGivens, Mark, CellRejection,
      Project, Rooted, Permitted, ConflictOrder, LexLeq, MoveTo, DecideCompletion;
    NodesAreProper(spec, MoveEvents(s.events), s.view.head);
    MarkKeepsProper(spec, s.view.marks, action);
    ConflictsInOrder(spec, Mark(s.view.marks, action));
  }

  /** An accepted mark is recorded without fail and keeps the session sane. */
  lemma {:induction false} AddingKeepsSane(s: Session, spec: GridSpec, id: EventId, action: Action)
    requires Shaped(spec) && Valid(spec) && Sane(spec, s) && Accommodates(s, id) && Adds(s, spec, id, action)
    ensures Step(s, spec, id, action).Ok? && Sane(spec, Step(s, spec, id, action).value)
    ensures Grows(MoveEvents(s.events), MoveEvents(Step(s, spec, id, action).value.events))
  {
    hide Valid, Conflicts, Accepts, Project, UniqueIds, MoveEvents, WellShaped, MoveTo, DecideCell, DecideCompletion, KnownId,
      FindCheckpoint, Rooted, Permitted, Anchored, Dated, Peaceful, Tree, StrictlyPeaceful, Grows, Mark, CellRejection, Adds, Decide;
    AddedView(s, spec, id, action);
    AddsAccepts(s, spec, id, action);
    var d := DecideCell(s, spec, id, action);
    var e := EventFor(s, id, action, d);
    var moves, more := MoveEvents(s.events), MoveEvents(s.events + [e]);
    NewNode(s, spec, id, action, e);
    AppendedIds(s.events, e);
    DatesCarry(s, d, id, e);
    AnchorsGrow(spec, moves, more, s.view, d.view);
    PeaceGrows(spec, moves, id, e, s.view.mode);
  }

  lemma {:induction false} AddsAccepts(s: Session, spec: GridSpec, id: EventId, action: Action)
    requires Shaped(spec) && Adds(s, spec, id, action)
    ensures DecideCell(s, spec, id, action).accepted && action.IsCell() && s.view.status.Active?
  {
  }

  /** Every action on a sane session is recorded: nothing raises, and the session stays sane. */
  lemma {:induction false} StepKeepsSane(s: Session, spec: GridSpec, id: EventId, action: Action)
    requires Shaped(spec) && Valid(spec) && Sane(spec, s) && Accommodates(s, id)
    ensures Step(s, spec, id, action).Ok? && Sane(spec, Step(s, spec, id, action).value)
    ensures Grows(MoveEvents(s.events), MoveEvents(Step(s, spec, id, action).value.events))
  {
    hide Valid, Sane, Step, Accommodates, Adds;
    if Adds(s, spec, id, action) {
      AddingKeepsSane(s, spec, id, action);
    } else {
      SettlingKeepsSane(s, spec, id, action);
    }
  }

  lemma {:induction false} StartIsSane(spec: GridSpec, attempt: Identifier, mode: Mode)
    requires Shaped(spec) && Valid(spec)
    ensures Start(spec, attempt, mode).Ok? && Sane(spec, Start(spec, attempt, mode).value)
  {
    hide Valid, KeepsGivens, Conflicts, Accepts;
    GivensAreProper(spec);
  }
}
