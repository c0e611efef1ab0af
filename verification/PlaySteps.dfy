/** What each action does to a play session, read off the session before and after. */
module PlaySteps {
  import opened Prelude
  import opened Domain
  import opened Sorting
  import opened LogicGrid
  import opened Play
  import opened PlayTheorems
  import opened PlayRuns

  // ----- the record -----

  /** Exactly one event is appended, sealed and linked, with this verdict. */
  predicate Records(s: Session, t: Session, id: EventId, action: Action, accepted: bool, code: Code) {
    && |t.events| == |s.events| + 1 && t.events[..|s.events|] == s.events
    && t.events[|s.events|].hash == OfPlayEvent(t.events[|s.events|].body)
    && t.events[|s.events|].body ==
         PlayBody(id, |s.events|, action, accepted, code, s.view.head, t.view.head, OfView(t.view),
                  if s.events == [] then PlayGenesis else s.events[|s.events| - 1].hash)
  }

  /** The action is refused and nothing but the record of it remains. */
  predicate Refuses(s: Session, t: Session, id: EventId, action: Action, code: Code) {
    Records(s, t, id, action, false, code) && t.view == s.view
  }

  lemma {:induction false} StepIsRecorded(s: Session, spec: GridSpec, id: EventId, action: Action)
    returns (t: Session, d: Decision)
    requires Shaped(spec) && Valid(spec) && Sane(spec, s) && Accommodates(s, id)
    ensures Step(s, spec, id, action) == Ok(t) && Decide(s, spec, id, action) == Ok(d)
    ensures Records(s, t, id, action, d.accepted, d.code) && t.view == d.view
  {
    hide Valid, Sane, Decide, WellShaped, Accommodates;
    StepKeepsSane(s, spec, id, action);
    t := Step(s, spec, id, action).value;
    d := Decide(s, spec, id, action).value;
  }

  // ----- pausing, resuming, closing -----

  /** A completed session refuses everything; a paused one everything but resuming and checkpoints; pausing and
      resuming change the status and nothing else. */
  lemma {:induction false} StatusSteps(s: Session, spec: GridSpec, id: EventId, action: Action) returns (t: Session)
    requires Shaped(spec) && Valid(spec) && Sane(spec, s) && Accommodates(s, id)
    ensures Step(s, spec, id, action) == Ok(t)
    ensures s.view.status.Completed? ==> Refuses(s, t, id, action, SessionClosed)
    ensures s.view.status.Paused? && action.ResumeSession? ==>
      Records(s, t, id, action, true, SessionResumed) && t.view == s.view.(status := Active)
    ensures s.view.status.Paused? && action.PauseSession? ==> Refuses(s, t, id, action, SessionAlreadyPaused)
    ensures s.view.status.Paused? && !action.ResumeSession? && !action.PauseSession? && !action.CreateCheckpoint? ==>
      Refuses(s, t, id, action, SessionPaused)
    ensures s.view.status.Active? && action.ResumeSession? ==> Refuses(s, t, id, action, SessionNotPaused)
    ensures s.view.status.Active? && action.PauseSession? ==>
      Records(s, t, id, action, true, SessionPaused) && t.view == s.view.(status := Paused)
  {
    hide Valid, Sane, Step, Records, Accommodates, MoveTo, DecideCell, DecideCompletion, DecideCheckpoint, Conflicts;
    var d: Decision;
    t, d := StepIsRecorded(s, spec, id, action);
  }

  /** A checkpoint is made, in an active or paused session, exactly under a new name, and remembers the cursor,
      the number of events and the state. */
  lemma {:induction false} CheckpointSteps(s: Session, spec: GridSpec, id: EventId, name: Identifier,
      folded: Identifier) returns (t: Session)
    requires Shaped(spec) && Valid(spec) && Sane(spec, s) && Accommodates(s, id) && !s.view.status.Completed?
    ensures var action := CreateCheckpoint(name, folded);
      && Step(s, spec, id, action) == Ok(t)
      && if exists k :: k in s.view.checkpoints && k.folded == folded
         then Refuses(s, t, id, action, CheckpointNameExists)
         else
           && Records(s, t, id, action, true, CheckpointCreated)
           && t.view == s.view.(checkpoints := s.view.checkpoints
                + [Checkpoint(id, name, folded, s.view.head, |s.events|, OfView(s.view))])
  {
    hide Valid, Sane, Step, Records, Accommodates, MoveTo, DecideCell, DecideCompletion, Conflicts;
    var d: Decision;
    t, d := StepIsRecorded(s, spec, id, CreateCheckpoint(name, folded));
  }

  // ----- marking cells -----

  /** How the marks before and after an accepted cell action are related. */
  predicate Marked(before: Marks, after: Marks, action: Action)
    requires action.IsCell()
  {
    var v, x := action.variable, action.value;
    && Untouched(before, after, v, x)
    && match action
       case AssignCell(_, _) => Stands(after, v, x) && (v, x) !in after.exclusions
       case ExcludeCell(_, _) => !Stands(after, v, x) && (v, x) in after.exclusions && KeepsOther(before, after, v, x)
       case ClearCell(_, _) => !Stands(after, v, x) && (v, x) !in after.exclusions && KeepsOther(before, after, v, x)
  }

  predicate Stands(marks: Marks, v: VariableId, x: ValueId) {
    v in marks.assignments && marks.assignments[v] == x
  }

  /** Other items keep their rows, and other cells their exclusions. */
  predicate Untouched(before: Marks, after: Marks, v: VariableId, x: ValueId) {
    && (forall w :: w in before.assignments && w != v ==> w in after.assignments && after.assignments[w] == before.assignments[w])
    && (forall w :: w in after.assignments && w != v ==> w in before.assignments)
    && (forall cell :: cell in before.exclusions && cell != (v, x) ==> cell in after.exclusions)
    && (forall cell :: cell in after.exclusions && cell != (v, x) ==> cell in before.exclusions)
  }

  /** The item itself keeps a row other than `x`, and gains none. */
  predicate KeepsOther(before: Marks, after: Marks, v: VariableId, x: ValueId) {
    && (v in before.assignments && before.assignments[v] != x ==> Stands(after, v, before.assignments[v]))
    && (v in after.assignments ==> v in before.assignments && before.assignments[v] == after.assignments[v])
  }

  lemma {:induction false} MarkIsMarked(before: Marks, action: Action)
    requires action.IsCell()
    ensures Marked(before, Mark(before, action), action)
  {
  }

  /** The relation leaves nothing open. */
  lemma {:induction false} MarkedAlike(before: Marks, after: Marks, other: Marks, action: Action)
    requires action.IsCell() && Marked(before, after, action) && Marked(before, other, action)
    ensures after == other
  {
    var v, x := action.variable, action.value;
    forall w ensures w in after.assignments <==> w in other.assignments {
      if w != v {
        assert w in after.assignments <==> w in before.assignments;
        assert w in other.assignments <==> w in before.assignments;
      }
    }
    forall w | w in after.assignments ensures after.assignments[w] == other.assignments[w] {
      if w != v {
        assert w in before.assignments;
      }
    }
    assert after.assignments == other.assignments;
    forall cell ensures cell in after.exclusions <==> cell in other.exclusions {
      if cell != (v, x) {
        assert cell in after.exclusions <==> cell in before.exclusions;
        assert cell in other.exclusions <==> cell in before.exclusions;
      }
    }
  }

  /** Why a cell cannot be marked, whatever the marks. */
  ghost predicate Barred(spec: GridSpec, action: Action, code: Code)
    requires Shaped(spec) && action.IsCell()
  {
    var v, x, givens := action.variable, action.value, spec.puzzle.givens;
    var known := v in spec.puzzle.variables;
    var row := x in ValueIds(Anchor(spec));
    var given := AssignsGiven(givens, v) || ExclusionAtom(v, x) in givens;
    || (code == UnknownVariable && !known)
    || (code == UnknownValue && known && !row)
    || (code == GivenLocked && known && row && given)
  }

  ghost predicate AssignsGiven(givens: seq<Atom>, v: VariableId) {
    exists g :: g in givens && g.AssignmentAtom? && g.variable == v
  }

  lemma {:induction false} BarredExactly(spec: GridSpec, action: Action)
    requires Shaped(spec) && action.IsCell()
    ensures forall code :: CellRejection(spec, action) == Some(code) <==> Barred(spec, action, code)
  {
    hide Anchor;
    var v, x, givens := action.variable, action.value, spec.puzzle.givens;
    GivenLookup(givens);
    if v in GivenAssignments(givens) {
      assert AssignmentAtom(v, GivenAssignments(givens)[v]) in givens;
    }
    assert (v, x) in GivenMarks(spec.puzzle).exclusions <==> ExclusionAtom(v, x) in givens by {
      if (v, x) in GivenMarks(spec.puzzle).exclusions {
        var g :| g in givens && g.ExclusionAtom? && (g.variable, g.value) == (v, x);
        assert g == ExclusionAtom(v, x);
      }
      if ExclusionAtom(v, x) in givens {
        var g := ExclusionAtom(v, x);
        assert g in givens && (g.variable, g.value) == (v, x);
      }
    }
  }

  /** A mark is accepted in an active session unless the cell is barred, or the session is strict and the marks it
      leads to show a conflict. It then becomes the new cursor, and of the marks exactly what it says changes;
      only a soft session shows the conflicts it leads to. */
  lemma {:induction false} CellSteps(s: Session, spec: GridSpec, id: EventId, action: Action, after: Marks)
    returns (t: Session)
    requires Shaped(spec) && Valid(spec) && Sane(spec, s) && Accommodates(s, id) && s.view.status.Active?
    requires action.IsCell() && Marked(s.view.marks, after, action)
    ensures Step(s, spec, id, action) == Ok(t)
    ensures forall code :: Barred(spec, action, code) ==> Refuses(s, t, id, action, code)
    ensures (forall code :: !Barred(spec, action, code)) ==>
      if s.view.mode.Strict? && Conflicts(spec, after) != []
      then Refuses(s, t, id, action, StructuralConflict)
      else
        && Records(s, t, id, action, true, MoveApplied)
        && t.view == s.view.(marks := after, head := Some(id),
                             conflicts := if s.view.mode.Soft? then Conflicts(spec, after) else [])
  {
    hide Valid, Sane, Step, Records, Accommodates, MoveTo, DecideCompletion, Conflicts, CellRejection, Barred, Mark,
      Marked;
    var d: Decision;
    t, d := StepIsRecorded(s, spec, id, action);
    MarkIsMarked(s.view.marks, action);
    MarkedAlike(s.view.marks, after, Mark(s.view.marks, action), action);
    BarredExactly(spec, action);
  }

  /** And marks so related exist. */
  lemma {:induction false} MarkedExists(before: Marks, action: Action) returns (after: Marks)
    requires action.IsCell()
    ensures Marked(before, after, action)
  {
    after := Mark(before, action);
    MarkIsMarked(before, action);
  }

  // ----- moving the cursor -----

  /** The conflicts a session shows without being asked. */
  function Shown(mode: Mode, spec: GridSpec, marks: Marks): seq<Conflict>
    requires Shaped(spec)
  {
    if mode.Strict? || mode.Soft? then Conflicts(spec, marks) else []
  }

  /** The cursor is at a node, with the marks and conflicts seen there; everything else is as before. */
  ghost predicate Travels(s: Session, t: Session, spec: GridSpec, at: Option<EventId>)
    requires Shaped(spec)
  {
    && Project(spec.puzzle, MoveEvents(s.events), at) == Ok(t.view.marks)
    && t.view == s.view.(head := at, marks := t.view.marks, conflicts := Shown(s.view.mode, spec, t.view.marks))
  }

  /** The accepted mark with this identifier. */
  predicate IsMoveOf(events: seq<PlayEvent>, n: EventId, e: PlayEvent) {
    e in events && e.IsMove() && e.body.id == n
  }

  lemma {:induction false} MovesListed(events: seq<PlayEvent>, n: EventId, e: PlayEvent)
    requires UniqueIds(events)
    ensures IsMoveOf(events, n, e) <==> n in MoveEvents(events) && MoveEvents(events)[n] == e
  {
    if events != [] {
      var m := |events| - 1;
      assert events == events[..m] + [events[m]];
      assert UniqueIds(events[..m]);
      MovesListed(events[..m], n, e);
      MovesAppend(events[..m], events[m]);
      if e in events[..m] {
        var i :| 0 <= i < m && events[i] == e;
        assert events[i].body.id != events[m].body.id;
      }
    }
  }

  /** Undoing goes from a move to its parent and is refused at the root; redoing goes from a move, or from the
      root, to one of the moves made there. A refusal only shows the conflicts again. */
  lemma {:induction false} TravelSteps(s: Session, spec: GridSpec, id: EventId, action: Action) returns (t: Session)
    requires Shaped(spec) && Valid(spec) && Sane(spec, s) && Accommodates(s, id) && s.view.status.Active?
    requires action.UndoMove? || action.RedoMove?
    ensures Step(s, spec, id, action) == Ok(t)
    ensures action.UndoMove? && s.view.head.None? ==> Records(s, t, id, action, false, NothingToUndo) && Travels(s, t, spec, None)
    ensures forall n, e :: action.UndoMove? && s.view.head == Some(n) && IsMoveOf(s.events, n, e) ==>
      Records(s, t, id, action, true, MoveUndone) && Travels(s, t, spec, e.body.parent)
    ensures action.UndoMove? && s.view.head.Some? ==> exists e :: IsMoveOf(s.events, s.view.head.value, e)
    ensures action.RedoMove? ==>
      if exists e :: IsMoveOf(s.events, action.target, e) && e.body.parent == s.view.head
      then Records(s, t, id, action, true, MoveRedone) && Travels(s, t, spec, Some(action.target))
      else Records(s, t, id, action, false, RedoTargetUnavailable) && Travels(s, t, spec, s.view.head)
  {
    hide Valid, Step, Records, Accommodates, DecideCell, DecideCompletion, DecideCheckpoint, Conflicts, Project, MoveEvents, IsMoveOf,
      Tree, Permitted, StrictlyPeaceful, WellShaped, Accepts, UniqueIds, Play.EventFor, PlayTheorems.Dated;
    var d: Decision;
    t, d := StepIsRecorded(s, spec, id, action);
    forall n, e ensures IsMoveOf(s.events, n, e) <==> n in MoveEvents(s.events) && MoveEvents(s.events)[n] == e {
      MovesListed(s.events, n, e);
    }
    if action.UndoMove? && s.view.head.Some? {
      assert IsMoveOf(s.events, s.view.head.value, MoveEvents(s.events)[s.view.head.value]);
    }
  }

  /** Restoring goes to the move a checkpoint remembers, and is refused for an unknown checkpoint. */
  lemma {:induction false} RestoreSteps(s: Session, spec: GridSpec, id: EventId, checkpoint: EventId)
    returns (t: Session)
    requires Shaped(spec) && Valid(spec) && Sane(spec, s) && Accommodates(s, id) && s.view.status.Active?
    ensures Step(s, spec, id, RestoreCheckpoint(checkpoint)) == Ok(t)
    ensures (forall k :: k in s.view.checkpoints ==> k.id != checkpoint) ==>
      Refuses(s, t, id, RestoreCheckpoint(checkpoint), CheckpointUnavailable)
    ensures forall k :: k in s.view.checkpoints && k.id == checkpoint ==>
      Records(s, t, id, RestoreCheckpoint(checkpoint), true, CheckpointRestored) && Travels(s, t, spec, k.move)
  {
    hide Valid, Step, Records, Accommodates, DecideCell, DecideCompletion, DecideCheckpoint, Conflicts, Project, MoveEvents,
      Tree, Permitted, StrictlyPeaceful, Accepts, UniqueIds, FindCheckpoint, PlayTheorems.Dated;
    var d: Decision;
    t, d := StepIsRecorded(s, spec, id, RestoreCheckpoint(checkpoint));
    var ks := s.view.checkpoints;
    if k :| k in ks && k.id == checkpoint {
      forall other | other in ks && other.id == checkpoint ensures other == k {
        var i :| 0 <= i < |ks| && ks[i] == k;
        var j :| 0 <= j < |ks| && ks[j] == other;
      }
      var i :| 0 <= i < |ks| && ks[i] == k;
      forall j | 0 <= j < i ensures ks[j].id != ks[i].id {
      }
      FoundCheckpoint(ks, i);
    }
  }

  // ----- checking -----

  /** Validation shows the conflicts and is not available in an exam. Completion is accepted exactly when the
      final checker accepts the assignments, and otherwise shows the conflicts except in an exam. */
  lemma {:induction false} CheckSteps(s: Session, spec: GridSpec, id: EventId, action: Action) returns (t: Session)
    requires Shaped(spec) && Valid(spec) && Sane(spec, s) && Accommodates(s, id) && s.view.status.Active?
    requires action.ValidateProgress? || action.CheckCompletion?
    ensures Step(s, spec, id, action) == Ok(t)
    ensures var found := Conflicts(spec, s.view.marks);
      && (action.ValidateProgress? && s.view.mode.Exam? ==> Refuses(s, t, id, action, ValidationUnavailable))
      && (action.ValidateProgress? && !s.view.mode.Exam? ==>
            && Records(s, t, id, action, true, if found == [] then ProgressStructurallyValid else ConflictsFound)
            && t.view == s.view.(conflicts := found))
      && (action.CheckCompletion? && Accepts(spec, s.view.marks.assignments) ==>
            && Records(s, t, id, action, true, CompletionAccepted)
            && t.view == s.view.(status := Completed, conflicts := []))
      && (action.CheckCompletion? && !Accepts(spec, s.view.marks.assignments) ==>
            && Records(s, t, id, action, false, CompletionRejected)
            && t.view == s.view.(conflicts := if s.view.mode.Exam? then [] else found))
  {
    hide Valid, Sane, Step, Records, Accommodates, MoveTo, DecideCell, Conflicts, Accepts, CleanListing, Listed;
    var d: Decision;
    t, d := StepIsRecorded(s, spec, id, action);
    CompletionMeansAccepted(s, spec);
  }

  // ----- what is reported as a conflict -----

  /** The item has no row and none left to take. */
  predicate Stranded(spec: GridSpec, marks: Marks, v: VariableId)
    requires Shaped(spec)
  {
    v in spec.puzzle.variables && v !in marks.assignments
    && forall x :: x in ValueIds(Anchor(spec)) ==> (v, x) in marks.exclusions
  }

  /** The category, a row two of its items stand on, and all its items there, in ascending order. */
  ghost predicate Doubles(category: Category, marks: Marks, x: ValueId, references: seq<Identifier>) {
    && SharedRow(category.variables, marks, x)
    && references == Ascending({category.id, x} + set v | v in category.variables && Stands(marks, v, x))
  }

  ghost predicate Reported(spec: GridSpec, marks: Marks, c: Conflict)
    requires Shaped(spec)
  {
    if c.code.NoCandidate? then exists v :: Stranded(spec, marks, v) && c.references == [v]
    else exists i, x :: 0 <= i < |spec.categories| && Doubles(spec.categories[i], marks, x, c.references)
  }

  lemma {:induction false} StrandedMembers(spec: GridSpec, marks: Marks, vs: seq<VariableId>, c: Conflict)
    requires Shaped(spec)
    ensures c in ExhaustedConflicts(spec, marks, vs) <==>
      c.code.NoCandidate? && exists i :: 0 <= i < |vs| && Exhausted(spec, marks, vs[i]) && c.references == [vs[i]]
  {
    hide Exhausted;
    if vs != [] {
      var n := |vs| - 1;
      StrandedMembers(spec, marks, vs[..n], c);
      assert forall i :: 0 <= i < n ==> vs[..n][i] == vs[i];
    }
  }

  lemma {:induction false} SelectorsMembers(vs: seq<VariableId>, marks: Marks, x: ValueId, v: VariableId)
    ensures v in Selectors(vs, marks, x) <==> v in vs && Stands(marks, v, x)
  {
    if vs != [] {
      SelectorsMembers(vs[1..], marks, x, v);
      assert vs == [vs[0]] + vs[1..];
    }
  }

  lemma {:induction false} SelectorsAre(vs: seq<VariableId>, marks: Marks, x: ValueId)
    ensures Elements(Selectors(vs, marks, x)) == set v | v in vs && Stands(marks, v, x)
  {
    hide Stands, Selectors;
    var found := Selectors(vs, marks, x);
    var standing := set v | v in vs && Stands(marks, v, x);
    forall v ensures v in Elements(found) <==> v in standing {
      SelectorsMembers(vs, marks, x, v);
      assert v in Elements(found) <==> v in found;
    }
  }

  lemma {:induction false} DoublesMembers(category: Category, marks: Marks, xs: seq<ValueId>, c: Conflict)
    ensures c in RowConflicts(category, marks, xs) <==>
      c.code.DuplicateRow? && exists i :: 0 <= i < |xs| && Doubles(category, marks, xs[i], c.references)
  {
    hide SharedRow, Selectors;
    if xs != [] {
      var n := |xs| - 1;
      DoublesMembers(category, marks, xs[..n], c);
      SelectorsMean(category.variables, marks, xs[n]);
      SelectorsAre(category.variables, marks, xs[n]);
      assert forall i :: 0 <= i < n ==> xs[..n][i] == xs[i];
    }
  }

  lemma {:induction false} CategoryMembers(category: Category, marks: Marks, c: Conflict)
    ensures c in RowConflicts(category, marks, Ascending(SelectedRows(category.variables, marks))) <==>
      c.code.DuplicateRow? && exists x :: Doubles(category, marks, x, c.references)
  {
    hide RowConflicts, Ascending;
    var xs := Ascending(SelectedRows(category.variables, marks));
    DoublesMembers(category, marks, xs, c);
    forall x | Doubles(category, marks, x, c.references) ensures exists i :: 0 <= i < |xs| && xs[i] == x {
      var i, j :| 0 <= i < j < |category.variables| && Selects(marks, category.variables[i], x) && Selects(marks, category.variables[j], x);
      var v := category.variables[i];
      assert v in category.variables && v in marks.assignments;
      assert x in SelectedRows(category.variables, marks);
      assert x in xs;
    }
  }

  lemma {:induction false} CategoriesMembers(categories: seq<Category>, marks: Marks, c: Conflict)
    ensures c in CategoryConflicts(categories, marks) <==>
      c.code.DuplicateRow? && exists i, x :: 0 <= i < |categories| && Doubles(categories[i], marks, x, c.references)
  {
    hide RowConflicts, Doubles;
    if categories != [] {
      var n := |categories| - 1;
      CategoriesMembers(categories[..n], marks, c);
      CategoryMembers(categories[n], marks, c);
      assert forall i :: 0 <= i < n ==> categories[..n][i] == categories[i];
    }
  }

  /** Reported are exactly the stranded items and the doubly taken rows, sorted by kind and references. */
  lemma {:induction false} ConflictsExactly(spec: GridSpec, marks: Marks)
    requires Shaped(spec)
    ensures var found := Conflicts(spec, marks);
      && (forall c :: c in found <==> Reported(spec, marks, c))
      && (forall i, j :: 0 <= i < j < |found| && found[i].code.NoCandidate? ==> found[j].code.NoCandidate?)
      && (forall i, j :: 0 <= i < j < |found| && found[i].code == found[j].code ==> LexLeq(found[i].references, found[j].references))
  {
    hide ExhaustedConflicts, CategoryConflicts, Sort, Doubles, LexLeq;
    var vs := Ascending(spec.puzzle.variables.Keys);
    var all := ExhaustedConflicts(spec, marks, vs) + CategoryConflicts(spec.categories, marks);
    SortKeeps(all, ConflictOrder());
    forall c ensures c in all <==> Reported(spec, marks, c) {
      StrandedMembers(spec, marks, vs, c);
      CategoriesMembers(spec.categories, marks, c);
      StrandedListed(spec, marks, c);
    }
    ConflictsInOrder(spec, marks);
    var found := Conflicts(spec, marks);
    forall i, j | 0 <= i < j < |found|
      ensures found[i].code.NoCandidate? ==> found[j].code.NoCandidate?
      ensures found[i].code == found[j].code ==> LexLeq(found[i].references, found[j].references)
    {
      ConflictOrderMeans(found[i], found[j]);
    }
  }

  lemma {:induction false} StrandedListed(spec: GridSpec, marks: Marks, c: Conflict)
    requires Shaped(spec)
    ensures var vs := Ascending(spec.puzzle.variables.Keys);
      (exists i :: 0 <= i < |vs| && Exhausted(spec, marks, vs[i]) && c.references == [vs[i]])
      <==> exists v :: Stranded(spec, marks, v) && c.references == [v]
  {
    hide Ascending, Anchor;
    var vs := Ascending(spec.puzzle.variables.Keys);
    if v :| Stranded(spec, marks, v) && c.references == [v] {
      assert v in vs;
      var i :| 0 <= i < |vs| && vs[i] == v;
      assert Exhausted(spec, marks, vs[i]);
    }
    if i :| 0 <= i < |vs| && Exhausted(spec, marks, vs[i]) && c.references == [vs[i]] {
      var v := vs[i];
      assert v in vs;
      assert Stranded(spec, marks, v);
    }
  }

  lemma {:induction false} ConflictOrderMeans(c: Conflict, d: Conflict)
    requires LexLeq(ConflictOrder()(c), ConflictOrder()(d))
    ensures c.code.NoCandidate? ==> d.code.NoCandidate?
    ensures c.code == d.code ==> LexLeq(c.references, d.references)
  {
    var s, t := ConflictOrder()(c), ConflictOrder()(d);
    assert s[1..] == c.references && t[1..] == d.references;
  }

  // ----- starting, and the verified entry -----

  /** The marks a puzzle gives, and nothing else. */
  ghost predicate ShowsGivens(puzzle: Puzzle, marks: Marks) {
    && (forall v, x :: Stands(marks, v, x) <==> AssignmentAtom(v, x) in puzzle.givens)
    && (forall v, x :: (v, x) in marks.exclusions <==> ExclusionAtom(v, x) in puzzle.givens)
  }

  lemma {:induction false} GivensShown(spec: GridSpec)
    requires Shaped(spec) && Valid(spec)
    ensures ShowsGivens(spec.puzzle, GivenMarks(spec.puzzle))
  {
    hide ValidCategories, ValidConstraints, Anchor;
    var givens, marks := spec.puzzle.givens, GivenMarks(spec.puzzle);
    GivenLookup(givens);
    forall v, x ensures Stands(marks, v, x) <==> AssignmentAtom(v, x) in givens {
      if AssignmentAtom(v, x) in givens {
        var g, h := AssignmentAtom(v, x), AssignmentAtom(v, GivenAssignments(givens)[v]);
        assert g in givens && h in givens;
        assert !Clash(spec, g, h);
      }
    }
    forall v, x ensures (v, x) in marks.exclusions <==> ExclusionAtom(v, x) in givens {
      if ExclusionAtom(v, x) in givens {
        var g := ExclusionAtom(v, x);
        assert g in givens && g.ExclusionAtom? && (g.variable, g.value) == (v, x);
      }
    }
  }

  /** A session starts active, at the root, without events, checkpoints or conflicts, with the givens marked. */
  lemma {:induction false} StartExactly(spec: GridSpec, attempt: Identifier, mode: Mode) returns (s: Session)
    requires Shaped(spec) && Valid(spec)
    ensures Start(spec, attempt, mode) == Ok(s) && ShowsGivens(spec.puzzle, s.view.marks)
    ensures s.events == [] && s.view == View(attempt, spec.puzzle.revision, mode, Active, s.view.marks, [], [], None)
  {
    hide Valid, WellShaped;
    StartIsSane(spec, attempt, mode);
    GivensShown(spec);
    s := Start(spec, attempt, mode).value;
  }

  /** The verified entry takes exactly fresh actions, below the limit, on sessions some run leads to. */
  lemma {:induction false} ApplyExactly(s: Session, spec: GridSpec, id: EventId, action: Action)
    requires Shaped(spec) && Valid(spec)
    ensures Apply(s, spec, id, action).Ok? <==> Reachable(s, spec) && Accommodates(s, id)
    ensures Apply(s, spec, id, action).Ok? ==> Apply(s, spec, id, action) == Step(s, spec, id, action)
  {
    hide Valid, Step, Replay, Reachable, Accommodates;
    if Apply(s, spec, id, action).Ok? {
      ApplyIsStep(s, spec, id, action);
      ReplayCheckMeansReachable(s, spec);
    } else if Reachable(s, spec) && Accommodates(s, id) {
      ReachableApplies(s, spec, id, action);
    }
  }
}
