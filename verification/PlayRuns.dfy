/** Whole play sessions: safety over every run, undo and redo, checkpoints, and replay. */
module PlayRuns {
  import opened Prelude
  import opened Domain
  import opened State
  import opened Solutions
  import opened Sorting
  import opened LogicGrid
  import opened Play
  import opened PlayTheorems

  datatype Input = Input(id: EventId, action: Action)

  /** Applying actions one after another, each through the verifying entry point. */
  function RunFrom(s: Session, spec: GridSpec, inputs: seq<Input>): Result<Session>
    requires Shaped(spec)
  {
    if inputs == [] then Ok(s)
    else
      var n := |inputs| - 1;
      var earlier :- RunFrom(s, spec, inputs[..n]);
      Apply(earlier, spec, inputs[n].id, inputs[n].action)
  }

  /** A session some run from the start leads to. */
  ghost predicate Reachable(s: Session, spec: GridSpec)
    requires Shaped(spec)
  {
    exists inputs :: Start(spec, s.view.attempt, s.view.mode).Ok?
      && RunFrom(Start(spec, s.view.attempt, s.view.mode).value, spec, inputs) == Ok(s)
  }

  // ----- what one step records -----

  lemma {:induction false} StepRecords(s: Session, spec: GridSpec, id: EventId, action: Action)
    requires Shaped(spec) && Step(s, spec, id, action).Ok?
    ensures var next := Step(s, spec, id, action).value;
      && Decide(s, spec, id, action).Ok?
      && var d := Decide(s, spec, id, action).value;
      && next.view == d.view && next.events == s.events + [EventFor(s, id, action, d)]
      && next.view.attempt == s.view.attempt && next.view.mode == s.view.mode
      && (forall k :: k in s.view.checkpoints ==> k in next.view.checkpoints)
  {
    hide Project, Conflicts, Accepts, CleanListing, CellRejection, MoveEvents, WellShaped;
  }

  lemma {:induction false} ApplyIsStep(s: Session, spec: GridSpec, id: EventId, action: Action)
    requires Shaped(spec) && Apply(s, spec, id, action).Ok?
    ensures Apply(s, spec, id, action) == Step(s, spec, id, action)
    ensures Accommodates(s, id)
  {
  }

  /** A run keeps the session sane, its moves and its checkpoints. */
  lemma {:induction false} RunKeeps(s: Session, spec: GridSpec, inputs: seq<Input>, t: Session)
    requires Shaped(spec) && Valid(spec) && Sane(spec, s) && RunFrom(s, spec, inputs) == Ok(t)
    ensures Sane(spec, t) && Grows(MoveEvents(s.events), MoveEvents(t.events))
    ensures forall k :: k in s.view.checkpoints ==> k in t.view.checkpoints
    ensures t.view.attempt == s.view.attempt && t.view.mode == s.view.mode
  {
    hide Valid, Sane, Apply, Step, Decide, EventFor, MoveEvents;
    if inputs != [] {
      var n := |inputs| - 1;
      var earlier := RunFrom(s, spec, inputs[..n]).value;
      RunKeeps(s, spec, inputs[..n], earlier);
      ApplyIsStep(earlier, spec, inputs[n].id, inputs[n].action);
      StepKeepsSane(earlier, spec, inputs[n].id, inputs[n].action);
      StepRecords(earlier, spec, inputs[n].id, inputs[n].action);
    }
  }

  /** Every reachable session is sane. */
  lemma {:induction false} ReachableIsSane(s: Session, spec: GridSpec)
    requires Shaped(spec) && Valid(spec) && Reachable(s, spec)
    ensures Sane(spec, s)
  {
    hide Valid, Sane, RunFrom;
    var start := Start(spec, s.view.attempt, s.view.mode).value;
    var inputs :| RunFrom(start, spec, inputs) == Ok(s);
    StartIsSane(spec, s.view.attempt, s.view.mode);
    RunKeeps(start, spec, inputs, s);
  }

  // ----- replay -----

  lemma {:induction false} ReplayAppends(spec: GridSpec, attempt: Identifier, mode: Mode, s: Session, id: EventId,
      action: Action)
    requires Shaped(spec) && Replay(spec, attempt, mode, s.events) == Ok(s) && Step(s, spec, id, action).Ok?
    ensures var next := Step(s, spec, id, action).value;
      Replay(spec, attempt, mode, next.events) == Ok(next)
  {
    hide Decide, Step;
    StepRecords(s, spec, id, action);
    var next := Step(s, spec, id, action).value;
    assert next.events[..|s.events|] == s.events;
  }

  /** Replay returns every reachable session unchanged from its own events, so the canonical-replay check
      never refuses one. */
  lemma {:induction false} RunReplays(spec: GridSpec, attempt: Identifier, mode: Mode, start: Session,
      inputs: seq<Input>, s: Session)
    requires Shaped(spec) && Start(spec, attempt, mode) == Ok(start) && RunFrom(start, spec, inputs) == Ok(s)
    ensures Replay(spec, attempt, mode, s.events) == Ok(s)
    ensures s.view.attempt == attempt && s.view.mode == mode
  {
    hide Step, Apply;
    if inputs != [] {
      var n := |inputs| - 1;
      var earlier := RunFrom(start, spec, inputs[..n]).value;
      RunReplays(spec, attempt, mode, start, inputs[..n], earlier);
      ApplyIsStep(earlier, spec, inputs[n].id, inputs[n].action);
      StepRecords(earlier, spec, inputs[n].id, inputs[n].action);
      ReplayAppends(spec, attempt, mode, earlier, inputs[n].id, inputs[n].action);
    }
  }

  function InputsOf(events: seq<PlayEvent>): (inputs: seq<Input>)
    ensures |inputs| == |events|
  {
    seq(|events|, i requires 0 <= i < |events| => Input(events[i].body.id, events[i].body.action))
  }

  /** What replay accepts is what running the recorded actions produces: the stream is determined by its
      identifiers and actions. */
  lemma {:induction false} ReplayedIsRun(spec: GridSpec, attempt: Identifier, mode: Mode, events: seq<PlayEvent>,
      s: Session)
    requires Shaped(spec) && Replay(spec, attempt, mode, events) == Ok(s)
    ensures s.events == events && s.view.attempt == attempt && s.view.mode == mode
    ensures Start(spec, attempt, mode).Ok?
    ensures RunFrom(Start(spec, attempt, mode).value, spec, InputsOf(events)) == Ok(s)
  {
    hide Step;
    if events != [] {
      var n := |events| - 1;
      var earlier := Replay(spec, attempt, mode, events[..n]).value;
      ReplayedIsRun(spec, attempt, mode, events[..n], earlier);
      var e := events[n];
      StepRecords(earlier, spec, e.body.id, e.body.action);
      assert InputsOf(events)[..n] == InputsOf(events[..n]);
      ReplayedApplies(spec, earlier, e.body.id, e.body.action);
    }
  }

  lemma {:induction false} ReplayedApplies(spec: GridSpec, s: Session, id: EventId, action: Action)
    requires Shaped(spec) && Replay(spec, s.view.attempt, s.view.mode, s.events) == Ok(s)
    ensures Apply(s, spec, id, action) == Step(s, spec, id, action)
  {
    hide Decide;
  }

  /** A session passes the canonical-replay check exactly when some run reaches it. */
  lemma {:induction false} ReplayCheckMeansReachable(s: Session, spec: GridSpec)
    requires Shaped(spec)
    ensures Replay(spec, s.view.attempt, s.view.mode, s.events) == Ok(s) <==> Reachable(s, spec)
  {
    hide Replay, RunFrom;
    if Replay(spec, s.view.attempt, s.view.mode, s.events) == Ok(s) {
      ReplayedIsRun(spec, s.view.attempt, s.view.mode, s.events, s);
    }
    if Reachable(s, spec) {
      var start := Start(spec, s.view.attempt, s.view.mode).value;
      var inputs :| RunFrom(start, spec, inputs) == Ok(s);
      RunReplays(spec, s.view.attempt, s.view.mode, start, inputs, s);
    }
  }

  /** Two accepted streams with the same identifiers and actions are the same stream. */
  lemma {:induction false} InputsDetermineStream(spec: GridSpec, attempt: Identifier, mode: Mode, a: seq<PlayEvent>,
      b: seq<PlayEvent>)
    requires Shaped(spec) && Replay(spec, attempt, mode, a).Ok? && Replay(spec, attempt, mode, b).Ok?
    requires InputsOf(a) == InputsOf(b)
    ensures a == b
  {
    ReplayedIsRun(spec, attempt, mode, a, Replay(spec, attempt, mode, a).value);
    ReplayedIsRun(spec, attempt, mode, b, Replay(spec, attempt, mode, b).value);
  }

  /** On a reachable session every fresh action below the limit is recorded. */
  lemma {:induction false} ReachableApplies(s: Session, spec: GridSpec, id: EventId, action: Action)
    requires Shaped(spec) && Valid(spec) && Reachable(s, spec) && Accommodates(s, id)
    ensures Apply(s, spec, id, action).Ok? && Apply(s, spec, id, action) == Step(s, spec, id, action)
    ensures Reachable(Apply(s, spec, id, action).value, spec)
  {
    hide Valid, Sane, Step, RunFrom, Replay, Accommodates;
    ReachableIsSane(s, spec);
    StepKeepsSane(s, spec, id, action);
    ReplayCheckMeansReachable(s, spec);
    ReplayedApplies(spec, s, id, action);
    var next := Step(s, spec, id, action).value;
    StepRecords(s, spec, id, action);
    ReplayAppends(spec, s.view.attempt, s.view.mode, s, id, action);
    ReplayCheckMeansReachable(next, spec);
  }

  // ----- safety -----

  /** Marks of a reachable session are those of its cursor, and of every retained node the givens hold and
      no cell is both assigned and excluded. */
  lemma {:induction false} ReachableMarks(s: Session, spec: GridSpec, at: Option<EventId>)
    requires Shaped(spec) && Valid(spec) && Reachable(s, spec) && AtNode(MoveEvents(s.events), at)
    ensures Project(spec.puzzle, MoveEvents(s.events), s.view.head) == Ok(s.view.marks)
    ensures Project(spec.puzzle, MoveEvents(s.events), at).Ok?
    ensures Proper(spec.puzzle, Project(spec.puzzle, MoveEvents(s.events), at).value)
  {
    hide Valid, Reachable, Project, Proper;
    ReachableIsSane(s, spec);
    NodesAreProper(spec, MoveEvents(s.events), at);
  }

  /** A strict session whose givens are free of conflicts has none at any node of its history. */
  lemma {:induction false} StrictStaysPeaceful(s: Session, spec: GridSpec, at: Option<EventId>)
    requires Shaped(spec) && Valid(spec) && Reachable(s, spec) && s.view.mode.Strict?
    requires Conflicts(spec, GivenMarks(spec.puzzle)) == [] && AtNode(MoveEvents(s.events), at)
    ensures Project(spec.puzzle, MoveEvents(s.events), at).Ok?
    ensures Conflicts(spec, Project(spec.puzzle, MoveEvents(s.events), at).value) == []
  {
    hide Valid, Reachable, Project, Conflicts;
    ReachableIsSane(s, spec);
    if at.None? {
      RootShowsGivens(spec.puzzle, MoveEvents(s.events));
    }
  }

  lemma {:induction false} RootShowsGivens(puzzle: Puzzle, moves: Moves)
    ensures Project(puzzle, moves, None) == Ok(GivenMarks(puzzle))
  {
  }

  /** The last recorded outcome was an acceptance. */
  predicate Accepted(s: Session) {
    s.events != [] && s.events[|s.events| - 1].body.accepted
  }

  /** A rejected action keeps the marks, the cursor, the checkpoints and the status; only the displayed
      conflicts may be refreshed. */
  lemma {:induction false} RejectionKeeps(s: Session, spec: GridSpec, id: EventId, action: Action)
    requires Shaped(spec) && Sane(spec, s) && Step(s, spec, id, action).Ok?
    requires !Accepted(Step(s, spec, id, action).value)
    ensures var next := Step(s, spec, id, action).value;
      next.view == s.view.(conflicts := next.view.conflicts)
  {
    hide Project, Conflicts, Accepts, CleanListing, CellRejection, MoveEvents, WellShaped, Rooted, Permitted, UniqueIds;
    StepRecords(s, spec, id, action);
  }

  /** A completed session never changes again, whatever is tried. */
  lemma {:induction false} CompletedAbsorbs(s: Session, spec: GridSpec, inputs: seq<Input>, t: Session)
    requires Shaped(spec) && s.view.status.Completed? && RunFrom(s, spec, inputs) == Ok(t)
    ensures t.view == s.view
  {
    hide Apply, Step;
    if inputs != [] {
      var n := |inputs| - 1;
      var earlier := RunFrom(s, spec, inputs[..n]).value;
      CompletedAbsorbs(s, spec, inputs[..n], earlier);
      ApplyIsStep(earlier, spec, inputs[n].id, inputs[n].action);
      StepRecords(earlier, spec, inputs[n].id, inputs[n].action);
    }
  }

  /** A completed session holds a solution of the puzzle. */
  lemma {:induction false} CompletedIsSolution(s: Session, spec: GridSpec, stateId: Identifier, branch: Identifier,
      n: nat)
    requires Shaped(spec) && Valid(spec) && Reachable(s, spec) && s.view.status.Completed?
    requires InitialState(spec.puzzle, stateId, branch, n).Ok?
    ensures Solution(spec.puzzle, InitialState(spec.puzzle, stateId, branch, n).value, s.view.marks.assignments)
  {
    hide Valid, Reachable, Solution, InitialState;
    ReachableIsSane(s, spec);
    CheckerAcceptsSolutions(spec, stateId, branch, n, s.view.marks.assignments);
  }

  // ----- undo, redo and checkpoints -----

  /** Undoing a move and redoing it restores the marks and the cursor. */
  lemma {:induction false} UndoThenRedo(s: Session, spec: GridSpec, u: EventId, r: EventId, n: EventId)
    returns (undone: Session, redone: Session)
    requires Shaped(spec) && Valid(spec) && Sane(spec, s) && s.view.status.Active? && s.view.head == Some(n)
    requires Accommodates(s, u) && Accommodates(s, r) && u != r && |s.events| + 1 < MAX_PLAY_EVENTS
    ensures Step(s, spec, u, UndoMove) == Ok(undone) && Accepted(undone)
    ensures n in MoveEvents(s.events) && undone.view.head == MoveEvents(s.events)[n].body.parent
    ensures Step(undone, spec, r, RedoMove(n)) == Ok(redone) && Accepted(redone)
    ensures redone.view.marks == s.view.marks && redone.view.head == s.view.head
  {
    hide Valid, Project, Conflicts, Accepts, CleanListing, CellRejection, MoveEvents, WellShaped, Rooted, Permitted, UniqueIds, Step,
      StrictlyPeaceful, Dated;
    StepKeepsSane(s, spec, u, UndoMove);
    StepRecords(s, spec, u, UndoMove);
    undone := Step(s, spec, u, UndoMove).value;
    FreshAfter(s, undone, u, r);
    StepKeepsSane(undone, spec, r, RedoMove(n));
    StepRecords(undone, spec, r, RedoMove(n));
    redone := Step(undone, spec, r, RedoMove(n)).value;
    ProjectGrows(spec.puzzle, MoveEvents(s.events), MoveEvents(undone.events), Some(n));
  }

  lemma {:induction false} FreshAfter(s: Session, next: Session, u: EventId, r: EventId)
    requires Accommodates(s, r) && u != r && |s.events| + 1 < MAX_PLAY_EVENTS
    requires
      && |next.events| == |s.events| + 1
      && next.events[..|s.events|] == s.events
      && next.events[|s.events|].body.id == u
    ensures Accommodates(next, r)
  {
    assert next.events == s.events + [next.events[|s.events|]];
  }

  /** Creating a checkpoint retains the cursor under the event's identifier. */
  lemma {:induction false} CheckpointMade(s: Session, spec: GridSpec, c: EventId, name: Identifier,
      folded: Identifier, marked: Session)
    returns (k: Checkpoint)
    requires Shaped(spec) && Step(s, spec, c, CreateCheckpoint(name, folded)) == Ok(marked) && Accepted(marked)
    ensures k in marked.view.checkpoints && k.id == c && k.move == s.view.head
  {
    hide Project, Conflicts, Accepts, CleanListing, CellRejection, MoveEvents, WellShaped, Step;
    StepRecords(s, spec, c, CreateCheckpoint(name, folded));
    k := marked.view.checkpoints[|marked.view.checkpoints| - 1];
  }

  /** Restoring a retained checkpoint shows the marks of the node it names. */
  lemma {:induction false} RestoreShowsNode(s: Session, spec: GridSpec, k: Checkpoint,
      r: EventId) returns (restored: Session)
    requires Shaped(spec) && Valid(spec) && Sane(spec, s) && s.view.status.Active? && Accommodates(s, r)
    requires k in s.view.checkpoints
    ensures Step(s, spec, r, RestoreCheckpoint(k.id)) == Ok(restored) && Accepted(restored)
    ensures restored.view.head == k.move
    ensures Project(spec.puzzle, MoveEvents(s.events), k.move) == Ok(restored.view.marks)
  {
    hide Valid, Project, Conflicts, Accepts, CleanListing, CellRejection, MoveEvents, Rooted, Permitted, UniqueIds, Step,
      StrictlyPeaceful, Dated, LexLeq, ConflictOrder;
    var i :| 0 <= i < |s.view.checkpoints| && s.view.checkpoints[i] == k;
    FoundCheckpoint(s.view.checkpoints, i);
    StepKeepsSane(s, spec, r, RestoreCheckpoint(k.id));
    StepRecords(s, spec, r, RestoreCheckpoint(k.id));
    restored := Step(s, spec, r, RestoreCheckpoint(k.id)).value;
  }

  /** Restoring a checkpoint returns the marks held when it was made, whatever happened in between. */
  lemma {:induction false} RestoreReturns(s: Session, spec: GridSpec, c: EventId, name: Identifier,
      folded: Identifier, marked: Session,
                       inputs: seq<Input>, later: Session, r: EventId)
    returns (restored: Session)
    requires Shaped(spec) && Valid(spec) && Sane(spec, s) && Accommodates(s, c)
    requires Step(s, spec, c, CreateCheckpoint(name, folded)) == Ok(marked) && Accepted(marked)
    requires RunFrom(marked, spec, inputs) == Ok(later)
    requires later.view.status.Active? && Accommodates(later, r)
    ensures Step(later, spec, r, RestoreCheckpoint(c)) == Ok(restored) && Accepted(restored)
    ensures restored.view.marks == s.view.marks && restored.view.head == s.view.head
  {
    hide Valid, Project, MoveEvents, Step, RunFrom, Accommodates, Accepted, Rooted, Permitted, UniqueIds, StrictlyPeaceful, Dated,
      WellShaped, Accepts;
    var k := CheckpointMade(s, spec, c, name, folded, marked);
    StepKeepsSane(s, spec, c, CreateCheckpoint(name, folded));
    RunKeeps(marked, spec, inputs, later);
    restored := RestoreShowsNode(later, spec, k, r);
    ProjectGrows(spec.puzzle, MoveEvents(s.events), MoveEvents(marked.events), s.view.head);
    ProjectGrows(spec.puzzle, MoveEvents(marked.events), MoveEvents(later.events), s.view.head);
  }

  // ----- what a conflict is -----

  lemma {:induction false} ExhaustedMeans(spec: GridSpec, marks: Marks, vs: seq<VariableId>)
    requires Shaped(spec)
    ensures ExhaustedConflicts(spec, marks, vs) == [] <==> forall i :: 0 <= i < |vs| ==> !Exhausted(spec, marks, vs[i])
  {
    hide Exhausted;
    if vs != [] {
      var n := |vs| - 1;
      ExhaustedMeans(spec, marks, vs[..n]);
      assert forall i :: 0 <= i < n ==> vs[..n][i] == vs[i];
    }
  }

  /** Two different items of the list select the same row. */
  ghost predicate SharedRow(vs: seq<VariableId>, marks: Marks, x: ValueId) {
    exists i, j :: 0 <= i < j < |vs| && Selects(marks, vs[i], x) && Selects(marks, vs[j], x)
  }

  predicate Selects(marks: Marks, v: VariableId, x: ValueId) {
    v in marks.assignments && marks.assignments[v] == x
  }

  lemma {:induction false} SelectorsMean(vs: seq<VariableId>, marks: Marks, x: ValueId)
    ensures |Selectors(vs, marks, x)| > 0 <==> exists i :: 0 <= i < |vs| && Selects(marks, vs[i], x)
    ensures |Selectors(vs, marks, x)| > 1 <==> SharedRow(vs, marks, x)
  {
    if vs != [] {
      var rest := vs[1..];
      SelectorsMean(rest, marks, x);
      assert forall i :: 0 <= i < |rest| ==> rest[i] == vs[i + 1];
      if |Selectors(rest, marks, x)| > 0 {
        var i :| 0 <= i < |rest| && Selects(marks, rest[i], x);
        assert Selects(marks, vs[i + 1], x);
        assert Selects(marks, vs[0], x) ==> SharedRow(vs, marks, x);
      }
      if SharedRow(rest, marks, x) {
        var i, j :| 0 <= i < j < |rest| && Selects(marks, rest[i], x) && Selects(marks, rest[j], x);
        assert Selects(marks, vs[i + 1], x) && Selects(marks, vs[j + 1], x);
      }
      if SharedRow(vs, marks, x) {
        var i, j :| 0 <= i < j < |vs| && Selects(marks, vs[i], x) && Selects(marks, vs[j], x);
        assert Selects(marks, rest[j - 1], x);
        if i > 0 {
          assert Selects(marks, rest[i - 1], x);
        }
      }
    }
  }

  lemma {:induction false} RowsMean(category: Category, marks: Marks, xs: seq<ValueId>)
    ensures RowConflicts(category, marks, xs) == []
      <==> forall i :: 0 <= i < |xs| ==> !SharedRow(category.variables, marks, xs[i])
  {
    hide SharedRow, Selectors;
    if xs != [] {
      var n := |xs| - 1;
      RowsMean(category, marks, xs[..n]);
      SelectorsMean(category.variables, marks, xs[n]);
      assert forall i :: 0 <= i < n ==> xs[..n][i] == xs[i];
    }
  }

  ghost predicate SharesRow(vs: seq<VariableId>, marks: Marks) {
    exists x :: SharedRow(vs, marks, x)
  }

  lemma {:induction false} CategoryMeans(category: Category, marks: Marks)
    ensures RowConflicts(category, marks, Ascending(SelectedRows(category.variables, marks))) == []
      <==> !SharesRow(category.variables, marks)
  {
    hide RowConflicts;
    var xs := Ascending(SelectedRows(category.variables, marks));
    RowsMean(category, marks, xs);
    forall x | SharedRow(category.variables, marks, x) ensures x in xs {
      var i, j :| 0 <= i < j < |category.variables| && Selects(marks, category.variables[i], x) && Selects(marks, category.variables[j], x);
      var v := category.variables[i];
      assert v in category.variables && v in marks.assignments;
      assert x in SelectedRows(category.variables, marks);
    }
  }

  lemma {:induction false} CategoriesMean(categories: seq<Category>, marks: Marks)
    ensures CategoryConflicts(categories, marks) == []
      <==> forall i :: 0 <= i < |categories| ==> !SharesRow(categories[i].variables, marks)
  {
    hide SharesRow, RowConflicts;
    if categories != [] {
      var n := |categories| - 1;
      CategoriesMean(categories[..n], marks);
      CategoryMeans(categories[n], marks);
      assert forall i :: 0 <= i < n ==> categories[..n][i] == categories[i];
    }
  }

  /** No conflict is reported exactly when every unassigned item still has a row and no category shows two
      items in one row. */
  lemma {:induction false} ConflictsMean(spec: GridSpec, marks: Marks)
    requires Shaped(spec)
    ensures Conflicts(spec, marks) == [] <==>
      && (forall v :: v in spec.puzzle.variables ==> !Exhausted(spec, marks, v))
      && (forall i :: 0 <= i < |spec.categories| ==> !SharesRow(spec.categories[i].variables, marks))
  {
    hide ExhaustedConflicts, CategoryConflicts, SharesRow, Exhausted, Sort;
    var vs := Ascending(spec.puzzle.variables.Keys);
    ExhaustedMeans(spec, marks, vs);
    CategoriesMean(spec.categories, marks);
    forall v ensures v in vs <==> v in spec.puzzle.variables {
    }
    forall v | v in spec.puzzle.variables ensures exists i :: 0 <= i < |vs| && vs[i] == v {
      assert v in vs;
    }
    forall i | 0 <= i < |vs| ensures vs[i] in spec.puzzle.variables {
      assert vs[i] in vs;
    }
  }
}
