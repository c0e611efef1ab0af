/** Play sessions over one Logic Grid puzzle: a tree of moves kept in an append-only event stream. */
module Play {
  import opened Prelude
  import opened Domain
  import opened Sorting
  import opened LogicGrid

  type EventId = Identifier
  type Cell = (VariableId, ValueId)

  datatype Mode = Strict | Soft | Deferred | Exam
  datatype Status = Active | Paused | Completed

  datatype Action =
    | AssignCell(variable: VariableId, value: ValueId)
    | ExcludeCell(variable: VariableId, value: ValueId)
    | ClearCell(variable: VariableId, value: ValueId)
    | UndoMove
    | RedoMove(target: EventId)
    | CheckCompletion
    | ValidateProgress
    | PauseSession
    | ResumeSession
    | CreateCheckpoint(name: Identifier, folded: Identifier)
    | RestoreCheckpoint(checkpoint: EventId)
  {
    predicate IsCell() {
      AssignCell? || ExcludeCell? || ClearCell?
    }
  }

  datatype Code =
    | SessionClosed | SessionResumed | SessionNotPaused | SessionPaused | SessionAlreadyPaused
    | CheckpointNameExists | CheckpointCreated | CheckpointUnavailable | CheckpointRestored
    | UnknownVariable | UnknownValue | GivenLocked | StructuralConflict | MoveApplied
    | NothingToUndo | MoveUndone | MoveRedone | RedoTargetUnavailable
    | ValidationUnavailable | ConflictsFound | ProgressStructurallyValid
    | CompletionAccepted | CompletionRejected

  datatype ConflictCode = DuplicateRow | NoCandidate
  datatype Conflict = Conflict(code: ConflictCode, references: seq<Identifier>)

  /** The tentative marks: one row per assigned item, and the excluded cells. */
  datatype Marks = Marks(assignments: map<VariableId, ValueId>, exclusions: set<Cell>)

  /** `folded` is the case-folded name, the one compared for uniqueness. */
  datatype Checkpoint = Checkpoint(
    id: EventId, name: Identifier, folded: Identifier, move: Option<EventId>, captured: nat, stateHash: PlayDigest)

  /** Digests as the content they are computed from. */
  datatype PlayDigest = PlayGenesis | OfView(view: View) | OfPlayEvent(body: PlayBody)

  /** Everything the state hash covers. */
  datatype View = View(
    attempt: Identifier, revision: Identifier, mode: Mode, status: Status, marks: Marks,
    conflicts: seq<Conflict>, checkpoints: seq<Checkpoint>, head: Option<EventId>)

  datatype PlayBody = PlayBody(
    id: EventId, sequenceNo: nat, action: Action, accepted: bool, code: Code,
    parent: Option<EventId>, result: Option<EventId>, stateHash: PlayDigest, previous: PlayDigest)

  datatype PlayEvent = PlayEvent(body: PlayBody, hash: PlayDigest) {
    predicate IsMove() {
      body.accepted && body.action.IsCell()
    }
  }

  /** A session; its two digests are functions of these fields. */
  datatype Session = Session(view: View, events: seq<PlayEvent>)

  const MAX_PLAY_EVENTS := 10_000

  // ----- session shape -----

  function ConflictOrder(): Conflict -> Key {
    (c: Conflict) => [if c.code.DuplicateRow? then 0 else 1] + c.references
  }

  predicate WellShaped(view: View) {
    var cs, ks := view.conflicts, view.checkpoints;
    && (forall v :: v in view.marks.assignments ==> (v, view.marks.assignments[v]) !in view.marks.exclusions)
    && (forall i, j :: 0 <= i < j < |cs| ==> LexLeq(ConflictOrder()(cs[i]), ConflictOrder()(cs[j])))
    && (forall i, j :: 0 <= i < j < |ks| ==>
          ks[i].id != ks[j].id && ks[i].folded != ks[j].folded && ks[i].captured <= ks[j].captured)
  }

  /** `_build_session`: the constructor's validator refuses a malformed session. */
  function Build(view: View, events: seq<PlayEvent>): Result<Session> {
    if WellShaped(view) && |events| <= MAX_PLAY_EVENTS then Ok(Session(view, events)) else Err(InvalidValue)
  }

  // ----- marks -----

  function GivenAssignments(givens: seq<Atom>): map<VariableId, ValueId> {
    if givens == [] then map[]
    else
      var n := |givens| - 1;
      var earlier := GivenAssignments(givens[..n]);
      if givens[n].AssignmentAtom? then earlier[givens[n].variable := givens[n].value] else earlier
  }

  function GivenMarks(puzzle: Puzzle): Marks {
    Marks(GivenAssignments(puzzle.givens),
          set g | g in puzzle.givens && g.ExclusionAtom? :: (g.variable, g.value))
  }

  /** The marks after one cell action. */
  function Mark(marks: Marks, action: Action): Marks
    requires action.IsCell()
  {
    var v, x := action.variable, action.value;
    var selected := v in marks.assignments && marks.assignments[v] == x;
    match action
    case AssignCell(_, _) => Marks(marks.assignments[v := x], marks.exclusions - {(v, x)})
    case ExcludeCell(_, _) =>
      Marks(if selected then marks.assignments - {v} else marks.assignments, marks.exclusions + {(v, x)})
    case ClearCell(_, _) =>
      Marks(if selected then marks.assignments - {v} else marks.assignments, marks.exclusions - {(v, x)})
  }

  /** The dictionary and the set that `_apply_cell_action` updates in place. */
  class Board {
    var assignments: map<VariableId, ValueId>
    var exclusions: set<Cell>

    constructor (marks: Marks)
      ensures Contents() == marks
    {
      assignments, exclusions := marks.assignments, marks.exclusions;
    }

    function Contents(): Marks
      reads this
    {
      Marks(assignments, exclusions)
    }

    method Apply(action: Action)
      requires action.IsCell()
      modifies this
      ensures Contents() == Mark(old(Contents()), action)
    {
      var v, x := action.variable, action.value;
      if action.AssignCell? {
        assignments := assignments[v := x];
        exclusions := exclusions - {(v, x)};
      } else {
        if v in assignments && assignments[v] == x {
          assignments := assignments - {v};
        }
        if action.ExcludeCell? {
          exclusions := exclusions + {(v, x)};
        } else {
          exclusions := exclusions - {(v, x)};
        }
      }
    }
  }

  // ----- the move tree -----

  type Moves = map<EventId, PlayEvent>

  /** `_move_events`: accepted cell actions by identifier. */
  function MoveEvents(events: seq<PlayEvent>): (moves: Moves)
    ensures forall n :: n in moves ==> moves[n].IsMove() && moves[n].body.id == n
  {
    if events == [] then map[]
    else
      var n := |events| - 1;
      var earlier := MoveEvents(events[..n]);
      if events[n].IsMove() then earlier[events[n].body.id := events[n]] else earlier
  }

  /** The moves from the root to `at`, refusing missing or repeated ones. */
  function Path(moves: Moves, at: Option<EventId>, seen: set<EventId>): (r: Result<seq<PlayEvent>>)
    decreases |moves.Keys - seen|
  {
    match at
    case None => Ok([])
    case Some(n) =>
      if n in seen || n !in moves then Err(PlaySession)
      else
        assert moves.Keys - (seen + {n}) == moves.Keys - seen - {n};
        var earlier :- Path(moves, moves[n].body.parent, seen + {n});
        Ok(earlier + [moves[n]])
  }

  function Reversed<T>(s: seq<T>): (r: seq<T>)
    ensures |r| == |s|
  {
    if s == [] then [] else Reversed(s[1..]) + [s[0]]
  }

  lemma {:induction false} ReversedExtends<T>(s: seq<T>, x: T)
    ensures Reversed(s + [x]) == [x] + Reversed(s)
  {
    if s != [] {
      ReversedExtends(s[1..], x);
      assert (s + [x])[1..] == s[1..] + [x];
      assert [x] + Reversed(s[1..]) + [s[0]] == [x] + (Reversed(s[1..]) + [s[0]]);
    } else {
      assert [x][1..] == [];
    }
  }

  function Joined(front: Result<seq<PlayEvent>>, back: seq<PlayEvent>): Result<seq<PlayEvent>> {
    if front.Err? then Err(front.error) else Ok(front.value + back)
  }

  lemma {:induction false} WalkStep(moves: Moves, n: EventId, seen: set<EventId>, path: seq<PlayEvent>)
    requires n !in seen && n in moves
    ensures Joined(Path(moves, Some(n), seen), Reversed(path))
      == Joined(Path(moves, moves[n].body.parent, seen + {n}), Reversed(path + [moves[n]]))
  {
    ReversedExtends(path, moves[n]);
    var rest := Path(moves, moves[n].body.parent, seen + {n});
    if rest.Ok? {
      assert rest.value + [moves[n]] + Reversed(path) == rest.value + ([moves[n]] + Reversed(path));
    }
  }

  lemma {:induction false} WalkStart(moves: Moves, at: Option<EventId>)
    ensures Path(moves, at, {}) == Joined(Path(moves, at, {}), Reversed([]))
  {
    var whole := Path(moves, at, {});
    assert whole.Ok? ==> whole.value + [] == whole.value;
  }

  lemma {:induction false} WalkEnd(moves: Moves, at: Option<EventId>, seen: set<EventId>, path: seq<PlayEvent>)
    ensures at.None? ==> Joined(Path(moves, at, seen), Reversed(path)) == Ok(Reversed(path))
    ensures at.Some? && (at.value in seen || at.value !in moves) ==> Path(moves, at, seen) == Err(PlaySession)
  {
    assert [] + Reversed(path) == Reversed(path);
  }

  /** `_active_path`: walks towards the root, remembering what it has seen. */
  method ActivePath(moves: Moves, at: Option<EventId>) returns (r: Result<seq<PlayEvent>>)
    ensures r == Path(moves, at, {})
  {
    hide Path, Reversed;
    var path: seq<PlayEvent> := [];
    var seen: set<EventId> := {};
    var current := at;
    WalkStart(moves, at);
    while current.Some?
      invariant seen <= moves.Keys
      invariant Path(moves, at, {}) == Joined(Path(moves, current, seen), Reversed(path))
      decreases |moves.Keys - seen|
    {
      var n := current.value;
      WalkEnd(moves, current, seen, path);
      if n in seen || n !in moves {
        return Err(PlaySession);
      }
      WalkStep(moves, n, seen, path);
      assert moves.Keys - (seen + {n}) == moves.Keys - seen - {n};
      seen := seen + {n};
      path := path + [moves[n]];
      current := moves[n].body.parent;
    }
    WalkEnd(moves, current, seen, path);
    return Ok(Reversed(path));
  }

  /** The marks after the moves of a path. */
  function Follow(marks: Marks, path: seq<PlayEvent>): Marks {
    if path == [] then marks
    else
      var n := |path| - 1;
      var earlier := Follow(marks, path[..n]);
      if path[n].body.action.IsCell() then Mark(earlier, path[n].body.action) else earlier
  }

  predicate OnlyCells(path: seq<PlayEvent>) {
    forall i :: 0 <= i < |path| ==> path[i].body.action.IsCell()
  }

  /** The marks at one node of the move tree. */
  function Project(puzzle: Puzzle, moves: Moves, at: Option<EventId>): Result<Marks> {
    var path :- Path(moves, at, {});
    if OnlyCells(path) then Ok(Follow(GivenMarks(puzzle), path)) else Err(PlaySession)
  }

  /** `_project_marks` */
  method ProjectMarks(puzzle: Puzzle, moves: Moves, at: Option<EventId>) returns (r: Result<Marks>)
    ensures r == Project(puzzle, moves, at)
  {
    var path := ActivePath(moves, at);
    if path.Err? {
      return Err(path.error);
    }
    var board := new Board(GivenMarks(puzzle));
    for i := 0 to |path.value|
      invariant OnlyCells(path.value[..i])
      invariant board.Contents() == Follow(GivenMarks(puzzle), path.value[..i])
    {
      var e := path.value[i];
      assert path.value[..i + 1][..i] == path.value[..i];
      if !e.body.action.IsCell() {
        return Err(PlaySession);
      }
      board.Apply(e.body.action);
    }
    assert path.value[..|path.value|] == path.value;
    return Ok(board.Contents());
  }

  // ----- structural conflicts -----

  /** The item has no row left. */
  predicate Exhausted(spec: GridSpec, marks: Marks, v: VariableId)
    requires Shaped(spec)
  {
    v !in marks.assignments && forall x :: x in ValueIds(Anchor(spec)) ==> (v, x) in marks.exclusions
  }

  function ExhaustedConflicts(spec: GridSpec, marks: Marks, vs: seq<VariableId>): seq<Conflict>
    requires Shaped(spec)
  {
    if vs == [] then []
    else
      var n := |vs| - 1;
      ExhaustedConflicts(spec, marks, vs[..n])
        + (if Exhausted(spec, marks, vs[n]) then [Conflict(NoCandidate, [vs[n]])] else [])
  }

  /** The items of a list that select row `x`. */
  function Selectors(vs: seq<VariableId>, marks: Marks, x: ValueId): seq<VariableId> {
    if vs == [] then []
    else
      var rest := Selectors(vs[1..], marks, x);
      if vs[0] in marks.assignments && marks.assignments[vs[0]] == x then [vs[0]] + rest else rest
  }

  function SelectedRows(vs: seq<VariableId>, marks: Marks): set<ValueId> {
    set v | v in vs && v in marks.assignments :: marks.assignments[v]
  }

  function RowConflicts(category: Category, marks: Marks, xs: seq<ValueId>): seq<Conflict> {
    if xs == [] then []
    else
      var n := |xs| - 1;
      var items := Selectors(category.variables, marks, xs[n]);
      RowConflicts(category, marks, xs[..n])
        + (if |items| > 1
           then [Conflict(DuplicateRow, Ascending({category.id, xs[n]} + Elements(items)))] else [])
  }

  function CategoryConflicts(categories: seq<Category>, marks: Marks): seq<Conflict> {
    if categories == [] then []
    else
      var n := |categories| - 1;
      CategoryConflicts(categories[..n], marks)
        + RowConflicts(categories[n], marks, Ascending(SelectedRows(categories[n].variables, marks)))
  }

  function Conflicts(spec: GridSpec, marks: Marks): seq<Conflict>
    requires Shaped(spec)
  {
    Sort(ExhaustedConflicts(spec, marks, Ascending(spec.puzzle.variables.Keys))
           + CategoryConflicts(spec.categories, marks),
         ConflictOrder())
  }

  /** The inner loop over the rows of one category. */
  method DuplicateRows(category: Category, marks: Marks, rows: seq<ValueId>) returns (conflicts: seq<Conflict>)
    ensures conflicts == RowConflicts(category, marks, rows)
  {
    conflicts := [];
    for j := 0 to |rows|
      invariant conflicts == RowConflicts(category, marks, rows[..j])
    {
      assert rows[..j + 1][..j] == rows[..j];
      var items := Selectors(category.variables, marks, rows[j]);
      if |items| > 1 {
        conflicts := conflicts + [Conflict(DuplicateRow, Ascending({category.id, rows[j]} + Elements(items)))];
      }
    }
    assert rows[..|rows|] == rows;
  }

  /** `_progress_conflicts`: items first, then categories, then one sort. */
  method ProgressConflicts(spec: GridSpec, marks: Marks) returns (conflicts: seq<Conflict>)
    requires Shaped(spec)
    ensures conflicts == Conflicts(spec, marks)
  {
    hide Exhausted, RowConflicts, SelectedRows, Ascending, ConflictOrder;
    conflicts := [];
    var variables := Ascending(spec.puzzle.variables.Keys);
    for i := 0 to |variables|
      invariant conflicts == ExhaustedConflicts(spec, marks, variables[..i])
    {
      assert variables[..i + 1][..i] == variables[..i];
      if Exhausted(spec, marks, variables[i]) {
        conflicts := conflicts + [Conflict(NoCandidate, [variables[i]])];
      }
    }
    assert variables[..|variables|] == variables;
    ghost var exhausted := conflicts;
    for i := 0 to |spec.categories|
      invariant conflicts == exhausted + CategoryConflicts(spec.categories[..i], marks)
    {
      assert spec.categories[..i + 1][..i] == spec.categories[..i];
      var category := spec.categories[i];
      var rows := Ascending(SelectedRows(category.variables, marks));
      var duplicates := DuplicateRows(category, marks, rows);
      conflicts := conflicts + duplicates;
    }
    assert spec.categories[..|spec.categories|] == spec.categories;
    conflicts := Sort(conflicts, ConflictOrder());
  }

  function AutomaticConflicts(mode: Mode, spec: GridSpec, marks: Marks): seq<Conflict>
    requires Shaped(spec)
  {
    if mode.Strict? || mode.Soft? then Conflicts(spec, marks) else []
  }

  // ----- actions -----

  /** `_cell_rejection` */
  function CellRejection(spec: GridSpec, action: Action): Option<Code>
    requires Shaped(spec) && action.IsCell()
  {
    var given := GivenMarks(spec.puzzle);
    if action.variable !in spec.puzzle.variables then Some(UnknownVariable)
    else if action.value !in ValueIds(Anchor(spec)) then Some(UnknownValue)
    else if action.variable in given.assignments then Some(GivenLocked)
    else if (action.variable, action.value) in given.exclusions then Some(GivenLocked)
    else None
  }

  /** What an action decides, before it is recorded. */
  datatype Decision = Decision(accepted: bool, code: Code, view: View)

  function Refuse(s: Session, code: Code): Decision {
    Decision(false, code, s.view)
  }

  /** Moving the cursor to a node, with the marks found there. */
  function MoveTo(s: Session, spec: GridSpec, accepted: bool, code: Code, target: Option<EventId>): Result<Decision>
    requires Shaped(spec)
  {
    var marks :- Project(spec.puzzle, MoveEvents(s.events), target);
    Ok(Decision(accepted, code,
      s.view.(marks := marks, head := target, conflicts := AutomaticConflicts(s.view.mode, spec, marks))))
  }

  function FindCheckpoint(ks: seq<Checkpoint>, id: EventId): (r: Option<Checkpoint>)
    ensures r.Some? ==> r.value in ks && r.value.id == id
  {
    if ks == [] then None else if ks[0].id == id then Some(ks[0]) else FindCheckpoint(ks[1..], id)
  }

  function DecideCell(s: Session, spec: GridSpec, id: EventId, action: Action): Decision
    requires Shaped(spec) && action.IsCell()
  {
    var rejection := CellRejection(spec, action);
    if rejection.Some? then Refuse(s, rejection.value)
    else
      var marks := Mark(s.view.marks, action);
      var conflicts := Conflicts(spec, marks);
      if s.view.mode.Strict? && conflicts != [] then Refuse(s, StructuralConflict)
      else
        Decision(true, MoveApplied,
          s.view.(marks := marks, head := Some(id), conflicts := if s.view.mode.Soft? then conflicts else []))
  }

  function DecideCompletion(s: Session, spec: GridSpec): Decision
    requires Shaped(spec)
  {
    var listing := Listed(s.view.marks.assignments);
    if CleanListing(spec, listing) && Accepts(spec, ByVariable(listing)) then
      Decision(true, CompletionAccepted, s.view.(status := Completed, conflicts := []))
    else
      Decision(false, CompletionRejected,
        s.view.(conflicts := if s.view.mode.Exam? then [] else Conflicts(spec, s.view.marks)))
  }

  function DecideCheckpoint(s: Session, id: EventId, name: Identifier, folded: Identifier): Decision {
    if exists k :: k in s.view.checkpoints && k.folded == folded then Refuse(s, CheckpointNameExists)
    else
      var checkpoint := Checkpoint(id, name, folded, s.view.head, |s.events|, OfView(s.view));
      Decision(true, CheckpointCreated, s.view.(checkpoints := s.view.checkpoints + [checkpoint]))
  }

  /** The decision chain of `_apply_logic_grid_play_action`. */
  function Decide(s: Session, spec: GridSpec, id: EventId, action: Action): Result<Decision>
    requires Shaped(spec)
  {
    var view, moves := s.view, MoveEvents(s.events);
    if view.status.Completed? then Ok(Refuse(s, SessionClosed))
    else if action.ResumeSession? then
      Ok(if view.status.Paused? then Decision(true, SessionResumed, view.(status := Active))
         else Refuse(s, SessionNotPaused))
    else if action.PauseSession? then
      Ok(Decision(view.status.Active?, if view.status.Active? then SessionPaused else SessionAlreadyPaused,
                  view.(status := Paused)))
    else if action.CreateCheckpoint? then Ok(DecideCheckpoint(s, id, action.name, action.folded))
    else if view.status.Paused? then Ok(Refuse(s, SessionPaused))
    else if action.RestoreCheckpoint? then
      var found := FindCheckpoint(view.checkpoints, action.checkpoint);
      if found.None? then Ok(Refuse(s, CheckpointUnavailable))
      else MoveTo(s, spec, true, CheckpointRestored, found.value.move)
    else if action.IsCell() then Ok(DecideCell(s, spec, id, action))
    else if action.UndoMove? then
      if view.head.None? then MoveTo(s, spec, false, NothingToUndo, None)
      else if view.head.value !in moves then Err(PlaySession)
      else MoveTo(s, spec, true, MoveUndone, moves[view.head.value].body.parent)
    else if action.RedoMove? then
      if action.target in moves && moves[action.target].body.parent == view.head
      then MoveTo(s, spec, true, MoveRedone, Some(action.target))
      else MoveTo(s, spec, false, RedoTargetUnavailable, view.head)
    else if action.ValidateProgress? then
      if view.mode.Exam? then Ok(Refuse(s, ValidationUnavailable))
      else
        var conflicts := Conflicts(spec, view.marks);
        Ok(Decision(true, if conflicts != [] then ConflictsFound else ProgressStructurallyValid,
                    view.(conflicts := conflicts)))
    else Ok(DecideCompletion(s, spec))
  }

  function LastHash(events: seq<PlayEvent>): PlayDigest {
    if events == [] then PlayGenesis else events[|events| - 1].hash
  }

  /** The sealed record of a decision. */
  function EventFor(s: Session, id: EventId, action: Action, d: Decision): PlayEvent {
    var body := PlayBody(id, |s.events|, action, d.accepted, d.code, s.view.head, d.view.head,
                         OfView(d.view), LastHash(s.events));
    PlayEvent(body, OfPlayEvent(body))
  }

  /** `_append_outcome`: the provisional session supplies the state hash, the final one is returned. */
  function AppendOutcome(s: Session, id: EventId, action: Action, d: Decision): Result<Session> {
    var provisional :- Build(d.view, s.events);
    Build(provisional.view, s.events + [EventFor(s, id, action, d)])
  }

  predicate KnownId(events: seq<PlayEvent>, id: EventId) {
    exists e :: e in events && e.body.id == id
  }

  /** One action, without re-verifying the session. */
  function Step(s: Session, spec: GridSpec, id: EventId, action: Action): Result<Session>
    requires Shaped(spec)
  {
    if s.view.revision != spec.puzzle.revision then Err(PlaySession)
    else if KnownId(s.events, id) then Err(PlaySession)
    else if |s.events| >= MAX_PLAY_EVENTS then Err(PlaySession)
    else
      var d :- Decide(s, spec, id, action);
      AppendOutcome(s, id, action, d)
  }

  function Start(spec: GridSpec, attempt: Identifier, mode: Mode): Result<Session> {
    Build(View(attempt, spec.puzzle.revision, mode, Active, GivenMarks(spec.puzzle), [], [], None), [])
  }

  // ----- replay -----

  /** One event of a stream, checked against what its action would have recorded. */
  function ReplayEvent(s: Session, spec: GridSpec, source: PlayEvent): Result<Session>
    requires Shaped(spec)
  {
    if source.body.sequenceNo != |s.events| then Err(PlaySession)
    else if source.body.previous != LastHash(s.events) then Err(PlaySession)
    else
      var next :- Step(s, spec, source.body.id, source.body.action);
      if next.events == [] || next.events[|next.events| - 1] != source then Err(PlaySession) else Ok(next)
  }

  function Replay(spec: GridSpec, attempt: Identifier, mode: Mode, events: seq<PlayEvent>): Result<Session>
    requires Shaped(spec)
  {
    if events == [] then Start(spec, attempt, mode)
    else
      var earlier :- Replay(spec, attempt, mode, events[..|events| - 1]);
      ReplayEvent(earlier, spec, events[|events| - 1])
  }

  /** `replay_logic_grid_play` */
  method ReplayStream(spec: GridSpec, attempt: Identifier, mode: Mode, events: seq<PlayEvent>)
    returns (r: Result<Session>)
    requires Shaped(spec)
    ensures r == Replay(spec, attempt, mode, events)
  {
    r := Start(spec, attempt, mode);
    for i := 0 to |events|
      invariant r == Replay(spec, attempt, mode, events[..i])
    {
      assert events[..i + 1][..i] == events[..i];
      if r.Ok? {
        r := ReplayEvent(r.value, spec, events[i]);
      }
    }
    assert events[..|events|] == events;
  }

  /** `apply_logic_grid_play_action`: the session must equal the replay of its own events. */
  function Apply(s: Session, spec: GridSpec, id: EventId, action: Action): Result<Session>
    requires Shaped(spec)
  {
    if s.view.revision != spec.puzzle.revision then Err(PlaySession)
    else if KnownId(s.events, id) then Err(PlaySession)
    else if |s.events| >= MAX_PLAY_EVENTS then Err(PlaySession)
    else
      var replayed :- Replay(spec, s.view.attempt, s.view.mode, s.events);
      if replayed != s then Err(PlaySession) else Step(s, spec, id, action)
  }
}
