/** Shared vocabulary: failures, identifiers, and a few facts about sets and sequences. */
module Prelude {

  // Identifiers are only ever compared for equality and order, so any totally ordered
  // type will do; integers keep both built in.
  type Identifier = int
  type VariableId = Identifier
  type ValueId = Identifier
  type DomainId = Identifier
  type ConstraintId = Identifier

  datatype Option<+T> = None | Some(value: T)

  /** The exception classes that callers of the modelled code can tell apart. */
  datatype Error =
    | InvalidValue
    | RuleContract
    | StateConflict
    | UnsupportedStateEvent
    | SearchDisclosure
    | VerificationRejected
    | Encoding
    | PlaySession
    | StreamIntegrity
    | StreamConflict
    | DuplicateEvent
    | AttemptExists
    | NoEvents

  datatype Result<+T> = Ok(value: T) | Err(error: Error) {
    predicate IsFailure() {
      Err?
    }

    function PropagateFailure<U>(): Result<U>
      requires Err?
    {
      Err(error)
    }

    function Extract(): T
      requires Ok?
    {
      value
    }
  }

  predicate NoDuplicates<T(==)>(s: seq<T>) {
    forall i, j :: 0 <= i < j < |s| ==> s[i] != s[j]
  }

  function Elements<T(==)>(s: seq<T>): set<T> {
    set x | x in s
  }

  /** The one element of a singleton set. */
  function TheOnly<T(==)>(s: set<T>): (x: T)
    requires |s| == 1
    ensures s == {x}
  {
    SingletonIsUnique(s);
    var x :| x in s;
    x
  }

  lemma {:induction false} SingletonIsUnique<T>(s: set<T>)
    requires |s| == 1
    ensures forall x, y :: x in s && y in s ==> x == y
    ensures exists x :: x in s && s == {x}
  {
    var x :| x in s;
    assert |s - {x}| == 0;
    assert s == {x};
  }

  /** The least member, the head of Python's `sorted`. */
  function Least(s: set<int>): (m: int)
    requires s != {}
    ensures m in s
    ensures forall y :: y in s ==> m <= y
  {
    HasLeast(s);
    var m :| m in s && forall y :: y in s ==> m <= y;
    m
  }

  ghost function AnyOf<T>(s: set<T>): (x: T)
    requires s != {}
    ensures x in s
  {
    var x :| x in s;
    x
  }

  lemma {:induction false} HasLeast(s: set<int>)
    requires s != {}
    ensures exists m :: m in s && forall y :: y in s ==> m <= y
  {
    var x := AnyOf(s);
    var rest := s - {x};
    if rest == {} {
      assert s == {x};
    } else {
      HasLeast(rest);
      var m :| m in rest && forall y :: y in rest ==> m <= y;
      var least := if x <= m then x else m;
      forall y | y in s ensures least <= y {
        assert y == x || y in rest;
      }
      assert least in s;
    }
  }

  /** The members of `s` in ascending order, as Python's `sorted` lists them. */
  function Ascending(s: set<int>): (r: seq<int>)
    ensures forall x :: x in r <==> x in s
    ensures forall i, j :: 0 <= i < j < |r| ==> r[i] < r[j]
    decreases |s|
  {
    if s == {} then []
    else
      var x := Least(s);
      [x] + Ascending(s - {x})
  }

  lemma {:induction false} AscendingElements(s: set<int>)
    ensures Elements(Ascending(s)) == s && Elements(Ascending(s)[..0]) == {}
    ensures NoDuplicates(Ascending(s))
  {
    hide Ascending;
    var r := Ascending(s);
    forall x ensures x in Elements(r) <==> x in s {
      assert x in r <==> x in s;
    }
  }

  lemma {:induction false} AscendingSize(s: set<int>)
    ensures |Ascending(s)| == |s|
    decreases |s|
  {
    if s != {} {
      AscendingSize(s - {Least(s)});
    }
  }

  lemma {:induction false} SubsetSize<T>(a: set<T>, b: set<T>)
    requires a <= b
    ensures |a| <= |b|
    ensures |a| == |b| ==> a == b
  {
    assert b == a + (b - a);
    assert |b| == |a| + |b - a|;
  }

  function Power(n: nat, k: nat): nat {
    if k == 0 then 1 else n * Power(n, k - 1)
  }

  /** A duplicate-free sequence has as many entries as members. */
  lemma {:induction false} DistinctSize<T>(s: seq<T>)
    requires NoDuplicates(s)
    ensures |Elements(s)| == |s|
  {
    if s != [] {
      var last := |s| - 1;
      DistinctSize(s[..last]);
      assert s[last] !in Elements(s[..last]);
      assert Elements(s) == Elements(s[..last]) + {s[last]};
    }
  }

  lemma {:induction false} OneMore<T>(s: seq<T>, free: set<T>)
    requires s != [] && NoDuplicates(s)
    ensures |Elements(s) * free| == |Elements(s[1..]) * free| + if s[0] in free then 1 else 0
  {
    var x, rest := s[0], s[1..];
    assert s == [x] + rest && x !in rest;
    assert Elements(s) == {x} + Elements(rest);
    if x in free {
      assert Elements(s) * free == {x} + Elements(rest) * free;
    } else {
      assert Elements(s) * free == Elements(rest) * free;
    }
  }

  lemma {:induction false} NoElements<T>()
    ensures Elements<T>([]) == {}
  {
  }

  /** Counting argument behind hidden singles: an injection into a set of its own size is onto. */
  lemma {:induction false} Pigeonhole<T>(s: seq<T>, values: set<T>)
    requires NoDuplicates(s)
    requires forall x :: x in s ==> x in values
    requires |s| == |values|
    ensures forall x :: x in values ==> x in s
  {
    DistinctSize(s);
    assert Elements(s) <= values;
    SubsetSize(Elements(s), values);
  }
}
