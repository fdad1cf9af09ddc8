/** What the steps of a log import guarantee: the relation table is the ancestor closure of the recorded
    parents, and every step that could break it is refused. */
module ImportLaws {
  import opened Wrappers
  import opened ImportDb

  // ---------- the ancestor closure ----------

  function DepthOf(tests: seq<TestRow>, t: nat): nat
    decreases t
  {
    if t < |tests| && tests[t].parent.Some? && tests[t].parent.value < t then 1 + DepthOf(tests, tests[t].parent.value)
    else 0
  }

  /** The iteration around an iteration, as recorded at depth 1. */
  function Around(db: Db, x: nat): Option<nat> {
    var ps := DirectParents(db.relations, x);
    if ps != {} && !(exists p, q :: p in ps && q in ps && p != q) then Only(ps) else None
  }

  /** The ancestor `n` levels above. */
  function Up(db: Db, x: nat, n: nat): Option<nat>
    decreases n
  {
    if n == 0 then Some(x)
    else
      match Around(db, x)
      case None => None
      case Some(y) => Up(db, y, n - 1)
  }

  function Depth(db: Db, x: nat): nat {
    if x < |db.iterations| then DepthOf(db.tests, db.iterations[x].test) else 0
  }

  /** Tests form a tree. */
  ghost predicate TestTree(tests: seq<TestRow>) {
    forall t :: 0 <= t < |tests| && tests[t].parent.Some? ==> tests[t].parent.value < t
  }

  /** Around an iteration there is one of its test's parent. */
  ghost predicate IterationTree(db: Db) {
    forall x :: 0 <= x < |db.iterations| ==> Surrounded(db, x)
  }

  ghost predicate Surrounded(db: Db, x: nat)
    requires x < |db.iterations|
  {
    && db.iterations[x].test < |db.tests|
    && match (db.tests[db.iterations[x].test].parent, Around(db, x)) {
         case (None, y) => y.None?
         case (Some(t), y) => y.Some? && y.value < |db.iterations| && db.iterations[y.value].test == t
       }
  }

  /** Iterations are stored once, and those of packages and sessions have no hash. */
  ghost predicate IterationRows(db: Db) {
    && (forall x, y :: 0 <= x < y < |db.iterations| ==> db.iterations[x] != db.iterations[y])
    && forall x :: 0 <= x < |db.iterations| && db.iterations[x].test < |db.tests| ==>
         db.tests[db.iterations[x].test].kind == Test || db.iterations[x].hash == None
  }

  /** What the relation table should hold for iteration `x` at depth `d`. */
  function Expected(db: Db, x: nat, d: nat): Relation {
    Relation(x, if d == 0 then None else Up(db, x, d), d)
  }

  predicate Applies(db: Db, x: nat, d: nat) {
    if Depth(db, x) == 0 then d == 0 else 1 <= d <= Depth(db, x)
  }

  /** The relation table is the ancestor closure: the d-th ancestor at every depth, and nothing else. */
  ghost predicate Closure(db: Db) {
    && (forall r :: r in db.relations ==>
          && r.iteration < |db.iterations| && Applies(db, r.iteration, r.depth)
          && r == Expected(db, r.iteration, r.depth))
    && (forall x, d {:trigger Expected(db, x, d)} ::
          0 <= x < |db.iterations| && 0 <= d && Applies(db, x, d) ==> Expected(db, x, d) in db.relations)
  }

  ghost predicate Valid(db: Db) {
    TestTree(db.tests) && IterationTree(db) && IterationRows(db) && Closure(db)
  }

  lemma {:induction false} DepthOfPrefix(tests: seq<TestRow>, more: seq<TestRow>, t: nat)
    requires tests <= more && t < |tests|
    ensures DepthOf(more, t) == DepthOf(tests, t)
    decreases t
  {
    assert more[t] == tests[t];
    if tests[t].parent.Some? && tests[t].parent.value < t {
      DepthOfPrefix(tests, more, tests[t].parent.value);
    }
  }

  /** One level up is one level less deep. */
  lemma {:induction false} AroundDepth(db: Db, x: nat)
    requires TestTree(db.tests) && IterationTree(db) && x < |db.iterations|
    ensures Around(db, x).Some? <==> Depth(db, x) > 0
    ensures Around(db, x).Some? ==>
              Around(db, x).value < |db.iterations| && Depth(db, Around(db, x).value) == Depth(db, x) - 1
  {
    hide Around;
    assert Surrounded(db, x);
  }

  lemma {:induction false} UpDefined(db: Db, x: nat, n: nat)
    requires TestTree(db.tests) && IterationTree(db) && x < |db.iterations| && n <= Depth(db, x)
    ensures Up(db, x, n).Some? && Up(db, x, n).value < |db.iterations|
    ensures Depth(db, Up(db, x, n).value) == Depth(db, x) - n
    decreases n
  {
    hide Around, IterationTree;
    if n > 0 {
      AroundDepth(db, x);
      UpDefined(db, Around(db, x).value, n - 1);
    }
  }

  lemma {:induction false} UpSucc(db: Db, x: nat, n: nat)
    requires Up(db, x, n).Some?
    ensures Up(db, x, n + 1) == Around(db, Up(db, x, n).value)
    decreases n
  {
    hide Around;
    if n == 0 {
      if Around(db, x).Some? {
        assert Up(db, Around(db, x).value, 0) == Some(Around(db, x).value);
      }
    } else {
      UpSucc(db, Around(db, x).value, n - 1);
    }
  }

  /** Tables in which the same iterations are around the existing ones. */
  ghost predicate SameAround(db: Db, db': Db) {
    && db.tests <= db'.tests && db.iterations <= db'.iterations
    && forall x :: 0 <= x < |db.iterations| ==> Around(db', x) == Around(db, x)
  }

  lemma {:induction false} SameUp(db: Db, db': Db, x: nat, n: nat)
    requires IterationTree(db) && x < |db.iterations| && SameAround(db, db')
    ensures Up(db', x, n) == Up(db, x, n)
    decreases n
  {
    hide Around;
    if n > 0 && Around(db, x).Some? {
      assert Surrounded(db, x);
      SameUp(db, db', Around(db, x).value, n - 1);
    }
  }

  lemma {:induction false} SamePast(db: Db, db': Db)
    requires IterationTree(db) && SameAround(db, db')
    ensures forall x :: 0 <= x < |db.iterations| ==> Depth(db', x) == Depth(db, x)
    ensures forall x, d: nat {:trigger Expected(db', x, d)} ::
              0 <= x < |db.iterations| ==> Expected(db', x, d) == Expected(db, x, d)
  {
    hide Around;
    forall x | 0 <= x < |db.iterations|
      ensures Depth(db', x) == Depth(db, x)
    {
      assert Surrounded(db, x) && db'.iterations[x] == db.iterations[x];
      DepthOfPrefix(db.tests, db'.tests, db.iterations[x].test);
    }
    forall x, d: nat {:trigger Expected(db', x, d)} | 0 <= x < |db.iterations|
      ensures Expected(db', x, d) == Expected(db, x, d)
    {
      SameUp(db, db', x, d);
    }
  }

  /** The parts of the tables that exist in both stay in order. */
  lemma {:induction false} TreeStays(db: Db, db': Db, x: nat)
    requires IterationTree(db) && SameAround(db, db') && x < |db.iterations|
    ensures Surrounded(db', x)
  {
    hide Around;
    assert Surrounded(db, x);
    assert db'.iterations[x] == db.iterations[x] && db'.tests[db.iterations[x].test] == db.tests[db.iterations[x].test];
    if Around(db, x).Some? {
      assert db'.iterations[Around(db, x).value] == db.iterations[Around(db, x).value];
    }
  }

  lemma {:induction false} TestAdded(db: Db, name: string, kind: Kind, parent: Option<nat>)
    requires AddTest(db, name, kind, parent).Success?
    ensures var (added, t) := AddTest(db, name, kind, parent).value;
            && added == db.(tests := added.tests) && db.tests <= added.tests
            && t < |added.tests| && added.tests[t] == TestRow(name, parent, kind)
  {}

  lemma {:induction false} IterationAdded(db: Db, row: IterationRow, parent: Option<nat>, depth: nat)
    requires AddIteration(db, row, parent, depth).Success?
    ensures var (added, x) := AddIteration(db, row, parent, depth).value;
            && db.iterations <= added.iterations && x < |added.iterations| && added.iterations[x] == row
  {}

  /** Adding a test keeps the tables valid. */
  lemma {:induction false} AddTestValid(db: Db, name: string, kind: Kind, parent: Option<nat>)
    requires Valid(db) && (parent.Some? ==> parent.value < |db.tests|) && AddTest(db, name, kind, parent).Success?
    ensures Valid(AddTest(db, name, kind, parent).value.0)
  {
    hide Around;
    TestAdded(db, name, kind, parent);
    var (added, t) := AddTest(db, name, kind, parent).value;
    assert TestTree(added.tests);
    SameDirect(db, added);
    SamePast(db, added);
    forall x | 0 <= x < |added.iterations|
      ensures Surrounded(added, x)
    {
      TreeStays(db, added, x);
    }
    assert IterationTree(added);
    SameRows(db, added);
    ClosureMoves(db, added);
  }

  lemma {:induction false} SameRows(db: Db, added: Db)
    requires IterationTree(db) && IterationRows(db) && added.iterations == db.iterations && db.tests <= added.tests
    ensures IterationRows(added)
  {
    hide Around;
    forall x | 0 <= x < |db.iterations|
      ensures db.iterations[x].test < |db.tests|
    {
      assert Surrounded(db, x);
    }
  }

  lemma {:induction false} SameDirect(db: Db, db': Db)
    requires db'.relations == db.relations && db.tests <= db'.tests && db.iterations <= db'.iterations
    ensures SameAround(db, db')
  {}

  /** The closure does not depend on tests without iterations. */
  lemma {:induction false} ClosureMoves(db: Db, db': Db)
    requires Closure(db) && db'.iterations == db.iterations && db'.relations == db.relations
    requires forall x :: 0 <= x < |db.iterations| ==> Depth(db', x) == Depth(db, x)
    requires forall x, d: nat {:trigger Expected(db', x, d)} ::
               0 <= x < |db.iterations| ==> Expected(db', x, d) == Expected(db, x, d)
    ensures Closure(db')
  {
    hide Depth, Expected;
    forall r | r in db'.relations
      ensures r.iteration < |db'.iterations| && Applies(db', r.iteration, r.depth)
      ensures r == Expected(db', r.iteration, r.depth)
    {
      assert r == Expected(db, r.iteration, r.depth) && Depth(db', r.iteration) == Depth(db, r.iteration);
    }
  }

  // ---------- relating a new iteration ----------

  /** `relations` are those of `db` and, for a new iteration `x` inside `p`, its ancestors up to depth `n`. */
  ghost predicate AddedUpTo(db: Db, relations: set<Relation>, x: nat, p: nat, n: nat) {
    forall r :: r in relations <==>
      r in db.relations || (r.iteration == x && 1 <= r.depth <= n && r.parent == Up(db, p, r.depth - 1))
  }

  /** The lookup of the parent at depth 1 finds exactly the iteration around. */
  lemma {:induction false} OneParent(db: Db, relations: set<Relation>, x: nat, p: nat, n: nat, q: nat)
    requires Valid(db) && AddedUpTo(db, relations, x, p, n) && q < |db.iterations| <= x && Depth(db, q) > 0
    ensures DirectParents(relations, q) == {Around(db, q)}
  {
    hide Around, IterationTree, IterationRows, TestTree;
    assert Up(db, q, 1) == Around(db, q) by {
      UpSucc(db, q, 0);
    }
    assert Applies(db, q, 1) && Expected(db, q, 1) in db.relations;
    assert Relation(q, Around(db, q), 1) in relations;
    forall y | y in DirectParents(relations, q)
      ensures y == Around(db, q)
    {
      var r :| r in relations && r.iteration == q && r.depth == 1 && r.parent == y;
      assert r in db.relations && r == Expected(db, q, 1);
    }
  }

  /** The loop that walks up the parents: every lookup finds its row, and the new iteration gets exactly its
      ancestors. */
  lemma {:induction false} AddRelationsExact(db: Db, x: nat, p: nat, d: nat, relations: set<Relation>)
    requires Valid(db) && p < |db.iterations| <= x && 1 <= d <= Depth(db, p) + 1
    requires AddedUpTo(db, relations, x, p, d - 1)
    ensures var r := AddRelations(relations, x, Up(db, p, d - 1), d, Depth(db, p) + 1);
            r.Success? && AddedUpTo(db, r.value, x, p, Depth(db, p) + 1)
    decreases Depth(db, p) + 1 - d
  {
    hide TestTree, IterationTree, IterationRows, Up, Around, Depth, DirectParents;
    var parent := Up(db, p, d - 1);
    NewRelation(db, relations, x, p, d);
    UpDefined(db, p, d - 1);
    var one := relations + {Relation(x, parent, d)};
    if d <= Depth(db, p) {
      UpSucc(db, p, d - 1);
      OneParent(db, one, x, p, d, parent.value);
      AddRelationsExact(db, x, p, d + 1, one);
    }
  }

  lemma {:induction false} NewRelation(db: Db, relations: set<Relation>, x: nat, p: nat, d: nat)
    requires Closure(db) && |db.iterations| <= x && d >= 1 && AddedUpTo(db, relations, x, p, d - 1)
    ensures AddRelation(relations, Relation(x, Up(db, p, d - 1), d))
            == Success(relations + {Relation(x, Up(db, p, d - 1), d)})
    ensures AddedUpTo(db, relations + {Relation(x, Up(db, p, d - 1), d)}, x, p, d)
  {}

  // ---------- adding an iteration ----------

  /** What callers pass for an iteration of `test`: an iteration of its parent, and the length of its chain of
      parents. */
  predicate Fits(db: Db, test: nat, parent: Option<nat>, depth: nat) {
    && test < |db.tests|
    && depth == DepthOf(db.tests, test)
    && match (db.tests[test].parent, parent) {
         case (None, p) => p.None?
         case (Some(t), p) => p.Some? && p.value < |db.iterations| && db.iterations[p.value].test == t
       }
  }

  function RowOf(db: Db, test: nat, hash: string): IterationRow
    requires test < |db.tests|
  {
    RowFor(db.tests[test].kind, test, hash)
  }

  /** Has the iteration been recorded inside another one? */
  ghost predicate Elsewhere(db: Db, row: IterationRow, parent: Option<nat>) {
    row in db.iterations && Around(db, IndexOf(db.iterations, row)) != parent
  }

  /** Whatever iteration of the parent it is added under, an iteration is refused if and only if it has been
      recorded inside another one; otherwise the relation table stays the ancestor closure.  No lookup on the
      way up ever fails. */
  lemma {:induction false} AddIterationExact(db: Db, test: nat, hash: string, parent: Option<nat>, depth: nat)
    requires Valid(db) && Fits(db, test, parent, depth)
    ensures var row := RowOf(db, test, hash);
            var r := AddIteration(db, row, parent, depth);
            && (r.Failure? <==> Elsewhere(db, row, parent))
            && (r.Failure? ==> r == Failure(Integrity))
            && (r.Success? ==> Valid(r.value.0) && r.value.0.tests == db.tests && db.iterations <= r.value.0.iterations)
  {
    hide Valid, AddIteration, Around;
    var row := RowOf(db, test, hash);
    if row in db.iterations {
      KnownIteration(db, row, parent, depth);
    } else {
      NewIteration(db, test, hash, parent, depth);
    }
  }

  /** Inside a package or session nothing is ever refused, since it has one iteration. */
  lemma {:induction false} PackageNeverRefuses(db: Db, test: nat, hash: string, parent: Option<nat>, depth: nat)
    requires Valid(db) && Fits(db, test, parent, depth)
    requires db.tests[test].parent.Some? ==>
               db.tests[test].parent.value < |db.tests| && db.tests[db.tests[test].parent.value].kind != Test
    ensures AddIteration(db, RowOf(db, test, hash), parent, depth).Success?
  {
    hide Around, Closure, AddIteration;
    AddIterationExact(db, test, hash, parent, depth);
    var row := RowOf(db, test, hash);
    if row in db.iterations {
      var x := IndexOf(db.iterations, row);
      assert Surrounded(db, x);
      if parent.Some? {
        assert db.iterations[parent.value] == db.iterations[Around(db, x).value];
      }
    }
  }

  lemma {:induction false} RelationsPresent(db: Db, x: nat, d: nat)
    requires Valid(db) && x < |db.iterations| && 1 <= d <= Depth(db, x)
    ensures AddRelations(db.relations, x, Up(db, x, d), d, Depth(db, x)) == Success(db.relations)
    decreases Depth(db, x) - d
  {
    hide TestTree, IterationTree, IterationRows, Up, Around, Depth, DirectParents;
    assert Applies(db, x, d) && Expected(db, x, d) == Relation(x, Up(db, x, d), d);
    assert Expected(db, x, d) in db.relations;
    if d < Depth(db, x) {
      UpDefined(db, x, d);
      UpSucc(db, x, d);
      OneParent(db, db.relations, |db.iterations|, x, 0, Up(db, x, d).value);
      RelationsPresent(db, x, d + 1);
    }
  }

  /** A known iteration is found, unless it was recorded inside another one. */
  lemma {:induction false} KnownIteration(db: Db, row: IterationRow, parent: Option<nat>, depth: nat)
    requires Valid(db) && Fits(db, row.test, parent, depth) && row in db.iterations
    ensures AddIteration(db, row, parent, depth) ==
            if Elsewhere(db, row, parent) then Failure(Integrity) else Success((db, IndexOf(db.iterations, row)))
  {
    var x := IndexOf(db.iterations, row);
    assert Depth(db, x) == depth;
    AroundDepth(db, x);
    hide Around, TestTree, IterationTree, IterationRows;
    if depth == 0 {
      assert Applies(db, x, 0) && Expected(db, x, 0) in db.relations;
    } else {
      UpSucc(db, x, 0);
      if Around(db, x) == parent {
        RelationsPresent(db, x, 1);
      } else {
        assert Applies(db, x, 1) && Expected(db, x, 1) in db.relations;
        assert forall r :: r in db.relations && r.iteration == x && r.depth == 1 ==> r == Expected(db, x, 1);
        assert AddRelation(db.relations, Relation(x, parent, 1)).Failure?;
      }
    }
  }

  lemma {:induction false} NewIteration(db: Db, test: nat, hash: string, parent: Option<nat>, depth: nat)
    requires Valid(db) && Fits(db, test, parent, depth) && RowOf(db, test, hash) !in db.iterations
    ensures var r := AddIteration(db, RowOf(db, test, hash), parent, depth);
            r.Success? && Valid(r.value.0) && r.value.0.tests == db.tests && db.iterations <= r.value.0.iterations
  {
    hide Valid, AddRelations, Around;
    var row, x := RowOf(db, test, hash), |db.iterations|;
    var relations := NewRelations(db, row.test, parent, depth);
    var grown := db.(iterations := db.iterations + [row], relations := relations);
    assert IndexOf(grown.iterations, row) == x;
    NewAround(db, grown, parent, depth);
    NewTables(db, grown, row, parent);
    NewClosure(db, grown, parent, depth);
    TablesValid(grown);
  }

  lemma {:induction false} TablesValid(db: Db)
    requires TestTree(db.tests) && IterationTree(db) && IterationRows(db) && Closure(db)
    ensures Valid(db)
  {}

  /** What a new iteration adds to the relations. */
  ghost predicate Related(db: Db, relations: set<Relation>, parent: Option<nat>, depth: nat) {
    var x := |db.iterations|;
    if depth == 0 then relations == db.relations + {Relation(x, None, 0)}
    else parent.Some? && AddedUpTo(db, relations, x, parent.value, depth)
  }

  lemma {:induction false} NewRelations(db: Db, test: nat, parent: Option<nat>, depth: nat)
      returns (relations: set<Relation>)
    requires Valid(db) && Fits(db, test, parent, depth)
    ensures var x := |db.iterations|;
            (if depth == 0 then AddRelation(db.relations, Relation(x, parent, 0))
             else AddRelations(db.relations, x, parent, 1, depth)) == Success(relations)
    ensures Related(db, relations, parent, depth)
    ensures depth == 0 ==> parent.None?
    ensures depth > 0 ==> parent.Some? && parent.value < |db.iterations| && depth == Depth(db, parent.value) + 1
  {
    hide AddRelations, Around;
    var x := |db.iterations|;
    if depth == 0 {
      relations := db.relations + {Relation(x, None, 0)};
    } else {
      AddRelationsExact(db, x, parent.value, 1, db.relations);
      relations := AddRelations(db.relations, x, parent, 1, depth).value;
    }
  }

  /** The new iteration is inside its parent; nothing else has moved. */
  lemma {:induction false} NewAround(db: Db, grown: Db, parent: Option<nat>, depth: nat)
    requires Valid(db) && Related(db, grown.relations, parent, depth) && (depth == 0 ==> parent.None?)
    requires db.tests == grown.tests && db.iterations <= grown.iterations
    ensures SameAround(db, grown) && Around(grown, |db.iterations|) == parent
  {
    var x := |db.iterations|;
    assert forall r :: r in db.relations ==> r.iteration < x;
    forall y | 0 <= y < x
      ensures Around(grown, y) == Around(db, y)
    {
      assert DirectParents(grown.relations, y) == DirectParents(db.relations, y);
    }
    var ps := DirectParents(grown.relations, x);
    if depth > 0 {
      assert Relation(x, parent, 1) in grown.relations;
      assert ps == {parent};
    } else {
      assert ps == {};
    }
  }

  lemma {:induction false} NewTables(db: Db, grown: Db, row: IterationRow, parent: Option<nat>)
    requires Valid(db) && Fits(db, row.test, parent, DepthOf(db.tests, row.test)) && row !in db.iterations
    requires grown.tests == db.tests && grown.iterations == db.iterations + [row]
    requires SameAround(db, grown) && Around(grown, |db.iterations|) == parent
    requires db.tests[row.test].kind == Test || row.hash == None
    ensures TestTree(grown.tests) && IterationTree(grown) && IterationRows(grown)
  {
    hide Around, Closure;
    forall x | 0 <= x < |grown.iterations|
      ensures Surrounded(grown, x)
    {
      if x < |db.iterations| {
        TreeStays(db, grown, x);
      }
    }
  }

  lemma {:induction false} NewClosure(db: Db, grown: Db, parent: Option<nat>, depth: nat)
    requires Valid(db) && Related(db, grown.relations, parent, depth) && SameAround(db, grown)
    requires db.tests == grown.tests && |grown.iterations| == |db.iterations| + 1
    requires Around(grown, |db.iterations|) == parent && Depth(grown, |db.iterations|) == depth
    requires depth > 0 ==> parent.Some? && parent.value < |db.iterations|
    ensures Closure(grown)
  {
    hide Around, Depth, IterationRows, TestTree;
    var x := |db.iterations|;
    SamePast(db, grown);
    forall d: nat | 1 <= d <= depth
      ensures Up(grown, x, d) == Up(db, parent.value, d - 1)
    {
      SameUp(db, grown, parent.value, d - 1);
    }
    hide IterationTree, SameAround, Up;
    forall r | r in grown.relations
      ensures r.iteration < |grown.iterations| && Applies(grown, r.iteration, r.depth)
      ensures r == Expected(grown, r.iteration, r.depth)
    {
      if r in db.relations {
        assert r == Expected(db, r.iteration, r.depth);
      }
    }
    forall y, d: nat {:trigger Expected(grown, y, d)} | 0 <= y < |grown.iterations| && Applies(grown, y, d)
      ensures Expected(grown, y, d) in grown.relations
    {
      if y < x {
        assert Expected(grown, y, d) == Expected(db, y, d) && Applies(db, y, d);
      }
    }
  }
}
