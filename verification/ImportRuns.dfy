/** Whole log imports: they keep the relation table the ancestor closure, and repeating one changes nothing. */
module ImportRuns {
  import opened Wrappers
  import opened ImportDb
  import opened ImportLaws

  // ---------- the closure over a whole log ----------

  /** The context names a test, an iteration of it, and the depth of what is inside it. */
  predicate ContextFits(db: Db, c: Context) {
    match c.test
    case None => c.iteration == None && c.depth == 0
    case Some(t) =>
      && t < |db.tests| && c.depth == DepthOf(db.tests, t) + 1
      && c.iteration.Some? && c.iteration.value < |db.iterations| && db.iterations[c.iteration.value].test == t
  }

  lemma {:induction false} ContextFitsLater(db: Db, db': Db, c: Context)
    requires ContextFits(db, c) && db.tests <= db'.tests && db.iterations <= db'.iterations
    ensures ContextFits(db', c)
  {
    if c.test.Some? {
      DepthOfPrefix(db.tests, db'.tests, c.test.value);
      assert db'.iterations[c.iteration.value] == db.iterations[c.iteration.value];
    }
  }

  lemma {:induction false} ImportOneValid(db: Db, data: LogIter, c: Context)
    requires Valid(db) && ContextFits(db, c)
    ensures var r := ImportOne(db, data, c);
            r.Success? ==>
              && Valid(r.value.0) && db.tests <= r.value.0.tests && db.iterations <= r.value.0.iterations
              && ContextFits(r.value.0, r.value.1)
  {
    hide Valid, AddResult, AddTest, AddIteration;
    var t := AddTest(db, NameOf(data), data.kind, c.test);
    if t.Success? {
      AddTestValid(db, NameOf(data), data.kind, c.test);
      TestAdded(db, NameOf(data), data.kind, c.test);
      var (db1, test) := t.value;
      ContextFitsLater(db, db1, c);
      ParentIsBefore(db1, test);
      AddIterationExact(db1, test, data.hash, c.iteration, c.depth);
      var i := AddIteration(db1, RowFor(data.kind, test, data.hash), c.iteration, c.depth);
      if i.Success? {
        var (db2, x) := i.value;
        IterationAdded(db1, RowFor(data.kind, test, data.hash), c.iteration, c.depth);
        var row := ResultRow(x, c.result, data.seqno, data.tin, data.start, data.finish);
        if AddResult(db2, row).Success? {
          AddResultWrites(db2, row);
          ResultsDoNotMatter(db2, AddResult(db2, row).value.0);
        }
      }
    }
  }

  lemma {:induction false} ParentIsBefore(db: Db, t: nat)
    requires Valid(db) && t < |db.tests|
    ensures DepthOf(db.tests, t) ==
            if db.tests[t].parent.Some? then 1 + DepthOf(db.tests, db.tests[t].parent.value) else 0
  {}

  lemma {:induction false} ResultsDoNotMatter(db: Db, db': Db)
    requires Valid(db) && db' == db.(results := db'.results)
    ensures Valid(db')
  {
    hide Around;
    SameDirect(db, db');
    SamePast(db, db');
    forall x | 0 <= x < |db'.iterations|
      ensures Surrounded(db', x)
    {
      TreeStays(db, db', x);
    }
    ClosureMoves(db, db');
  }

  /** Importing a log keeps the relation table the ancestor closure, whatever contains what. */
  lemma {:induction false} ImportValid(db: Db, data: LogIter, c: Context)
    requires Valid(db) && ContextFits(db, c)
    ensures var r := Import(db, data, c);
            r.Success? ==> Valid(r.value) && db.tests <= r.value.tests && db.iterations <= r.value.iterations
    decreases data, 1
  {
    hide Valid, ContextFits, ImportOne;
    ImportOneValid(db, data, c);
    var r := ImportOne(db, data, c);
    if r.Success? {
      ImportAllValid(r.value.0, data.iters, r.value.1);
    }
  }

  lemma {:induction false} ImportAllValid(db: Db, ds: seq<LogIter>, c: Context)
    requires Valid(db) && ContextFits(db, c)
    ensures var r := ImportAll(db, ds, c);
            r.Success? ==> Valid(r.value) && db.tests <= r.value.tests && db.iterations <= r.value.iterations
    decreases ds, 0
  {
    hide Valid, ContextFits, Import;
    if ds != [] {
      ImportValid(db, ds[0], c);
      var r := Import(db, ds[0], c);
      if r.Success? {
        ContextFitsLater(db, r.value, c);
        ImportAllValid(r.value, ds[1..], c);
      }
    }
  }

  // ---------- importing twice ----------

  function Seqnos(d: LogIter): set<int> {
    {d.seqno} + SeqnosAll(d.iters)
  }

  function SeqnosAll(ds: seq<LogIter>): set<int> {
    if ds == [] then {} else Seqnos(ds[0]) + SeqnosAll(ds[1..])
  }

  predicate Distinct(d: LogIter) {
    d.seqno !in SeqnosAll(d.iters) && DistinctAll(d.iters)
  }

  predicate DistinctAll(ds: seq<LogIter>) {
    ds == [] || (Distinct(ds[0]) && Seqnos(ds[0]) !! SeqnosAll(ds[1..]) && DistinctAll(ds[1..]))
  }

  /** The constraints of the tables: one relation of each depth per iteration, one result per number. */
  ghost predicate Constrained(db: Db) {
    Functional(db.relations) && UniqueSeqnos(db.results)
  }

  ghost predicate Functional(relations: set<Relation>) {
    forall r, s :: r in relations && s in relations && r.iteration == s.iteration && r.depth == s.depth ==> r == s
  }

  ghost predicate UniqueSeqnos(results: seq<ResultRow>) {
    forall i, j :: 0 <= i < j < |results| ==> results[i].seqno != results[j].seqno
  }

  /** `b` extends `a`; only results with the given numbers may have been written again. */
  ghost predicate Grows(a: Db, b: Db, touched: set<int>) {
    && a.tests <= b.tests && a.iterations <= b.iterations && a.relations <= b.relations
    && |a.results| <= |b.results|
    && forall i :: 0 <= i < |a.results| ==>
         && b.results[i].seqno == a.results[i].seqno
         && (a.results[i].seqno !in touched ==> b.results[i] == a.results[i])
  }

  lemma {:induction false} GrowsTransitive(a: Db, b: Db, c: Db, s: set<int>, t: set<int>)
    requires Grows(a, b, s) && Grows(b, c, t)
    ensures Grows(a, c, s + t)
  {
    forall i | 0 <= i < |a.results|
      ensures c.results[i].seqno == a.results[i].seqno
      ensures a.results[i].seqno !in s + t ==> c.results[i] == a.results[i]
    {
      assert b.results[i].seqno == a.results[i].seqno;
    }
  }

  lemma {:induction false} AddRelationsGrows(relations: set<Relation>, x: nat, parent: Option<nat>, d: nat, depth: nat)
    requires Functional(relations)
    ensures var r := AddRelations(relations, x, parent, d, depth);
            r.Success? ==> relations <= r.value && Functional(r.value)
    decreases depth + 1 - d
  {
    if d <= depth {
      var r := AddRelation(relations, Relation(x, parent, d));
      if r.Success? && d < depth && parent.Some? {
        var ps := DirectParents(r.value, parent.value);
        if ps != {} && !(exists p, q :: p in ps && q in ps && p != q) {
          AddRelationsGrows(r.value, x, Only(ps), d + 1, depth);
        }
      }
    }
  }

  /** Walking up the parents again, in a larger table, finds everything and adds nothing. */
  lemma {:induction false} AddRelationsAgain(relations: set<Relation>, x: nat, parent: Option<nat>, d: nat, depth: nat,
                                             later: set<Relation>)
    requires Functional(relations) && Functional(later)
    requires var r := AddRelations(relations, x, parent, d, depth); r.Success? && r.value <= later
    ensures AddRelations(later, x, parent, d, depth) == Success(later)
    decreases depth + 1 - d
  {
    if d <= depth {
      var r := AddRelation(relations, Relation(x, parent, d)).value;
      if d < depth {
        var ps := DirectParents(r, parent.value);
        AddRelationsGrows(r, x, Only(ps), d + 1, depth);
        SameParents(r, later, parent.value);
        AddRelationsAgain(r, x, Only(ps), d + 1, depth, later);
      }
    }
  }

  lemma {:induction false} SameParents(r: set<Relation>, later: set<Relation>, p: nat)
    requires r <= later && Functional(later) && DirectParents(r, p) != {}
    ensures DirectParents(later, p) == DirectParents(r, p)
  {
    var q :| q in DirectParents(r, p);
    var s :| s in r && s.iteration == p && s.depth == 1 && s.parent == q;
    forall q' | q' in DirectParents(later, p)
      ensures q' == q
    {
      var s' :| s' in later && s'.iteration == p && s'.depth == 1 && s'.parent == q';
      assert s' == s;
    }
  }

  lemma {:induction false} ResultsAtUnique(results: seq<ResultRow>, i: nat)
    requires UniqueSeqnos(results) && i < |results|
    ensures ResultsAt(results, results[i].seqno) == {i}
  {}

  lemma {:induction false} AddResultGrows(db: Db, row: ResultRow)
    requires Constrained(db) && AddResult(db, row).Success?
    ensures var (db', i) := AddResult(db, row).value;
            Constrained(db') && Grows(db, db', {row.seqno}) && i < |db'.results| && db'.results[i] == row
  {
    var at := ResultsAt(db.results, row.seqno);
    if at == {} {
      forall i | 0 <= i < |db.results|
        ensures db.results[i].seqno != row.seqno
      {
        assert i !in at;
      }
    }
  }

  lemma {:induction false} ImportOneGrows(db: Db, data: LogIter, c: Context)
    requires Constrained(db) && ImportOne(db, data, c).Success?
    ensures var (db', _) := ImportOne(db, data, c).value;
            Constrained(db') && Grows(db, db', {data.seqno})
  {
    var (db1, test) := AddTest(db, NameOf(data), data.kind, c.test).value;
    AddRelationsGrows(db1.relations,
        IndexOf(Put(db1.iterations, RowFor(data.kind, test, data.hash)), RowFor(data.kind, test, data.hash)),
                      c.iteration, 1, c.depth);
    var (db2, x) := AddIteration(db1, RowFor(data.kind, test, data.hash), c.iteration, c.depth).value;
    assert Grows(db, db2, {}) && Constrained(db2);
    var row := ResultRow(x, c.result, data.seqno, data.tin, data.start, data.finish);
    AddResultGrows(db2, row);
    GrowsTransitive(db, db2, AddResult(db2, row).value.0, {}, {data.seqno});
  }

  /** Importing an iteration into tables that already hold it changes nothing and gives the same rows. */
  lemma {:induction false} ImportOneAgain(db: Db, data: LogIter, c: Context, later: Db, touched: set<int>)
    requires Constrained(db) && Constrained(later) && ImportOne(db, data, c).Success?
    requires Grows(ImportOne(db, data, c).value.0, later, touched) && data.seqno !in touched
    ensures ImportOne(later, data, c) == Success((later, ImportOne(db, data, c).value.1))
  {
    hide AddRelations, AddRelation, AddTest, AddIteration, AddResult, Put, IndexOf;
    var (db1, test) := AddTest(db, NameOf(data), data.kind, c.test).value;
    var row := RowFor(data.kind, test, data.hash);
    var (db2, x) := AddIteration(db1, row, c.iteration, c.depth).value;
    var result := ResultRow(x, c.result, data.seqno, data.tin, data.start, data.finish);
    var (db3, i) := AddResult(db2, result).value;
    AddTestWrites(db, NameOf(data), data.kind, c.test);
    AddIterationWrites(db1, row, c.iteration, c.depth);
    AddResultWrites(db2, result);
    assert db3.tests == db1.tests && db3.iterations == db2.iterations && db3.relations == db2.relations;
    TestAgain(db, NameOf(data), data.kind, c.test, later);
    IterationAgain(db1, row, c.iteration, c.depth, later);
    assert later.results[i] == result;
    ResultAgain(later, result, i);
  }

  lemma {:induction false} AddTestWrites(db: Db, name: string, kind: Kind, parent: Option<nat>)
    requires AddTest(db, name, kind, parent).Success?
    ensures var (added, _) := AddTest(db, name, kind, parent).value; added == db.(tests := added.tests)
  {}

  lemma {:induction false} AddIterationWrites(db: Db, row: IterationRow, parent: Option<nat>, depth: nat)
    requires AddIteration(db, row, parent, depth).Success?
    ensures var (added, _) := AddIteration(db, row, parent, depth).value;
            added == db.(iterations := added.iterations, relations := added.relations)
  {}

  lemma {:induction false} AddResultWrites(db: Db, row: ResultRow)
    requires AddResult(db, row).Success?
    ensures var (added, i) := AddResult(db, row).value;
            added == db.(results := added.results) && i < |added.results| && added.results[i] == row
  {}

  lemma {:induction false} TestAgain(db: Db, name: string, kind: Kind, parent: Option<nat>, later: Db)
    requires AddTest(db, name, kind, parent).Success?
    requires AddTest(db, name, kind, parent).value.0.tests <= later.tests
    ensures AddTest(later, name, kind, parent) == Success((later, AddTest(db, name, kind, parent).value.1))
  {
    IndexOfPrefix(AddTest(db, name, kind, parent).value.0.tests, later.tests, TestRow(name, parent, kind));
  }

  lemma {:induction false} ResultAgain(db: Db, row: ResultRow, i: nat)
    requires UniqueSeqnos(db.results) && i < |db.results| && db.results[i] == row
    ensures AddResult(db, row) == Success((db, i))
  {
    ResultsAtUnique(db.results, i);
    assert i in ResultsAt(db.results, row.seqno);
    assert db.results[i := row] == db.results;
  }

  lemma {:induction false} IterationAgain(db: Db, row: IterationRow, parent: Option<nat>, depth: nat, later: Db)
    requires Functional(db.relations) && Functional(later.relations) && AddIteration(db, row, parent, depth).Success?
    requires var db' := AddIteration(db, row, parent, depth).value.0;
             db'.iterations <= later.iterations && db'.relations <= later.relations
    ensures AddIteration(later, row, parent, depth) == Success((later, AddIteration(db, row, parent, depth).value.1))
  {
    var db' := AddIteration(db, row, parent, depth).value.0;
    IndexOfPrefix(db'.iterations, later.iterations, row);
    var x := IndexOf(later.iterations, row);
    if depth > 0 {
      AddRelationsAgain(db.relations, x, parent, 1, depth, later.relations);
    }
  }

  lemma {:induction false} ImportGrows(db: Db, data: LogIter, c: Context)
    requires Constrained(db) && Import(db, data, c).Success?
    ensures Constrained(Import(db, data, c).value) && Grows(db, Import(db, data, c).value, Seqnos(data))
    decreases data, 1
  {
    hide Constrained, Grows, ImportOne;
    ImportOneGrows(db, data, c);
    var (db1, c1) := ImportOne(db, data, c).value;
    ImportAllGrows(db1, data.iters, c1);
    GrowsTransitive(db, db1, Import(db, data, c).value, {data.seqno}, SeqnosAll(data.iters));
  }

  lemma {:induction false} ImportAllGrows(db: Db, ds: seq<LogIter>, c: Context)
    requires Constrained(db) && ImportAll(db, ds, c).Success?
    ensures Constrained(ImportAll(db, ds, c).value) && Grows(db, ImportAll(db, ds, c).value, SeqnosAll(ds))
    decreases ds, 0
  {
    GrowsSelf(db);
    hide Constrained, Grows, Import;
    if ds != [] {
      ImportGrows(db, ds[0], c);
      var db1 := Import(db, ds[0], c).value;
      ImportAllGrows(db1, ds[1..], c);
      GrowsTransitive(db, db1, ImportAll(db, ds, c).value, Seqnos(ds[0]), SeqnosAll(ds[1..]));
    }
  }

  lemma {:induction false} GrowsSelf(db: Db)
    ensures Grows(db, db, {})
  {}

  lemma {:induction false} ImportAgain(db: Db, data: LogIter, c: Context, later: Db, touched: set<int>)
    requires Constrained(db) && Constrained(later) && Distinct(data) && Import(db, data, c).Success?
    requires Grows(Import(db, data, c).value, later, touched) && touched !! Seqnos(data)
    ensures Import(later, data, c) == Success(later)
    decreases data, 1
  {
    hide Constrained, Grows, ImportOne;
    ImportOneGrows(db, data, c);
    var (db1, c1) := ImportOne(db, data, c).value;
    ImportAllGrows(db1, data.iters, c1);
    GrowsTransitive(db1, Import(db, data, c).value, later, SeqnosAll(data.iters), touched);
    ImportOneAgain(db, data, c, later, SeqnosAll(data.iters) + touched);
    ImportAllAgain(db1, data.iters, c1, later, touched);
  }

  lemma {:induction false} ImportAllAgain(db: Db, ds: seq<LogIter>, c: Context, later: Db, touched: set<int>)
    requires Constrained(db) && Constrained(later) && DistinctAll(ds) && ImportAll(db, ds, c).Success?
    requires Grows(ImportAll(db, ds, c).value, later, touched) && touched !! SeqnosAll(ds)
    ensures ImportAll(later, ds, c) == Success(later)
    decreases ds, 0
  {
    hide Constrained, Grows, Import;
    if ds != [] {
      ImportGrows(db, ds[0], c);
      var db1 := Import(db, ds[0], c).value;
      ImportAllGrows(db1, ds[1..], c);
      GrowsTransitive(db1, ImportAll(db, ds, c).value, later, SeqnosAll(ds[1..]), touched);
      ImportAgain(db, ds[0], c, later, SeqnosAll(ds[1..]) + touched);
      ImportAllAgain(db1, ds[1..], c, later, touched);
    }
  }

  /** Importing the same log a second time changes nothing at all. */
  lemma {:induction false} ReimportIsIdempotent(db: Db, log: seq<LogIter>)
    requires Constrained(db) && DistinctAll(log) && ImportAll(db, log, TOP).Success?
    ensures ImportAll(ImportAll(db, log, TOP).value, log, TOP) == Success(ImportAll(db, log, TOP).value)
  {
    hide Constrained, Grows, ImportAll;
    var db' := ImportAll(db, log, TOP).value;
    ImportAllGrows(db, log, TOP);
    GrowsSelf(db');
    ImportAllAgain(db, log, TOP, db', {});
  }

  // ---------- what an import records ----------

  /** The iteration of the log has its rows: a test of its name and kind below the enclosing test, an iteration
      of that test inside the enclosing iteration, and a result of that iteration, with its number and times,
      inside the enclosing result.  And so has everything inside it. */
  ghost predicate Stored(db: Db, d: LogIter, test: Option<nat>, iteration: Option<nat>, result: Option<nat>)
    decreases d
  {
    exists t: nat, x: nat, r: nat :: StoredAs(db, d, test, iteration, result, t, x, r)
  }

  ghost predicate StoredAs(db: Db, d: LogIter, test: Option<nat>, iteration: Option<nat>, result: Option<nat>,
                           t: nat, x: nat, r: nat)
    decreases d, 0
  {
    && t < |db.tests| && db.tests[t].parent == test && db.tests[t].kind == d.kind
    && db.tests[t].name == (if d.name == "" && d.kind == Session then "session" else d.name)
    && x < |db.iterations| && db.iterations[x].test == t
    && db.iterations[x].hash == (if d.kind == Test then Some(d.hash) else None)
    && Relation(x, iteration, if iteration.None? then 0 else 1) in db.relations
    && r < |db.results| && db.results[r].iteration == x && db.results[r].parent == result
    && db.results[r].seqno == d.seqno && db.results[r].tin == d.tin
    && db.results[r].start == d.start && db.results[r].finish == d.finish
    && forall c | c in d.iters :: Stored(db, c, Some(t), Some(x), Some(r))
  }

  /** The context's depth says whether something is around. */
  predicate ContextOk(c: Context) {
    c.depth == 0 <==> c.iteration.None?
  }

  lemma {:induction false} AddRelationsFirst(relations: set<Relation>, x: nat, parent: Option<nat>, depth: nat)
    requires depth > 0 && Functional(relations) && AddRelations(relations, x, parent, 1, depth).Success?
    ensures Relation(x, parent, 1) in AddRelations(relations, x, parent, 1, depth).value
  {
    var one := AddRelation(relations, Relation(x, parent, 1)).value;
    assert Relation(x, parent, 1) in one;
    if depth > 1 {
      assert Functional(one);
      AddRelationsGrows(one, x, Only(DirectParents(one, parent.value)), 2, depth);
    }
  }

  /** The rows of one iteration, without those inside it. */
  lemma {:induction false} ImportOneStores(db: Db, data: LogIter, c: Context)
    requires Constrained(db) && ContextOk(c) && ImportOne(db, data, c).Success?
    ensures var (after, inner) := ImportOne(db, data, c).value;
            && ContextOk(inner) && inner.test.Some? && inner.iteration.Some? && inner.result.Some?
            && StoredAs(after, data.(iters := []), c.test, c.iteration, c.result,
                        inner.test.value, inner.iteration.value, inner.result.value)
  {
    hide AddRelations, AddRelation, AddTest, AddIteration, AddResult, Put, IndexOf;
    var (db1, test) := AddTest(db, NameOf(data), data.kind, c.test).value;
    var row := RowFor(data.kind, test, data.hash);
    var (db2, x) := AddIteration(db1, row, c.iteration, c.depth).value;
    var result := ResultRow(x, c.result, data.seqno, data.tin, data.start, data.finish);
    TestAdded(db, NameOf(data), data.kind, c.test);
    IterationAdded(db1, row, c.iteration, c.depth);
    AddIterationWrites(db1, row, c.iteration, c.depth);
    IterationRelated(db1, row, c.iteration, c.depth);
    AddResultWrites(db2, result);
  }

  lemma {:induction false} IterationRelated(db: Db, row: IterationRow, parent: Option<nat>, depth: nat)
    requires Functional(db.relations) && (depth == 0 <==> parent.None?) && AddIteration(db, row, parent, depth).Success?
    ensures var (added, x) := AddIteration(db, row, parent, depth).value;
            Relation(x, parent, if parent.None? then 0 else 1) in added.relations
  {
    if depth > 0 {
      AddRelationsFirst(db.relations, IndexOf(Put(db.iterations, row), row), parent, depth);
    }
  }

  /** Rows written by one iteration are still there when the import has gone on. */
  lemma {:induction false} StoredLater(db: Db, later: Db, touched: set<int>, d: LogIter, test: Option<nat>,
                                       iteration: Option<nat>, result: Option<nat>, t: nat, x: nat, r: nat)
    requires StoredAs(db, d.(iters := []), test, iteration, result, t, x, r)
    requires Grows(db, later, touched) && d.seqno !in touched
    requires forall c | c in d.iters :: Stored(later, c, Some(t), Some(x), Some(r))
    ensures StoredAs(later, d, test, iteration, result, t, x, r)
  {
    assert later.tests[t] == db.tests[t] && later.iterations[x] == db.iterations[x]
        && later.results[r] == db.results[r];
  }

  lemma {:induction false} ImportStores(db: Db, data: LogIter, c: Context, later: Db, touched: set<int>)
    requires Constrained(db) && Distinct(data) && ContextOk(c) && Import(db, data, c).Success?
    requires Grows(Import(db, data, c).value, later, touched) && touched !! Seqnos(data)
    ensures Stored(later, data, c.test, c.iteration, c.result)
    decreases data, 1
  {
    hide Constrained, Grows, ImportOne, StoredAs;
    ImportOneGrows(db, data, c);
    ImportOneStores(db, data, c);
    var (db1, c1) := ImportOne(db, data, c).value;
    ImportAllGrows(db1, data.iters, c1);
    GrowsTransitive(db1, Import(db, data, c).value, later, SeqnosAll(data.iters), touched);
    ImportAllStores(db1, data.iters, c1, later, touched);
    StoredLater(db1, later, SeqnosAll(data.iters) + touched, data, c.test, c.iteration, c.result,
                c1.test.value, c1.iteration.value, c1.result.value);
  }

  lemma {:induction false} ImportAllStores(db: Db, ds: seq<LogIter>, c: Context, later: Db, touched: set<int>)
    requires Constrained(db) && DistinctAll(ds) && ContextOk(c) && ImportAll(db, ds, c).Success?
    requires Grows(ImportAll(db, ds, c).value, later, touched) && touched !! SeqnosAll(ds)
    ensures forall d | d in ds :: Stored(later, d, c.test, c.iteration, c.result)
    decreases ds, 0
  {
    hide Constrained, Grows, Import, Stored;
    if ds != [] {
      ImportGrows(db, ds[0], c);
      var db1 := Import(db, ds[0], c).value;
      ImportAllGrows(db1, ds[1..], c);
      GrowsTransitive(db1, ImportAll(db, ds, c).value, later, SeqnosAll(ds[1..]), touched);
      ImportStores(db, ds[0], c, later, SeqnosAll(ds[1..]) + touched);
      ImportAllStores(db1, ds[1..], c, later, touched);
      assert ds == [ds[0]] + ds[1..];
    }
  }

  /** Results that were not there before are those of the log's numbers. */
  ghost predicate OnlyAdds(a: Db, b: Db, numbers: set<int>) {
    && |a.results| <= |b.results|
    && (forall i :: 0 <= i < |a.results| ==> b.results[i].seqno == a.results[i].seqno)
    && forall i :: |a.results| <= i < |b.results| ==> b.results[i].seqno in numbers
  }

  lemma {:induction false} ImportOneAdds(db: Db, data: LogIter, c: Context)
    requires ImportOne(db, data, c).Success?
    ensures OnlyAdds(db, ImportOne(db, data, c).value.0, {data.seqno})
  {
    hide AddRelations, AddRelation, Put, IndexOf;
    var (db1, test) := AddTest(db, NameOf(data), data.kind, c.test).value;
    var row := RowFor(data.kind, test, data.hash);
    AddTestWrites(db, NameOf(data), data.kind, c.test);
    AddIterationWrites(db1, row, c.iteration, c.depth);
  }

  lemma {:induction false} ImportAdds(db: Db, data: LogIter, c: Context)
    requires Import(db, data, c).Success?
    ensures OnlyAdds(db, Import(db, data, c).value, Seqnos(data))
    decreases data, 1
  {
    hide ImportOne;
    ImportOneAdds(db, data, c);
    var (db1, c1) := ImportOne(db, data, c).value;
    ImportAllAdds(db1, data.iters, c1);
  }

  lemma {:induction false} ImportAllAdds(db: Db, ds: seq<LogIter>, c: Context)
    requires ImportAll(db, ds, c).Success?
    ensures OnlyAdds(db, ImportAll(db, ds, c).value, SeqnosAll(ds))
    decreases ds, 0
  {
    hide Import;
    if ds != [] {
      ImportAdds(db, ds[0], c);
      ImportAllAdds(Import(db, ds[0], c).value, ds[1..], c);
    }
  }

  /** A log has been recorded: every iteration has its rows, at its place in the tree; no two results have the
      same number; results with other numbers are as they were, and none has been added. */
  ghost predicate LogRecorded(db: Db, log: seq<LogIter>, after: Db) {
    && (forall d | d in log :: Stored(after, d, None, None, None))
    && UniqueSeqnos(after.results)
    && |db.results| <= |after.results|
    && (forall i :: 0 <= i < |db.results| && db.results[i].seqno !in SeqnosAll(log) ==>
          after.results[i] == db.results[i])
    && (forall i :: |db.results| <= i < |after.results| ==> after.results[i].seqno in SeqnosAll(log))
    && db.tests <= after.tests && db.iterations <= after.iterations
  }

  /** A successful import records the log. */
  lemma {:induction false} ImportRecords(db: Db, log: seq<LogIter>)
    requires Constrained(db) && DistinctAll(log) && ImportAll(db, log, TOP).Success?
    ensures LogRecorded(db, log, ImportAll(db, log, TOP).value) && Constrained(ImportAll(db, log, TOP).value)
  {
    hide ImportAll, Stored;
    var after := ImportAll(db, log, TOP).value;
    ImportAllGrows(db, log, TOP);
    ImportAllAdds(db, log, TOP);
    GrowsSelf(after);
    ImportAllStores(db, log, TOP, after, {});
  }
}
