/** The import store as an object: each method writes to the tables and is proved against the steps of
    `ImportDb`.  After a failure the surrounding transaction is rolled back, so nothing is said about the
    tables then. */
module ImportStore {
  import opened Wrappers
  import opened ImportDb
  import opened ImportRuns

  class Store {
    var tests: seq<TestRow>
    var iterations: seq<IterationRow>
    var relations: set<Relation>
    var results: seq<ResultRow>

    constructor ()
      ensures Abs() == Db([], [], {}, [])
    {
      tests, iterations, relations, results := [], [], {}, [];
    }

    ghost function Abs(): Db
      reads this
    {
      Db(tests, iterations, relations, results)
    }

    method AddTest(name: string, kind: Kind, parent: Option<nat>) returns (r: Result<nat, Error>)
      modifies this`tests
      ensures match ImportDb.AddTest(old(Abs()), name, kind, parent)
              case Failure(e) => r == Failure(e)
              case Success((db, id)) => r == Success(id) && Abs() == db
      ensures r.Failure? <==> TestRow(name, parent, kind) !in old(tests) && parent.Some?
                              && exists t :: t in old(tests) && t.name == name && t.parent == parent
      ensures r.Success? ==> r.value < |tests| && tests[r.value] == TestRow(name, parent, kind)
      ensures r.Success? ==> tests == if TestRow(name, parent, kind) in old(tests) then old(tests)
                                      else old(tests) + [TestRow(name, parent, kind)]
    {
      hide IndexOf;
      var row := TestRow(name, parent, kind);
      if row !in tests {
        if parent.Some? && exists t :: t in tests && t.name == name && t.parent == parent {
          return Failure(Integrity);
        }
        tests := tests + [row];
      }
      r := Success(IndexOf(tests, row));
    }

    method AddRelation(iteration: nat, parent: Option<nat>, depth: nat) returns (error: Option<Error>)
      modifies this`relations
      ensures match ImportDb.AddRelation(old(relations), Relation(iteration, parent, depth))
              case Failure(e) => error == Some(e) && relations == old(relations)
              case Success(rs) => error == None && relations == rs
    {
      var relation := Relation(iteration, parent, depth);
      if relation !in relations {
        if exists s :: s in relations && s.iteration == iteration && s.depth == depth {
          return Some(Integrity);
        }
        relations := relations + {relation};
      }
      error := None;
    }

    method AddIteration(kind: Kind, test: nat, hash: string, parent: Option<nat>, parentDepth: nat)
      returns (r: Result<nat, Error>)
      modifies this`iterations, this`relations
      ensures match ImportDb.AddIteration(old(Abs()), RowFor(kind, test, hash), parent, parentDepth)
              case Failure(e) => r == Failure(e)
              case Success((db, id)) => r == Success(id) && Abs() == db
    {
      var row := RowFor(kind, test, hash);
      if row !in iterations {
        iterations := iterations + [row];
      }
      var x := IndexOf(iterations, row);
      var error;
      if parentDepth == 0 {
        error := AddRelation(x, parent, 0);
        return if error.Some? then Failure(error.value) else Success(x);
      }
      error := AddAncestors(x, parent, parentDepth);
      r := if error.Some? then Failure(error.value) else Success(x);
    }

    /** Relate an iteration to its parent, that one's parent, and so on. */
    method AddAncestors(x: nat, parent: Option<nat>, parentDepth: nat) returns (error: Option<Error>)
      requires parentDepth > 0
      modifies this`relations
      ensures match AddRelations(old(relations), x, parent, 1, parentDepth)
              case Failure(e) => error == Some(e)
              case Success(rs) => error == None && relations == rs
    {
      ghost var goal := AddRelations(relations, x, parent, 1, parentDepth);
      var tmpParent, depth := parent, 1;
      while depth <= parentDepth
        invariant 1 <= depth <= parentDepth
        invariant AddRelations(relations, x, tmpParent, depth, parentDepth) == goal
      {
        error := AddRelation(x, tmpParent, depth);
        if error.Some? {
          return;
        }
        if depth == parentDepth {
          break;
        }
        if tmpParent.None? {
          return Some(NotFound);
        }
        var parents := DirectParents(relations, tmpParent.value);
        if parents == {} {
          return Some(NotFound);
        }
        if exists p, q :: p in parents && q in parents && p != q {
          return Some(Duplicate);
        }
        tmpParent := Only(parents);
        depth := depth + 1;
      }
    }

    method AddIterationResult(row: ResultRow) returns (r: Result<nat, Error>)
      modifies this`results
      ensures match AddResult(old(Abs()), row)
              case Failure(e) => r == Failure(e)
              case Success((db, id)) => r == Success(id) && Abs() == db
      ensures UniqueSeqnos(old(results)) ==>
                (r.Failure? <==>
                   exists i :: 0 <= i < |old(results)| && old(results)[i].seqno == row.seqno
                               && (old(results)[i].parent != row.parent
                                   || (old(results)[i].tin != row.tin && old(results)[i].tin > -1)))
      ensures r.Success? ==>
                && r.value < |results| && results[r.value] == row
                && if r.value < |old(results)| then
                     old(results)[r.value].seqno == row.seqno && results == old(results)[r.value := row]
                   else results == old(results) + [row] && forall o :: o in old(results) ==> o.seqno != row.seqno
    {
      var at := ResultsAt(results, row.seqno);
      assert forall i :: 0 <= i < |results| && results[i].seqno == row.seqno ==> i in at;
      if at == {} {
        results := results + [row];
        return Success(|results| - 1);
      }
      if exists i, j :: i in at && j in at && i != j {
        return Failure(Duplicate);
      }
      var i := Only(at);
      if results[i].parent != row.parent || (results[i].tin != row.tin && results[i].tin > -1) {
        return Failure(Duplicate);
      }
      results := results[i := row];
      r := Success(i);
    }

    /** Import one iteration and everything inside it. */
    method HandleIteration(data: LogIter, parent: Context) returns (error: Option<Error>)
      modifies this
      ensures match Import(old(Abs()), data, parent)
              case Failure(e) => error == Some(e)
              case Success(db) => error == None && Abs() == db
      decreases data, 1
    {
      var test := AddTest(NameOf(data), data.kind, parent.test);
      if test.Failure? {
        return Some(test.error);
      }
      var iteration := AddIteration(data.kind, test.value, data.hash, parent.iteration, parent.depth);
      if iteration.Failure? {
        return Some(iteration.error);
      }
      var result := AddIterationResult(
        ResultRow(iteration.value, parent.result, data.seqno, data.tin, data.start, data.finish));
      if result.Failure? {
        return Some(result.error);
      }
      error := HandleIterations(data.iters,
                                Context(Some(test.value), Some(iteration.value), Some(result.value), parent.depth + 1));
    }

    method HandleIterations(iters: seq<LogIter>, parent: Context) returns (error: Option<Error>)
      modifies this
      ensures match ImportAll(old(Abs()), iters, parent)
              case Failure(e) => error == Some(e)
              case Success(db) => error == None && Abs() == db
      decreases iters, 0
    {
      hide Import;
      ghost var goal := ImportAll(Abs(), iters, parent);
      for i := 0 to |iters|
        invariant ImportAll(Abs(), iters[i..], parent) == goal
      {
        error := HandleIteration(iters[i], parent);
        assert iters[i..][1..] == iters[i + 1..];
        if error.Some? {
          return;
        }
      }
      error := None;
    }

    /** Import a log.  Its numbers are distinct. */
    method HandleLog(log: seq<LogIter>) returns (error: Option<Error>)
      requires Constrained(Abs()) && DistinctAll(log)
      modifies this
      ensures error.None? ==> Constrained(Abs()) && LogRecorded(old(Abs()), log, Abs())
    {
      hide Constrained, LogRecorded, DistinctAll;
      ghost var before := Abs();
      error := HandleIterations(log, TOP);
      if error.None? {
        ImportRecords(before, log);
      }
    }
  }
}
