/** Progress accounting: in a complete execution the tests run plus the counts recorded for prologues that
    did not pass are exactly the tests planned. */
module Progress {
  import opened Plans
  import opened Prologues

  /** An entry of the run log as it is imported. */
  datatype LogNode = LogNode(planId: nat, isTest: bool, status: string, iters: seq<LogNode>)

  predicate Passed(status: string) {
    status == "PASSED" || status == "FAKED"
  }

  // ---------- executing a plan ----------

  /** The log of executing a plan, given the status of every plan node: a package whose prologue does not
      pass runs only its prologue and its epilogue. */
  function Execute(p: Plan, id: nat, status: nat -> string): LogNode {
    LogNode(id, p.nodeType == TEST, status(id),
            if p.nodeType == TEST || p.children == [] then []
            else if p.hasPrologue && !Passed(status(id + 1)) then
              [Execute(p.children[0], id + 1, status)]
              + if p.hasEpilogue then [Execute(p.children[|p.children| - 1], LastId(p, id), status)] else []
            else ExecuteAll(p.children, id + 1, status))
  }

  function ExecuteAll(ps: seq<Plan>, id: nat, status: nat -> string): seq<LogNode> {
    if ps == [] then [] else [Execute(ps[0], id, status)] + ExecuteAll(ps[1..], id + Size(ps[0]), status)
  }

  function LastId(p: Plan, id: nat): nat
    requires p.children != []
  {
    id + 1 + SizeAll(p.children[..|p.children| - 1])
  }

  // ---------- importing the log ----------

  function TestsIn(n: LogNode): nat {
    (if n.isTest then 1 else 0) + TestsInAll(n.iters)
  }

  function TestsInAll(ns: seq<LogNode>): nat {
    if ns == [] then 0 else TestsIn(ns[0]) + TestsInAll(ns[1..])
  }

  /** What is recorded on one result of the log. */
  function Own(n: LogNode, table: Counts): seq<int> {
    if n.planId in table && n.status != "PASSED" && n.status != "FAKED" then [table[n.planId]] else []
  }

  function Recorded(n: LogNode, table: Counts): seq<int> {
    Own(n, table) + RecordedAll(n.iters, table)
  }

  function RecordedAll(ns: seq<LogNode>, table: Counts): seq<int> {
    if ns == [] then [] else Recorded(ns[0], table) + RecordedAll(ns[1..], table)
  }

  function Sum(xs: seq<int>): int {
    if xs == [] then 0 else xs[0] + Sum(xs[1..])
  }

  lemma {:induction false} SumConcat(a: seq<int>, b: seq<int>)
    ensures Sum(a + b) == Sum(a) + Sum(b)
  {
    if a == [] {
      assert a + b == b;
    } else {
      assert (a + b)[1..] == a[1..] + b;
      SumConcat(a[1..], b);
    }
  }

  lemma {:induction false} IterationsFrom(ns: seq<LogNode>, i: nat, table: Counts)
    requires i < |ns|
    ensures TestsInAll(ns[i..]) == TestsIn(ns[i]) + TestsInAll(ns[i + 1..])
    ensures RecordedAll(ns[i..], table) == Recorded(ns[i], table) + RecordedAll(ns[i + 1..], table)
  {
    assert ns[i..][1..] == ns[i + 1..];
  }

  lemma {:induction false} NoIterations(ns: seq<LogNode>, table: Counts)
    requires ns == []
    ensures TestsInAll(ns) == 0 && RecordedAll(ns, table) == []
  {}

  lemma {:induction false} Assoc(a: seq<int>, b: seq<int>, c: seq<int>)
    ensures (a + b) + c == a + (b + c)
  {}

  /** The importer's recursion over the log, with what it writes to the run. */
  class RunImport {
    const testsNumsPrologues: Counts
    var testResults: nat        // results of tests, as opposed to packages and sessions
    var prologueCounts: seq<int> // recorded on results of prologues that did not pass

    constructor (table: Counts)
      ensures testsNumsPrologues == table && testResults == 0 && prologueCounts == []
    {
      testsNumsPrologues, testResults, prologueCounts := table, 0, [];
    }

    method HandleIteration(data: LogNode)
      modifies this
      ensures testResults == old(testResults) + TestsIn(data)
      ensures prologueCounts == old(prologueCounts) + Recorded(data, testsNumsPrologues)
      decreases data
    {
      if data.isTest {
        testResults := testResults + 1;
      }
      if data.planId in testsNumsPrologues && data.status !in ["PASSED", "FAKED"] {
        prologueCounts := prologueCounts + [testsNumsPrologues[data.planId]];
      }
      assert prologueCounts == old(prologueCounts) + Own(data, testsNumsPrologues);
      hide TestsInAll, RecordedAll, Own;
      ghost var tests, counts, before := testResults, prologueCounts, old(prologueCounts);
      assert data.iters[0..] == data.iters;
      for i := 0 to |data.iters|
        invariant testResults + TestsInAll(data.iters[i..]) == tests + TestsInAll(data.iters)
        invariant prologueCounts + RecordedAll(data.iters[i..], testsNumsPrologues)
               == counts + RecordedAll(data.iters, testsNumsPrologues)
      {
        ghost var soFar := prologueCounts;
        IterationsFrom(data.iters, i, testsNumsPrologues);
        HandleIteration(data.iters[i]);
        Assoc(soFar, Recorded(data.iters[i], testsNumsPrologues), RecordedAll(data.iters[i + 1..], testsNumsPrologues));
      }
      NoIterations(data.iters[|data.iters|..], testsNumsPrologues);
      Assoc(before, Own(data, testsNumsPrologues), RecordedAll(data.iters, testsNumsPrologues));
    }

    /** Tests accounted for: the numerator of the run's progress. */
    method ActualTestsNum() returns (n: int)
      ensures n == testResults + Sum(prologueCounts)
    {
      var sum := 0;
      for i := 0 to |prologueCounts|
        invariant sum + Sum(prologueCounts[i..]) == Sum(prologueCounts)
      {
        assert prologueCounts[i..][1..] == prologueCounts[i + 1..];
        sum := sum + prologueCounts[i];
      }
      n := testResults + sum;
    }
  }

  // ---------- the table, seen from inside a plan ----------

  lemma {:induction false} ScanAdds(evs: seq<Event>, counts: Counts)
    ensures Scan(evs, counts) == counts + Scan(evs, map[])
  {
    if evs != [] {
      var one := if evs[0].enter && evs[0].plan.hasPrologue then map[evs[0].id + 1 := SkippedBy(evs[0].plan)]
                 else map[];
      ScanAdds(evs[1..], counts + one);
      ScanAdds(evs[1..], one);
      var rest := Scan(evs[1..], map[]);
      if evs[0].enter && evs[0].plan.hasPrologue {
        assert counts[evs[0].id + 1 := SkippedBy(evs[0].plan)] == counts + one;
      } else {
        assert counts == counts + one;
      }
      assert Scan(evs, counts) == Scan(evs[1..], counts + one);
      assert Scan(evs, map[]) == Scan(evs[1..], one);
      assert (counts + one) + rest == counts + (one + rest);
    }
  }

  lemma {:induction false} FillAllAdds(ps: seq<Plan>, counts: Counts, id: nat)
    ensures FillAll(ps, counts, id) == counts + FillAll(ps, map[], id)
  {
    FillAllIsScan(ps, counts, id);
    FillAllIsScan(ps, map[], id);
    ScanAdds(TourAll(ps, id), counts);
  }

  /** Prologues are numbered strictly inside their plan. */
  lemma {:induction false} FillRange(p: Plan, id: nat, k: nat)
    requires HasItsPrologues(p) && k in Fill(p, map[], id)
    ensures id < k < id + Size(p)
  {
    var evs := Tour(p, id);
    FillIsScan(p, map[], id);
    ScanKeys(evs, map[], k);
    var j :| 0 <= j < |evs| && evs[j].enter && evs[j].plan.hasPrologue && evs[j].id + 1 == k;
    PrologueIsNext(p, id, j);
    TourIds(p, id, evs[j].id, true);
    TourIds(p, id, k, true);
  }

  lemma {:induction false} FillAllRange(ps: seq<Plan>, id: nat, k: nat)
    requires (forall p | p in ps :: HasItsPrologues(p)) && k in FillAll(ps, map[], id)
    ensures id < k < id + SizeAll(ps)
  {
    if ps != [] {
      FillAllAdds(ps[1..], Fill(ps[0], map[], id), id + Size(ps[0]));
      if k in Fill(ps[0], map[], id) {
        FillRange(ps[0], id, k);
      } else {
        FillAllRange(ps[1..], id + Size(ps[0]), k);
      }
    }
  }

  predicate SameAt(a: Counts, b: Counts, k: nat) {
    if k in a then k in b && a[k] == b[k] else k !in b
  }

  /** The table says about the nodes strictly inside `p` what `p` alone would say. */
  ghost predicate Agrees(p: Plan, id: nat, table: Counts) {
    forall k: nat | id < k < id + Size(p) :: SameAt(table, Fill(p, map[], id), k)
  }

  ghost predicate AgreesAll(ps: seq<Plan>, id: nat, table: Counts) {
    forall k: nat | id <= k < id + SizeAll(ps) :: SameAt(table, FillAll(ps, map[], id), k)
  }

  lemma {:induction false} AgreesSplit(ps: seq<Plan>, id: nat, table: Counts)
    requires ps != [] && (forall p | p in ps :: HasItsPrologues(p)) && AgreesAll(ps, id, table)
    ensures Agrees(ps[0], id, table) && AgreesAll(ps[1..], id + Size(ps[0]), table) && id !in table
  {
    var a, b := Fill(ps[0], map[], id), FillAll(ps[1..], map[], id + Size(ps[0]));
    FillAllAdds(ps[1..], a, id + Size(ps[0]));
    forall k: nat
      ensures k in a ==> id < k < id + Size(ps[0])
      ensures k in b ==> id + Size(ps[0]) < k
    {
      if k in a { FillRange(ps[0], id, k); }
      if k in b { FillAllRange(ps[1..], id + Size(ps[0]), k); }
    }
    assert FillAll(ps, map[], id) == a + b;
    assert SameAt(table, a + b, id);
    forall k: nat | id < k < id + Size(ps[0])
      ensures SameAt(table, a, k)
    {
      assert SameAt(table, a + b, k);
    }
    forall k: nat | id + Size(ps[0]) <= k < id + SizeAll(ps)
      ensures SameAt(table, b, k)
    {
      assert SameAt(table, a + b, k);
    }
  }

  /** Inside a package with a prologue, the first child's number is in the table with the package's count. */
  lemma {:induction false} AgreesPrologue(p: Plan, id: nat, table: Counts)
    requires HasItsPrologues(p) && p.hasPrologue && Agrees(p, id, table)
    ensures id + 1 in table && table[id + 1] == SkippedBy(p)
    ensures Agrees(p.children[0], id + 1, table)
    ensures AgreesAll(p.children[1..], id + 1 + Size(p.children[0]), table)
  {
    var one := map[id + 1 := SkippedBy(p)];
    var rest := FillAll(p.children, map[], id + 1);
    FillAllAdds(p.children, one, id + 1);
    assert Fill(p, map[], id) == one + rest;
    forall k: nat
      ensures k in rest ==> id + 1 < k
    {
      if k in rest { FillAllRange(p.children, id + 1, k); }
    }
    assert SizeAll(p.children) >= Size(p.children[0]) >= 1;
    assert SameAt(table, one + rest, id + 1);
    var without := table - {id + 1};
    forall k: nat | id + 1 <= k < id + 1 + SizeAll(p.children)
      ensures SameAt(without, rest, k)
    {
      assert SameAt(table, one + rest, k);
    }
    AgreesSplit(p.children, id + 1, without);
    var a, b := Fill(p.children[0], map[], id + 1), FillAll(p.children[1..], map[], id + 1 + Size(p.children[0]));
    forall k: nat | id + 1 < k < id + 1 + Size(p.children[0])
      ensures SameAt(table, a, k)
    {
      assert SameAt(without, a, k);
    }
    forall k: nat | id + 1 + Size(p.children[0]) <= k < id + 1 + SizeAll(p.children)
      ensures SameAt(table, b, k)
    {
      assert SameAt(without, b, k);
    }
  }

  // ---------- the accounting ----------

  /** Prologues and epilogues are single tests. */
  ghost predicate SingleEnds(p: Plan) {
    && (p.hasPrologue ==> p.children != [] && p.children[0].nodeType == TEST)
    && (p.hasEpilogue ==> |p.children| > (if p.hasPrologue then 1 else 0)
                          && p.children[|p.children| - 1].nodeType == TEST)
    && forall c | c in p.children :: SingleEnds(c)
  }

  /** With single-test ends, a prologue's count is the number of tests between the ends. */
  lemma {:induction false} SkippedIsMiddle(p: Plan)
    requires SingleEnds(p) && p.hasPrologue
    ensures var n := |p.children|;
            SkippedBy(p) == TestsNumAll(if p.hasEpilogue then p.children[1..n - 1] else p.children[1..])
  {
    var n := |p.children| - 1;
    assert TestsNum(p.children[0]) == 1;
    if p.hasEpilogue {
      assert p.children[1..] == p.children[1..n] + [p.children[n]];
      TestsNumAllConcat(p.children[1..n], [p.children[n]]);
      assert [p.children[n]][1..] == [] && TestsNum(p.children[n]) == 1;
    }
  }

  lemma {:induction false} SingleEndsHasPrologues(p: Plan)
    requires SingleEnds(p)
    ensures HasItsPrologues(p)
  {
    forall c | c in p.children
      ensures HasItsPrologues(c)
    {
      SingleEndsHasPrologues(c);
    }
  }

  /** Tests run below a node plus the counts recorded strictly below it. */
  function Accounted(n: LogNode, table: Counts): int {
    TestsIn(n) + Sum(RecordedAll(n.iters, table))
  }

  function AccountedAll(ns: seq<LogNode>, table: Counts): int {
    TestsInAll(ns) + Sum(RecordedAll(ns, table))
  }

  lemma {:induction false} AccountedCons(n: LogNode, ns: seq<LogNode>, table: Counts)
    ensures AccountedAll([n] + ns, table) == Accounted(n, table) + Sum(Own(n, table)) + AccountedAll(ns, table)
  {
    assert ([n] + ns)[1..] == ns;
    SumConcat(Recorded(n, table), RecordedAll(ns, table));
    SumConcat(Own(n, table), RecordedAll(n.iters, table));
  }

  lemma {:induction false} NodeAccounted(p: Plan, id: nat, status: nat -> string, table: Counts)
    requires SingleEnds(p) && Agrees(p, id, table)
    ensures Accounted(Execute(p, id, status), table) == TestsNum(p)
    decreases p
  {
    SingleEndsHasPrologues(p);
    if p.nodeType == TEST || p.children == [] {
      assert Execute(p, id, status).iters == [] && RecordedAll([], table) == [] && TestsInAll([]) == 0;
      return;
    }
    var first := Execute(p.children[0], id + 1, status);
    if p.hasPrologue {
      AgreesPrologue(p, id, table);
      NodeAccounted(p.children[0], id + 1, status, table);
      if Passed(status(id + 1)) {
        ChildrenAccounted(p.children[1..], id + 1 + Size(p.children[0]), status, table);
        AccountedCons(first, ExecuteAll(p.children[1..], id + 1 + Size(p.children[0]), status), table);
      } else {
        FailedPrologue(p, id, status, table);
      }
    } else {
      assert Fill(p, map[], id) == FillAll(p.children, map[], id + 1);
      ChildrenAccounted(p.children, id + 1, status, table);
    }
  }

  lemma {:induction false} FailedPrologue(p: Plan, id: nat, status: nat -> string, table: Counts)
    requires SingleEnds(p) && p.hasPrologue && p.nodeType != TEST && !Passed(status(id + 1))
    requires id + 1 in table && table[id + 1] == SkippedBy(p)
    requires AgreesAll(p.children[1..], id + 1 + Size(p.children[0]), table)
    ensures Accounted(Execute(p, id, status), table) == TestsNum(p)
  {
    var n := |p.children| - 1;
    var first := Execute(p.children[0], id + 1, status);
    assert Own(first, table) == [SkippedBy(p)] && Sum([SkippedBy(p)]) == SkippedBy(p);
    if p.hasEpilogue {
      var last := Execute(p.children[n], LastId(p, id), status);
      EpilogueNotInTable(p, id, table);
      AccountedCons(first, [last], table);
      AccountedCons(last, [], table);
      assert [last] + [] == [last];
    } else {
      AccountedCons(first, [], table);
      assert [first] + [] == [first];
    }
  }

  lemma {:induction false} EpilogueNotInTable(p: Plan, id: nat, table: Counts)
    requires SingleEnds(p) && p.hasPrologue && p.hasEpilogue
    requires AgreesAll(p.children[1..], id + 1 + Size(p.children[0]), table)
    ensures LastId(p, id) !in table
  {
    SingleEndsHasPrologues(p);
    var n := |p.children| - 1;
    assert p.children[..n] == [p.children[0]] + p.children[1..][..n - 1];
    assert p.children[..n][1..] == p.children[1..][..n - 1];
    NotInTable(p.children[1..], id + 1 + Size(p.children[0]), table, n - 1);
  }

  lemma {:induction false} NotInTable(ps: seq<Plan>, id: nat, table: Counts, i: nat)
    requires (forall p | p in ps :: HasItsPrologues(p)) && AgreesAll(ps, id, table) && i < |ps|
    ensures id + SizeAll(ps[..i]) !in table
  {
    AgreesSplit(ps, id, table);
    if i > 0 {
      assert ps[..i][1..] == ps[1..][..i - 1];
      NotInTable(ps[1..], id + Size(ps[0]), table, i - 1);
    }
  }

  lemma {:induction false} ChildrenAccounted(ps: seq<Plan>, id: nat, status: nat -> string, table: Counts)
    requires (forall p | p in ps :: SingleEnds(p)) && AgreesAll(ps, id, table)
    ensures AccountedAll(ExecuteAll(ps, id, status), table) == TestsNumAll(ps)
    decreases ps
  {
    if ps != [] {
      forall p | p in ps ensures HasItsPrologues(p) { SingleEndsHasPrologues(p); }
      AgreesSplit(ps, id, table);
      NodeAccounted(ps[0], id, status, table);
      ChildrenAccounted(ps[1..], id + Size(ps[0]), status, table);
      AccountedCons(Execute(ps[0], id, status), ExecuteAll(ps[1..], id + Size(ps[0]), status), table);
    }
  }

  /** In any complete execution, whatever passes and whatever does not, the tests executed plus the counts
      recorded for prologues that did not pass equal the number of planned tests. */
  lemma {:induction false} CompleteRunIsFullProgress(root: Plan, status: nat -> string)
    requires SingleEnds(root)
    ensures var log, table := Execute(root, 0, status), Fill(root, map[], 0);
            TestsIn(log) + Sum(Recorded(log, table)) == TestsNum(root)
  {
    var log, table := Execute(root, 0, status), Fill(root, map[], 0);
    SingleEndsHasPrologues(root);
    NodeAccounted(root, 0, status, table);
    if 0 in table {
      FillRange(root, 0, 0);
    }
    assert Own(log, table) == [];
    assert Recorded(log, table) == RecordedAll(log.iters, table);
  }
}
