/** The main results about run statistics: a leaf of the summary and the listing of results it links to
    select the same executions, and no test result is lost or counted twice. */
module LeafAgreement {
  import opened Wrappers
  import opened ResultTree
  import opened RunStats

  // ---------- listing results by execution number ----------

  predicate Local(r: Row, parent: nat, name: string) {
    r.parent == Some(parent) && r.name == name && r.isTest
  }

  function LocalSeqnos(rows: seq<Row>, parent: nat, name: string): set<int> {
    set r | r in rows && Local(r, parent, name) :: r.seqno
  }

  /** The first execution number from `from` on that belongs to another test. */
  function FirstForeign(rows: seq<Row>, local: set<int>, from: int): Option<int> {
    if rows == [] then None
    else
      var rest := FirstForeign(rows[1..], local, from);
      if rows[0].seqno >= from && rows[0].seqno !in local && (rest.None? || rows[0].seqno < rest.value) then
        Some(rows[0].seqno)
      else rest
  }

  predicate InWindow(r: Row, parent: nat, name: string, from: int, limit: Option<int>, reqs: set<string>) {
    && Local(r, parent, name)
    && from <= r.seqno && (limit.Some? ==> r.seqno < limit.value)
    && reqs <= r.reqs
  }

  function Windowed(rows: seq<Row>, parent: nat, name: string, from: int, limit: Option<int>,
                    reqs: set<string>): seq<Row> {
    if rows == [] then []
    else if InWindow(rows[0], parent, name, from, limit, reqs) then
      [rows[0]] + Windowed(rows[1..], parent, name, from, limit, reqs)
    else Windowed(rows[1..], parent, name, from, limit, reqs)
  }

  /** The results of a test below a parent, consecutive from an execution number on. */
  function ListResults(rows: seq<Row>, parent: nat, name: string, from: int, reqs: set<string>): seq<Row> {
    Windowed(rows, parent, name, from, FirstForeign(rows, LocalSeqnos(rows, parent, name), from), reqs)
  }

  lemma {:induction false} FirstForeignIsFirst(rows: seq<Row>, local: set<int>, from: int)
    ensures var m := FirstForeign(rows, local, from);
            && (m.Some? ==>
                  && m.value >= from && m.value !in local
                  && exists i :: 0 <= i < |rows| && rows[i].seqno == m.value)
            && forall i :: 0 <= i < |rows| && rows[i].seqno >= from && rows[i].seqno !in local ==>
                 m.Some? && m.value <= rows[i].seqno
  {
    if rows != [] {
      FirstForeignIsFirst(rows[1..], local, from);
      var rest := FirstForeign(rows[1..], local, from);
      if rest.Some? {
        var i :| 0 <= i < |rows[1..]| && rows[1..][i].seqno == rest.value;
        assert rows[i + 1].seqno == rest.value;
      }
    }
  }

  lemma {:induction false} WindowedConcat(a: seq<Row>, b: seq<Row>, parent: nat, name: string, from: int,
                                          limit: Option<int>, reqs: set<string>)
    ensures Windowed(a + b, parent, name, from, limit, reqs)
         == Windowed(a, parent, name, from, limit, reqs) + Windowed(b, parent, name, from, limit, reqs)
  {
    if a == [] {
      assert a + b == b;
    } else {
      assert (a + b)[1..] == a[1..] + b;
      WindowedConcat(a[1..], b, parent, name, from, limit, reqs);
    }
  }

  lemma {:induction false} NothingWindowed(rows: seq<Row>, parent: nat, name: string, from: int,
                                           limit: Option<int>, reqs: set<string>)
    requires forall i :: 0 <= i < |rows| ==> !InWindow(rows[i], parent, name, from, limit, reqs)
    ensures Windowed(rows, parent, name, from, limit, reqs) == []
  {
    if rows != [] {
      NothingWindowed(rows[1..], parent, name, from, limit, reqs);
    }
  }

  // ---------- a batch ----------

  /** The test results that have the required metas. */
  function Tests(rows: seq<Row>, reqs: set<string>): seq<Row> {
    if rows == [] then []
    else if rows[0].isTest && reqs <= rows[0].reqs then [rows[0]] + Tests(rows[1..], reqs)
    else Tests(rows[1..], reqs)
  }

  lemma {:induction false} TestsConcat(a: seq<Row>, b: seq<Row>, reqs: set<string>)
    ensures Tests(a + b, reqs) == Tests(a, reqs) + Tests(b, reqs)
  {
    if a == [] {
      assert a + b == b;
    } else {
      assert (a + b)[1..] == a[1..] + b;
      TestsConcat(a[1..], b, reqs);
    }
  }

  lemma {:induction false} BatchIsUniform(ns: seq<Node>, i: nat)
    requires i < |ns|
    ensures var j := BatchEnd(ns, i);
            && (forall k :: i <= k <= j ==> ns[k].name == ns[i].name)
            && (forall k :: i < k <= j ==> ns[k].isTest)
            && (j + 1 < |ns| ==> ns[j + 1].name != ns[i].name || !ns[j + 1].isTest)
    decreases |ns| - i
  {
    if i + 1 < |ns| && ns[i + 1].name == ns[i].name && ns[i + 1].isTest {
      BatchIsUniform(ns, i + 1);
    }
  }

  lemma {:induction false} ExecutionsConcat(a: seq<Row>, b: seq<Row>, name: string, start: int, finish: Option<int>,
                                            reqs: set<string>)
    ensures Executions(a + b, name, start, finish, reqs)
         == Executions(a, name, start, finish, reqs) + Executions(b, name, start, finish, reqs)
  {
    if a == [] {
      assert a + b == b;
    } else {
      assert (a + b)[1..] == a[1..] + b;
      ExecutionsConcat(a[1..], b, name, start, finish, reqs);
    }
  }

  lemma {:induction false} ExecutionsFilter(rows: seq<Row>, name: string, start: int, finish: Option<int>,
                                            reqs: set<string>)
    ensures (forall i :: 0 <= i < |rows| ==> !InPeriod(rows[i], name, start, finish)) ==>
              Executions(rows, name, start, finish, reqs) == []
    ensures (forall i :: 0 <= i < |rows| ==> InPeriod(rows[i], name, start, finish) && rows[i].isTest) ==>
              Executions(rows, name, start, finish, reqs) == Tests(rows, reqs)
  {
    if rows != [] {
      ExecutionsFilter(rows[1..], name, start, finish, reqs);
      assert forall i :: 0 <= i < |rows[1..]| ==> rows[1..][i] == rows[i + 1];
    }
  }

  lemma {:induction false} OneAfterAnother(ns: seq<Node>, a: nat, b: nat)
    requires Separated(ns) && a <= b < |ns|
    ensures a < b ==> ns[a].finish.Some? && ns[a].finish.value < ns[b].start
    ensures ns[a].start <= ns[b].start && (ns[b].finish.Some? ==> ns[b].start <= ns[b].finish.value)
  {
    assert ns[a].finish.None? || ns[a].start <= ns[a].finish.value;
    assert ns[b].finish.None? || ns[b].start <= ns[b].finish.value;
  }

  /** Among separated siblings, name and period select exactly the positions of the batch. */
  lemma {:induction false} PeriodPositions(ns: seq<Node>, i: nat, parent: Option<nat>, k: nat)
    requires i < |ns| && k < |ns| && Separated(ns)
    ensures var j := BatchEnd(ns, i);
            InPeriod(RowOf(ns[k], parent), ns[i].name, ns[i].start, ns[j].finish) <==> i <= k <= j
  {
    hide BatchEnd, Separated;
    BatchIsUniform(ns, i);
    var j := BatchEnd(ns, i);
    if k < i {
      OneAfterAnother(ns, k, i);
      OneAfterAnother(ns, k, k);
    } else if k <= j {
      OneAfterAnother(ns, i, k);
      OneAfterAnother(ns, k, j);
      OneAfterAnother(ns, j, j);
    } else {
      OneAfterAnother(ns, j, k);
      OneAfterAnother(ns, k, k);
    }
  }

  lemma {:induction false} ExecutionsSlice(rows: seq<Row>, i: nat, j: nat, name: string, start: int,
                                           finish: Option<int>, reqs: set<string>)
    requires i <= j < |rows|
    requires forall k :: 0 <= k < |rows| ==> (InPeriod(rows[k], name, start, finish) <==> i <= k <= j)
    requires forall k :: i <= k <= j ==> rows[k].isTest
    ensures Executions(rows, name, start, finish, reqs) == Tests(rows[i..j + 1], reqs)
  {
    hide Executions, Tests, InPeriod;
    var a, m, b := rows[..i], rows[i..j + 1], rows[j + 1..];
    assert rows == a + m + b;
    ExecutionsConcat(a, m, name, start, finish, reqs);
    ExecutionsConcat(a + m, b, name, start, finish, reqs);
    ExecutionsFilter(a, name, start, finish, reqs);
    ExecutionsFilter(m, name, start, finish, reqs);
    ExecutionsFilter(b, name, start, finish, reqs);
  }

  /** Batch by time: among separated siblings, name and period select exactly the consecutive executions. */
  lemma {:induction false} PeriodIsBatch(ns: seq<Node>, i: nat, parent: Option<nat>, reqs: set<string>)
    requires i < |ns| && ns[i].isTest && Separated(ns)
    ensures var j := BatchEnd(ns, i);
            Executions(RowsOf(ns, parent), ns[i].name, ns[i].start, ns[j].finish, reqs)
            == Tests(RowsOf(ns[i..j + 1], parent), reqs)
  {
    hide Executions, Tests, InPeriod, BatchEnd, Separated, RowsOf;
    var j := BatchEnd(ns, i);
    BatchIsUniform(ns, i);
    var rows := RowsOf(ns, parent);
    forall k | 0 <= k < |rows|
      ensures InPeriod(rows[k], ns[i].name, ns[i].start, ns[j].finish) <==> i <= k <= j
    {
      PeriodPositions(ns, i, parent, k);
    }
    assert forall k :: i <= k <= j ==> rows[k].isTest;
    ExecutionsSlice(rows, i, j, ns[i].name, ns[i].start, ns[j].finish, reqs);
    RowsOfSlice(ns, i, j + 1, parent);
  }

  lemma {:induction false} RowsOfSlice(ns: seq<Node>, i: nat, j: nat, parent: Option<nat>)
    requires i <= j <= |ns|
    ensures RowsOf(ns, parent)[i..j] == RowsOf(ns[i..j], parent)
  {
    hide RowsOf;
    forall k | 0 <= k < j - i
      ensures RowsOf(ns, parent)[i..j][k] == RowsOf(ns[i..j], parent)[k]
    {
      assert ns[i..j][k] == ns[i + k];
    }
  }

  lemma {:induction false} FlattenLeaves(ns: seq<Node>, parent: Option<nat>)
    requires forall c | c in ns :: c.children == []
    ensures FlattenAll(ns, parent) == RowsOf(ns, parent)
  {
    if ns != [] {
      FlattenLeaves(ns[1..], parent);
      assert FlattenAll([], Some(ns[0].id)) == [];
      assert Flatten(ns[0], parent) == [RowOf(ns[0], parent)];
    }
  }

  lemma {:induction false} BatchHasNoChildren(ns: seq<Node>, i: nat)
    requires i < |ns| && ns[i].isTest && (forall c | c in ns :: Sequential(c))
    ensures forall c | c in ns[i..BatchEnd(ns, i) + 1] :: c.children == []
  {
    BatchIsUniform(ns, i);
    var m := ns[i..BatchEnd(ns, i) + 1];
    forall c | c in m
      ensures c.children == []
    {
      var k :| 0 <= k < |m| && m[k] == c;
      assert c == ns[i + k] && c in ns;
    }
  }

  // ---------- no test is lost or counted twice ----------

  /** The executions counted by the leaves of a summary, leaf by leaf. */
  function LeafRows(n: Node, siblings: seq<Node>, parent: Option<nat>, start: int, finish: Option<int>,
                    reqs: set<string>): seq<Row>
    decreases n, 0
  {
    if n.isTest then Executions(RowsOf(siblings, parent), n.name, start, finish, reqs)
    else LeafRowsFrom(n.children, 0, n.id, reqs)
  }

  function LeafRowsFrom(ns: seq<Node>, i: nat, parent: nat, reqs: set<string>): seq<Row>
    decreases ns, if i < |ns| then |ns| - i else 0
  {
    if i >= |ns| then []
    else
      var j := BatchEnd(ns, i);
      LeafRows(ns[i], ns, Some(parent), ns[i].start, ns[j].finish, reqs) + LeafRowsFrom(ns, j + 1, parent, reqs)
  }

  /** The leaves of a package count its test results exactly once each, in execution order. */
  lemma {:induction false} LeavesPartitionTests(ns: seq<Node>, i: nat, parent: nat, reqs: set<string>)
    requires i <= |ns| && Separated(ns) && OneTypePerName(ns) && (forall c | c in ns :: Sequential(c))
    ensures LeafRowsFrom(ns, i, parent, reqs) == Tests(FlattenAll(ns[i..], Some(parent)), reqs)
    decreases ns, |ns| - i
  {
    hide FlattenAll, Flatten, Tests, LeafRows, LeafRowsFrom, Sequential, Separated, OneTypePerName, BatchEnd;
    if i == |ns| {
      EmptyTests(parent, reqs);
      NoLeafRows(ns, parent, reqs);
    } else {
      var j := BatchEnd(ns, i);
      var m, b := ns[i..j + 1], ns[j + 1..];
      assert ns[i..] == m + b;
      FlattenAllConcat(m, b, Some(parent));
      TestsConcat(FlattenAll(m, Some(parent)), FlattenAll(b, Some(parent)), reqs);
      LeavesPartitionTests(ns, j + 1, parent, reqs);
      FirstLeafRows(ns, i, parent, reqs);
      if ns[i].isTest {
        BatchTests(ns, i, parent, reqs);
      } else {
        PackageIsAlone(ns, i);
        assert m == [ns[i]] && ns[i] in ns;
        PackageTests(ns[i], parent, reqs);
        SequentialInside(ns[i]);
        LeavesPartitionTests(ns[i].children, 0, ns[i].id, reqs);
        assert ns[i].children[0..] == ns[i].children;
      }
    }
  }

  lemma {:induction false} NoLeafRows(ns: seq<Node>, parent: nat, reqs: set<string>)
    ensures LeafRowsFrom(ns, |ns|, parent, reqs) == []
  {}

  lemma {:induction false} FirstLeafRows(ns: seq<Node>, i: nat, parent: nat, reqs: set<string>)
    requires i < |ns|
    ensures var j := BatchEnd(ns, i);
            LeafRowsFrom(ns, i, parent, reqs)
            == LeafRows(ns[i], ns, Some(parent), ns[i].start, ns[j].finish, reqs)
               + LeafRowsFrom(ns, j + 1, parent, reqs)
    ensures !ns[i].isTest ==>
              LeafRows(ns[i], ns, Some(parent), ns[i].start, ns[BatchEnd(ns, i)].finish, reqs)
              == LeafRowsFrom(ns[i].children, 0, ns[i].id, reqs)
  {
    hide Executions, RowsOf, BatchEnd;
  }

  lemma {:induction false} BatchTests(ns: seq<Node>, i: nat, parent: nat, reqs: set<string>)
    requires i < |ns| && ns[i].isTest && Separated(ns) && (forall c | c in ns :: Sequential(c))
    ensures var j := BatchEnd(ns, i);
            LeafRows(ns[i], ns, Some(parent), ns[i].start, ns[j].finish, reqs)
            == Tests(FlattenAll(ns[i..j + 1], Some(parent)), reqs)
  {
    hide FlattenAll, Tests, Executions, RowsOf, Sequential, Separated, BatchEnd;
    PeriodIsBatch(ns, i, Some(parent), reqs);
    BatchHasNoChildren(ns, i);
    FlattenLeaves(ns[i..BatchEnd(ns, i) + 1], Some(parent));
  }

  lemma {:induction false} EmptyTests(parent: nat, reqs: set<string>)
    ensures Tests(FlattenAll([], Some(parent)), reqs) == []
  {}

  lemma {:induction false} SequentialInside(n: Node)
    requires Sequential(n)
    ensures Separated(n.children) && OneTypePerName(n.children) && forall c | c in n.children :: Sequential(c)
  {}

  lemma {:induction false} PackageIsAlone(ns: seq<Node>, i: nat)
    requires i < |ns| && !ns[i].isTest && OneTypePerName(ns)
    ensures BatchEnd(ns, i) == i
  {}

  lemma {:induction false} PackageTests(n: Node, parent: nat, reqs: set<string>)
    requires !n.isTest
    ensures Tests(FlattenAll([n], Some(parent)), reqs) == Tests(FlattenAll(n.children, Some(n.id)), reqs)
  {
    var below := FlattenAll(n.children, Some(n.id));
    assert FlattenAll([n], Some(parent)) == [RowOf(n, Some(parent))] + below by {
      assert [n][1..] == [];
    }
    assert ([RowOf(n, Some(parent))] + below)[1..] == below;
  }

  function StatsOf(o: Option<Info>): Stats {
    match o
    case None => ZERO
    case Some(info) => info.stats
  }

  /** A summary's counters are the tally of the executions its leaves count; leaving out packages without
      results changes nothing. */
  lemma {:induction false} SummaryTally(n: Node, siblings: seq<Node>, parent: Option<nat>, start: int,
                                        finish: Option<int>, reqs: set<string>)
    ensures StatsOf(Summarize(n, siblings, parent, start, finish, reqs))
         == Tally(LeafRows(n, siblings, parent, start, finish, reqs))
    decreases n, 0
  {
    hide Add, SummarizeFrom, Tally, CountedStats, LeafRowsFrom, RowsOf;
    TallyOfNothing();
    if n.isTest {
      CountedIsTally(Executions(RowsOf(siblings, parent), n.name, start, finish, reqs));
    } else {
      SummaryTallyFrom(n.children, 0, n.id, reqs);
      ZeroSum(SumStats(SummarizeFrom(n.children, 0, n.id, reqs)));
    }
  }

  lemma {:induction false} TallyOfNothing()
    ensures Tally([]) == ZERO
  {}

  lemma {:induction false} ZeroSum(s: Stats)
    ensures s.Sum() == 0 ==> s == ZERO
  {}

  lemma {:induction false} SummaryTallyFrom(ns: seq<Node>, i: nat, parent: nat, reqs: set<string>)
    ensures SumStats(SummarizeFrom(ns, i, parent, reqs)) == Tally(LeafRowsFrom(ns, i, parent, reqs))
    decreases ns, if i < |ns| then |ns| - i else 0
  {
    if i < |ns| {
      var j := BatchEnd(ns, i);
      var o := Summarize(ns[i], ns, Some(parent), ns[i].start, ns[j].finish, reqs);
      SummaryTally(ns[i], ns, Some(parent), ns[i].start, ns[j].finish, reqs);
      SummaryTallyFrom(ns, j + 1, parent, reqs);
      hide Summarize, LeafRows, Add;
      SumStatsConcat(Kept(o), SummarizeFrom(ns, j + 1, parent, reqs));
      TallyConcat(LeafRows(ns[i], ns, Some(parent), ns[i].start, ns[j].finish, reqs),
          LeafRowsFrom(ns, j + 1, parent, reqs));
      KeptStats(o);
    }
  }

  lemma {:induction false} KeptStats(o: Option<Info>)
    ensures SumStats(Kept(o)) == StatsOf(o)
  {
    if o.Some? {
      AddLaws(o.value.stats, ZERO, ZERO);
      assert [o.value][..0] == [];
    }
  }

  /** Statistics are conserved: the summary of a run counts every test result that has the required metas
      exactly once, and nothing else. */
  lemma {:induction false} RunStatsConserved(root: Node, reqs: set<string>)
    requires WellFormedRun(root)
    ensures var info := Summarize(root, [root], None, root.start, root.finish, reqs);
            && LeafRows(root, [root], None, root.start, root.finish, reqs) == Tests(Flatten(root, None), reqs)
            && StatsOf(info) == Tally(Tests(Flatten(root, None), reqs))
  {
    hide DistinctIds, SeqnosIncrease, Executions, Tally, Summarize;
    var below := FlattenAll(root.children, Some(root.id));
    SummaryTally(root, [root], None, root.start, root.finish, reqs);
    if root.isTest {
      OwnPeriod(root, reqs);
      assert below == [] && Flatten(root, None) == RowsOf([root], None);
    } else {
      SequentialInside(root);
      LeavesPartitionTests(root.children, 0, root.id, reqs);
      assert root.children[0..] == root.children;
      assert Flatten(root, None)[1..] == below;
    }
  }

  lemma {:induction false} OwnPeriod(n: Node, reqs: set<string>)
    requires n.isTest
    ensures Executions(RowsOf([n], None), n.name, n.start, n.finish, reqs) == Tests(RowsOf([n], None), reqs)
  {
    ExecutionsFilter(RowsOf([n], None), n.name, n.start, n.finish, reqs);
  }

  /** Every package kept in a summary has some result, and its counters are the sums of its children's. */
  ghost predicate Additive(info: Info) {
    && (!info.isTest ==> info.stats == SumStats(info.children) && info.stats.Sum() > 0)
    && forall c | c in info.children :: Additive(c)
  }

  lemma {:induction false} SummaryIsAdditive(n: Node, siblings: seq<Node>, parent: Option<nat>, start: int,
                                             finish: Option<int>, reqs: set<string>)
    ensures var o := Summarize(n, siblings, parent, start, finish, reqs);
            o.Some? ==> Additive(o.value)
    decreases n, 0
  {
    hide SumStats, CountedStats, Executions;
    if !n.isTest {
      SummariesAreAdditive(n.children, 0, n.id, reqs);
    }
  }

  lemma {:induction false} SummariesAreAdditive(ns: seq<Node>, i: nat, parent: nat, reqs: set<string>)
    ensures forall c | c in SummarizeFrom(ns, i, parent, reqs) :: Additive(c)
    decreases ns, if i < |ns| then |ns| - i else 0
  {
    hide Summarize, Additive;
    if i < |ns| {
      var j := BatchEnd(ns, i);
      SummaryIsAdditive(ns[i], ns, Some(parent), ns[i].start, ns[j].finish, reqs);
      SummariesAreAdditive(ns, j + 1, parent, reqs);
    }
  }

  // ---------- the listing agrees with the leaf ----------

  /** The table around one batch: everything before it and after it. */
  lemma {:induction false} AroundBatch(root: Node, p: Node, i: nat) returns (a: seq<Row>, b: seq<Row>, c: seq<Row>)
    requires WellFormedRun(root) && Within(p, root) && i < |p.children| && p.children[i].isTest
    ensures var j := BatchEnd(p.children, i);
            && Flatten(root, None) == a + RowsOf(p.children[i..j + 1], Some(p.id)) + (b + c)
            && b == FlattenAll(p.children[j + 1..], Some(p.id))
            && WithParent(c, Some(p.id)) == []
  {
    hide SeqnosIncrease, DistinctIds, WithParent, BatchEnd, Within, Flatten, FlattenAll, Sequential, RowsOf;
    var ns := p.children;
    WithinSequential(p, root);
    SequentialInside(p);
    var a', c' := Locate(root, None, p);
    NoChildrenOutside(root, p, a', c');
    SplitAtBatch(ns, i, p.id);
    var x, m, y := FlattenAll(ns[..i], Some(p.id)), RowsOf(ns[i..BatchEnd(ns, i) + 1], Some(p.id)),
                   FlattenAll(ns[BatchEnd(ns, i) + 1..], Some(p.id));
    a, b, c := a' + x, y, c';
    assert a' + (x + (m + y)) + c' == (a' + x) + m + (y + c');
  }

  lemma {:induction false} SplitAtBatch(ns: seq<Node>, i: nat, parent: nat)
    requires i < |ns| && ns[i].isTest && (forall c | c in ns :: Sequential(c))
    ensures var j := BatchEnd(ns, i);
            FlattenAll(ns, Some(parent)) == FlattenAll(ns[..i], Some(parent))
                                            + (RowsOf(ns[i..j + 1], Some(parent))
                                                + FlattenAll(ns[j + 1..], Some(parent)))
  {
    hide FlattenAll, Sequential, RowsOf, BatchEnd;
    BatchHasNoChildren(ns, i);
    var j := BatchEnd(ns, i);
    FlattenLeaves(ns[i..j + 1], Some(parent));
    InThree(ns, i, j + 1);
    FlattenAllConcat(ns[..i], ns[i..j + 1] + ns[j + 1..], Some(parent));
    FlattenAllConcat(ns[i..j + 1], ns[j + 1..], Some(parent));
  }

  lemma {:induction false} InThree(ns: seq<Node>, i: nat, j: nat)
    requires i <= j <= |ns|
    ensures ns == ns[..i] + (ns[i..j] + ns[j..])
  {}

  lemma {:induction false} NoChildrenOutside(root: Node, p: Node, a: seq<Row>, c: seq<Row>)
    requires DistinctIds(Flatten(root, None)) && Within(p, root)
    requires Flatten(root, None) == a + FlattenAll(p.children, Some(p.id)) + c
    ensures WithParent(c, Some(p.id)) == []
  {
    hide Flatten, WithParent, Within;
    var f := FlattenAll(p.children, Some(p.id));
    ChildrenQuery(root, None, p);
    WithParentConcat(a, f, Some(p.id));
    WithParentConcat(a + f, c, Some(p.id));
    OwnIdNotBelow(root, None, p);
    NoneBelowAll(p.children, Some(p.id), p.id);
    assert |WithParent(a, Some(p.id))| + |WithParent(c, Some(p.id))| == 0;
  }

  lemma {:induction false} OwnIdNotBelow(root: Node, parent: Option<nat>, p: Node)
    requires DistinctIds(Flatten(root, parent)) && Within(p, root)
    ensures !HasId(FlattenAll(p.children, Some(p.id)), p.id)
    decreases root
  {
    var a, b := [RowOf(root, parent)], FlattenAll(root.children, Some(root.id));
    DistinctParts(a, b);
    if p == root {
      assert a[0].id == p.id;
      assert HasId(a, p.id);
    } else {
      var c :| c in root.children && Within(p, c);
      DistinctInside(root.children, Some(root.id), c);
      OwnIdNotBelow(c, Some(root.id), p);
    }
  }

  lemma {:induction false} DistinctInside(ns: seq<Node>, parent: Option<nat>, c: Node)
    requires DistinctIds(FlattenAll(ns, parent)) && c in ns
    ensures DistinctIds(Flatten(c, parent))
  {
    DistinctParts(Flatten(ns[0], parent), FlattenAll(ns[1..], parent));
    if c != ns[0] {
      DistinctInside(ns[1..], parent, c);
    }
  }

  lemma {:induction false} NoneWithParent(rows: seq<Row>, parent: Option<nat>, k: nat)
    requires WithParent(rows, parent) == [] && k < |rows|
    ensures rows[k].parent != parent
  {
    if k > 0 {
      NoneWithParent(rows[1..], parent, k - 1);
    }
  }

  /** Window by numbers: from the first execution of a batch up to the first foreign number lies exactly the
      batch. */
  lemma {:induction false} WindowIsBatch(a: seq<Row>, m: seq<Row>, b: seq<Row>, parent: nat, name: string,
                                         reqs: set<string>)
    requires SeqnosIncrease(a + m + b) && m != []
    requires forall k :: 0 <= k < |m| ==> Local(m[k], parent, name)
    requires (exists k :: 0 <= k < |b| && Local(b[k], parent, name)) ==> !Local(b[0], parent, name)
    ensures ListResults(a + m + b, parent, name, m[0].seqno, reqs) == Tests(m, reqs)
  {
    var rows := a + m + b;
    var from := m[0].seqno;
    var local := LocalSeqnos(rows, parent, name);
    FirstForeignIsFirst(rows, local, from);
    var limit := FirstForeign(rows, local, from);
    WindowedConcat(a, m, parent, name, from, limit, reqs);
    WindowedConcat(a + m, b, parent, name, from, limit, reqs);
    hide Windowed, FirstForeign, Tests;
    Ordered(a, m, b);
    forall k | 0 <= k < |a|
      ensures !InWindow(a[k], parent, name, from, limit, reqs)
    {}
    NothingWindowed(a, parent, name, from, limit, reqs);
    BatchBelowLimit(a, m, b, parent, name, limit);
    AllWindowed(m, parent, name, from, limit, reqs);
    forall k | 0 <= k < |b|
      ensures !InWindow(b[k], parent, name, from, limit, reqs)
    {
      if Local(b[k], parent, name) {
        AfterLimit(a, m, b, parent, name, k);
      }
    }
    NothingWindowed(b, parent, name, from, limit, reqs);
  }

  lemma {:induction false} Ordered(a: seq<Row>, m: seq<Row>, b: seq<Row>)
    requires SeqnosIncrease(a + m + b) && m != []
    ensures forall k :: 0 <= k < |a| ==> a[k].seqno < m[0].seqno
    ensures forall k :: 0 <= k < |m| ==> m[0].seqno <= m[k].seqno
    ensures forall k, l :: 0 <= k < |m| && 0 <= l < |b| ==> m[k].seqno < b[l].seqno
    ensures forall k :: 0 <= k < |b| ==> b[0].seqno <= b[k].seqno
  {
    var rows := a + m + b;
    forall k | 0 <= k < |a| ensures a[k].seqno < m[0].seqno {
      assert rows[k] == a[k] && rows[|a|] == m[0];
    }
    forall k | 0 <= k < |m| ensures m[0].seqno <= m[k].seqno {
      assert rows[|a| + k] == m[k] && rows[|a|] == m[0];
    }
    forall k, l | 0 <= k < |m| && 0 <= l < |b| ensures m[k].seqno < b[l].seqno {
      assert rows[|a| + k] == m[k] && rows[|a| + |m| + l] == b[l];
    }
    forall k | 0 <= k < |b| ensures b[0].seqno <= b[k].seqno {
      assert rows[|a| + |m| + k] == b[k] && rows[|a| + |m|] == b[0];
    }
  }

  lemma {:induction false} AllWindowed(rows: seq<Row>, parent: nat, name: string, from: int, limit: Option<int>,
                                       reqs: set<string>)
    requires forall k :: 0 <= k < |rows| ==>
               && Local(rows[k], parent, name) && from <= rows[k].seqno
               && (limit.Some? ==> rows[k].seqno < limit.value)
    ensures Windowed(rows, parent, name, from, limit, reqs) == Tests(rows, reqs)
  {
    if rows != [] {
      AllWindowed(rows[1..], parent, name, from, limit, reqs);
    }
  }

  /** No number of the batch, or between two of them, is foreign. */
  lemma {:induction false} BatchBelowLimit(a: seq<Row>, m: seq<Row>, b: seq<Row>, parent: nat, name: string,
                                           limit: Option<int>)
    requires SeqnosIncrease(a + m + b) && m != []
    requires forall k :: 0 <= k < |m| ==> Local(m[k], parent, name)
    requires limit == FirstForeign(a + m + b, LocalSeqnos(a + m + b, parent, name), m[0].seqno)
    ensures limit.Some? ==> forall k :: 0 <= k < |m| ==> m[k].seqno < limit.value
  {
    var rows := a + m + b;
    FirstForeignIsFirst(rows, LocalSeqnos(rows, parent, name), m[0].seqno);
    hide FirstForeign, LocalSeqnos;
    Ordered(a, m, b);
    if limit.Some? {
      var i :| 0 <= i < |rows| && rows[i].seqno == limit.value;
      ForeignIsLater(a, m, b, parent, name, i);
      assert rows[i] == b[i - |a| - |m|];
    }
  }

  lemma {:induction false} ForeignIsLater(a: seq<Row>, m: seq<Row>, b: seq<Row>, parent: nat, name: string, i: nat)
    requires SeqnosIncrease(a + m + b) && m != [] && i < |a + m + b|
    requires forall k :: 0 <= k < |m| ==> Local(m[k], parent, name)
    ensures var rows := a + m + b;
            rows[i].seqno >= m[0].seqno && rows[i].seqno !in LocalSeqnos(rows, parent, name) ==> i >= |a| + |m|
  {
    var rows := a + m + b;
    Ordered(a, m, b);
    if i < |a| {
      assert rows[i] == a[i];
    } else if i < |a| + |m| {
      assert rows[i] == m[i - |a|] && rows[i] in rows;
    }
  }

  /** A later execution of the same test comes after a foreign one. */
  lemma {:induction false} AfterLimit(a: seq<Row>, m: seq<Row>, b: seq<Row>, parent: nat, name: string, k: nat)
    requires SeqnosIncrease(a + m + b) && m != [] && k < |b|
    requires Local(b[k], parent, name) && !Local(b[0], parent, name)
    ensures var limit := FirstForeign(a + m + b, LocalSeqnos(a + m + b, parent, name), m[0].seqno);
            limit.Some? && limit.value <= b[k].seqno
  {
    var rows := a + m + b;
    FirstForeignIsFirst(rows, LocalSeqnos(rows, parent, name), m[0].seqno);
    hide FirstForeign, LocalSeqnos;
    Ordered(a, m, b);
    assert rows[|a| + |m|] == b[0];
    NotLocalNumber(rows, |a| + |m|, parent, name);
  }

  lemma {:induction false} NotLocalNumber(rows: seq<Row>, n: nat, parent: nat, name: string)
    requires SeqnosIncrease(rows) && n < |rows| && !Local(rows[n], parent, name)
    ensures rows[n].seqno !in LocalSeqnos(rows, parent, name)
  {
    forall r | r in rows && Local(r, parent, name)
      ensures r.seqno != rows[n].seqno
    {
      var i :| 0 <= i < |rows| && rows[i] == r;
      if i < n {
        assert rows[i].seqno < rows[n].seqno;
      } else {
        assert rows[n].seqno < rows[i].seqno;
      }
    }
  }

  /** Each leaf of the summary counts exactly the executions listed for its parent, name and execution
      number. */
  lemma {:induction false} LeafMatchesListing(root: Node, p: Node, i: nat, reqs: set<string>)
    requires WellFormedRun(root) && Within(p, root) && i < |p.children| && p.children[i].isTest
    ensures var c, j := p.children[i], BatchEnd(p.children, i);
            ListResults(Flatten(root, None), p.id, c.name, c.seqno, reqs)
            == Executions(RowsOf(p.children, Some(p.id)), c.name, c.start, p.children[j].finish, reqs)
  {
    hide Flatten, FlattenAll, Sequential, Separated, OneTypePerName, Executions, ListResults, Tests, BatchEnd, Within,
         DistinctIds, SeqnosIncrease, WithParent, RowsOf, Local;
    var ns := p.children;
    var m := RowsOf(ns[i..BatchEnd(ns, i) + 1], Some(p.id));
    var a, b, c := AroundBatch(root, p, i);
    WithinSequential(p, root);
    SequentialInside(p);
    PeriodIsBatch(ns, i, Some(p.id), reqs);
    BatchIsLocal(ns, i, p.id);
    RestStartsForeign(ns, i, p.id, b, c);
    WindowIsBatch(a, m, b + c, p.id, ns[i].name, reqs);
  }

  lemma {:induction false} BatchIsLocal(ns: seq<Node>, i: nat, parent: nat)
    requires i < |ns| && ns[i].isTest
    ensures var m := RowsOf(ns[i..BatchEnd(ns, i) + 1], Some(parent));
            m != [] && m[0].seqno == ns[i].seqno && forall k :: 0 <= k < |m| ==> Local(m[k], parent, ns[i].name)
  {
    BatchIsUniform(ns, i);
    hide BatchEnd;
    var m := RowsOf(ns[i..BatchEnd(ns, i) + 1], Some(parent));
    forall k | 0 <= k < |m|
      ensures Local(m[k], parent, ns[i].name)
    {
      assert m[k] == RowOf(ns[i + k], Some(parent));
    }
  }

  /** If the test is executed again after the batch, something else of its parent's comes first. */
  lemma {:induction false} RestStartsForeign(ns: seq<Node>, i: nat, parent: nat, b: seq<Row>, c: seq<Row>)
    requires i < |ns| && ns[i].isTest && OneTypePerName(ns)
    requires b == FlattenAll(ns[BatchEnd(ns, i) + 1..], Some(parent)) && WithParent(c, Some(parent)) == []
    ensures (exists k :: 0 <= k < |b + c| && Local((b + c)[k], parent, ns[i].name)) ==>
              !Local((b + c)[0], parent, ns[i].name)
  {
    BatchIsUniform(ns, i);
    if exists k :: 0 <= k < |b + c| && Local((b + c)[k], parent, ns[i].name) {
      var k :| 0 <= k < |b + c| && Local((b + c)[k], parent, ns[i].name);
      if |b| == 0 {
        NoneWithParent(c, Some(parent), k);
      } else {
        FirstOfRest(ns, BatchEnd(ns, i) + 1, parent, b);
      }
    }
  }

  lemma {:induction false} FirstOfRest(ns: seq<Node>, k: nat, parent: nat, b: seq<Row>)
    requires k <= |ns| && b == FlattenAll(ns[k..], Some(parent)) && b != []
    ensures k < |ns| && b[0] == RowOf(ns[k], Some(parent))
  {}

  /** Every leaf below a package counts exactly the executions that are listed under its parent, name and
      execution number. */
  ghost predicate LeavesListed(info: Info, rows: seq<Row>, reqs: set<string>) {
    && (info.isTest && info.parent.Some? ==>
          info.stats == Tally(ListResults(rows, info.parent.value, info.name, info.seqno, reqs)))
    && forall c | c in info.children :: LeavesListed(c, rows, reqs)
  }

  lemma {:induction false} SummariesListed(root: Node, p: Node, i: nat, reqs: set<string>)
    requires WellFormedRun(root) && Within(p, root)
    ensures forall c | c in SummarizeFrom(p.children, i, p.id, reqs) :: LeavesListed(c, Flatten(root, None), reqs)
    decreases p, if i < |p.children| then |p.children| - i else 0
  {
    hide WellFormedRun, Within, SummarizeFrom, Summarize, Flatten, LeavesListed, BatchEnd;
    if i < |p.children| {
      FirstBatch(p.children, i, p.id, reqs);
      SummariesListed(root, p, BatchEnd(p.children, i) + 1, reqs);
      WithinChild(p, root, i);
      if p.children[i].isTest {
        LeafListed(root, p, i, reqs);
      } else {
        SummariesListed(root, p.children[i], 0, reqs);
        PackageListed(root, p, i, reqs);
      }
    } else {
      NothingAfter(p.children, i, p.id, reqs);
    }
  }

  lemma {:induction false} NothingAfter(ns: seq<Node>, i: nat, parent: nat, reqs: set<string>)
    requires i >= |ns|
    ensures SummarizeFrom(ns, i, parent, reqs) == []
  {}

  lemma {:induction false} LeafListed(root: Node, p: Node, i: nat, reqs: set<string>)
    requires WellFormedRun(root) && Within(p, root) && i < |p.children| && p.children[i].isTest
    ensures var c, last := p.children[i], p.children[BatchEnd(p.children, i)];
            var o := Summarize(c, p.children, Some(p.id), c.start, last.finish, reqs);
            o.Some? ==> LeavesListed(o.value, Flatten(root, None), reqs)
  {
    hide WellFormedRun, Within, Flatten, ListResults, CountedStats, Tally, BatchEnd, Executions;
    var c, last := p.children[i], p.children[BatchEnd(p.children, i)];
    LeafMatchesListing(root, p, i, reqs);
    CountedIsTally(Executions(RowsOf(p.children, Some(p.id)), c.name, c.start, last.finish, reqs));
  }

  lemma {:induction false} PackageListed(root: Node, p: Node, i: nat, reqs: set<string>)
    requires i < |p.children| && !p.children[i].isTest
    requires var c := p.children[i];
             forall k | k in SummarizeFrom(c.children, 0, c.id, reqs) :: LeavesListed(k, Flatten(root, None), reqs)
    ensures var c, last := p.children[i], p.children[BatchEnd(p.children, i)];
            var o := Summarize(c, p.children, Some(p.id), c.start, last.finish, reqs);
            o.Some? ==> LeavesListed(o.value, Flatten(root, None), reqs)
  {
    hide Flatten, ListResults, Tally, BatchEnd, SummarizeFrom, SumStats;
  }

  // ---------- the statistics of a run ----------

  /** Only the run's main package has no parent. */
  lemma {:induction false} OnlyRootIsMain(root: Node)
    ensures WithParent(Flatten(root, None), None) == RowsOf([root], None)
  {
    var a, b := [RowOf(root, None)], FlattenAll(root.children, Some(root.id));
    WithParentConcat(a, b, None);
    NoMainBelow(root.children, root.id);
    assert a[1..] == [] && [root][1..] == [];
  }

  lemma {:induction false} NoMainBelow(ns: seq<Node>, parent: nat)
    ensures WithParent(FlattenAll(ns, Some(parent)), None) == []
    decreases ns
  {
    if ns != [] {
      var a, b := [RowOf(ns[0], Some(parent))], FlattenAll(ns[0].children, Some(ns[0].id));
      WithParentConcat(a, b, None);
      WithParentConcat(a + b, FlattenAll(ns[1..], Some(parent)), None);
      NoMainBelow(ns[0].children, ns[0].id);
      NoMainBelow(ns[1..], parent);
      assert a[1..] == [];
    }
  }
}
