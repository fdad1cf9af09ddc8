/** Run statistics: folding a result table into leaves of consecutive executions, and the agreement of
    those leaves with the listing of results by execution number. */
module RunStats {
  import opened Wrappers
  import opened ResultTree

  // ---------- counters ----------

  datatype Stats = Stats(passed: nat, failed: nat, passedUnexpected: nat, failedUnexpected: nat,
                         skipped: nat, skippedUnexpected: nat, abnormal: nat)
  {
    function Sum(): nat {
      passed + failed + passedUnexpected + failedUnexpected + skipped + skippedUnexpected + abnormal
    }
  }

  const ZERO := Stats(0, 0, 0, 0, 0, 0, 0)

  function Add(a: Stats, b: Stats): Stats {
    Stats(a.passed + b.passed, a.failed + b.failed, a.passedUnexpected + b.passedUnexpected,
          a.failedUnexpected + b.failedUnexpected, a.skipped + b.skipped,
          a.skippedUnexpected + b.skippedUnexpected, a.abnormal + b.abnormal)
  }

  /** A result counts in one counter, by its status and whether it was unexpected. */
  function Contribution(r: Row): Stats {
    match r.status
    case Passed => if r.unexpected then ZERO.(passedUnexpected := 1) else ZERO.(passed := 1)
    case Failed => if r.unexpected then ZERO.(failedUnexpected := 1) else ZERO.(failed := 1)
    case Skipped => if r.unexpected then ZERO.(skippedUnexpected := 1) else ZERO.(skipped := 1)
    case Abnormal => ZERO.(abnormal := 1)
    case NoStatus => ZERO
  }

  function Tally(rows: seq<Row>): Stats {
    if rows == [] then ZERO else Add(Contribution(rows[0]), Tally(rows[1..]))
  }

  lemma {:induction false} AddLaws(a: Stats, b: Stats, c: Stats)
    ensures Add(ZERO, a) == a == Add(a, ZERO)
    ensures Add(a, b).Sum() == a.Sum() + b.Sum()
    ensures Add(Add(a, b), c) == Add(a, Add(b, c))
  {}

  lemma {:induction false} TallyConcat(a: seq<Row>, b: seq<Row>)
    ensures Tally(a + b) == Add(Tally(a), Tally(b))
  {
    hide Add, Contribution;
    AddLaws(Tally(b), ZERO, ZERO);
    if a == [] {
      assert a + b == b;
    } else {
      assert (a + b)[1..] == a[1..] + b;
      TallyConcat(a[1..], b);
      AddLaws(Contribution(a[0]), Tally(a[1..]), Tally(b));
    }
  }

  function CountStatus(rows: seq<Row>, status: Status): nat {
    if rows == [] then 0 else (if rows[0].status == status then 1 else 0) + CountStatus(rows[1..], status)
  }

  function Unexpected(rows: seq<Row>): seq<Row> {
    if rows == [] then []
    else if rows[0].unexpected then [rows[0]] + Unexpected(rows[1..])
    else Unexpected(rows[1..])
  }

  /** How the first row changes the two counts of a status. */
  lemma {:induction false} CountsStep(rows: seq<Row>, status: Status)
    requires rows != []
    ensures CountStatus(rows, status) == CountStatus(rows[1..], status) + if rows[0].status == status then 1 else 0
    ensures CountStatus(Unexpected(rows), status) ==
            CountStatus(Unexpected(rows[1..]), status) + if rows[0].unexpected && rows[0].status == status then 1 else 0
  {
    var u := Unexpected(rows[1..]);
    assert ([rows[0]] + u)[1..] == u;
  }

  lemma {:induction false} CountUnexpected(rows: seq<Row>, status: Status)
    ensures CountStatus(Unexpected(rows), status) <= CountStatus(rows, status)
  {
    if rows != [] {
      CountUnexpected(rows[1..], status);
      CountsStep(rows, status);
    }
  }

  /** The counters as computed from four status counts over all and over unexpected results. */
  function CountedStats(rows: seq<Row>): Stats {
    var u := Unexpected(rows);
    CountUnexpected(rows, Passed);
    CountUnexpected(rows, Failed);
    CountUnexpected(rows, Skipped);
    Stats(CountStatus(rows, Passed) - CountStatus(u, Passed), CountStatus(rows, Failed) - CountStatus(u, Failed),
          CountStatus(u, Passed), CountStatus(u, Failed),
          CountStatus(rows, Skipped) - CountStatus(u, Skipped), CountStatus(u, Skipped),
          CountStatus(rows, Abnormal))
  }

  lemma {:induction false} CountedStep(rows: seq<Row>)
    requires rows != []
    ensures CountedStats(rows) == Add(Contribution(rows[0]), CountedStats(rows[1..]))
  {
    hide CountStatus, Unexpected;
    CountsStep(rows, Passed);
    CountsStep(rows, Failed);
    CountsStep(rows, Skipped);
    CountsStep(rows, Abnormal);
    var r := rows[0];
    if r.unexpected {
      assert CountedStats(rows) == Add(Contribution(r), CountedStats(rows[1..]));
    } else {
      assert CountedStats(rows) == Add(Contribution(r), CountedStats(rows[1..]));
    }
  }

  /** Subtracting unexpected counts puts every result into exactly one counter. */
  lemma {:induction false} CountedIsTally(rows: seq<Row>)
    ensures CountedStats(rows) == Tally(rows)
  {
    if rows != [] {
      hide CountedStats, Add, Contribution;
      CountedStep(rows);
      CountedIsTally(rows[1..]);
    }
  }

  /** How many of the rows have this status and are, or are not, unexpected. */
  function Number(rows: seq<Row>, status: Status, unexpected: bool): nat {
    if rows == [] then 0
    else
      (if rows[0].status == status && rows[0].unexpected == unexpected then 1 else 0)
      + Number(rows[1..], status, unexpected)
  }

  /** The counter for a status; abnormal results are counted together. */
  function Counter(s: Stats, status: Status, unexpected: bool): nat
    requires status != NoStatus && status != Abnormal
  {
    match status
    case Passed => if unexpected then s.passedUnexpected else s.passed
    case Failed => if unexpected then s.failedUnexpected else s.failed
    case Skipped => if unexpected then s.skippedUnexpected else s.skipped
  }

  /** What each counter counts. */
  lemma {:induction false} CountersMean(rows: seq<Row>, status: Status, unexpected: bool)
    ensures status != NoStatus && status != Abnormal ==>
              Counter(Tally(rows), status, unexpected) == Number(rows, status, unexpected)
    ensures Tally(rows).abnormal == Number(rows, Abnormal, false) + Number(rows, Abnormal, true)
  {
    if rows != [] {
      CountersMean(rows[1..], status, unexpected);
      CounterAdds(rows[0], Tally(rows[1..]), status, unexpected);
    }
  }

  lemma {:induction false} CounterAdds(r: Row, s: Stats, status: Status, unexpected: bool)
    ensures status != NoStatus && status != Abnormal ==>
              Counter(Add(Contribution(r), s), status, unexpected)
              == Counter(s, status, unexpected) + if r.status == status && r.unexpected == unexpected then 1 else 0
    ensures Add(Contribution(r), s).abnormal == s.abnormal + if r.status == Abnormal then 1 else 0
  {}

  // ---------- the fold ----------

  /** A node of the summary. */
  datatype Info = Info(resultId: nat, seqno: int, parent: Option<nat>, name: string, isTest: bool,
                       start: int, finish: Option<int>, children: seq<Info>, stats: Stats)

  predicate InPeriod(r: Row, name: string, start: int, finish: Option<int>) {
    && r.name == name
    && start <= r.start
    && (finish.Some? ==> r.finish.Some? && r.finish.value <= finish.value)
  }

  /** The executions a leaf counts: by name, parent, period and required metas. */
  function Executions(rows: seq<Row>, name: string, start: int, finish: Option<int>, reqs: set<string>): seq<Row> {
    if rows == [] then []
    else if InPeriod(rows[0], name, start, finish) && reqs <= rows[0].reqs then
      [rows[0]] + Executions(rows[1..], name, start, finish, reqs)
    else Executions(rows[1..], name, start, finish, reqs)
  }

  /** The last of the consecutive executions of one test that starts at `i`. */
  function BatchEnd(ns: seq<Node>, i: nat): (j: nat)
    requires i < |ns|
    ensures i <= j < |ns|
    decreases |ns| - i
  {
    if i + 1 < |ns| && ns[i + 1].name == ns[i].name && ns[i + 1].isTest then BatchEnd(ns, i + 1) else i
  }

  function SumStats(infos: seq<Info>): Stats {
    if infos == [] then ZERO else Add(SumStats(infos[..|infos| - 1]), infos[|infos| - 1].stats)
  }

  function Summarize(n: Node, siblings: seq<Node>, parent: Option<nat>, start: int, finish: Option<int>,
                     reqs: set<string>): Option<Info>
    decreases n, 0
  {
    if n.isTest then
      var rows := Executions(RowsOf(siblings, parent), n.name, start, finish, reqs);
      if rows == [] then None
      else Some(Info(n.id, n.seqno, parent, n.name, true, start, finish, [], CountedStats(rows)))
    else
      var infos := SummarizeFrom(n.children, 0, n.id, reqs);
      if SumStats(infos).Sum() == 0 then None
      else Some(Info(n.id, n.seqno, parent, n.name, false, start, finish, infos, SumStats(infos)))
  }

  function SummarizeFrom(ns: seq<Node>, i: nat, parent: nat, reqs: set<string>): seq<Info>
    decreases ns, if i < |ns| then |ns| - i else 0
  {
    if i >= |ns| then []
    else
      var j := BatchEnd(ns, i);
      Kept(Summarize(ns[i], ns, Some(parent), ns[i].start, ns[j].finish, reqs))
      + SummarizeFrom(ns, j + 1, parent, reqs)
  }

  function Kept(o: Option<Info>): seq<Info> {
    match o
    case None => []
    case Some(info) => [info]
  }

  lemma {:induction false} SumStatsConcat(a: seq<Info>, b: seq<Info>)
    ensures SumStats(a + b) == Add(SumStats(a), SumStats(b))
    decreases |b|
  {
    hide Add;
    AddLaws(SumStats(a), ZERO, ZERO);
    if b == [] {
      assert a + b == a;
    } else {
      var n := |b| - 1;
      assert (a + b)[..|a + b| - 1] == a + b[..n];
      SumStatsConcat(a, b[..n]);
      AddLaws(SumStats(a), SumStats(b[..n]), b[n].stats);
    }
  }

  // ---------- the recursive procedure ----------

  /** A node of the summary under construction: what is found below it is appended to it and added to its
      counters.  `value` is the summary it stands for. */
  class InfoNode {
    const resultId: nat
    const seqno: int
    const parent: Option<nat>
    const name: string
    const isTest: bool
    const start: int
    const finish: Option<int>
    var children: seq<InfoNode>
    var stats: Stats
    ghost var value: Info
    ghost var repr: set<InfoNode>

    /** Children are finished objects of their own, which the node is no part of. */
    ghost predicate Valid()
      reads this, repr
      decreases repr
    {
      && this in repr
      && value == Info(resultId, seqno, parent, name, isTest, start, finish, value.children, stats)
      && |value.children| == |children|
      && forall i :: 0 <= i < |children| ==>
           && children[i] in repr && children[i].repr <= repr && this !in children[i].repr
           && children[i].Valid() && children[i].value == value.children[i]
    }

    constructor (r: Row, start: int, finish: Option<int>)
      ensures Valid() && repr == {this} && stats == ZERO
      ensures value == Info(r.id, r.seqno, r.parent, r.name, r.isTest, start, finish, [], ZERO)
    {
      resultId, seqno, parent, name, isTest := r.id, r.seqno, r.parent, r.name, r.isTest;
      this.start, this.finish := start, finish;
      children, stats := [], ZERO;
      value := Info(r.id, r.seqno, r.parent, r.name, r.isTest, start, finish, [], ZERO);
      repr := {this};
    }

    /** Take a finished child in. */
    method Append(child: InfoNode)
      requires Valid() && child.Valid() && this !in child.repr
      modifies this
      ensures Valid() && repr == old(repr) + child.repr
      ensures value == Collect(old(value), Some(child.value)) && children == old(children) + [child]
    {
      children := children + [child];
      stats := Add(stats, child.stats);
      value := Collect(value, Some(child.value));
      repr := repr + child.repr;
    }
  }

  /** A node with one more child's summary, if there is one to add. */
  function Collect(info: Info, o: Option<Info>): Info {
    match o
    case None => info
    case Some(child) => info.(children := info.children + [child], stats := Add(info.stats, child.stats))
  }

  /** Summarize one result of the table, and add the summary to `info` if one is given.  The ghost arguments
      give the tree that the table stores. */
  method GenerateResult(rows: seq<Row>, r: Row, start: int, finish: Option<int>, info: InfoNode?, reqs: set<string>,
                        ghost root: Node, ghost n: Node, ghost siblings: seq<Node>)
    returns (result: InfoNode?)
    requires DistinctIds(rows) && rows == Flatten(root, None) && Within(n, root) && r == RowOf(n, r.parent)
    requires WithParent(rows, r.parent) == RowsOf(siblings, r.parent)
    requires info != null ==> info.Valid()
    modifies info
    ensures var o := Summarize(n, siblings, r.parent, start, finish, reqs);
            if info != null then
              result == info && info.Valid() && fresh(info.repr - old(info.repr))
                  && info.value == Collect(old(info.value), o)
            else if o.None? then result == null
            else result != null && result.Valid() && fresh(result.repr) && result.value == o.value
    decreases n, 1
  {
    hide Within, WithParent, Flatten, Executions, CountedStats, SummarizeFrom, Add, RowsOf, SumStats, DistinctIds;
    var testIterResInfo: InfoNode? := new InfoNode(r, start, finish);
    if r.isTest {
      var executions := Executions(WithParent(rows, r.parent), r.name, start, finish, reqs);
      if executions == [] {
        testIterResInfo := null;
      } else {
        testIterResInfo.stats := CountedStats(executions);
        testIterResInfo.value := testIterResInfo.value.(stats := CountedStats(executions));
      }
    } else {
      ChildrenQuery(root, None, n);
      GenerateChildren(rows, WithParent(rows, Some(r.id)), testIterResInfo, reqs, root, n);
      if testIterResInfo.stats.Sum() == 0 {
        testIterResInfo := null;
      }
    }
    if info == null {
      return testIterResInfo;
    }
    if testIterResInfo != null {
      info.Append(testIterResInfo);
    }
    result := info;
  }

  /** The loop over a package's children.  A child is emitted only when the next one is seen not to continue
      its executions. */
  method GenerateChildren(rows: seq<Row>, children: seq<Row>, info: InfoNode, reqs: set<string>,
                          ghost root: Node, ghost n: Node)
    requires DistinctIds(rows) && rows == Flatten(root, None) && Within(n, root)
    requires children == WithParent(rows, Some(n.id)) == RowsOf(n.children, Some(n.id))
    requires info.Valid() && info.value.children == [] && info.value.stats == ZERO
    modifies info
    ensures info.Valid() && fresh(info.repr - old(info.repr))
    ensures var infos := SummarizeFrom(n.children, 0, n.id, reqs);
            info.value == old(info.value).(children := infos, stats := SumStats(infos))
    decreases n, 0, 1
  {
    hide Within, WithParent, Flatten, DistinctIds, RowsOf, Summarize, SummarizeFrom, BatchEnd, Collect, SameBatch,
         Emitted, InfoNode.Valid, SumStats;
    StartEmitting(info.value);
    ghost var before, all := info.value, SummarizeFrom(n.children, 0, n.id, reqs);
    var prev, prevFinish := 0, None; // the executions not yet emitted
    for k := 0 to |children|
      invariant info.Valid() && fresh(info.repr - old(info.repr))
      invariant if k == 0 then prev == 0
                else prev < k && SameBatch(n.children, prev, k - 1) && prevFinish == children[k - 1].finish
      invariant Emitted(info.value, before) && info.value.children + SummarizeFrom(n.children, prev, n.id, reqs) == all
    {
      if k > 0 {
        BatchStep(n.children, prev, k);
        if children[prev].name == children[k].name && children[k].isTest {
          prevFinish := children[k].finish;
          continue;
        }
        EmitBatch(rows, children, prev, k, prevFinish, info, reqs, root, n, before);
      }
      NewBatch(n.children, k);
      prev, prevFinish := k, children[k].finish;
    }
    if children != [] {
      LastBatch(n.children, prev);
      EmitBatch(rows, children, prev, |children|, prevFinish, info, reqs, root, n, before);
    }
    NothingAfterLast(n.children, n.id, reqs);
    AllEmitted(info.value, before, all);
  }

  /** Add the executions from `prev` up to `k`, which are one batch, to their package's summary. */
  method EmitBatch(rows: seq<Row>, children: seq<Row>, prev: nat, k: nat, prevFinish: Option<int>, info: InfoNode,
                   reqs: set<string>, ghost root: Node, ghost n: Node, ghost before: Info)
    requires DistinctIds(rows) && rows == Flatten(root, None) && Within(n, root)
    requires children == WithParent(rows, Some(n.id)) == RowsOf(n.children, Some(n.id))
    requires prev < k <= |children| && BatchEnd(n.children, prev) == k - 1 && prevFinish == children[k - 1].finish
    requires info.Valid() && Emitted(info.value, before)
    modifies info
    ensures info.Valid() && fresh(info.repr - old(info.repr)) && Emitted(info.value, before)
    ensures info.value.children + SummarizeFrom(n.children, k, n.id, reqs)
         == old(info.value.children) + SummarizeFrom(n.children, prev, n.id, reqs)
    decreases n, 0, 0
  {
    hide Within, WithParent, Flatten, DistinctIds, RowsOf, Summarize, SummarizeFrom, BatchEnd, Collect, Emitted;
    WithinChild(n, root, prev);
    EmitStep(info.value, before, n.children, prev, k, n.id, reqs);
    var _ := GenerateResult(rows, children[prev], children[prev].start, prevFinish, info, reqs,
                            root, n.children[prev], n.children);
  }

  /** `info` is `before` with some children emitted. */
  predicate Emitted(info: Info, before: Info) {
    info == before.(children := info.children, stats := SumStats(info.children))
  }

  lemma {:induction false} StartEmitting(info: Info)
    requires info.children == [] && info.stats == ZERO
    ensures Emitted(info, info)
  {}

  lemma {:induction false} AllEmitted(info: Info, before: Info, all: seq<Info>)
    requires Emitted(info, before) && info.children + [] == all
    ensures info == before.(children := all, stats := SumStats(all))
  {
    assert info.children + [] == info.children;
  }

  lemma {:induction false} NewBatch(ns: seq<Node>, k: nat)
    requires k < |ns|
    ensures SameBatch(ns, k, k)
  {}

  lemma {:induction false} NothingAfterLast(ns: seq<Node>, parent: nat, reqs: set<string>)
    ensures SummarizeFrom(ns, |ns|, parent, reqs) == []
  {}

  lemma {:induction false} LastBatch(ns: seq<Node>, i: nat)
    requires ns != [] && SameBatch(ns, i, |ns| - 1)
    ensures BatchEnd(ns, i) == |ns| - 1
  {}

  /** `i` and `k` belong to one batch. */
  predicate SameBatch(ns: seq<Node>, i: nat, k: nat) {
    i <= k < |ns| && ns[i].name == ns[k].name && BatchEnd(ns, i) == BatchEnd(ns, k)
  }

  lemma {:induction false} BatchStep(ns: seq<Node>, i: nat, k: nat)
    requires 0 < k < |ns| && SameBatch(ns, i, k - 1)
    ensures if ns[i].name == ns[k].name && ns[k].isTest then SameBatch(ns, i, k) else BatchEnd(ns, i) == k - 1
  {}

  lemma {:induction false} EmitStep(info: Info, before: Info, ns: seq<Node>, i: nat, k: nat, parent: nat,
                                    reqs: set<string>)
    requires i < k <= |ns| && BatchEnd(ns, i) == k - 1 && Emitted(info, before)
    ensures var o := Summarize(ns[i], ns, Some(parent), ns[i].start, ns[k - 1].finish, reqs);
            && Collect(info, o).children + SummarizeFrom(ns, k, parent, reqs)
            == info.children + SummarizeFrom(ns, i, parent, reqs)
            && Emitted(Collect(info, o), before)
  {
    hide Summarize, SummarizeFrom, BatchEnd;
    var o := Summarize(ns[i], ns, Some(parent), ns[i].start, ns[k - 1].finish, reqs);
    FirstBatch(ns, i, parent, reqs);
    CollectKept(info, before, o);
  }

  lemma {:induction false} FirstBatch(ns: seq<Node>, i: nat, parent: nat, reqs: set<string>)
    requires i < |ns|
    ensures var j := BatchEnd(ns, i);
            SummarizeFrom(ns, i, parent, reqs)
            == Kept(Summarize(ns[i], ns, Some(parent), ns[i].start, ns[j].finish, reqs))
                + SummarizeFrom(ns, j + 1, parent, reqs)
  {
    hide Summarize, BatchEnd, Kept;
  }

  lemma {:induction false} CollectKept(info: Info, before: Info, o: Option<Info>)
    requires Emitted(info, before)
    ensures Collect(info, o).children == info.children + Kept(o) && Emitted(Collect(info, o), before)
  {
    hide Add;
    if o.Some? {
      assert (info.children + [o.value])[..|info.children|] == info.children;
    } else {
      assert Kept(o) == [];
    }
  }

  lemma {:induction false} WithinChild(n: Node, root: Node, i: nat)
    requires Within(n, root) && i < |n.children|
    ensures Within(n.children[i], root)
    decreases root
  {
    if n == root {
      assert Within(n.children[i], n.children[i]);
    } else {
      var c :| c in root.children && Within(n, c);
      WithinChild(n, c, i);
    }
  }
}
