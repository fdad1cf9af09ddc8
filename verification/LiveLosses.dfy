/** Streams that lost events of whole parts of an execution: what they should leave.  What was lost is to be
    filled in as LOST when the next event of the same package shows it: a start by its node number, an end by
    its node. */
module LiveLosses {
  import opened Wrappers
  import opened Plans
  import opened PlanWalk
  import opened LiveSession
  import opened LiveProtocol
  import opened LiveExecution

  /** What arrived of an executed node: its events and, as far as they arrived, those of what is inside it; only
      its end; or nothing of it and of what is inside it. */
  datatype Hearing = Both | EndOnly | Neither

  function Heard(x: Execution, h: nat -> Hearing, id: nat): Hearing {
    if x.ran(id) then h(id) else Neither
  }

  /** The events that arrive of executing a plan inside node `parent`. */
  function HeardStream(x: Execution, h: nat -> Hearing, p: Plan, id: nat, parent: int): seq<LiveEvent> {
    match Heard(x, h, id)
    case Neither => []
    case EndOnly => [Ended(x, id)]
    case Both =>
      [Started(x, p, id, parent)] + HeardStreamAll(x, h, p.children, id + 1, NodeOf(x, id)) + [Ended(x, id)]
  }

  function HeardStreamAll(x: Execution, h: nat -> Hearing, ps: seq<Plan>, id: nat, parent: int): seq<LiveEvent> {
    if ps == [] then []
    else HeardStream(x, h, ps[0], id, parent) + HeardStreamAll(x, h, ps[1..], id + Size(ps[0]), parent)
  }

  // ---------- LOST results of whole subtrees ----------

  /** The LOST results of a plan node and of everything inside it: row `n` and those after it, a microsecond per
      plan event. */
  function LostTree(p: Plan, n: nat, ts: int, parent: Option<nat>): seq<TestResult> {
    [TestResult(n + 1, p.name, p.nodeType, parent, LOST_TIN, ts + 1, Some(ts + 2 * Size(p)), true)]
    + LostTrees(p.children, n + 1, ts + 1, Some(n))
  }

  function LostTrees(ps: seq<Plan>, n: nat, ts: int, parent: Option<nat>): seq<TestResult> {
    if ps == [] then []
    else
      LostTree(ps[0], n, ts, parent) + LostTrees(ps[1..], n + Size(ps[0]), ts + 2 * Size(ps[0]), parent)
  }

  lemma {:induction false} LostTreeLength(p: Plan, n: nat, ts: int, parent: Option<nat>)
    ensures |LostTree(p, n, ts, parent)| == Size(p)
    decreases p
  {
    LostTreesLength(p.children, n + 1, ts + 1, Some(n));
  }

  lemma {:induction false} LostTreesLength(ps: seq<Plan>, n: nat, ts: int, parent: Option<nat>)
    ensures |LostTrees(ps, n, ts, parent)| == SizeAll(ps)
    decreases ps
  {
    if ps != [] {
      LostTreeLength(ps[0], n, ts, parent);
      LostTreesLength(ps[1..], n + Size(ps[0]), ts + 2 * Size(ps[0]), parent);
    }
  }

  lemma {:induction false} FillAllConcat(log: Log, a: seq<Event>, b: seq<Event>)
    ensures FillAll(log, a + b) == FillAll(FillAll(log, a), b)
    decreases |a|
  {
    hide FillEvent;
    if a == [] {
      assert a + b == b;
    } else {
      assert (a + b)[1..] == a[1..] + b;
      FillAllConcat(FillEvent(log, a[0]), a[1..], b);
    }
  }

  /** `r` is `log` with these finished results added, `k` microseconds later. */
  predicate Added(log: Log, r: Log, rows: seq<TestResult>, k: nat) {
    r == Log(log.results + rows, log.stack, log.seqno + |rows|, log.lastTs + k)
  }

  /** Filling the events of a whole subtree adds its LOST results. */
  lemma {:induction false} FillTree(log: Log, p: Plan, id: nat)
    requires log.seqno == |log.results| + 1
    ensures Added(log, FillAll(log, Tour(p, id)), LostTree(p, |log.results|, log.lastTs, Parent(log.stack)),
            2 * Size(p))
    decreases p
  {
    hide FillAll, FillEvent, LostTrees, TourAll, SizeAll;
    var enter, inner, exit := Event(id, p, true), TourAll(p.children, id + 1), Event(id, p, false);
    var log1 := FillEvent(log, enter);
    var log2 := FillAll(log1, inner);
    Entered(log, p, id);
    FillTrees(log1, p.children, id + 1);
    FillOne(log, enter);
    FillOne(log2, exit);
    FillAllConcat(log, [enter], inner);
    FillAllConcat(log, [enter] + inner, [exit]);
    LostTreesLength(p.children, |log.results| + 1, log.lastTs + 1, Some(|log.results|));
    ClosedAround(log, p, id, LostTrees(p.children, |log.results| + 1, log.lastTs + 1, Some(|log.results|)));
  }

  lemma {:induction false} Entered(log: Log, p: Plan, id: nat)
    requires log.seqno == |log.results| + 1
    ensures var r := FillEvent(log, Event(id, p, true));
            && |r.results| == |log.results| + 1 && r.seqno == |r.results| + 1 && r.lastTs == log.lastTs + 1
            && Parent(r.stack) == Some(|log.results|)
  {}

  lemma {:induction false} FillNothing(log: Log)
    ensures FillAll(log, []) == log
  {}

  lemma {:induction false} FillOne(log: Log, e: Event)
    ensures FillAll(log, [e]) == FillEvent(log, e)
  {
    hide FillEvent;
    assert [e][1..] == [];
  }

  /** Entering a node, adding what is inside it, and leaving it. */
  lemma {:induction false} ClosedAround(log: Log, p: Plan, id: nat, rows: seq<TestResult>)
    requires log.seqno == |log.results| + 1 && |rows| == SizeAll(p.children)
    ensures var log1 := FillEvent(log, Event(id, p, true));
            var log2 := Log(log1.results + rows, log1.stack, log1.seqno + |rows|, log1.lastTs
                + 2 * SizeAll(p.children));
            var row := TestResult(|log.results| + 1, p.name, p.nodeType, Parent(log.stack), LOST_TIN, log.lastTs + 1,
                                  Some(log.lastTs + 2 * Size(p)), true);
            Added(log, FillEvent(log2, Event(id, p, false)), [row] + rows, 2 * Size(p))
  {
    var n := |log.results|;
    var log1 := FillEvent(log, Event(id, p, true));
    var log2 := Log(log1.results + rows, log1.stack, log1.seqno + |rows|, log1.lastTs + 2 * SizeAll(p.children));
    var row := TestResult(n + 1, p.name, p.nodeType, Parent(log.stack), LOST_TIN, log.lastTs + 1,
                          Some(log.lastTs + 2 * Size(p)), true);
    var r := FillEvent(log2, Event(id, p, false));
    assert r.results == log.results + ([row] + rows);
    assert r.stack == log.stack;
  }

  lemma {:induction false} FillTrees(log: Log, ps: seq<Plan>, id: nat)
    requires log.seqno == |log.results| + 1
    ensures Added(log, FillAll(log, TourAll(ps, id)), LostTrees(ps, |log.results|, log.lastTs, Parent(log.stack)),
                  2 * SizeAll(ps))
    decreases ps
  {
    hide FillAll, LostTree, Tour, Size, Parent;
    if ps == [] {
      FillNothing(log);
      assert log.results + [] == log.results;
    } else {
      var log1 := FillAll(log, Tour(ps[0], id));
      FillTree(log, ps[0], id);
      LostTreeLength(ps[0], |log.results|, log.lastTs, Parent(log.stack));
      FillTrees(log1, ps[1..], id + Size(ps[0]));
      FillAllConcat(log, Tour(ps[0], id), TourAll(ps[1..], id + Size(ps[0])));
      Assoc(log.results, LostTree(ps[0], |log.results|, log.lastTs, Parent(log.stack)),
            LostTrees(ps[1..], |log1.results|, log1.lastTs, Parent(log.stack)));
    }
  }

  // ---------- what is recorded ----------

  /** What has been recorded: the rows added, the largest node number known, the clock. */
  datatype Account = Account(rows: seq<TestResult>, maxNode: nat, lastTs: int)

  function ChildId(ps: seq<Plan>, base: nat, j: nat): nat
    requires j <= |ps|
  {
    base + SizeAll(ps[..j])
  }

  function HeardRow(x: Execution, p: Plan, id: nat, n: nat, row: nat): TestResult {
    TestResult(n + 1, p.name, p.nodeType, Some(row), x.tin(id), x.startedAt(id), Some(x.endedAt(id)), false)
  }

  /** What the events of the children from `j` on record inside row `row`, when nothing has been recorded of those
      from `i` to `j`, `n` rows are there, and `maxNode` is the largest node number known.
      A heard start first fills in what is pending if some node was started and not heard since the last known
      one.  A heard end without its start fills in what is pending and its node.  Otherwise nothing is filled
      in. */
  function Recorded(x: Execution, h: nat -> Hearing, ps: seq<Plan>, base: nat, i: nat, j: nat, row: nat, n: nat,
                    maxNode: nat, ts: int): Account
    requires i <= j <= |ps|
    decreases ps, |ps| - j
  {
    if j == |ps| then Account([], maxNode, ts)
    else
      var p, id := ps[j], ChildId(ps, base, j);
      match Heard(x, h, id)
      case Neither => Recorded(x, h, ps, base, i, j + 1, row, n, maxNode, ts)
      case EndOnly =>
        var lost := LostTrees(ps[i..j + 1], n, ts, Some(row));
        var rest := Recorded(x, h, ps, base, j + 1, j + 1, row, n + |lost|, Larger(maxNode, NodeOf(x, id)),
                             ts + 2 * SizeAll(ps[i..j + 1]));
        rest.(rows := lost + rest.rows)
      case Both =>
        var lost := if RanBefore(x, id) > maxNode then LostTrees(ps[i..j], n, ts, Some(row)) else [];
        var m := n + |lost|;
        var inner := Recorded(x, h, p.children, id + 1, 0, 0, m, m + 1, NodeOf(x, id), x.startedAt(id));
        var rest := Recorded(x, h, ps, base, j + 1, j + 1, row, m + 1 + |inner.rows|, inner.maxNode, x.endedAt(id));
        rest.(rows := lost + [HeardRow(x, p, id, m, row)] + inner.rows + rest.rows)
  }

  function Larger(a: nat, b: nat): nat {
    if a > b then a else b
  }

  function RootRow(x: Execution, root: Plan): TestResult {
    TestResult(1, root.name, root.nodeType, None, x.tin(0), x.startedAt(0), Some(x.endedAt(0)), false)
  }

  /** What a run records below its root. */
  function RunRecorded(x: Execution, h: nat -> Hearing, root: Plan): Account {
    Recorded(x, h, root.children, 1, 0, 0, 0, 1, 1, x.startedAt(0))
  }

  // ---------- nothing lost ----------

  function AllHeard(): nat -> Hearing {
    (k: nat) => Both
  }

  lemma {:induction false} NoLossStream(x: Execution, p: Plan, id: nat, parent: int)
    ensures HeardStream(x, AllHeard(), p, id, parent) == Stream(x, p, id, parent)
    decreases p
  {
    NoLossStreamAll(x, p.children, id + 1, NodeOf(x, id));
  }

  lemma {:induction false} NoLossStreamAll(x: Execution, ps: seq<Plan>, id: nat, parent: int)
    ensures HeardStreamAll(x, AllHeard(), ps, id, parent) == StreamAll(x, ps, id, parent)
    decreases ps
  {
    if ps != [] {
      NoLossStream(x, ps[0], id, parent);
      NoLossStreamAll(x, ps[1..], id + Size(ps[0]), parent);
    }
  }

  /** The account from child `j` on is the expected rows, and every node number is known. */
  predicate AsExpected(x: Execution, ps: seq<Plan>, base: nat, j: nat, row: nat, n: nat, a: Account)
    requires j <= |ps|
  {
    && a.rows == RowsAll(x, ps[j..], ChildId(ps, base, j), Some(row))
    && a.maxNode == RanBefore(x, ChildId(ps, base, |ps|)) == n + |a.rows|
  }

  /** Without losses every node number is known, and nothing is ever filled in. */
  lemma {:induction false} NoLossRecorded(x: Execution, ps: seq<Plan>, base: nat, i: nat, j: nat, row: nat, n: nat,
                                          ts: int)
    requires i <= j <= |ps| && CoherentAll(x, ps[j..], ChildId(ps, base, j)) && n == RanBefore(x, ChildId(ps, base, j))
    ensures AsExpected(x, ps, base, j, row, n, Recorded(x, AllHeard(), ps, base, i, j, row, n, n, ts))
    decreases ps, |ps| - j
  {
    RestOfChildren(x, ps, base, j, row);
    hide Recorded, RowsAll, Rows, RowOf, ChildId, RanBefore, Coherent, CoherentAll, Size;
    if j == |ps| {
      NothingRecorded(x, ps, base, i, row, n, ts);
    } else if x.ran(ChildId(ps, base, j)) {
      NoLossChild(x, ps, base, i, j, row, n, ts);
    } else {
      NoLossRecorded(x, ps, base, i, j + 1, row, n, ts);
      RecordedSilent(x, ps, base, i, j, row, n, ts);
    }
  }

  lemma {:induction false} NoLossChild(x: Execution, ps: seq<Plan>, base: nat, i: nat, j: nat, row: nat, n: nat,
                                       ts: int)
    requires i <= j < |ps| && CoherentAll(x, ps[j..], ChildId(ps, base, j)) && n == RanBefore(x, ChildId(ps, base, j))
    requires x.ran(ChildId(ps, base, j))
    ensures AsExpected(x, ps, base, j, row, n, Recorded(x, AllHeard(), ps, base, i, j, row, n, n, ts))
    decreases ps, |ps| - j, 0
  {
    hide Recorded, RowsAll, Rows, RowOf, ChildId, RanBefore, Coherent, CoherentAll, Size, AsExpected, AllHeard;
    var p, id := ps[j], ChildId(ps, base, j);
    ChildCoherent(x, ps, base, j);
    RanNext(x, id);
    InnerIds(p, id);
    NoLossRecorded(x, p.children, id + 1, 0, 0, n, n + 1, x.startedAt(id));
    var inner := Recorded(x, AllHeard(), p.children, id + 1, 0, 0, n, n + 1, n + 1, x.startedAt(id));
    InsideExpected(x, p, id, n, inner);
    NoLossRecorded(x, ps, base, j + 1, j + 1, row, inner.maxNode, x.endedAt(id));
    RecordedHeard(x, ps, base, i, j, row, n, ts);
    ChildExpected(x, ps, base, j, row, n, inner,
                  Recorded(x, AllHeard(), ps, base, j + 1, j + 1, row, inner.maxNode, inner.maxNode, x.endedAt(id)),
                  Recorded(x, AllHeard(), ps, base, i, j, row, n, n, ts));
  }

  lemma {:induction false} ChildCoherent(x: Execution, ps: seq<Plan>, base: nat, j: nat)
    requires j < |ps| && CoherentAll(x, ps[j..], ChildId(ps, base, j)) && x.ran(ChildId(ps, base, j))
    ensures CoherentAll(x, ps[j].children, ChildId(ps, base, j) + 1)
    ensures CoherentAll(x, ps[j + 1..], ChildId(ps, base, j + 1))
    ensures ChildId(ps, base, j + 1) == ChildId(ps, base, j) + Size(ps[j])
  {
    RestOfChildren(x, ps, base, j, 0);
  }

  lemma {:induction false} InsideExpected(x: Execution, p: Plan, id: nat, n: nat, inner: Account)
    requires AsExpected(x, p.children, id + 1, 0, n, n + 1, inner)
    ensures inner.rows == RowsAll(x, p.children, id + 1, Some(n))
    ensures inner.maxNode == RanBefore(x, id + Size(p)) == n + 1 + |inner.rows|
  {
    hide RowsAll, RanBefore, Size;
    InnerIds(p, id);
  }

  lemma {:induction false} ChildExpected(x: Execution, ps: seq<Plan>, base: nat, j: nat, row: nat, n: nat,
                                         inner: Account, rest: Account, a: Account)
    requires j < |ps| && CoherentAll(x, ps[j..], ChildId(ps, base, j)) && x.ran(ChildId(ps, base, j))
    requires n == RanBefore(x, ChildId(ps, base, j))
    requires inner.rows == RowsAll(x, ps[j].children, ChildId(ps, base, j) + 1, Some(n))
    requires AsExpected(x, ps, base, j + 1, row, n + 1 + |inner.rows|, rest)
    requires a.rows == [RowOf(x, ps[j], ChildId(ps, base, j), Some(row))] + inner.rows + rest.rows
    requires a.maxNode == rest.maxNode
    ensures AsExpected(x, ps, base, j, row, n, a)
  {
    RestOfChildren(x, ps, base, j, row);
    hide RowsAll, RowOf, ChildId, RanBefore, CoherentAll, Size;
  }

  lemma {:induction false} RanNext(x: Execution, id: nat)
    requires x.ran(id)
    ensures RanBefore(x, id + 1) == RanBefore(x, id) + 1
  {}

  /** The expected rows, numbers and coherence from child `j` on. */
  lemma {:induction false} RestOfChildren(x: Execution, ps: seq<Plan>, base: nat, j: nat, row: nat)
    requires j <= |ps| && CoherentAll(x, ps[j..], ChildId(ps, base, j))
    ensures var id := ChildId(ps, base, j);
            if j == |ps| then RowsAll(x, ps[j..], id, Some(row)) == []
            else
              var p, next := ps[j], ChildId(ps, base, j + 1);
              && next == id + Size(p) && CoherentAll(x, ps[j + 1..], next)
              && (x.ran(id) ==>
                    && CoherentAll(x, p.children, id + 1)
                    && RowsAll(x, ps[j..], id, Some(row))
                    == [RowOf(x, p, id, Some(row))] + RowsAll(x, p.children, id + 1, Some(RanBefore(x, id)))
                       + RowsAll(x, ps[j + 1..], next, Some(row)))
              && (!x.ran(id) ==>
                    && RanBefore(x, next) == RanBefore(x, id)
                    && RowsAll(x, ps[j..], id, Some(row)) == RowsAll(x, ps[j + 1..], next, Some(row)))
  {
    if j < |ps| {
      var p, id := ps[j], ChildId(ps, base, j);
      NextChildId(ps, base, j);
      assert ps[j..][0] == p && ps[j..][1..] == ps[j + 1..];
      if !x.ran(id) {
        RanBeforeGrows(x, id, id + Size(p));
        assert RowsAll(x, ps[j..], id, Some(row)) == [] + RowsAll(x, ps[j + 1..], id + Size(p), Some(row));
      }
    }
  }

  lemma {:induction false} NothingRecorded(x: Execution, ps: seq<Plan>, base: nat, i: nat, row: nat, n: nat, ts: int)
    requires i <= |ps|
    ensures Recorded(x, AllHeard(), ps, base, i, |ps|, row, n, n, ts) == Account([], n, ts)
  {}

  lemma {:induction false} RecordedSilent(x: Execution, ps: seq<Plan>, base: nat, i: nat, j: nat, row: nat, n: nat,
                                          ts: int)
    requires i <= j < |ps| && !x.ran(ChildId(ps, base, j))
    ensures Recorded(x, AllHeard(), ps, base, i, j, row, n, n, ts)
         == Recorded(x, AllHeard(), ps, base, i, j + 1, row, n, n, ts)
  {}

  lemma {:induction false} RecordedHeard(x: Execution, ps: seq<Plan>, base: nat, i: nat, j: nat, row: nat, n: nat,
                                         ts: int)
    requires i <= j < |ps| && x.ran(ChildId(ps, base, j)) && n == RanBefore(x, ChildId(ps, base, j))
    ensures var p, id := ps[j], ChildId(ps, base, j);
            var inner := Recorded(x, AllHeard(), p.children, id + 1, 0, 0, n, n + 1, n + 1, x.startedAt(id));
            var rest := Recorded(x, AllHeard(), ps, base, j + 1, j + 1, row, n + 1 + |inner.rows|, inner.maxNode,
                x.endedAt(id));
            var a := Recorded(x, AllHeard(), ps, base, i, j, row, n, n, ts);
            && a.rows == [RowOf(x, p, id, Some(row))] + inner.rows + rest.rows
            && a.maxNode == rest.maxNode
  {
    hide RanBefore, ChildId;
    var p, id := ps[j], ChildId(ps, base, j);
    assert [] + [HeardRow(x, p, id, n, row)] == [RowOf(x, p, id, Some(row))];
  }

  lemma {:induction false} NextChildId(ps: seq<Plan>, base: nat, j: nat)
    requires j < |ps|
    ensures ChildId(ps, base, j + 1) == ChildId(ps, base, j) + Size(ps[j])
  {
    SizeAllSnoc(ps, j);
  }

  lemma {:induction false} InnerIds(p: Plan, id: nat)
    ensures ChildId(p.children, id + 1, 0) == id + 1 && ChildId(p.children, id + 1, |p.children|) == id + Size(p)
    ensures p.children[0..] == p.children
  {
    assert p.children[..0] == [] && p.children[..|p.children|] == p.children;
  }

  lemma {:induction false} NoLossRun(x: Execution, root: Plan)
    requires x.ran(0) && Coherent(x, root, 0)
    ensures [RootRow(x, root)] + RunRecorded(x, AllHeard(), root).rows == Rows(x, root, 0, None)
  {
    InnerIds(root, 0);
    RanNext(x, 0);
    assert RanBefore(x, 0) == 0;
    hide Recorded, RowsAll, RanBefore, CoherentAll;
    NoLossRecorded(x, root.children, 1, 0, 0, 0, 1, x.startedAt(0));
    InsideExpected(x, root, 0, 0, RunRecorded(x, AllHeard(), root));
  }

  // ---------- which losses show ----------

  predicate Silent(x: Execution, h: nat -> Hearing, ps: seq<Plan>, base: nat, j: nat, k: nat)
    requires j <= k <= |ps|
  {
    forall c :: j <= c < k ==> Heard(x, h, ChildId(ps, base, c)) == Neither
  }

  lemma {:induction false} SilentSkipped(x: Execution, h: nat -> Hearing, ps: seq<Plan>, base: nat, i: nat, j: nat,
                                         k: nat,
                                         row: nat, n: nat, maxNode: nat, ts: int)
    requires i <= j <= k <= |ps| && Silent(x, h, ps, base, j, k)
    ensures Recorded(x, h, ps, base, i, j, row, n, maxNode, ts) == Recorded(x, h, ps, base, i, k, row, n, maxNode, ts)
    decreases k - j
  {
    hide ChildId;
    if j < k {
      SilentSkipped(x, h, ps, base, i, j + 1, k, row, n, maxNode, ts);
    }
  }

  /** A child that was started and of which nothing arrived has its LOST result, with everything inside it, if the
      package hears of a later child: of the first such child `k`, the account starts with the LOST results of
      all the children pending. */
  lemma {:induction false} LossShows(x: Execution, h: nat -> Hearing, ps: seq<Plan>, base: nat, i: nat, a: nat, k: nat,
                                     row: nat, n: nat, maxNode: nat, ts: int)
    requires i <= a < k < |ps| && Silent(x, h, ps, base, i, k) && Heard(x, h, ChildId(ps, base, k)) != Neither
    requires x.ran(ChildId(ps, base, a)) && maxNode <= RanBefore(x, ChildId(ps, base, a))
    ensures LostTrees(ps[i..k], n, ts, Some(row)) <= Recorded(x, h, ps, base, i, i, row, n, maxNode, ts).rows
  {
    SilentSkipped(x, h, ps, base, i, i, k, row, n, maxNode, ts);
    NextChildId(ps, base, a);
    ChildIdsGrow(ps, base, a + 1, k);
    RanBeforeGrows(x, ChildId(ps, base, a) + 1, ChildId(ps, base, k));
    if Heard(x, h, ChildId(ps, base, k)) == EndOnly {
      assert ps[i..k + 1] == ps[i..k] + [ps[k]];
      LostTreesConcat(ps[i..k], [ps[k]], n, ts, Some(row));
    }
  }

  lemma {:induction false} ChildIdsGrow(ps: seq<Plan>, base: nat, j: nat, k: nat)
    requires j <= k <= |ps|
    ensures ChildId(ps, base, j) <= ChildId(ps, base, k)
  {
    SizeAllMonotone(ps, j, k);
  }

  lemma {:induction false} LostTreesConcat(a: seq<Plan>, b: seq<Plan>, n: nat, ts: int, parent: Option<nat>)
    ensures LostTrees(a + b, n, ts, parent)
         == LostTrees(a, n, ts, parent) + LostTrees(b, n + SizeAll(a), ts + 2 * SizeAll(a), parent)
  {
    hide LostTree, LostTrees, Size, SizeAll;
    if a == [] {
      assert a + b == b;
      NoLostTrees(n, ts, parent);
      assert [] + LostTrees(b, n, ts, parent) == LostTrees(b, n, ts, parent);
    } else {
      var m, t := n + Size(a[0]), ts + 2 * Size(a[0]);
      assert (a + b)[0] == a[0] && (a + b)[1..] == a[1..] + b;
      FirstLostTree(a, n, ts, parent);
      FirstLostTree(a + b, n, ts, parent);
      LostTreesConcat(a[1..], b, m, t, parent);
      Assoc(LostTree(a[0], n, ts, parent), LostTrees(a[1..], m, t, parent),
            LostTrees(b, m + SizeAll(a[1..]), t + 2 * SizeAll(a[1..]), parent));
    }
  }

  lemma {:induction false} NoLostTrees(n: nat, ts: int, parent: Option<nat>)
    ensures LostTrees([], n, ts, parent) == [] && SizeAll([]) == 0
  {}

  lemma {:induction false} FirstLostTree(ps: seq<Plan>, n: nat, ts: int, parent: Option<nat>)
    requires ps != []
    ensures SizeAll(ps) == Size(ps[0]) + SizeAll(ps[1..])
    ensures LostTrees(ps, n, ts, parent)
         == LostTree(ps[0], n, ts, parent) + LostTrees(ps[1..], n + Size(ps[0]), ts + 2 * Size(ps[0]), parent)
  {}

  /** If the package hears of none, nothing is recorded of it: the loss does not show. */
  lemma {:induction false} LossHidden(x: Execution, h: nat -> Hearing, ps: seq<Plan>, base: nat, i: nat, row: nat,
                                      n: nat, maxNode: nat, ts: int)
    requires i <= |ps| && Silent(x, h, ps, base, i, |ps|)
    ensures Recorded(x, h, ps, base, i, i, row, n, maxNode, ts).rows == []
  {
    SilentSkipped(x, h, ps, base, i, i, |ps|, row, n, maxNode, ts);
  }

  /** The LOST results of several subtrees: that of each subtree's root is where the subtrees before it end. */
  lemma {:induction false} LostRow(ps: seq<Plan>, n: nat, ts: int, parent: Option<nat>, a: nat)
    requires a < |ps|
    ensures var rows, before := LostTrees(ps, n, ts, parent), SizeAll(ps[..a]);
            && before < |rows|
            && rows[before] == TestResult(n + before + 1, ps[a].name, ps[a].nodeType, parent, LOST_TIN,
                                          ts + 2 * before + 1, Some(ts + 2 * before + 2 * Size(ps[a])), true)
  {
    var before := SizeAll(ps[..a]);
    assert ps == ps[..a] + ps[a..] && ps[a..][0] == ps[a];
    LostTreesConcat(ps[..a], ps[a..], n, ts, parent);
    LostTreesLength(ps[..a], n, ts, parent);
    LostTreesLength(ps, n, ts, parent);
    var tail := LostTrees(ps[a..], n + before, ts + 2 * before, parent);
    assert LostTrees(ps, n, ts, parent)[before] == tail[0];
  }
}
