/** Which leaves and packages a run's summary tree shows, and what each of them shows. */
module SummaryTree {
  import opened Wrappers
  import opened ResultTree
  import opened RunStats
  import opened LeafAgreement

  /** Is this child not a further execution of the test before it? */
  predicate StartsBatch(ns: seq<Node>, k: nat)
    requires k < |ns|
  {
    k == 0 || !ns[k].isTest || ns[k].name != ns[k - 1].name
  }

  /** The children from `i` to `j` are a package, or all the consecutive executions of a test. */
  predicate IsBatch(ns: seq<Node>, i: nat, j: nat) {
    && i <= j < |ns| && StartsBatch(ns, i)
    && (forall k :: i < k <= j ==> !StartsBatch(ns, k))
    && (j + 1 < |ns| ==> StartsBatch(ns, j + 1))
  }

  /** Some test result in the package has the required metas and a status that is counted. */
  ghost predicate HasCounted(rows: seq<Row>, reqs: set<string>) {
    exists r :: r in rows && r.isTest && reqs <= r.reqs && r.status != NoStatus
  }

  /** Is there something to show for child `c` of `p`: results that are listed for the test, or counted ones in
      the package? */
  ghost predicate HasResults(rows: seq<Row>, p: Node, c: Node, reqs: set<string>) {
    if c.isTest then ListResults(rows, p.id, c.name, c.seqno, reqs) != []
    else HasCounted(FlattenAll(c.children, Some(c.id)), reqs)
  }

  /** The children from `i` on that the summary shows, in order: the first of each batch with results. */
  ghost function Shown(rows: seq<Row>, p: Node, reqs: set<string>, i: nat): seq<nat>
    decreases if i < |p.children| then |p.children| - i else 0
  {
    if i >= |p.children| then []
    else
      (if StartsBatch(p.children, i) && HasResults(rows, p, p.children[i], reqs) then [i] else [])
      + Shown(rows, p, reqs, i + 1)
  }

  /** The children of `info` are those that package `p` has to show, one for each and in order. */
  ghost predicate Shows(rows: seq<Row>, p: Node, info: Info, reqs: set<string>)
    decreases p, 2
  {
    ShowsFrom(rows, p, 0, info.children, reqs)
  }

  ghost predicate ShowsFrom(rows: seq<Row>, p: Node, i: nat, infos: seq<Info>, reqs: set<string>)
    decreases p, 1
  {
    var shown := Shown(rows, p, reqs, i);
    && |infos| == |shown|
    && forall k :: 0 <= k < |shown| ==>
         shown[k] < |p.children| && ShowsBatch(rows, p, shown[k], infos[k], reqs)
  }

  /** `info` shows the batch that starts at child `i`: its first execution's data, from the start of the first to
      the finish of the last; for a test the tally of the listed results, for a package what it has to show. */
  ghost predicate ShowsBatch(rows: seq<Row>, p: Node, i: nat, info: Info, reqs: set<string>)
    requires i < |p.children|
    decreases p, 0
  {
    var c := p.children[i];
    && info.resultId == c.id && info.seqno == c.seqno && info.parent == Some(p.id)
    && info.name == c.name && info.isTest == c.isTest && info.start == c.start
    && (exists j: nat :: IsBatch(p.children, i, j) && info.finish == p.children[j].finish)
    && if c.isTest then
         info.children == [] && info.stats == Tally(ListResults(rows, p.id, c.name, c.seqno, reqs))
       else Shows(rows, c, info, reqs)
  }

  lemma {:induction false} BatchEndIsBatch(ns: seq<Node>, i: nat)
    requires i < |ns| && StartsBatch(ns, i)
    ensures IsBatch(ns, i, BatchEnd(ns, i))
  {
    BatchEndFrom(ns, i);
  }

  lemma {:induction false} BatchEndFrom(ns: seq<Node>, i: nat)
    requires i < |ns|
    ensures var j := BatchEnd(ns, i);
            (forall k :: i < k <= j ==> !StartsBatch(ns, k)) && (j + 1 < |ns| ==> StartsBatch(ns, j + 1))
    decreases |ns| - i
  {
    if i + 1 < |ns| && ns[i + 1].name == ns[i].name && ns[i + 1].isTest {
      BatchEndFrom(ns, i + 1);
    }
  }

  /** Nothing is shown inside a batch. */
  lemma {:induction false} NothingShown(rows: seq<Row>, p: Node, reqs: set<string>, i: nat, j: nat)
    requires i <= j <= |p.children| && forall k :: i <= k < j ==> !StartsBatch(p.children, k)
    ensures Shown(rows, p, reqs, i) == Shown(rows, p, reqs, j)
    decreases j - i
  {
    hide HasResults;
    if i < j {
      NothingShown(rows, p, reqs, i + 1, j);
    }
  }

  lemma {:induction false} CountsOnce(r: Row)
    ensures Contribution(r).Sum() > 0 <==> r.status != NoStatus
  {}

  /** A tally is not zero if and only if some result has a status that is counted. */
  lemma {:induction false} TallyPositive(rows: seq<Row>)
    ensures Tally(rows).Sum() > 0 <==> exists r :: r in rows && r.status != NoStatus
  {
    hide Contribution, Add, Stats.Sum;
    if rows == [] {
      EmptySum();
    } else {
      TallyPositive(rows[1..]);
      CountsOnce(rows[0]);
      AddLaws(Contribution(rows[0]), Tally(rows[1..]), ZERO);
      assert rows == [rows[0]] + rows[1..];
      assert forall r :: r in rows <==> r == rows[0] || r in rows[1..];
    }
  }

  lemma {:induction false} EmptySum()
    ensures Tally([]).Sum() == 0
  {}

  lemma {:induction false} TestsExact(rows: seq<Row>, reqs: set<string>, r: Row)
    ensures r in Tests(rows, reqs) <==> r in rows && r.isTest && reqs <= r.reqs
  {
    if rows != [] {
      TestsExact(rows[1..], reqs, r);
      assert rows == [rows[0]] + rows[1..];
    }
  }

  lemma {:induction false} CountedMeansTally(rows: seq<Row>, reqs: set<string>)
    ensures HasCounted(rows, reqs) <==> Tally(Tests(rows, reqs)).Sum() > 0
  {
    TallyPositive(Tests(rows, reqs));
    hide Tally, Tests;
    forall r
      ensures r in Tests(rows, reqs) <==> r in rows && r.isTest && reqs <= r.reqs
    {
      TestsExact(rows, reqs, r);
    }
  }

  /** A test's leaf is there exactly if results are listed for it. */
  lemma {:induction false} LeafShown(root: Node, p: Node, i: nat, reqs: set<string>)
    requires WellFormedRun(root) && Within(p, root) && i < |p.children| && p.children[i].isTest
    requires StartsBatch(p.children, i)
    ensures var c, rows := p.children[i], Flatten(root, None);
            var o := Summarize(c, p.children, Some(p.id), c.start, p.children[BatchEnd(p.children, i)].finish, reqs);
            (o.Some? <==> HasResults(rows, p, c, reqs)) && (o.Some? ==> ShowsBatch(rows, p, i, o.value, reqs))
  {
    var c, j := p.children[i], BatchEnd(p.children, i);
    hide WellFormedRun, Within, Flatten, ListResults, CountedStats, Tally, Executions, IsBatch, StartsBatch, BatchEnd;
    LeafMatchesListing(root, p, i, reqs);
    CountedIsTally(Executions(RowsOf(p.children, Some(p.id)), c.name, c.start, p.children[j].finish, reqs));
    BatchEndIsBatch(p.children, i);
  }

  /** A package's counters are those of the test results in it. */
  lemma {:induction false} PackageTotal(c: Node, reqs: set<string>)
    requires Sequential(c) && !c.isTest
    ensures SumStats(SummarizeFrom(c.children, 0, c.id, reqs)) == Tally(Tests(FlattenAll(c.children, Some(c.id)), reqs))
  {
    hide Tally, Tests, FlattenAll, SummarizeFrom, LeafRowsFrom, SumStats;
    SequentialInside(c);
    SummaryTallyFrom(c.children, 0, c.id, reqs);
    LeavesPartitionTests(c.children, 0, c.id, reqs);
    assert c.children[0..] == c.children;
  }

  /** Whether a package is summarized, and as what. */
  lemma {:induction false} PackageInfo(c: Node, siblings: seq<Node>, p: nat, finish: Option<int>, reqs: set<string>)
    requires Sequential(c) && !c.isTest
    ensures var infos := SummarizeFrom(c.children, 0, c.id, reqs);
            Summarize(c, siblings, Some(p), c.start, finish, reqs)
            == if HasCounted(FlattenAll(c.children, Some(c.id)), reqs) then
                 Some(Info(c.id, c.seqno, Some(p), c.name, false, c.start, finish, infos, SumStats(infos)))
               else None
  {
    hide Sequential, FlattenAll, Tally, Tests, SummarizeFrom, SumStats, HasCounted, Stats.Sum;
    PackageTotal(c, reqs);
    CountedMeansTally(FlattenAll(c.children, Some(c.id)), reqs);
    SumIsZero(SumStats(SummarizeFrom(c.children, 0, c.id, reqs)));
  }

  lemma {:induction false} SumIsZero(s: Stats)
    ensures s.Sum() > 0 <==> s.Sum() != 0
  {}

  lemma {:induction false} PackageShown(root: Node, p: Node, i: nat, reqs: set<string>)
    requires WellFormedRun(root) && Within(p, root) && i < |p.children| && !p.children[i].isTest
    requires StartsBatch(p.children, i)
    requires ShowsFrom(Flatten(root, None), p.children[i], 0,
                       SummarizeFrom(p.children[i].children, 0, p.children[i].id, reqs), reqs)
    ensures var c, rows := p.children[i], Flatten(root, None);
            var o := Summarize(c, p.children, Some(p.id), c.start, p.children[BatchEnd(p.children, i)].finish, reqs);
            (o.Some? <==> HasResults(rows, p, c, reqs)) && (o.Some? ==> ShowsBatch(rows, p, i, o.value, reqs))
  {
    var c, j := p.children[i], BatchEnd(p.children, i);
    WithinChild(p, root, i);
    WithinSequential(c, root);
    BatchEndIsBatch(p.children, i);
    PackageInfo(c, p.children, p.id, p.children[j].finish, reqs);
    hide WellFormedRun, Within, Sequential, Flatten, FlattenAll, SummarizeFrom, Summarize, SumStats, IsBatch,
         StartsBatch, BatchEnd, ShowsFrom, HasCounted;
  }

  /** One batch, shown or not, in front of what there is to show after it. */
  lemma {:induction false} ShowsBatchAndRest(rows: seq<Row>, p: Node, i: nat, j: nat, o: Option<Info>,
                                             rest: seq<Info>, reqs: set<string>)
    requires i <= j < |p.children| && IsBatch(p.children, i, j) && ShowsFrom(rows, p, j + 1, rest, reqs)
    requires o.Some? <==> HasResults(rows, p, p.children[i], reqs)
    requires o.Some? ==> ShowsBatch(rows, p, i, o.value, reqs)
    ensures ShowsFrom(rows, p, i, Kept(o) + rest, reqs)
  {
    hide HasResults, ShowsBatch, Shown, IsBatch, StartsBatch;
    ShownStep(rows, p, i, j, reqs);
    var first, later := if o.Some? then [i] else [], Shown(rows, p, reqs, j + 1);
    var infos, shown := Kept(o) + rest, first + later;
    assert Shown(rows, p, reqs, i) == shown && |Kept(o)| == |first|;
    forall k | 0 <= k < |shown|
      ensures shown[k] < |p.children| && ShowsBatch(rows, p, shown[k], infos[k], reqs)
    {
      if k >= |first| {
        assert shown[k] == later[k - |first|] && infos[k] == rest[k - |first|];
      }
    }
  }

  lemma {:induction false} ShownStep(rows: seq<Row>, p: Node, i: nat, j: nat, reqs: set<string>)
    requires IsBatch(p.children, i, j)
    ensures Shown(rows, p, reqs, i)
         == (if HasResults(rows, p, p.children[i], reqs) then [i] else []) + Shown(rows, p, reqs, j + 1)
  {
    hide HasResults;
    NothingShown(rows, p, reqs, i + 1, j + 1);
  }

  /** What is summarized from a batch's start on is what there is to show from there on. */
  lemma {:induction false} SummaryShows(root: Node, p: Node, i: nat, reqs: set<string>)
    requires WellFormedRun(root) && Within(p, root) && i <= |p.children|
    requires i < |p.children| ==> StartsBatch(p.children, i)
    ensures ShowsFrom(Flatten(root, None), p, i, SummarizeFrom(p.children, i, p.id, reqs), reqs)
    decreases p, |p.children| - i
  {
    hide WellFormedRun, Within, Flatten, SummarizeFrom, Summarize, HasResults, ShowsBatch, ShowsFrom, BatchEnd,
         StartsBatch, IsBatch, Kept;
    if i == |p.children| {
      NothingSummarized(Flatten(root, None), p, reqs);
    } else {
      var c, j := p.children[i], BatchEnd(p.children, i);
      FirstBatch(p.children, i, p.id, reqs);
      BatchEndIsBatch(p.children, i);
      NextBatchStarts(p.children, i, j);
      SummaryShows(root, p, j + 1, reqs);
      if c.isTest {
        LeafShown(root, p, i, reqs);
      } else {
        WithinChild(p, root, i);
        FirstStarts(c);
        SummaryShows(root, c, 0, reqs);
        PackageShown(root, p, i, reqs);
      }
      ShowsBatchAndRest(Flatten(root, None), p, i, j,
                        Summarize(c, p.children, Some(p.id), c.start, p.children[j].finish, reqs),
                        SummarizeFrom(p.children, j + 1, p.id, reqs), reqs);
    }
  }

  lemma {:induction false} NextBatchStarts(ns: seq<Node>, i: nat, j: nat)
    requires IsBatch(ns, i, j)
    ensures j + 1 < |ns| ==> StartsBatch(ns, j + 1)
  {}

  lemma {:induction false} NothingSummarized(rows: seq<Row>, p: Node, reqs: set<string>)
    ensures ShowsFrom(rows, p, |p.children|, SummarizeFrom(p.children, |p.children|, p.id, reqs), reqs)
  {
    hide Summarize, HasResults, ShowsBatch;
  }

  lemma {:induction false} FirstStarts(p: Node)
    ensures p.children != [] ==> StartsBatch(p.children, 0)
  {}

  // ---------- the statistics of a run ----------

  /** Is there something to show for a whole run? */
  ghost predicate RunHasResults(root: Node, reqs: set<string>) {
    if root.isTest then reqs <= root.reqs else HasCounted(FlattenAll(root.children, Some(root.id)), reqs)
  }

  lemma {:induction false} RunShown(root: Node, reqs: set<string>)
    requires WellFormedRun(root)
    ensures var o := Summarize(root, [root], None, root.start, root.finish, reqs);
            && (o.Some? <==> RunHasResults(root, reqs))
            && (o.Some? && !root.isTest ==> Shows(Flatten(root, None), root, o.value, reqs))
  {
    if root.isTest {
      OwnPeriod(root, reqs);
      TestsExact(RowsOf([root], None), reqs, RowOf(root, None));
      assert RowsOf([root], None) == [RowOf(root, None)];
    } else {
      assert Within(root, root);
      FirstStarts(root);
      SummaryShows(root, root, 0, reqs);
      hide Flatten, FlattenAll, Tally, Tests, SummarizeFrom, SumStats, ShowsFrom, HasCounted, Within;
      PackageTotal(root, reqs);
      CountedMeansTally(FlattenAll(root.children, Some(root.id)), reqs);
      SumIsZero(SumStats(SummarizeFrom(root.children, 0, root.id, reqs)));
    }
  }

  /** The summary tree of a run.  It is there exactly if there is something to show, and shows exactly that; its
      counters count every test result with the required metas exactly once, and every package's are the sums
      of its children's. */
  method GetRunStatsDetailed(rows: seq<Row>, reqs: set<string>, ghost root: Node) returns (stats: InfoNode?)
    requires rows == [] || (WellFormedRun(root) && rows == Flatten(root, None))
    ensures stats != null <==> rows != [] && RunHasResults(root, reqs)
    ensures Tally(Tests(rows, reqs)) == if stats == null then ZERO else stats.value.stats
    ensures stats != null ==>
              && stats.Valid() && Additive(stats.value) && LeavesListed(stats.value, rows, reqs)
              && stats.value.resultId == root.id && stats.value.name == root.name
              && stats.value.start == root.start && stats.value.finish == root.finish
              && (!root.isTest ==> Shows(rows, root, stats.value, reqs))
  {
    hide Flatten, ListResults, Sequential, SeqnosIncrease, DistinctIds, Tally, Tests, Additive, WithParent, Shows,
         RunHasResults, InfoNode.Valid, LeavesListed, LeafRows, Summarize;
    if rows == [] {
      TallyOfNothing();
      NoTests(reqs);
      return null;
    }
    OnlyRootIsMain(root);
    WholeIsWithin(root);
    RunStatsConserved(root, reqs);
    SummaryIsAdditive(root, [root], None, root.start, root.finish, reqs);
    RunShown(root, reqs);
    RunListed(root, reqs);
    var main := WithParent(rows, None)[0];
    stats := GenerateResult(rows, main, main.start, main.finish, null, reqs, root, root, [root]);
  }

  lemma {:induction false} NoTests(reqs: set<string>)
    ensures Tests([], reqs) == []
  {}

  lemma {:induction false} WholeIsWithin(root: Node)
    ensures Within(root, root)
  {}

  /** The whole summary is of the main package, and its leaves are listed. */
  lemma {:induction false} RunListed(root: Node, reqs: set<string>)
    requires WellFormedRun(root)
    ensures var o := Summarize(root, [root], None, root.start, root.finish, reqs);
            o.Some? ==>
              && LeavesListed(o.value, Flatten(root, None), reqs)
              && o.value.resultId == root.id && o.value.name == root.name
              && o.value.start == root.start && o.value.finish == root.finish
  {
    WholeIsWithin(root);
    hide Within, Flatten, Tally, ListResults, WellFormedRun;
    if !root.isTest {
      SummariesListed(root, root, 0, reqs);
    }
  }
}
