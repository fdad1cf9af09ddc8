/** Live results are never lost: what holds of the results table and the stack of open results over every
    run, whether or not the stream makes sense. */
module LiveResults {
  import opened Wrappers
  import opened Plans
  import opened PlanWalk
  import opened LiveSession

  predicate Open(log: Log, i: nat) {
    exists k :: 0 <= k < |log.stack| && log.stack[k].result == i
  }

  /** Execution numbers are 1..n in creation order, and a parent is created before its children. */
  ghost predicate Numbered(log: Log) {
    && log.seqno == |log.results| + 1
    && forall i :: 0 <= i < |log.results| ==>
         && log.results[i].seqno == i + 1
         && (log.results[i].parent.Some? ==> log.results[i].parent.value < i)
  }

  /** Stack entries are the rows of running entities, and each was created inside the one below it. */
  ghost predicate Nested(log: Log) {
    && (forall k :: 0 <= k < |log.stack| ==>
          && log.stack[k].result < |log.results|
          && log.stack[k].seqno == log.results[log.stack[k].result].seqno
          && log.stack[k].nodeType == log.results[log.stack[k].result].nodeType)
    && (forall j, k :: 0 <= j < k < |log.stack| ==>
          && log.stack[j].result < log.stack[k].result
          && (k == j + 1 ==> log.results[log.stack[k].result].parent == Some(log.stack[j].result)))
    && (log.stack != [] ==> log.results[log.stack[0].result].parent == None)
  }

  ghost predicate OpenAreUnfinished(log: Log) {
    forall k :: 0 <= k < |log.stack| && log.stack[k].result < |log.results| ==>
      log.results[log.stack[k].result].finish.None?
  }

  ghost predicate UnfinishedAreOpen(log: Log) {
    forall i :: 0 <= i < |log.results| && log.results[i].finish.None? ==> Open(log, i)
  }

  ghost predicate LogOk(log: Log) {
    Numbered(log) && Nested(log) && OpenAreUnfinished(log) && UnfinishedAreOpen(log)
  }

  lemma {:induction false} OpenKeepsLog(log: Log, name: string, nodeType: string, nodeId: int, planId: int, tin: int)
    requires LogOk(log)
    ensures LogOk(OpenResult(log, name, nodeType, nodeId, planId, tin))
  {
    var r := OpenResult(log, name, nodeType, nodeId, planId, tin);
    assert Numbered(r) by {
      TopInside(log);
    }
    OpenedNested(log, r);
    OpenedOpen(log, r);
  }

  lemma {:induction false} TopInside(log: Log)
    requires Nested(log)
    ensures log.stack != [] ==> Innermost(log.stack).result < |log.results|
  {}

  /** One more row, and one more stack entry that refers to it. */
  predicate Opened(log: Log, r: Log) {
    && |r.results| == |log.results| + 1 && |r.stack| == |log.stack| + 1
    && (forall i :: 0 <= i < |log.results| ==> r.results[i] == log.results[i])
    && (forall k :: 0 <= k < |log.stack| ==> r.stack[k] == log.stack[k])
    && var row, top := r.results[|log.results|], r.stack[|log.stack|];
       && row.parent == Parent(log.stack) && row.finish == None
       && top.result == |log.results| && top.seqno == row.seqno && top.nodeType == row.nodeType
  }

  lemma {:induction false} OpenedNested(log: Log, r: Log)
    requires Nested(log) && Opened(log, r)
    ensures Nested(r)
  {}

  lemma {:induction false} OpenedOpen(log: Log, r: Log)
    requires Nested(log) && OpenAreUnfinished(log) && UnfinishedAreOpen(log) && Opened(log, r)
    ensures OpenAreUnfinished(r) && UnfinishedAreOpen(r)
  {
    assert r.stack[|log.stack|].result == |log.results|;
    forall i | 0 <= i < |log.results| && r.results[i].finish.None?
      ensures Open(r, i)
    {
      assert Open(log, i);
      var k :| 0 <= k < |log.stack| && log.stack[k].result == i;
      assert r.stack[k].result == i;
    }
  }

  lemma {:induction false} CloseKeepsLog(log: Log, lost: bool)
    requires LogOk(log)
    ensures LogOk(CloseTop(log, lost))
    ensures |CloseTop(log, lost).results| == |log.results|
    ensures log.stack != [] ==> CloseTop(log, lost).stack == Init(log.stack)
  {
    if log.stack != [] {
      ClosedRow(log, lost);
      hide CloseTop;
      var r, i := CloseTop(log, lost), Innermost(log.stack).result;
      assert Numbered(r);
      ClosedNested(log, r);
      ClosedOpen(log, r, i);
    }
  }

  /** Everything but the finished row stays as it is. */
  lemma {:induction false} ClosedRow(log: Log, lost: bool)
    requires Nested(log) && log.stack != []
    ensures var r, i := CloseTop(log, lost), Innermost(log.stack).result;
            && i < |log.results| && r.seqno == log.seqno
            && r.stack == Init(log.stack)
            && r.results == log.results[i := log.results[i].(finish := Some(log.lastTs), lost := lost)]
  {}

  lemma {:induction false} ClosedNested(log: Log, r: Log)
    requires Nested(log) && log.stack != [] && r.stack == Init(log.stack) && |r.results| == |log.results|
    requires forall j :: 0 <= j < |log.results| ==>
               && r.results[j].seqno == log.results[j].seqno
               && r.results[j].nodeType == log.results[j].nodeType
               && r.results[j].parent == log.results[j].parent
    ensures Nested(r)
  {}

  lemma {:induction false} ClosedOpen(log: Log, r: Log, i: nat)
    requires Nested(log) && OpenAreUnfinished(log) && UnfinishedAreOpen(log)
    requires log.stack != [] && r.stack == Init(log.stack) && |r.results| == |log.results|
    requires i == Innermost(log.stack).result < |log.results| && r.results[i].finish.Some?
    requires forall j :: 0 <= j < |log.results| && j != i ==> r.results[j] == log.results[j]
    ensures OpenAreUnfinished(r) && UnfinishedAreOpen(r)
  {
    forall j | 0 <= j < |r.results| && r.results[j].finish.None?
      ensures Open(r, j)
    {
      assert Open(log, j);
      var k :| 0 <= k < |log.stack| && log.stack[k].result == j;
      assert r.stack[k].result == j;
    }
  }

  lemma {:induction false} TickKeepsLog(log: Log, ts: int)
    requires LogOk(log)
    ensures LogOk(log.(lastTs := ts))
  {
    var r := log.(lastTs := ts);
    assert Nested(r);
    forall i | 0 <= i < |r.results| && r.results[i].finish.None?
      ensures Open(r, i)
    {
      assert Open(log, i);
    }
  }

  // ---------- rows stay ----------

  /** The two rows are the same apart from being closed. */
  predicate SameRow(row: TestResult, later: TestResult) {
    later == row.(finish := later.finish, lost := later.lost)
  }

  /** Every row of `a` is still in `b` at its place, with the number, name, parent and start it was created
      with; a row that was finished is exactly as it was. */
  ghost predicate Kept(a: Log, b: Log) {
    && |a.results| <= |b.results|
    && forall i :: 0 <= i < |a.results| ==>
         && SameRow(a.results[i], b.results[i])
         && (a.results[i].finish.Some? ==> b.results[i] == a.results[i])
  }

  lemma {:induction false} KeptTransitive(a: Log, b: Log, c: Log)
    requires Kept(a, b) && Kept(b, c)
    ensures Kept(a, c)
  {}

  lemma {:induction false} OpenKeepsRows(log: Log, name: string, nodeType: string, nodeId: int, planId: int, tin: int)
    ensures Kept(log, OpenResult(log, name, nodeType, nodeId, planId, tin))
  {}

  /** What is closed was unfinished. */
  lemma {:induction false} CloseKeepsRows(log: Log, lost: bool)
    requires OpenAreUnfinished(log)
    ensures Kept(log, CloseTop(log, lost))
  {}

  lemma {:induction false} FillKeepsRows(log: Log, e: Event)
    requires LogOk(log)
    ensures Kept(log, FillEvent(log, e))
  {
    hide OpenResult, CloseTop;
    if e.enter {
      OpenKeepsRows(Tick(log), e.plan.name, e.plan.nodeType, LOST_ITEM_NODE_ID, e.id, LOST_TIN);
    } else {
      CloseKeepsRows(Tick(log), true);
    }
  }

  lemma {:induction false} FillKeepsLog(log: Log, e: Event)
    requires LogOk(log)
    ensures LogOk(FillEvent(log, e))
  {
    hide LogOk;
    TickKeepsLog(log, log.lastTs + 1);
    if e.enter {
      OpenKeepsLog(Tick(log), e.plan.name, e.plan.nodeType, LOST_ITEM_NODE_ID, e.id, LOST_TIN);
    } else {
      CloseKeepsLog(Tick(log), true);
    }
  }

  lemma {:induction false} FillToKeepsLog(root: Plan, s: Session, target: int, start: bool)
    requires Valid(root, s.walk) && LogOk(s.log)
    ensures LogOk(FillTo(root, s, target, start).s.log) && Kept(s.log, FillTo(root, s, target, start).s.log)
    decreases |Remaining(s.walk)|
  {
    hide LogOk, FillEvent, Kept, Valid, Next, Remaining;
    KeptSelf(s.log, s.log.lastTs);
    if !Reached(s.walk, target, start) {
      SkipToStep(root, s.walk, target, start);
      var e := Peek(s.walk).value;
      if CanFill(s.log, e) {
        var filled := s.(walk := Next(s.walk), log := FillEvent(s.log, e));
        FillKeepsLog(s.log, e);
        FillKeepsRows(s.log, e);
        FillToKeepsLog(root, filled, target, start);
        KeptTransitive(s.log, filled.log, FillTo(root, filled, target, start).s.log);
      }
    }
  }

  lemma {:induction false} KeptSelf(log: Log, ts: int)
    ensures Kept(log, log.(lastTs := ts))
  {}

  lemma {:induction false} AdvanceKeepsLog(root: Plan, s: Session, target: int, start: bool)
    requires Valid(root, s.walk) && LogOk(s.log)
    ensures LogOk(AdvancePlan(root, s, target, start).s.log) && Kept(s.log, AdvancePlan(root, s, target, start).s.log)
  {
    hide LogOk, FillEvent, FillTo, Kept, Valid, Next, Remaining;
    FillToKeepsLog(root, s, target, start);
    FillToValid(root, s, target, start);
    var r := FillTo(root, s, target, start);
    if r.outcome.Accepted? && !start && r.s.walk.frames != [] {
      var e := Peek(r.s.walk).value;
      FillKeepsLog(r.s.log, e);
      FillKeepsRows(r.s.log, e);
      KeptTransitive(s.log, r.s.log, FillEvent(r.s.log, e));
    }
  }

  lemma {:induction false} StartKeepsLog(root: Plan, s: Session, e: LiveEvent)
    requires Valid(root, s.walk) && LogOk(s.log) && e.TestStart?
    ensures LogOk(StepStart(root, s, e).s.log) && Kept(s.log, StepStart(root, s, e).s.log)
  {
    hide LogOk, Kept, OpenResult, AdvancePlan, SkipTo, PlanWalk.Valid, Next, Peek, StartGap, ExecutingTest, Reached,
         HasEvent;
    KeptSelf(s.log, s.log.lastTs);
    if s.walk.frames != [] {
      AdvanceKeepsLog(root, s, e.planId, true);
      var log := if StartGap(s, e) then AdvancePlan(root, s, e.planId, true).s.log else s.log;
      TickKeepsLog(log, e.ts);
      OpenKeepsLog(log.(lastTs := e.ts), e.name, e.nodeType, e.nodeId, e.planId, e.tin);
      KeptSelf(log, e.ts);
      OpenKeepsRows(log.(lastTs := e.ts), e.name, e.nodeType, e.nodeId, e.planId, e.tin);
      KeptTransitive(s.log, log, log.(lastTs := e.ts));
      KeptTransitive(s.log, log.(lastTs := e.ts),
                     OpenResult(log.(lastTs := e.ts), e.name, e.nodeType, e.nodeId, e.planId, e.tin));
    }
  }

  lemma {:induction false} EndKeepsLog(root: Plan, s: Session, e: LiveEvent)
    requires Valid(root, s.walk) && LogOk(s.log) && e.TestEnd?
    ensures LogOk(StepEnd(root, s, e).s.log) && Kept(s.log, StepEnd(root, s, e).s.log)
  {
    hide LogOk, Kept, CloseTop, AdvancePlan, SkipTo, PlanWalk.Valid, Next, Peek, Reached, HasEvent;
    KeptSelf(s.log, s.log.lastTs);
    AdvanceKeepsLog(root, s.(maxNode := if s.maxNode < e.nodeId then e.nodeId else s.maxNode), e.planId, false);
    TickKeepsLog(s.log, e.ts);
    CloseKeepsLog(s.log.(lastTs := e.ts), false);
    KeptSelf(s.log, e.ts);
    OkUnfinished(s.log.(lastTs := e.ts));
    CloseKeepsRows(s.log.(lastTs := e.ts), false);
    KeptTransitive(s.log, s.log.(lastTs := e.ts), CloseTop(s.log.(lastTs := e.ts), false));
  }

  lemma {:induction false} OkUnfinished(log: Log)
    requires LogOk(log)
    ensures OpenAreUnfinished(log)
  {}

  /** Every event, sensible or not, leaves consistent results, and loses and changes none that was there. */
  lemma {:induction false} StepKeepsLog(root: Plan, s: Session, e: LiveEvent)
    requires Valid(root, s.walk) && LogOk(s.log)
    ensures LogOk(StepEvent(root, s, e).s.log) && Kept(s.log, StepEvent(root, s, e).s.log)
  {
    hide LogOk, PlanWalk.Valid, StepStart, StepEnd, Kept;
    match e
    case TestStart(_, _, _, _, _, _, _) => StartKeepsLog(root, s, e);
    case TestEnd(_, _, _, _) => EndKeepsLog(root, s, e);
    case Incomplete => KeptSelf(s.log, s.log.lastTs);
  }

  /** Over every run, whatever the events: execution numbers are 1..n in creation order, every result is
      either finished or open on the stack, and every result created stays in the table under the parent that
      was open around it then. */
  lemma {:induction false} ResultsNeverLost(root: Plan, s: Session, events: seq<LiveEvent>)
    requires Valid(root, s.walk) && LogOk(s.log)
    ensures LogOk(Feed(root, s, events).s.log) && Kept(s.log, Feed(root, s, events).s.log)
    decreases |events|
  {
    hide LogOk, StepEvent, PlanWalk.Valid, Kept;
    if events == [] {
      KeptSelf(s.log, s.log.lastTs);
    } else {
      StepKeepsLog(root, s, events[0]);
      var r := StepEvent(root, s, events[0]);
      if r.outcome.Accepted? {
        ResultsNeverLost(root, r.s, events[1..]);
        KeptTransitive(s.log, r.s.log, Feed(root, r.s, events[1..]).s.log);
      }
    }
  }

  lemma {:induction false} BeginOk(root: Plan, runStart: int)
    ensures Valid(root, Begin(root, runStart).walk) && LogOk(Begin(root, runStart).log)
  {}

  // ---------- fatal errors ----------

  /** `r` is `log` with everything open closed as lost: the k-th of n open results at the (n-k)-th
      microsecond.  Finished rows are as they were. */
  ghost predicate AllClosed(log: Log, r: Log) {
    && r.stack == [] && |r.results| == |log.results| && r.lastTs == log.lastTs + |log.stack|
    && (forall i :: 0 <= i < |r.results| ==> r.results[i].finish.Some?)
    && (forall k :: 0 <= k < |log.stack| && log.stack[k].result < |r.results| ==>
          ClosedAt(r.results[log.stack[k].result], log.lastTs + |log.stack| - k))
    && (forall i :: 0 <= i < |r.results| && log.results[i].finish.Some? ==> r.results[i] == log.results[i])
  }

  predicate ClosedAt(row: TestResult, ts: int) {
    row.finish == Some(ts) && row.lost
  }

  /** A fatal error leaves nothing open, and inner results finish strictly before outer ones. */
  lemma {:induction false} FatalErrorClosesAll(log: Log)
    requires LogOk(log)
    ensures LogOk(CloseAll(log)) && AllClosed(log, CloseAll(log)) && Kept(log, CloseAll(log))
    decreases |log.stack|
  {
    hide LogOk, CloseTop, AllClosed, Kept;
    if log.stack == [] {
      NothingOpen(log);
      KeptSelf(log, log.lastTs);
    } else {
      var log' := CloseTop(Tick(log), true);
      CloseOne(log);
      FatalErrorClosesAll(log');
      ClosedStep(log, log', CloseAll(log'));
      KeptTransitive(log, log', CloseAll(log'));
    }
  }

  lemma {:induction false} CloseOne(log: Log)
    requires LogOk(log) && log.stack != []
    ensures LogOk(CloseTop(Tick(log), true)) && ClosedOne(log, CloseTop(Tick(log), true))
    ensures Kept(log, CloseTop(Tick(log), true))
  {
    hide LogOk, CloseTop;
    TickKeepsLog(log, log.lastTs + 1);
    OkUnfinished(Tick(log));
    CloseKeepsRows(Tick(log), true);
    CloseKeepsLog(Tick(log), true);
    CloseEffect(Tick(log));
  }

  ghost predicate ClosedOne(log: Log, log': Log) {
    && log.stack != [] && log'.stack == Init(log.stack) && log'.lastTs == log.lastTs + 1
    && |log'.results| == |log.results| && Innermost(log.stack).result < |log.results|
    && ClosedAt(log'.results[Innermost(log.stack).result], log.lastTs + 1)
    && log.results[Innermost(log.stack).result].finish.None?
    && forall j :: 0 <= j < |log.results| && j != Innermost(log.stack).result ==> log'.results[j] == log.results[j]
  }

  lemma {:induction false} ClosedStep(log: Log, log': Log, r: Log)
    requires ClosedOne(log, log')
    requires AllClosed(log', r)
    ensures AllClosed(log, r)
  {
    forall k | 0 <= k < |log.stack| && log.stack[k].result < |r.results|
      ensures ClosedAt(r.results[log.stack[k].result], log.lastTs + |log.stack| - k)
    {
      if k < |log.stack| - 1 {
        assert log'.stack[k] == log.stack[k];
      }
    }
  }

  lemma {:induction false} NothingOpen(log: Log)
    requires LogOk(log) && log.stack == []
    ensures forall i :: 0 <= i < |log.results| ==> log.results[i].finish.Some?
    ensures AllClosed(log, log)
  {
    forall i | 0 <= i < |log.results|
      ensures log.results[i].finish.Some?
    {
      assert !Open(log, i);
    }
  }

  /** Closing as lost changes one unfinished row, which no other stack entry refers to. */
  lemma {:induction false} CloseEffect(log: Log)
    requires LogOk(log) && log.stack != []
    ensures var r, i := CloseTop(log, true), Innermost(log.stack).result;
            && i < |log.results|
            && log.results[i].finish.None?
            && r.lastTs == log.lastTs
            && ClosedAt(r.results[i], log.lastTs)
            && (forall j :: 0 <= j < |log.results| && j != i ==> r.results[j] == log.results[j])
  {}

  /** Finishing a run closes nothing: all results are finished afterwards exactly when none was open. */
  lemma {:induction false} FinishedRunIsComplete(log: Log)
    requires LogOk(log)
    ensures (forall i :: 0 <= i < |log.results| ==> log.results[i].finish.Some?) <==> log.stack == []
  {
    if log.stack == [] {
      NothingOpen(log);
    } else {
      assert log.results[log.stack[0].result].finish.None?;
    }
  }
}
