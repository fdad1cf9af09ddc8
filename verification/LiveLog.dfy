/** The live import context itself: an object that owns a plan tracker and the stack of running entities.
    Every method is proved against the state machine of `LiveSession`. */
module LiveLog {
  import opened Wrappers
  import opened Plans
  import opened PlanItems
  import opened PlanTracking
  import PlanWalk
  import opened LiveSession
  import opened LiveResults

  class LiveLogContext {
    const tracker: PlanTracker
    const expectedItems: nat
    var testStack: seq<OpenTest>
    var currentSeqno: nat
    var lastTs: int
    var maxNodeId: int
    var results: seq<TestResult> // the results of this run, in creation order
    var run: Run

    ghost predicate WellFormed()
      reads this, tracker, tracker.repr
    {
      this !in tracker.repr && tracker.Valid()
    }

    ghost function Log(): Log
      reads this
    {
      LiveSession.Log(results, testStack, currentSeqno, lastTs)
    }

    ghost function Abs(): Session
      requires WellFormed()
      reads this, tracker, tracker.repr
    {
      Session(tracker.Abs(), Log(), maxNodeId)
    }

    ghost predicate Valid()
      reads this, tracker, tracker.repr
    {
      WellFormed() && LogOk(Log())
    }

    constructor (plan: Spec, runStart: int, statusGiven: bool)
      ensures Valid() && tracker.root == Unfold(plan) && fresh(tracker.repr)
      ensures Abs() == Begin(Unfold(plan), runStart)
      ensures expectedItems == TestsNum(Unfold(plan)) && run == Run(None, if statusGiven then Given else Running)
    {
      var rootItem := new PlanItem(plan);
      var testsNum := rootItem.TestsNum(rootItem.items);
      tracker := new PlanTracker(rootItem);
      expectedItems := testsNum;
      testStack := [];
      currentSeqno := 1;
      lastTs := runStart;
      maxNodeId := 0;
      results := [];
      run := Run(None, if statusGiven then Given else Running);
      new;
      BeginOk(tracker.root, runStart);
    }

    predicate ExecutingTest()
      reads this
      ensures ExecutingTest() == LiveSession.ExecutingTest(Log())
    {
      testStack != [] && testStack[|testStack| - 1].nodeType == TEST
    }

    function TopNodeId(): (id: int)
      reads this
      ensures id == LiveSession.TopNodeId(Log())
    {
      if testStack != [] then testStack[|testStack| - 1].nodeId else 0
    }

    method TsMicrostep()
      modifies this
      ensures Log() == Tick(old(Log())) && maxNodeId == old(maxNodeId) && run == old(run)
    {
      lastTs := lastTs + 1;
    }

    /** Create a result under the innermost running entity and put it on the stack. */
    method PushResult(name: string, nodeType: string, nodeId: int, planId: int, tin: int)
      modifies this
      ensures Log() == OpenResult(old(Log()), name, nodeType, nodeId, planId, tin)
      ensures maxNodeId == old(maxNodeId) && run == old(run)
    {
      var parent := None;
      if testStack != [] {
        parent := Some(testStack[|testStack| - 1].result);
      }
      var result := |results|;
      results := results + [TestResult(currentSeqno, name, nodeType, parent, tin, lastTs, None, false)];
      testStack := testStack + [OpenTest(nodeType, currentSeqno, nodeId, planId, result)];
      currentSeqno := currentSeqno + 1;
    }

    /** Finish the innermost running entity and take it off the stack. */
    method PopResult(lost: bool)
      requires LogOk(Log()) && testStack != []
      modifies this
      ensures Log() == CloseTop(old(Log()), lost)
      ensures maxNodeId == old(maxNodeId) && run == old(run)
    {
      var top := testStack[|testStack| - 1];
      results := results[top.result := results[top.result].(finish := Some(lastTs), lost := lost)];
      testStack := testStack[..|testStack| - 1];
    }

    /** Mirror the entering of a skipped plan item; fails if a test is running. */
    method OnItemEnter(item: PlanItem) returns (ok: bool)
      requires item.Local()
      modifies this
      ensures ok <==> !LiveSession.ExecutingTest(old(Log()))
      ensures Log() == if ok then FillEvent(old(Log()), Event(item.id, item.plan, true)) else old(Log())
      ensures maxNodeId == old(maxNodeId) && run == old(run)
    {
      if ExecutingTest() {
        return false;
      }
      TsMicrostep();
      PushResult(item.name, item.nodeType, LOST_ITEM_NODE_ID, item.id, LOST_TIN);
      ok := true;
    }

    /** Mirror the leaving of a skipped plan item; fails if nothing is running. */
    method OnItemExit(item: PlanItem) returns (ok: bool)
      requires LogOk(Log())
      modifies this
      ensures ok <==> old(testStack) != []
      ensures Log() == if ok then FillEvent(old(Log()), Event(item.id, item.plan, false)) else old(Log())
      ensures maxNodeId == old(maxNodeId) && run == old(run)
    {
      if testStack == [] {
        return false;
      }
      TickKeepsLog(Log(), lastTs + 1);
      TsMicrostep();
      PopResult(true);
      ok := true;
    }

    /** Handle the peeked event of a skip and advance the plan past it. */
    method FillNext(item: PlanItem, enter: bool) returns (ok: bool)
      requires Valid() && item in tracker.items
      requires PlanWalk.Peek(tracker.Abs()) == Some(Event(item.id, item.plan, enter))
      modifies this, tracker.repr
      ensures Valid() && fresh(tracker.repr - old(tracker.repr)) && run == old(run)
      ensures var s, e := old(Abs()), Event(old(item.id), item.plan, enter);
              && (ok <==> CanFill(s.log, e))
              && Abs() == if ok then Session(PlanWalk.Next(s.walk), FillEvent(s.log, e), s.maxNode) else s
    {
      hide PlanWalk.Valid, PlanWalk.Next, FillEvent, LogOk, Closed;
      ItemShape(tracker.items, item);
      FillKeepsLog(Log(), Event(item.id, item.plan, enter));
      if enter {
        ok := OnItemEnter(item);
      } else {
        ok := OnItemExit(item);
      }
      if ok {
        tracker.NextEvent();
      }
    }

    /** Walk the plan to the target, filling every skipped event. */
    method SkipFilling(targetId: int, untilStart: bool) returns (outcome: Outcome)
      requires Valid()
      modifies this, tracker.repr
      ensures Valid() && fresh(tracker.repr - old(tracker.repr)) && run == old(run)
      ensures Step(Abs(), outcome) == FillTo(tracker.root, old(Abs()), targetId, untilStart)
    {
      hide PlanWalk.Valid, PlanWalk.Next, PlanWalk.Remaining, LogOk, FillEvent, CanFill;
      ghost var s := Abs();
      ghost var goal := FillTo(tracker.root, s, targetId, untilStart);
      while true
        invariant Valid() && fresh(tracker.repr - old(tracker.repr)) && run == old(run)
        invariant s == Abs() && FillTo(tracker.root, s, targetId, untilStart) == goal
        decreases |PlanWalk.Remaining(s.walk)|
      {
        var event := tracker.PeekEvent();
        if event.None? || (event.value.0.id == targetId && event.value.1 == untilStart) {
          return Accepted;
        }
        PlanWalk.SkipToStep(tracker.root, s.walk, targetId, untilStart);
        var ok := FillNext(event.value.0, event.value.1);
        if !ok {
          return Rejected(Assertion);
        }
        s := Abs();
      }
    }

    /** Fast-forward to the target's start, or to just after its end. */
    method AdvancePlan(targetId: int, stopAtStart: bool) returns (outcome: Outcome)
      requires Valid()
      modifies this, tracker.repr
      ensures Valid() && fresh(tracker.repr - old(tracker.repr)) && run == old(run)
      ensures Step(Abs(), outcome) == LiveSession.AdvancePlan(tracker.root, old(Abs()), targetId, stopAtStart)
    {
      hide PlanWalk.Valid, PlanWalk.Next, PlanWalk.Remaining, LogOk, FillEvent, CanFill, FillTo;
      FillToValid(tracker.root, Abs(), targetId, stopAtStart);
      outcome := SkipFilling(targetId, stopAtStart);
      if outcome.Rejected? {
        return;
      }
      var event := tracker.PeekEvent();
      if !stopAtStart && event.Some? {
        var ok := FillNext(event.value.0, event.value.1);
        if !ok {
          return Rejected(Assertion);
        }
      }
    }

    /** A test, package or session has started. */
    method HandleTestStart(e: LiveEvent) returns (outcome: Outcome)
      requires Valid() && e.TestStart?
      modifies this, tracker.repr
      ensures Valid() && fresh(tracker.repr - old(tracker.repr)) && run == old(run)
      ensures Step(Abs(), outcome) == StepStart(tracker.root, old(Abs()), e)
    {
      hide PlanWalk.Valid, PlanWalk.Next, PlanWalk.Remaining, LogOk, LiveSession.CatchUp, LiveSession.SkipAndOpen,
           Closed, PlanTracker.WellFormed, PlanTracker.Frames, PlanTracker.Valid;
      if e.planId == -1 {
        return Rejected(NoPlanId);
      }
      var event := tracker.PeekEvent();
      if event.None? {
        return Rejected(PlanOver);
      }
      var expected;
      expected, outcome := CatchUp(event.value.0, event.value.1, e);
      if outcome.Rejected? {
        return;
      }
      maxNodeId := e.nodeId;
      outcome := SkipAndOpen(expected, e);
    }

    /** Fill the gap that a start event reveals; returns the item expected then. */
    method CatchUp(item: PlanItem, started: bool, e: LiveEvent) returns (expected: PlanItem, outcome: Outcome)
      requires Valid() && e.TestStart? && item in tracker.items
      requires PlanWalk.Peek(tracker.Abs()) == Some(Event(item.id, item.plan, started))
      modifies this, tracker.repr
      ensures Valid() && fresh(tracker.repr - old(tracker.repr)) && run == old(run)
      ensures Step(Abs(), outcome) == LiveSession.CatchUp(tracker.root, old(Abs()), e)
      ensures outcome.Accepted? ==>
                && expected in tracker.items
                && PlanWalk.Peek(tracker.Abs()).Some? && PlanWalk.Peek(tracker.Abs()).value.id == expected.id
    {
      hide PlanWalk.Valid, PlanWalk.Next, LogOk, LiveSession.AdvancePlan;
      expected, outcome := item, Accepted;
      if !started || ExecutingTest() || e.nodeId > maxNodeId + 1 {
        outcome := AdvancePlan(e.planId, true);
        var event := tracker.PeekEvent();
        if event.Some? {
          expected := event.value.0;
        } else if outcome.Accepted? {
          outcome := Rejected(PlanOver);
        }
      }
    }

    /** Skip, without filling, items that were never started; then open the result. */
    method SkipAndOpen(expected: PlanItem, e: LiveEvent) returns (outcome: Outcome)
      requires Valid() && e.TestStart? && expected in tracker.items
      requires PlanWalk.Peek(tracker.Abs()).Some? && PlanWalk.Peek(tracker.Abs()).value.id == expected.id
      modifies this, tracker.repr
      ensures Valid() && fresh(tracker.repr - old(tracker.repr)) && run == old(run)
      ensures Step(Abs(), outcome) == LiveSession.SkipAndOpen(tracker.root, old(Abs()), e)
    {
      hide PlanWalk.Valid, PlanWalk.Next, PlanWalk.Remaining, PlanWalk.SkipTo, LogOk, OpenStarted;
      PlanWalk.SkipToExact(tracker.root, tracker.Abs(), e.planId, true);
      if expected.id < e.planId {
        tracker.SkipUntil(e.planId, true);
      }
      if ExecutingTest() {
        return Rejected(Assertion);
      }
      var event := tracker.PeekEvent();
      if event.None? {
        return Rejected(PlanOver);
      }
      outcome := OpenExpected(event.value.0, event.value.1, e);
    }

    /** Check the expected plan item against the event and open its result. */
    method OpenExpected(item: PlanItem, started: bool, e: LiveEvent) returns (outcome: Outcome)
      requires Valid() && e.TestStart? && item in tracker.items
      requires PlanWalk.Peek(tracker.Abs()) == Some(Event(item.id, item.plan, started))
      modifies this, tracker.repr
      ensures Valid() && fresh(tracker.repr - old(tracker.repr)) && run == old(run)
      ensures Step(Abs(), outcome) == OpenStarted(tracker.root, old(Abs()), e)
    {
      hide PlanWalk.Valid, PlanWalk.Next, LogOk, OpenResult, Closed;
      ItemShape(tracker.items, item);
      if !started {
        return Rejected(Assertion);
      }
      if item.name != e.name || item.nodeType != e.nodeType {
        return Rejected(WrongItem);
      }
      if TopNodeId() != LOST_ITEM_NODE_ID && TopNodeId() != e.parent {
        return Rejected(WrongParent);
      }
      if e.planId != item.id {
        return Rejected(WrongPlanId);
      }
      TickKeepsLog(Log(), e.ts);
      OpenKeepsLog(Log().(lastTs := e.ts), e.name, e.nodeType, e.nodeId, e.planId, e.tin);
      lastTs := e.ts;
      PushResult(e.name, e.nodeType, e.nodeId, e.planId, e.tin);
      tracker.NextEvent();
      outcome := Accepted;
    }

    /** A test, package or session has ended. */
    method HandleTestEnd(e: LiveEvent) returns (outcome: Outcome)
      requires Valid() && e.TestEnd?
      modifies this, tracker.repr
      ensures Valid() && fresh(tracker.repr - old(tracker.repr)) && run == old(run)
      ensures Step(Abs(), outcome) == StepEnd(tracker.root, old(Abs()), e)
    {
      hide PlanWalk.Valid, LogOk, LiveSession.DropEnd, LiveSession.EndInnermost;
      if e.planId == -1 {
        return Rejected(NoPlanId);
      }
      maxNodeId := if maxNodeId < e.nodeId then e.nodeId else maxNodeId;
      if testStack == [] || e.planId != testStack[|testStack| - 1].planId {
        outcome := DropEnd(e);
      } else {
        outcome := EndInnermost(e);
      }
    }

    /** The end of something other than the innermost running entity: fill the gap and drop the result. */
    method DropEnd(e: LiveEvent) returns (outcome: Outcome)
      requires Valid() && e.TestEnd?
      modifies this, tracker.repr
      ensures Valid() && fresh(tracker.repr - old(tracker.repr)) && run == old(run)
      ensures Step(Abs(), outcome) == LiveSession.DropEnd(tracker.root, old(Abs()), e)
    {
      hide PlanWalk.Valid, PlanWalk.Next, PlanWalk.Remaining, LogOk, LiveSession.AdvancePlan;
      var event := tracker.PeekEvent();
      if event.None? {
        return Rejected(PlanOver);
      }
      outcome := AdvancePlan(e.planId, false);
      if outcome.Rejected? {
        return;
      }
      event := tracker.PeekEvent();
      outcome := if event.None? then Rejected(PlanOver) else Accepted;
    }

    /** The end of the innermost running entity. */
    method EndInnermost(e: LiveEvent) returns (outcome: Outcome)
      requires Valid() && e.TestEnd? && testStack != []
      modifies this, tracker.repr
      ensures Valid() && fresh(tracker.repr - old(tracker.repr)) && run == old(run)
      ensures Step(Abs(), outcome) == LiveSession.EndInnermost(tracker.root, old(Abs()), e)
    {
      hide PlanWalk.Valid, PlanWalk.Next, PlanWalk.Remaining, PlanWalk.SkipTo, LogOk, CloseEnded;
      var event := tracker.PeekEvent();
      if event.None? {
        return Rejected(PlanOver);
      }
      if event.value.1 {
        PlanWalk.SkipToExact(tracker.root, tracker.Abs(), e.planId, false);
        tracker.SkipUntil(e.planId, false);
        event := tracker.PeekEvent();
        if event.None? {
          return Rejected(PlanOver);
        }
      }
      outcome := CloseExpected(event.value.1, e);
    }

    /** Check the innermost running entity against the event and close its result. */
    method CloseExpected(started: bool, e: LiveEvent) returns (outcome: Outcome)
      requires Valid() && e.TestEnd? && testStack != []
      requires PlanWalk.Peek(tracker.Abs()).Some? && PlanWalk.Peek(tracker.Abs()).value.enter == started
      modifies this, tracker.repr
      ensures Valid() && fresh(tracker.repr - old(tracker.repr)) && run == old(run)
      ensures Step(Abs(), outcome) == CloseEnded(tracker.root, old(Abs()), e)
    {
      hide PlanWalk.Valid, PlanWalk.Next, LogOk, CloseTop;
      if started {
        return Rejected(Assertion);
      }
      var top := testStack[|testStack| - 1];
      if top.nodeId != LOST_ITEM_NODE_ID && top.nodeId != e.nodeId {
        return Rejected(WrongNode);
      }
      TickKeepsLog(Log(), e.ts);
      CloseKeepsLog(Log().(lastTs := e.ts), false);
      lastTs := e.ts;
      if ExecutingTest() && !e.obtained {
        return Rejected(MissingData);
      }
      PopResult(false);
      tracker.NextEvent();
      outcome := Accepted;
    }

    /** Process the events up to the first one that is rejected. */
    method Feed(events: seq<LiveEvent>) returns (outcome: Outcome)
      requires Valid()
      modifies this, tracker.repr
      ensures Valid() && fresh(tracker.repr - old(tracker.repr)) && run == old(run)
      ensures Step(Abs(), outcome) == LiveSession.Feed(tracker.root, old(Abs()), events)
    {
      hide PlanWalk.Valid, LogOk, StepStart, StepEnd;
      ghost var goal := LiveSession.Feed(tracker.root, Abs(), events);
      for i := 0 to |events|
        invariant Valid() && fresh(tracker.repr - old(tracker.repr)) && run == old(run)
        invariant LiveSession.Feed(tracker.root, Abs(), events[i..]) == goal
      {
        match events[i] {
          case TestStart(_, _, _, _, _, _, _) => outcome := HandleTestStart(events[i]);
          case TestEnd(_, _, _, _) => outcome := HandleTestEnd(events[i]);
          case Incomplete => outcome := Rejected(MissingData);
        }
        assert events[i..][0] == events[i] && events[i..][1..] == events[i + 1..];
        if outcome.Rejected? {
          return;
        }
      }
      outcome := Accepted;
    }

    /** Finish everything that is running, then the run itself. */
    method FatalError()
      requires Valid()
      modifies this
      ensures Valid() && maxNodeId == old(maxNodeId)
      ensures Log() == Tick(CloseAll(old(Log()))) && run == Run(Some(lastTs), Interrupted)
    {
      hide LogOk, CloseTop;
      ghost var goal := CloseAll(Log());
      while testStack != []
        invariant Valid() && maxNodeId == old(maxNodeId)
        invariant CloseAll(Log()) == goal
        decreases |testStack|
      {
        TopInRange(Log());
        TickKeepsLog(Log(), lastTs + 1);
        CloseKeepsLog(Tick(Log()), true);
        TsMicrostep();
        PopResult(true);
      }
      TickKeepsLog(Log(), lastTs + 1);
      TsMicrostep();
      run := Run(Some(lastTs), Interrupted);
    }

    /** A chunk of the stream: if an event is rejected the import is over, with nothing left open, every result
        finished and the run finished at the last of the timestamps given out. */
    method FeedRequest(events: seq<LiveEvent>) returns (outcome: Outcome)
      requires Valid()
      modifies this, tracker.repr
      ensures Valid() && fresh(tracker.repr - old(tracker.repr))
      ensures var r := LiveSession.Feed(tracker.root, old(Abs()), events);
              && outcome == r.outcome
              && (outcome.Accepted? ==> Abs() == r.s && run == old(run))
              && (outcome.Rejected? ==>
                    && AllClosed(r.s.log, Log().(lastTs := lastTs - 1))
                    && Kept(r.s.log, Log())
                    && lastTs == r.s.log.lastTs + |r.s.log.stack| + 1 && run == Run(Some(lastTs), Interrupted))
    {
      hide PlanWalk.Valid, LogOk, LiveSession.Feed, CloseAll, Kept;
      outcome := Feed(events);
      if outcome.Rejected? {
        ghost var log := Log();
        FatalErrorClosesAll(log);
        FatalError();
        KeptSelf(CloseAll(log), lastTs);
        KeptTransitive(log, CloseAll(log), Log());
      }
    }

    /** Finish the run as reported, whatever is still open. */
    method Finish(ts: int)
      requires Valid()
      modifies this
      ensures Valid() && maxNodeId == old(maxNodeId)
      ensures Log() == old(Log()).(lastTs := ts) && run == Run(Some(ts), Done)
    {
      hide LogOk;
      TickKeepsLog(Log(), ts);
      lastTs := ts;
      run := Run(Some(ts), Done);
    }
  }

  lemma {:induction false} TopInRange(log: Log)
    requires LogOk(log)
    ensures log.stack != [] ==> Innermost(log.stack).result < |log.results|
  {}
}
