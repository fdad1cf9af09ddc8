/** What one event does, said from outside: when it is accepted, and what it leaves.  For a session in step the
    plan events still to come, the node numbers seen and the open results decide everything. */
module LiveSteps {
  import opened Wrappers
  import opened Plans
  import opened PlanWalk
  import opened LiveSession
  import opened LiveResults
  import opened LiveMirror
  import opened LiveProtocol
  import opened LiveStream

  /** Does the start of node `nodeId` show that something was missed: a node number was skipped, a node should
      have ended first, or a test is still running? */
  predicate Missed(s: Session, nodeId: int) {
    || nodeId > s.maxNode + 1
    || (s.walk.frames != [] && !Top(s.walk.frames).running)
    || (s.log.stack != [] && Innermost(s.log.stack).nodeType == TEST)
  }

  /** The plan event that the target event is. */
  function Target(evs: seq<Event>, target: int, start: bool): Option<Event> {
    var n := |Before(evs, target, start)|;
    if n < |evs| then Some(evs[n]) else None
  }

  lemma {:induction false} TargetMatches(evs: seq<Event>, target: int, start: bool)
    ensures var n := |Before(evs, target, start)|;
            && (Target(evs, target, start).Some? <==> n < |evs|)
            && (n < |evs| ==> evs[n].id == target && evs[n].enter == start)
            && (Target(evs, target, start).Some? <==> target >= 0 && HasEvent(evs, target, start))
  {
    if evs != [] && !(evs[0].id == target && evs[0].enter == start) {
      BeforeStep(evs, target, start);
      TargetMatches(evs[1..], target, start);
    }
  }

  /** The log before the new result is opened: one LOST opening or closing per plan event missed. */
  function CaughtUp(s: Session, e: LiveEvent): Log
    requires e.TestStart?
  {
    if Missed(s, e.nodeId) then FillAll(s.log, Before(Remaining(s.walk), e.planId, true)) else s.log
  }

  predicate ParentFits(log: Log, parent: int) {
    var node := if log.stack == [] then 0 else Innermost(log.stack).nodeId;
    node == LOST_ITEM_NODE_ID || node == parent
  }

  lemma {:induction false} OpenStartedExact(root: Plan, s: Session, e: LiveEvent)
    requires Valid(root, s.walk) && e.TestStart? && s.walk.frames != [] && Top(s.walk.frames).running
    ensures var r, f := OpenStarted(root, s, e), Top(s.walk.frames);
            && (r.outcome.Accepted? <==>
                  f.id == e.planId && f.plan.name == e.name && f.plan.nodeType == e.nodeType
                      && ParentFits(s.log, e.parent))
            && (r.outcome.Accepted? ==>
                  && r.s.log == OpenResult(s.log.(lastTs := e.ts), e.name, e.nodeType, e.nodeId, e.planId, e.tin)
                  && r.s.walk == Next(s.walk) && r.s.maxNode == s.maxNode)
  {
    hide Valid, Next, OpenResult;
  }

  /** A start event is accepted if and only if its node is still to be entered, is the plan's node, and is
      reported inside the innermost open result (or that is a LOST one).  Then the plan is just past it, and if
      something was missed every plan event up to it has been filled in as LOST, otherwise nothing. */
  lemma {:induction false} StartExact(root: Plan, s: Session, e: LiveEvent)
    requires InStep(root, s) && Valid(root, s.walk) && e.TestStart?
    ensures var r, evs := StepEvent(root, s, e), Remaining(s.walk);
            var target := Target(evs, e.planId, true);
            && (r.outcome.Accepted? <==>
                  target.Some? && target.value.plan.name == e.name && target.value.plan.nodeType == e.nodeType
                  && ParentFits(CaughtUp(s, e), e.parent))
            && (r.outcome.Accepted? ==>
                  && r.s.log == OpenResult(CaughtUp(s, e).(lastTs := e.ts), e.name, e.nodeType, e.nodeId, e.planId,
                      e.tin)
                  && r.s.maxNode == e.nodeId
                  && Remaining(r.s.walk) == evs[|Before(evs, e.planId, true)| + 1..])
  {
    hide InStep, Valid, Remaining, SkipTo, AdvancePlan, HasEvent, OpenStarted, Next, Before, Target, FillAll,
        OpenResult,
         ParentFits;
    var evs := Remaining(s.walk);
    InStepIsValid(root, s);
    StepRefinesTour(root, s.walk);
    TargetMatches(evs, e.planId, true);
    if e.planId != -1 && s.walk.frames != [] {
      assert Missed(s, e.nodeId) == StartGap(s, e);
      if StartGap(s, e) {
        StartAfterGap(root, s, e);
      } else {
        StartWithoutGap(root, s, e);
      }
    }
  }

  lemma {:induction false} StartAfterGap(root: Plan, s: Session, e: LiveEvent)
    requires InStep(root, s) && Valid(root, s.walk) && e.TestStart? && e.planId != -1 && s.walk.frames != []
    requires StartGap(s, e)
    ensures var r, evs := StepStart(root, s, e), Remaining(s.walk);
            var target, log := Target(evs, e.planId, true), FillAll(s.log, Before(evs, e.planId, true));
            && (r.outcome.Accepted? <==>
                  target.Some? && target.value.plan.name == e.name && target.value.plan.nodeType == e.nodeType
                  && ParentFits(log, e.parent))
            && (r.outcome.Accepted? ==>
                  && r.s.log == OpenResult(log.(lastTs := e.ts), e.name, e.nodeType, e.nodeId, e.planId, e.tin)
                  && r.s.maxNode == e.nodeId
                  && Remaining(r.s.walk) == evs[|Before(evs, e.planId, true)| + 1..])
  {
    hide InStep, Valid, Remaining, SkipTo, AdvancePlan, HasEvent, OpenStarted, Next, Before, FillAll, OpenResult,
         ParentFits;
    var evs := Remaining(s.walk);
    var n := |Before(evs, e.planId, true)|;
    TargetMatches(evs, e.planId, true);
    AdvanceExact(root, s, e.planId, true);
    assert evs[..n] == Before(evs, e.planId, true);
    var a := AdvancePlan(root, s, e.planId, true);
    InStepIsValid(root, a.s);
    StepRefinesTour(root, a.s.walk);
    if a.s.walk.frames != [] {
      var s1 := a.s.(maxNode := e.nodeId);
      SameStepAnyNode(root, a.s, e.nodeId);
      InStepNotInTest(root, s1);
      OpenStartedExact(root, s1, e);
      assert SkipAndOpen(root, s1, e) == OpenStarted(root, s1, e);
    }
  }

  lemma {:induction false} StartWithoutGap(root: Plan, s: Session, e: LiveEvent)
    requires InStep(root, s) && Valid(root, s.walk) && e.TestStart? && e.planId != -1 && s.walk.frames != []
    requires !StartGap(s, e)
    ensures var r, evs := StepStart(root, s, e), Remaining(s.walk);
            var target := Target(evs, e.planId, true);
            && (r.outcome.Accepted? <==>
                  target.Some? && target.value.plan.name == e.name && target.value.plan.nodeType == e.nodeType
                  && ParentFits(s.log, e.parent))
            && (r.outcome.Accepted? ==>
                  && r.s.log == OpenResult(s.log.(lastTs := e.ts), e.name, e.nodeType, e.nodeId, e.planId, e.tin)
                  && r.s.maxNode == e.nodeId
                  && Remaining(r.s.walk) == evs[|Before(evs, e.planId, true)| + 1..])
  {
    hide InStep, Valid, Remaining, SkipTo, AdvancePlan, HasEvent, OpenStarted, Next, Before, OpenResult, ParentFits;
    var evs := Remaining(s.walk);
    var s1 := s.(maxNode := e.nodeId);
    TargetMatches(evs, e.planId, true);
    StepRefinesTour(root, s.walk);
    SameStepAnyNode(root, s, e.nodeId);
    InStepNotInTest(root, s1);
    if Top(s.walk.frames).id < e.planId {
      SkipToExact(root, s.walk, e.planId, true);
      var s2 := s1.(walk := SkipTo(root, s.walk, e.planId, true));
      StepRefinesTour(root, s2.walk);
      if s2.walk.frames != [] {
        OpenStartedExact(root, s2, e);
      }
    } else {
      OpenStartedExact(root, s1, e);
      FirstIsTarget(evs, e.planId, true);
      if e.planId >= 0 {
        UpcomingEnters(root, s.walk, e.planId);
      }
    }
  }

  lemma {:induction false} FirstIsTarget(evs: seq<Event>, target: int, start: bool)
    requires evs != []
    ensures evs[0].id == target && evs[0].enter == start ==> Before(evs, target, start) == []
  {}

  /** The end of the innermost open result: accepted if and only if it is of that result's node (or that is LOST)
      and a test brings its obtained result.  It closes that result and fills in nothing. */
  lemma {:induction false} OwnEndExact(root: Plan, s: Session, e: LiveEvent)
    requires InStep(root, s) && Valid(root, s.walk) && e.TestEnd?
    requires s.log.stack != [] && e.planId == Innermost(s.log.stack).planId
    ensures var r, evs, t := StepEvent(root, s, e), Remaining(s.walk), Innermost(s.log.stack);
            && Target(evs, e.planId, false).Some?
            && (r.outcome.Accepted? <==>
                  (t.nodeId == LOST_ITEM_NODE_ID || t.nodeId == e.nodeId) && (t.nodeType == TEST ==> e.obtained))
            && (r.outcome.Accepted? ==>
                  && r.s.log == CloseTop(s.log.(lastTs := e.ts), false)
                  && r.s.maxNode == (if e.nodeId > s.maxNode then e.nodeId else s.maxNode)
                  && Remaining(r.s.walk) == evs[|Before(evs, e.planId, false)| + 1..])
  {
    hide InStep, Valid, Remaining, HasEvent, Next, Before, CloseTop, EndInnermost, CloseEnded, StepEnd, OpenFrames,
         Target, Mirror;
    var s1 := s.(maxNode := if s.maxNode < e.nodeId then e.nodeId else s.maxNode);
    InStepIsValid(root, s);
    OpenMeansPlan(s.walk, s.log);
    MirroredTop(root, s.walk, s.log);
    var w := OwnEndReached(root, s1, e);
    OwnEndTaken(root, s, e);
    CloseEndedExact(root, s1.(walk := w), e);
    StepRefinesTour(root, w);
    TargetMatches(Remaining(s.walk), e.planId, false);
  }

  lemma {:induction false} OwnEndTaken(root: Plan, s: Session, e: LiveEvent)
    requires Valid(root, s.walk) && e.TestEnd? && s.log.stack != [] && e.planId == Innermost(s.log.stack).planId
    requires e.planId >= 0
    ensures StepEvent(root, s, e)
         == EndInnermost(root, s.(maxNode := if s.maxNode < e.nodeId then e.nodeId else s.maxNode), e)
  {
    hide Valid, EndInnermost, DropEnd;
  }

  /** The walk is taken to the end of the innermost open node. */
  lemma {:induction false} OwnEndReached(root: Plan, s: Session, e: LiveEvent) returns (w: Walk)
    requires Valid(root, s.walk) && e.TestEnd? && s.walk.frames != [] && s.log.stack != [] && OpenFrames(s.walk) != []
    requires e.planId == Top(OpenFrames(s.walk)).id
    ensures Valid(root, w) && w.frames != [] && !Top(w.frames).running
    ensures EndInnermost(root, s, e) == CloseEnded(root, s.(walk := w), e)
    ensures var evs := Remaining(s.walk);
            Target(evs, e.planId, false).Some? && Remaining(w) == evs[|Before(evs, e.planId, false)|..]
  {
    hide Valid, Remaining, SkipTo, HasEvent, Next, Before, CloseEnded, Shape;
    var evs := Remaining(s.walk);
    StepRefinesTour(root, s.walk);
    TargetMatches(evs, e.planId, false);
    if Top(s.walk.frames).running {
      assert e.planId == s.walk.frames[|s.walk.frames| - 2].id;
      SkipToExact(root, s.walk, e.planId, false);
      SilentSkipToEnd(root, s.walk);
      w := SkipTo(root, s.walk, e.planId, false);
      StepRefinesTour(root, w);
    } else {
      FirstIsTarget(evs, e.planId, false);
      w := s.walk;
    }
  }

  lemma {:induction false} OpenMeansPlan(w: Walk, log: Log)
    requires Mirror(w, log) && log.stack != []
    ensures w.frames != []
  {
    assert |StackShape(log.stack)| == |Shape(OpenFrames(w))|;
  }

  lemma {:induction false} CloseEndedExact(root: Plan, s: Session, e: LiveEvent)
    requires Valid(root, s.walk) && e.TestEnd? && s.walk.frames != [] && !Top(s.walk.frames).running
            && s.log.stack != []
    ensures var r, t := CloseEnded(root, s, e), Innermost(s.log.stack);
            && (r.outcome.Accepted? <==>
                  (t.nodeId == LOST_ITEM_NODE_ID || t.nodeId == e.nodeId) && (t.nodeType == TEST ==> e.obtained))
            && (r.outcome.Accepted? ==>
                  && r.s.log == CloseTop(s.log.(lastTs := e.ts), false)
                  && r.s.walk == Next(s.walk) && r.s.maxNode == s.maxNode)
  {
    hide Valid, Next, CloseTop;
  }

  /** The end of anything else: accepted if and only if its node is still to be left and is not the whole run.
      Every plan event up to and with it is filled in as LOST, the event's result is dropped, and its number is
      remembered. */
  lemma {:induction false} OtherEndExact(root: Plan, s: Session, e: LiveEvent)
    requires InStep(root, s) && Valid(root, s.walk) && e.TestEnd? && e.planId != -1 && s.walk.frames != []
    requires s.log.stack == [] || e.planId != Innermost(s.log.stack).planId
    ensures var r, evs := StepEvent(root, s, e), Remaining(s.walk);
            && (r.outcome.Accepted? <==> e.planId > 0 && Target(evs, e.planId, false).Some?)
            && (r.outcome.Accepted? ==>
                  var n := |Before(evs, e.planId, false)| + 1;
                  && r.s.log == FillAll(s.log, evs[..n])
                  && r.s.maxNode == (if e.nodeId > s.maxNode then e.nodeId else s.maxNode)
                  && Remaining(r.s.walk) == evs[n..])
  {
    hide InStep, Valid, Remaining, AdvancePlan, HasEvent, Before, FillAll;
    var evs := Remaining(s.walk);
    var s1 := s.(maxNode := if s.maxNode < e.nodeId then e.nodeId else s.maxNode);
    TargetMatches(evs, e.planId, false);
    SameStepAnyNode(root, s, s1.maxNode);
    GapEndAccepted(root, s, e);
    AdvanceExact(root, s1, e.planId, false);
  }
}
