/** The main results about the live import protocol: which assertions can never fail, exactly when the
    two stacks keep mirroring each other, and what filling a gap does. */
module LiveProtocol {
  import opened Plans
  import opened PlanWalk
  import opened LiveSession
  import opened LiveResults
  import opened LiveMirror

  /** What a session is between events: consistent results, and two stacks that agree. */
  ghost predicate InStep(root: Plan, s: Session) {
    TestsAreLeaves(root) && Valid(root, s.walk) && LogOk(s.log) && Mirror(s.walk, s.log)
  }

  function FillAll(log: Log, evs: seq<Event>): Log
    decreases |evs|
  {
    if evs == [] then log else FillAll(FillEvent(log, evs[0]), evs[1..])
  }

  lemma {:induction false} BeginInStep(root: Plan, runStart: int)
    requires TestsAreLeaves(root)
    ensures InStep(root, Begin(root, runStart))
  {
    assert OpenFrames(Start(root)) == [];
  }

  // ---------- filling gaps ----------

  lemma {:induction false} TimestampsDoNotMatter(w: Walk, log: Log, ts: int)
    requires LogOk(log) && Mirror(w, log)
    ensures LogOk(log.(lastTs := ts)) && Mirror(w, log.(lastTs := ts))
    ensures log.stack != [] ==> Innermost(log.stack).result < |log.results|
  {
    TickKeepsLog(log, ts);
  }

  /** One step of gap filling: its assertion holds, and the two stacks move together. */
  lemma {:induction false} FillStep(root: Plan, s: Session)
    requires InStep(root, s) && s.walk.frames != []
    ensures var e := Peek(s.walk).value;
            && CanFill(s.log, e)
            && InStep(root, s.(walk := Next(s.walk), log := FillEvent(s.log, e)))
  {
    hide LogOk, PlanWalk.Valid, Mirror, Next, OpenResult, CloseTop;
    var e := Peek(s.walk).value;
    NextValid(root, s.walk);
    FillKeepsLog(s.log, e);
    TimestampsDoNotMatter(s.walk, s.log, s.log.lastTs + 1);
    if e.enter {
      NotInsideATest(root, s.walk, s.log);
      OpenKeepsMirror(root, s.walk, Tick(s.log), e.plan.name, LOST_ITEM_NODE_ID, LOST_TIN);
    } else {
      CloseKeepsMirror(root, s.walk, Tick(s.log), true);
    }
  }

  /** Filling a gap never fails an assertion, keeps the mirror, and leaves one LOST opening or closing
      for each plan event before the target. */
  lemma {:induction false} FillToExact(root: Plan, s: Session, target: int, start: bool)
    requires InStep(root, s)
    ensures var r := FillTo(root, s, target, start);
            && r.outcome.Accepted?
            && InStep(root, r.s)
            && r.s.maxNode == s.maxNode
            && r.s.walk == SkipTo(root, s.walk, target, start)
            && r.s.log == FillAll(s.log, Before(Remaining(s.walk), target, start))
    decreases |Remaining(s.walk)|
  {
    hide InStep, Valid, Remaining, Next, FillEvent, CanFill;
    InStepIsValid(root, s);
    StepRefinesTour(root, s.walk);
    var evs := Remaining(s.walk);
    if Reached(s.walk, target, start) {
      assert Before(evs, target, start) == [];
    } else {
      SkipToStep(root, s.walk, target, start);
      FillStep(root, s);
      FillToExact(root, s.(walk := Next(s.walk), log := FillEvent(s.log, evs[0])), target, start);
      BeforeStep(evs, target, start);
    }
  }

  lemma {:induction false} InStepIsValid(root: Plan, s: Session)
    requires InStep(root, s)
    ensures Valid(root, s.walk) && LogOk(s.log) && Mirror(s.walk, s.log) && TestsAreLeaves(root)
  {}

  /** The gap an event closes: the plan events up to the target's start, or up to and with its end. */
  function Gap(evs: seq<Event>, target: int, start: bool): (r: seq<Event>)
    ensures r <= evs
  {
    var n := |Before(evs, target, start)|;
    if start || n == |evs| then evs[..n] else evs[..n + 1]
  }

  lemma {:induction false} FillAllSnoc(log: Log, evs: seq<Event>, e: Event)
    ensures FillAll(log, evs + [e]) == FillEvent(FillAll(log, evs), e)
    decreases |evs|
  {
    if evs == [] {
      assert evs + [e] == [e];
    } else {
      assert (evs + [e])[1..] == evs[1..] + [e];
      FillAllSnoc(FillEvent(log, evs[0]), evs[1..], e);
    }
  }

  /** Gap filling is exact: it consumes the plan up to the target and fills in exactly the events of the
      gap.  If the target does not occur any more, it ends with both stacks empty. */
  lemma {:induction false} AdvanceExact(root: Plan, s: Session, target: int, start: bool)
    requires InStep(root, s)
    ensures var r := AdvancePlan(root, s, target, start);
            var gap := Gap(Remaining(s.walk), target, start);
            && r.outcome.Accepted?
            && InStep(root, r.s)
            && r.s.maxNode == s.maxNode
            && Remaining(r.s.walk) == Remaining(s.walk)[|gap|..]
            && r.s.log == FillAll(s.log, gap)
            && (start && r.s.walk.frames != [] ==> Top(r.s.walk.frames).id == target && Top(r.s.walk.frames).running)
            && (target < 0 || !HasEvent(Remaining(s.walk), target, start) ==>
                  r.s.walk.frames == [] && r.s.log.stack == [])
  {
    hide InStep, Valid, Remaining, Next, FillEvent, CanFill, SkipTo, FillTo, HasEvent;
    InStepIsValid(root, s);
    FillToValid(root, s, target, start);
    FillToExact(root, s, target, start);
    SkipToExact(root, s.walk, target, start);
    var evs := Remaining(s.walk);
    var f := FillTo(root, s, target, start);
    StepRefinesTour(root, f.s.walk);
    var n := |Before(evs, target, start)|;
    assert evs[..n] == Before(evs, target, start);
    if f.s.walk.frames == [] {
      InStepIsValid(root, f.s);
      EmptyPlanEmptyStack(f.s.walk, f.s.log);
    } else if !start {
      FillStep(root, f.s);
      FillAllSnoc(s.log, evs[..n], evs[n]);
      assert evs[..n + 1] == evs[..n] + [evs[n]];
    }
  }

  lemma {:induction false} EmptyPlanEmptyStack(w: Walk, log: Log)
    requires Mirror(w, log) && w.frames == []
    ensures log.stack == []
  {
    assert |StackShape(log.stack)| == |Shape(OpenFrames(w))|;
  }

  // ---------- one event ----------

  /** Does this start event make the tracker skip, unfilled, to somewhere other than a later sibling of the
      item it expects? */
  predicate Leaps(s: Session, e: LiveEvent) {
    && e.TestStart?
    && s.walk.frames != []
    && !StartGap(s, e)
    && Top(s.walk.frames).id < e.planId
    && !LaterSibling(s.walk, e.planId)
  }

  /** A start event fails none of the assertions about the stacks, and if it is accepted the stacks mirror
      each other afterwards if and only if it did not leap. */
  lemma {:induction false} StartKeepsMirror(root: Plan, s: Session, e: LiveEvent)
    requires InStep(root, s) && e.TestStart?
    ensures var r := StepStart(root, s, e);
            && r.outcome != Rejected(Assertion)
            && (r.outcome.Accepted? ==> (InStep(root, r.s) <==> !Leaps(s, e)))
  {
    hide InStep, Valid, Remaining, SkipTo, AdvancePlan, HasEvent, OpenStarted, LaterSibling, StartGap, ExecutingTest;
    InStepIsValid(root, s);
    if e.planId != -1 && s.walk.frames != [] {
      if StartGap(s, e) {
        AdvanceExact(root, s, e.planId, true);
        var a := AdvancePlan(root, s, e.planId, true);
        if a.s.walk.frames != [] {
          var s1 := a.s.(maxNode := e.nodeId);
          SameStepAnyNode(root, a.s, e.nodeId);
          InStepNotInTest(root, s1);
          OpenStartedInStep(root, s1, e);
        }
      } else {
        var s1 := s.(maxNode := e.nodeId);
        SameStepAnyNode(root, s, e.nodeId);
        NoGapMeansRunning(s, e);
        InStepNotInTest(root, s1);
        if Top(s1.walk.frames).id < e.planId {
          SkipToExact(root, s1.walk, e.planId, true);
          var s2 := s1.(walk := SkipTo(root, s1.walk, e.planId, true));
          if s2.walk.frames != [] {
            AfterSilentSkip(root, s1, e);
          }
        } else {
          OpenStartedInStep(root, s1, e);
        }
      }
    }
  }

  lemma {:induction false} NoGapMeansRunning(s: Session, e: LiveEvent)
    requires e.TestStart? && s.walk.frames != [] && !StartGap(s, e)
    ensures Top(s.walk.frames).running
  {}

  lemma {:induction false} SameStepAnyNode(root: Plan, s: Session, node: int)
    requires InStep(root, s)
    ensures InStep(root, s.(maxNode := node))
  {}

  lemma {:induction false} InStepNotInTest(root: Plan, s: Session)
    requires InStep(root, s) && s.walk.frames != [] && Top(s.walk.frames).running
    ensures !ExecutingTest(s.log)
  {
    NotInsideATest(root, s.walk, s.log);
  }

  lemma {:induction false} OpenStartedInStep(root: Plan, s: Session, e: LiveEvent)
    requires InStep(root, s) && e.TestStart? && s.walk.frames != [] && Top(s.walk.frames).running
    requires Valid(root, s.walk)
    ensures var r := OpenStarted(root, s, e);
            r.outcome != Rejected(Assertion) && (r.outcome.Accepted? ==> InStep(root, r.s))
  {
    hide LogOk, Valid, Mirror, Next, OpenResult;
    NextValid(root, s.walk);
    TimestampsDoNotMatter(s.walk, s.log, e.ts);
    OpenKeepsLog(s.log.(lastTs := e.ts), e.name, e.nodeType, e.nodeId, e.planId, e.tin);
    OpenKeepsMirror(root, s.walk, s.log.(lastTs := e.ts), e.name, e.nodeId, e.tin);
  }

  /** After a silent skip the new result fits the mirror exactly when the skip ended at a later sibling. */
  lemma {:induction false} AfterSilentSkip(root: Plan, s: Session, e: LiveEvent)
    requires InStep(root, s) && Valid(root, s.walk) && e.TestStart?
    requires s.walk.frames != [] && Top(s.walk.frames).running && Top(s.walk.frames).id < e.planId
    requires SkipTo(root, s.walk, e.planId, true).frames != []
    ensures var s2 := s.(walk := SkipTo(root, s.walk, e.planId, true));
            && Valid(root, s2.walk)
            && var r := OpenStarted(root, s2, e);
            && r.outcome != Rejected(Assertion)
            && (r.outcome.Accepted? ==> (InStep(root, r.s) <==> LaterSibling(s.walk, e.planId)))
  {
    hide LogOk, Valid, Next, SkipTo, LaterSibling, HasEvent, Remaining, OpenFrames;
    SilentSkipToStart(root, s.walk, e.planId);
    SkipToExact(root, s.walk, e.planId, true);
    var s2 := s.(walk := SkipTo(root, s.walk, e.planId, true));
    NextValid(root, s2.walk);
    if LaterSibling(s.walk, e.planId) {
      OpenStartedInStep(root, s2, e);
    } else {
      NextShape(root, s2.walk);
      var f := Top(s2.walk.frames);
      PushInjective(StackShape(s2.log.stack), Shape(OpenFrames(s2.walk)),
                    (e.planId, e.nodeType), (f.id as int, f.plan.nodeType));
      PushedShape(s2.log.(lastTs := e.ts), e);
    }
  }

  lemma {:induction false} PushInjective<T>(a: seq<T>, b: seq<T>, x: T, y: T)
    ensures a + [x] == b + [y] ==> a == b
  {
    if a + [x] == b + [y] {
      assert a == (a + [x])[..|a|];
    }
  }

  lemma {:induction false} PushedShape(log: Log, e: LiveEvent)
    requires e.TestStart?
    ensures StackShape(OpenResult(log, e.name, e.nodeType, e.nodeId, e.planId, e.tin).stack)
         == StackShape(log.stack) + [(e.planId, e.nodeType)]
  {}

  /** An end event never fails an assertion about the stacks and always keeps the mirror. */
  lemma {:induction false} EndKeepsMirror(root: Plan, s: Session, e: LiveEvent)
    requires InStep(root, s) && e.TestEnd?
    ensures var r := StepEnd(root, s, e);
            r.outcome != Rejected(Assertion) && (r.outcome.Accepted? ==> InStep(root, r.s))
  {
    hide InStep, Valid, Remaining, SkipTo, AdvancePlan, HasEvent, CloseEnded;
    InStepIsValid(root, s);
    var s1 := s.(maxNode := if s.maxNode < e.nodeId then e.nodeId else s.maxNode);
    SameStepAnyNode(root, s, s1.maxNode);
    if e.planId != -1 && s1.walk.frames != [] {
      if s1.log.stack == [] || e.planId != Innermost(s1.log.stack).planId {
        AdvanceExact(root, s1, e.planId, false);
      } else {
        MirroredTop(root, s1.walk, s1.log);
        if Top(s1.walk.frames).running {
          assert e.planId == s1.walk.frames[|s1.walk.frames| - 2].id;
          SkipToExact(root, s1.walk, e.planId, false);
          SilentSkipToEnd(root, s1.walk);
          var s2 := s1.(walk := SkipTo(root, s1.walk, e.planId, false));
          SameShapeInStep(root, s1, s2);
          CloseEndedInStep(root, s2, e);
        } else {
          CloseEndedInStep(root, s1, e);
        }
      }
    }
  }

  lemma {:induction false} SameShapeInStep(root: Plan, s: Session, s': Session)
    requires InStep(root, s) && Valid(root, s'.walk) && s'.log == s.log
    requires Shape(OpenFrames(s'.walk)) == Shape(OpenFrames(s.walk))
    ensures InStep(root, s')
  {}

  lemma {:induction false} CloseEndedInStep(root: Plan, s: Session, e: LiveEvent)
    requires InStep(root, s) && e.TestEnd? && s.walk.frames != [] && !Top(s.walk.frames).running && s.log.stack != []
    requires Valid(root, s.walk)
    ensures var r := CloseEnded(root, s, e);
            r.outcome != Rejected(Assertion) && (r.outcome.Accepted? ==> InStep(root, r.s))
  {
    hide LogOk, Valid, Mirror, Next, CloseTop;
    NextValid(root, s.walk);
    TimestampsDoNotMatter(s.walk, s.log, e.ts);
    CloseKeepsLog(s.log.(lastTs := e.ts), false);
    CloseKeepsMirror(root, s.walk, s.log.(lastTs := e.ts), false);
  }

  // ---------- whole runs ----------

  /** No event of the run leaps. */
  predicate NoLeaps(root: Plan, s: Session, events: seq<LiveEvent>)
    requires Valid(root, s.walk)
    decreases |events|
  {
    events == [] || (!Leaps(s, events[0])
                     && var r := StepEvent(root, s, events[0]);
                        r.outcome.Accepted? ==> NoLeaps(root, r.s, events[1..]))
  }

  /** Over every run without leaps, the two stacks mirror each other after every accepted event and none of
      the assertions about them ever fails. */
  lemma {:induction false} RunKeepsMirror(root: Plan, s: Session, events: seq<LiveEvent>)
    requires InStep(root, s) && Valid(root, s.walk) && NoLeaps(root, s, events)
    ensures var r := Feed(root, s, events);
            r.outcome != Rejected(Assertion) && (r.outcome.Accepted? ==> InStep(root, r.s))
    decreases |events|
  {
    hide InStep, Valid, StepStart, StepEnd, Leaps;
    if events != [] {
      match events[0] {
        case TestStart(_, _, _, _, _, _, _) => StartKeepsMirror(root, s, events[0]);
        case TestEnd(_, _, _, _) => EndKeepsMirror(root, s, events[0]);
        case Incomplete =>
      }
      var r := StepEvent(root, s, events[0]);
      if r.outcome.Accepted? {
        RunKeepsMirror(root, r.s, events[1..]);
      }
    }
  }
}
