/** The live import protocol as a state machine over values: each event from Test Environment is one
    step, an exception or a failed assertion is a rejection, and a fatal error closes what is open. */
module LiveSession {
  import opened Wrappers
  import opened Plans
  import opened PlanWalk

  const LOST_ITEM_NODE_ID := -1
  const LOST_TIN := -2

  /** A row of the results table; `parent` is the position of the enclosing result. */
  datatype TestResult = TestResult(seqno: nat, name: string, nodeType: string, parent: Option<nat>, tin: int,
                                   start: int, finish: Option<int>, lost: bool)

  /** An entry of the stack of running entities; `result` is the position of its row. */
  datatype OpenTest = OpenTest(nodeType: string, seqno: nat, nodeId: int, planId: int, result: nat)

  datatype Log = Log(results: seq<TestResult>, stack: seq<OpenTest>, seqno: nat, lastTs: int)

  datatype LiveEvent =
    | TestStart(nodeId: int, parent: int, planId: int, ts: int, nodeType: string, name: string, tin: int)
    | TestEnd(nodeId: int, planId: int, ts: int, obtained: bool) // does it carry an obtained result?
    | Incomplete // a required attribute is missing

  /** The status a run was last set to; `Given` is one that its metadata brought along. */
  datatype RunStatus = Given | Running | Done | Interrupted | Error

  datatype Run = Run(finish: Option<int>, status: RunStatus)

  datatype Reason = MissingData | NoPlanId | PlanOver | WrongItem | WrongParent | WrongPlanId | WrongNode | Assertion
  datatype Outcome = Accepted | Rejected(reason: Reason)

  datatype Session = Session(walk: Walk, log: Log, maxNode: int)
  datatype Step = Step(s: Session, outcome: Outcome)

  // ---------- elementary changes of the log ----------

  function Tick(log: Log): Log {
    log.(lastTs := log.lastTs + 1)
  }

  predicate ExecutingTest(log: Log) {
    log.stack != [] && Innermost(log.stack).nodeType == TEST
  }

  function Innermost(stack: seq<OpenTest>): OpenTest
    requires stack != []
  {
    stack[|stack| - 1]
  }

  function TopNodeId(log: Log): int {
    if log.stack == [] then 0 else Innermost(log.stack).nodeId
  }

  function Parent(stack: seq<OpenTest>): Option<nat> {
    if stack == [] then None else Some(Innermost(stack).result)
  }

  function OpenResult(log: Log, name: string, nodeType: string, nodeId: int, planId: int, tin: int): Log {
    Log(log.results + [TestResult(log.seqno, name, nodeType, Parent(log.stack), tin, log.lastTs, None, false)],
        log.stack + [OpenTest(nodeType, log.seqno, nodeId, planId, |log.results|)],
        log.seqno + 1,
        log.lastTs)
  }

  function CloseTop(log: Log, lost: bool): Log {
    if log.stack == [] || Innermost(log.stack).result >= |log.results| then log
    else
      var i := Innermost(log.stack).result;
      log.(results := log.results[i := log.results[i].(finish := Some(log.lastTs), lost := lost)],
           stack := Init(log.stack))
  }

  // ---------- filling gaps ----------

  /** The assertions made on entering and leaving a skipped item. */
  predicate CanFill(log: Log, e: Event) {
    if e.enter then !ExecutingTest(log) else log.stack != []
  }

  /** One skipped plan event leaves one LOST result opened or closed, a microsecond later. */
  function FillEvent(log: Log, e: Event): Log {
    if e.enter then OpenResult(Tick(log), e.plan.name, e.plan.nodeType, LOST_ITEM_NODE_ID, e.id, LOST_TIN)
    else CloseTop(Tick(log), true)
  }

  function FillTo(root: Plan, s: Session, target: int, start: bool): Step
    requires Valid(root, s.walk)
    decreases |Remaining(s.walk)|
  {
    if Reached(s.walk, target, start) then Step(s, Accepted)
    else
      SkipToStep(root, s.walk, target, start);
      var e := Peek(s.walk).value;
      if !CanFill(s.log, e) then Step(s, Rejected(Assertion))
      else FillTo(root, s.(walk := Next(s.walk), log := FillEvent(s.log, e)), target, start)
  }

  /** Fast-forward to the target's start, or to just after its end. */
  function AdvancePlan(root: Plan, s: Session, target: int, start: bool): (r: Step)
    requires Valid(root, s.walk)
    ensures Valid(root, r.s.walk)
  {
    FillToValid(root, s, target, start);
    var r := FillTo(root, s, target, start);
    if r.outcome.Rejected? || start || r.s.walk.frames == [] then r
    else
      var e := Peek(r.s.walk).value;
      NextValid(root, r.s.walk);
      if !CanFill(r.s.log, e) then Step(r.s, Rejected(Assertion))
      else Step(r.s.(walk := Next(r.s.walk), log := FillEvent(r.s.log, e)), Accepted)
  }

  lemma {:induction false} FillToValid(root: Plan, s: Session, target: int, start: bool)
    requires Valid(root, s.walk)
    ensures var r := FillTo(root, s, target, start);
            Valid(root, r.s.walk) && (r.outcome.Accepted? ==> Reached(r.s.walk, target, start))
    decreases |Remaining(s.walk)|
  {
    if !Reached(s.walk, target, start) {
      SkipToStep(root, s.walk, target, start);
      var e := Peek(s.walk).value;
      if CanFill(s.log, e) {
        FillToValid(root, s.(walk := Next(s.walk), log := FillEvent(s.log, e)), target, start);
      }
    }
  }

  // ---------- events ----------

  /** Is the start event a sign that earlier events were lost? */
  predicate StartGap(s: Session, e: LiveEvent)
    requires e.TestStart? && s.walk.frames != []
  {
    !Top(s.walk.frames).running || ExecutingTest(s.log) || e.nodeId > s.maxNode + 1
  }

  function StepStart(root: Plan, s: Session, e: LiveEvent): (r: Step)
    requires Valid(root, s.walk) && e.TestStart?
    ensures Valid(root, r.s.walk)
  {
    if e.planId == -1 then Step(s, Rejected(NoPlanId))
    else if s.walk.frames == [] then Step(s, Rejected(PlanOver))
    else
      var a := CatchUp(root, s, e);
      if a.outcome.Rejected? then a else SkipAndOpen(root, a.s.(maxNode := e.nodeId), e)
  }

  /** Fill the gap that a start event reveals. */
  function CatchUp(root: Plan, s: Session, e: LiveEvent): (r: Step)
    requires Valid(root, s.walk) && e.TestStart? && s.walk.frames != []
    ensures Valid(root, r.s.walk) && (r.outcome.Accepted? ==> r.s.walk.frames != [])
  {
    var a := if StartGap(s, e) then AdvancePlan(root, s, e.planId, true) else Step(s, Accepted);
    if a.outcome.Accepted? && a.s.walk.frames == [] then Step(a.s, Rejected(PlanOver)) else a
  }

  /** Skip, without filling, items that were never started; then open the result. */
  function SkipAndOpen(root: Plan, s: Session, e: LiveEvent): (r: Step)
    requires Valid(root, s.walk) && e.TestStart? && s.walk.frames != []
    ensures Valid(root, r.s.walk)
  {
    SkipToExact(root, s.walk, e.planId, true);
    var s' := if Top(s.walk.frames).id < e.planId then s.(walk := SkipTo(root, s.walk, e.planId, true)) else s;
    if ExecutingTest(s'.log) then Step(s', Rejected(Assertion))
    else if s'.walk.frames == [] then Step(s', Rejected(PlanOver))
    else OpenStarted(root, s', e)
  }

  /** The checks made once the expected plan item is known, and the opening of the new result. */
  function OpenStarted(root: Plan, s: Session, e: LiveEvent): (r: Step)
    requires Valid(root, s.walk) && e.TestStart? && s.walk.frames != []
    ensures Valid(root, r.s.walk)
  {
    NextValid(root, s.walk);
    var f := Top(s.walk.frames);
    if !f.running then Step(s, Rejected(Assertion))
    else if f.plan.name != e.name || f.plan.nodeType != e.nodeType then Step(s, Rejected(WrongItem))
    else if TopNodeId(s.log) != LOST_ITEM_NODE_ID && TopNodeId(s.log) != e.parent then Step(s, Rejected(WrongParent))
    else if e.planId != f.id then Step(s, Rejected(WrongPlanId))
    else
      Step(s.(walk := Next(s.walk),
              log := OpenResult(s.log.(lastTs := e.ts), e.name, e.nodeType, e.nodeId, e.planId, e.tin)),
           Accepted)
  }

  function StepEnd(root: Plan, s: Session, e: LiveEvent): (r: Step)
    requires Valid(root, s.walk) && e.TestEnd?
    ensures Valid(root, r.s.walk)
  {
    if e.planId == -1 then Step(s, Rejected(NoPlanId))
    else
      var s1 := s.(maxNode := if s.maxNode < e.nodeId then e.nodeId else s.maxNode);
      if s1.log.stack == [] || e.planId != Innermost(s1.log.stack).planId then DropEnd(root, s1, e)
      else EndInnermost(root, s1, e)
  }

  /** The end of something other than the innermost open result: fill the gap and drop the result. */
  function DropEnd(root: Plan, s: Session, e: LiveEvent): (r: Step)
    requires Valid(root, s.walk) && e.TestEnd?
    ensures Valid(root, r.s.walk)
  {
    if s.walk.frames == [] then Step(s, Rejected(PlanOver))
    else
      var a := AdvancePlan(root, s, e.planId, false);
      if a.outcome.Rejected? then a
      else if a.s.walk.frames == [] then Step(a.s, Rejected(PlanOver))
      else a
  }

  /** The end of the innermost open result: skip, without filling, its children that were never started. */
  function EndInnermost(root: Plan, s: Session, e: LiveEvent): (r: Step)
    requires Valid(root, s.walk) && e.TestEnd? && s.log.stack != []
    ensures Valid(root, r.s.walk)
  {
    if s.walk.frames == [] then Step(s, Rejected(PlanOver))
    else
      SkipToExact(root, s.walk, e.planId, false);
      var s' := if Top(s.walk.frames).running then s.(walk := SkipTo(root, s.walk, e.planId, false)) else s;
      if s'.walk.frames == [] then Step(s', Rejected(PlanOver)) else CloseEnded(root, s', e)
  }

  function CloseEnded(root: Plan, s: Session, e: LiveEvent): (r: Step)
    requires Valid(root, s.walk) && e.TestEnd? && s.walk.frames != [] && s.log.stack != []
    ensures Valid(root, r.s.walk)
  {
    NextValid(root, s.walk);
    var t := Innermost(s.log.stack);
    if Top(s.walk.frames).running then Step(s, Rejected(Assertion))
    else if t.nodeId != LOST_ITEM_NODE_ID && t.nodeId != e.nodeId then Step(s, Rejected(WrongNode))
    else if t.nodeType == TEST && !e.obtained then Step(s.(log := s.log.(lastTs := e.ts)), Rejected(MissingData))
    else Step(s.(walk := Next(s.walk), log := CloseTop(s.log.(lastTs := e.ts), false)), Accepted)
  }

  function StepEvent(root: Plan, s: Session, e: LiveEvent): (r: Step)
    requires Valid(root, s.walk)
    ensures Valid(root, r.s.walk)
  {
    match e
    case TestStart(_, _, _, _, _, _, _) => StepStart(root, s, e)
    case TestEnd(_, _, _, _) => StepEnd(root, s, e)
    case Incomplete => Step(s, Rejected(MissingData))
  }

  /** Process events in order up to the first one that is rejected. */
  function Feed(root: Plan, s: Session, events: seq<LiveEvent>): (r: Step)
    requires Valid(root, s.walk)
    ensures Valid(root, r.s.walk)
    decreases |events|
  {
    if events == [] then Step(s, Accepted)
    else
      var r := StepEvent(root, s, events[0]);
      if r.outcome.Rejected? then r else Feed(root, r.s, events[1..])
  }

  function Begin(root: Plan, runStart: int): Session {
    Session(Start(root), Log([], [], 1, runStart), 0)
  }

  /** Everything that is open is closed as lost, innermost first. */
  function CloseAll(log: Log): Log
    decreases |log.stack|
  {
    if log.stack == [] || Innermost(log.stack).result >= |log.results| then log else CloseAll(CloseTop(Tick(log), true))
  }
}
