/** What gap filling writes: one LOST result per plan node entered in the gap, with strictly increasing
    timestamps, closed at the timestamp of that node's own exit. */
module LiveGaps {
  import opened Wrappers
  import opened Plans
  import opened PlanWalk
  import opened LiveSession
  import opened LiveResults
  import opened LiveMirror
  import opened LiveProtocol

  function EntersNum(evs: seq<Event>): nat {
    if evs == [] then 0 else EntersNum(Init(evs)) + if LastOf(evs).enter then 1 else 0
  }

  function LastOf(evs: seq<Event>): Event
    requires evs != []
  {
    evs[|evs| - 1]
  }

  /** The log after the first `n` plan events of a gap have been filled. */
  function Filled(s: Session, n: nat): Log
    requires n <= |Remaining(s.walk)|
  {
    FillAll(s.log, Remaining(s.walk)[..n])
  }

  function SessionAfter(s: Session, n: nat): Session
    requires n <= |Remaining(s.walk)|
  {
    Session(Steps(s.walk, n), Filled(s, n), s.maxNode)
  }

  lemma {:induction false} FilledInStep(root: Plan, s: Session, n: nat)
    requires InStep(root, s) && n <= |Remaining(s.walk)|
    ensures InStep(root, SessionAfter(s, n))
    ensures Remaining(Steps(s.walk, n)) == Remaining(s.walk)[n..]
  {
    hide InStep, Remaining, FillEvent, CanFill, Next, FillAll, Valid, LogOk, Mirror, TestsAreLeaves;
    var evs := Remaining(s.walk);
    if n == 0 {
      NothingFilled(s);
    } else {
      FilledInStep(root, s, n - 1);
      var before := SessionAfter(s, n - 1);
      InStepIsValid(root, before);
      StepRefinesTour(root, before.walk);
      assert evs[n - 1..][0] == evs[n - 1];
      FillStep(root, before);
      FilledSnoc(s, n - 1);
    }
  }

  lemma {:induction false} NothingFilled(s: Session)
    ensures SessionAfter(s, 0) == s
  {
    hide Remaining;
    assert Remaining(s.walk)[..0] == [];
  }

  /** Filling one more event. */
  lemma {:induction false} FilledSnoc(s: Session, n: nat)
    requires n < |Remaining(s.walk)|
    ensures Filled(s, n + 1) == FillEvent(Filled(s, n), Remaining(s.walk)[n])
  {
    hide Remaining, FillEvent, FillAll;
    var evs := Remaining(s.walk);
    assert evs[..n + 1] == evs[..n] + [evs[n]];
    FillAllSnoc(s.log, evs[..n], evs[n]);
  }

  /** The next fill is the one of event `n`, made on a log whose stack mirrors the plan. */
  lemma {:induction false} NextFill(root: Plan, s: Session, n: nat)
    requires InStep(root, s) && n < |Remaining(s.walk)|
    ensures var log, e := Filled(s, n), Remaining(s.walk)[n];
            && Filled(s, n + 1) == FillEvent(log, e)
            && LogOk(log)
            && (forall j, k :: 0 <= j < k < |log.stack| ==> log.stack[j].planId < log.stack[k].planId)
            && (!e.enter ==> log.stack != [] && Innermost(log.stack).planId == e.id)
    ensures InStep(root, SessionAfter(s, n)) && Peek(Steps(s.walk, n)) == Some(Remaining(s.walk)[n])
  {
    hide InStep, Remaining, FillEvent, FillAll, LogOk, Mirror, Valid, Peek, Steps;
    var evs := Remaining(s.walk);
    var s' := SessionAfter(s, n);
    FilledInStep(root, s, n);
    FilledSnoc(s, n);
    InStepIsValid(root, s');
    StepRefinesTour(root, s'.walk);
    assert evs[n..][0] == evs[n];
    PlanIdsIncrease(root, s'.walk, s'.log);
    if !evs[n].enter {
      ExitIsTop(root, s'.walk, s'.log, evs[n]);
    }
  }

  lemma {:induction false} ExitIsTop(root: Plan, w: Walk, log: Log, e: Event)
    requires Valid(root, w) && Mirror(w, log) && Peek(w) == Some(e) && !e.enter
    ensures log.stack != [] && Innermost(log.stack).planId == e.id
  {
    MirroredTop(root, w, log);
  }

  lemma {:induction false} PlanIdsIncrease(root: Plan, w: Walk, log: Log)
    requires Valid(root, w) && Mirror(w, log)
    ensures forall j, k :: 0 <= j < k < |log.stack| ==> log.stack[j].planId < log.stack[k].planId
  {
    forall j, k | 0 <= j < k < |log.stack|
      ensures log.stack[j].planId < log.stack[k].planId
    {
      assert |StackShape(log.stack)| == |Shape(OpenFrames(w))|;
      assert StackShape(log.stack)[j] == Shape(OpenFrames(w))[j] && StackShape(log.stack)[k] == Shape(OpenFrames(w))[k];
      var f := w.frames[..k + 1];
      assert Chain(root, f) by {
        forall i | 0 <= i < |f| - 1
          ensures Link(f[i], f[i + 1])
        {
          assert Link(w.frames[i], w.frames[i + 1]);
        }
      }
      IdRange(root, f, j);
    }
  }

  lemma {:induction false} FilledCounts(root: Plan, s: Session, n: nat)
    requires InStep(root, s) && n <= |Remaining(s.walk)|
    ensures Filled(s, n).lastTs == s.log.lastTs + n
    ensures |Filled(s, n).results| == |s.log.results| + EntersNum(Remaining(s.walk)[..n])
  {
    hide InStep, Remaining, Filled, FillEvent, EntersNum;
    var evs := Remaining(s.walk);
    if n == 0 {
      NothingFilled(s);
      EntersNone(evs);
    } else {
      FilledCounts(root, s, n - 1);
      FilledSnoc(s, n - 1);
      FillCounts(Filled(s, n - 1), evs[n - 1]);
      EntersSnoc(evs, n - 1);
    }
  }

  lemma {:induction false} EntersNone(evs: seq<Event>)
    ensures EntersNum(evs[..0]) == 0
  {}

  lemma {:induction false} EntersSnoc(evs: seq<Event>, n: nat)
    requires n < |evs|
    ensures EntersNum(evs[..n + 1]) == EntersNum(evs[..n]) + if evs[n].enter then 1 else 0
  {
    assert Init(evs[..n + 1]) == evs[..n];
  }

  lemma {:induction false} FillCounts(log: Log, e: Event)
    ensures FillEvent(log, e).lastTs == log.lastTs + 1
    ensures |FillEvent(log, e).results| == |log.results| + if e.enter then 1 else 0
  {}

  predicate ExitOf(evs: seq<Event>, planId: int, b: nat) {
    b < |evs| && !evs[b].enter && evs[b].id == planId
  }

  /** Row `r` belongs to plan node `planId` and was unfinished before event `from`.  After `n` events it is
      closed as lost at the timestamp of that node's exit, or there was no such exit and it is open. */
  ghost predicate Fate(s: Session, evs: seq<Event>, log: Log, r: nat, planId: int, from: nat, n: nat) {
    && r < |log.results|
    && var row := log.results[r];
    && (row.finish.None? ==>
          && (forall b :: from <= b < n ==> !ExitOf(evs, planId, b))
          && exists k :: 0 <= k < |log.stack| && log.stack[k].result == r && log.stack[k].planId == planId)
    && (row.finish.Some? ==>
          row.lost && exists b :: from <= b < n && ExitOf(evs, planId, b) && row.finish.value == s.log.lastTs + b + 1)
  }

  lemma {:induction false} FateKept(s: Session, evs: seq<Event>, log: Log, r: nat, planId: int, from: nat, n: nat)
    requires from <= n < |evs|
    requires Fate(s, evs, log, r, planId, from, n) && LogOk(log)
    requires log.lastTs == s.log.lastTs + n
    requires forall j, k :: 0 <= j < k < |log.stack| ==> log.stack[j].planId < log.stack[k].planId
    requires !evs[n].enter ==> log.stack != [] && Innermost(log.stack).planId == evs[n].id
    ensures Fate(s, evs, FillEvent(log, evs[n]), r, planId, from, n + 1)
    ensures SameRow(log.results[r], FillEvent(log, evs[n]).results[r])
    ensures log.results[r].finish.Some? ==> FillEvent(log, evs[n]).results[r] == log.results[r]
  {
    var e := evs[n];
    var log' := FillEvent(log, e);
    if log.results[r].finish.None? {
      var k :| 0 <= k < |log.stack| && log.stack[k].result == r && log.stack[k].planId == planId;
      if !e.enter && k == |log.stack| - 1 {
        assert ExitOf(evs, planId, n);
      } else {
        assert log'.stack[k] == log.stack[k];
        assert !ExitOf(evs, planId, n);
      }
    } else if !e.enter {
      assert log.results[Innermost(log.stack).result].finish.None?;
    }
  }

  lemma {:induction false} FateOverGap(root: Plan, s: Session, r: nat, planId: int, from: nat, n: nat)
    requires InStep(root, s) && from <= n <= |Remaining(s.walk)|
    requires Fate(s, Remaining(s.walk), Filled(s, from), r, planId, from, from)
    ensures Fate(s, Remaining(s.walk), Filled(s, n), r, planId, from, n)
    ensures SameRow(Filled(s, from).results[r], Filled(s, n).results[r])
    decreases n - from
  {
    hide InStep, Remaining, LogOk, Fate, Filled, FillEvent;
    if from < n {
      FateOverGap(root, s, r, planId, from, n - 1);
      FilledCounts(root, s, n - 1);
      NextFill(root, s, n - 1);
      FateInRange(s, Remaining(s.walk), Filled(s, n - 1), r, planId, from, n - 1);
      FateKept(s, Remaining(s.walk), Filled(s, n - 1), r, planId, from, n - 1);
    }
  }

  lemma {:induction false} FateInRange(s: Session, evs: seq<Event>, log: Log, r: nat, planId: int, from: nat, n: nat)
    requires Fate(s, evs, log, r, planId, from, n)
    ensures r < |log.results|
  {}

  /** Number of the row opened for the enter event at position `a`. */
  function RowOf(s: Session, a: nat): nat
    requires a <= |Remaining(s.walk)|
  {
    |s.log.results| + EntersNum(Remaining(s.walk)[..a])
  }

  /** `parent` is the open result of the plan node around the one about to be entered, if there is one. */
  predicate ParentAround(parent: Option<nat>, stack: seq<OpenTest>, w: Walk) {
    if |w.frames| <= 1 then parent == None && stack == []
    else
      && stack != [] && parent == Some(Innermost(stack).result)
      && Innermost(stack).planId == w.frames[|w.frames| - 2].id
  }

  lemma {:induction false} EnclosingIsOpen(root: Plan, s: Session, e: Event)
    requires InStep(root, s) && Peek(s.walk) == Some(e) && e.enter
    ensures ParentAround(Parent(s.log.stack), s.log.stack, s.walk)
  {
    MirroredTop(root, s.walk, s.log);
  }

  /** The row that filling an enter event creates. */
  predicate FilledRow(s: Session, row: TestResult, a: nat)
    requires a < |Remaining(s.walk)|
  {
    var e := Remaining(s.walk)[a];
    && row.name == e.plan.name && row.nodeType == e.plan.nodeType
    && row.tin == LOST_TIN && row.start == s.log.lastTs + a + 1
    && ParentAround(row.parent, Filled(s, a).stack, Steps(s.walk, a))
  }

  /** Every plan node entered in the gap has its own LOST result, in plan order: opened at the timestamp of
      its enter event inside the result of the node around it, and closed at the timestamp of its exit event if
      that lies in the gap. */
  lemma {:induction false} EnteredInGap(root: Plan, s: Session, a: nat, n: nat)
    requires InStep(root, s) && a < n <= |Remaining(s.walk)| && Remaining(s.walk)[a].enter
    ensures Fate(s, Remaining(s.walk), Filled(s, n), RowOf(s, a), Remaining(s.walk)[a].id, a + 1, n)
    ensures FilledRow(s, Filled(s, n).results[RowOf(s, a)], a)
  {
    hide InStep, Remaining, LogOk, Filled, Steps, ParentAround;
    FilledCounts(root, s, a);
    NextFill(root, s, a);
    EnclosingIsOpen(root, SessionAfter(s, a), Remaining(s.walk)[a]);
    var log := Filled(s, a + 1);
    assert log.stack[|log.stack| - 1].result == RowOf(s, a);
    FateOverGap(root, s, RowOf(s, a), Remaining(s.walk)[a].id, a + 1, n);
  }

  /** Every result open before the gap is closed at the timestamp of its node's exit, if that lies in the
      gap. */
  lemma {:induction false} OpenBeforeGap(root: Plan, s: Session, k: nat, n: nat)
    requires InStep(root, s) && k < |s.log.stack| && n <= |Remaining(s.walk)|
    ensures Fate(s, Remaining(s.walk), Filled(s, n), s.log.stack[k].result, s.log.stack[k].planId, 0, n)
    ensures SameRow(s.log.results[s.log.stack[k].result], Filled(s, n).results[s.log.stack[k].result])
  {
    assert Remaining(s.walk)[..0] == [];
    FateOverGap(root, s, s.log.stack[k].result, s.log.stack[k].planId, 0, n);
  }

  /** Advancing the plan: one LOST opening or closing per plan event of the gap, a microsecond apart. */
  lemma {:induction false} AdvanceFillsGap(root: Plan, s: Session, target: int, start: bool)
    requires InStep(root, s)
    ensures var evs, r := Remaining(s.walk), AdvancePlan(root, s, target, start).s.log;
            var n := |Gap(evs, target, start)|;
            && r.lastTs == s.log.lastTs + n
            && |r.results| == |s.log.results| + EntersNum(evs[..n])
            && (forall a :: 0 <= a < n && evs[a].enter ==>
                  Fate(s, evs, r, RowOf(s, a), evs[a].id, a + 1, n) && FilledRow(s, r.results[RowOf(s, a)], a))
            && (forall k :: 0 <= k < |s.log.stack| ==>
                  Fate(s, evs, r, s.log.stack[k].result, s.log.stack[k].planId, 0, n))
  {
    hide InStep, Remaining, Fate, AdvancePlan, EntersNum, RowOf, FillAll, FilledRow;
    var evs := Remaining(s.walk);
    var n := |Gap(evs, target, start)|;
    InStepIsValid(root, s);
    AdvanceExact(root, s, target, start);
    assert Gap(evs, target, start) == evs[..n];
    assert Filled(s, n) == AdvancePlan(root, s, target, start).s.log;
    FilledCounts(root, s, n);
    forall a | 0 <= a < n && evs[a].enter
      ensures Fate(s, evs, Filled(s, n), RowOf(s, a), evs[a].id, a + 1, n)
      ensures RowOf(s, a) < |Filled(s, n).results|
      ensures FilledRow(s, Filled(s, n).results[RowOf(s, a)], a)
    {
      EnteredInGap(root, s, a, n);
      FateInRange(s, evs, Filled(s, n), RowOf(s, a), evs[a].id, a + 1, n);
    }
    forall k | 0 <= k < |s.log.stack|
      ensures Fate(s, evs, Filled(s, n), s.log.stack[k].result, s.log.stack[k].planId, 0, n)
    {
      OpenBeforeGap(root, s, k, n);
    }
  }
}
