/** Streams with losses: the parent check stops leaps unless the innermost open result was itself lost, and
    which ends that close a gap are accepted. */
module LiveStream {
  import opened Wrappers
  import opened Plans
  import opened PlanWalk
  import opened LiveSession
  import opened LiveResults
  import opened LiveMirror
  import opened LiveProtocol

  lemma {:induction false} FeedFirst(root: Plan, s: Session, e: LiveEvent, rest: seq<LiveEvent>)
    requires Valid(root, s.walk) && StepEvent(root, s, e).outcome.Accepted?
    ensures Feed(root, s, [e] + rest) == Feed(root, StepEvent(root, s, e).s, rest)
  {
    assert ([e] + rest)[1..] == rest;
  }

  // ---------- the parent check ----------

  /** The sender's truth: `planOf` maps node numbers to plan numbers, and the reported parent is the node
      around the reported one. */
  predicate TruthfulParent(root: Plan, w: Walk, e: LiveEvent, planOf: map<int, int>)
    requires Valid(root, w) && e.TestStart?
  {
    var w' := SkipTo(root, w, e.planId, true);
    SkipToExact(root, w, e.planId, true);
    w'.frames != [] && OpenFrames(w') != [] ==> e.parent in planOf && planOf[e.parent] == Top(OpenFrames(w')).id
  }

  /** The parent check does what it is there for unless the innermost open result is a LOST one: a start
      that reports its true parent and is accepted under a known open result, or under none, does not leap.
      Number 0 stands for no node. */
  lemma {:induction false} ParentCheckStopsLeaps(root: Plan, s: Session, e: LiveEvent, planOf: map<int, int>)
    requires InStep(root, s) && Valid(root, s.walk) && e.TestStart? && TruthfulParent(root, s.walk, e, planOf)
    requires 0 !in planOf && (s.log.stack != [] ==> Known(Innermost(s.log.stack), planOf))
    requires StepStart(root, s, e).outcome.Accepted?
    ensures !Leaps(s, e)
  {
    if s.walk.frames != [] && !StartGap(s, e) && Top(s.walk.frames).id < e.planId {
      MirroredTop(root, s.walk, s.log);
      ParentIsOpen(root, s, e, planOf);
      SilentSkipToStart(root, s.walk, e.planId);
    }
  }

  /** The open result's node number is one that the sender gave to the result's plan node. */
  predicate Known(t: OpenTest, planOf: map<int, int>) {
    t.nodeId != LOST_ITEM_NODE_ID && t.nodeId in planOf && planOf[t.nodeId] == t.planId
  }

  lemma {:induction false} ParentIsOpen(root: Plan, s: Session, e: LiveEvent, planOf: map<int, int>)
    requires InStep(root, s) && Valid(root, s.walk) && e.TestStart? && TruthfulParent(root, s.walk, e, planOf)
    requires s.walk.frames != [] && !StartGap(s, e) && Top(s.walk.frames).id < e.planId
    requires 0 !in planOf && (s.log.stack != [] ==> Known(Innermost(s.log.stack), planOf))
    requires s.log.stack != [] <==> OpenFrames(s.walk) != []
    requires s.log.stack != [] ==> Innermost(s.log.stack).planId == Top(OpenFrames(s.walk)).id
    requires StepStart(root, s, e).outcome.Accepted?
    ensures var next := SkipTo(root, s.walk, e.planId, true);
            next.frames != [] && Shape(OpenFrames(next)) == Shape(OpenFrames(s.walk))
  {
    hide InStep, Remaining, AdvancePlan;
    SkipToExact(root, s.walk, e.planId, true);
    var next := SkipTo(root, s.walk, e.planId, true);
    assert next.frames != [] && Top(next.frames).running;
    assert |next.frames| > 1;
    assert e.parent == TopNodeId(s.log);
    SameTopSameShape(root, s.walk, next);
  }

  lemma {:induction false} SameTopSameShape(root: Plan, w: Walk, w': Walk)
    requires Valid(root, w) && w.frames != [] && Top(w.frames).running
    requires Valid(root, w') && w'.frames != [] && Top(w'.frames).running
    requires OpenFrames(w) != [] && OpenFrames(w') != [] && Top(OpenFrames(w)).id == Top(OpenFrames(w')).id
    ensures Shape(OpenFrames(w)) == Shape(OpenFrames(w'))
  {
    var f, g := OpenFrames(w), OpenFrames(w');
    PrefixChain(root, w.frames, |f|);
    PrefixChain(root, w'.frames, |g|);
    if |f| < |g| {
      ChainDetermined(root, f, g, |f| - 1);
    } else if |g| < |f| {
      ChainDetermined(root, f, g, |g| - 1);
    }
    forall k | 0 <= k < |f|
      ensures f[k].id == g[k].id && f[k].plan == g[k].plan
    {
      ChainDetermined(root, f, g, k);
    }
  }

  lemma {:induction false} PrefixChain(root: Plan, frames: seq<Frame>, n: nat)
    requires Chain(root, frames) && n <= |frames|
    ensures Chain(root, frames[..n])
  {
    forall i | 0 <= i < n - 1
      ensures Link(frames[..n][i], frames[..n][i + 1])
    {
      assert Link(frames[i], frames[i + 1]);
    }
  }

  // ---------- ends that close a gap ----------

  /** An end event for something other than the innermost open result is accepted exactly when its node is
      still to be left and is not the whole run: the run's own end is refused although it closes
      everything. */
  lemma {:induction false} GapEndAccepted(root: Plan, s: Session, e: LiveEvent)
    requires InStep(root, s) && e.TestEnd? && e.planId != -1 && s.walk.frames != []
    requires s.log.stack == [] || e.planId != Innermost(s.log.stack).planId
    ensures var r := StepEnd(root, s, e);
            && (r.outcome.Accepted? <==> e.planId > 0 && HasEvent(Remaining(s.walk), e.planId, false))
            && (!r.outcome.Accepted? ==> r.outcome == Rejected(PlanOver) && r.s.log.stack == [])
  {
    hide InStep, Valid, Remaining, SkipTo, FillTo, FillEvent, CanFill, Next, HasEvent;
    InStepIsValid(root, s);
    var s1 := s.(maxNode := if s.maxNode < e.nodeId then e.nodeId else s.maxNode);
    SameStepAnyNode(root, s, s1.maxNode);
    AdvanceExact(root, s1, e.planId, false);
    FillToExact(root, s1, e.planId, false);
    SkipToExact(root, s1.walk, e.planId, false);
    var w := SkipTo(root, s1.walk, e.planId, false);
    var r := AdvancePlan(root, s1, e.planId, false);
    if w.frames != [] {
      LastIsRoot(root, w);
      if r.s.walk.frames == [] {
        InStepIsValid(root, r.s);
        EmptyPlanEmptyStack(r.s.walk, r.s.log);
      }
    }
  }

  lemma {:induction false} LastIsRoot(root: Plan, w: Walk)
    requires Valid(root, w) && w.frames != [] && !Top(w.frames).running
    ensures Next(w).frames == [] <==> Top(w.frames).id == 0
  {
    if |w.frames| > 1 {
      IdRange(root, w.frames, 0);
    }
  }
}
