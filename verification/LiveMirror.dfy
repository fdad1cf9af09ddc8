/** The stack of open results mirrors the plan tracker's stack. */
module LiveMirror {
  import opened Plans
  import opened PlanWalk
  import opened LiveSession

  /** The frames that have been entered and not left: all of them, or all but the one about to be entered. */
  function OpenFrames(w: Walk): seq<Frame> {
    if w.frames != [] && Top(w.frames).running then Init(w.frames) else w.frames
  }

  function Shape(frames: seq<Frame>): (r: seq<(int, string)>)
    ensures |r| == |frames|
    ensures forall i :: 0 <= i < |r| ==> r[i] == (frames[i].id as int, frames[i].plan.nodeType)
  {
    seq(|frames|, i requires 0 <= i < |frames| => (frames[i].id as int, frames[i].plan.nodeType))
  }

  function StackShape(stack: seq<OpenTest>): (r: seq<(int, string)>)
    ensures |r| == |stack|
    ensures forall i :: 0 <= i < |r| ==> r[i] == (stack[i].planId, stack[i].nodeType)
  {
    seq(|stack|, i requires 0 <= i < |stack| => (stack[i].planId, stack[i].nodeType))
  }

  predicate Mirror(w: Walk, log: Log) {
    StackShape(log.stack) == Shape(OpenFrames(w))
  }

  // ---------- one plan event ----------

  /** Entering adds the entered node to the open frames; leaving removes the innermost one. */
  lemma {:induction false} NextShape(root: Plan, w: Walk)
    requires Valid(root, w) && w.frames != []
    ensures var f := Top(w.frames);
            Shape(OpenFrames(Next(w))) ==
            if f.running then Shape(OpenFrames(w)) + [(f.id as int, f.plan.nodeType)]
            else Init(Shape(OpenFrames(w)))
    ensures !Top(w.frames).running ==>
              OpenFrames(w) != [] && Top(OpenFrames(w)).id == Top(w.frames).id
  {
    var f := Top(w.frames);
    if f.running {
      assert w.frames == Init(w.frames) + [f];
      DescendShape(w.frames, w.nextId);
    } else if |w.frames| > 1 {
      PopDone(root, w);
      DescendShape(Init(w.frames), w.nextId);
    }
  }

  lemma {:induction false} DescendShape(frames: seq<Frame>, nextId: nat)
    requires frames != [] && Top(frames).running
    ensures Shape(OpenFrames(Descend(frames, nextId))) == Shape(frames)
  {
    var r := Descend(frames, nextId);
    var f := Top(frames);
    if 0 <= f.child + 1 < |f.plan.children| {
      assert OpenFrames(r) == Init(frames) + [f.(child := f.child + 1)];
    } else {
      assert OpenFrames(r) == Init(frames) + [f.(running := false)];
    }
  }

  /** Opening a result for the node being entered, or closing the innermost one when its node is left,
      keeps the mirror. */
  lemma {:induction false} OpenKeepsMirror(root: Plan, w: Walk, log: Log, name: string, nodeId: int, tin: int)
    requires Valid(root, w) && w.frames != [] && Top(w.frames).running && Mirror(w, log)
    ensures Mirror(Next(w), OpenResult(log, name, Top(w.frames).plan.nodeType, nodeId, Top(w.frames).id, tin))
  {
    NextShape(root, w);
    var stack := OpenResult(log, name, Top(w.frames).plan.nodeType, nodeId, Top(w.frames).id, tin).stack;
    assert StackShape(stack) == StackShape(log.stack) + [(Top(w.frames).id as int, Top(w.frames).plan.nodeType)];
  }

  lemma {:induction false} CloseKeepsMirror(root: Plan, w: Walk, log: Log, lost: bool)
    requires Valid(root, w) && w.frames != [] && !Top(w.frames).running && Mirror(w, log)
    ensures log.stack != []
    ensures Innermost(log.stack).result < |log.results| ==> Mirror(Next(w), CloseTop(log, lost))
  {
    NextShape(root, w);
    assert |StackShape(log.stack)| == |OpenFrames(w)|;
    if Innermost(log.stack).result < |log.results| {
      assert StackShape(CloseTop(log, lost).stack) == Init(StackShape(log.stack));
    }
  }

  // ---------- tests are leaves ----------

  lemma {:induction false} FramesAreLeaves(root: Plan, frames: seq<Frame>, k: nat)
    requires TestsAreLeaves(root) && Chain(root, frames) && k < |frames|
    ensures TestsAreLeaves(frames[k].plan)
  {
    if k > 0 {
      FramesAreLeaves(root, frames, k - 1);
      assert Link(frames[k - 1], frames[k]);
    }
  }

  /** While a node is about to be entered, what is open around it is not a test. */
  lemma {:induction false} NotInsideATest(root: Plan, w: Walk, log: Log)
    requires TestsAreLeaves(root) && Valid(root, w) && w.frames != [] && Top(w.frames).running && Mirror(w, log)
    ensures !ExecutingTest(log)
  {
    if log.stack != [] {
      var n := |w.frames| - 2;
      assert |StackShape(log.stack)| == |Shape(OpenFrames(w))|;
      assert StackShape(log.stack)[n] == Shape(OpenFrames(w))[n];
      assert Link(w.frames[n], w.frames[n + 1]);
      FramesAreLeaves(root, w.frames, n);
    }
  }

  lemma {:induction false} MirroredTop(root: Plan, w: Walk, log: Log)
    requires Valid(root, w) && w.frames != [] && Mirror(w, log)
    ensures log.stack != [] <==> OpenFrames(w) != []
    ensures log.stack != [] ==>
              && Innermost(log.stack).planId == Top(OpenFrames(w)).id
              && Innermost(log.stack).nodeType == Top(OpenFrames(w)).plan.nodeType
  {
    assert |StackShape(log.stack)| == |Shape(OpenFrames(w))|;
    if log.stack != [] {
      assert StackShape(log.stack)[|log.stack| - 1] == Shape(OpenFrames(w))[|log.stack| - 1];
    }
  }

  // ---------- silent skips ----------

  /** The target is one of the later children of the node around the one about to be entered. */
  predicate LaterSibling(w: Walk, target: int) {
    && |w.frames| >= 2
    && var p := w.frames[|w.frames| - 2];
       exists j :: 0 <= p.child <= j < |p.plan.children| && target == SiblingId(p, j)
  }

  function SiblingId(p: Frame, j: nat): nat
    requires j <= |p.plan.children|
  {
    p.id + 1 + SizeAll(p.plan.children[..j])
  }

  /** A skip that fills no gap leaves the open frames as they were exactly when it ends at a later
      sibling: this is when the two stacks still mirror each other after it. */
  lemma {:induction false} SilentSkipToStart(root: Plan, w: Walk, target: int)
    requires Valid(root, w) && w.frames != [] && Top(w.frames).running && Top(w.frames).id < target
    requires SkipTo(root, w, target, true).frames != []
    ensures Shape(OpenFrames(SkipTo(root, w, target, true))) == Shape(OpenFrames(w)) <==> LaterSibling(w, target)
  {
    SkipToExact(root, w, target, true);
    var w' := SkipTo(root, w, target, true);
    if LaterSibling(w, target) {
      SkipReachesSibling(root, w, w', target);
    }
    if Shape(OpenFrames(w')) == Shape(OpenFrames(w)) {
      SameShapeIsSibling(root, w, w');
    }
  }

  lemma {:induction false} SkipReachesSibling(root: Plan, w: Walk, w': Walk, target: int)
    requires Valid(root, w) && w.frames != [] && Top(w.frames).running && LaterSibling(w, target)
    requires Valid(root, w') && w'.frames != [] && Top(w'.frames).running && Top(w'.frames).id == target
    ensures Shape(OpenFrames(w')) == Shape(OpenFrames(w))
  {
    var n := |w.frames| - 2;
    var p := w.frames[n];
    var j :| p.child <= j < |p.plan.children| && target == SiblingId(p, j);
    assert Link(p, w.frames[n + 1]);
    var g := Frame(p.plan.children[j], SiblingId(p, j), -1, true);
    var v := Walk(w.frames[..n] + [p.(child := j), g], target + 1);
    assert g.plan.children[..0] == [];
    forall i | 0 <= i < |v.frames| - 1
      ensures Link(v.frames[i], v.frames[i + 1])
    {
      if i < n {
        assert Link(w.frames[i], w.frames[i + 1]);
      }
    }
    WalkDetermined(root, v, w');
    assert OpenFrames(v) == w.frames[..n] + [p.(child := j)];
    assert OpenFrames(w) == w.frames[..n] + [p];
  }

  lemma {:induction false} SameShapeIsSibling(root: Plan, w: Walk, w': Walk)
    requires Valid(root, w) && w.frames != [] && Top(w.frames).running
    requires Valid(root, w') && w'.frames != [] && Top(w'.frames).running && Top(w.frames).id < Top(w'.frames).id
    requires Shape(OpenFrames(w')) == Shape(OpenFrames(w))
    ensures LaterSibling(w, Top(w'.frames).id)
  {
    assert |Shape(OpenFrames(w'))| == |Shape(OpenFrames(w))|;
    var n := |w.frames| - 2;
    if n >= 0 {
      forall i | 0 <= i <= n
        ensures w.frames[i].id == w'.frames[i].id
      {
        assert Shape(OpenFrames(w'))[i] == Shape(OpenFrames(w))[i];
      }
      IdsDeterminePlans(root, w.frames, w'.frames, n);
      assert Link(w.frames[n], w.frames[n + 1]) && Link(w'.frames[n], w'.frames[n + 1]);
      var p, j := w.frames[n], w'.frames[n].child;
      assert SiblingId(p, j) == Top(w'.frames).id;
      if j < p.child {
        SizeAllMonotone(p.plan.children, j, p.child);
      }
    }
  }

  /** Skipping silently to the end of the innermost open node keeps the open frames. */
  lemma {:induction false} SilentSkipToEnd(root: Plan, w: Walk)
    requires Valid(root, w) && |w.frames| >= 2 && Top(w.frames).running
    ensures var w' := SkipTo(root, w, w.frames[|w.frames| - 2].id, false);
            && w'.frames != [] && !Top(w'.frames).running
            && Shape(OpenFrames(w')) == Shape(OpenFrames(w))
  {
    hide SkipTo, Remaining, HasEvent, Shape;
    var n := |w.frames| - 2;
    var p := w.frames[n];
    SkipToExact(root, w, p.id, false);
    UpcomingExits(root, w, n);
    var v := AllChildrenDone(root, w);
    WalkDetermined(root, v, SkipTo(root, w, p.id, false));
  }

  /** The position just before the innermost open node is left. */
  lemma {:induction false} AllChildrenDone(root: Plan, w: Walk) returns (v: Walk)
    requires Valid(root, w) && |w.frames| >= 2 && Top(w.frames).running
    ensures Valid(root, v) && v.frames != []
    ensures Top(v.frames).id == w.frames[|w.frames| - 2].id && !Top(v.frames).running
    ensures Shape(OpenFrames(v)) == Shape(OpenFrames(w))
  {
    var n := |w.frames| - 2;
    var p := w.frames[n];
    assert Link(p, w.frames[n + 1]);
    var ps := p.plan.children;
    assert ps[..|ps|] == ps;
    v := Walk(w.frames[..n] + [p.(child := |ps| - 1, running := false)], p.id + 1 + SizeAll(ps));
    forall i | 0 <= i < |v.frames| - 1
      ensures Link(v.frames[i], v.frames[i + 1])
    {
      assert Link(w.frames[i], w.frames[i + 1]);
    }
    assert OpenFrames(w) == w.frames[..n] + [p];
  }
}
