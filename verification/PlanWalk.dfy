/** The plan tracker's stack as a value, and the proof that walking it with `Next` performs exactly the
    recursive tour of the plan. */
module PlanWalk {
  import opened Wrappers
  import opened Plans

  /** One frame: the plan node, the number given to it, the index of its current child (-1 before the
      first) and whether it is still running. */
  datatype Frame = Frame(plan: Plan, id: nat, child: int, running: bool)

  datatype Walk = Walk(frames: seq<Frame>, nextId: nat)

  function Start(root: Plan): Walk {
    Walk([Frame(root, 0, -1, true)], 1)
  }

  function Top(frames: seq<Frame>): Frame
    requires frames != []
  {
    frames[|frames| - 1]
  }

  function Init<T>(s: seq<T>): seq<T>
    requires s != []
  {
    s[..|s| - 1]
  }

  function Peek(w: Walk): Option<Event> {
    if w.frames == [] then None
    else Some(Event(Top(w.frames).id, Top(w.frames).plan, Top(w.frames).running))
  }

  function Next(w: Walk): Walk {
    if w.frames == [] then w
    else
      var frames := if Top(w.frames).running then w.frames else Init(w.frames);
      if frames == [] then Walk([], w.nextId)
      else Descend(frames, w.nextId)
  }

  /** Move to the next child of the last frame, or mark that frame as done. */
  function Descend(frames: seq<Frame>, nextId: nat): Walk
    requires frames != []
  {
    var f := Top(frames);
    var c := f.child + 1;
    if 0 <= c < |f.plan.children| then
      Walk(Init(frames) + [f.(child := c), Frame(f.plan.children[c], nextId, -1, true)], nextId + 1)
    else
      Walk(Init(frames) + [f.(running := false)], nextId)
  }

  // ---------- well-formed walks ----------

  /** `g` is the node that `f` is currently executing, and it carries its preorder number. */
  predicate Link(f: Frame, g: Frame) {
    && f.running
    && 0 <= f.child < |f.plan.children|
    && g.plan == f.plan.children[f.child]
    && g.id == f.id + 1 + SizeAll(f.plan.children[..f.child])
  }

  predicate Chain(root: Plan, frames: seq<Frame>) {
    && (frames != [] ==> frames[0].plan == root && frames[0].id == 0)
    && forall i :: 0 <= i < |frames| - 1 ==> Link(frames[i], frames[i + 1])
  }

  predicate TopDone(f: Frame, nextId: nat) {
    && -1 <= f.child < |f.plan.children|
    && nextId == f.id + 1 + SizeAll(f.plan.children[..f.child + 1])
  }

  predicate Valid(root: Plan, w: Walk) {
    && Chain(root, w.frames)
    && (w.frames == [] ==> w.nextId == Size(root))
    && (w.frames != [] ==>
          && TopDone(Top(w.frames), w.nextId)
          && Top(w.frames).child == if Top(w.frames).running then -1 else |Top(w.frames).plan.children| - 1)
  }

  lemma {:induction false} StartValid(root: Plan)
    ensures Valid(root, Start(root))
  {}

  lemma {:induction false} NextValid(root: Plan, w: Walk)
    requires Valid(root, w)
    ensures Valid(root, Next(w))
  {
    if w.frames == [] {
      return;
    }
    if Top(w.frames).running {
      DescendValid(root, w.frames, w.nextId);
    } else {
      PopDone(root, w);
      if |w.frames| > 1 {
        DescendValid(root, Init(w.frames), w.nextId);
      }
    }
  }

  /** Leaving a finished node leaves its parent between two children. */
  lemma {:induction false} PopDone(root: Plan, w: Walk)
    requires Valid(root, w) && w.frames != [] && !Top(w.frames).running
    ensures |w.frames| > 1 ==>
              Chain(root, Init(w.frames)) && TopDone(Top(Init(w.frames)), w.nextId) && Top(Init(w.frames)).running
    ensures |w.frames| == 1 ==> w.nextId == Size(root)
  {
    var f := Top(w.frames);
    assert f.plan.children[..f.child + 1] == f.plan.children;
    if |w.frames| > 1 {
      var p := w.frames[|w.frames| - 2];
      assert Link(p, f);
      SizeAllSnoc(p.plan.children, p.child);
    }
  }

  lemma {:induction false} DescendValid(root: Plan, frames: seq<Frame>, nextId: nat)
    requires frames != [] && Chain(root, frames) && TopDone(Top(frames), nextId) && Top(frames).running
    ensures Valid(root, Descend(frames, nextId))
  {
    var f := Top(frames);
    var r := Descend(frames, nextId);
    if f.child != |f.plan.children| - 1 {
      var g := Top(r.frames);
      assert g.plan.children[..0] == [];
      assert r.frames == Init(frames) + [f.(child := f.child + 1)] + [g];
    }
    forall i | 0 <= i < |r.frames| - 1
      ensures Link(r.frames[i], r.frames[i + 1])
    {
      if i + 1 < |frames| {
        assert Link(frames[i], frames[i + 1]);
      }
    }
  }

  /** A frame that stays on the stack keeps its node and its number. */
  lemma {:induction false} NextKeepsIds(root: Plan, w: Walk, k: nat)
    requires Valid(root, w) && k < |w.frames| && k < |Next(w).frames|
    requires k == |w.frames| - 1 ==> w.frames[k].running
    ensures Next(w).frames[k].id == w.frames[k].id && Next(w).frames[k].plan == w.frames[k].plan
  {
    var frames := if Top(w.frames).running then w.frames else Init(w.frames);
    assert frames[k] == w.frames[k];
  }

  // ---------- what remains to be walked ----------

  /** The children of a frame that have not been entered yet. */
  function Todo(f: Frame): seq<Plan> {
    if 0 <= f.child + 1 < |f.plan.children| then f.plan.children[f.child + 1..] else []
  }

  /** The events left once every frame in `frames` has been entered. */
  function Rest(frames: seq<Frame>, nextId: nat): seq<Event> {
    if frames == [] then []
    else
      var f := Top(frames);
      TourAll(Todo(f), nextId) + [Event(f.id, f.plan, false)] + Rest(Init(frames), nextId + SizeAll(Todo(f)))
  }

  function Remaining(w: Walk): seq<Event> {
    if w.frames == [] then []
    else if Top(w.frames).running then
      [Event(Top(w.frames).id, Top(w.frames).plan, true)] + Rest(w.frames, w.nextId)
    else
      [Event(Top(w.frames).id, Top(w.frames).plan, false)] + Rest(Init(w.frames), w.nextId)
  }

  lemma {:induction false} RestSnoc(frames: seq<Frame>, f: Frame, nextId: nat)
    ensures Rest(frames + [f], nextId) ==
            TourAll(Todo(f), nextId) + [Event(f.id, f.plan, false)] + Rest(frames, nextId + SizeAll(Todo(f)))
  {
    assert Init(frames + [f]) == frames;
  }

  lemma {:induction false} DescendRemaining(frames: seq<Frame>, nextId: nat)
    requires frames != [] && -1 <= Top(frames).child < |Top(frames).plan.children|
    ensures Remaining(Descend(frames, nextId)) == Rest(frames, nextId)
  {
    hide Remaining, Rest;
    var below, f := Init(frames), Top(frames);
    assert frames == below + [f];
    if f.child + 1 < |f.plan.children| {
      DescendIntoChild(below, f, nextId);
      var f', g := f.(child := f.child + 1), Frame(f.plan.children[f.child + 1], nextId, -1, true);
      assert below + [f', g] == below + [f'] + [g];
    } else {
      RestSnoc(below, f, nextId);
      RemainingDone(below, f.(running := false), nextId);
      assert TourAll(Todo(f), nextId) == [];
    }
  }

  lemma {:induction false} DescendIntoChild(below: seq<Frame>, f: Frame, nextId: nat)
    requires 0 <= f.child + 1 < |f.plan.children|
    ensures var f', g := f.(child := f.child + 1), Frame(f.plan.children[f.child + 1], nextId, -1, true);
            Remaining(Walk(below + [f'] + [g], nextId + 1)) == Rest(below + [f], nextId)
  {
    hide Remaining, Rest, Size, SizeAll, Todo, TourAll, Init, Top;
    var f', g := f.(child := f.child + 1), Frame(f.plan.children[f.child + 1], nextId, -1, true);
    var n, m := nextId + Size(g.plan), nextId + SizeAll(Todo(f));
    TodoSplit(f, nextId);
    var exitF := Event(f.id, f.plan, false);
    RemainingRunning(below + [f'], g, nextId + 1);
    RestSnoc(below + [f'], g, nextId + 1);
    RestSnoc(below, f', n);
    RestSnoc(below, f, nextId);
    EntersFirst(g.plan, Todo(f), nextId, exitF, Rest(below, m));
  }

  lemma {:induction false} TodoSplit(f: Frame, nextId: nat)
    requires 0 <= f.child + 1 < |f.plan.children|
    ensures var f', g := f.(child := f.child + 1), Frame(f.plan.children[f.child + 1], nextId, -1, true);
            && Todo(f) != [] && Todo(f)[0] == g.plan && Todo(f)[1..] == Todo(f') && Todo(g) == g.plan.children
            && SizeAll(Todo(f)) == Size(g.plan) + SizeAll(Todo(f'))
            && nextId + 1 + SizeAll(Todo(g)) == nextId + Size(g.plan)
  {}

  lemma {:induction false} RemainingRunning(below: seq<Frame>, g: Frame, nextId: nat)
    requires g.running
    ensures Remaining(Walk(below + [g], nextId)) == [Event(g.id, g.plan, true)] + Rest(below + [g], nextId)
  {}

  lemma {:induction false} RemainingDone(below: seq<Frame>, f: Frame, nextId: nat)
    requires !f.running
    ensures Remaining(Walk(below + [f], nextId)) == [Event(f.id, f.plan, false)] + Rest(below, nextId)
  {
    assert Init(below + [f]) == below;
  }

  lemma {:induction false} EntersFirst(p: Plan, todo: seq<Plan>, id: nat, exit: Event, rest: seq<Event>)
    requires todo != [] && todo[0] == p
    ensures [Event(id, p, true)]
              + (TourAll(p.children, id + 1) + [Event(id, p, false)]
                   + (TourAll(todo[1..], id + Size(p)) + [exit] + rest))
            == TourAll(todo, id) + [exit] + rest
  {
    var a, b, c := [Event(id, p, true)], TourAll(p.children, id + 1), [Event(id, p, false)];
    Regroup(a, b, c, TourAll(todo[1..], id + Size(p)), [exit], rest);
  }

  lemma {:induction false} Regroup<T>(a: seq<T>, b: seq<T>, c: seq<T>, d: seq<T>, e: seq<T>, f: seq<T>)
    ensures a + (b + c + (d + e + f)) == (a + b + c) + d + e + f
  {}

  /** One step: the peeked event is the first remaining one, and `Next` drops exactly that one. */
  lemma {:induction false} StepRefinesTour(root: Plan, w: Walk)
    requires Valid(root, w)
    ensures Peek(w) == if Remaining(w) == [] then None else Some(Remaining(w)[0])
    ensures Remaining(Next(w)) == if Remaining(w) == [] then [] else Remaining(w)[1..]
    ensures Remaining(w) == [] <==> w.frames == []
  {
    if w.frames != [] {
      if Top(w.frames).running {
        DescendRemaining(w.frames, w.nextId);
      } else if |w.frames| > 1 {
        assert Link(w.frames[|w.frames| - 2], w.frames[|w.frames| - 1]);
        DescendRemaining(Init(w.frames), w.nextId);
      }
    }
  }

  function Steps(w: Walk, k: nat): Walk {
    if k == 0 then w else Next(Steps(w, k - 1))
  }

  /** The stack walker refines the recursive tour: after `k` steps the rest of the tour remains, and the
      walk ends after exactly `2 * Size(root)` events. */
  lemma {:induction false} WalkRefinesTour(root: Plan, k: nat)
    ensures Valid(root, Steps(Start(root), k))
    ensures |Tour(root, 0)| == 2 * Size(root) && EnterIds(Tour(root, 0)) == Range(0, Size(root))
    ensures Remaining(Steps(Start(root), k)) == if k <= 2 * Size(root) then Tour(root, 0)[k..] else []
    ensures k < 2 * Size(root) ==> Peek(Steps(Start(root), k)) == Some(Tour(root, 0)[k])
    ensures k >= 2 * Size(root) ==> Peek(Steps(Start(root), k)) == None
  {
    TourLength(root, 0);
    TourInPreorder(root, 0);
    if k == 0 {
      StartValid(root);
      var w := Start(root);
      assert w.frames == [] + [w.frames[0]];
      RestSnoc([], w.frames[0], 1);
      assert Remaining(w) == Tour(root, 0);
    } else {
      WalkRefinesTour(root, k - 1);
      var w := Steps(Start(root), k - 1);
      NextValid(root, w);
      StepRefinesTour(root, w);
    }
    StepRefinesTour(root, Steps(Start(root), k));
  }

  // ---------- skipping ----------

  predicate Reached(w: Walk, target: int, start: bool) {
    w.frames == [] || (Top(w.frames).id == target && Top(w.frames).running == start)
  }

  /** Walk on until the target event is next, or the plan ends. */
  function SkipTo(root: Plan, w: Walk, target: int, start: bool): Walk
    requires Valid(root, w)
    decreases |Remaining(w)|
  {
    if Reached(w, target, start) then w
    else
      NextValid(root, w);
      StepRefinesTour(root, w);
      SkipTo(root, Next(w), target, start)
  }

  lemma {:induction false} SkipToDone(root: Plan, w: Walk, target: int, start: bool)
    requires Valid(root, w) && Reached(w, target, start)
    ensures SkipTo(root, w, target, start) == w
  {}

  lemma {:induction false} SkipToStep(root: Plan, w: Walk, target: int, start: bool)
    requires Valid(root, w) && !Reached(w, target, start)
    ensures Valid(root, Next(w)) && |Remaining(Next(w))| < |Remaining(w)|
    ensures SkipTo(root, w, target, start) == SkipTo(root, Next(w), target, start)
  {
    NextValid(root, w);
    StepRefinesTour(root, w);
  }

  /** The longest prefix without the target event. */
  function Before(evs: seq<Event>, target: int, start: bool): (r: seq<Event>)
    ensures r <= evs
  {
    if evs == [] || (evs[0].id == target && evs[0].enter == start) then []
    else [evs[0]] + Before(evs[1..], target, start)
  }

  /** Skipping consumes exactly the events before the target, and runs to the end of the plan exactly
      when the target does not occur any more. */
  lemma {:induction false} SkipToExact(root: Plan, w: Walk, target: int, start: bool)
    requires Valid(root, w)
    ensures var w' := SkipTo(root, w, target, start);
            && Valid(root, w')
            && Remaining(w') == Remaining(w)[|Before(Remaining(w), target, start)|..]
            && Reached(w', target, start)
            && (w'.frames == [] <==> target < 0 || !HasEvent(Remaining(w), target, start))
    decreases |Remaining(w)|
  {
    StepRefinesTour(root, w);
    var evs := Remaining(w);
    if Reached(w, target, start) {
      assert Before(evs, target, start) == [];
      if w.frames != [] {
        assert evs[0].id == target && evs[0].enter == start;
      }
    } else {
      NextValid(root, w);
      SkipToExact(root, Next(w), target, start);
      BeforeStep(evs, target, start);
    }
  }

  lemma {:induction false} BeforeStep(evs: seq<Event>, target: int, start: bool)
    requires evs != [] && !(evs[0].id == target && evs[0].enter == start)
    ensures Before(evs, target, start) == [evs[0]] + Before(evs[1..], target, start)
    ensures evs[|Before(evs, target, start)|..] == evs[1..][|Before(evs[1..], target, start)|..]
    ensures target >= 0 ==> (HasEvent(evs, target, start) <==> HasEvent(evs[1..], target, start))
  {
    assert evs == [evs[0]] + evs[1..];
    if target >= 0 {
      HasEventConcat([evs[0]], evs[1..], target, start);
    }
  }

  // ---------- which events are still to come ----------

  lemma {:induction false} NoEnter(f: Frame, t: nat)
    ensures !HasEvent([Event(f.id, f.plan, false)], t, true) && !HasEvent([], t, true)
  {}

  lemma {:induction false} RestIds(root: Plan, frames: seq<Frame>, nextId: nat, t: nat)
    requires frames != [] && Chain(root, frames) && TopDone(Top(frames), nextId)
    ensures HasEvent(Rest(frames, nextId), t, true) <==> nextId <= t < Size(root)
    ensures nextId <= Size(root)
    decreases |frames|
  {
    hide HasEvent, TourAll, SizeAll;
    var f := Top(frames);
    var todo := Todo(f);
    assert todo == f.plan.children[f.child + 1..];
    var a, b, c := TourAll(todo, nextId), [Event(f.id, f.plan, false)], Rest(Init(frames), nextId + SizeAll(todo));
    NoEnter(f, t);
    TourAllIds(todo, nextId, t, true);
    HasEventConcat(a, b, t, true);
    HasEventConcat(a + b, c, t, true);
    SizeAllSplit(f.plan.children, f.child + 1);
    if |frames| > 1 {
      var p := frames[|frames| - 2];
      assert Link(p, f);
      SizeAllSnoc(p.plan.children, p.child);
      RestIds(root, Init(frames), nextId + SizeAll(todo), t);
    }
  }

  lemma {:induction false} RestExits(frames: seq<Frame>, nextId: nat, k: nat)
    requires k < |frames|
    ensures HasEvent(Rest(frames, nextId), frames[k].id, false)
    decreases |frames|
  {
    var f := Top(frames);
    var todo := Todo(f);
    var a, b, c := TourAll(todo, nextId), [Event(f.id, f.plan, false)], Rest(Init(frames), nextId + SizeAll(todo));
    HasEventConcat(a, b, frames[k].id, false);
    HasEventConcat(a + b, c, frames[k].id, false);
    if k == |frames| - 1 {
      assert b[0].id == frames[k].id;
    } else {
      RestExits(Init(frames), nextId + SizeAll(todo), k);
    }
  }

  /** Exactly the numbers not handed out yet (and the one about to be entered) are still to be entered. */
  lemma {:induction false} UpcomingEnters(root: Plan, w: Walk, t: nat)
    requires Valid(root, w) && w.frames != []
    ensures HasEvent(Remaining(w), t, true) <==>
              (if Top(w.frames).running then Top(w.frames).id else w.nextId) <= t < Size(root)
  {
    var f := Top(w.frames);
    var a := [Event(f.id, f.plan, f.running)];
    if f.running {
      HasEventConcat(a, Rest(w.frames, w.nextId), t, true);
      RestIds(root, w.frames, w.nextId, t);
      assert a[0].enter;
    } else {
      HasEventConcat(a, Rest(Init(w.frames), w.nextId), t, true);
      PopDone(root, w);
      if |w.frames| > 1 {
        RestIds(root, Init(w.frames), w.nextId, t);
      }
    }
  }

  /** Every frame on the stack is still to be left. */
  lemma {:induction false} UpcomingExits(root: Plan, w: Walk, k: nat)
    requires Valid(root, w) && k < |w.frames|
    ensures HasEvent(Remaining(w), w.frames[k].id, false)
  {
    var f := Top(w.frames);
    var a := [Event(f.id, f.plan, f.running)];
    if f.running {
      HasEventConcat(a, Rest(w.frames, w.nextId), w.frames[k].id, false);
      RestExits(w.frames, w.nextId, k);
    } else {
      HasEventConcat(a, Rest(Init(w.frames), w.nextId), w.frames[k].id, false);
      if k == |w.frames| - 1 {
        assert a[0].id == w.frames[k].id;
      } else {
        RestExits(Init(w.frames), w.nextId, k);
      }
    }
  }

  // ---------- a walk is determined by the event it is about to perform ----------

  lemma {:induction false} IdRange(root: Plan, frames: seq<Frame>, k: nat)
    requires Chain(root, frames) && k < |frames|
    ensures frames[k].id <= Top(frames).id < frames[k].id + Size(frames[k].plan)
    ensures k < |frames| - 1 ==> frames[k].id < Top(frames).id
    decreases |frames| - k
  {
    if k < |frames| - 1 {
      assert Link(frames[k], frames[k + 1]);
      IdRange(root, frames, k + 1);
      SizeAllSnoc(frames[k].plan.children, frames[k].child);
      SizeAllMonotone(frames[k].plan.children, frames[k].child + 1, |frames[k].plan.children|);
    }
  }

  /** Two chains leading to the same number agree frame by frame; only the top frames' progress may differ. */
  lemma {:induction false} ChainDetermined(root: Plan, f: seq<Frame>, g: seq<Frame>, k: nat)
    requires Chain(root, f) && Chain(root, g) && k < |f| && k < |g|
    requires Top(f).id == Top(g).id
    ensures f[k].plan == g[k].plan && f[k].id == g[k].id
    ensures k == |f| - 1 <==> k == |g| - 1
    ensures k < |f| - 1 ==> f[k] == g[k]
  {
    if k > 0 {
      ChainDetermined(root, f, g, k - 1);
      assert Link(f[k - 1], f[k]) && Link(g[k - 1], g[k]);
    }
    IdRange(root, f, k);
    IdRange(root, g, k);
    if k < |f| - 1 && k < |g| - 1 {
      assert Link(f[k], f[k + 1]) && Link(g[k], g[k + 1]);
      IdRange(root, f, k + 1);
      IdRange(root, g, k + 1);
      var ps, i, j := f[k].plan.children, f[k].child, g[k].child;
      if i < j {
        SizeAllMonotone(ps, i, j);
      } else if j < i {
        SizeAllMonotone(ps, j, i);
      }
    }
  }

  lemma {:induction false} WalkDetermined(root: Plan, v: Walk, w: Walk)
    requires Valid(root, v) && Valid(root, w) && v.frames != [] && w.frames != []
    requires Top(v.frames).id == Top(w.frames).id && Top(v.frames).running == Top(w.frames).running
    ensures v == w
  {
    var f, g := v.frames, w.frames;
    if |f| < |g| {
      ChainDetermined(root, f, g, |f| - 1);
    } else if |g| < |f| {
      ChainDetermined(root, f, g, |g| - 1);
    }
    forall k | 0 <= k < |f|
      ensures f[k] == g[k]
    {
      ChainDetermined(root, f, g, k);
    }
    assert f == g;
  }

  /** The numbers along a chain determine its nodes. */
  lemma {:induction false} IdsDeterminePlans(root: Plan, f: seq<Frame>, g: seq<Frame>, k: nat)
    requires Chain(root, f) && Chain(root, g) && k < |f| && k < |g|
    requires forall i :: 0 <= i <= k ==> f[i].id == g[i].id
    ensures f[k].plan == g[k].plan
  {
    if k > 0 {
      IdsDeterminePlans(root, f, g, k - 1);
      assert Link(f[k - 1], f[k]) && Link(g[k - 1], g[k]);
      var ps, i, j := f[k - 1].plan.children, f[k - 1].child, g[k - 1].child;
      if i < j {
        SizeAllMonotone(ps, i, j);
      } else if j < i {
        SizeAllMonotone(ps, j, i);
      }
    }
  }
}
