/** The plan tracker over shared plan items: an explicit stack whose entries point at items that other
    entries, past or future, may share.  Its stack always abstracts to a valid `PlanWalk.Walk`. */
module PlanTracking {
  import opened Wrappers
  import opened Plans
  import opened PlanItems
  import opened PlanWalk

  class PlanStackItem {
    const item: PlanItem
    var currentChild: int
    var running: bool

    /** What this entry says about the walk. */
    ghost function AsFrame(): Frame
      reads this, item
    {
      Frame(item.plan, item.id, currentChild, running)
    }

    constructor (planItem: PlanItem)
      ensures item == planItem && currentChild == -1 && running
    {
      item, currentChild, running := planItem, -1, true;
    }

    method NextChild() returns (child: PlanStackItem?)
      requires -1 <= currentChild < |item.children|
      modifies this
      ensures running == old(running)
      ensures old(currentChild) == |item.children| - 1 ==> child == null && currentChild == old(currentChild)
      ensures old(currentChild) < |item.children| - 1 ==>
                && currentChild == old(currentChild) + 1
                && child != null && fresh(child) && child.item == item.children[currentChild]
                && child.currentChild == -1 && child.running
    {
      if currentChild == |item.children| - 1 {
        return null;
      }
      currentChild := currentChild + 1;
      child := new PlanStackItem(item.children[currentChild]);
    }
  }

  class PlanTracker {
    var stack: seq<PlanStackItem>
    var nextId: nat
    ghost const items: set<PlanItem> // every item the plan is made of
    ghost const root: Plan           // the tree it unfolds to
    ghost var repr: set<object>      // what a step may change: the tracker, its entries and the items

    /** The stack entries are distinct objects pointing into the plan. */
    ghost predicate WellFormed()
      reads this
    {
      && this in repr
      && (forall x :: x in items ==> x in repr)
      && Closed(items)
      && (forall i :: 0 <= i < |stack| ==> stack[i] in repr && stack[i].item in items)
      && (forall i, j :: 0 <= i < j < |stack| ==> stack[i] != stack[j])
    }

    ghost function Frames(): (r: seq<Frame>)
      requires WellFormed()
      reads repr, this
      ensures |r| == |stack|
      ensures forall i :: 0 <= i < |r| ==> r[i] == stack[i].AsFrame()
    {
      seq(|stack|, i requires 0 <= i < |stack| && WellFormed() reads repr, this => stack[i].AsFrame())
    }

    ghost function Abs(): Walk
      requires WellFormed()
      reads repr, this
    {
      Walk(Frames(), nextId)
    }

    ghost predicate Valid()
      reads repr, this
    {
      WellFormed() && PlanWalk.Valid(root, Abs())
    }

    constructor (rootItem: PlanItem)
      requires Closed(rootItem.items) && rootItem in rootItem.items && rootItem.id == 0
      ensures Valid() && root == rootItem.plan && items == rootItem.items
      ensures Abs() == Start(root)
      ensures fresh(repr - (set x: PlanItem | x in items :: x as object))
    {
      var f := new PlanStackItem(rootItem);
      stack := [f];
      nextId := 1;
      items := rootItem.items;
      root := rootItem.plan;
      repr := (set x: PlanItem | x in rootItem.items :: x as object) + {this, f};
      new;
      StartValid(root);
      assert Abs() == Start(root);
    }

    /** Advance one step through the plan. */
    method NextEvent()
      requires Valid()
      modifies repr
      ensures Valid() && fresh(repr - old(repr))
      ensures Abs() == Next(old(Abs()))
    {
      ghost var w := Abs();
      NextValid(root, w);
      if |stack| == 0 {
        return;
      }
      if !stack[|stack| - 1].running {
        PopDone(root, w);
        stack := stack[..|stack| - 1];
        assert Frames() == Init(w.frames);
        if |stack| == 0 {
          return;
        }
      }
      EnterNextChild();
    }

    method EnterNextChild()
      requires WellFormed() && stack != []
      requires Chain(root, Frames()) && TopDone(Top(Frames()), nextId) && Top(Frames()).running
      modifies repr
      ensures WellFormed() && fresh(repr - old(repr))
      ensures Abs() == Descend(old(Frames()), old(nextId))
    {
      ghost var frames := Frames();
      ghost var f := Top(frames);
      var top := stack[|stack| - 1];
      assert top.AsFrame() == f;
      ItemShape(items, top.item);
      hide Closed, PlanItem.Local, PlansOf;
      var child := top.NextChild();
      if child == null {
        top.running := false;
        assert Frames() == Init(frames) + [f.(running := false)];
      } else {
        assert Frames() == Init(frames) + [f.(child := f.child + 1)];
        SmallerThanAll(root, frames, f.child + 1);
        Push(child);
      }
    }

    /** Number the child and put it on the stack; its item is none of those that are open. */
    method Push(child: PlanStackItem)
      requires WellFormed() && child !in repr && child.item in items
      requires forall i :: 0 <= i < |stack| ==> stack[i].item != child.item
      requires child.currentChild == -1 && child.running
      modifies this, child.item
      ensures WellFormed() && repr == old(repr) + {child} && nextId == old(nextId) + 1
      ensures Frames() == old(Frames()) + [Frame(child.item.plan, old(nextId), -1, true)]
    {
      child.item.id := nextId;
      nextId := nextId + 1;
      stack, repr := stack + [child], repr + {child};
    }

    /** The next event, without advancing. */
    method PeekEvent() returns (event: Option<(PlanItem, bool)>)
      requires Valid()
      ensures event.None? <==> Peek(Abs()).None?
      ensures event.Some? ==>
                && event.value.0 in items
                && Peek(Abs()) == Some(Event(event.value.0.id, event.value.0.plan, event.value.1))
    {
      if |stack| == 0 {
        return None;
      }
      var top := stack[|stack| - 1];
      return Some((top.item, top.running));
    }

    /** Has test execution finished according to the plan? */
    method Finished() returns (r: bool)
      requires Valid()
      ensures r <==> Remaining(Abs()) == []
    {
      StepRefinesTour(root, Abs());
      var event := PeekEvent();
      r := event.None?;
    }

    /** Advance until the target's start (or end) is the next event.  For an end, the target has then not
        been left yet. */
    method SkipUntil(targetId: int, untilStart: bool)
      requires Valid()
      modifies repr
      ensures Valid() && fresh(repr - old(repr))
      ensures Abs() == SkipTo(root, old(Abs()), targetId, untilStart)
    {
      hide PlanWalk.Valid, Remaining, Next, SkipTo, Closed;
      ghost var w := Abs();
      ghost var goal := SkipTo(root, w, targetId, untilStart);
      while true
        invariant Valid() && fresh(repr - old(repr))
        invariant w == Abs() && SkipTo(root, w, targetId, untilStart) == goal
        decreases |Remaining(w)|
      {
        var event := PeekEvent();
        if event.None? || (event.value.0.id == targetId && event.value.1 == untilStart) {
          SkipToDone(root, w, targetId, untilStart);
          return;
        }
        SkipToStep(root, w, targetId, untilStart);
        NextEvent();
        w := Next(w);
      }
    }
  }

  lemma {:induction false} ItemShape(items: set<PlanItem>, x: PlanItem)
    requires Closed(items) && x in items
    ensures x.Local() && |x.children| == |x.plan.children|
    ensures forall i :: 0 <= i < |x.children| ==> x.children[i] in items && x.children[i].plan == x.plan.children[i]
  {
    assert x.Local();
  }

  /** A child of the top frame is smaller than every node on the stack, so renumbering its object
      cannot disturb the number of a node that is still open. */
  lemma {:induction false} SmallerThanAll(root: Plan, frames: seq<Frame>, c: int)
    requires frames != [] && Chain(root, frames) && 0 <= c < |Top(frames).plan.children|
    ensures forall k :: 0 <= k < |frames| ==> Size(Top(frames).plan.children[c]) < Size(frames[k].plan)
    decreases |frames|
  {
    ChildSmaller(Top(frames).plan, c);
    if |frames| > 1 {
      assert Link(frames[|frames| - 2], frames[|frames| - 1]);
      SmallerThanAll(root, Init(frames), frames[|frames| - 2].child);
    }
  }

  lemma {:induction false} ChildSmaller(p: Plan, c: nat)
    requires c < |p.children|
    ensures Size(p.children[c]) < Size(p)
  {
    SizeAllSnoc(p.children, c);
    SizeAllMonotone(p.children, c + 1, |p.children|);
  }
}
