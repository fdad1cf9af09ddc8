/** Plan items as the shared objects they are: one child object is appended once per iteration and the
    keepalive object is repeated, so a plan is a graph in which only the `id` fields ever change. */
module PlanItems {
  import opened Wrappers
  import opened Plans
  import opened Prologues

  class PlanItem {
    var id: nat
    const name: string
    const nodeType: string
    const hasPrologue: bool
    const hasEpilogue: bool
    const children: seq<PlanItem>
    ghost const plan: Plan           // the tree this item unfolds to
    ghost const items: set<PlanItem> // the objects reachable from this item

    constructor (s: Spec)
      ensures plan == Unfold(s) && Means(s, plan) && id == 0
      ensures Closed(items) && this in items && fresh(items)
      decreases s, 2
    {
      var kids, its := BuildChildren(s);
      id := 0;
      name, nodeType := s.name, s.nodeType;
      hasPrologue, hasEpilogue := s.prologue.Some?, s.epilogue.Some?;
      children := kids;
      plan := Unfold(s);
      items := its + {this};
      new;
      UnfoldMeaning(s);
      assert Local();
    }

    static method BuildChildren(s: Spec) returns (kids: seq<PlanItem>, ghost its: set<PlanItem>)
      ensures PlansOf(kids) == Unfold(s).children
      ensures Closed(its) && fresh(its) && forall k | k in kids :: k in its
      decreases s, 1
    {
      hide Closed, PlansOf;
      var prologue, epilogue, keepalives;
      ghost var its1, its2, its3, its4;
      prologue, its1 := BuildOptional(s.prologue);
      keepalives, its2 := BuildOptional(s.keepalive);
      kids, its3 := AppendChildren(prologue, s.children, keepalives);
      epilogue, its4 := BuildOptional(s.epilogue);
      PlansOfConcat(kids, epilogue);
      ClosedUnion(its1 + its2, its3);
      ClosedUnion(its1, its2);
      ClosedUnion(its1 + its2 + its3, its4);
      kids, its := kids + epilogue, its1 + its2 + its3 + its4;
    }

    /** The item for a part of the plan that may be missing. */
    static method BuildOptional(o: Option<Spec>) returns (kids: seq<PlanItem>, ghost its: set<PlanItem>)
      ensures PlansOf(kids) == Optional(o) && |kids| <= 1
      ensures Closed(its) && fresh(its) && forall k | k in kids :: k in its
      decreases o, 0
    {
      kids, its := [], {};
      if o.Some? {
        var item := new PlanItem(o.value);
        kids, its := [item], item.items;
      }
    }

    /** One item object per child, appended once per iteration, each time after the shared keepalive. */
    static method AppendChildren(start: seq<PlanItem>, cs: seq<Spec>, keepalives: seq<PlanItem>)
      returns (kids: seq<PlanItem>, ghost its: set<PlanItem>)
      requires |keepalives| <= 1
      ensures PlansOf(kids) == PlansOf(start) + UnfoldAll(cs, PlansOf(keepalives))
      ensures PlansOf(start) <= PlansOf(kids)
      ensures HasRounds(PlansOf(kids)[|start|..], cs, if keepalives == [] then None else Some(keepalives[0].plan))
      ensures Closed(its) && fresh(its) && forall k | k in kids :: k in start || k in keepalives || k in its
      decreases cs, 0
    {
      hide Closed, PlansOf, HasRounds, Unfold, UnfoldAll, Repeat;
      kids, its := start, {};
      ghost var keep := PlansOf(keepalives);
      assert cs[0..] == cs;
      EmptyClosed();
      for i := 0 to |cs|
        invariant Closed(its) && fresh(its)
        invariant forall k | k in kids :: k in start || k in keepalives || k in its
        invariant PlansOf(kids) + UnfoldAll(cs[i..], keep) == PlansOf(start) + UnfoldAll(cs, keep)
      {
        var childItem := new PlanItem(cs[i]);
        ClosedUnion(its, childItem.items);
        its := its + childItem.items;
        var round := keepalives + if cs[i].nodeType != SKIPPED then [childItem] else [];
        assert PlansOf(round) == keep + if cs[i].nodeType != SKIPPED then [Unfold(cs[i])] else [];
        ghost var before := PlansOf(kids);
        kids := AppendTimes(kids, round, cs[i].iterations);
        UnfoldFirst(cs[i..], keep);
        assert cs[i..][1..] == cs[i + 1..];
        Reassociate(before, Repeat(PlansOf(round), cs[i].iterations), UnfoldAll(cs[i + 1..], keep));
      }
      Appended(start, kids, cs, keepalives);
    }

    static method AppendTimes(start: seq<PlanItem>, round: seq<PlanItem>, iterations: int) returns (kids: seq<PlanItem>)
      ensures PlansOf(kids) == PlansOf(start) + Repeat(PlansOf(round), iterations)
      ensures forall k | k in kids :: k in start || k in round
    {
      kids := start;
      var n := 0;
      while n < iterations
        invariant 0 <= n && (n <= iterations || n == 0)
        invariant PlansOf(kids) == PlansOf(start) + Repeat(PlansOf(round), n)
        invariant forall k | k in kids :: k in start || k in round
      {
        PlansOfConcat(kids, round);
        kids := kids + round;
        n := n + 1;
      }
    }

    /** The item's own fields agree with the tree it stands for. */
    ghost predicate Local() {
      plan == Plan(name, nodeType, hasPrologue, hasEpilogue, PlansOf(children))
    }

    method TestsNum(ghost all: set<PlanItem>) returns (n: nat)
      requires Closed(all) && this in all
      ensures n == Plans.TestsNum(plan)
      decreases plan
    {
      assert Local();
      if nodeType == TEST {
        return 1;
      }
      n := 0;
      for i := 0 to |children|
        invariant n + TestsNumAll(plan.children[i..]) == TestsNumAll(plan.children)
      {
        var k := children[i].TestsNum(all);
        assert plan.children[i..][1..] == plan.children[i + 1..];
        n := n + k;
      }
    }

    method TreeNodesNum(ghost all: set<PlanItem>) returns (n: nat)
      requires Closed(all) && this in all
      ensures n == Size(plan)
      decreases plan
    {
      assert Local();
      if children == [] {
        return 1;
      }
      n := 1;
      for i := 0 to |children|
        invariant n + SizeAll(plan.children[i..]) == Size(plan)
      {
        var k := children[i].TreeNodesNum(all);
        assert plan.children[i..][1..] == plan.children[i + 1..];
        n := n + k;
      }
    }

    /** Notes, for every prologue below this item, the tests lost when it does not pass. */
    method TestsNumPrologue(ghost all: set<PlanItem>, table: PrologueTable, planId: nat)
      requires Closed(all) && this in all
      modifies table
      ensures table.counts == Fill(plan, old(table.counts), planId)
      decreases plan
    {
      assert Local();
      if hasPrologue {
        var prologueTestsNum := 0;
        for i := 0 to |children|
          invariant table.counts == old(table.counts)
          invariant prologueTestsNum + TestsNumAll(plan.children[i..]) == TestsNumAll(plan.children)
        {
          var k := children[i].TestsNum(all);
          assert plan.children[i..][1..] == plan.children[i + 1..];
          prologueTestsNum := prologueTestsNum + k;
        }
        prologueTestsNum := prologueTestsNum - 1;
        if hasEpilogue {
          prologueTestsNum := prologueTestsNum - 1;
        }
        table.counts := table.counts[planId + 1 := prologueTestsNum];
      }
      var next := planId + 1;
      assert plan.children[0..] == plan.children;
      assert table.counts == if plan.hasPrologue then old(table.counts)[planId + 1 := SkippedBy(plan)]
                             else old(table.counts);
      for i := 0 to |children|
        invariant next >= 0
        invariant FillAll(plan.children[i..], table.counts, next) == Fill(plan, old(table.counts), planId)
      {
        children[i].TestsNumPrologue(all, table, next);
        var k := children[i].TreeNodesNum(all);
        assert plan.children[i..][1..] == plan.children[i + 1..];
        next := next + k;
      }
    }
  }

  /** The dictionary that `TestsNumPrologue` is passed and fills. */
  class PrologueTable {
    var counts: Counts

    constructor ()
      ensures counts == map[]
    {
      counts := map[];
    }
  }

  ghost function PlansOf(items: seq<PlanItem>): (ps: seq<Plan>)
    ensures |ps| == |items| && forall i :: 0 <= i < |ps| ==> ps[i] == items[i].plan
  {
    seq(|items|, i requires 0 <= i < |items| => items[i].plan)
  }

  lemma {:induction false} PlansOfConcat(a: seq<PlanItem>, b: seq<PlanItem>)
    ensures PlansOf(a + b) == PlansOf(a) + PlansOf(b)
  {}

  /** A set of items that contains every child of its members. */
  ghost predicate Closed(items: set<PlanItem>) {
    forall x {:trigger x.Local()} | x in items :: x.Local() && forall c | c in x.children :: c in items
  }

  lemma {:induction false} ClosedUnion(a: set<PlanItem>, b: set<PlanItem>)
    requires Closed(a) && Closed(b)
    ensures Closed(a + b)
  {}

  lemma {:induction false} EmptyClosed()
    ensures Closed({})
  {}

  lemma {:induction false} UnfoldFirst(cs: seq<Spec>, keep: seq<Plan>)
    requires cs != []
    ensures UnfoldAll(cs, keep)
         == Repeat(keep + if cs[0].nodeType != SKIPPED then [Unfold(cs[0])] else [], cs[0].iterations)
            + UnfoldAll(cs[1..], keep)
  {}

  lemma {:induction false} Reassociate(a: seq<Plan>, b: seq<Plan>, c: seq<Plan>)
    ensures (a + b) + c == a + (b + c)
  {}

  lemma {:induction false} Appended(start: seq<PlanItem>, kids: seq<PlanItem>, cs: seq<Spec>, keepalives: seq<PlanItem>)
    requires |keepalives| <= 1
    requires PlansOf(kids) + UnfoldAll([], PlansOf(keepalives)) == PlansOf(start) + UnfoldAll(cs, PlansOf(keepalives))
    ensures PlansOf(kids) == PlansOf(start) + UnfoldAll(cs, PlansOf(keepalives)) && PlansOf(start) <= PlansOf(kids)
    ensures HasRounds(PlansOf(kids)[|start|..], cs, if keepalives == [] then None else Some(keepalives[0].plan))
  {
    hide HasRounds;
    assert UnfoldAll([], PlansOf(keepalives)) == [];
    hide UnfoldAll, Unfold;
    UnfoldAllHasRounds(cs, if keepalives == [] then None else Some(keepalives[0].plan));
    assert PlansOf(keepalives) == if keepalives == [] then [] else [keepalives[0].plan];
    assert PlansOf(kids) == PlansOf(kids) + [];
    assert PlansOf(kids)[|start|..] == UnfoldAll(cs, PlansOf(keepalives));
  }
}
