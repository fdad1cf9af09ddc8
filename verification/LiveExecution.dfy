/** Partial executions of a plan: whole subtrees may be left out, and node numbers follow the nodes that were
    started.  Their events, the results they should leave, and the tracker's positions on the way. */
module LiveExecution {
  import opened Wrappers
  import opened Plans
  import opened PlanWalk
  import opened LiveSession
  import opened LiveMirror
  import opened LiveProtocol
  import opened LiveStream

  /** What happened to each plan node, by its number. */
  datatype Execution = Execution(ran: nat -> bool, startedAt: nat -> int, endedAt: nat -> int, tin: nat -> int)

  /** Nothing is executed inside what is left out. */
  ghost predicate Coherent(x: Execution, p: Plan, id: nat) {
    if x.ran(id) then CoherentAll(x, p.children, id + 1) else forall k: nat | id <= k < id + Size(p) :: !x.ran(k)
  }

  ghost predicate CoherentAll(x: Execution, ps: seq<Plan>, id: nat) {
    ps == [] || (Coherent(x, ps[0], id) && CoherentAll(x, ps[1..], id + Size(ps[0])))
  }

  /** How many nodes with smaller numbers were executed. */
  function RanBefore(x: Execution, id: nat): nat {
    if id == 0 then 0 else RanBefore(x, id - 1) + if x.ran(id - 1) then 1 else 0
  }

  /** Nodes are numbered from 1 as they are started. */
  function NodeOf(x: Execution, id: nat): nat {
    RanBefore(x, id) + 1
  }

  function Started(x: Execution, p: Plan, id: nat, parent: int): LiveEvent {
    TestStart(NodeOf(x, id), parent, id, x.startedAt(id), p.nodeType, p.name, x.tin(id))
  }

  function Ended(x: Execution, id: nat): LiveEvent {
    TestEnd(NodeOf(x, id), id, x.endedAt(id), true)
  }

  /** The events of executing a plan inside node `parent`. */
  function Stream(x: Execution, p: Plan, id: nat, parent: int): seq<LiveEvent> {
    if !x.ran(id) then []
    else [Started(x, p, id, parent)] + StreamAll(x, p.children, id + 1, NodeOf(x, id)) + [Ended(x, id)]
  }

  function StreamAll(x: Execution, ps: seq<Plan>, id: nat, parent: int): seq<LiveEvent> {
    if ps == [] then [] else Stream(x, ps[0], id, parent) + StreamAll(x, ps[1..], id + Size(ps[0]), parent)
  }

  function RowOf(x: Execution, p: Plan, id: nat, parent: Option<nat>): TestResult {
    TestResult(RanBefore(x, id) + 1, p.name, p.nodeType, parent, x.tin(id), x.startedAt(id), Some(x.endedAt(id)), false)
  }

  /** The results of executing a plan inside row `parent`: executed nodes in preorder, none lost. */
  function Rows(x: Execution, p: Plan, id: nat, parent: Option<nat>): seq<TestResult> {
    if !x.ran(id) then [] else [RowOf(x, p, id, parent)] + RowsAll(x, p.children, id + 1, Some(RanBefore(x, id)))
  }

  function RowsAll(x: Execution, ps: seq<Plan>, id: nat, parent: Option<nat>): seq<TestResult> {
    if ps == [] then [] else Rows(x, ps[0], id, parent) + RowsAll(x, ps[1..], id + Size(ps[0]), parent)
  }

  lemma {:induction false} RanBeforeGrows(x: Execution, id: nat, later: nat)
    requires id <= later
    ensures RanBefore(x, id) <= RanBefore(x, later)
    ensures (forall k: nat | id <= k < later :: !x.ran(k)) ==> RanBefore(x, id) == RanBefore(x, later)
    decreases later
  {
    if id < later {
      RanBeforeGrows(x, id, later - 1);
    }
  }

  // ---------- positions ----------

  function Executing(f: Frame, child: int): Frame {
    f.(child := child, running := true)
  }

  /** The walk about to enter child `j` of the innermost frame, or to leave that frame if there is none. */
  function At(below: seq<Frame>, f: Frame, j: nat): Walk
    requires j <= |f.plan.children|
  {
    Descend(below + [Executing(f, j - 1)], SiblingId(f, j))
  }

  predicate Spine(root: Plan, below: seq<Frame>, f: Frame) {
    Chain(root, below + [f])
  }

  lemma {:induction false} SpineAnyChild(root: Plan, below: seq<Frame>, f: Frame, child: int)
    requires Spine(root, below, f)
    ensures Spine(root, below, Executing(f, child))
  {
    var a, b := below + [f], below + [Executing(f, child)];
    forall i | 0 <= i < |b| - 1
      ensures Link(b[i], b[i + 1])
    {
      assert Link(a[i], a[i + 1]);
    }
  }

  lemma {:induction false} AtValid(root: Plan, below: seq<Frame>, f: Frame, j: nat)
    requires Spine(root, below, f) && j <= |f.plan.children|
    ensures Valid(root, At(below, f, j))
  {
    SpineAnyChild(root, below, f, j - 1);
    DescendValid(root, below + [Executing(f, j - 1)], SiblingId(f, j));
  }

  lemma {:induction false} AtTop(below: seq<Frame>, f: Frame, j: nat)
    requires j <= |f.plan.children|
    ensures At(below, f, j) ==
            if j < |f.plan.children| then
              Walk(below + [Executing(f, j), Frame(f.plan.children[j], SiblingId(f, j), -1, true)], SiblingId(f, j) + 1)
            else Walk(below + [f.(child := j - 1, running := false)], SiblingId(f, j))
  {
    assert Init(below + [Executing(f, j - 1)]) == below;
  }

  /** The frame of child `j`. */
  function Child(f: Frame, j: nat): Frame
    requires j < |f.plan.children|
  {
    Frame(f.plan.children[j], SiblingId(f, j), -1, true)
  }

  lemma {:induction false} GoIn(root: Plan, below: seq<Frame>, f: Frame, j: nat)
    requires Spine(root, below, f) && j < |f.plan.children|
    ensures Spine(root, below + [Executing(f, j)], Child(f, j))
    ensures Next(At(below, f, j)) == At(below + [Executing(f, j)], Child(f, j), 0)
  {
    AtTop(below, f, j);
    AtValid(root, below, f, j);
    var w, g := At(below, f, j), Child(f, j);
    assert w.frames == below + [Executing(f, j)] + [g] == below + [Executing(f, j)] + [Executing(g, -1)];
    assert g.plan.children[..0] == [];
  }

  lemma {:induction false} GoOut(root: Plan, below: seq<Frame>, f: Frame, j: nat)
    requires Spine(root, below, f) && j < |f.plan.children|
    ensures var g := Child(f, j);
            Next(At(below + [Executing(f, j)], g, |g.plan.children|)) == At(below, f, j + 1)
  {
    var g, outer := Child(f, j), below + [Executing(f, j)];
    var w := At(outer, g, |g.plan.children|);
    AtTop(outer, g, |g.plan.children|);
    assert Init(w.frames) == outer;
    assert g.plan.children[..|g.plan.children|] == g.plan.children;
    SizeAllSnoc(f.plan.children, j);
  }

  lemma {:induction false} SiblingsGrow(f: Frame, i: nat, j: nat)
    requires i <= j <= |f.plan.children|
    ensures i < j ==> SiblingId(f, i) < SiblingId(f, j)
    ensures f.id < SiblingId(f, i) <= SiblingId(f, j) <= f.id + Size(f.plan)
  {
    SizeAllMonotone(f.plan.children, i, j);
  }

  lemma {:induction false} NotATest(root: Plan, below: seq<Frame>, f: Frame)
    requires TestsAreLeaves(root) && Spine(root, below, f) && f.plan.children != []
    ensures f.plan.nodeType != TEST
  {
    FramesAreLeaves(root, below + [f], |below|);
  }

  function Opened(x: Execution, log: Log, p: Plan, id: nat): Log {
    OpenResult(log.(lastTs := x.startedAt(id)), p.name, p.nodeType, NodeOf(x, id), id, x.tin(id))
  }

  lemma {:induction false} FeedConcat(root: Plan, s: Session, a: seq<LiveEvent>, b: seq<LiveEvent>)
    requires Valid(root, s.walk) && Feed(root, s, a).outcome.Accepted?
    ensures Feed(root, s, a + b) == Feed(root, Feed(root, s, a).s, b)
    decreases |a|
  {
    hide StepEvent, Valid;
    if a == [] {
      assert a + b == b;
    } else {
      assert (a + b)[0] == a[0] && (a + b)[1..] == a[1..] + b;
      FeedConcat(root, StepEvent(root, s, a[0]).s, a[1..], b);
    }
  }

  lemma {:induction false} FeedOne(root: Plan, s: Session, e: LiveEvent)
    requires Valid(root, s.walk)
    ensures Feed(root, s, [e]) == StepEvent(root, s, e)
  {
    hide StepEvent, Valid;
    assert [e][1..] == [];
  }

  /** From `s` the events are accepted and lead to `t`. */
  ghost predicate Leads(root: Plan, s: Session, events: seq<LiveEvent>, t: Session) {
    Valid(root, s.walk) && Feed(root, s, events) == Step(t, Accepted)
  }

  lemma {:induction false} LeadsOn(root: Plan, s: Session, a: seq<LiveEvent>, t: Session, b: seq<LiveEvent>, u: Session)
    requires Leads(root, s, a, t) && Leads(root, t, b, u)
    ensures Leads(root, s, a + b, u)
  {
    hide Feed, Valid;
    FeedConcat(root, s, a, b);
  }

  lemma {:induction false} LeadsOne(root: Plan, s: Session, e: LiveEvent, t: Session)
    requires Valid(root, s.walk) && StepEvent(root, s, e) == Step(t, Accepted)
    ensures Leads(root, s, [e], t)
  {
    hide Feed, Valid, StepEvent;
    FeedOne(root, s, e);
  }

  lemma {:induction false} LeadsNowhere(root: Plan, s: Session)
    requires Valid(root, s.walk)
    ensures Leads(root, s, [], s)
  {}

  lemma {:induction false} Assoc<T>(a: seq<T>, b: seq<T>, c: seq<T>)
    ensures (a + b) + c == a + (b + c)
  {}

  // ---------- executed nodes in preorder ----------

  function NamesOf(rows: seq<TestResult>): (r: seq<(string, string)>)
    ensures |r| == |rows| && forall i :: 0 <= i < |r| ==> r[i] == (rows[i].name, rows[i].nodeType)
  {
    seq(|rows|, i requires 0 <= i < |rows| => (rows[i].name, rows[i].nodeType))
  }

  /** The executed nodes among those entered. */
  function ExecutedNames(x: Execution, evs: seq<Event>): seq<(string, string)> {
    if evs == [] then []
    else (if evs[0].enter && x.ran(evs[0].id) then [(evs[0].plan.name, evs[0].plan.nodeType)] else [])
         + ExecutedNames(x, evs[1..])
  }

  lemma {:induction false} ExecutedNamesConcat(x: Execution, a: seq<Event>, b: seq<Event>)
    ensures ExecutedNames(x, a + b) == ExecutedNames(x, a) + ExecutedNames(x, b)
  {
    if a == [] {
      assert a + b == b;
    } else {
      assert (a + b)[1..] == a[1..] + b;
      ExecutedNamesConcat(x, a[1..], b);
    }
  }

  lemma {:induction false} NothingExecuted(x: Execution, evs: seq<Event>)
    requires forall i :: 0 <= i < |evs| && evs[i].enter ==> !x.ran(evs[i].id)
    ensures ExecutedNames(x, evs) == []
  {
    if evs != [] {
      NothingExecuted(x, evs[1..]);
    }
  }

  /** The expected results are the executed ones among the nodes that the plan's tour enters, in its order. */
  lemma {:induction false} RowsInPreorder(x: Execution, p: Plan, id: nat, parent: Option<nat>)
    requires Coherent(x, p, id)
    ensures NamesOf(Rows(x, p, id, parent)) == ExecutedNames(x, Tour(p, id))
    decreases p
  {
    var a, b, c := [Event(id, p, true)], TourAll(p.children, id + 1), [Event(id, p, false)];
    if x.ran(id) {
      ExecutedNamesConcat(x, a, b);
      ExecutedNamesConcat(x, a + b, c);
      RowsAllInPreorder(x, p.children, id + 1, Some(RanBefore(x, id)));
      assert a[1..] == [] && c[1..] == [];
    } else {
      var evs := Tour(p, id);
      forall i | 0 <= i < |evs| && evs[i].enter
        ensures !x.ran(evs[i].id)
      {
        TourIds(p, id, evs[i].id, true);
      }
      NothingExecuted(x, evs);
    }
  }

  lemma {:induction false} RowsAllInPreorder(x: Execution, ps: seq<Plan>, id: nat, parent: Option<nat>)
    requires CoherentAll(x, ps, id)
    ensures NamesOf(RowsAll(x, ps, id, parent)) == ExecutedNames(x, TourAll(ps, id))
    decreases ps
  {
    if ps == [] {
      assert ExecutedNames(x, []) == [];
    } else {
      hide Rows, Tour, Size, Coherent, ExecutedNames, NamesOf;
      var next := id + Size(ps[0]);
      RowsInPreorder(x, ps[0], id, parent);
      RowsAllInPreorder(x, ps[1..], next, parent);
      NamesOfConcat(Rows(x, ps[0], id, parent), RowsAll(x, ps[1..], next, parent));
      ExecutedNamesConcat(x, Tour(ps[0], id), TourAll(ps[1..], next));
    }
  }

  lemma {:induction false} NamesOfConcat(a: seq<TestResult>, b: seq<TestResult>)
    ensures NamesOf(a + b) == NamesOf(a) + NamesOf(b)
  {}
}
