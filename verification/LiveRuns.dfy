/** Whole runs: a stream that lost parts of an execution leaves exactly what it should, and so a lossless one
    leaves exactly the execution. */
module LiveRuns {
  import opened Wrappers
  import opened Plans
  import opened PlanWalk
  import opened LiveSession
  import opened LiveMirror
  import opened LiveProtocol
  import opened LiveStream
  import opened LiveSteps
  import opened LiveExecution
  import opened LiveLosses

  // ---------- the plan events between two children ----------

  lemma {:induction false} TourAllConcat(a: seq<Plan>, b: seq<Plan>, id: nat)
    ensures TourAll(a + b, id) == TourAll(a, id) + TourAll(b, id + SizeAll(a))
  {
    hide Tour, Size;
    if a == [] {
      assert a + b == b;
    } else {
      assert (a + b)[1..] == a[1..] + b;
      TourAllConcat(a[1..], b, id + Size(a[0]));
    }
  }

  /** What remains at child `i` starts with the events of the children up to `j`, and then what remains at `j`. */
  lemma {:induction false} RemainingAt(root: Plan, below: seq<Frame>, f: Frame, i: nat, j: nat)
    requires Spine(root, below, f) && i <= j <= |f.plan.children|
    ensures Remaining(At(below, f, i)) == TourAll(f.plan.children[i..j], SiblingId(f, i)) + Remaining(At(below, f, j))
  {
    hide Remaining, Rest, Spine, Tour, TourAll;
    RestAt(below, f, i);
    RestAt(below, f, j);
    var ps := f.plan.children;
    assert ps[i..] == ps[i..j] + ps[j..];
    TourAllConcat(ps[i..j], ps[j..], SiblingId(f, i));
    SliceSize(ps, i, j);
  }

  lemma {:induction false} SliceSize(ps: seq<Plan>, i: nat, j: nat)
    requires i <= j <= |ps|
    ensures SizeAll(ps[..i]) + SizeAll(ps[i..j]) == SizeAll(ps[..j])
  {
    assert ps[..j] == ps[..i] + ps[i..j];
    SizeAllConcat(ps[..i], ps[i..j]);
  }

  lemma {:induction false} RestAt(below: seq<Frame>, f: Frame, j: nat)
    requires j <= |f.plan.children|
    ensures Remaining(At(below, f, j)) ==
            TourAll(f.plan.children[j..], SiblingId(f, j))
            + ([Event(f.id, f.plan, false)] + Rest(below, f.id + Size(f.plan)))
  {
    hide Remaining, Rest, TourAll;
    var g := Executing(f, j - 1);
    DescendRemaining(below + [g], SiblingId(f, j));
    RestSnoc(below, g, SiblingId(f, j));
    SliceSize(f.plan.children, j, |f.plan.children|);
    assert f.plan.children[..|f.plan.children|] == f.plan.children
        && f.plan.children[j..|f.plan.children|] == f.plan.children[j..];
    assert Todo(g) == f.plan.children[j..];
  }

  lemma {:induction false} BeforeOf(a: seq<Event>, b: seq<Event>, target: nat, start: bool)
    requires !HasEvent(a, target, start)
    requires b != [] && b[0].id == target && b[0].enter == start
    ensures Before(a + b, target, start) == a
  {
    if a == [] {
      assert a + b == b;
    } else {
      assert (a + b)[1..] == a[1..] + b && (a + b)[0] == a[0];
      assert a[0] in a;
      HasEventConcat([a[0]], a[1..], target, start);
      assert a == [a[0]] + a[1..];
      BeforeOf(a[1..], b, target, start);
    }
  }

  lemma {:induction false} SameRemaining(root: Plan, v: Walk, w: Walk)
    requires Valid(root, v) && Valid(root, w) && Remaining(v) == Remaining(w)
    ensures v == w
  {
    StepRefinesTour(root, v);
    StepRefinesTour(root, w);
    hide Remaining;
    if v.frames != [] {
      WalkDetermined(root, v, w);
    }
  }

  /** The event that the walk at child `j` performs next. */
  lemma {:induction false} NextAt(root: Plan, below: seq<Frame>, f: Frame, j: nat)
    requires Spine(root, below, f) && j <= |f.plan.children|
    ensures Valid(root, At(below, f, j)) && Remaining(At(below, f, j)) != []
    ensures Remaining(At(below, f, j))[0] ==
            if j < |f.plan.children| then Event(SiblingId(f, j), f.plan.children[j], true)
                else Event(f.id, f.plan, false)
    ensures Remaining(Next(At(below, f, j))) == Remaining(At(below, f, j))[1..]
  {
    hide Remaining, Valid, Next;
    AtTop(below, f, j);
    AtValid(root, below, f, j);
    StepRefinesTour(root, At(below, f, j));
  }

  /** Up to child `j` is entered there are exactly the events of the children pending. */
  lemma {:induction false} BeforeChild(root: Plan, below: seq<Frame>, f: Frame, i: nat, j: nat)
    requires Spine(root, below, f) && i <= j < |f.plan.children|
    ensures var evs, gap := Remaining(At(below, f, i)), TourAll(f.plan.children[i..j], SiblingId(f, i));
            && Before(evs, SiblingId(f, j), true) == gap
            && Target(evs, SiblingId(f, j), true) == Some(Event(SiblingId(f, j), f.plan.children[j], true))
            && evs == gap + Remaining(At(below, f, j))
  {
    hide Remaining, TourAll, At, Spine, Before, HasEvent, SizeAll;
    var gap := TourAll(f.plan.children[i..j], SiblingId(f, i));
    RemainingAt(root, below, f, i, j);
    NextAt(root, below, f, j);
    TourAllIds(f.plan.children[i..j], SiblingId(f, i), SiblingId(f, j), true);
    SliceSize(f.plan.children, i, j);
    BeforeOf(gap, Remaining(At(below, f, j)), SiblingId(f, j), true);
  }

  /** Up to and with the end of child `j` there are exactly the events of the children pending and of that one. */
  lemma {:induction false} BeforeChildEnd(root: Plan, below: seq<Frame>, f: Frame, i: nat, j: nat)
    requires Spine(root, below, f) && i <= j < |f.plan.children|
    ensures var evs, gap := Remaining(At(below, f, i)), TourAll(f.plan.children[i..j + 1], SiblingId(f, i));
            && |Before(evs, SiblingId(f, j), false)| + 1 == |gap|
            && Target(evs, SiblingId(f, j), false).Some?
            && evs == gap + Remaining(At(below, f, j + 1))
  {
    hide Remaining, At, Spine, Before, HasEvent, SizeAll, TourAll;
    var p, id := f.plan.children[j], SiblingId(f, j);
    var exit := Event(id, p, false);
    var a, b := TourAll(f.plan.children[i..j], SiblingId(f, i)), [Event(id, p, true)] + TourAll(p.children, id + 1);
    RemainingAt(root, below, f, i, j + 1);
    SliceSize(f.plan.children, i, j);
    LastTour(f.plan.children, i, j, SiblingId(f, i));
    NotInside(f.plan.children[i..j], SiblingId(f, i), p, id);
    assert (a + b) + ([exit] + Remaining(At(below, f, j + 1))) == ((a + b) + [exit]) + Remaining(At(below, f, j + 1));
    BeforeOf(a + b, [exit] + Remaining(At(below, f, j + 1)), id, false);
  }

  lemma {:induction false} LastTour(ps: seq<Plan>, i: nat, j: nat, id: nat)
    requires i <= j < |ps|
    ensures var last := id + SizeAll(ps[i..j]);
            TourAll(ps[i..j + 1], id) == TourAll(ps[i..j], id)
                                         + ([Event(last, ps[j], true)] + TourAll(ps[j].children, last + 1))
                                         + [Event(last, ps[j], false)]
  {
    var last := id + SizeAll(ps[i..j]);
    assert ps[i..j + 1] == ps[i..j] + [ps[j]];
    TourAllConcat(ps[i..j], [ps[j]], id);
    assert TourAll([ps[j]], last) == Tour(ps[j], last) by {
      assert [ps[j]][1..] == [];
      assert TourAll([], last + Size(ps[j])) == [];
    }
  }

  /** A node's exit is neither among the events of its elder siblings nor of what is inside it. */
  lemma {:induction false} NotInside(elder: seq<Plan>, first: nat, p: Plan, id: nat)
    requires id == first + SizeAll(elder)
    ensures !HasEvent(TourAll(elder, first) + ([Event(id, p, true)] + TourAll(p.children, id + 1)), id, false)
  {
    hide TourAll, SizeAll;
    var enter := [Event(id, p, true)];
    TourAllIds(elder, first, id, false);
    TourAllIds(p.children, id + 1, id, false);
    HasEventConcat(enter, TourAll(p.children, id + 1), id, false);
    HasEventConcat(TourAll(elder, first), enter + TourAll(p.children, id + 1), id, false);
  }

  /** Up to the own end of `f` there are exactly the events of the children pending. */
  lemma {:induction false} BeforeOwnEnd(root: Plan, below: seq<Frame>, f: Frame, i: nat)
    requires Spine(root, below, f) && i <= |f.plan.children|
    ensures var evs, n := Remaining(At(below, f, i)), |f.plan.children|;
            && evs[|Before(evs, f.id, false)|..] == Remaining(At(below, f, n))
  {
    hide Remaining, TourAll, At, Spine, Before, HasEvent, SizeAll;
    var n := |f.plan.children|;
    var gap := TourAll(f.plan.children[i..n], SiblingId(f, i));
    RemainingAt(root, below, f, i, n);
    NextAt(root, below, f, n);
    TourAllIds(f.plan.children[i..n], SiblingId(f, i), f.id, false);
    BeforeOf(gap, Remaining(At(below, f, n)), f.id, false);
  }

  // ---------- sessions ----------

  function OpenEntry(x: Execution, f: Frame, row: nat): OpenTest {
    OpenTest(f.plan.nodeType, row + 1, NodeOf(x, f.id), f.id, row)
  }

  /** The execution is at child `j` of `f`, whose row is open; nothing has been recorded of the children from `i`
      to `j`. */
  ghost predicate Tracking(root: Plan, x: Execution, below: seq<Frame>, f: Frame, i: nat, j: nat, row: nat,
                           s: Session) {
    && Spine(root, below, f) && i <= j <= |f.plan.children| && s.walk == At(below, f, i)
    && InStep(root, s) && Valid(root, s.walk)
    && NodeOf(x, f.id) <= s.maxNode <= RanBefore(x, SiblingId(f, j))
    && s.log.seqno == |s.log.results| + 1
    && s.log.stack != [] && Innermost(s.log.stack) == OpenEntry(x, f, row)
  }

  lemma {:induction false} InStepLeaves(root: Plan, s: Session)
    requires InStep(root, s)
    ensures TestsAreLeaves(root)
  {}

  lemma {:induction false} LaterChild(root: Plan, below: seq<Frame>, f: Frame, i: nat, j: nat)
    requires Spine(root, below, f) && i <= j < |f.plan.children|
    ensures LaterSibling(At(below, f, i), SiblingId(f, j))
    ensures At(below, f, i).frames != [] && Top(At(below, f, i).frames).running
  {
    AtTop(below, f, i);
    var w := At(below, f, i);
    assert w.frames[|w.frames| - 2] == Executing(f, i);
    assert SiblingId(Executing(f, i), j) == SiblingId(f, j);
  }

  /** The rows that the start of child `j` fills in first. */
  function FilledIn(x: Execution, f: Frame, i: nat, j: nat, row: nat, s: Session): seq<TestResult>
    requires i <= j < |f.plan.children|
  {
    if RanBefore(x, SiblingId(f, j)) > s.maxNode then
      LostTrees(f.plan.children[i..j], |s.log.results|, s.log.lastTs, Some(row))
    else []
  }

  /** An accepted event that does not leap leaves a session in step at the walk that has the same remaining
      events. */
  lemma {:induction false} Reaches(root: Plan, s: Session, e: LiveEvent, w: Walk) returns (t: Session)
    requires InStep(root, s) && Valid(root, s.walk) && Valid(root, w)
    requires e.TestStart? || e.TestEnd?
    requires StepEvent(root, s, e).outcome.Accepted? && Remaining(StepEvent(root, s, e).s.walk) == Remaining(w)
    requires !Leaps(s, e)
    ensures StepEvent(root, s, e) == Step(t, Accepted)
    ensures InStep(root, t) && Valid(root, t.walk) && t.walk == w && Leads(root, s, [e], t)
  {
    hide Valid, InStep, Remaining, StepStart, StepEnd, Leaps, Leads;
    if e.TestStart? {
      StartKeepsMirror(root, s, e);
    } else {
      EndKeepsMirror(root, s, e);
    }
    t := StepEvent(root, s, e).s;
    InStepIsValid(root, t);
    SameRemaining(root, t.walk, w);
    LeadsOne(root, s, e, t);
  }

  /** The start of child `j` arrives. */
  lemma {:induction false} StartHeard(root: Plan, x: Execution, below: seq<Frame>, f: Frame, i: nat, j: nat, row: nat,
                                      s: Session) returns (t: Session)
    requires Tracking(root, x, below, f, i, j, row, s) && j < |f.plan.children|
    ensures var id, p, rows := SiblingId(f, j), f.plan.children[j], FilledIn(x, f, i, j, row, s);
            && Leads(root, s, [Started(x, p, id, NodeOf(x, f.id))], t)
            && InStep(root, t) && Valid(root, t.walk) && t.walk == Next(At(below, f, j)) && t.maxNode == NodeOf(x, id)
            && t.log == Opened(x, s.log.(results := s.log.results + rows, seqno := s.log.seqno + |rows|), p, id)
  {
    hide Valid, InStep, Remaining, At, Spine, LaterSibling, StepEvent, Next, FilledIn, OpenResult, CaughtUp, SiblingId,
         Opened, StartGap, RanBefore, Leads;
    var id, p, rows := SiblingId(f, j), f.plan.children[j], FilledIn(x, f, i, j, row, s);
    var e := Started(x, p, id, NodeOf(x, f.id));
    StartTaken(root, x, below, f, i, j, row, s);
    LaterChild(root, below, f, i, j);
    AtValid(root, below, f, j);
    NextValid(root, At(below, f, j));
    t := Reaches(root, s, e, Next(At(below, f, j)));
    SameOpened(x, s.log, CaughtUp(s, e), p, id, rows);
  }

  /** It is accepted, whatever was lost. */
  lemma {:induction false} StartTaken(root: Plan, x: Execution, below: seq<Frame>, f: Frame, i: nat, j: nat, row: nat,
                                      s: Session)
    requires Tracking(root, x, below, f, i, j, row, s) && j < |f.plan.children|
    ensures var id, p, rows := SiblingId(f, j), f.plan.children[j], FilledIn(x, f, i, j, row, s);
            var e := Started(x, p, id, NodeOf(x, f.id));
            var r, log := StepEvent(root, s, e), CaughtUp(s, e);
            && r.outcome.Accepted? && Remaining(r.s.walk) == Remaining(Next(At(below, f, j)))
            && r.s.maxNode == NodeOf(x, id)
            && r.s.log == OpenResult(log.(lastTs := x.startedAt(id)), p.name, p.nodeType, NodeOf(x, id), id, x.tin(id))
            && log.results == s.log.results + rows && log.stack == s.log.stack && log.seqno == s.log.seqno + |rows|
  {
    hide Valid, InStep, Remaining, At, Spine, Before, LaterSibling, FillAll, StepEvent, Next, TourAll, LostTrees,
        Target,
         CaughtUp, OpenResult, FilledIn, SiblingId, RanBefore;
    var id, p := SiblingId(f, j), f.plan.children[j];
    BeforeChild(root, below, f, i, j);
    NextAt(root, below, f, j);
    LaterChild(root, below, f, i, j);
    InStepLeaves(root, s);
    NotATest(root, below, f);
    CatchingUp(root, x, below, f, i, j, row, s);
    StartExact(root, s, Started(x, p, id, NodeOf(x, f.id)));
    AfterFirst(TourAll(f.plan.children[i..j], SiblingId(f, i)), Remaining(At(below, f, j)));
  }

  lemma {:induction false} AfterFirst(a: seq<Event>, b: seq<Event>)
    requires b != []
    ensures (a + b)[|a| + 1..] == b[1..]
  {}

  /** What catching up fills in. */
  lemma {:induction false} CatchingUp(root: Plan, x: Execution, below: seq<Frame>, f: Frame, i: nat, j: nat, row: nat,
                                      s: Session)
    requires Tracking(root, x, below, f, i, j, row, s) && j < |f.plan.children|
    requires Before(Remaining(s.walk), SiblingId(f, j), true) == TourAll(f.plan.children[i..j], SiblingId(f, i))
    requires s.walk.frames != [] && Top(s.walk.frames).running && f.plan.nodeType != TEST
    ensures var rows := FilledIn(x, f, i, j, row, s);
            var log := CaughtUp(s, Started(x, f.plan.children[j], SiblingId(f, j), NodeOf(x, f.id)));
            && log.results == s.log.results + rows && log.stack == s.log.stack && log.seqno == s.log.seqno + |rows|
  {
    hide Valid, InStep, Remaining, At, Spine, FillAll, Before, TourAll, LostTrees;
    FillTrees(s.log, f.plan.children[i..j], SiblingId(f, i));
    assert s.log.results + [] == s.log.results;
  }

  lemma {:induction false} SameOpened(x: Execution, log: Log, caughtUp: Log, p: Plan, id: nat, rows: seq<TestResult>)
    requires caughtUp.results == log.results + rows && caughtUp.stack == log.stack
    requires caughtUp.seqno == log.seqno + |rows|
    ensures OpenResult(caughtUp.(lastTs := x.startedAt(id)), p.name, p.nodeType, NodeOf(x, id), id, x.tin(id))
         == Opened(x, log.(results := log.results + rows, seqno := log.seqno + |rows|), p, id)
  {}

  /** The end of child `j` arrives without its start. */
  lemma {:induction false} EndHeard(root: Plan, x: Execution, below: seq<Frame>, f: Frame, i: nat, j: nat, row: nat,
                                    s: Session) returns (t: Session)
    requires Tracking(root, x, below, f, i, j, row, s) && j < |f.plan.children| && x.ran(SiblingId(f, j))
    ensures var rows := LostTrees(f.plan.children[i..j + 1], |s.log.results|, s.log.lastTs, Some(row));
            && Leads(root, s, [Ended(x, SiblingId(f, j))], t)
            && Tracking(root, x, below, f, j + 1, j + 1, row, t)
            && Added(s.log, t.log, rows, 2 * SizeAll(f.plan.children[i..j + 1]))
            && t.maxNode == Larger(s.maxNode, NodeOf(x, SiblingId(f, j)))
  {
    hide Valid, InStep, Remaining, At, Spine, StepEvent, LostTrees, SizeAll, SiblingId, Added, RanBefore, Leads;
    EndTaken(root, x, below, f, i, j, row, s);
    AtValid(root, below, f, j + 1);
    t := Reaches(root, s, Ended(x, SiblingId(f, j)), At(below, f, j + 1));
    EndTracked(root, x, below, f, i, j, row, s, t);
  }

  lemma {:induction false} EndTracked(root: Plan, x: Execution, below: seq<Frame>, f: Frame, i: nat, j: nat, row: nat,
                                      s: Session, t: Session)
    requires Tracking(root, x, below, f, i, j, row, s) && j < |f.plan.children| && x.ran(SiblingId(f, j))
    requires InStep(root, t) && Valid(root, t.walk) && t.walk == At(below, f, j + 1)
    requires exists rows, k :: Added(s.log, t.log, rows, k)
    requires t.maxNode == Larger(s.maxNode, NodeOf(x, SiblingId(f, j)))
    ensures Tracking(root, x, below, f, j + 1, j + 1, row, t)
  {
    hide Valid, InStep, At, Spine, SiblingId;
    SiblingsGrow(f, j, j + 1);
    RanBeforeGrows(x, SiblingId(f, j) + 1, SiblingId(f, j + 1));
    RanBeforeGrows(x, SiblingId(f, j), SiblingId(f, j + 1));
  }

  /** It is accepted, whatever was lost. */
  lemma {:induction false} EndTaken(root: Plan, x: Execution, below: seq<Frame>, f: Frame, i: nat, j: nat, row: nat,
                                    s: Session)
    requires Tracking(root, x, below, f, i, j, row, s) && j < |f.plan.children|
    ensures var r := StepEvent(root, s, Ended(x, SiblingId(f, j)));
            var rows := LostTrees(f.plan.children[i..j + 1], |s.log.results|, s.log.lastTs, Some(row));
            && r.outcome.Accepted? && Remaining(r.s.walk) == Remaining(At(below, f, j + 1))
            && Added(s.log, r.s.log, rows, 2 * SizeAll(f.plan.children[i..j + 1]))
            && r.s.maxNode == Larger(s.maxNode, NodeOf(x, SiblingId(f, j)))
  {
    hide Valid, InStep, Remaining, At, Spine, Before, FillAll, StepEvent, TourAll, LostTrees, Target, SizeAll,
        SiblingId,
         Added;
    BeforeChildEnd(root, below, f, i, j);
    SiblingsGrow(f, j, j);
    LaterChild(root, below, f, i, j);
    OtherEndExact(root, s, Ended(x, SiblingId(f, j)));
    var gap, after := TourAll(f.plan.children[i..j + 1], SiblingId(f, i)), Remaining(At(below, f, j + 1));
    assert (gap + after)[..|gap|] == gap && (gap + after)[|gap|..] == after;
    FillTrees(s.log, f.plan.children[i..j + 1], SiblingId(f, i));
  }

  /** The own end of `f` arrives. */
  lemma {:induction false} OwnEndHeard(root: Plan, x: Execution, below: seq<Frame>, f: Frame, i: nat, row: nat,
                                       s: Session) returns (t: Session)
    requires Tracking(root, x, below, f, i, |f.plan.children|, row, s)
    ensures Leads(root, s, [Ended(x, f.id)], t)
    ensures InStep(root, t) && Valid(root, t.walk) && t.walk == Next(At(below, f, |f.plan.children|))
    ensures t.log == CloseTop(s.log.(lastTs := x.endedAt(f.id)), false) && t.maxNode == s.maxNode
  {
    var e, n := Ended(x, f.id), |f.plan.children|;
    hide Valid, InStep, Remaining, At, Spine, Before, StepEnd, Next, CloseTop, Target;
    BeforeOwnEnd(root, below, f, i);
    NextAt(root, below, f, n);
    OwnEndExact(root, s, e);
    EndKeepsMirror(root, s, e);
    t := StepEvent(root, s, e).s;
    InStepIsValid(root, t);
    NextValid(root, At(below, f, n));
    var evs := Remaining(s.walk);
    var k := |Before(evs, f.id, false)|;
    TargetMatches(evs, f.id, false);
    assert evs[k..][1..] == evs[k + 1..];
    SameRemaining(root, t.walk, Next(At(below, f, n)));
    LeadsOne(root, s, e, t);
  }

  // ---------- executing ----------

  /** `t` is `s` with what the account says recorded. */
  predicate RecordedAs(s: Session, t: Session, a: Account) {
    && t.log.results == s.log.results + a.rows && t.log.stack == s.log.stack
    && t.maxNode == a.maxNode && t.log.lastTs == a.lastTs
  }

  /** What the children from `j` on are to record in session `s`. */
  function ToRecord(x: Execution, h: nat -> Hearing, f: Frame, i: nat, j: nat, row: nat, s: Session): Account
    requires i <= j <= |f.plan.children| && s.maxNode >= 0
  {
    Recorded(x, h, f.plan.children, f.id + 1, i, j, row, |s.log.results|, s.maxNode, s.log.lastTs)
  }

  lemma {:induction false} TrackingBasics(root: Plan, x: Execution, below: seq<Frame>, f: Frame, i: nat, j: nat,
                                          row: nat, s: Session)
    requires Tracking(root, x, below, f, i, j, row, s)
    ensures i <= j <= |f.plan.children| && s.maxNode >= 1 && Valid(root, s.walk)
    ensures s.log.seqno == |s.log.results| + 1 && Parent(s.log.stack) == Some(row)
  {}

  /** The events of the children from `j` on are accepted and record exactly what they are to record. */
  lemma {:induction false} ChildrenHeard(root: Plan, x: Execution, h: nat -> Hearing, below: seq<Frame>, f: Frame,
                                         i: nat, j: nat, row: nat, s: Session)
    returns (k: nat, t: Session)
    requires Tracking(root, x, below, f, i, j, row, s)
    ensures i <= j <= |f.plan.children| && s.maxNode >= 0 && Tracking(root, x, below, f, k, |f.plan.children|, row, t)
    ensures Leads(root, s, HeardStreamAll(x, h, f.plan.children[j..], SiblingId(f, j), NodeOf(x, f.id)), t)
    ensures RecordedAs(s, t, ToRecord(x, h, f, i, j, row, s))
    decreases SizeAll(f.plan.children[j..]), 2
  {
    hide Tracking, Valid, Leads, HeardStream, HeardStreamAll, Recorded, LostTrees, SizeAll, Size, SiblingId, RanBefore,
         Started, Ended, Heard, Recorded1, RecordedAs, ToRecord;
    TrackingBasics(root, x, below, f, i, j, row, s);
    FirstHeard(x, h, f, j);
    if j == |f.plan.children| {
      NothingLeft(x, h, f, i, row, s);
      LeadsNowhere(root, s);
      k, t := i, s;
    } else {
      var node, rest := NodeOf(x, f.id), f.plan.children[j + 1..];
      var m, u := ChildHeard(root, x, h, below, f, i, j, row, s);
      k, t := ChildrenHeard(root, x, h, below, f, m, j + 1, row, u);
      LeadsOn(root, s, HeardStream(x, h, f.plan.children[j], SiblingId(f, j), node), u,
              HeardStreamAll(x, h, rest, SiblingId(f, j + 1), node), t);
      RecordStep(x, h, f, i, j, row, s, u, t);
    }
  }

  /** Child `j` alone. */
  lemma {:induction false} ChildHeard(root: Plan, x: Execution, h: nat -> Hearing, below: seq<Frame>, f: Frame, i: nat,
                                      j: nat, row: nat, s: Session) returns (m: nat, u: Session)
    requires Tracking(root, x, below, f, i, j, row, s) && j < |f.plan.children|
    ensures i <= j && s.maxNode >= 0 && m == (if Heard(x, h, SiblingId(f, j)) == Neither then i else j + 1)
    ensures Tracking(root, x, below, f, m, j + 1, row, u)
    ensures Leads(root, s, HeardStream(x, h, f.plan.children[j], SiblingId(f, j), NodeOf(x, f.id)), u)
    ensures Recorded1(x, h, f, i, j, row, s, u)
    decreases Size(f.plan.children[j]), 1
  {
    hide Tracking, Valid, Leads, HeardStream, HeardStreamAll, Recorded, LostTrees, SizeAll, Size, SiblingId, RanBefore,
         Started, Ended, Heard;
    TrackingBasics(root, x, below, f, i, j, row, s);
    FirstHeard(x, h, f, j);
    var id := SiblingId(f, j);
    match Heard(x, h, id) {
      case Neither =>
        NodeSilent(root, x, below, f, i, j, row, s);
        LeadsNowhere(root, s);
        m, u := i, s;
      case EndOnly =>
        RanIfHeard(x, h, id);
        u := EndHeard(root, x, below, f, i, j, row, s);
        m := j + 1;
      case Both =>
        u := NodeHeard(root, x, h, below, f, i, j, row, s);
        m := j + 1;
    }
  }

  lemma {:induction false} RanIfHeard(x: Execution, h: nat -> Hearing, id: nat)
    requires !Heard(x, h, id).Neither?
    ensures x.ran(id)
  {}

  /** The stream from child `j` on. */
  lemma {:induction false} FirstHeard(x: Execution, h: nat -> Hearing, f: Frame, j: nat)
    requires j <= |f.plan.children|
    ensures var ps, id, node := f.plan.children[j..], SiblingId(f, j), NodeOf(x, f.id);
            if j == |f.plan.children| then HeardStreamAll(x, h, ps, id, node) == []
            else
              var p, rest, next := f.plan.children[j], f.plan.children[j + 1..], SiblingId(f, j + 1);
              && SizeAll(ps) == Size(p) + SizeAll(rest)
              && HeardStreamAll(x, h, ps, id, node) == HeardStream(x, h, p, id, node)
                  + HeardStreamAll(x, h, rest, next, node)
              && (Heard(x, h, id) == Neither ==> HeardStream(x, h, p, id, node) == [])
              && (Heard(x, h, id) == EndOnly ==> HeardStream(x, h, p, id, node) == [Ended(x, id)])
  {
    if j < |f.plan.children| {
      SizeAllSnoc(f.plan.children, j);
      assert f.plan.children[j..][1..] == f.plan.children[j + 1..];
    }
  }

  lemma {:induction false} NodeSilent(root: Plan, x: Execution, below: seq<Frame>, f: Frame, i: nat, j: nat, row: nat,
                                      s: Session)
    requires Tracking(root, x, below, f, i, j, row, s) && j < |f.plan.children|
    ensures Tracking(root, x, below, f, i, j + 1, row, s)
  {
    hide Valid, InStep, At, Spine, SiblingId;
    SiblingsGrow(f, j, j + 1);
    RanBeforeGrows(x, SiblingId(f, j), SiblingId(f, j + 1));
  }

  lemma {:induction false} NothingLeft(x: Execution, h: nat -> Hearing, f: Frame, i: nat, row: nat, s: Session)
    requires i <= |f.plan.children| && s.maxNode >= 0
    ensures RecordedAs(s, s, ToRecord(x, h, f, i, |f.plan.children|, row, s))
  {
    assert s.log.results + [] == s.log.results;
  }

  /** What the events of child `j` alone have recorded. */
  ghost predicate Recorded1(x: Execution, h: nat -> Hearing, f: Frame, i: nat, j: nat, row: nat, s: Session, u: Session)
    requires i <= j < |f.plan.children| && s.maxNode >= 0
  {
    var ps, p, id, n := f.plan.children, f.plan.children[j], SiblingId(f, j), |s.log.results|;
    && u.log.stack == s.log.stack
    && match Heard(x, h, id)
       case Neither => u == s
       case EndOnly =>
         && u.log.results == s.log.results + LostTrees(ps[i..j + 1], n, s.log.lastTs, Some(row))
         && u.maxNode == Larger(s.maxNode, NodeOf(x, id)) && u.log.lastTs == s.log.lastTs + 2 * SizeAll(ps[i..j + 1])
       case Both =>
         var lost := FilledIn(x, f, i, j, row, s);
         var m := n + |lost|;
         var inner := Recorded(x, h, p.children, id + 1, 0, 0, m, m + 1, NodeOf(x, id), x.startedAt(id));
         && u.log.results == s.log.results + (lost + [HeardRow(x, p, id, m, row)] + inner.rows)
         && u.maxNode == inner.maxNode && u.log.lastTs == x.endedAt(id)
  }

  /** The account of child `j` and that of the others make up the whole. */
  lemma {:induction false} RecordStep(x: Execution, h: nat -> Hearing, f: Frame, i: nat, j: nat, row: nat, s: Session,
                                      u: Session, t: Session)
    requires i <= j < |f.plan.children| && s.maxNode >= 0 && u.maxNode >= 0
    requires Recorded1(x, h, f, i, j, row, s, u)
    requires RecordedAs(u, t, ToRecord(x, h, f, if Heard(x, h, SiblingId(f, j)) == Neither then i
            else j + 1, j + 1, row, u))
    ensures RecordedAs(s, t, ToRecord(x, h, f, i, j, row, s))
  {
    hide LostTrees, SizeAll, RanBefore;
    var id := SiblingId(f, j);
    assert ChildId(f.plan.children, f.id + 1, j) == id;
    match Heard(x, h, id)
    case Neither =>
    case EndOnly =>
      var lost := LostTrees(f.plan.children[i..j + 1], |s.log.results|, s.log.lastTs, Some(row));
      var rest := ToRecord(x, h, f, j + 1, j + 1, row, u);
      Assoc(s.log.results, lost, rest.rows);
    case Both =>
      var lost := FilledIn(x, f, i, j, row, s);
      var m := |s.log.results| + |lost|;
      var inner := Recorded(x, h, f.plan.children[j].children, id + 1, 0, 0, m, m + 1, NodeOf(x, id), x.startedAt(id));
      var rest := ToRecord(x, h, f, j + 1, j + 1, row, u);
      Assoc(s.log.results, lost + [HeardRow(x, f.plan.children[j], id, m, row)] + inner.rows, rest.rows);
  }

  /** Both events of child `j` arrive, and what does of the events inside it. */
  lemma {:induction false} NodeHeard(root: Plan, x: Execution, h: nat -> Hearing, below: seq<Frame>, f: Frame, i: nat,
                                     j: nat, row: nat, s: Session) returns (t: Session)
    requires Tracking(root, x, below, f, i, j, row, s) && j < |f.plan.children| && Heard(x, h, SiblingId(f, j)) == Both
    ensures Tracking(root, x, below, f, j + 1, j + 1, row, t) && s.maxNode >= 0
    ensures Leads(root, s, HeardStream(x, h, f.plan.children[j], SiblingId(f, j), NodeOf(x, f.id)), t)
    ensures Recorded1(x, h, f, i, j, row, s, t)
    decreases Size(f.plan.children[j]), 0
  {
    hide Tracking, Valid, InStep, Leads, HeardStreamAll, Recorded, LostTrees, FilledIn, SizeAll, RanBefore, At, Spine,
         Started, Ended, Next, CloseTop, Opened, Recorded1, RecordedAs, SiblingId;
    TrackingBasics(root, x, below, f, i, j, row, s);
    RanIfHeard(x, h, SiblingId(f, j));
    var outer, g := below + [Executing(f, j)], Child(f, j);
    var s1 := StartHeard(root, x, below, f, i, j, row, s);
    var m := |s.log.results| + |FilledIn(x, f, i, j, row, s)|;
    InsideTracked(root, x, below, f, i, j, row, s, s1);
    assert g.plan.children[0..] == g.plan.children;
    SiblingStart(g);
    var k, s2 := ChildrenHeard(root, x, h, outer, g, 0, 0, m, s1);
    t := OwnEndHeard(root, x, outer, g, k, m, s2);
    ClosedRow(root, x, h, below, f, i, j, row, s, s1, s2, k, t);
    LeadsAll(root, s, [Started(x, g.plan, g.id, NodeOf(x, f.id))], s1,
             HeardStreamAll(x, h, g.plan.children, g.id + 1, NodeOf(x, g.id)), s2, [Ended(x, g.id)], t);
  }

  lemma {:induction false} LeadsAll(root: Plan, s: Session, a: seq<LiveEvent>, t: Session, b: seq<LiveEvent>,
                                    u: Session,
                                    c: seq<LiveEvent>, v: Session)
    requires Leads(root, s, a, t) && Leads(root, t, b, u) && Leads(root, u, c, v)
    ensures Leads(root, s, a + b + c, v)
  {
    hide Leads;
    LeadsOn(root, s, a, t, b, u);
    LeadsOn(root, s, a + b, u, c, v);
  }

  lemma {:induction false} SiblingStart(g: Frame)
    ensures SiblingId(g, 0) == g.id + 1
  {
    assert g.plan.children[..0] == [];
  }

  /** After the start of child `j` the execution is at its first child. */
  lemma {:induction false} InsideTracked(root: Plan, x: Execution, below: seq<Frame>, f: Frame, i: nat, j: nat,
                                         row: nat,
                                         s: Session, t: Session)
    requires Tracking(root, x, below, f, i, j, row, s) && j < |f.plan.children| && x.ran(SiblingId(f, j))
    requires InStep(root, t) && Valid(root, t.walk) && t.walk == Next(At(below, f, j))
            && t.maxNode == NodeOf(x, SiblingId(f, j))
    requires var rows := FilledIn(x, f, i, j, row, s);
             t.log == Opened(x, s.log.(results := s.log.results + rows, seqno := s.log.seqno + |rows|),
                             f.plan.children[j], SiblingId(f, j))
    ensures var g, m := Child(f, j), |s.log.results| + |FilledIn(x, f, i, j, row, s)|;
            && Tracking(root, x, below + [Executing(f, j)], g, 0, 0, m, t)
            && |t.log.results| == m + 1 && t.log.lastTs == x.startedAt(g.id)
  {
    hide Valid, InStep, At, Spine, FilledIn, Next;
    GoIn(root, below, f, j);
    SiblingStart(Child(f, j));
  }

  /** The end closes the row opened at the start; everything inside comes after it. */
  lemma {:induction false} ClosedRow(root: Plan, x: Execution, h: nat -> Hearing, below: seq<Frame>, f: Frame, i: nat,
                                     j: nat, row: nat, s: Session, s1: Session, s2: Session, k: nat, t: Session)
    requires Tracking(root, x, below, f, i, j, row, s) && j < |f.plan.children| && Heard(x, h, SiblingId(f, j)) == Both
    requires var rows := FilledIn(x, f, i, j, row, s);
             && s1.log == Opened(x, s.log.(results := s.log.results + rows, seqno := s.log.seqno + |rows|),
                                 f.plan.children[j], SiblingId(f, j))
             && s1.maxNode == NodeOf(x, SiblingId(f, j))
             && RecordedAs(s1, s2, ToRecord(x, h, Child(f, j), 0, 0, |s.log.results| + |rows|, s1))
             && Tracking(root, x, below + [Executing(f, j)], Child(f, j), k, |f.plan.children[j].children|,
                         |s.log.results| + |rows|, s2)
    requires |s1.log.results| == |s.log.results| + |FilledIn(x, f, i, j, row, s)| + 1
    requires s1.log.lastTs == x.startedAt(SiblingId(f, j))
    requires InStep(root, t) && Valid(root, t.walk)
    requires t.walk == Next(At(below + [Executing(f, j)], Child(f, j), |f.plan.children[j].children|))
    requires t.log == CloseTop(s2.log.(lastTs := x.endedAt(SiblingId(f, j))), false) && t.maxNode == s2.maxNode
    ensures Tracking(root, x, below, f, j + 1, j + 1, row, t) && s.maxNode >= 0 && Recorded1(x, h, f, i, j, row, s, t)
  {
    hide Valid, InStep, At, Spine, FilledIn, Next, Recorded, CloseTop, Opened, LostTrees, SizeAll, SiblingId;
    var g, rows := Child(f, j), FilledIn(x, f, i, j, row, s);
    var inner := ToRecord(x, h, g, 0, 0, |s.log.results| + |rows|, s1);
    TrackingBasics(root, x, below, f, i, j, row, s);
    ClosedLog(x, s.log, rows, f, j, row, s1.log, s2.log, inner.rows);
    GoOut(root, below, f, j);
    NextSibling(f, j);
    SiblingsGrow(f, j, j + 1);
    NumbersGrow(x, f, j);
  }

  lemma {:induction false} NextSibling(f: Frame, j: nat)
    requires j < |f.plan.children|
    ensures SiblingId(f, j + 1) == SiblingId(f, j) + Size(f.plan.children[j])
    ensures SiblingId(Child(f, j), |f.plan.children[j].children|) == SiblingId(f, j + 1)
  {
    SizeAllSnoc(f.plan.children, j);
    var g := Child(f, j);
    assert g.plan.children[..|g.plan.children|] == g.plan.children;
  }

  lemma {:induction false} NumbersGrow(x: Execution, f: Frame, j: nat)
    requires j < |f.plan.children|
    ensures NodeOf(x, f.id) <= NodeOf(x, SiblingId(f, j))
  {
    SiblingsGrow(f, j, j);
    RanBeforeGrows(x, f.id, SiblingId(f, j));
  }

  lemma {:induction false} ClosedLog(x: Execution, log: Log, rows: seq<TestResult>, f: Frame, j: nat, row: nat,
                                     started: Log, inside: Log, inner: seq<TestResult>)
    requires j < |f.plan.children| && log.seqno == |log.results| + 1 && Parent(log.stack) == Some(row)
    requires started == Opened(x, log.(results := log.results + rows, seqno := log.seqno + |rows|), f.plan.children[j],
                              SiblingId(f, j))
    requires inside.results == started.results + inner && inside.stack == started.stack
            && inside.seqno == |inside.results| + 1
    ensures var id, m := SiblingId(f, j), |log.results| + |rows|;
            var r := CloseTop(inside.(lastTs := x.endedAt(id)), false);
            && r.stack == log.stack && r.lastTs == x.endedAt(id) && r.seqno == |r.results| + 1
            && r.results == log.results + (rows + [HeardRow(x, f.plan.children[j], id, m, row)] + inner)
  {
    hide SizeAll;
    var id, m := SiblingId(f, j), |log.results| + |rows|;
    var r := CloseTop(inside.(lastTs := x.endedAt(id)), false);
    assert r.stack == log.stack;
    assert r.results == log.results + (rows + [HeardRow(x, f.plan.children[j], id, m, row)] + inner);
  }

  // ---------- whole runs ----------

  lemma {:induction false} RootStarts(root: Plan, x: Execution, runStart: int) returns (t: Session)
    requires TestsAreLeaves(root) && x.ran(0)
    ensures var s, g := Begin(root, runStart), Frame(root, 0, -1, true);
            && Leads(root, s, [Started(x, root, 0, 0)], t)
            && t.walk == At([], g, 0) && t.log == Opened(x, s.log, root, 0) && t.maxNode == 1
            && Tracking(root, x, [], g, 0, 0, 0, t)
  {
    hide Valid, InStep, SkipTo, AdvancePlan;
    var s, g, e := Begin(root, runStart), Frame(root, 0, -1, true), Started(x, root, 0, 0);
    StartValid(root);
    BeginInStep(root, runStart);
    SiblingStart(g);
    assert [] + [Executing(g, -1)] == [g];
    assert Next(Start(root)) == At([], g, 0);
    t := Session(At([], g, 0), Opened(x, s.log, root, 0), 1);
    assert StepEvent(root, s, e) == Step(t, Accepted);
    StartKeepsMirror(root, s, e);
    LeadsOne(root, s, e, t);
    InStepIsValid(root, t);
  }

  lemma {:induction false} RootLeft(root: Plan, g: Frame)
    ensures Next(At([], g, |g.plan.children|)).frames == []
  {
    AtTop([], g, |g.plan.children|);
  }

  /** Whatever whole parts of an execution were lost, and whichever of their ends arrive: every event that arrives
      is accepted, both stacks end up empty, and the results are exactly those the account says. */
  lemma {:induction false} HeardImported(root: Plan, x: Execution, h: nat -> Hearing, runStart: int)
    requires TestsAreLeaves(root) && Heard(x, h, 0) == Both
    ensures Valid(root, Begin(root, runStart).walk)
    ensures var r := Feed(root, Begin(root, runStart), HeardStream(x, h, root, 0, 0));
            && r.outcome.Accepted? && r.s.walk.frames == [] && r.s.log.stack == []
            && r.s.log.results == [RootRow(x, root)] + RunRecorded(x, h, root).rows
  {
    hide Tracking, Valid, InStep, HeardStreamAll, Recorded, At, Started, Ended, Next, CloseTop, Feed, RanBefore,
        SiblingId;
    var s, g := Begin(root, runStart), Frame(root, 0, -1, true);
    var s1 := RootStarts(root, x, runStart);
    SiblingStart(g);
    assert root.children[0..] == root.children;
    var k, s2 := ChildrenHeard(root, x, h, [], g, 0, 0, 0, s1);
    var t := OwnEndHeard(root, x, [], g, k, 0, s2);
    RootLeft(root, g);
    LeadsAll(root, s, [Started(x, root, 0, 0)], s1, HeardStreamAll(x, h, root.children, 1, NodeOf(x, 0)), s2,
             [Ended(x, 0)], t);
    RootClosed(x, root, runStart, s2.log, RunRecorded(x, h, root).rows);
  }

  lemma {:induction false} RootClosed(x: Execution, root: Plan, runStart: int, inside: Log, inner: seq<TestResult>)
    requires inside.results == Opened(x, Begin(root, runStart).log, root, 0).results + inner
    requires inside.stack == Opened(x, Begin(root, runStart).log, root, 0).stack
    ensures var r := CloseTop(inside.(lastTs := x.endedAt(0)), false);
            r.stack == [] && r.results == [RootRow(x, root)] + inner
  {
    assert RanBefore(x, 0) == 0;
    var r := CloseTop(inside.(lastTs := x.endedAt(0)), false);
    assert r.results == [RootRow(x, root)] + inner;
  }

  /** A lossless stream of a partial execution is imported exactly: every event is accepted, the results are
      the executed nodes in preorder, each with its reported times, inside the row of the node around it and
      none of them lost, and both stacks end up empty. */
  lemma {:induction false} ExecutionImported(root: Plan, x: Execution, runStart: int)
    requires TestsAreLeaves(root) && x.ran(0) && Coherent(x, root, 0)
    ensures Valid(root, Begin(root, runStart).walk)
    ensures var r := Feed(root, Begin(root, runStart), Stream(x, root, 0, 0));
            && r.outcome.Accepted?
            && r.s.walk.frames == [] && r.s.log.stack == []
            && r.s.log.results == Rows(x, root, 0, None)
            && NamesOf(r.s.log.results) == ExecutedNames(x, Tour(root, 0))
  {
    hide Feed, Valid, HeardStream, Stream, Recorded, Rows, ExecutedNames, Tour, Coherent, RunRecorded, Heard;
    RowsInPreorder(x, root, 0, None);
    RootHeard(x);
    HeardImported(root, x, AllHeard(), runStart);
    NoLossStream(x, root, 0, 0);
    NoLossRun(x, root);
  }

  lemma {:induction false} RootHeard(x: Execution)
    requires x.ran(0)
    ensures Heard(x, AllHeard(), 0) == Both
  {}

  // ---------- the run's own end ----------

  /** Start a run and its first child, lose the child's end: the run's end closes the gap and is refused. */
  lemma {:induction false} RunEndRefused(root: Plan, x: Execution, runStart: int)
    requires TestsAreLeaves(root) && root.children != [] && x.ran(0) && x.ran(1)
    ensures Valid(root, Begin(root, runStart).walk)
    ensures var events := [Started(x, root, 0, 0), Started(x, root.children[0], 1, 1)] + [Ended(x, 0)];
            var r := Feed(root, Begin(root, runStart), events);
            r.outcome == Rejected(PlanOver) && r.s.log.stack == []
  {
    hide At, StepEnd, Feed, OpenResult, InStep, Next, Valid, Tracking, Leads, FilledIn;
    var s, g := Begin(root, runStart), Frame(root, 0, -1, true);
    var e1, e2, e3 := Started(x, root, 0, 0), Started(x, root.children[0], 1, 1), Ended(x, 0);
    assert RanBefore(x, 0) == 0;
    SiblingStart(g);
    var s1 := RootStarts(root, x, runStart);
    var s2 := StartHeard(root, x, [], g, 0, 0, 0, s1);
    TopOpened(x, s1, s2, root.children[0], FilledIn(x, g, 0, 0, 0, s1));
    LeadsOn(root, s, [e1], s1, [e2], s2);
    assert [e1] + [e2] == [e1, e2];
    InStepIsValid(root, s2);
    OpenMeansPlan(s2.walk, s2.log);
    GapEndAccepted(root, s2, e3);
    FeedOne(root, s2, e3);
    LeadsThen(root, s, [e1, e2], s2, [e3]);
  }

  lemma {:induction false} TopOpened(x: Execution, s1: Session, s2: Session, p: Plan, rows: seq<TestResult>)
    requires s2.log == Opened(x, s1.log.(results := s1.log.results + rows, seqno := s1.log.seqno + |rows|), p, 1)
    ensures s2.log.stack != [] && Innermost(s2.log.stack).planId == 1
  {}

  lemma {:induction false} LeadsThen(root: Plan, s: Session, a: seq<LiveEvent>, t: Session, b: seq<LiveEvent>)
    requires Leads(root, s, a, t) && Valid(root, t.walk)
    ensures Valid(root, s.walk) && Feed(root, s, a + b) == Feed(root, t, b)
  {
    hide Feed, Valid;
    FeedConcat(root, s, a, b);
  }
}
