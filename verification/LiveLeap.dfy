/** A run on which the mirror breaks.  A package loses its start and end events; a prologue-style skip
    leaves its last test out.  The next test outside the package is then accepted while the package, being
    LOST, is still open, and is recorded as its child. */
module LiveLeap {
  import opened Wrappers
  import opened Plans
  import opened PlanWalk
  import opened LiveSession
  import opened LiveMirror
  import opened LiveProtocol
  import opened LiveStream

  const X := Plan("x", TEST, false, false, [])
  const Y := Plan("y", TEST, false, false, [])
  const B := Plan("b", TEST, false, false, [])
  const A := Plan("a", "pkg", false, false, [X, Y])
  const ROOT := Plan("root", "pkg", false, false, [A, B])

  const StartX := TestStart(3, 2, 2, 10, TEST, "x", -1)
  const EndX := TestEnd(3, 2, 20, true)
  const StartB := TestStart(4, 1, 4, 30, TEST, "b", -1)

  /** The sender's node numbers and the plan numbers they stand for. */
  const PLAN_OF: map<int, int> := map[1 := 0, 2 := 1, 3 := 2, 4 := 4]

  /** Open root and package, both LOST. */
  function Opened(): seq<OpenTest> {
    [OpenTest("pkg", 1, LOST_ITEM_NODE_ID, 0, 0), OpenTest("pkg", 2, LOST_ITEM_NODE_ID, 1, 1)]
  }

  function RootFrame(child: int): Frame {
    Frame(ROOT, 0, child, true)
  }

  function InX(): Walk { Walk([RootFrame(0), Frame(A, 1, 0, true), Frame(X, 2, -1, true)], 3) }

  function AtY(): Walk { Walk([RootFrame(0), Frame(A, 1, 1, true), Frame(Y, 3, -1, true)], 4) }

  function AtB(): Walk { Walk([RootFrame(1), Frame(B, 4, -1, true)], 5) }

  lemma {:induction false} Sizes()
    ensures Size(A) == 3 && Size(B) == 1 && Size(X) == 1 && Size(Y) == 1 && Size(ROOT) == 5
    ensures A.children[..0] == [] && A.children[..1] == [X] && ROOT.children[..0] == [] && ROOT.children[..1] == [A]
    ensures SizeAll([A]) == 3 && SizeAll([X]) == 1 && SizeAll([]) == 0
  {
    assert Size(X) == 1 && Size(Y) == 1 && Size(B) == 1;
    assert A.children[1..] == [Y] && [Y][1..] == [];
    assert SizeAll([Y]) == 1;
    assert Size(A) == 3;
    assert ROOT.children[1..] == [B] && [B][1..] == [];
    assert SizeAll([B]) == 1;
    assert [A][1..] == [] && [X][1..] == [];
  }

  lemma {:induction false} WalksValid()
    ensures Valid(ROOT, Start(ROOT)) && Valid(ROOT, AtY()) && Valid(ROOT, AtB())
  {
    Sizes();
    assert Y.children[..0] == [] && B.children[..0] == [];
    assert Link(AtY().frames[0], AtY().frames[1]) && Link(AtY().frames[1], AtY().frames[2]);
    assert Link(AtB().frames[0], AtB().frames[1]);
  }

  /** From where the tracker expects `y`, the skip to `b` leaves the package behind. */
  lemma {:induction false} SkipFromYToB()
    ensures Valid(ROOT, AtY()) && SkipTo(ROOT, AtY(), 4, true) == AtB()
  {
    WalksValid();
    hide Valid, SkipTo, Remaining, Next;
    var w1 := Walk([RootFrame(0), Frame(A, 1, 1, true), Frame(Y, 3, -1, false)], 4);
    var w2 := Walk([RootFrame(0), Frame(A, 1, 1, false)], 4);
    StepsToB(w1, w2);
    SkipToStep(ROOT, AtY(), 4, true);
    SkipToStep(ROOT, w1, 4, true);
    SkipToStep(ROOT, w2, 4, true);
    SkipToDone(ROOT, AtB(), 4, true);
  }

  lemma {:induction false} StepsToB(w1: Walk, w2: Walk)
    requires w1 == Walk([RootFrame(0), Frame(A, 1, 1, true), Frame(Y, 3, -1, false)], 4)
    requires w2 == Walk([RootFrame(0), Frame(A, 1, 1, false)], 4)
    ensures Next(AtY()) == w1 && Next(w1) == w2 && Next(w2) == AtB()
  {}

  lemma {:induction false} SkipFromStartToX()
    ensures Valid(ROOT, Start(ROOT)) && SkipTo(ROOT, Start(ROOT), 2, true) == InX()
  {
    WalksValid();
    var w1 := Walk([RootFrame(0), Frame(A, 1, -1, true)], 2);
    assert Next(Start(ROOT)) == w1 && Next(w1) == InX();
    hide Next, Remaining, SkipTo;
    SkipToStep(ROOT, Start(ROOT), 2, true);
    SkipToStep(ROOT, w1, 2, true);
    SkipToDone(ROOT, InX(), 2, true);
  }

  /** Both starts report the node around them. */
  lemma {:induction false} Truthful()
    ensures Valid(ROOT, Start(ROOT)) && TruthfulParent(ROOT, Start(ROOT), StartX, PLAN_OF)
    ensures Valid(ROOT, AtY()) && TruthfulParent(ROOT, AtY(), StartB, PLAN_OF)
  {
    SkipFromStartToX();
    SkipFromYToB();
    hide SkipTo, Valid;
    assert OpenFrames(InX()) == [RootFrame(0), Frame(A, 1, 0, true)];
    assert OpenFrames(AtB()) == [RootFrame(1)];
  }

  function RowsUpToX(finish: Option<int>): seq<TestResult> {
    [TestResult(1, "root", "pkg", None, LOST_TIN, 1, None, false),
     TestResult(2, "a", "pkg", Some(0), LOST_TIN, 2, None, false),
     TestResult(3, "x", TEST, Some(1), -1, 10, finish, false)]
  }

  function AfterStartX(): Session {
    Session(Walk([RootFrame(0), Frame(A, 1, 0, true), Frame(X, 2, -1, false)], 3),
            Log(RowsUpToX(None), Opened() + [OpenTest(TEST, 3, 3, 2, 2)], 4, 10), 3)
  }

  function AfterEndX(): Session {
    Session(AtY(), Log(RowsUpToX(Some(20)), Opened(), 4, 20), 3)
  }

  function AfterStartB(): Session {
    Session(Walk([RootFrame(1), Frame(B, 4, -1, false)], 5),
            Log(RowsUpToX(Some(20)) + [TestResult(4, "b", TEST, Some(1), -1, 30, None, false)],
                Opened() + [OpenTest(TEST, 4, 4, 4, 3)], 5, 30), 4)
  }

  lemma {:induction false} FillOne(root: Plan, s: Session, target: int, start: bool)
    requires Valid(root, s.walk) && !Reached(s.walk, target, start) && CanFill(s.log, Peek(s.walk).value)
    ensures Valid(root, Next(s.walk))
    ensures FillTo(root, s, target, start)
         == FillTo(root, Session(Next(s.walk), FillEvent(s.log, Peek(s.walk).value), s.maxNode), target, start)
  {
    hide Next, Valid;
    SkipToStep(root, s.walk, target, start);
  }

  function FilledLog(): Log {
    Log(RowsUpToX(None)[..2], Opened(), 3, 2)
  }

  /** Root and package are filled in as LOST on the way to `x`. */
  lemma {:induction false} GapFilled()
    ensures Valid(ROOT, Start(ROOT)) && Valid(ROOT, InX())
    ensures AdvancePlan(ROOT, Begin(ROOT, 0), 2, true) == Step(Session(InX(), FilledLog(), 0), Accepted)
  {
    WalksValid();
    hide Valid, SizeAll;
    var s0 := Begin(ROOT, 0);
    FillOne(ROOT, s0, 2, true);
    var s1 := Session(Next(s0.walk), FillEvent(s0.log, Event(0, ROOT, true)), 0);
    assert s1.walk == Walk([RootFrame(0), Frame(A, 1, -1, true)], 2);
    FillOne(ROOT, s1, 2, true);
    assert Next(s1.walk) == InX();
    assert FillEvent(s1.log, Event(1, A, true)) == FilledLog();
  }

  lemma {:induction false} OpenedX()
    ensures Valid(ROOT, InX())
    ensures OpenStarted(ROOT, Session(InX(), FilledLog(), 3), StartX) == Step(AfterStartX(), Accepted)
  {
    GapFilled();
    hide Valid;
    assert Next(InX()) == AfterStartX().walk;
    assert OpenResult(FilledLog().(lastTs := 10), "x", TEST, 3, 2, -1) == AfterStartX().log;
  }

  lemma {:induction false} FirstEvent()
    ensures Valid(ROOT, Start(ROOT)) && StepEvent(ROOT, Begin(ROOT, 0), StartX) == Step(AfterStartX(), Accepted)
  {
    GapFilled();
    OpenedX();
    hide Valid, AdvancePlan, OpenStarted, SkipTo;
  }

  lemma {:induction false} ClosedX()
    ensures Valid(ROOT, AfterStartX().walk) && StepEvent(ROOT, AfterStartX(), EndX) == Step(AfterEndX(), Accepted)
  {
    FirstEvent();
    hide Valid, AdvancePlan, SkipTo;
    assert Next(AfterStartX().walk) == AtY();
    assert Init(Opened() + [OpenTest(TEST, 3, 3, 2, 2)]) == Opened();
    assert CloseTop(AfterStartX().log.(lastTs := 20), false) == AfterEndX().log;
  }

  lemma {:induction false} AcceptedB()
    ensures Valid(ROOT, AtY()) && StepEvent(ROOT, AfterEndX(), StartB) == Step(AfterStartB(), Accepted)
  {
    WalksValid();
    SkipFromYToB();
    hide Valid, AdvancePlan, SkipTo, SizeAll;
    assert Next(AtB()) == AfterStartB().walk;
    assert OpenResult(AfterEndX().log.(lastTs := 30), "b", TEST, 4, 4, -1) == AfterStartB().log;
    assert OpenStarted(ROOT, Session(AtB(), AfterEndX().log, 4), StartB) == Step(AfterStartB(), Accepted);
  }

  lemma {:induction false} LeapsToB()
    ensures Leaps(AfterEndX(), StartB)
  {
    Sizes();
    var p := AtY().frames[1];
    assert SiblingId(p, 1) == 3;
  }

  /** Reachable with true node numbers and true parents: all three events are accepted, `b`, a child of the
      root, is recorded inside the package that ended before it, and the stacks no longer agree. */
  lemma {:induction false} LostParentLeaps()
    ensures Valid(ROOT, Start(ROOT)) && TruthfulParent(ROOT, Start(ROOT), StartX, PLAN_OF)
    ensures Feed(ROOT, Begin(ROOT, 0), [StartX, EndX]) == Step(AfterEndX(), Accepted)
    ensures Valid(ROOT, AfterEndX().walk) && TruthfulParent(ROOT, AfterEndX().walk, StartB, PLAN_OF)
    ensures Leaps(AfterEndX(), StartB)
    ensures var r := Feed(ROOT, Begin(ROOT, 0), [StartX, EndX, StartB]);
            && r.outcome.Accepted?
            && ROOT.children[1] == B
            && |r.s.log.results| == 4
            && r.s.log.results[3].name == "b" && r.s.log.results[3].parent == Some(1)
            && r.s.log.results[1].name == "a"
            && !Mirror(r.s.walk, r.s.log)
  {
    FirstEvent();
    ClosedX();
    AcceptedB();
    Truthful();
    LeapsToB();
    hide StepEvent, Valid, TruthfulParent, Leaps, SkipTo;
    FeedFirst(ROOT, AfterEndX(), StartB, []);
    FeedFirst(ROOT, AfterStartX(), EndX, [StartB]);
    FeedFirst(ROOT, Begin(ROOT, 0), StartX, [EndX, StartB]);
    FeedFirst(ROOT, AfterStartX(), EndX, []);
    FeedFirst(ROOT, Begin(ROOT, 0), StartX, [EndX]);
    assert [StartX, EndX] == [StartX] + [EndX] && [EndX] + [] == [EndX];
    assert [StartX, EndX, StartB] == [StartX] + [EndX, StartB] && [EndX, StartB] == [EndX] + [StartB];
    assert [StartB] + [] == [StartB];
    assert Feed(ROOT, Begin(ROOT, 0), [StartX, EndX, StartB]) == Step(AfterStartB(), Accepted);
    var r := AfterStartB();
    assert |StackShape(r.log.stack)| == 3 && |Shape(OpenFrames(r.walk))| == 2;
  }
}
