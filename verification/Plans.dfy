/** Execution plans as values.

    A plan description (`Spec`) is what Test Environment sends; `Unfold` is the tree it stands for
    once repeated children and keepalives are written out.  `Tour` is the sequence of enter and exit
    events of that tree with its nodes numbered in preorder, which is the reference the plan tracker
    is proved against. */
module Plans {
  import opened Wrappers

  const TEST := "test"
  const SKIPPED := "skipped"

  datatype Spec = Spec(name: string, nodeType: string, prologue: Option<Spec>, keepalive: Option<Spec>,
                       children: seq<Spec>, epilogue: Option<Spec>, iterations: int)

  datatype Plan = Plan(name: string, nodeType: string, hasPrologue: bool, hasEpilogue: bool,
                       children: seq<Plan>)

  datatype Event = Event(id: nat, plan: Plan, enter: bool)

  // ---------- unfolding a description ----------

  function Unfold(s: Spec): Plan
    decreases s, 1
  {
    Plan(s.name, s.nodeType, s.prologue.Some?, s.epilogue.Some?,
         Optional(s.prologue)
         + UnfoldAll(s.children, Optional(s.keepalive))
         + Optional(s.epilogue))
  }

  function Optional(o: Option<Spec>): seq<Plan>
    decreases o
  {
    match o
    case None => []
    case Some(s) => [Unfold(s)]
  }

  function UnfoldAll(cs: seq<Spec>, keepalive: seq<Plan>): seq<Plan>
    decreases cs
  {
    if cs == [] then []
    else
      var round := keepalive + if cs[0].nodeType != SKIPPED then [Unfold(cs[0])] else [];
      Repeat(round, cs[0].iterations) + UnfoldAll(cs[1..], keepalive)
  }

  /** `range(n)` yields nothing for a negative `n`. */
  function Repeat(ps: seq<Plan>, n: int): seq<Plan>
    decreases if n <= 0 then 0 else n
  {
    if n <= 0 then [] else Repeat(ps, n - 1) + ps
  }

  // ---------- what unfolding means, position by position ----------

  function Rounds(c: Spec): nat {
    if c.iterations < 0 then 0 else c.iterations
  }

  /** How many nodes one round of child `c` takes: the keepalive, if there is one, and the child, unless it is
      skipped. */
  function RoundSize(keepalive: bool, c: Spec): nat {
    (if keepalive then 1 else 0) + if c.nodeType == SKIPPED then 0 else 1
  }

  /** How many nodes all the rounds of these children take. */
  function RoundsSize(keepalive: bool, cs: seq<Spec>): nat {
    if cs == [] then 0 else Rounds(cs[0]) * RoundSize(keepalive, cs[0]) + RoundsSize(keepalive, cs[1..])
  }

  /** `ps` are the rounds of the children `cs`, in order: each round has the keepalive first, then the child. */
  ghost predicate HasRounds(ps: seq<Plan>, cs: seq<Spec>, keepalive: Option<Plan>) {
    && |ps| == RoundsSize(keepalive.Some?, cs)
    && forall i: nat, r: nat {:trigger RoundAt(ps, cs, keepalive, i, r)} ::
         i < |cs| && r < Rounds(cs[i]) ==> RoundAt(ps, cs, keepalive, i, r)
  }

  /** Round `r` of child `i` is where it should be. */
  ghost predicate RoundAt(ps: seq<Plan>, cs: seq<Spec>, keepalive: Option<Plan>, i: nat, r: nat)
    requires i < |cs|
  {
    var width := RoundSize(keepalive.Some?, cs[i]);
    var at := RoundsSize(keepalive.Some?, cs[..i]) + r * width;
    && at + width <= |ps|
    && (keepalive.Some? ==> ps[at] == keepalive.value)
    && (cs[i].nodeType != SKIPPED ==> ps[at + width - 1] == Unfold(cs[i]))
  }

  lemma {:induction false} RepeatAt(ps: seq<Plan>, n: int, r: nat, q: nat)
    requires r < n && q < |ps|
    ensures |Repeat(ps, n)| == n * |ps| && r * |ps| + q < |Repeat(ps, n)|
    ensures Repeat(ps, n)[r * |ps| + q] == ps[q]
    decreases n
  {
    RepeatLength(ps, n);
    RepeatLength(ps, n - 1);
    assert n * |ps| == (n - 1) * |ps| + |ps|;
    if r < n - 1 {
      RepeatAt(ps, n - 1, r, q);
    } else {
      assert r * |ps| + q >= |Repeat(ps, n - 1)|;
    }
  }

  lemma {:induction false} RepeatLength(ps: seq<Plan>, n: int)
    ensures |Repeat(ps, n)| == (if n <= 0 then 0 else n) * |ps|
    decreases if n <= 0 then 0 else n
  {
    if n > 0 {
      RepeatLength(ps, n - 1);
      assert n * |ps| == (n - 1) * |ps| + |ps|;
    }
  }

  lemma {:induction false} UnfoldAllHasRounds(cs: seq<Spec>, keepalive: Option<Plan>)
    ensures HasRounds(UnfoldAll(cs, if keepalive.Some? then [keepalive.value] else []), cs, keepalive)
  {
    if cs != [] {
      var keep := if keepalive.Some? then [keepalive.value] else [];
      var round := keep + if cs[0].nodeType != SKIPPED then [Unfold(cs[0])] else [];
      var first, rest := Repeat(round, cs[0].iterations), UnfoldAll(cs[1..], keep);
      RepeatLength(round, cs[0].iterations);
      UnfoldAllHasRounds(cs[1..], keepalive);
      FirstSize(keepalive.Some?, cs);
      hide Repeat, UnfoldAll, RoundsSize, Unfold, RoundAt;
      forall i: nat, r: nat | i < |cs| && r < Rounds(cs[i])
        ensures RoundAt(first + rest, cs, keepalive, i, r)
      {
        if i == 0 {
          FirstRound(cs, keepalive, round, rest, r);
        } else {
          assert cs[1..][i - 1] == cs[i];
          assert RoundAt(rest, cs[1..], keepalive, i - 1, r);
          LaterRound(first, rest, cs, keepalive, i, r);
        }
      }
    }
  }

  lemma {:induction false} LaterRound(first: seq<Plan>, rest: seq<Plan>, cs: seq<Spec>, keepalive: Option<Plan>,
                                      i: nat, r: nat)
    requires 0 < i < |cs| && RoundAt(rest, cs[1..], keepalive, i - 1, r)
    requires |first| == Rounds(cs[0]) * RoundSize(keepalive.Some?, cs[0])
    ensures RoundAt(first + rest, cs, keepalive, i, r)
  {
    hide RoundsSize, Unfold;
    SizeUpTo(keepalive.Some?, cs, i);
    var width := RoundSize(keepalive.Some?, cs[i]);
    var at := RoundsSize(keepalive.Some?, cs[1..][..i - 1]) + r * width;
    assert cs[1..][i - 1] == cs[i];
    assert keepalive.Some? ==> (first + rest)[|first| + at] == rest[at];
    assert cs[i].nodeType != SKIPPED ==> (first + rest)[|first| + at + width - 1] == rest[at + width - 1];
  }

  lemma {:induction false} FirstSize(keepalive: bool, cs: seq<Spec>)
    requires cs != []
    ensures RoundsSize(keepalive, cs) == Rounds(cs[0]) * RoundSize(keepalive, cs[0]) + RoundsSize(keepalive, cs[1..])
    ensures RoundsSize(keepalive, cs[..0]) == 0
  {}

  lemma {:induction false} SizeUpTo(keepalive: bool, cs: seq<Spec>, i: nat)
    requires 0 < i <= |cs|
    ensures RoundsSize(keepalive, cs[..i])
         == Rounds(cs[0]) * RoundSize(keepalive, cs[0]) + RoundsSize(keepalive, cs[1..][..i - 1])
  {
    assert cs[..i][1..] == cs[1..][..i - 1];
  }

  lemma {:induction false} FirstRound(cs: seq<Spec>, keepalive: Option<Plan>, round: seq<Plan>, rest: seq<Plan>, r: nat)
    requires cs != [] && r < Rounds(cs[0])
    requires round == (if keepalive.Some? then [keepalive.value] else [])
                      + if cs[0].nodeType != SKIPPED then [Unfold(cs[0])] else []
    ensures RoundAt(Repeat(round, cs[0].iterations) + rest, cs, keepalive, 0, r)
  {
    hide Repeat, Unfold;
    FirstSize(keepalive.Some?, cs);
    var n := cs[0].iterations;
    RepeatLength(round, n);
    assert (r + 1) * |round| <= n * |round| && (r + 1) * |round| == r * |round| + |round|;
    if |round| > 0 {
      RepeatAt(round, n, r, 0);
      RepeatAt(round, n, r, |round| - 1);
    }
  }

  /** What a description stands for: the prologue first and the epilogue last if there are any, and between
      them the rounds of the children. */
  ghost predicate Means(s: Spec, p: Plan) {
    var keep := if s.keepalive.Some? then Some(Unfold(s.keepalive.value)) else None;
    var a, b := if s.prologue.Some? then 1 else 0, if s.epilogue.Some? then 1 else 0;
    && p.name == s.name && p.nodeType == s.nodeType
    && p.hasPrologue == s.prologue.Some? && p.hasEpilogue == s.epilogue.Some?
    && |p.children| == a + RoundsSize(s.keepalive.Some?, s.children) + b
    && (s.prologue.Some? ==> p.children[0] == Unfold(s.prologue.value))
    && (s.epilogue.Some? ==> p.children[|p.children| - 1] == Unfold(s.epilogue.value))
    && HasRounds(p.children[a..|p.children| - b], s.children, keep)
  }

  lemma {:induction false} UnfoldMeaning(s: Spec)
    ensures Means(s, Unfold(s))
  {
    var keep := if s.keepalive.Some? then Some(Unfold(s.keepalive.value)) else None;
    UnfoldAllHasRounds(s.children, keep);
    var a, m, b := Optional(s.prologue), UnfoldAll(s.children, Optional(s.keepalive)), Optional(s.epilogue);
    assert Unfold(s).children == a + m + b;
    assert Unfold(s).children[|a|..|a| + |m|] == m;
  }

  // ---------- sizes and test counts ----------

  function Size(p: Plan): (n: nat)
    ensures n >= 1
  {
    1 + SizeAll(p.children)
  }

  function SizeAll(ps: seq<Plan>): nat {
    if ps == [] then 0 else Size(ps[0]) + SizeAll(ps[1..])
  }

  function TestsNum(p: Plan): nat {
    if p.nodeType == TEST then 1 else TestsNumAll(p.children)
  }

  function TestsNumAll(ps: seq<Plan>): nat {
    if ps == [] then 0 else TestsNum(ps[0]) + TestsNumAll(ps[1..])
  }

  ghost predicate TestsAreLeaves(p: Plan) {
    && (p.nodeType == TEST ==> p.children == [])
    && forall c | c in p.children :: TestsAreLeaves(c)
  }

  lemma {:induction false} SizeAllConcat(a: seq<Plan>, b: seq<Plan>)
    ensures SizeAll(a + b) == SizeAll(a) + SizeAll(b)
  {
    if a == [] {
      assert a + b == b;
    } else {
      assert (a + b)[1..] == a[1..] + b;
      SizeAllConcat(a[1..], b);
    }
  }

  lemma {:induction false} SizeAllSnoc(ps: seq<Plan>, k: nat)
    requires k < |ps|
    ensures SizeAll(ps[..k + 1]) == SizeAll(ps[..k]) + Size(ps[k])
  {
    assert ps[..k + 1] == ps[..k] + [ps[k]];
    SizeAllConcat(ps[..k], [ps[k]]);
  }

  lemma {:induction false} SizeAllSplit(ps: seq<Plan>, k: nat)
    requires k <= |ps|
    ensures SizeAll(ps) == SizeAll(ps[..k]) + SizeAll(ps[k..])
  {
    assert ps == ps[..k] + ps[k..];
    SizeAllConcat(ps[..k], ps[k..]);
  }

  /** Ranges of preorder numbers of two children do not overlap. */
  lemma {:induction false} SizeAllMonotone(ps: seq<Plan>, i: nat, j: nat)
    requires i <= j <= |ps|
    ensures SizeAll(ps[..i]) <= SizeAll(ps[..j]) <= SizeAll(ps)
    ensures i < j ==> SizeAll(ps[..i]) + Size(ps[i]) <= SizeAll(ps[..j])
  {
    SizeAllSplit(ps, j);
    assert ps[..j][..i] == ps[..i];
    SizeAllSplit(ps[..j], i);
    if i < j {
      assert ps[..j][i..][0] == ps[i];
    }
  }

  lemma {:induction false} TestsNumAllConcat(a: seq<Plan>, b: seq<Plan>)
    ensures TestsNumAll(a + b) == TestsNumAll(a) + TestsNumAll(b)
  {
    if a == [] {
      assert a + b == b;
    } else {
      assert (a + b)[1..] == a[1..] + b;
      TestsNumAllConcat(a[1..], b);
    }
  }

  // ---------- the recursive tour ----------

  function Tour(p: Plan, id: nat): seq<Event> {
    [Event(id, p, true)] + TourAll(p.children, id + 1) + [Event(id, p, false)]
  }

  function TourAll(ps: seq<Plan>, id: nat): seq<Event> {
    if ps == [] then [] else Tour(ps[0], id) + TourAll(ps[1..], id + Size(ps[0]))
  }

  lemma {:induction false} TourLength(p: Plan, id: nat)
    ensures |Tour(p, id)| == 2 * Size(p)
    decreases p
  {
    TourAllLength(p.children, id + 1);
  }

  lemma {:induction false} TourAllLength(ps: seq<Plan>, id: nat)
    ensures |TourAll(ps, id)| == 2 * SizeAll(ps)
    decreases ps
  {
    if ps != [] {
      TourLength(ps[0], id);
      TourAllLength(ps[1..], id + Size(ps[0]));
    }
  }

  predicate HasEvent(evs: seq<Event>, id: nat, enter: bool) {
    exists k :: 0 <= k < |evs| && evs[k].id == id && evs[k].enter == enter
  }

  lemma {:induction false} HasEventConcat(a: seq<Event>, b: seq<Event>, id: nat, enter: bool)
    ensures HasEvent(a + b, id, enter) <==> HasEvent(a, id, enter) || HasEvent(b, id, enter)
  {
    if HasEvent(a, id, enter) {
      var k :| 0 <= k < |a| && a[k].id == id && a[k].enter == enter;
      assert (a + b)[k] == a[k];
    }
    if HasEvent(b, id, enter) {
      var k :| 0 <= k < |b| && b[k].id == id && b[k].enter == enter;
      assert (a + b)[|a| + k] == b[k];
    }
  }

  /** The tour enters and leaves each of the numbers `id .. id + Size(p) - 1`, and no other. */
  lemma {:induction false} TourIds(p: Plan, id: nat, t: nat, enter: bool)
    ensures HasEvent(Tour(p, id), t, enter) <==> id <= t < id + Size(p)
    decreases p
  {
    var a, b, c := [Event(id, p, true)], TourAll(p.children, id + 1), [Event(id, p, false)];
    TourAllIds(p.children, id + 1, t, enter);
    HasEventConcat(a, b, t, enter);
    HasEventConcat(a + b, c, t, enter);
    assert a[0] == Event(id, p, true) && c[0] == Event(id, p, false);
  }

  lemma {:induction false} TourAllIds(ps: seq<Plan>, id: nat, t: nat, enter: bool)
    ensures HasEvent(TourAll(ps, id), t, enter) <==> id <= t < id + SizeAll(ps)
    decreases ps
  {
    if ps != [] {
      TourIds(ps[0], id, t, enter);
      TourAllIds(ps[1..], id + Size(ps[0]), t, enter);
      HasEventConcat(Tour(ps[0], id), TourAll(ps[1..], id + Size(ps[0])), t, enter);
    }
  }

  /** The numbers under which nodes are entered, in order. */
  function EnterIds(evs: seq<Event>): seq<nat> {
    if evs == [] then []
    else if evs[0].enter then [evs[0].id] + EnterIds(evs[1..])
    else EnterIds(evs[1..])
  }

  function Range(from: nat, n: nat): (r: seq<nat>)
    ensures |r| == n && forall i :: 0 <= i < n ==> r[i] == from + i
  {
    seq(n, i requires 0 <= i => from + i)
  }

  lemma {:induction false} EnterIdsConcat(a: seq<Event>, b: seq<Event>)
    ensures EnterIds(a + b) == EnterIds(a) + EnterIds(b)
  {
    if a == [] {
      assert a + b == b;
    } else {
      assert (a + b)[1..] == a[1..] + b;
      EnterIdsConcat(a[1..], b);
    }
  }

  /** Nodes are entered in the order of their numbers, without gaps. */
  lemma {:induction false} TourInPreorder(p: Plan, id: nat)
    ensures EnterIds(Tour(p, id)) == Range(id, Size(p))
    decreases p
  {
    var a, b, c := [Event(id, p, true)], TourAll(p.children, id + 1), [Event(id, p, false)];
    EnterIdsConcat(a, b);
    EnterIdsConcat(a + b, c);
    TourAllInPreorder(p.children, id + 1);
    assert a[1..] == [] && c[1..] == [];
  }

  lemma {:induction false} TourAllInPreorder(ps: seq<Plan>, id: nat)
    ensures EnterIds(TourAll(ps, id)) == Range(id, SizeAll(ps))
    decreases ps
  {
    if ps != [] {
      TourInPreorder(ps[0], id);
      TourAllInPreorder(ps[1..], id + Size(ps[0]));
      EnterIdsConcat(Tour(ps[0], id), TourAll(ps[1..], id + Size(ps[0])));
    }
  }
}
