/** The table of tests lost when a prologue does not pass, and its agreement with the plan tracker's
    numbering. */
module Prologues {
  import opened Plans

  type Counts = map<nat, int>

  /** The tests of a package other than its prologue and epilogue, each taken to be one test. */
  function SkippedBy(p: Plan): int {
    TestsNumAll(p.children) - 1 - if p.hasEpilogue then 1 else 0
  }

  /** The recursion that fills the passed table. */
  function Fill(p: Plan, counts: Counts, id: nat): Counts {
    FillAll(p.children, if p.hasPrologue then counts[id + 1 := SkippedBy(p)] else counts, id + 1)
  }

  function FillAll(ps: seq<Plan>, counts: Counts, id: nat): Counts {
    if ps == [] then counts else FillAll(ps[1..], Fill(ps[0], counts, id), id + Size(ps[0]))
  }

  /** The table a reader of the tracker's events would build: on entering a package with a prologue,
      note the count under the number of the next node to be entered. */
  function Scan(evs: seq<Event>, counts: Counts): Counts {
    if evs == [] then counts
    else Scan(evs[1..],
              if evs[0].enter && evs[0].plan.hasPrologue then counts[evs[0].id + 1 := SkippedBy(evs[0].plan)]
              else counts)
  }

  lemma {:induction false} ScanConcat(a: seq<Event>, b: seq<Event>, counts: Counts)
    ensures Scan(a + b, counts) == Scan(b, Scan(a, counts))
  {
    if a == [] {
      assert a + b == b;
    } else {
      assert (a + b)[1..] == a[1..] + b;
      var counts' := if a[0].enter && a[0].plan.hasPrologue then counts[a[0].id + 1 := SkippedBy(a[0].plan)]
                     else counts;
      ScanConcat(a[1..], b, counts');
    }
  }

  /** The recursion with its running plan number builds exactly what the tracker's events say. */
  lemma {:induction false} FillIsScan(p: Plan, counts: Counts, id: nat)
    ensures Fill(p, counts, id) == Scan(Tour(p, id), counts)
    decreases p
  {
    var a, b, c := [Event(id, p, true)], TourAll(p.children, id + 1), [Event(id, p, false)];
    ScanConcat(a, b, counts);
    ScanConcat(a + b, c, counts);
    FillAllIsScan(p.children, Scan(a, counts), id + 1);
    assert c[1..] == [] && a[1..] == [];
  }

  lemma {:induction false} FillAllIsScan(ps: seq<Plan>, counts: Counts, id: nat)
    ensures FillAll(ps, counts, id) == Scan(TourAll(ps, id), counts)
    decreases ps
  {
    if ps != [] {
      FillIsScan(ps[0], counts, id);
      ScanConcat(Tour(ps[0], id), TourAll(ps[1..], id + Size(ps[0])), counts);
      FillAllIsScan(ps[1..], Fill(ps[0], counts, id), id + Size(ps[0]));
    }
  }

  lemma {:induction false} ScanKeys(evs: seq<Event>, counts: Counts, k: nat)
    ensures k in Scan(evs, counts) <==>
              k in counts || exists j :: 0 <= j < |evs| && evs[j].enter && evs[j].plan.hasPrologue && evs[j].id + 1 == k
  {
    if evs != [] {
      var counts' := if evs[0].enter && evs[0].plan.hasPrologue then counts[evs[0].id + 1 := SkippedBy(evs[0].plan)]
                     else counts;
      ScanKeys(evs[1..], counts', k);
      if exists j :: 0 <= j < |evs| && evs[j].enter && evs[j].plan.hasPrologue && evs[j].id + 1 == k {
        var j :| 0 <= j < |evs| && evs[j].enter && evs[j].plan.hasPrologue && evs[j].id + 1 == k;
        if j > 0 {
          assert evs[1..][j - 1] == evs[j];
        }
      }
    }
  }

  /** No number is entered twice. */
  predicate DistinctEnters(evs: seq<Event>) {
    forall i, j :: 0 <= i < j < |evs| && evs[i].enter && evs[j].enter ==> evs[i].id != evs[j].id
  }

  lemma {:induction false} TourDistinct(p: Plan, id: nat)
    ensures DistinctEnters(Tour(p, id))
    decreases p
  {
    TourAllDistinct(p.children, id + 1);
    var b := TourAll(p.children, id + 1);
    forall j | 0 <= j < |b| && b[j].enter
      ensures b[j].id != id
    {
      TourAllIds(p.children, id + 1, b[j].id, true);
    }
  }

  lemma {:induction false} TourAllDistinct(ps: seq<Plan>, id: nat)
    ensures DistinctEnters(TourAll(ps, id))
    decreases ps
  {
    if ps != [] {
      var a, b := Tour(ps[0], id), TourAll(ps[1..], id + Size(ps[0]));
      TourDistinct(ps[0], id);
      TourAllDistinct(ps[1..], id + Size(ps[0]));
      forall i, j | 0 <= i < |a| && 0 <= j < |b| && a[i].enter && b[j].enter
        ensures a[i].id != b[j].id
      {
        TourIds(ps[0], id, a[i].id, true);
        TourAllIds(ps[1..], id + Size(ps[0]), b[j].id, true);
      }
    }
  }

  lemma {:induction false} ScanValue(evs: seq<Event>, counts: Counts, j: nat)
    requires j < |evs| && evs[j].enter && evs[j].plan.hasPrologue
    requires DistinctEnters(evs)
    ensures evs[j].id + 1 in Scan(evs, counts) && Scan(evs, counts)[evs[j].id + 1] == SkippedBy(evs[j].plan)
  {
    var counts' := if evs[0].enter && evs[0].plan.hasPrologue then counts[evs[0].id + 1 := SkippedBy(evs[0].plan)]
                   else counts;
    if j == 0 {
      ScanKeeps(evs[1..], counts', evs[0].id + 1);
    } else {
      assert evs[1..][j - 1] == evs[j];
      ScanValue(evs[1..], counts', j - 1);
    }
  }

  lemma {:induction false} ScanKeeps(evs: seq<Event>, counts: Counts, k: nat)
    requires k in counts
    requires forall j :: 0 <= j < |evs| && evs[j].enter ==> evs[j].id + 1 != k
    ensures k in Scan(evs, counts) && Scan(evs, counts)[k] == counts[k]
  {
    if evs != [] {
      var counts' := if evs[0].enter && evs[0].plan.hasPrologue then counts[evs[0].id + 1 := SkippedBy(evs[0].plan)]
                     else counts;
      ScanKeeps(evs[1..], counts', k);
    }
  }

  /** Every package with a prologue has a first child, as unfolding guarantees. */
  ghost predicate HasItsPrologues(p: Plan) {
    && (p.hasPrologue ==> p.children != [])
    && forall c | c in p.children :: HasItsPrologues(c)
  }

  lemma {:induction false} UnfoldHasItsPrologues(s: Spec)
    ensures HasItsPrologues(Unfold(s))
    decreases s, 1
  {
    var keep := Optional(s.keepalive);
    if s.prologue.Some? { UnfoldHasItsPrologues(s.prologue.value); }
    if s.keepalive.Some? { UnfoldHasItsPrologues(s.keepalive.value); }
    if s.epilogue.Some? { UnfoldHasItsPrologues(s.epilogue.value); }
    UnfoldAllHaveTheirPrologues(s.children, keep);
  }

  lemma {:induction false} UnfoldAllHaveTheirPrologues(cs: seq<Spec>, keep: seq<Plan>)
    requires forall c | c in keep :: HasItsPrologues(c)
    ensures forall c | c in UnfoldAll(cs, keep) :: HasItsPrologues(c)
    decreases cs, 0
  {
    if cs != [] {
      UnfoldHasItsPrologues(cs[0]);
      var round := keep + if cs[0].nodeType != SKIPPED then [Unfold(cs[0])] else [];
      RepeatMembers(round, cs[0].iterations);
      UnfoldAllHaveTheirPrologues(cs[1..], keep);
    }
  }

  lemma {:induction false} RepeatMembers(ps: seq<Plan>, n: int)
    ensures forall c | c in Repeat(ps, n) :: c in ps
    decreases if n <= 0 then 0 else n
  {
    if n > 0 {
      RepeatMembers(ps, n - 1);
    }
  }

  /** On entering a package with a prologue, the next event enters that prologue under the next number. */
  lemma {:induction false} PrologueIsNext(p: Plan, id: nat, j: nat)
    requires HasItsPrologues(p)
    requires j < |Tour(p, id)| && Tour(p, id)[j].enter && Tour(p, id)[j].plan.hasPrologue
    ensures var e := Tour(p, id)[j];
            && e.plan.children != []
            && j + 1 < |Tour(p, id)|
            && Tour(p, id)[j + 1] == Event(e.id + 1, e.plan.children[0], true)
    decreases p
  {
    if j == 0 {
      assert TourAll(p.children, id + 1)[0] == Event(id + 1, p.children[0], true);
    } else {
      PrologueIsNextAll(p.children, id + 1, j - 1);
    }
  }

  lemma {:induction false} PrologueIsNextAll(ps: seq<Plan>, id: nat, j: nat)
    requires forall p | p in ps :: HasItsPrologues(p)
    requires j < |TourAll(ps, id)| && TourAll(ps, id)[j].enter && TourAll(ps, id)[j].plan.hasPrologue
    ensures var e := TourAll(ps, id)[j];
            && e.plan.children != []
            && j + 1 < |TourAll(ps, id)|
            && TourAll(ps, id)[j + 1] == Event(e.id + 1, e.plan.children[0], true)
    decreases ps
  {
    if j < |Tour(ps[0], id)| {
      PrologueIsNext(ps[0], id, j);
    } else {
      PrologueIsNextAll(ps[1..], id + Size(ps[0]), j - |Tour(ps[0], id)|);
    }
  }

  /** Prologue numbering agrees with the tracker, for every occurrence of every item: the keys are
      exactly the numbers under which the tracker enters a prologue, each right after its package, and the
      value is that package's count. */
  lemma {:induction false} PrologueTableMatchesTracker(s: Spec, k: nat)
    ensures var evs := Tour(Unfold(s), 0);
            var table := Fill(Unfold(s), map[], 0);
            && (k in table <==>
                  exists j {:trigger evs[j]} :: 0 <= j < |evs| - 1 && evs[j].enter && evs[j].plan.hasPrologue
                                             && evs[j].plan.children != []
                                             && evs[j + 1] == Event(k, evs[j].plan.children[0], true))
            && (forall j {:trigger evs[j]} ::
                0 <= j < |evs| && evs[j].enter && evs[j].plan.hasPrologue && evs[j].id + 1 == k ==>
                  k in table && table[k] == SkippedBy(evs[j].plan))
  {
    var p := Unfold(s);
    var evs := Tour(p, 0);
    var table := Fill(p, map[], 0);
    UnfoldHasItsPrologues(s);
    FillIsScan(p, map[], 0);
    TourDistinct(p, 0);
    ScanKeys(evs, map[], k);
    forall j | 0 <= j < |evs| && evs[j].enter && evs[j].plan.hasPrologue
      ensures evs[j].plan.children != [] && j + 1 < |evs|
      ensures evs[j + 1] == Event(evs[j].id + 1, evs[j].plan.children[0], true)
      ensures evs[j].id + 1 in table && table[evs[j].id + 1] == SkippedBy(evs[j].plan)
    {
      PrologueIsNext(p, 0, j);
      ScanValue(evs, map[], j);
    }
  }
}
