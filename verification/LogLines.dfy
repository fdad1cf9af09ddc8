/** Filtering a nested test log: the result is the matching lines with all the lines they are nested in. */
module LogLines {
  import opened Wrappers
  import opened LogTables

  // ---------- ancestors ----------

  function LineMap(lines: seq<LogLine>): map<int, LogLine> {
    if lines == [] then map[] else LineMap(lines[..|lines| - 1])[lines[|lines| - 1].number := lines[|lines| - 1]]
  }

  /** The map finds a line by its number, and finds nothing else. */
  lemma {:induction false} LineMapExact(lines: seq<LogLine>)
    requires UniqueNumbers(lines)
    ensures forall n :: n in LineMap(lines) ==> LineMap(lines)[n] in lines && LineMap(lines)[n].number == n
    ensures forall l :: l in lines ==> l.number in LineMap(lines) && LineMap(lines)[l.number] == l
  {
    hide LineMap;
    forall n | n in LineMap(lines)
      ensures LineMap(lines)[n] in lines && LineMap(lines)[n].number == n
    {
      MapHoldsLines(lines, n);
    }
    forall l | l in lines
      ensures l.number in LineMap(lines) && LineMap(lines)[l.number] == l
    {
      var i :| 0 <= i < |lines| && lines[i] == l;
      LineIsMapped(lines, i);
    }
  }

  lemma {:induction false} MapHoldsLines(lines: seq<LogLine>, n: int)
    requires n in LineMap(lines)
    ensures LineMap(lines)[n] in lines && LineMap(lines)[n].number == n
  {
    var k := |lines| - 1;
    if n != lines[k].number {
      MapHoldsLines(lines[..k], n);
    }
  }

  lemma {:induction false} LineIsMapped(lines: seq<LogLine>, i: nat)
    requires UniqueNumbers(lines) && i < |lines|
    ensures lines[i].number in LineMap(lines) && LineMap(lines)[lines[i].number] == lines[i]
  {
    var k := |lines| - 1;
    if i < k {
      LineIsMapped(lines[..k], i);
    }
  }

  /** Parents of lines in the map are in the map, one level up. */
  ghost predicate Nested(m: map<int, LogLine>) {
    forall n | n in m :: m[n].number == n && Placed(m, m[n])
  }

  ghost predicate Placed(m: map<int, LogLine>, l: LogLine) {
    if l.parent.None? then l.depth == 0 else l.parent.value in m && l.depth == m[l.parent.value].depth + 1
  }

  lemma {:induction false} FlatLinesNested(tables: seq<seq<LogItem>>)
    requires UniqueNumbers(FlattenTables(tables))
    ensures Nested(LineMap(FlattenTables(tables)))
  {
    var lines := FlattenTables(tables);
    TablesLinked(tables);
    LineMapExact(lines);
    var m := LineMap(lines);
    forall n | n in m
      ensures m[n].number == n && Placed(m, m[n])
    {
      var l := m[n];
      if l.parent.Some? {
        assert HasParent([] + lines, l);
        var p :| p in [] + lines && p.number == l.parent.value && l.depth == p.depth + 1;
        assert p in lines;
      }
    }
  }

  /** The numbers of the lines that `l` is nested in. */
  ghost function Ancestors(m: map<int, LogLine>, l: LogLine): set<int>
    requires Nested(m) && Placed(m, l)
    decreases l.depth
  {
    match l.parent
    case None => {}
    case Some(p) => {p} + Ancestors(m, m[p])
  }

  lemma {:induction false} AncestorsAbove(m: map<int, LogLine>, l: LogLine, n: int)
    requires Nested(m) && Placed(m, l) && n in Ancestors(m, l)
    ensures n in m && m[n].depth < l.depth && Ancestors(m, m[n]) <= Ancestors(m, l)
    decreases l.depth
  {
    if n != l.parent.value {
      AncestorsAbove(m, m[l.parent.value], n);
    }
  }

  ghost predicate AllPlaced(m: map<int, LogLine>, ls: seq<LogLine>) {
    forall l | l in ls :: Placed(m, l)
  }

  /** The ancestors of any of the lines. */
  ghost function AncestorsOfAny(m: map<int, LogLine>, ls: seq<LogLine>): set<int>
    requires Nested(m) && AllPlaced(m, ls)
  {
    if ls == [] then {} else AncestorsOfAny(m, ls[..|ls| - 1]) + Ancestors(m, ls[|ls| - 1])
  }

  /** Collected ancestors are closed upwards, which is what makes an early break sound. */
  lemma {:induction false} UpwardClosed(m: map<int, LogLine>, ls: seq<LogLine>, n: int)
    requires Nested(m) && AllPlaced(m, ls) && n in AncestorsOfAny(m, ls)
    ensures n in m && Ancestors(m, m[n]) <= AncestorsOfAny(m, ls)
  {
    var k := |ls| - 1;
    if n in Ancestors(m, ls[k]) {
      AncestorsAbove(m, ls[k], n);
    } else {
      UpwardClosed(m, ls[..k], n);
    }
  }

  lemma {:induction false} AnyMeansSome(m: map<int, LogLine>, ls: seq<LogLine>, n: int)
    requires Nested(m) && AllPlaced(m, ls)
    ensures n in AncestorsOfAny(m, ls) <==> exists l :: l in ls && n in Ancestors(m, l)
  {
    if ls != [] {
      var k := |ls| - 1;
      AnyMeansSome(m, ls[..k], n);
      assert forall l :: l in ls <==> l in ls[..k] || l == ls[k] by {
        assert ls == ls[..k] + [ls[k]];
      }
      if n in Ancestors(m, ls[k]) {
        assert ls[k] in ls;
      }
    }
  }

  // ---------- sorting ----------

  predicate Sorted(ls: seq<LogLine>) {
    forall i, j :: 0 <= i < j < |ls| ==> ls[i].number <= ls[j].number
  }

  /** Sorting by line number. */
  function Sort(ls: seq<LogLine>): seq<LogLine> {
    if ls == [] then [] else Insert(ls[0], Sort(ls[1..]))
  }

  function Insert(l: LogLine, ls: seq<LogLine>): seq<LogLine> {
    if ls == [] || l.number <= ls[0].number then [l] + ls else [ls[0]] + Insert(l, ls[1..])
  }

  lemma {:induction false} InsertKeeps(l: LogLine, ls: seq<LogLine>)
    ensures multiset(Insert(l, ls)) == multiset(ls) + multiset{l}
  {
    if ls != [] && l.number > ls[0].number {
      InsertKeeps(l, ls[1..]);
      assert ls == [ls[0]] + ls[1..];
    }
  }

  lemma {:induction false} InsertSorts(l: LogLine, ls: seq<LogLine>)
    requires Sorted(ls)
    ensures Sorted(Insert(l, ls))
  {
    if ls == [] || l.number <= ls[0].number {
      SortedCons(l, ls);
    } else {
      var x, rest := ls[0], ls[1..];
      InsertSorts(l, rest);
      InsertKeeps(l, rest);
      var r := Insert(l, rest);
      forall y | y in r
        ensures x.number <= y.number
      {
        assert y in multiset(r);
        assert y == l || y in rest;
      }
      hide Sorted;
      SortedCons(x, r);
    }
  }

  lemma {:induction false} SortedCons(x: LogLine, ls: seq<LogLine>)
    requires Sorted(ls)
    ensures (ls == [] || x.number <= ls[0].number) || (forall y :: y in ls ==> x.number <= y.number) ==>
            Sorted([x] + ls)
  {}

  lemma {:induction false} SortSorts(ls: seq<LogLine>)
    ensures Sorted(Sort(ls)) && multiset(Sort(ls)) == multiset(ls)
  {
    if ls != [] {
      SortSorts(ls[1..]);
      InsertSorts(ls[0], Sort(ls[1..]));
      InsertKeeps(ls[0], Sort(ls[1..]));
      assert ls == [ls[0]] + ls[1..];
    }
  }

  // ---------- adding context ----------

  predicate NoRepeats(ls: seq<LogLine>) {
    forall i, j :: 0 <= i < j < |ls| ==> ls[i] != ls[j]
  }

  /** Walk up from one line until a collected ancestor is met. */
  method CollectAncestors(m: map<int, LogLine>, ghost before: seq<LogLine>, line: LogLine, collected: set<int>)
    returns (result: set<int>)
    requires Nested(m) && AllPlaced(m, before) && Placed(m, line)
    requires collected == AncestorsOfAny(m, before)
    ensures result == collected + Ancestors(m, line)
  {
    result := collected;
    var current := line;
    while current.parent.Some?
      invariant Placed(m, current)
      invariant collected <= result
      invariant result + Ancestors(m, current) == collected + Ancestors(m, line)
      invariant forall n :: n in result && n !in collected ==> n in m && m[n].depth >= current.depth
      decreases current.depth
    {
      var number := current.parent.value;
      if number in result {
        UpwardClosed(m, before, number);
        break;
      }
      result := result + {number};
      if number !in m {
        break;
      }
      current := m[number];
    }
  }

  /** The matched lines and every line they are nested in, once each, in order of their numbers. */
  method AddParentContext(flat: seq<LogLine>, lines: seq<LogLine>) returns (result: seq<LogLine>)
    requires UniqueNumbers(flat) && Nested(LineMap(flat))
    requires NoRepeats(lines) && forall l :: l in lines ==> l in flat
    ensures AllPlaced(LineMap(flat), lines)
    ensures forall l :: l in result <==>
              l in lines || (l in flat && exists c :: c in lines && l.number in Ancestors(LineMap(flat), c))
    ensures NoRepeats(result) && Sorted(result)
  {
    var m := LineMap(flat);
    LineMapExact(flat);
    var numbers: set<int> := {};
    for i := 0 to |lines|
      invariant AllPlaced(m, lines) && numbers == AncestorsOfAny(m, lines[..i])
    {
      assert lines[..i + 1][..i] == lines[..i];
      numbers := CollectAncestors(m, lines[..i], lines[i], numbers);
    }
    assert lines[..|lines|] == lines;
    result := AppendLines(m, lines, numbers);
    forall l
      ensures l in result <==> l in lines || (l in flat && exists c :: c in lines && l.number in Ancestors(m, c))
    {
      AnyMeansSome(m, lines, l.number);
    }
    SortSorts(result);
    SameMembers(result, Sort(result));
    result := Sort(result);
  }

  /** The given lines and the numbered ones that are not among them. */
  method AppendLines(m: map<int, LogLine>, lines: seq<LogLine>, numbers: set<int>) returns (result: seq<LogLine>)
    requires NoRepeats(lines) && forall n :: n in m ==> m[n].number == n
    ensures NoRepeats(result)
    ensures forall l :: l in result <==> l in lines || Numbered(m, numbers, l)
  {
    var todo, done: set<int> := numbers, {};
    result := lines;
    while exists n :: n in todo
      invariant NoRepeats(result) && numbers == todo + done
      invariant forall l :: l in result <==> l in lines || Numbered(m, done, l)
      decreases todo
    {
      var n :| n in todo;
      if n in m && m[n] !in result {
        result := result + [m[n]];
      }
      todo, done := todo - {n}, done + {n};
    }
  }

  predicate Numbered(m: map<int, LogLine>, numbers: set<int>, l: LogLine) {
    l.number in numbers && l.number in m && m[l.number] == l
  }

  lemma {:induction false} SameMembers(a: seq<LogLine>, b: seq<LogLine>)
    requires multiset(a) == multiset(b)
    ensures forall l :: l in a <==> l in b
    ensures NoRepeats(a) ==> NoRepeats(b)
  {
    forall l
      ensures l in a <==> l in b
    {
      assert l in multiset(a) <==> l in multiset(b);
    }
    if NoRepeats(a) {
      forall i, j | 0 <= i < j < |b|
        ensures b[i] != b[j]
      {
        CountOnce(a, b[i]);
        CountTwice(b, i, j);
      }
    }
  }

  lemma {:induction false} CountTwice(ls: seq<LogLine>, i: nat, j: nat)
    requires i < j < |ls|
    ensures ls[i] == ls[j] ==> multiset(ls)[ls[i]] >= 2
  {
    assert ls == ls[..j] + [ls[j]] + ls[j + 1..];
    assert ls[..j][i] == ls[i] && ls[i] in ls[..j];
  }

  lemma {:induction false} CountOnce(ls: seq<LogLine>, l: LogLine)
    requires NoRepeats(ls)
    ensures multiset(ls)[l] <= 1
  {
    if ls != [] {
      var k := |ls| - 1;
      assert ls == ls[..k] + [ls[k]];
      CountOnce(ls[..k], l);
      assert ls[k] !in ls[..k];
    }
  }

  // ---------- the processor ----------

  function Pair(l: LogLine): string {
    l.entity + ":" + l.user
  }

  /** What to keep; an empty set keeps everything. */
  datatype Filter = Filter(start: Option<int>, end: Option<int>, levels: set<string>, entities: set<string>,
                           users: set<string>, pairs: set<string>)

  predicate Keeps(f: Filter, l: LogLine) {
    && (f.start.Some? ==> f.start.value <= l.number)
    && (f.end.Some? ==> l.number <= f.end.value)
    && (f.levels != {} ==> l.level in f.levels)
    && (f.entities != {} ==> l.entity in f.entities)
    && (f.users != {} ==> l.user in f.users)
    && (f.pairs != {} ==> Pair(l) in f.pairs)
  }

  function Select(keep: LogLine -> bool, ls: seq<LogLine>): seq<LogLine> {
    if ls == [] then [] else (if keep(ls[0]) then [ls[0]] else []) + Select(keep, ls[1..])
  }

  lemma {:induction false} SelectExact(keep: LogLine -> bool, ls: seq<LogLine>)
    ensures forall l :: l in Select(keep, ls) <==> l in ls && keep(l)
    ensures NoRepeats(ls) ==> NoRepeats(Select(keep, ls))
  {
    if ls != [] {
      SelectExact(keep, ls[1..]);
      assert ls == [ls[0]] + ls[1..];
      if NoRepeats(ls) {
        forall i, j | 0 <= i < j < |ls[1..]|
          ensures ls[1..][i] != ls[1..][j]
        {
          assert ls[i + 1] != ls[j + 1];
        }
        assert ls[0] !in ls[1..];
      }
    }
  }

  /** `p` is nested in `q`, at whatever distance. */
  predicate Inside(p: Place, q: Place) {
    p.table == q.table && 0 < |q.path| < |p.path| && q.path == p.path[..|q.path|]
  }

  /** Is the item's line, or that of an item inside it, kept? */
  ghost predicate Wanted(tables: seq<seq<LogItem>>, f: Filter, p: Place)
    requires Exists(tables, p)
  {
    Keeps(f, LineFor(tables, p)) || exists q :: Exists(tables, q) && Inside(q, p) && Keeps(f, LineFor(tables, q))
  }

  /** The lines of a log that a filter keeps, with the lines they are nested in: an item's line is there exactly
      if it, or something nested in it, is kept; once, and in order of the numbers. */
  method GetLines(tables: seq<seq<LogItem>>, f: Filter) returns (result: seq<LogLine>)
    requires UniqueNumbers(FlattenTables(tables))
    ensures forall p :: Exists(tables, p) ==> (LineFor(tables, p) in result <==> Wanted(tables, f, p))
    ensures forall l :: l in result ==> exists p :: Exists(tables, p) && l == LineFor(tables, p)
    ensures NoRepeats(result) && Sorted(result)
  {
    var flat := FlattenTables(tables);
    FlatLinesNested(tables);
    LineMapExact(flat);
    var lines := flat;
    lines := Select((l: LogLine) => f.start.Some? ==> f.start.value <= l.number, lines);
    lines := Select((l: LogLine) => f.end.Some? ==> l.number <= f.end.value, lines);
    lines := Select((l: LogLine) => f.levels != {} ==> l.level in f.levels, lines);
    lines := Select((l: LogLine) => f.entities != {} ==> l.entity in f.entities, lines);
    lines := Select((l: LogLine) => f.users != {} ==> l.user in f.users, lines);
    lines := Select((l: LogLine) => f.pairs != {} ==> Pair(l) in f.pairs, lines);
    SelectedAll(flat, f);
    result := AddParentContext(flat, lines);
    ResultOverItems(tables, f, lines, result);
  }

  lemma {:induction false} ResultOverItems(tables: seq<seq<LogItem>>, f: Filter, lines: seq<LogLine>,
                                           result: seq<LogLine>)
    requires var flat := FlattenTables(tables);
             && UniqueNumbers(flat) && Nested(LineMap(flat)) && AllPlaced(LineMap(flat), lines)
             && (forall l :: l in lines <==> l in flat && Keeps(f, l))
             && forall l :: l in result <==>
                  l in lines || (l in flat && exists c :: c in lines && l.number in Ancestors(LineMap(flat), c))
    ensures forall p :: Exists(tables, p) ==> (LineFor(tables, p) in result <==> Wanted(tables, f, p))
    ensures forall l :: l in result ==> exists p :: Exists(tables, p) && l == LineFor(tables, p)
  {
    hide Exists, LineFor, Nested, Placed, Ancestors, LineMap, Keeps, Inside, UniqueNumbers, FlattenTables;
    var flat := FlattenTables(tables);
    forall p | Exists(tables, p)
      ensures LineFor(tables, p) in result <==> Wanted(tables, f, p)
    {
      ItemHasLine(tables, p);
      var l := LineFor(tables, p);
      if exists c :: c in lines && l.number in Ancestors(LineMap(flat), c) {
        var c :| c in lines && l.number in Ancestors(LineMap(flat), c);
        var q := LineHasItem(tables, c);
        AncestorIsOutside(tables, q, p);
      }
      if exists q :: Exists(tables, q) && Inside(q, p) && Keeps(f, LineFor(tables, q)) {
        var q :| Exists(tables, q) && Inside(q, p) && Keeps(f, LineFor(tables, q));
        ItemHasLine(tables, q);
        AncestorIsOutside(tables, q, p);
      }
    }
    forall l | l in result
      ensures exists p :: Exists(tables, p) && l == LineFor(tables, p)
    {
      var p := LineHasItem(tables, l);
    }
  }

  lemma {:induction false} ItemHasLine(tables: seq<seq<LogItem>>, p: Place)
    requires Exists(tables, p)
    ensures LineFor(tables, p) in FlattenTables(tables)
  {
    hide Exists, LineFor, FlattenTables;
    var places := FlattenTablesLists(tables);
    var k :| 0 <= k < |places| && places[k] == p;
  }

  lemma {:induction false} LineHasItem(tables: seq<seq<LogItem>>, l: LogLine) returns (p: Place)
    requires l in FlattenTables(tables)
    ensures Exists(tables, p) && LineFor(tables, p) == l
  {
    hide Exists, LineFor, FlattenTables;
    var places := FlattenTablesLists(tables);
    var k :| 0 <= k < |FlattenTables(tables)| && FlattenTables(tables)[k] == l;
    p := places[k];
  }

  /** Items with different places have lines with different numbers. */
  lemma {:induction false} NumberIsPlace(tables: seq<seq<LogItem>>, p: Place, q: Place)
    requires UniqueNumbers(FlattenTables(tables)) && Exists(tables, p) && Exists(tables, q)
    requires LineFor(tables, p).number == LineFor(tables, q).number
    ensures p == q
  {
    hide Exists, LineFor, FlattenTables;
    var places := FlattenTablesLists(tables);
    var j :| 0 <= j < |places| && places[j] == p;
    var k :| 0 <= k < |places| && places[k] == q;
  }

  /** The line of an item around, or none at the top of a table. */
  lemma {:induction false} ParentLine(tables: seq<seq<LogItem>>, p: Place)
    requires UniqueNumbers(FlattenTables(tables)) && Exists(tables, p)
    ensures |p.path| > 0
    ensures |p.path| == 1 ==> LineFor(tables, p).parent == None
    ensures |p.path| > 1 ==>
              var outer := Place(p.table, p.path[..|p.path| - 1]);
              && Exists(tables, outer) && LineFor(tables, p).parent == Some(LineFor(tables, outer).number)
              && LineFor(tables, outer).number in LineMap(FlattenTables(tables))
              && LineMap(FlattenTables(tables))[LineFor(tables, outer).number] == LineFor(tables, outer)
  {
    hide FlattenTables, LineMap;
    if |p.path| > 1 {
      var outer := Place(p.table, p.path[..|p.path| - 1]);
      PathPrefix(tables[p.table], p.path, |p.path| - 1);
      ItemHasLine(tables, outer);
      LineMapExact(FlattenTables(tables));
    }
  }

  /** A line's ancestors are the lines of the items that its item is nested in. */
  lemma {:induction false} AncestorIsOutside(tables: seq<seq<LogItem>>, q: Place, p: Place)
    requires UniqueNumbers(FlattenTables(tables)) && Exists(tables, p) && Exists(tables, q)
    requires Nested(LineMap(FlattenTables(tables))) && Placed(LineMap(FlattenTables(tables)), LineFor(tables, q))
    ensures LineFor(tables, p).number in Ancestors(LineMap(FlattenTables(tables)), LineFor(tables, q)) <==> Inside(q, p)
    decreases |q.path|
  {
    hide Exists, LineFor, FlattenTables, LineMap, UniqueNumbers;
    ParentLine(tables, q);
    ParentLine(tables, p);
    if |q.path| > 1 {
      var outer := Place(q.table, q.path[..|q.path| - 1]);
      AncestorIsOutside(tables, outer, p);
      if LineFor(tables, p).number == LineFor(tables, outer).number {
        NumberIsPlace(tables, p, outer);
      }
      InsideStep(q, p);
    }
  }

  lemma {:induction false} InsideStep(q: Place, p: Place)
    requires |q.path| > 1 && |p.path| > 0
    ensures var outer := Place(q.table, q.path[..|q.path| - 1]); Inside(q, p) <==> p == outer || Inside(outer, p)
  {
    var n := |q.path| - 1;
    if |p.path| <= n {
      assert q.path[..n][..|p.path|] == q.path[..|p.path|];
    }
    if |p.path| == n && p.path == q.path[..n] && p.table == q.table {
      assert p == Place(q.table, q.path[..n]);
    }
  }

  /** Filtering step by step keeps exactly the lines that pass every step. */
  lemma {:induction false} SelectedAll(flat: seq<LogLine>, f: Filter)
    requires UniqueNumbers(flat)
    ensures var a := Select((l: LogLine) => f.start.Some? ==> f.start.value <= l.number, flat);
            var b := Select((l: LogLine) => f.end.Some? ==> l.number <= f.end.value, a);
            var c := Select((l: LogLine) => f.levels != {} ==> l.level in f.levels, b);
            var d := Select((l: LogLine) => f.entities != {} ==> l.entity in f.entities, c);
            var e := Select((l: LogLine) => f.users != {} ==> l.user in f.users, d);
            var g := Select((l: LogLine) => f.pairs != {} ==> Pair(l) in f.pairs, e);
            NoRepeats(g) && forall l :: l in g <==> l in flat && Keeps(f, l)
  {
    hide Select, NoRepeats, UniqueNumbers;
    NumbersMeanLines(flat);
    var a := Select((l: LogLine) => f.start.Some? ==> f.start.value <= l.number, flat);
    var b := Select((l: LogLine) => f.end.Some? ==> l.number <= f.end.value, a);
    var c := Select((l: LogLine) => f.levels != {} ==> l.level in f.levels, b);
    var d := Select((l: LogLine) => f.entities != {} ==> l.entity in f.entities, c);
    var e := Select((l: LogLine) => f.users != {} ==> l.user in f.users, d);
    var g := Select((l: LogLine) => f.pairs != {} ==> Pair(l) in f.pairs, e);
    SelectExact((l: LogLine) => f.start.Some? ==> f.start.value <= l.number, flat);
    SelectExact((l: LogLine) => f.end.Some? ==> l.number <= f.end.value, a);
    SelectExact((l: LogLine) => f.levels != {} ==> l.level in f.levels, b);
    SelectExact((l: LogLine) => f.entities != {} ==> l.entity in f.entities, c);
    SelectExact((l: LogLine) => f.users != {} ==> l.user in f.users, d);
    SelectExact((l: LogLine) => f.pairs != {} ==> Pair(l) in f.pairs, e);
    forall l
      ensures l in g <==> l in flat && Keeps(f, l)
    {
      assert l in c <==> l in flat && (f.start.Some? ==> f.start.value <= l.number)
                         && (f.end.Some? ==> l.number <= f.end.value) && (f.levels != {} ==> l.level in f.levels);
    }
  }

  lemma {:induction false} NumbersMeanLines(ls: seq<LogLine>)
    requires UniqueNumbers(ls)
    ensures NoRepeats(ls)
  {
    forall i, j | 0 <= i < j < |ls|
      ensures ls[i] != ls[j]
    {
      assert ls[i].number != ls[j].number;
    }
  }
}
