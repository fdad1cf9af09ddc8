/** A nested test log and its flattening: every item has exactly one line, in the order of the log. */
module LogTables {
  import opened Wrappers

  datatype LogItem = LogItem(number: int, level: string, entity: string, user: string, children: seq<LogItem>)

  datatype LogLine = LogLine(number: int, level: string, entity: string, user: string, depth: nat,
                             parent: Option<int>, table: nat)

  // ---------- flattening ----------

  function LineOf(i: LogItem, depth: nat, parent: Option<int>, table: nat): LogLine {
    LogLine(i.number, i.level, i.entity, i.user, depth, parent, table)
  }

  function FlattenData(data: seq<LogItem>, depth: nat, parent: Option<int>, table: nat): seq<LogLine> {
    if data == [] then []
    else
      [LineOf(data[0], depth, parent, table)]
      + FlattenData(data[0].children, depth + 1, Some(data[0].number), table)
      + FlattenData(data[1..], depth, parent, table)
  }

  function FlattenTables(tables: seq<seq<LogItem>>): seq<LogLine> {
    if tables == [] then []
    else FlattenTables(tables[..|tables| - 1]) + FlattenData(tables[|tables| - 1], 0, None, |tables| - 1)
  }

  predicate UniqueNumbers(lines: seq<LogLine>) {
    forall i, j :: 0 <= i < j < |lines| ==> lines[i].number != lines[j].number
  }

  /** Every line that has a parent comes after it and one level deeper; `outer` are lines already known. */
  ghost predicate Linked(outer: seq<LogLine>, lines: seq<LogLine>) {
    forall l | l in lines :: if l.parent.None? then l.depth == 0 else HasParent(outer + lines, l)
  }

  ghost predicate HasParent(lines: seq<LogLine>, l: LogLine) {
    l.parent.Some? && exists p :: p in lines && p.number == l.parent.value && l.depth == p.depth + 1
  }

  /** Flattening keeps the nesting: parents are in the table, one level up. */
  lemma {:induction false} FlattenLinked(data: seq<LogItem>, depth: nat, parent: Option<int>, table: nat,
                                         outer: seq<LogLine>)
    requires if parent.None? then depth == 0
             else exists p :: p in outer && p.number == parent.value && depth == p.depth + 1
    ensures Linked(outer, FlattenData(data, depth, parent, table))
    decreases data
  {
    if data != [] {
      var line := LineOf(data[0], depth, parent, table);
      var inner := FlattenData(data[0].children, depth + 1, Some(data[0].number), table);
      var rest := FlattenData(data[1..], depth, parent, table);
      assert line in outer + [line];
      FlattenLinked(data[0].children, depth + 1, Some(data[0].number), table, outer + [line]);
      FlattenLinked(data[1..], depth, parent, table, outer);
      var lines := FlattenData(data, depth, parent, table);
      assert lines == [line] + inner + rest;
      forall l | l in lines
        ensures if l.parent.None? then l.depth == 0 else HasParent(outer + lines, l)
      {
        if l in inner {
          assert Linked(outer + [line], inner);
          assert l.parent.Some? ==> HasParent(outer + [line] + inner, l);
          assert forall p :: p in outer + [line] + inner ==> p in outer + lines;
        } else if l in rest {
          assert l.parent.Some? ==> HasParent(outer + rest, l);
          assert forall p :: p in outer + rest ==> p in outer + lines;
        } else {
          assert l == line;
          assert forall p :: p in outer ==> p in outer + lines;
        }
      }
    }
  }

  lemma {:induction false} TablesLinked(tables: seq<seq<LogItem>>)
    ensures Linked([], FlattenTables(tables))
  {
    if tables != [] {
      var n := |tables| - 1;
      TablesLinked(tables[..n]);
      FlattenLinked(tables[n], 0, None, n, []);
      var a: seq<LogLine> := FlattenTables(tables[..n]);
      var b: seq<LogLine> := FlattenData(tables[n], 0, None, n);
      forall l: LogLine | l in a + b
        ensures if l.parent.None? then l.depth == 0 else HasParent([] + (a + b), l)
      {
        if l in a {
          assert l.parent.Some? ==> HasParent([] + a, l);
        } else {
          assert l.parent.Some? ==> HasParent([] + b, l);
        }
        assert forall p :: p in [] + a || p in [] + b ==> p in [] + (a + b);
      }
    }
  }

  // ---------- the items of a log ----------

  /** A path leads to an item: the position in the table, then in that item, and so on. */
  predicate InData(data: seq<LogItem>, path: seq<nat>)
    decreases |path|
  {
    path != [] && path[0] < |data| && (|path| == 1 || InData(data[path[0]].children, path[1..]))
  }

  function ItemIn(data: seq<LogItem>, path: seq<nat>): LogItem
    requires InData(data, path)
    decreases |path|
  {
    if |path| == 1 then data[path[0]] else ItemIn(data[path[0]].children, path[1..])
  }

  /** Every item inside another one is inside those that its path passes. */
  lemma {:induction false} PathPrefix(data: seq<LogItem>, path: seq<nat>, n: nat)
    requires InData(data, path) && 0 < n <= |path|
    ensures InData(data, path[..n])
    decreases |path|
  {
    if n > 1 {
      PathPrefix(data[path[0]].children, path[1..], n - 1);
      assert path[..n][1..] == path[1..][..n - 1];
    }
  }

  /** Where an item is in a log. */
  datatype Place = Place(table: nat, path: seq<nat>)

  predicate Exists(tables: seq<seq<LogItem>>, p: Place) {
    p.table < |tables| && InData(tables[p.table], p.path)
  }

  /** The line of the item at a path of a table nested `depth` deep in `parent`. */
  function LineIn(data: seq<LogItem>, depth: nat, parent: Option<int>, table: nat, path: seq<nat>): LogLine
    requires InData(data, path)
  {
    var i, n := ItemIn(data, path), |path| - 1;
    if n == 0 then LogLine(i.number, i.level, i.entity, i.user, depth, parent, table)
    else
      PathPrefix(data, path, n);
      LogLine(i.number, i.level, i.entity, i.user, depth + n, Some(ItemIn(data, path[..n]).number), table)
  }

  /** An item's line has its number, level, entity and user, the table it is in, how deep it is nested, and the
      number of the item around it. */
  function LineFor(tables: seq<seq<LogItem>>, p: Place): LogLine
    requires Exists(tables, p)
  {
    LineIn(tables[p.table], 0, None, p.table, p.path)
  }

  /** An item comes before what is nested in it, and both before what follows. */
  predicate PathBefore(p: seq<nat>, q: seq<nat>)
    decreases |p|
  {
    q != [] && (p == [] || p[0] < q[0] || (p[0] == q[0] && PathBefore(p[1..], q[1..])))
  }

  predicate PlaceBefore(p: Place, q: Place) {
    p.table < q.table || (p.table == q.table && PathBefore(p.path, q.path))
  }

  /** The lines are those of the items at these places: of every item of the log, once each, in order. */
  ghost predicate Lists(lines: seq<LogLine>, places: seq<Place>, tables: seq<seq<LogItem>>) {
    && |lines| == |places|
    && (forall k :: 0 <= k < |lines| ==> Exists(tables, places[k]) && lines[k] == LineFor(tables, places[k]))
    && (forall p :: Exists(tables, p) ==> p in places)
    && (forall j, k :: 0 <= j < k < |places| ==> PlaceBefore(places[j], places[k]))
  }

  // ---------- flattening lists the items ----------

  predicate NoneEmpty(ps: seq<seq<nat>>) {
    forall i :: 0 <= i < |ps| ==> ps[i] != []
  }

  /** The paths of a table in order. */
  function PathsOf(data: seq<LogItem>): (r: seq<seq<nat>>)
    ensures NoneEmpty(r)
  {
    if data == [] then [] else [[0]] + Under(PathsOf(data[0].children)) + Later(PathsOf(data[1..]))
  }

  function Under(ps: seq<seq<nat>>): (r: seq<seq<nat>>)
    ensures |r| == |ps| && forall i :: 0 <= i < |r| ==> r[i] == [0] + ps[i]
  {
    seq(|ps|, i requires 0 <= i < |ps| => [0] + ps[i])
  }

  function Later(ps: seq<seq<nat>>): (r: seq<seq<nat>>)
    requires NoneEmpty(ps)
    ensures |r| == |ps| && forall i :: 0 <= i < |r| ==> r[i] == [ps[i][0] + 1] + ps[i][1..]
  {
    seq(|ps|, i requires 0 <= i < |ps| => [ps[i][0] + 1] + ps[i][1..])
  }

  lemma {:induction false} PathsSplit(data: seq<LogItem>)
    requires data != []
    ensures PathsOf(data) == [[0]] + Under(PathsOf(data[0].children)) + Later(PathsOf(data[1..]))
  {}

  lemma {:induction false} InParts<T>(a: seq<T>, b: seq<T>, c: seq<T>, x: T)
    ensures x in a + b + c <==> x in a || x in b || x in c
  {}

  lemma {:induction false} NoPaths()
    ensures PathsOf([]) == []
  {}

  lemma {:induction false} PathsExact(data: seq<LogItem>, path: seq<nat>)
    ensures path in PathsOf(data) <==> InData(data, path)
    decreases data
  {
    hide PathsOf, Under, Later, InData;
    if data == [] {
      NoPaths();
      NowhereToGo(path);
    } else {
      var inner, rest := PathsOf(data[0].children), PathsOf(data[1..]);
      PathsSplit(data);
      InParts([[0]], Under(inner), Later(rest), path);
      if path == [] {
        NotEmptyPath(data);
      } else if path[0] == 0 {
        assert path == [0] + path[1..];
        PathsExact(data[0].children, path[1..]);
        UnderExact(inner, path[1..]);
        NotLater(rest, path);
        FirstItem(data, path);
      } else {
        var back := [path[0] - 1] + path[1..];
        PathsExact(data[1..], back);
        LaterExact(rest, path);
        NotUnder(inner, path);
        LaterItem(data, path);
      }
    }
  }

  lemma {:induction false} NowhereToGo(path: seq<nat>)
    ensures !InData([], path)
  {}

  lemma {:induction false} NotEmptyPath(data: seq<LogItem>)
    ensures !InData(data, []) && [] !in PathsOf(data)
  {
    hide PathsOf;
  }

  lemma {:induction false} FirstItem(data: seq<LogItem>, path: seq<nat>)
    requires data != [] && path != [] && path[0] == 0
    ensures InData(data, path) <==> path == [0] || InData(data[0].children, path[1..])
  {
    if |path| == 1 {
      assert path[1..] == [];
    }
  }

  lemma {:induction false} LaterItem(data: seq<LogItem>, path: seq<nat>)
    requires data != [] && path != [] && path[0] > 0
    ensures InData(data, path) <==> InData(data[1..], [path[0] - 1] + path[1..])
  {
    assert ([path[0] - 1] + path[1..])[1..] == path[1..];
  }

  lemma {:induction false} UnderExact(ps: seq<seq<nat>>, p: seq<nat>)
    ensures [0] + p in Under(ps) <==> p in ps
  {
    var r := Under(ps);
    if [0] + p in r {
      var i :| 0 <= i < |r| && r[i] == [0] + p;
      assert ([0] + ps[i])[1..] == ps[i] && ([0] + p)[1..] == p;
    }
    if p in ps {
      var i :| 0 <= i < |ps| && ps[i] == p;
      assert r[i] == [0] + p;
    }
  }

  lemma {:induction false} NotUnder(ps: seq<seq<nat>>, p: seq<nat>)
    requires p != [] && p[0] != 0
    ensures p !in Under(ps)
  {}

  lemma {:induction false} NotLater(ps: seq<seq<nat>>, p: seq<nat>)
    requires NoneEmpty(ps) && p != [] && p[0] == 0
    ensures p !in Later(ps)
  {}

  lemma {:induction false} LaterExact(ps: seq<seq<nat>>, p: seq<nat>)
    requires NoneEmpty(ps) && p != [] && p[0] > 0
    ensures p in Later(ps) <==> [p[0] - 1] + p[1..] in ps
  {
    var r, back := Later(ps), [p[0] - 1] + p[1..];
    if p in r {
      var i :| 0 <= i < |r| && r[i] == p;
      assert ps[i] == [ps[i][0]] + ps[i][1..] && p[1..] == ps[i][1..];
      assert back == ps[i];
    }
    if back in ps {
      var i :| 0 <= i < |ps| && ps[i] == back;
      assert back[1..] == p[1..] && p == [p[0]] + p[1..];
      assert r[i] == p;
    }
  }

  /** The path at a position, by whether it is the first item's, inside the first item, or after it. */
  lemma {:induction false} PathAt(data: seq<LogItem>, k: nat)
    requires k < |PathsOf(data)|
    ensures data != [] && |PathsOf(data)| == 1 + |PathsOf(data[0].children)| + |PathsOf(data[1..])|
    ensures var inner, rest := PathsOf(data[0].children), PathsOf(data[1..]);
            && (k == 0 ==> PathsOf(data)[k] == [0])
            && (0 < k <= |inner| ==> PathsOf(data)[k] == [0] + inner[k - 1])
            && (k > |inner| ==> rest[k - |inner| - 1] != []
                                && PathsOf(data)[k] == [rest[k - |inner| - 1][0] + 1] + rest[k - |inner| - 1][1..])
  {
    hide PathsOf;
    if data == [] {
      NoPaths();
    }
    PathsSplit(data);
    PartAt([[0]], Under(PathsOf(data[0].children)), Later(PathsOf(data[1..])), k);
  }

  lemma {:induction false} PartAt<T>(a: seq<T>, b: seq<T>, c: seq<T>, k: nat)
    requires |a| == 1 && k < |a + b + c|
    ensures (a + b + c)[k] == if k == 0 then a[0] else if k <= |b| then b[k - 1] else c[k - 1 - |b|]
  {}

  lemma {:induction false} PathsOrdered(data: seq<LogItem>, j: nat, k: nat)
    requires j < k < |PathsOf(data)|
    ensures PathBefore(PathsOf(data)[j], PathsOf(data)[k])
    decreases data
  {
    hide PathsOf, PathBefore;
    PathAt(data, j);
    PathAt(data, k);
    var inner, rest := PathsOf(data[0].children), PathsOf(data[1..]);
    var n := |inner|;
    if k <= n {
      if j == 0 {
        FirstBefore(inner[k - 1]);
      } else {
        PathsOrdered(data[0].children, j - 1, k - 1);
        UnderBefore(inner[j - 1], inner[k - 1]);
      }
    } else if j <= n {
      UnderThenLater(PathsOf(data)[j], PathsOf(data)[k]);
    } else {
      PathsOrdered(data[1..], j - n - 1, k - n - 1);
      LaterBefore(rest[j - n - 1], rest[k - n - 1]);
    }
  }

  lemma {:induction false} FirstBefore(q: seq<nat>)
    requires q != []
    ensures PathBefore([0], [0] + q)
  {
    assert [0][1..] == [] && ([0] + q)[1..] == q;
  }

  lemma {:induction false} UnderBefore(p: seq<nat>, q: seq<nat>)
    requires PathBefore(p, q)
    ensures PathBefore([0] + p, [0] + q)
  {
    assert ([0] + p)[1..] == p && ([0] + q)[1..] == q;
  }

  lemma {:induction false} UnderThenLater(p: seq<nat>, q: seq<nat>)
    requires p != [] && q != [] && p[0] < q[0]
    ensures PathBefore(p, q)
  {}

  lemma {:induction false} LaterBefore(p: seq<nat>, q: seq<nat>)
    requires p != [] && PathBefore(p, q)
    ensures PathBefore([p[0] + 1] + p[1..], [q[0] + 1] + q[1..])
  {
    assert ([p[0] + 1] + p[1..])[1..] == p[1..] && ([q[0] + 1] + q[1..])[1..] == q[1..];
  }

  lemma {:induction false} FlattenLists(data: seq<LogItem>, depth: nat, parent: Option<int>, table: nat)
    ensures |FlattenData(data, depth, parent, table)| == |PathsOf(data)|
    ensures forall k :: 0 <= k < |PathsOf(data)| ==>
              && InData(data, PathsOf(data)[k])
              && FlattenData(data, depth, parent, table)[k] == LineIn(data, depth, parent, table, PathsOf(data)[k])
    decreases data
  {
    hide FlattenData, PathsOf, InData, LineIn, Under, Later;
    if data == [] {
      NoPaths();
      NoLines(depth, parent, table);
    } else {
      var inner, rest := PathsOf(data[0].children), PathsOf(data[1..]);
      FlattenLists(data[0].children, depth + 1, Some(data[0].number), table);
      FlattenLists(data[1..], depth, parent, table);
      PathsSplit(data);
      FlattenSplit(data, depth, parent, table);
      forall k | 0 <= k < |PathsOf(data)|
        ensures InData(data, PathsOf(data)[k])
        ensures FlattenData(data, depth, parent, table)[k] == LineIn(data, depth, parent, table, PathsOf(data)[k])
      {
        LineAt(data, depth, parent, table, k);
      }
    }
  }

  lemma {:induction false} NoLines(depth: nat, parent: Option<int>, table: nat)
    ensures FlattenData([], depth, parent, table) == []
  {}

  lemma {:induction false} FlattenSplit(data: seq<LogItem>, depth: nat, parent: Option<int>, table: nat)
    requires data != []
    ensures FlattenData(data, depth, parent, table)
         == [LineOf(data[0], depth, parent, table)]
            + FlattenData(data[0].children, depth + 1, Some(data[0].number), table)
            + FlattenData(data[1..], depth, parent, table)
  {}

  /** One line, given those of the first item's children and of the items after it. */
  lemma {:induction false} LineAt(data: seq<LogItem>, depth: nat, parent: Option<int>, table: nat, k: nat)
    requires data != [] && k < |PathsOf(data)|
    requires |FlattenData(data, depth, parent, table)| == |PathsOf(data)|
    requires var inner := PathsOf(data[0].children);
             var lines := FlattenData(data[0].children, depth + 1, Some(data[0].number), table);
             && |lines| == |inner|
             && forall i :: 0 <= i < |inner| ==>
                  && InData(data[0].children, inner[i])
                  && lines[i] == LineIn(data[0].children, depth + 1, Some(data[0].number), table, inner[i])
    requires var rest := PathsOf(data[1..]);
             var lines := FlattenData(data[1..], depth, parent, table);
             && |lines| == |rest|
             && forall i :: 0 <= i < |rest| ==>
                  InData(data[1..], rest[i]) && lines[i] == LineIn(data[1..], depth, parent, table, rest[i])
    ensures InData(data, PathsOf(data)[k])
    ensures FlattenData(data, depth, parent, table)[k] == LineIn(data, depth, parent, table, PathsOf(data)[k])
  {
    hide FlattenData, PathsOf, InData, LineIn;
    var inner, rest := PathsOf(data[0].children), PathsOf(data[1..]);
    PathAt(data, k);
    FlattenSplit(data, depth, parent, table);
    PartAt([LineOf(data[0], depth, parent, table)],
           FlattenData(data[0].children, depth + 1, Some(data[0].number), table),
           FlattenData(data[1..], depth, parent, table), k);
    if k == 0 {
      FirstLine(data, depth, parent, table);
    } else if k <= |inner| {
      LineUnder(data, depth, parent, table, inner[k - 1]);
    } else {
      LineLater(data, depth, parent, table, rest[k - |inner| - 1]);
    }
  }

  lemma {:induction false} FirstLine(data: seq<LogItem>, depth: nat, parent: Option<int>, table: nat)
    requires data != []
    ensures InData(data, [0]) && LineIn(data, depth, parent, table, [0]) == LineOf(data[0], depth, parent, table)
  {}

  lemma {:induction false} LineUnder(data: seq<LogItem>, depth: nat, parent: Option<int>, table: nat, path: seq<nat>)
    requires data != [] && InData(data[0].children, path)
    ensures InData(data, [0] + path)
    ensures LineIn(data, depth, parent, table, [0] + path)
         == LineIn(data[0].children, depth + 1, Some(data[0].number), table, path)
  {
    var full := [0] + path;
    assert full[1..] == path;
    if |path| == 1 {
      assert full[..1] == [0];
    } else {
      PathPrefix(data, full, |path|);
      PathPrefix(data[0].children, path, |path| - 1);
      assert full[..|path|][1..] == path[..|path| - 1];
    }
  }

  lemma {:induction false} LineLater(data: seq<LogItem>, depth: nat, parent: Option<int>, table: nat, path: seq<nat>)
    requires data != [] && InData(data[1..], path)
    ensures InData(data, [path[0] + 1] + path[1..])
    ensures LineIn(data, depth, parent, table, [path[0] + 1] + path[1..])
         == LineIn(data[1..], depth, parent, table, path)
  {
    var full := [path[0] + 1] + path[1..];
    assert full[1..] == path[1..];
    if |path| > 1 {
      var n := |path| - 1;
      PathPrefix(data, full, n);
      PathPrefix(data[1..], path, n);
      assert full[..n][1..] == path[..n][1..];
    }
  }

  function PlacesIn(table: nat, paths: seq<seq<nat>>): (r: seq<Place>)
    ensures |r| == |paths| && forall i :: 0 <= i < |r| ==> r[i] == Place(table, paths[i])
  {
    seq(|paths|, i requires 0 <= i < |paths| => Place(table, paths[i]))
  }

  /** Flattening a log: every item at any depth has exactly one line, in the order of the log, and there are
      no other lines. */
  lemma {:induction false} FlattenTablesLists(tables: seq<seq<LogItem>>) returns (places: seq<Place>)
    ensures Lists(FlattenTables(tables), places, tables)
  {
    if tables == [] {
      places := [];
    } else {
      var n := |tables| - 1;
      var before := FlattenTablesLists(tables[..n]);
      var last := PlacesIn(n, PathsOf(tables[n]));
      places := before + last;
      FlattenLists(tables[n], 0, None, n);
      AddTable(tables, FlattenTables(tables[..n]), before, FlattenData(tables[n], 0, None, n), last);
    }
  }

  lemma {:induction false} AddTable(tables: seq<seq<LogItem>>, a: seq<LogLine>, before: seq<Place>,
                                    b: seq<LogLine>, last: seq<Place>)
    requires tables != [] && Lists(a, before, tables[..|tables| - 1])
    requires last == PlacesIn(|tables| - 1, PathsOf(tables[|tables| - 1])) && |b| == |last|
    requires forall k :: 0 <= k < |last| ==>
               && InData(tables[|tables| - 1], last[k].path)
               && b[k] == LineIn(tables[|tables| - 1], 0, None, |tables| - 1, last[k].path)
    ensures Lists(a + b, before + last, tables)
  {
    hide LineIn, InData, PathBefore, PathsOf;
    var n := |tables| - 1;
    forall k | 0 <= k < |a + b|
      ensures Exists(tables, (before + last)[k]) && (a + b)[k] == LineFor(tables, (before + last)[k])
    {
      if k < |a| {
        assert Exists(tables[..n], before[k]) && a[k] == LineFor(tables[..n], before[k]);
      } else {
        assert (before + last)[k] == last[k - |a|] && (a + b)[k] == b[k - |a|];
      }
    }
    AllPlaces(tables, before, last);
    PlacesInOrder(tables, before, last);
  }

  lemma {:induction false} AllPlaces(tables: seq<seq<LogItem>>, before: seq<Place>, last: seq<Place>)
    requires tables != [] && (forall p :: Exists(tables[..|tables| - 1], p) ==> p in before)
    requires last == PlacesIn(|tables| - 1, PathsOf(tables[|tables| - 1]))
    ensures forall p :: Exists(tables, p) ==> p in before + last
  {
    hide InData, PathsOf;
    var n := |tables| - 1;
    forall p | Exists(tables, p)
      ensures p in before + last
    {
      if p.table == n {
        PathsExact(tables[n], p.path);
        var i :| 0 <= i < |last| && PathsOf(tables[n])[i] == p.path;
        assert p == last[i];
      } else {
        assert Exists(tables[..n], p);
      }
    }
  }

  lemma {:induction false} PlacesInOrder(tables: seq<seq<LogItem>>, before: seq<Place>, last: seq<Place>)
    requires tables != [] && (forall k :: 0 <= k < |before| ==> Exists(tables[..|tables| - 1], before[k]))
    requires forall j, k :: 0 <= j < k < |before| ==> PlaceBefore(before[j], before[k])
    requires last == PlacesIn(|tables| - 1, PathsOf(tables[|tables| - 1]))
    ensures forall j, k :: 0 <= j < k < |before + last| ==> PlaceBefore((before + last)[j], (before + last)[k])
  {
    hide InData, PathsOf, PathBefore;
    forall j, k | 0 <= j < k < |before + last|
      ensures PlaceBefore((before + last)[j], (before + last)[k])
    {
      if j >= |before| {
        PathsOrdered(tables[|tables| - 1], j - |before|, k - |before|);
      } else if k >= |before| {
        assert Exists(tables[..|tables| - 1], before[j]);
      } else {
        assert PlaceBefore(before[j], before[k]);
      }
    }
  }
}
