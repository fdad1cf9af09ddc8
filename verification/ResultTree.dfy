/** Results of a run: the tree of a sequential execution, and the table of rows it is stored as. */
module ResultTree {
  import opened Wrappers

  datatype Status = Passed | Failed | Skipped | Abnormal | NoStatus

  /** A result with what was executed inside it. */
  datatype Node = Node(id: nat, name: string, isTest: bool, seqno: int, start: int, finish: Option<int>,
                       status: Status, unexpected: bool, reqs: set<string>, children: seq<Node>)

  datatype Row = Row(id: nat, parent: Option<nat>, name: string, isTest: bool, seqno: int, start: int,
                     finish: Option<int>, status: Status, unexpected: bool, reqs: set<string>)

  function RowOf(n: Node, parent: Option<nat>): Row {
    Row(n.id, parent, n.name, n.isTest, n.seqno, n.start, n.finish, n.status, n.unexpected, n.reqs)
  }

  function RowsOf(ns: seq<Node>, parent: Option<nat>): (r: seq<Row>)
    ensures |r| == |ns| && forall i :: 0 <= i < |ns| ==> r[i] == RowOf(ns[i], parent)
  {
    if ns == [] then [] else [RowOf(ns[0], parent)] + RowsOf(ns[1..], parent)
  }

  /** The table, in the order of execution. */
  function Flatten(n: Node, parent: Option<nat>): seq<Row> {
    [RowOf(n, parent)] + FlattenAll(n.children, Some(n.id))
  }

  function FlattenAll(ns: seq<Node>, parent: Option<nat>): seq<Row> {
    if ns == [] then [] else Flatten(ns[0], parent) + FlattenAll(ns[1..], parent)
  }

  function WithParent(rows: seq<Row>, parent: Option<nat>): seq<Row> {
    if rows == [] then []
    else if rows[0].parent == parent then [rows[0]] + WithParent(rows[1..], parent)
    else WithParent(rows[1..], parent)
  }

  ghost predicate Within(n: Node, root: Node) {
    n == root || exists c :: c in root.children && Within(n, c)
  }

  // ---------- sequential executions ----------

  predicate DistinctIds(rows: seq<Row>) {
    forall i, j :: 0 <= i < j < |rows| ==> rows[i].id != rows[j].id
  }

  predicate SeqnosIncrease(rows: seq<Row>) {
    forall i, j :: 0 <= i < j < |rows| ==> rows[i].seqno < rows[j].seqno
  }

  /** Siblings run one after another; only the last may still be running. */
  predicate Separated(ns: seq<Node>) {
    && (forall i :: 0 <= i < |ns| ==> ns[i].finish.None? || ns[i].start <= ns[i].finish.value)
    && forall i, j :: 0 <= i < j < |ns| ==> ns[i].finish.Some? && ns[i].finish.value < ns[j].start
  }

  /** A name stands for one test or one package below a given parent. */
  predicate OneTypePerName(ns: seq<Node>) {
    forall i, j :: 0 <= i < |ns| && 0 <= j < |ns| && ns[i].name == ns[j].name ==> ns[i].isTest == ns[j].isTest
  }

  ghost predicate Sequential(n: Node) {
    && (n.isTest ==> n.children == [])
    && Separated(n.children)
    && OneTypePerName(n.children)
    && forall c | c in n.children :: Sequential(c)
  }

  /** The run: a sequential tree whose table has distinct ids and execution numbers in execution order. */
  ghost predicate WellFormedRun(root: Node) {
    Sequential(root) && DistinctIds(Flatten(root, None)) && SeqnosIncrease(Flatten(root, None))
  }

  lemma {:induction false} WithinSequential(n: Node, root: Node)
    requires Sequential(root) && Within(n, root)
    ensures Sequential(n)
    decreases root
  {
    if n != root {
      var c :| c in root.children && Within(n, c);
      WithinSequential(n, c);
    }
  }

  // ---------- concatenation ----------

  lemma {:induction false} WithParentConcat(a: seq<Row>, b: seq<Row>, parent: Option<nat>)
    ensures WithParent(a + b, parent) == WithParent(a, parent) + WithParent(b, parent)
  {
    if a == [] {
      assert a + b == b;
    } else {
      assert (a + b)[1..] == a[1..] + b;
      WithParentConcat(a[1..], b, parent);
    }
  }

  lemma {:induction false} FlattenAllConcat(a: seq<Node>, b: seq<Node>, parent: Option<nat>)
    ensures FlattenAll(a + b, parent) == FlattenAll(a, parent) + FlattenAll(b, parent)
  {
    if a == [] {
      assert a + b == b;
    } else {
      assert (a + b)[1..] == a[1..] + b;
      FlattenAllConcat(a[1..], b, parent);
    }
  }

  predicate HasId(rows: seq<Row>, id: nat) {
    exists i :: 0 <= i < |rows| && rows[i].id == id
  }

  lemma {:induction false} HasIdConcat(a: seq<Row>, b: seq<Row>, id: nat)
    ensures HasId(a + b, id) <==> HasId(a, id) || HasId(b, id)
  {
    if HasId(a, id) {
      var i :| 0 <= i < |a| && a[i].id == id;
      assert (a + b)[i].id == id;
    }
    if HasId(b, id) {
      var i :| 0 <= i < |b| && b[i].id == id;
      assert (a + b)[|a| + i].id == id;
    }
  }

  lemma {:induction false} DistinctParts(a: seq<Row>, b: seq<Row>)
    requires DistinctIds(a + b)
    ensures DistinctIds(a) && DistinctIds(b)
    ensures forall id :: HasId(a, id) ==> !HasId(b, id)
  {
    var c := a + b;
    forall i, j | 0 <= i < j < |a|
      ensures a[i].id != a[j].id
    {
      assert c[i].id != c[j].id;
    }
    forall i, j | 0 <= i < j < |b|
      ensures b[i].id != b[j].id
    {
      assert c[|a| + i].id != c[|a| + j].id;
    }
    forall id | HasId(a, id)
      ensures !HasId(b, id)
    {
      var i :| 0 <= i < |a| && a[i].id == id;
      forall j | 0 <= j < |b|
        ensures b[j].id != id
      {
        assert c[i].id != c[|a| + j].id;
      }
    }
  }

  // ---------- the children query ----------

  /** Nothing inside a tree has an outsider for a parent. */
  lemma {:induction false} NoneBelow(n: Node, parent: Option<nat>, id: nat)
    requires !HasId(Flatten(n, parent), id)
    ensures WithParent(Flatten(n, parent), Some(id)) == if parent == Some(id) then [RowOf(n, parent)] else []
    decreases n
  {
    var a, b := [RowOf(n, parent)], FlattenAll(n.children, Some(n.id));
    HasIdConcat(a, b, id);
    assert a[0].id == n.id;
    assert n.id != id;
    WithParentConcat(a, b, Some(id));
    assert WithParent(a, Some(id)) == (if parent == Some(id) then a else []) by {
      assert a[1..] == [];
    }
    NoneBelowAll(n.children, Some(n.id), id);
  }

  lemma {:induction false} NoneBelowAll(ns: seq<Node>, parent: Option<nat>, id: nat)
    requires !HasId(FlattenAll(ns, parent), id)
    ensures WithParent(FlattenAll(ns, parent), Some(id)) == if parent == Some(id) then RowsOf(ns, parent) else []
    decreases ns
  {
    if ns != [] {
      var a, b := Flatten(ns[0], parent), FlattenAll(ns[1..], parent);
      HasIdConcat(a, b, id);
      WithParentConcat(a, b, Some(id));
      NoneBelow(ns[0], parent, id);
      NoneBelowAll(ns[1..], parent, id);
    }
  }

  /** Filtering the table by parent gives exactly that result's children, in order. */
  lemma {:induction false} ChildrenQuery(root: Node, parent: Option<nat>, n: Node)
    requires DistinctIds(Flatten(root, parent)) && Within(n, root) && parent != Some(n.id)
    ensures WithParent(Flatten(root, parent), Some(n.id)) == RowsOf(n.children, Some(n.id))
    ensures HasId(Flatten(root, parent), n.id)
    decreases root
  {
    var a, b := [RowOf(root, parent)], FlattenAll(root.children, Some(root.id));
    DistinctParts(a, b);
    HasIdConcat(a, b, n.id);
    assert a[0].id == root.id;
    WithParentConcat(a, b, Some(n.id));
    assert WithParent(a, Some(n.id)) == [] by {
      assert a[1..] == [];
    }
    if n == root {
      assert HasId(a, n.id);
      NoneBelowAll(root.children, Some(root.id), n.id);
    } else {
      var c :| c in root.children && Within(n, c);
      ChildrenQueryAll(root.children, Some(root.id), c, n);
      assert HasId(a, root.id);
    }
  }

  lemma {:induction false} ChildrenQueryAll(ns: seq<Node>, parent: Option<nat>, c: Node, n: Node)
    requires DistinctIds(FlattenAll(ns, parent)) && c in ns && Within(n, c)
    requires parent.Some? && !HasId(FlattenAll(ns, parent), parent.value)
    ensures WithParent(FlattenAll(ns, parent), Some(n.id)) == RowsOf(n.children, Some(n.id))
    ensures HasId(FlattenAll(ns, parent), n.id)
    decreases ns
  {
    var a, b := Flatten(ns[0], parent), FlattenAll(ns[1..], parent);
    DistinctParts(a, b);
    HasIdConcat(a, b, n.id);
    HasIdConcat(a, b, parent.value);
    WithParentConcat(a, b, Some(n.id));
    if c == ns[0] {
      InOwnRows(c, parent, n);
      assert parent != Some(n.id);
      ChildrenQuery(c, parent, n);
      NoneBelowAll(ns[1..], parent, n.id);
    } else {
      ChildrenQueryAll(ns[1..], parent, c, n);
      assert parent != Some(n.id);
      NoneBelow(ns[0], parent, n.id);
    }
  }

  lemma {:induction false} InOwnRows(root: Node, parent: Option<nat>, n: Node)
    requires Within(n, root)
    ensures HasId(Flatten(root, parent), n.id)
    decreases root
  {
    var a, b := [RowOf(root, parent)], FlattenAll(root.children, Some(root.id));
    HasIdConcat(a, b, n.id);
    if n == root {
      assert a[0].id == n.id;
    } else {
      var c :| c in root.children && Within(n, c);
      InOwnRows(c, Some(root.id), n);
      InRowsAll(root.children, Some(root.id), c, n.id);
    }
  }

  lemma {:induction false} InRowsAll(ns: seq<Node>, parent: Option<nat>, c: Node, id: nat)
    requires c in ns && HasId(Flatten(c, parent), id)
    ensures HasId(FlattenAll(ns, parent), id)
  {
    HasIdConcat(Flatten(ns[0], parent), FlattenAll(ns[1..], parent), id);
    if c != ns[0] {
      InRowsAll(ns[1..], parent, c, id);
    }
  }

  // ---------- where a node's children are in the table ----------

  /** The children of a node, with everything inside them, are contiguous in the table. */
  lemma {:induction false} Locate(root: Node, parent: Option<nat>, n: Node) returns (a: seq<Row>, b: seq<Row>)
    requires Within(n, root)
    ensures Flatten(root, parent) == a + FlattenAll(n.children, Some(n.id)) + b
    decreases root
  {
    if n == root {
      a, b := [RowOf(root, parent)], [];
    } else {
      var c :| c in root.children && Within(n, c);
      var i :| 0 <= i < |root.children| && root.children[i] == c;
      var a', b' := Locate(c, Some(root.id), n);
      var before, after := root.children[..i], root.children[i + 1..];
      assert root.children == before + ([c] + after);
      FlattenAllConcat(before, [c] + after, Some(root.id));
      assert ([c] + after)[1..] == after;
      hide Flatten, FlattenAll;
      Regroup([RowOf(root, parent)], FlattenAll(before, Some(root.id)), a', FlattenAll(n.children, Some(n.id)), b',
              FlattenAll(after, Some(root.id)));
      a := [RowOf(root, parent)] + FlattenAll(before, Some(root.id)) + a';
      b := b' + FlattenAll(after, Some(root.id));
    }
  }

  lemma {:induction false} Regroup<T>(a: seq<T>, b: seq<T>, c: seq<T>, d: seq<T>, e: seq<T>, f: seq<T>)
    ensures a + (b + ((c + d + e) + f)) == (a + b + c) + d + (e + f)
  {}
}
