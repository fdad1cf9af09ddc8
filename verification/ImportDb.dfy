/** The tables a log import writes to, as values, and the get-or-create steps on them. */
module ImportDb {
  import opened Wrappers

  datatype Kind = Test | Session | Package

  datatype TestRow = TestRow(name: string, parent: Option<nat>, kind: Kind)
  datatype IterationRow = IterationRow(test: nat, hash: Option<string>)
  datatype Relation = Relation(iteration: nat, parent: Option<nat>, depth: nat)
  datatype ResultRow = ResultRow(iteration: nat, parent: Option<nat>, seqno: int, tin: int, start: int, finish: int)

  /** Rows are identified by their position; `results` are those of one run. */
  datatype Db = Db(tests: seq<TestRow>, iterations: seq<IterationRow>, relations: set<Relation>,
                   results: seq<ResultRow>)

  datatype Error = Integrity | NotFound | Duplicate

  // ---------- positions ----------

  function IndexOf<T(==)>(rows: seq<T>, row: T): (i: nat)
    requires row in rows
    ensures i < |rows| && rows[i] == row && row !in rows[..i]
  {
    if rows[0] == row then 0
    else
      var i := IndexOf(rows[1..], row);
      assert rows[..i + 1] == [rows[0]] + rows[1..][..i];
      i + 1
  }

  function Put<T(==)>(rows: seq<T>, row: T): (r: seq<T>)
    ensures rows <= r && row in r
  {
    if row in rows then rows else rows + [row]
  }

  lemma {:induction false} IndexOfPrefix<T>(rows: seq<T>, more: seq<T>, row: T)
    requires row in rows && rows <= more
    ensures row in more && IndexOf(more, row) == IndexOf(rows, row)
  {
    assert more[0] == rows[0];
    if rows[0] != row {
      assert rows[1..] <= more[1..];
      IndexOfPrefix(rows[1..], more[1..], row);
    }
  }

  // ---------- steps ----------

  /** A name is taken below a parent once; below no parent, the database does not object. */
  function AddTest(db: Db, name: string, kind: Kind, parent: Option<nat>): Result<(Db, nat), Error> {
    var row := TestRow(name, parent, kind);
    if row !in db.tests && parent.Some? && exists r :: r in db.tests && r.name == name && r.parent == parent then
      Failure(Integrity)
    else Success((db.(tests := Put(db.tests, row)), IndexOf(Put(db.tests, row), row)))
  }

  /** An iteration has at most one relation of each depth. */
  function AddRelation(relations: set<Relation>, r: Relation): Result<set<Relation>, Error> {
    if r in relations then Success(relations)
    else if exists s :: s in relations && s.iteration == r.iteration && s.depth == r.depth then Failure(Integrity)
    else Success(relations + {r})
  }

  /** The parents recorded at depth 1. */
  function DirectParents(relations: set<Relation>, iteration: nat): set<Option<nat>> {
    set s | s in relations && s.iteration == iteration && s.depth == 1 :: s.parent
  }

  /** The relations from depth `d` on, the one at `d` leading to `parent`. */
  function AddRelations(relations: set<Relation>, x: nat, parent: Option<nat>, d: nat,
                        depth: nat): Result<set<Relation>, Error>
    decreases depth + 1 - d
  {
    if d > depth then Success(relations)
    else
      var r := AddRelation(relations, Relation(x, parent, d));
      if r.Failure? || d == depth then r
      else if parent.None? then Failure(NotFound)
      else
        var ps := DirectParents(r.value, parent.value);
        if ps == {} then Failure(NotFound)
        else if exists p, q :: p in ps && q in ps && p != q then Failure(Duplicate)
        else AddRelations(r.value, x, Only(ps), d + 1, depth)
  }

  function Only<T>(s: set<T>): T
    requires s != {} && !(exists p, q :: p in s && q in s && p != q)
  {
    var x :| x in s;
    x
  }

  function RowFor(kind: Kind, test: nat, hash: string): IterationRow {
    IterationRow(test, if kind == Test then Some(hash) else None)
  }

  function AddIteration(db: Db, row: IterationRow, parent: Option<nat>, depth: nat): Result<(Db, nat), Error> {
    var iterations := Put(db.iterations, row);
    var x := IndexOf(iterations, row);
    var r := if depth == 0 then AddRelation(db.relations, Relation(x, parent, 0))
             else AddRelations(db.relations, x, parent, 1, depth);
    match r
    case Failure(e) => Failure(e)
    case Success(relations) => Success((db.(iterations := iterations, relations := relations), x))
  }

  function ResultsAt(results: seq<ResultRow>, seqno: int): set<nat> {
    set i | 0 <= i < |results| && results[i].seqno == seqno
  }

  /** The result with this execution number, updated if it is there and compatible, created if not. */
  function AddResult(db: Db, row: ResultRow): Result<(Db, nat), Error> {
    var at := ResultsAt(db.results, row.seqno);
    if at == {} then Success((db.(results := db.results + [row]), |db.results|))
    else if exists i, j :: i in at && j in at && i != j then Failure(Duplicate)
    else
      var i := Only(at);
      var existing := db.results[i];
      if existing.parent != row.parent || (existing.tin != row.tin && existing.tin > -1) then Failure(Duplicate)
      else Success((db.(results := db.results[i := row]), i))
  }

  // ---------- a whole log ----------

  datatype LogIter = LogIter(name: string, kind: Kind, hash: string, seqno: int, tin: int, start: int, finish: int,
                             iters: seq<LogIter>)

  /** What an iteration is imported under. */
  datatype Context = Context(test: Option<nat>, iteration: Option<nat>, result: Option<nat>, depth: nat)

  const TOP := Context(None, None, None, 0)

  /** A session may have no name of its own. */
  function NameOf(data: LogIter): string {
    if data.name == "" && data.kind == Session then "session" else data.name
  }

  /** One iteration without those inside it; the second part is what they are imported under. */
  function ImportOne(db: Db, data: LogIter, c: Context): Result<(Db, Context), Error> {
    var t := AddTest(db, NameOf(data), data.kind, c.test);
    if t.Failure? then Failure(t.error)
    else
      var (db1, test) := t.value;
      var i := AddIteration(db1, RowFor(data.kind, test, data.hash), c.iteration, c.depth);
      if i.Failure? then Failure(i.error)
      else
        var (db2, x) := i.value;
        var r := AddResult(db2, ResultRow(x, c.result, data.seqno, data.tin, data.start, data.finish));
        if r.Failure? then Failure(r.error)
        else
          var (db3, result) := r.value;
          Success((db3, Context(Some(test), Some(x), Some(result), c.depth + 1)))
  }

  /** The recursion over the log. */
  function Import(db: Db, data: LogIter, c: Context): Result<Db, Error>
    decreases data, 1
  {
    var r := ImportOne(db, data, c);
    if r.Failure? then Failure(r.error) else ImportAll(r.value.0, data.iters, r.value.1)
  }

  function ImportAll(db: Db, ds: seq<LogIter>, c: Context): Result<Db, Error>
    decreases ds, 0
  {
    if ds == [] then Success(db)
    else
      var r := Import(db, ds[0], c);
      if r.Failure? then r else ImportAll(r.value, ds[1..], c)
  }
}
