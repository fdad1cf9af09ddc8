/** Salted hashing over a table: `CreateHash` probes with increasing salts until it finds a free hash or an
    object with the same data.  The hash function and the equality up to order are parameters. */
module HashedObjects {
  /** `hash` respects `same`, which is an equivalence. */
  ghost predicate Respects<D(!new), H(!new)>(hash: (D, nat) -> H, same: (D, D) -> bool) {
    && (forall x, y, k: nat {:trigger hash(x, k), hash(y, k)} :: same(x, y) ==> hash(x, k) == hash(y, k))
    && Equivalence(same)
  }

  /** Different salts give different hashes of the same data. */
  ghost predicate SaltsDiffer<D(!new), H(!new)>(hash: (D, nat) -> H) {
    forall x, j: nat, k: nat {:trigger hash(x, j), hash(x, k)} :: hash(x, j) == hash(x, k) ==> j == k
  }

  /** Probe `k` of `d` meets an object with other data. */
  ghost predicate Collides<D, H>(table: map<H, D>, hash: (D, nat) -> H, same: (D, D) -> bool, d: D, k: nat) {
    hash(d, k) in table && !same(d, table[hash(d, k)])
  }

  /** Probing stops at salt `k`: every earlier probe collides and this one does not. */
  ghost predicate StopsAt<D(!new), H(!new)>(table: map<H, D>, hash: (D, nat) -> H, same: (D, D) -> bool, d: D, k: nat) {
    && !Collides(table, hash, same, d, k)
    && forall j: nat | j < k :: Collides(table, hash, same, d, j)
  }

  /** Every stored object is where probing for its data stops. */
  ghost predicate Reachable<D(!new), H(!new)>(table: map<H, D>, hash: (D, nat) -> H, same: (D, D) -> bool) {
    forall h | h in table :: ReachableAt(table, hash, same, h)
  }

  ghost predicate ReachableAt<D(!new), H(!new)>(table: map<H, D>, hash: (D, nat) -> H, same: (D, D) -> bool, h: H)
    requires h in table
  {
    exists k: nat :: hash(table[h], k) == h && StopsAt(table, hash, same, table[h], k)
  }

  /** Probing stops at one salt only, and depends on the data only up to `same`. */
  lemma {:induction false} StopsOnce<D(!new), H(!new)>(table: map<H, D>, hash: (D, nat) -> H,
                                                           same: (D, D) -> bool, d: D, e: D, j: nat, k: nat)
    requires Respects(hash, same) && same(d, e)
    requires StopsAt(table, hash, same, d, j) && StopsAt(table, hash, same, e, k)
    ensures j == k && hash(d, j) == hash(e, k)
  {
    forall i: nat
      ensures hash(d, i) == hash(e, i)
      ensures Collides(table, hash, same, d, i) == Collides(table, hash, same, e, i)
    {
      if hash(d, i) in table {
        var x := table[hash(d, i)];
        assert hash(e, i) == hash(d, i);
        assert same(d, x) ==> same(e, d) && same(e, x);
        assert same(e, x) ==> same(d, x);
      }
    }
  }

  /** Stored objects with the same data are one object. */
  lemma {:induction false} SameDataSameObject<D(!new), H(!new)>(table: map<H, D>, hash: (D, nat) -> H,
                                                                    same: (D, D) -> bool, g: H, h: H)
    requires Respects(hash, same) && Reachable(table, hash, same)
    requires g in table && h in table && same(table[g], table[h])
    ensures g == h
  {
    assert ReachableAt(table, hash, same, g) && ReachableAt(table, hash, same, h);
    var j: nat :| hash(table[g], j) == g && StopsAt(table, hash, same, table[g], j);
    var k: nat :| hash(table[h], k) == h && StopsAt(table, hash, same, table[h], k);
    StopsOnce(table, hash, same, table[g], table[h], j, k);
  }

  /** Probing for stored data finds the stored object. */
  lemma {:induction false} StopsAtStored<D(!new), H(!new)>(table: map<H, D>, hash: (D, nat) -> H,
                                                               same: (D, D) -> bool, d: D, h: H, k: nat)
    requires Respects(hash, same) && Reachable(table, hash, same)
    requires h in table && same(d, table[h]) && StopsAt(table, hash, same, d, k)
    ensures hash(d, k) == h
  {
    assert ReachableAt(table, hash, same, h);
    var j: nat :| hash(table[h], j) == h && StopsAt(table, hash, same, table[h], j);
    StopsOnce(table, hash, same, d, table[h], k, j);
  }

  /** Storing new data where its probing stops keeps every object reachable. */
  lemma {:induction false} InsertKeepsReachable<D(!new), H(!new)>(table: map<H, D>, hash: (D, nat) -> H,
                                                                      same: (D, D) -> bool, d: D, k: nat)
    requires Respects(hash, same) && Reachable(table, hash, same)
    requires StopsAt(table, hash, same, d, k) && hash(d, k) !in table
    ensures Reachable(table[hash(d, k) := d], hash, same)
  {
    var table' := table[hash(d, k) := d];
    forall x, i: nat | Collides(table, hash, same, x, i)
      ensures Collides(table', hash, same, x, i)
    {}
    forall h | h in table'
      ensures ReachableAt(table', hash, same, h)
    {
      if h == hash(d, k) {
        assert StopsAt(table', hash, same, d, k);
      } else {
        assert ReachableAt(table, hash, same, h);
        var j: nat :| hash(table[h], j) == h && StopsAt(table, hash, same, table[h], j);
        assert StopsAt(table', hash, same, table'[h], j);
      }
    }
  }

  /** Probing for the object at `h` passes `gone` on its way. */
  ghost predicate Passes<D(!new), H(!new)>(table: map<H, D>, hash: (D, nat) -> H, h: H, gone: H)
    requires h in table
  {
    exists k: nat, j: nat {:trigger hash(table[h], k), hash(table[h], j)} ::
      hash(table[h], k) == h && j < k && hash(table[h], j) == gone
  }

  /** Deleting an object hides exactly those others whose probing passes it. */
  lemma {:induction false} DeletionHides<D(!new), H(!new)>(table: map<H, D>, hash: (D, nat) -> H,
                                                               same: (D, D) -> bool, gone: H, h: H)
    requires SaltsDiffer(hash) && gone in table && h in table && h != gone && ReachableAt(table, hash, same, h)
    ensures ReachableAt(table - {gone}, hash, same, h) <==> !Passes(table, hash, h, gone)
  {
    var left := table - {gone};
    if ReachableAt(left, hash, same, h) {
      var i: nat :| hash(left[h], i) == h && StopsAt(left, hash, same, left[h], i);
      forall k: nat, j: nat | hash(table[h], k) == h && j < k
        ensures hash(table[h], j) != gone
      {
        assert Collides(left, hash, same, left[h], j);
      }
    }
    if !Passes(table, hash, h, gone) {
      var k: nat :| hash(table[h], k) == h && StopsAt(table, hash, same, table[h], k);
      forall j: nat | j < k
        ensures Collides(left, hash, same, left[h], j)
      {
        assert Collides(table, hash, same, table[h], j) && hash(table[h], j) != gone;
      }
      assert StopsAt(left, hash, same, left[h], k);
    }
  }

  /** Deleting an object keeps all the others reachable exactly when no probing for them passes it. */
  lemma {:induction false} DeleteKeepsReachable<D(!new), H(!new)>(table: map<H, D>, hash: (D, nat) -> H,
                                                                      same: (D, D) -> bool, gone: H)
    requires SaltsDiffer(hash) && Reachable(table, hash, same) && gone in table
    ensures Reachable(table - {gone}, hash, same) <==>
              forall h :: h in table && h != gone ==> !Passes(table, hash, h, gone)
  {
    forall h | h in table && h != gone
      ensures ReachableAt(table - {gone}, hash, same, h) <==> !Passes(table, hash, h, gone)
    {
      assert ReachableAt(table, hash, same, h);
      DeletionHides(table, hash, same, gone, h);
    }
    assert forall h :: h in table - {gone} <==> h in table && h != gone;
  }

  /** After a collision and a deletion the same data is stored again: two objects hold it. */
  lemma {:induction false} DeletionDuplicates()
    ensures var hash, same := (d: nat, k: nat) => k, (x: nat, y: nat) => x == y;
            var table: map<nat, nat> := map[0 := 10, 1 := 20];
            && Respects(hash, same) && SaltsDiffer(hash) && Reachable(table, hash, same)
            && !Reachable(table - {0}, hash, same)
            && StopsAt(table - {0}, hash, same, 20, 0)
            && (table - {0})[hash(20, 0) := 20] == map[0 := 20, 1 := 20]
  {
    var hash, same := (d: nat, k: nat) => k, (x: nat, y: nat) => x == y;
    var table: map<nat, nat> := map[0 := 10, 1 := 20];
    assert StopsAt(table, hash, same, 10, 0) && hash(10, 0) == 0;
    assert StopsAt(table, hash, same, 20, 1) && hash(20, 1) == 1;
    assert ReachableAt(table, hash, same, 0) && ReachableAt(table, hash, same, 1);
    assert hash(table[1], 1) == 1 && hash(table[1], 0) == 0;
    assert Passes(table, hash, 1, 0);
    DeleteKeepsReachable(table, hash, same, 0);
  }

  class HashedModel<D(!new), H(==, !new)> {
    const hash: (D, nat) -> H
    const same: (D, D) -> bool
    var objects: map<H, D>

    ghost predicate Valid()
      reads this
    {
      Respects(hash, same) && SaltsDiffer(hash) && Reachable(objects, hash, same)
    }

    constructor (hash: (D, nat) -> H, same: (D, D) -> bool)
      requires Respects(hash, same) && SaltsDiffer(hash)
      ensures Valid() && objects == map[] && this.hash == hash && this.same == same
    {
      this.hash, this.same, objects := hash, same, map[];
    }

    /** The hash under which the data is, or is to be, stored; found after at most one probe more than there
        are objects. */
    method CreateHash(data: D) returns (dataHash: H)
      requires Valid()
      ensures exists salt: nat ::
                salt <= |objects| && dataHash == hash(data, salt) && StopsAt(objects, hash, same, data, salt)
    {
      var s: nat := 0;
      ghost var probed: set<H> := {};
      while true
        invariant forall j: nat | j < s :: Collides(objects, hash, same, data, j)
        invariant probed <= objects.Keys && |probed| == s
        invariant forall h :: h in probed <==> exists j: nat :: j < s && h == hash(data, j)
        decreases |objects| - s
      {
        ProbesLeft(objects, probed);
        var h := hash(data, s);
        if h !in objects || same(data, objects[h]) {
          assert StopsAt(objects, hash, same, data, s);
          return h;
        }
        assert h !in probed;
        probed := probed + {h};
        SubsetSize(probed, objects.Keys);
        s := s + 1;
      }
    }

    /** The object for the data: an existing one with the same data, or a new one. */
    method GetOrCreate(data: D) returns (h: H, created: bool)
      requires Valid()
      modifies this
      ensures Valid()
      ensures Stored(same, old(objects), data, h, objects)
      ensures created <==> h !in old(objects)
    {
      h := CreateHash(data);
      ghost var salt: nat :| h == hash(data, salt) && StopsAt(objects, hash, same, data, salt);
      if h in objects {
        return h, false;
      }
      forall g | g in objects
        ensures !same(data, objects[g])
      {
        if same(data, objects[g]) {
          StopsAtStored(objects, hash, same, data, g, salt);
        }
      }
      InsertKeepsReachable(objects, hash, same, data, salt);
      objects := objects[h := data];
      created := true;
    }
  }

  /** One call for `data` answered with object `h`: an object that holds the same data, new only if none did. */
  ghost predicate Stored<D(!new), H(!new)>(same: (D, D) -> bool, before: map<H, D>, data: D, h: H, after: map<H, D>) {
    && (if h in before then after == before && same(data, before[h]) else after == before[h := data])
    && (h !in before ==> forall g | g in before :: !same(data, before[g]))
  }

  /** A run of calls, with the table before and after each. */
  ghost predicate Run<D(!new), H(!new)>(same: (D, D) -> bool, tables: seq<map<H, D>>, data: seq<D>, answers: seq<H>) {
    && |data| == |answers| && |tables| == |data| + 1 && tables[0] == map[]
    && forall i :: 0 <= i < |data| ==> Stored(same, tables[i], data[i], answers[i], tables[i + 1])
  }

  ghost predicate Equivalence<D(!new)>(same: (D, D) -> bool) {
    && (forall x :: same(x, x))
    && (forall x, y :: same(x, y) ==> same(y, x))
    && (forall x, y, z {:trigger same(x, y), same(y, z)} :: same(x, y) && same(y, z) ==> same(x, z))
  }

  ghost predicate NoTwins<D(!new), H(!new)>(same: (D, D) -> bool, table: map<H, D>) {
    forall g, h | g in table && h in table && same(table[g], table[h]) :: g == h
  }

  lemma {:induction false} RunState<D(!new), H(!new)>(same: (D, D) -> bool, tables: seq<map<H, D>>, data: seq<D>,
                                                      answers: seq<H>, n: nat)
    requires Equivalence(same) && Run(same, tables, data, answers) && n <= |data|
    ensures NoTwins(same, tables[n])
    ensures forall i :: 0 <= i < n ==> answers[i] in tables[n] && same(data[i], tables[n][answers[i]])
  {
    if n > 0 {
      RunState(same, tables, data, answers, n - 1);
      assert Stored(same, tables[n - 1], data[n - 1], answers[n - 1], tables[n]);
    }
  }

  /** Over every insert-only run, two calls are answered with the same object exactly when their data is the
      same. */
  lemma {:induction false} SameAnswerSameData<D(!new), H(!new)>(same: (D, D) -> bool, tables: seq<map<H, D>>,
                                                                data: seq<D>, answers: seq<H>, i: nat, j: nat)
    requires Equivalence(same) && Run(same, tables, data, answers) && i < |data| && j < |data|
    ensures answers[i] == answers[j] <==> same(data[i], data[j])
  {
    RunState(same, tables, data, answers, |data|);
    var last := tables[|data|];
    if same(data[i], data[j]) {
      assert same(last[answers[i]], data[i]) && same(last[answers[i]], data[j]);
    }
  }

  lemma {:induction false} SubsetSize<T>(a: set<T>, b: set<T>)
    requires a <= b
    ensures |a| <= |b|
    ensures |a| == |b| ==> a == b
  {
    if a != {} {
      var x :| x in a;
      SubsetSize(a - {x}, b - {x});
    }
  }

  lemma {:induction false} ProbesLeft<D, H>(objects: map<H, D>, probed: set<H>)
    requires probed <= objects.Keys
    ensures |probed| <= |objects|
  {
    SubsetSize(probed, objects.Keys);
  }
}
