/** Versioned configurations: what holds of the stored rows of every (project, type, name) group, and of the
    cache that signals keep in step with the active version. */
module Configs {
  import opened Wrappers

  datatype ConfigType = Global | Report | Schedule

  type Content = map<string, string>

  datatype Config = Config(kind: ConfigType, name: string, project: Option<nat>, version: nat, isActive: bool,
                           content: Content)

  datatype Group = Group(project: Option<nat>, kind: ConfigType, name: string)

  type Rows = map<nat, Config>
  type Cache = map<(Option<nat>, string), Content>

  function GroupOf(c: Config): Group {
    Group(c.project, c.kind, c.name)
  }

  predicate In(rows: Rows, g: Group, i: nat) {
    i in rows && GroupOf(rows[i]) == g
  }

  predicate GlobalName(name: string) {
    name == "per_conf" || name == "references" || name == "meta"
  }

  // ---------- the invariant of the rows ----------

  ghost predicate OneActive(rows: Rows) {
    forall i, j | i in rows && j in rows && GroupOf(rows[i]) == GroupOf(rows[j])
                  && rows[i].isActive && rows[j].isActive :: i == j
  }

  ghost predicate DistinctVersions(rows: Rows) {
    forall i, j | i in rows && j in rows && GroupOf(rows[i]) == GroupOf(rows[j])
                  && rows[i].version == rows[j].version :: i == j
  }

  ghost predicate DistinctContents(rows: Rows) {
    forall i, j | i in rows && j in rows && GroupOf(rows[i]) == GroupOf(rows[j])
                  && rows[i].content == rows[j].content :: i == j
  }

  /** Each group has at most one active configuration, distinct versions and distinct contents. */
  ghost predicate GroupsOk(rows: Rows) {
    OneActive(rows) && DistinctVersions(rows) && DistinctContents(rows)
  }

  /** Global configurations have one of the known names. */
  ghost predicate NamesOk(rows: Rows) {
    forall i :: i in rows && rows[i].kind == Global ==> GlobalName(rows[i].name)
  }

  // ---------- the invariant of the cache ----------

  ghost predicate IsActive(rows: Rows, g: Group, i: nat) {
    In(rows, g, i) && rows[i].isActive
  }

  /** An entry holds the content of the active global configuration, or is empty when there is none. */
  ghost predicate Agrees(rows: Rows, g: Group, content: Content) {
    && (forall i :: IsActive(rows, g, i) ==> content == rows[i].content)
    && ((forall i :: !IsActive(rows, g, i)) ==> content == map[])
  }

  ghost predicate CacheOk(rows: Rows, cache: Cache) {
    forall k :: k in cache ==> Agrees(rows, Group(k.0, Global, k.1), cache[k])
  }

  // ---------- activation ----------

  /** Exactly configuration `id` is active in its group. */
  function Activated(rows: Rows, id: nat): Rows
    requires id in rows
  {
    map i | i in rows ::
      if GroupOf(rows[i]) == GroupOf(rows[id]) then rows[i].(isActive := i == id) else rows[i]
  }

  function CacheKey(c: Config): (Option<nat>, string) {
    (c.project, c.name)
  }

  /** The signal after saving a configuration. */
  function Saved(cache: Cache, c: Config): Cache {
    if c.kind == Global && c.isActive then cache[CacheKey(c) := c.content] else cache
  }

  /** Activation keeps the rows' invariant; the cache stays right although deactivating the others sends no
      signal, because the activated one's signal overwrites their entry. */
  lemma {:induction false} ActivatedOk(rows: Rows, cache: Cache, id: nat)
    requires id in rows && GroupsOk(rows) && CacheOk(rows, cache)
    ensures GroupsOk(Activated(rows, id))
    ensures NamesOk(rows) ==> NamesOk(Activated(rows, id))
    ensures rows[id].isActive ==> Activated(rows, id) == rows
    ensures !rows[id].isActive ==> CacheOk(Activated(rows, id), Saved(cache, rows[id].(isActive := true)))
  {
    var rows' := Activated(rows, id);
    assert DistinctVersions(rows') && DistinctContents(rows') && OneActive(rows');
    if rows[id].isActive {
      forall i | i in rows
        ensures rows'[i] == rows[i]
      {}
    } else {
      var c := rows[id].(isActive := true);
      var cache' := Saved(cache, c);
      forall k | k in cache'
        ensures Agrees(rows', Group(k.0, Global, k.1), cache'[k])
      {
        var g := Group(k.0, Global, k.1);
        if g == GroupOf(c) {
          assert IsActive(rows', g, id);
        } else {
          forall i
            ensures IsActive(rows', g, i) <==> IsActive(rows, g, i)
            ensures IsActive(rows, g, i) ==> rows'[i] == rows[i]
          {}
        }
      }
    }
  }

  // ---------- adding ----------

  ghost predicate NewestVersion(rows: Rows, g: Group, version: nat) {
    && (forall i :: In(rows, g, i) ==> rows[i].version < version)
    && (version == 0 || exists i :: In(rows, g, i) && rows[i].version == version - 1)
  }

  /** Adding an inactive configuration with the next version keeps the rows' invariant exactly when no
      configuration of the group has its content. */
  lemma {:induction false} AddedOk(rows: Rows, cache: Cache, id: nat, c: Config)
    requires GroupsOk(rows) && CacheOk(rows, cache) && id !in rows
    requires !c.isActive && NewestVersion(rows, GroupOf(c), c.version)
    ensures GroupsOk(rows[id := c]) <==> forall i :: In(rows, GroupOf(c), i) ==> rows[i].content != c.content
    ensures CacheOk(rows[id := c], cache)
  {
    var rows' := rows[id := c];
    assert OneActive(rows');
    forall i | i in rows && GroupOf(rows[i]) == GroupOf(c)
      ensures rows[i].version != c.version
    {
      assert In(rows, GroupOf(c), i);
    }
    assert DistinctVersions(rows');
    if DistinctContents(rows') {
      forall i | In(rows, GroupOf(c), i)
        ensures rows[i].content != c.content
      {
        assert i in rows' && id in rows' && rows'[i] == rows[i];
      }
    }
    if forall i :: In(rows, GroupOf(c), i) ==> rows[i].content != c.content {
      forall i | i in rows && GroupOf(rows[i]) == GroupOf(c)
        ensures rows[i].content != c.content
      {
        assert In(rows, GroupOf(c), i);
      }
      assert DistinctContents(rows');
    }
    SameActives(rows, rows', cache);
  }

  /** The cache only depends on which configurations are active and on their contents. */
  lemma {:induction false} SameActives(rows: Rows, rows': Rows, cache: Cache)
    requires CacheOk(rows, cache)
    requires forall g, i :: IsActive(rows', g, i) <==> IsActive(rows, g, i)
    requires forall g, i :: IsActive(rows, g, i) ==> i in rows' && rows'[i].content == rows[i].content
    ensures CacheOk(rows', cache)
  {
    forall k | k in cache
      ensures Agrees(rows', Group(k.0, Global, k.1), cache[k])
    {
      assert Agrees(rows, Group(k.0, Global, k.1), cache[k]);
    }
  }

  // ---------- saving, deactivating ----------

  lemma {:induction false} SavedOk(rows: Rows, cache: Cache, id: nat)
    requires id in rows && GroupsOk(rows) && CacheOk(rows, cache)
    ensures CacheOk(rows, Saved(cache, rows[id]))
  {
    var c := rows[id];
    var cache' := Saved(cache, c);
    forall k | k in cache'
      ensures Agrees(rows, Group(k.0, Global, k.1), cache'[k])
    {
      if c.kind == Global && c.isActive && k == CacheKey(c) {
        assert IsActive(rows, GroupOf(c), id);
      }
    }
  }

  /** Deactivating keeps the rows' invariant.  No signal refreshes the cache, which was just set to the
      content: for a global configuration it agrees afterwards exactly when that content is empty. */
  lemma {:induction false} DeactivatedOk(rows: Rows, cache: Cache, id: nat)
    requires id in rows && rows[id].isActive && GroupsOk(rows) && CacheOk(rows, cache)
    ensures var rows' := rows[id := rows[id].(isActive := false)];
            && GroupsOk(rows')
            && (CacheOk(rows', Saved(cache, rows[id])) <==> rows[id].kind != Global || rows[id].content == map[])
  {
    var c := rows[id];
    var rows' := rows[id := c.(isActive := false)];
    var cache' := Saved(cache, c);
    assert OneActive(rows') && DistinctVersions(rows') && DistinctContents(rows');
    SavedOk(rows, cache, id);
    forall g, i
      ensures IsActive(rows', g, i) <==> IsActive(rows, g, i) && i != id
      ensures IsActive(rows', g, i) ==> rows'[i] == rows[i]
      ensures IsActive(rows, g, i) && g == GroupOf(c) ==> i == id
    {}
    if c.kind == Global {
      assert CacheKey(c) in cache' && cache'[CacheKey(c)] == c.content;
      assert forall i :: !IsActive(rows', GroupOf(c), i);
    }
    if c.kind != Global || c.content == map[] {
      forall k | k in cache'
        ensures Agrees(rows', Group(k.0, Global, k.1), cache'[k])
      {
        var g := Group(k.0, Global, k.1);
        assert Agrees(rows, g, cache'[k]);
        if g == GroupOf(c) {
          assert IsActive(rows, g, id);
        } else if forall i :: !IsActive(rows', g, i) {
          assert forall i :: IsActive(rows, g, i) ==> IsActive(rows', g, i);
        }
      }
    }
  }

  // ---------- renaming ----------

  function Renamed(rows: Rows, g: Group, name: string): Rows {
    map i | i in rows :: if GroupOf(rows[i]) == g then rows[i].(name := name) else rows[i]
  }

  /** Renaming a group to a name nobody uses keeps the rows' invariant. */
  lemma {:induction false} RenamedGroupsOk(rows: Rows, g: Group, name: string)
    requires GroupsOk(rows) && forall i :: !In(rows, g.(name := name), i)
    ensures GroupsOk(Renamed(rows, g, name))
  {
    var rows' := Renamed(rows, g, name);
    forall i, j | i in rows' && j in rows' && GroupOf(rows'[i]) == GroupOf(rows'[j])
      ensures GroupOf(rows[i]) == GroupOf(rows[j])
    {
      assert !In(rows, g.(name := name), i) && !In(rows, g.(name := name), j);
    }
  }

  /** The active configurations after renaming. */
  lemma {:induction false} RenamedActives(rows: Rows, g: Group, name: string, h: Group, i: nat)
    requires name != g.name && !In(rows, g.(name := name), i)
    ensures var rows' := Renamed(rows, g, name);
            && (IsActive(rows', h, i) <==> if h == g then false
                                            else if h == g.(name := name) then IsActive(rows, g, i)
                                            else IsActive(rows, h, i))
            && (i in rows ==> rows'[i].content == rows[i].content)
  {}

  /** Renaming sends no signal.  The cache agrees afterwards exactly when the old name's entry is absent or
      empty, and the new name's is absent unless nothing, or an empty content, is active. */
  lemma {:induction false} RenamedCacheOk(rows: Rows, cache: Cache, g: Group, name: string)
    requires GroupsOk(rows) && CacheOk(rows, cache) && name != g.name && g.kind == Global
    requires forall i :: !In(rows, g.(name := name), i)
    ensures CacheOk(Renamed(rows, g, name), cache) <==>
              && ((g.project, g.name) in cache ==> cache[(g.project, g.name)] == map[])
              && ((g.project, name) in cache ==> forall i :: IsActive(rows, g, i) ==> rows[i].content == map[])
  {
    var rows' := Renamed(rows, g, name);
    var g' := g.(name := name);
    forall h, i
      ensures IsActive(rows', h, i) <==>
                if h == g then false else if h == g' then IsActive(rows, g, i) else IsActive(rows, h, i)
      ensures i in rows ==> rows'[i].content == rows[i].content
    {
      RenamedActives(rows, g, name, h, i);
    }
    var oldKey, newKey := (g.project, g.name), (g.project, name);
    if newKey in cache {
      assert Agrees(rows, g', cache[newKey]);
      assert forall i :: !IsActive(rows, g', i);
    }
    if CacheOk(rows', cache) {
      if oldKey in cache {
        assert Agrees(rows', g, cache[oldKey]);
      }
      if newKey in cache {
        assert Agrees(rows', g', cache[newKey]);
        forall i | IsActive(rows, g, i)
          ensures rows[i].content == map[]
        {
          assert IsActive(rows', g', i);
        }
      }
    }
    if && (oldKey in cache ==> cache[oldKey] == map[])
       && (newKey in cache ==> forall i :: IsActive(rows, g, i) ==> rows[i].content == map[]) {
      forall k | k in cache
        ensures Agrees(rows', Group(k.0, Global, k.1), cache[k])
      {
        assert Agrees(rows, Group(k.0, Global, k.1), cache[k]);
      }
    }
  }

  // ---------- deleting ----------

  /** Deleting a row keeps the rows' invariant, and the cache agrees once the entry of a deleted active
      global configuration is dropped. */
  lemma {:induction false} RemovedOk(rows: Rows, cache: Cache, id: nat)
    requires id in rows && GroupsOk(rows) && CacheOk(rows, cache)
    ensures var c := rows[id];
            && GroupsOk(rows - {id})
            && CacheOk(rows - {id}, if c.kind == Global && c.isActive then cache - {CacheKey(c)} else cache)
    ensures rows[id].isActive ==> forall i :: !IsActive(rows - {id}, GroupOf(rows[id]), i)
  {
    var c, rows' := rows[id], rows - {id};
    var cache' := if c.kind == Global && c.isActive then cache - {CacheKey(c)} else cache;
    forall g, i
      ensures IsActive(rows', g, i) <==> IsActive(rows, g, i) && i != id
      ensures IsActive(rows', g, i) ==> rows'[i] == rows[i]
    {}
    forall k | k in cache'
      ensures Agrees(rows', Group(k.0, Global, k.1), cache'[k])
    {
      var g := Group(k.0, Global, k.1);
      assert Agrees(rows, g, cache[k]);
      assert !IsActive(rows, g, id);
      if forall i :: !IsActive(rows', g, i) {
        assert forall i :: IsActive(rows, g, i) ==> IsActive(rows', g, i);
      }
    }
  }
}
