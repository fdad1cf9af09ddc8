/** The configuration store as an object: rows, the signal handlers, and the cache of global
    configurations. */
module ConfigStore {
  import opened Wrappers
  import opened Configs

  datatype Error = NameTaken | UnsupportedName | Integrity

  /** What a reader should see: the active configuration's content, or nothing. */
  ghost function ActiveContent(rows: Rows, g: Group): Content {
    if i :| IsActive(rows, g, i) then rows[i].content else map[]
  }

  lemma {:induction false} AgreesIsActiveContent(rows: Rows, g: Group, content: Content)
    requires OneActive(rows)
    ensures Agrees(rows, g, content) <==> content == ActiveContent(rows, g)
  {
    if i :| IsActive(rows, g, i) {
      forall j | IsActive(rows, g, j)
        ensures j == i
      {}
    }
  }

  class Store {
    var rows: Rows
    var nextId: nat
    var cache: Cache

    ghost predicate Valid()
      reads this
    {
      GroupsOk(rows) && NamesOk(rows) && forall i :: i in rows ==> i < nextId
    }

    constructor ()
      ensures Valid() && CacheOk(rows, cache) && rows == map[]
    {
      rows, nextId, cache := map[], 0, map[];
    }

    // ---------- queries ----------

    /** The configuration of the group with the highest version. */
    method GetLatest(g: Group) returns (latest: Option<nat>)
      ensures latest.None? ==> forall i :: !In(rows, g, i)
      ensures latest.Some? ==>
                && In(rows, g, latest.value)
                && forall i :: In(rows, g, i) ==> rows[i].version <= rows[latest.value].version
    {
      latest := None;
      var todo := rows.Keys;
      while todo != {}
        invariant todo <= rows.Keys
        invariant latest.Some? ==> In(rows, g, latest.value)
        invariant forall i :: In(rows, g, i) && i !in todo ==>
                    latest.Some? && rows[i].version <= rows[latest.value].version
        decreases todo
      {
        var i :| i in todo;
        if GroupOf(rows[i]) == g && (latest.None? || rows[latest.value].version < rows[i].version) {
          latest := Some(i);
        }
        todo := todo - {i};
      }
    }

    method GetActiveOrNone(g: Group) returns (active: Option<nat>)
      ensures active.None? ==> forall i :: !IsActive(rows, g, i)
      ensures active.Some? ==> IsActive(rows, g, active.value)
    {
      var todo := rows.Keys;
      while todo != {}
        invariant todo <= rows.Keys
        invariant forall i :: IsActive(rows, g, i) ==> i in todo
        decreases todo
      {
        var i :| i in todo;
        if GroupOf(rows[i]) == g && rows[i].isActive {
          return Some(i);
        }
        todo := todo - {i};
      }
      active := None;
    }

    method FindContent(g: Group, content: Content) returns (found: Option<nat>)
      ensures found.None? ==> forall i :: In(rows, g, i) ==> rows[i].content != content
      ensures found.Some? ==> In(rows, g, found.value) && rows[found.value].content == content
    {
      var todo := rows.Keys;
      while todo != {}
        invariant todo <= rows.Keys
        invariant forall i :: In(rows, g, i) && rows[i].content == content ==> i in todo
        decreases todo
      {
        var i :| i in todo;
        if GroupOf(rows[i]) == g && rows[i].content == content {
          return Some(i);
        }
        todo := todo - {i};
      }
      found := None;
    }

    method CalcVersion(g: Group) returns (version: nat)
      ensures NewestVersion(rows, g, version)
    {
      var latest := GetLatest(g);
      version := if latest.Some? then rows[latest.value].version + 1 else 0;
    }

    // ---------- signals ----------

    method UpdateConfigCache(c: Config)
      modifies this`cache
      ensures cache == Saved(old(cache), c)
    {
      if c.kind == Global && c.isActive {
        cache := cache[CacheKey(c) := c.content];
      }
    }

    method DeleteConfigCache(c: Config)
      modifies this`cache
      ensures cache == if c.kind == Global && c.isActive then old(cache) - {CacheKey(c)} else old(cache)
    {
      if c.kind == Global && c.isActive {
        cache := cache - {CacheKey(c)};
      }
    }

    method ActivateLatestAfterDelete(c: Config)
      requires Valid()
      modifies this`rows, this`cache
      ensures Valid() && (CacheOk(old(rows), old(cache)) ==> CacheOk(rows, cache)) && rows.Keys == old(rows).Keys
      ensures if c.isActive then HighestActive(old(rows), GroupOf(c), rows) else rows == old(rows)
    {
      if c.isActive {
        var latest := GetLatest(GroupOf(c));
        if latest.Some? {
          assert Highest(rows, GroupOf(c), latest.value);
          HighestIsUnique(rows, GroupOf(c), latest.value);
          ActivateChecked(latest.value);
        }
      }
    }

    // ---------- changes ----------

    /** Make a configuration the only active one of its group.  Only the activated one, if it was not active
        already, sends a signal. */
    method Activate(id: nat)
      requires id in rows
      modifies this`rows, this`cache
      ensures rows == Activated(old(rows), id) && rows.Keys == old(rows).Keys
      ensures forall i :: i in rows ==>
                rows[i] == old(rows)[i].(isActive := if GroupOf(old(rows)[i]) == GroupOf(old(rows)[id]) then i == id
                                                     else old(rows)[i].isActive)
      ensures cache == if old(rows)[id].isActive then old(cache) else Saved(old(cache), rows[id])
    {
      var c := rows[id];
      ghost var rows0 := rows;
      rows := map i | i in rows ::
        if i != id && GroupOf(rows[i]) == GroupOf(c) && rows[i].isActive then rows[i].(isActive := false) else rows[i];
      if !c.isActive {
        rows := rows[id := c.(isActive := true)];
        UpdateConfigCache(rows[id]);
      }
      assert rows == Activated(rows0, id);
    }

    method ActivateChecked(id: nat)
      requires Valid() && id in rows
      modifies this`rows, this`cache
      ensures Valid() && rows == Activated(old(rows), id)
      ensures CacheOk(old(rows), old(cache)) ==> CacheOk(rows, cache)
    {
      EmptyCacheOk(rows);
      ActivatedOk(rows, map[], id);
      if CacheOk(rows, cache) {
        ActivatedOk(rows, cache, id);
      }
      hide GroupsOk, CacheOk;
      Activate(id);
    }

    /** Store an inactive configuration with the next version. */
    method AddVersion(g: Group, content: Content) returns (id: nat)
      requires Valid() && (g.kind == Global ==> GlobalName(g.name))
      modifies this`rows, this`nextId
      ensures id !in old(rows) && id in rows && rows == old(rows)[id := rows[id]]
      ensures GroupOf(rows[id]) == g && !rows[id].isActive && rows[id].content == content
      ensures NewestVersion(old(rows), g, rows[id].version)
      ensures Valid() <==> forall i :: In(old(rows), g, i) ==> old(rows)[i].content != content
      ensures CacheOk(old(rows), cache) ==> CacheOk(rows, cache)
    {
      var version := CalcVersion(g);
      var c := Config(g.kind, g.name, g.project, version, false, content);
      EmptyCacheOk(rows);
      AddedOk(rows, map[], nextId, c);
      if CacheOk(rows, cache) {
        AddedOk(rows, cache, nextId, c);
      }
      hide GroupsOk, CacheOk, NewestVersion;
      id := nextId;
      rows, nextId := rows[id := c], nextId + 1;
    }

    /** Store a new version, active or not.  The database refuses a content that the group has already,
        except among default configurations, whose project is null: there it breaks the rows' invariant. */
    method Create(g: Group, content: Content, isActive: bool) returns (r: Result<nat, Error>)
      requires Valid() && (g.kind == Global ==> GlobalName(g.name))
      modifies this
      ensures r.Failure? <==> g.project.Some? && exists i :: In(old(rows), g, i) && old(rows)[i].content == content
      ensures r.Failure? ==> rows == old(rows) && cache == old(cache) && Valid()
      ensures r.Success? ==> Added(old(rows), rows, g, content, isActive, r.value)
      ensures r.Success? ==> (Valid() <==> forall i :: In(old(rows), g, i) ==> old(rows)[i].content != content)
      ensures !isActive ==> cache == old(cache)
      ensures Valid() && CacheOk(old(rows), old(cache)) ==> CacheOk(rows, cache)
    {
      var found := FindContent(g, content);
      if g.project.Some? && found.Some? {
        return Failure(Integrity);
      }
      hide GroupsOk, CacheOk, NamesOk, NewestVersion;
      var id := AddVersion(g, content);
      ghost var added := rows[id];
      if isActive {
        if found.None? {
          ActivateChecked(id);
        } else {
          Activate(id);
        }
      }
      assert rows[id].(isActive := false) == added;
      if found.Some? {
        SameContentTwice(rows, g, found.value, id);
      }
      r := Success(id);
    }

    /** Create a default configuration unless one is active.  This looks for an active one only, so the
        rows' invariant breaks exactly when an inactive one has the content. */
    method InitializeDefault(name: string, content: Content)
      requires Valid() && GlobalName(name)
      modifies this
      ensures var g, before := Group(None, Global, name), old(rows);
              && (Valid() <==> ((exists i :: IsActive(before, g, i))
                                || forall i :: In(before, g, i) ==> before[i].content != content))
              && (if exists i :: IsActive(before, g, i) then rows == before && cache == old(cache)
                  else exists id :: Added(before, rows, g, content, true, id))
    {
      var g := Group(None, Global, name);
      var active := GetActiveOrNone(g);
      if active.None? {
        hide GroupsOk, CacheOk, NamesOk, Added;
        var r := Create(g, content, true);
        assert Added(old(rows), rows, g, content, true, r.value);
      }
    }

    /** The version with this content: an existing one, or a new one. */
    method GetOrCreate(g: Group, content: Content, isActive: bool) returns (id: nat, created: bool)
      requires Valid() && (g.kind == Global ==> GlobalName(g.name))
      modifies this
      ensures Valid() && (CacheOk(old(rows), old(cache)) ==> CacheOk(rows, cache))
      ensures created <==> forall i :: In(old(rows), g, i) ==> old(rows)[i].content != content
      ensures if created then Added(old(rows), rows, g, content, isActive, id)
              else rows == old(rows) && cache == old(cache) && In(rows, g, id) && rows[id].content == content
    {
      var found := FindContent(g, content);
      if found.Some? {
        return found.value, false;
      }
      hide GroupsOk, CacheOk, NamesOk, Added;
      var r := Create(g, content, isActive);
      assert r.Success?;
      id, created := r.value, true;
    }

    /** Create the first version of a group; the name must not be taken, and a global one must be known. */
    method Post(g: Group, content: Content, isActive: bool) returns (r: Result<nat, Error>)
      requires Valid()
      modifies this
      ensures Valid() && (CacheOk(old(rows), old(cache)) ==> CacheOk(rows, cache))
      ensures r.Success? <==> (g.kind == Global ==> GlobalName(g.name)) && forall i :: !In(old(rows), g, i)
      ensures r.Failure? ==> rows == old(rows) && cache == old(cache)
      ensures r.Success? ==> Added(old(rows), rows, g, content, isActive, r.value)
    {
      if g.kind == Global && !GlobalName(g.name) {
        return Failure(UnsupportedName);
      }
      var taken := GetLatest(g);
      if taken.Some? {
        return Failure(NameTaken);
      }
      hide GroupsOk, CacheOk, NamesOk, Added;
      var id, created := GetOrCreate(g, content, isActive);
      r := Success(id);
    }

    /** Save a configuration, then activate or deactivate it as asked. */
    method Update(id: nat, isActive: bool)
      requires Valid() && id in rows
      modifies this`rows, this`cache
      ensures Valid() && rows.Keys == old(rows).Keys
      ensures rows == if isActive then Activated(old(rows), id) else old(rows)[id := old(rows)[id].(isActive := false)]
      ensures CacheOk(old(rows), old(cache)) ==>
                (CacheOk(rows, cache) <==>
                   isActive || !old(rows)[id].isActive || old(rows)[id].kind != Global
                   || old(rows)[id].content == map[])
    {
      hide GroupsOk, CacheOk;
      EmptyCacheOk(rows);
      ActivatedOk(rows, map[], id);
      if rows[id].isActive {
        DeactivatedOk(rows, map[], id);
      }
      if CacheOk(rows, cache) {
        SavedOk(rows, cache, id);
        if rows[id].isActive {
          DeactivatedOk(rows, cache, id);
        }
      }
      UpdateConfigCache(rows[id]);
      if isActive && !rows[id].isActive {
        ActivateChecked(id);
      } else if !isActive && rows[id].isActive {
        rows := rows[id := rows[id].(isActive := false)];
      }
    }

    /** Edit the content: activate or deactivate the version that has it, adding one if there is none. */
    method Edit(id: nat, content: Content, isActive: bool) returns (edited: nat)
      requires Valid() && id in rows
      modifies this
      ensures Valid()
      ensures var g, before := GroupOf(old(rows)[id]), old(rows);
              if forall i :: In(before, g, i) ==> before[i].content != content then
                Added(before, rows, g, content, isActive, edited)
              else
                && In(before, g, edited) && before[edited].content == content
                && rows == if isActive then Activated(before, edited)
                           else before[edited := before[edited].(isActive := false)]
      ensures CacheOk(old(rows), old(cache)) ==>
                (CacheOk(rows, cache) <==>
                   isActive || edited !in old(rows) || !old(rows)[edited].isActive || old(rows)[edited].kind != Global
                   || content == map[])
    {
      var g := GroupOf(rows[id]);
      hide GroupsOk, CacheOk, Added;
      var created;
      edited, created := GetOrCreate(g, content, isActive);
      if !created {
        Update(edited, isActive);
      }
    }

    /** Rename all versions of a configuration. */
    method Rename(id: nat, name: string) returns (error: Option<Error>)
      requires Valid() && id in rows
      modifies this`rows
      ensures Valid()
      ensures var g := GroupOf(old(rows)[id]);
              && (error.None? <==> (g.kind == Global ==> GlobalName(name))
                                   && forall i :: !In(old(rows), g.(name := name), i))
              && (error.Some? ==> rows == old(rows))
              && (error.None? ==>
                    && rows == Renamed(old(rows), g, name) && rows.Keys == old(rows).Keys
                    && forall i :: i in rows ==>
                         rows[i] == if In(old(rows), g, i) then old(rows)[i].(name := name) else old(rows)[i])
    {
      var g := GroupOf(rows[id]);
      if g.kind == Global && !GlobalName(name) {
        return Some(UnsupportedName);
      }
      var taken := GetLatest(g.(name := name));
      if taken.Some? {
        return Some(NameTaken);
      }
      RenamedGroupsOk(rows, g, name);
      hide GroupsOk;
      rows := Renamed(rows, g, name);
      error := None;
    }

    /** Delete a configuration.  Of a group whose active one is deleted, the highest version becomes active. */
    method Delete(id: nat)
      requires Valid() && id in rows
      modifies this`rows, this`cache
      ensures Valid() && (CacheOk(old(rows), old(cache)) ==> CacheOk(rows, cache))
      ensures rows.Keys == old(rows).Keys - {id}
      ensures !old(rows)[id].isActive ==> rows == old(rows) - {id}
      ensures old(rows)[id].isActive ==> HighestActive(old(rows) - {id}, GroupOf(old(rows)[id]), rows)
    {
      var c := rows[id];
      EmptyCacheOk(rows);
      RemovedOk(rows, map[], id);
      ghost var ok := CacheOk(rows, cache);
      if ok {
        RemovedOk(rows, cache, id);
      }
      hide GroupsOk, CacheOk;
      rows := rows - {id};
      DeleteConfigCache(c);
      ActivateLatestAfterDelete(c);
    }

    // ---------- reading ----------

    /** The cached content of the active global configuration; a miss fills the cache. */
    method GetGlobalContentFromCache(name: string, project: Option<nat>) returns (content: Content)
      requires Valid() && CacheOk(rows, cache) && GlobalName(name)
      modifies this`cache
      ensures CacheOk(rows, cache) && cache == old(cache)[(project, name) := content]
      ensures content == ActiveContent(rows, Group(project, Global, name))
    {
      var g := Group(project, Global, name);
      var key := (project, name);
      if key !in cache {
        var active := GetActiveOrNone(g);
        var loaded := if active.Some? then rows[active.value].content else map[];
        assert Agrees(rows, g, loaded);
        cache := cache[key := loaded];
      }
      content := cache[key];
      AgreesIsActiveContent(rows, g, content);
    }

    /** An attribute of a global configuration: the project's, else the default one's, else the given or the
        schema's default.  The cache does not show. */
    method GetattrFromGlobal(name: string, key: string, project: Option<nat>, default: string) returns (value: string)
      requires Valid() && CacheOk(rows, cache) && GlobalName(name)
      modifies this`cache
      ensures CacheOk(rows, cache)
      ensures var own := ActiveContent(rows, Group(project, Global, name));
              var common := ActiveContent(rows, Group(None, Global, name));
              value == if key in own then own[key] else if key in common then common[key] else default
    {
      hide CacheOk, GroupsOk, ActiveContent;
      var own := GetGlobalContentFromCache(name, project);
      if key in own {
        return own[key];
      }
      var common := GetGlobalContentFromCache(name, None);
      value := if key in common then common[key] else default;
    }
  }

  lemma {:induction false} SameContentTwice(rows: Rows, g: Group, i: nat, j: nat)
    requires In(rows, g, i) && In(rows, g, j) && i != j && rows[i].content == rows[j].content
    ensures !GroupsOk(rows)
  {}

  /** Initialize the default configurations, deactivate one, and initialize them again: the group then holds
      the same content twice. */
  method DuplicateDefault(name: string, content: Content) returns (store: Store)
    requires GlobalName(name)
    ensures fresh(store) && !store.Valid()
    ensures var g := Group(None, Global, name);
            exists i, j ::
              && i != j && In(store.rows, g, i) && In(store.rows, g, j)
              && store.rows[i].content == content && store.rows[j].content == content
  {
    hide GroupsOk, CacheOk, NewestVersion;
    store := new Store();
    store.InitializeDefault(name, content);
    var g := Group(None, Global, name);
    ghost var first :| Added(map[], store.rows, g, content, true, first);
    assert In(store.rows, g, first) && forall i :: In(store.rows, g, i) ==> i == first;
    var id := store.GetLatest(g);
    store.Update(id.value, false);
    ghost var before := store.rows;
    assert In(before, g, first) && before[first].content == content;
    assert forall i :: !IsActive(before, g, i);
    store.InitializeDefault(name, content);
    ghost var second :| Added(before, store.rows, g, content, true, second);
    assert In(store.rows, g, first) && In(store.rows, g, second) && first != second;
  }

  /** Create an active global configuration and deactivate it: readers still see its content. */
  method StaleAfterDeactivation(g: Group, content: Content) returns (store: Store)
    requires g.kind == Global && GlobalName(g.name) && content != map[]
    ensures fresh(store) && store.Valid() && forall i :: !IsActive(store.rows, g, i)
    ensures !CacheOk(store.rows, store.cache)
  {
    store := new Store();
    var r := store.Post(g, content, true);
    assert GroupOf(store.rows[r.value]) == g;
    store.Update(r.value, false);
  }

  /** Create an active global configuration and rename it: readers of the old name still see its content. */
  method StaleAfterRename(g: Group, content: Content, name: string) returns (store: Store)
    requires g.kind == Global && GlobalName(g.name) && GlobalName(name) && name != g.name && content != map[]
    ensures fresh(store) && store.Valid() && forall i :: !In(store.rows, g, i)
    ensures !CacheOk(store.rows, store.cache)
  {
    hide GroupsOk, NamesOk, CacheOk;
    store := new Store();
    var r := store.Post(g, content, true);
    var read := store.GetGlobalContentFromCache(g.name, g.project);
    ghost var before := store.rows;
    assert IsActive(before, g, r.value) && read == content;
    var error := store.Rename(r.value, name);
    RenamedCacheOk(before, store.cache, g, name);
  }

  /** `after` is `before` with a new row for this group and content, one version on from the highest, and
      active alone if it is to be. */
  ghost predicate Added(before: Rows, after: Rows, g: Group, content: Content, isActive: bool, id: nat) {
    && id !in before && id in after
    && var c := after[id].(isActive := false);
       && GroupOf(c) == g && c.content == content && NewestVersion(before, g, c.version)
       && after == if isActive then Activated(before[id := c], id) else before[id := c]
  }

  /** `rows` is `remaining` with the highest version of the group active, if the group has any. */
  ghost predicate HighestActive(remaining: Rows, g: Group, rows: Rows) {
    if top :| Highest(remaining, g, top) then rows == Activated(remaining, top) else rows == remaining
  }

  lemma {:induction false} HighestIsUnique(rows: Rows, g: Group, top: nat)
    requires DistinctVersions(rows) && Highest(rows, g, top)
    ensures forall t :: Highest(rows, g, t) ==> t == top
  {
    forall t | Highest(rows, g, t)
      ensures t == top
    {
      assert rows[t].version == rows[top].version;
    }
  }

  ghost predicate Highest(rows: Rows, g: Group, top: nat) {
    In(rows, g, top) && forall j :: In(rows, g, j) ==> rows[j].version <= rows[top].version
  }

  lemma {:induction false} EmptyCacheOk(rows: Rows)
    ensures CacheOk(rows, map[])
  {}
}
