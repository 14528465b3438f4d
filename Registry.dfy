/**
 * The spawner registry of `manager/SpawnerManager.kt`: every spawner is
 * filed under its normalised block location, and an owner index lists the
 * keys each player has placed. The index is only ever added to on creation
 * and pruned on removal, so readers of it look each key up again in the
 * main map.
 */
module Registry {
  import opened Common
  import opened Locations
  import opened LinkedMaps
  import opened Spawners
  import opened Upgrades
  import opened Configs

  /** `computeIfAbsent(owner) { mutableSetOf() }.add(key)`. */
  function Indexed(idx: map<PlayerId, set<Location>>, owner: PlayerId, key: Location): (r: map<PlayerId, set<Location>>)
    ensures owner in r && key in r[owner]
    ensures owner in idx ==> r[owner] == idx[owner] + {key}
    ensures forall o :: o != owner ==> (o in r <==> o in idx) && (o in idx ==> r[o] == idx[o])
  {
    idx[owner := (if owner in idx then idx[owner] else {}) + {key}]
  }

  /** `playerSpawners[owner]?.remove(key)`: nothing happens for an owner without an entry. */
  function Unindexed(idx: map<PlayerId, set<Location>>, owner: PlayerId, key: Location): (r: map<PlayerId, set<Location>>)
    ensures r.Keys == idx.Keys
    ensures owner in idx ==> r[owner] == idx[owner] - {key}
    ensures forall o :: o in idx && o != owner ==> r[o] == idx[o]
  {
    if owner in idx then idx[owner := idx[owner] - {key}] else idx
  }

  /**
   * The state `applyDefaultValues` leaves behind. Without a type config it
   * returns early. Otherwise it writes the storage switch and the five
   * parameters, and then `applyUpgrades` resets those five to their base
   * values and replays the levels.
   */
  function DefaultedState(st: SpawnerState, u: UpgradeSettings, t: SpawnerType): SpawnerState {
    match TypeConfigOf(u, t)
    case None => st
    case Some(c) => WithParams(st.(storageEnabled := c.storageEnabled.GetOr(true)), ResolveFor(u, t, st.levels))
  }

  /**
   * A new spawner starts from its base parameters, whether or not its type
   * has a config: the constructor defaults are the same built-in values
   * `applyUpgrades` falls back to.
   */
  lemma NewSpawnerHasBaseParams(entityType: EntityType, now: int, u: UpgradeSettings, t: SpawnerType)
    ensures ParamsOf(DefaultedState(CreatedState(entityType, now), u, t)) == BaseParams(TypeConfigOf(u, t))
    ensures DefaultedState(CreatedState(entityType, now), u, t).levels == []
    ensures DefaultedState(CreatedState(entityType, now), u, t).stored == 0
  {
  }

  // ---------------------------------------------------------------------
  // Loading a list of spawners, as `initialize()` and the retry pass do

  /**
   * The main map after `spawners[key(s)] = s` for each spawner `s` of
   * `loaded` in turn.
   */
  function FiledAll<T>(m: map<Location, T>, loaded: seq<T>, key: T -> Location): map<Location, T>
    decreases |loaded|
  {
    if loaded == [] then m
    else
      var last := loaded[|loaded| - 1];
      FiledAll(m, loaded[..|loaded| - 1], key)[key(last) := last]
  }

  /** Whether no spawner after position `j` of `loaded` is filed under `k`. */
  predicate LastAt<T>(loaded: seq<T>, j: int, k: Location, key: T -> Location)
    requires -1 <= j <= |loaded|
  {
    forall j' :: j < j' < |loaded| ==> key(loaded[j']) != k
  }

  /** Filing one more spawner is one more map update. */
  lemma FiledAllSnoc<T>(m: map<Location, T>, loaded: seq<T>, s: T, key: T -> Location)
    ensures FiledAll(m, loaded + [s], key) == FiledAll(m, loaded, key)[key(s) := s]
  {
    assert (loaded + [s])[..|loaded|] == loaded;
  }

  /** The keys of the loaded map are the old ones and the keys of the loaded spawners. */
  lemma {:induction false} FiledAllKeys<T>(m: map<Location, T>, loaded: seq<T>, key: T -> Location)
    ensures forall k :: k in FiledAll(m, loaded, key) <==> k in m || exists j :: 0 <= j < |loaded| && key(loaded[j]) == k
    decreases |loaded|
  {
    if loaded != [] {
      var n := |loaded|;
      var p := loaded[..n - 1];
      FiledAllKeys(m, p, key);
      forall k
        ensures k in FiledAll(m, loaded, key) <==> k in m || exists j :: 0 <= j < n && key(loaded[j]) == k
      {
        if k in FiledAll(m, p, key) && k !in m {
          var j :| 0 <= j < n - 1 && key(p[j]) == k;
          assert key(loaded[j]) == k;
        }
        if exists j :: 0 <= j < n && key(loaded[j]) == k {
          var j :| 0 <= j < n && key(loaded[j]) == k;
          if j < n - 1 {
            assert key(p[j]) == k;
          }
        }
      }
    }
  }

  /** A key no spawner was loaded under keeps its old spawner. */
  lemma {:induction false} FiledAllKeeps<T>(m: map<Location, T>, loaded: seq<T>, k: Location, key: T -> Location)
    requires k in m && LastAt(loaded, -1, k, key)
    ensures k in FiledAll(m, loaded, key) && FiledAll(m, loaded, key)[k] == m[k]
    decreases |loaded|
  {
    if loaded != [] {
      var n := |loaded|;
      var p := loaded[..n - 1];
      assert key(loaded[n - 1]) != k;
      assert LastAt(p, -1, k, key) by {
        forall j' | -1 < j' < |p| ensures key(p[j']) != k {
          assert p[j'] == loaded[j'];
        }
      }
      FiledAllKeeps(m, p, k, key);
    }
  }

  /** A loaded key holds the last spawner loaded under it. */
  lemma {:induction false} FiledAllLast<T>(m: map<Location, T>, loaded: seq<T>, j: int, key: T -> Location)
    requires 0 <= j < |loaded| && LastAt(loaded, j, key(loaded[j]), key)
    ensures key(loaded[j]) in FiledAll(m, loaded, key)
    ensures FiledAll(m, loaded, key)[key(loaded[j])] == loaded[j]
    decreases |loaded|
  {
    var n := |loaded|;
    if j < n - 1 {
      var p := loaded[..n - 1];
      var k := key(loaded[j]);
      assert key(loaded[n - 1]) != k;
      assert p[j] == loaded[j];
      assert LastAt(p, j, key(p[j]), key) by {
        forall j' | j < j' < |p| ensures key(p[j']) != k {
          assert p[j'] == loaded[j'];
        }
      }
      FiledAllLast(m, p, j, key);
    }
  }

  /** The owner index after `computeIfAbsent(owner(s)).add(key(s))` for each loaded spawner `s`. */
  function IndexedAll<T>(idx: map<PlayerId, set<Location>>, loaded: seq<T>, key: T -> Location, owner: T -> PlayerId)
    : map<PlayerId, set<Location>>
    decreases |loaded|
  {
    if loaded == [] then idx
    else
      var last := loaded[|loaded| - 1];
      Indexed(IndexedAll(idx, loaded[..|loaded| - 1], key, owner), owner(last), key(last))
  }

  /** Indexing one more spawner is one more `Indexed`. */
  lemma IndexedAllSnoc<T>(idx: map<PlayerId, set<Location>>, loaded: seq<T>, s: T, key: T -> Location, owner: T -> PlayerId)
    ensures IndexedAll(idx, loaded + [s], key, owner) == Indexed(IndexedAll(idx, loaded, key, owner), owner(s), key(s))
  {
    assert (loaded + [s])[..|loaded|] == loaded;
  }

  /**
   * The loaded owner index holds exactly the old entries and, for each
   * loaded spawner, its key under its owner.
   */
  lemma {:induction false} IndexedAllSpec<T>(idx: map<PlayerId, set<Location>>, loaded: seq<T>, key: T -> Location, owner: T -> PlayerId)
    ensures forall o :: o in idx ==> o in IndexedAll(idx, loaded, key, owner) && idx[o] <= IndexedAll(idx, loaded, key, owner)[o]
    ensures forall j :: 0 <= j < |loaded| ==>
              owner(loaded[j]) in IndexedAll(idx, loaded, key, owner) && key(loaded[j]) in IndexedAll(idx, loaded, key, owner)[owner(loaded[j])]
    ensures forall o, k :: o in IndexedAll(idx, loaded, key, owner) && k in IndexedAll(idx, loaded, key, owner)[o] ==>
              (o in idx && k in idx[o]) || exists j :: 0 <= j < |loaded| && owner(loaded[j]) == o && key(loaded[j]) == k
    decreases |loaded|
  {
    if loaded != [] {
      var n := |loaded|;
      var p := loaded[..n - 1];
      var last := loaded[n - 1];
      IndexedAllSpec(idx, p, key, owner);
      assert forall j :: 0 <= j < n - 1 ==> p[j] == loaded[j];
      var r := IndexedAll(idx, loaded, key, owner);
      assert r == Indexed(IndexedAll(idx, p, key, owner), owner(last), key(last));
      forall o, k | o in r && k in r[o]
        ensures (o in idx && k in idx[o]) || exists j :: 0 <= j < n && owner(loaded[j]) == o && key(loaded[j]) == k
      {
        if !(o == owner(last) && k == key(last)) {
          assert o in IndexedAll(idx, p, key, owner) && k in IndexedAll(idx, p, key, owner)[o];
          if !(o in idx && k in idx[o]) {
            var j :| 0 <= j < n - 1 && owner(p[j]) == o && key(p[j]) == k;
            assert owner(loaded[j]) == o && key(loaded[j]) == k;
          }
        }
      }
    }
  }

  /** The key a spawner is filed under, and the owner it is indexed for. */
  function KeyOf(s: Spawner): Location { Normalize(s.location) }

  function OwnerOf(s: Spawner): PlayerId { s.owner }

  /**
   * The spawners `loadSpawnerById` returns for `ids`, in the order of `ids`:
   * one for each id the loader holds, and none for the others.
   */
  function Loadable(ids: seq<int>, loader: map<int, Spawner>): (r: seq<Spawner>)
    ensures |r| <= |ids|
  {
    if ids == [] then []
    else
      var last := ids[|ids| - 1];
      Loadable(ids[..|ids| - 1], loader) + (if last in loader then [loader[last]] else [])
  }

  /** Each loadable spawner comes from an id the loader holds, and each such id contributes its spawner. */
  lemma {:induction false} LoadableMembers(ids: seq<int>, loader: map<int, Spawner>)
    ensures forall s :: s in Loadable(ids, loader) ==> exists id :: id in ids && id in loader && loader[id] == s
    ensures forall id :: id in ids && id in loader ==> loader[id] in Loadable(ids, loader)
    decreases |ids|
  {
    if ids != [] {
      var p, last := ids[..|ids| - 1], ids[|ids| - 1];
      assert ids == p + [last];
      LoadableMembers(p, loader);
      LoadableSnoc(p, last, loader);
      assert forall id :: id in ids ==> id in p || id == last;
      assert forall id :: id in p ==> id in ids;
    }
  }

  /** One more id appends its spawner when the loader has it. */
  lemma LoadableSnoc(ids: seq<int>, id: int, loader: map<int, Spawner>)
    ensures id in loader ==> Loadable(ids + [id], loader) == Loadable(ids, loader) + [loader[id]]
    ensures id !in loader ==> Loadable(ids + [id], loader) == Loadable(ids, loader)
  {
    assert (ids + [id])[..|ids|] == ids;
    assert Loadable(ids, loader) + [] == Loadable(ids, loader);
  }

  /** The keys of the spawners among `ids` that `loader` can load now. */
  function LoadedKeys(ids: seq<int>, loader: map<int, Spawner>): (r: set<Location>)
    ensures forall id :: id in ids && id in loader ==> Normalize(loader[id].location) in r
  {
    if ids == [] then {}
    else
      var last := ids[|ids| - 1];
      assert forall id :: id in ids ==> id in ids[..|ids| - 1] || id == last;
      LoadedKeys(ids[..|ids| - 1], loader) + (if last in loader then {Normalize(loader[last].location)} else {})
  }

  /** `removeAll(drop)` on an insertion-ordered set: the survivors, in their order. */
  function RemoveAll(ids: seq<int>, drop: set<int>): (r: seq<int>)
    ensures forall x :: x in r <==> x in ids && x !in drop
  {
    if ids == [] then []
    else (if ids[0] in drop then [] else [ids[0]]) + RemoveAll(ids[1..], drop)
  }

  /** The keys of `uuid`'s index that still hold a spawner. */
  function LiveKeysOf(m: map<Location, Spawner>, idx: map<PlayerId, set<Location>>, uuid: PlayerId): (r: set<Location>)
    ensures r <= m.Keys
    ensures forall k :: k in r <==> uuid in idx && k in idx[uuid] && k in m
  {
    if uuid in idx then set k | k in idx[uuid] && k in m else {}
  }

  /** The keys among `keys` whose spawner has type `t`. */
  function KeysOfType(m: map<Location, Spawner>, keys: set<Location>, t: SpawnerType): (r: set<Location>)
    requires keys <= m.Keys
    ensures r <= keys
  {
    set k | k in keys && m[k].spawnerType == t
  }

  /** Filing a spawner under a free key adds that key to its owner's live keys. */
  lemma LiveAfterCreate(m: map<Location, Spawner>, idx: map<PlayerId, set<Location>>, k: Location, s: Spawner)
    requires k !in m
    ensures LiveKeysOf(m[k := s], Indexed(idx, s.owner, k), s.owner) == LiveKeysOf(m, idx, s.owner) + {k}
  {
    var live' := LiveKeysOf(m[k := s], Indexed(idx, s.owner, k), s.owner);
    forall j ensures j in live' <==> j in LiveKeysOf(m, idx, s.owner) + {k} {
    }
  }

  /** Filing a spawner under a free key adds one to its owner's count of its type and to no other. */
  lemma CreateRaisesCount(m: map<Location, Spawner>, idx: map<PlayerId, set<Location>>, s: Spawner)
    requires Normalize(s.location) !in m
    ensures |KeysOfType(m[Normalize(s.location) := s], LiveKeysOf(m[Normalize(s.location) := s], Indexed(idx, s.owner, Normalize(s.location)), s.owner), s.spawnerType)|
            == |KeysOfType(m, LiveKeysOf(m, idx, s.owner), s.spawnerType)| + 1
    ensures forall t :: t != s.spawnerType ==>
              |KeysOfType(m[Normalize(s.location) := s], LiveKeysOf(m[Normalize(s.location) := s], Indexed(idx, s.owner, Normalize(s.location)), s.owner), t)|
              == |KeysOfType(m, LiveKeysOf(m, idx, s.owner), t)|
  {
    var k := Normalize(s.location);
    var m' := m[k := s];
    var live := LiveKeysOf(m, idx, s.owner);
    LiveAfterCreate(m, idx, k, s);
    assert KeysOfType(m', live + {k}, s.spawnerType) == KeysOfType(m, live, s.spawnerType) + {k};
    forall t | t != s.spawnerType
      ensures KeysOfType(m', live + {k}, t) == KeysOfType(m, live, t)
    {
    }
  }

  /** Removing a live key takes one off its owner's count of that type, and the key off every owner's list. */
  lemma RemoveLowersCount(m: map<Location, Spawner>, idx: map<PlayerId, set<Location>>, k: Location)
    requires k in m
    ensures var (o, t) := (m[k].owner, m[k].spawnerType);
            var (m', idx') := (m - {k}, Unindexed(idx, o, k));
            && (forall u :: LiveKeysOf(m', idx', u) == LiveKeysOf(m, idx, u) - {k})
            && (k in LiveKeysOf(m, idx, o) ==>
                  |KeysOfType(m', LiveKeysOf(m', idx', o), t)| == |KeysOfType(m, LiveKeysOf(m, idx, o), t)| - 1)
  {
    var (o, t) := (m[k].owner, m[k].spawnerType);
    var (m', idx') := (m - {k}, Unindexed(idx, o, k));
    forall u ensures LiveKeysOf(m', idx', u) == LiveKeysOf(m, idx, u) - {k} {
    }
    if k in LiveKeysOf(m, idx, o) {
      var live := LiveKeysOf(m, idx, o);
      assert KeysOfType(m', live - {k}, t) == KeysOfType(m, live, t) - {k};
    }
  }

  /** Distinct keys of a valid registry hold distinct spawners, so counting keys counts spawners. */
  lemma {:induction false} ImageCard(keys: set<Location>, m: map<Location, Spawner>)
    requires keys <= m.Keys
    requires forall k :: k in m ==> Normalize(m[k].location) == k
    ensures |set k | k in keys :: m[k]| == |keys|
    decreases |keys|
  {
    if keys != {} {
      var k :| k in keys;
      var rest := keys - {k};
      ImageCard(rest, m);
      assert (set j | j in keys :: m[j]) == (set j | j in rest :: m[j]) + {m[k]};
      assert m[k] !in (set j | j in rest :: m[j]);
    }
  }

  class SpawnerManager {
    var spawners: map<Location, Spawner>
    var playerSpawners: map<PlayerId, set<Location>>
    var unloadedSpawnerIds: seq<int>  // a `mutableSetOf`, in insertion order

    /** Every spawner sits under its own normalised location. */
    ghost predicate Valid()
      reads this
    {
      forall k :: k in spawners ==> Normalize(spawners[k].location) == k
    }

    constructor ()
      ensures Valid()
      ensures spawners == map[] && playerSpawners == map[] && unloadedSpawnerIds == []
    {
      spawners := map[];
      playerSpawners := map[];
      unloadedSpawnerIds := [];
    }

    /**
     * The loop of `initialize()`: each spawner the database returns is filed
     * under its normalised location and indexed for its owner, in order, so
     * a key loaded twice holds the later spawner. The pending ids are
     * untouched.
     */
    method Initialize(loaded: seq<Spawner>)
      requires Valid()
      modifies this
      ensures Valid() && unloadedSpawnerIds == old(unloadedSpawnerIds)
      ensures forall k :: k in old(spawners) ==> k in spawners
      ensures forall k :: k in spawners ==> k in old(spawners) || exists j :: 0 <= j < |loaded| && Normalize(loaded[j].location) == k
      ensures forall j :: 0 <= j < |loaded| ==>
                Normalize(loaded[j].location) in spawners && loaded[j].owner in playerSpawners &&
                Normalize(loaded[j].location) in playerSpawners[loaded[j].owner]
      ensures forall o :: o in old(playerSpawners) ==> o in playerSpawners && old(playerSpawners)[o] <= playerSpawners[o]
      ensures spawners == FiledAll(old(spawners), loaded, KeyOf)
      ensures playerSpawners == IndexedAll(old(playerSpawners), loaded, KeyOf, OwnerOf)
    {
      for i := 0 to |loaded|
        invariant Valid() && unloadedSpawnerIds == old(unloadedSpawnerIds)
        invariant spawners == FiledAll(old(spawners), loaded[..i], KeyOf)
        invariant playerSpawners == IndexedAll(old(playerSpawners), loaded[..i], KeyOf, OwnerOf)
      {
        assert loaded[..i + 1] == loaded[..i] + [loaded[i]];
        FiledAllSnoc(old(spawners), loaded[..i], loaded[i], KeyOf);
        IndexedAllSnoc(old(playerSpawners), loaded[..i], loaded[i], KeyOf, OwnerOf);
        Register(loaded[i]);
      }
      assert loaded[..|loaded|] == loaded;
      FiledAllKeys(old(spawners), loaded, KeyOf);
      IndexedAllSpec(old(playerSpawners), loaded, KeyOf, OwnerOf);
    }

    /** `shutdown()`: both maps are cleared; the pending ids stay. */
    method Shutdown()
      modifies this
      ensures Valid()
      ensures spawners == map[] && playerSpawners == map[] && unloadedSpawnerIds == old(unloadedSpawnerIds)
    {
      spawners := map[];
      playerSpawners := map[];
    }

    /** `setUnloadedSpawnerIds(ids)`: clear, then add all; `ids` is the given set in its iteration order. */
    method SetUnloadedSpawnerIds(ids: seq<int>)
      modifies this
      ensures unloadedSpawnerIds == ids
      ensures spawners == old(spawners) && playerSpawners == old(playerSpawners)
    {
      unloadedSpawnerIds := [];
      unloadedSpawnerIds := unloadedSpawnerIds + ids;
    }

    /** The two writes shared by `initialize`, the retry pass and `createSpawner`. */
    method Register(s: Spawner)
      requires Valid()
      modifies this
      ensures Valid()
      ensures spawners == old(spawners)[Normalize(s.location) := s]
      ensures playerSpawners == Indexed(old(playerSpawners), s.owner, Normalize(s.location))
      ensures unloadedSpawnerIds == old(unloadedSpawnerIds)
    {
      var key := s.NormalizeLocation();
      spawners := spawners[key := s];
      playerSpawners := Indexed(playerSpawners, s.owner, key);
    }

    /** The assignments of `applyDefaultValues`, before its call to `applyUpgrades`. */
    static method WriteDefaults(s: Spawner, c: TypeConfig)
      modifies s
      ensures s.State() == WithParams(old(s.State()).(storageEnabled := c.storageEnabled.GetOr(true)),
                                      Params(c.defaultDelay.GetOr(1000), c.defaultCount.GetOr(6),
                                             c.defaultMaxNearby.GetOr(5), c.defaultRange.GetOr(8),
                                             c.storageDefaultMax.GetOr(c.spawningDefaultStorage.GetOr(5))))
    {
      s.spawnDelay := c.defaultDelay.GetOr(1000);
      s.spawnCount := c.defaultCount.GetOr(6);
      s.activationRange := c.defaultRange.GetOr(8);
      s.maxNearbyEntities := c.defaultMaxNearby.GetOr(5);
      s.maxStorage := c.storageDefaultMax.GetOr(c.spawningDefaultStorage.GetOr(5));
      s.storageEnabled := c.storageEnabled.GetOr(true);
    }

    /** `applyDefaultValues(spawner)`. */
    static method ApplyDefaultValues(s: Spawner, u: UpgradeSettings)
      requires s.Valid()
      modifies s
      ensures s.Valid()
      ensures s.State() == DefaultedState(old(s.State()), u, s.spawnerType)
    {
      var typeConfig := TypeConfigOf(u, s.spawnerType);
      if typeConfig.None? {
        return;
      }
      WriteDefaults(s, typeConfig.value);
      ApplyUpgrades(s, u);
    }

    /**
     * `createSpawner(owner, type, entityType, location)`: a new spawner with
     * the config defaults, filed under its block in the main map and in its
     * owner's index, and found again from any point of that block.
     */
    method CreateSpawner(owner: PlayerId, t: SpawnerType, entityType: EntityType, location: Location,
                         u: UpgradeSettings, now: int) returns (s: Spawner)
      requires Valid()
      modifies this
      ensures Valid() && fresh(s) && s.Valid()
      ensures s.owner == owner && s.spawnerType == t && s.location == location
      ensures s.State() == DefaultedState(CreatedState(entityType, now), u, t)
      ensures spawners == old(spawners)[Normalize(location) := s]
      ensures playerSpawners == Indexed(old(playerSpawners), owner, Normalize(location))
      ensures unloadedSpawnerIds == old(unloadedSpawnerIds)
      ensures forall l :: Normalize(l) == Normalize(location) ==> GetSpawner(l) == Some(s)
    {
      s := Spawner.Create(location, owner, t, entityType, now);
      ApplyDefaultValues(s, u);
      Register(s);
    }

    /** `getSpawner(location)`: the spawner filed under the location's block, if any. */
    function GetSpawner(location: Location): (r: Option<Spawner>)
      reads this
      requires Valid()
      ensures r.Some? <==> Normalize(location) in spawners
      ensures r.Some? ==> r.value in spawners.Values && Normalize(r.value.location) == Normalize(location)
    {
      var key := Normalize(location);
      if key in spawners then Some(spawners[key]) else None
    }

    /** Any two points of the same block of the same world find the same spawner. */
    lemma SameBlockSameSpawner(a: Location, b: Location)
      requires Valid()
      requires a.world == b.world && BlockX(a) == BlockX(b) && BlockY(a) == BlockY(b) && BlockZ(a) == BlockZ(b)
      ensures GetSpawner(a) == GetSpawner(b)
    {
      SameKeyIffSameBlock(a, b);
    }

    /**
     * `removeSpawner(location)`: false and no change when the block holds no
     * spawner; otherwise the key leaves the main map and the owner's index.
     */
    method RemoveSpawner(location: Location) returns (removed: bool)
      requires Valid()
      modifies this
      ensures Valid()
      ensures removed <==> Normalize(location) in old(spawners)
      ensures !removed ==> spawners == old(spawners) && playerSpawners == old(playerSpawners)
      ensures removed ==>
                spawners == old(spawners) - {Normalize(location)}
                && playerSpawners == Unindexed(old(playerSpawners), old(spawners)[Normalize(location)].owner, Normalize(location))
      ensures unloadedSpawnerIds == old(unloadedSpawnerIds)
      ensures GetSpawner(location).None?
    {
      var key := Normalize(location);
      if key !in spawners {
        return false;
      }
      var spawner := spawners[key];
      spawners := spawners - {key};
      playerSpawners := Unindexed(playerSpawners, spawner.owner, key);
      removed := true;
    }

    /** `getPlayerSpawners(uuid)`: the registered spawners behind the owner's index. */
    function GetPlayerSpawners(uuid: PlayerId): (r: set<Spawner>)
      reads this
      ensures forall x :: x in r ==> exists k :: k in LiveKeysOf(spawners, playerSpawners, uuid) && spawners[k] == x
      ensures forall k :: k in LiveKeysOf(spawners, playerSpawners, uuid) ==> spawners[k] in r
    {
      set k | k in LiveKeysOf(spawners, playerSpawners, uuid) :: spawners[k]
    }

    /** `getPlayerSpawnerCount(uuid, type)`. */
    function GetPlayerSpawnerCount(uuid: PlayerId, t: SpawnerType): nat
      reads this
    {
      |set x | x in GetPlayerSpawners(uuid) && x.spawnerType == t|
    }

    /**
     * The count is the number of live index keys whose spawner has that
     * type: in a valid registry no spawner sits under two keys.
     */
    lemma CountIsLiveKeysOfType(uuid: PlayerId, t: SpawnerType)
      requires Valid()
      ensures GetPlayerSpawnerCount(uuid, t) == |KeysOfType(spawners, LiveKeysOf(spawners, playerSpawners, uuid), t)|
      ensures GetPlayerSpawnerCount(uuid, t) <= |LiveKeysOf(spawners, playerSpawners, uuid)|
    {
      var live := LiveKeysOf(spawners, playerSpawners, uuid);
      var keys := KeysOfType(spawners, live, t);
      ImageCard(keys, spawners);
      assert (set x | x in GetPlayerSpawners(uuid) && x.spawnerType == t) == (set k | k in keys :: spawners[k]);
      SubsetCard(keys, live);
    }

    /** `toggleSpawner(spawner)`: flips `active` and returns the new value; nothing else changes. */
    static method ToggleSpawner(s: Spawner) returns (r: bool)
      modifies s
      ensures s.State() == old(s.State()).(active := !old(s.active))
      ensures r == s.active
    {
      s.active := !s.active;
      r := s.active;
    }

    /** `setSpawnMode(spawner, mode)`. */
    static method SetSpawnMode(s: Spawner, mode: SpawnMode)
      modifies s
      ensures s.State() == old(s.State()).(mode := mode)
    {
      s.spawnMode := mode;
    }

    /** `setPreciseLocation(spawner, x, y, z)`. */
    static method SetPreciseLocation(s: Spawner, x: real, y: real, z: real)
      modifies s
      ensures s.State() == old(s.State()).(preciseX := x, preciseY := y, preciseZ := z)
    {
      s.preciseX := x;
      s.preciseY := y;
      s.preciseZ := z;
    }

    /** `upgradeSpawner(spawner, type, level)`: the level is stored as given, without the clamp of `setUpgradeLevel`. */
    static method SetLevel(s: Spawner, upgradeType: string, newLevel: int)
      requires s.Valid()
      modifies s
      ensures s.Valid()
      ensures s.State() == old(s.State()).(levels := Put(old(s.upgradeLevels), upgradeType, newLevel))
    {
      PutKeepsDistinct(s.upgradeLevels, upgradeType, newLevel);
      s.upgradeLevels := Put(s.upgradeLevels, upgradeType, newLevel);
    }

    /**
     * `retryLoadUnloadedSpawners()`: each pending id whose spawner loads now
     * is registered, and exactly those ids leave the pending set. `loader`
     * holds, by id, the spawners `loadSpawnerById` returns at this moment.
     */
    method RetryLoadUnloadedSpawners(loader: map<int, Spawner>)
      requires Valid()
      modifies this
      ensures Valid()
      ensures forall id :: id in unloadedSpawnerIds <==> id in old(unloadedSpawnerIds) && id !in loader
      ensures KeysSoFar(spawners, old(spawners), old(unloadedSpawnerIds), loader)
      ensures IndexSoFar(playerSpawners, old(playerSpawners), old(unloadedSpawnerIds), loader)
      ensures spawners == FiledAll(old(spawners), Loadable(old(unloadedSpawnerIds), loader), KeyOf)
      ensures playerSpawners == IndexedAll(old(playerSpawners), Loadable(old(unloadedSpawnerIds), loader), KeyOf, OwnerOf)
    {
      var idsToRemove := RegisterLoadable(unloadedSpawnerIds, loader);
      unloadedSpawnerIds := RemoveAll(unloadedSpawnerIds, idsToRemove);
    }

    /** The loop of `retryLoadUnloadedSpawners`: it registers what loads and collects the ids to remove. */
    method RegisterLoadable(ids: seq<int>, loader: map<int, Spawner>) returns (idsToRemove: set<int>)
      requires Valid()
      modifies this
      ensures Valid() && unloadedSpawnerIds == old(unloadedSpawnerIds)
      ensures forall id :: id in idsToRemove <==> id in ids && id in loader
      ensures KeysSoFar(spawners, old(spawners), ids, loader)
      ensures IndexSoFar(playerSpawners, old(playerSpawners), ids, loader)
      ensures spawners == FiledAll(old(spawners), Loadable(ids, loader), KeyOf)
      ensures playerSpawners == IndexedAll(old(playerSpawners), Loadable(ids, loader), KeyOf, OwnerOf)
    {
      idsToRemove := {};
      ghost var spawners0 := spawners;
      ghost var index0 := playerSpawners;
      assert ids[..0] == [];
      for i := 0 to |ids|
        invariant Valid() && unloadedSpawnerIds == old(unloadedSpawnerIds)
        invariant forall id :: id in idsToRemove <==> id in ids[..i] && id in loader
        invariant KeysSoFar(spawners, spawners0, ids[..i], loader)
        invariant IndexSoFar(playerSpawners, index0, ids[..i], loader)
        invariant spawners == FiledAll(spawners0, Loadable(ids[..i], loader), KeyOf)
        invariant playerSpawners == IndexedAll(index0, Loadable(ids[..i], loader), KeyOf, OwnerOf)
      {
        var spawnerId := ids[i];
        var loaded := RetryOne(spawnerId, loader, ids[..i], spawners0, index0);
        if loaded {
          idsToRemove := idsToRemove + {spawnerId};
        }
        assert ids[..i + 1] == ids[..i] + [spawnerId];
      }
      assert ids[..|ids|] == ids;
    }

    /** One id of the retry loop: its spawner is registered when `loadSpawnerById` finds it. */
    method RetryOne(spawnerId: int, loader: map<int, Spawner>, ghost done: seq<int>,
                    ghost spawners0: map<Location, Spawner>, ghost index0: map<PlayerId, set<Location>>)
      returns (loaded: bool)
      requires Valid()
      requires spawners == FiledAll(spawners0, Loadable(done, loader), KeyOf)
      requires playerSpawners == IndexedAll(index0, Loadable(done, loader), KeyOf, OwnerOf)
      modifies this
      ensures Valid() && unloadedSpawnerIds == old(unloadedSpawnerIds)
      ensures loaded <==> spawnerId in loader
      ensures KeysSoFar(spawners, spawners0, done + [spawnerId], loader)
      ensures IndexSoFar(playerSpawners, index0, done + [spawnerId], loader)
      ensures spawners == FiledAll(spawners0, Loadable(done + [spawnerId], loader), KeyOf)
      ensures playerSpawners == IndexedAll(index0, Loadable(done + [spawnerId], loader), KeyOf, OwnerOf)
    {
      LoadableSnoc(done, spawnerId, loader);
      loaded := spawnerId in loader;
      if loaded {
        FiledAllSnoc(spawners0, Loadable(done, loader), loader[spawnerId], KeyOf);
        IndexedAllSnoc(index0, Loadable(done, loader), loader[spawnerId], KeyOf, OwnerOf);
        Register(loader[spawnerId]);
      }
      FoldKeysSoFar(spawners0, done + [spawnerId], loader);
      FoldIndexSoFar(index0, done + [spawnerId], loader);
    }
  }

  /**
   * The main map after registering the loadable spawners among `done`:
   * their keys are added, and every other key keeps its spawner.
   */
  ghost predicate KeysSoFar(m: map<Location, Spawner>, m0: map<Location, Spawner>, done: seq<int>, loader: map<int, Spawner>) {
    && m.Keys == m0.Keys + LoadedKeys(done, loader)
    && (forall k :: k in m0 && k !in LoadedKeys(done, loader) ==> m[k] == m0[k])
  }

  /** The owner index after the same registrations: each loaded key is indexed and nothing indexed is lost. */
  ghost predicate IndexSoFar(idx: map<PlayerId, set<Location>>, idx0: map<PlayerId, set<Location>>,
                             done: seq<int>, loader: map<int, Spawner>) {
    && (forall id :: id in done && id in loader ==>
          loader[id].owner in idx && Normalize(loader[id].location) in idx[loader[id].owner])
    && (forall o :: o in idx0 ==> o in idx && idx0[o] <= idx[o])
  }

  lemma KeysAdvance(m: map<Location, Spawner>, m': map<Location, Spawner>, m0: map<Location, Spawner>,
                    done: seq<int>, id: int, loader: map<int, Spawner>)
    requires KeysSoFar(m, m0, done, loader)
    requires id !in loader ==> m' == m
    requires id in loader ==> m' == m[Normalize(loader[id].location) := loader[id]]
    ensures KeysSoFar(m', m0, done + [id], loader)
  {
    assert (done + [id])[..|done|] == done;
  }

  lemma IndexAdvance(idx: map<PlayerId, set<Location>>, idx': map<PlayerId, set<Location>>,
                     idx0: map<PlayerId, set<Location>>, done: seq<int>, id: int, loader: map<int, Spawner>)
    requires IndexSoFar(idx, idx0, done, loader)
    requires id !in loader ==> idx' == idx
    requires id in loader ==> idx' == Indexed(idx, loader[id].owner, Normalize(loader[id].location))
    ensures IndexSoFar(idx', idx0, done + [id], loader)
  {
    assert forall j :: j in done + [id] ==> j in done || j == id;
  }

  /** Filing the loadable spawners among `done` in order gives the main map `KeysSoFar` describes. */
  lemma {:induction false} FoldKeysSoFar(m0: map<Location, Spawner>, done: seq<int>, loader: map<int, Spawner>)
    ensures KeysSoFar(FiledAll(m0, Loadable(done, loader), KeyOf), m0, done, loader)
    decreases |done|
  {
    if done != [] {
      var p, id := done[..|done| - 1], done[|done| - 1];
      assert done == p + [id];
      FoldKeysSoFar(m0, p, loader);
      LoadableSnoc(p, id, loader);
      if id in loader {
        FiledAllSnoc(m0, Loadable(p, loader), loader[id], KeyOf);
      }
      KeysAdvance(FiledAll(m0, Loadable(p, loader), KeyOf), FiledAll(m0, Loadable(done, loader), KeyOf), m0, p, id, loader);
    }
  }

  /** Indexing the same spawners in order gives the owner index `IndexSoFar` describes. */
  lemma {:induction false} FoldIndexSoFar(idx0: map<PlayerId, set<Location>>, done: seq<int>, loader: map<int, Spawner>)
    ensures IndexSoFar(IndexedAll(idx0, Loadable(done, loader), KeyOf, OwnerOf), idx0, done, loader)
    decreases |done|
  {
    if done != [] {
      var p, id := done[..|done| - 1], done[|done| - 1];
      assert done == p + [id];
      FoldIndexSoFar(idx0, p, loader);
      LoadableSnoc(p, id, loader);
      if id in loader {
        IndexedAllSnoc(idx0, Loadable(p, loader), loader[id], KeyOf, OwnerOf);
      }
      IndexAdvance(IndexedAll(idx0, Loadable(p, loader), KeyOf, OwnerOf), IndexedAll(idx0, Loadable(done, loader), KeyOf, OwnerOf), idx0, p, id, loader);
    }
  }

  /** A subset is no larger than its superset. */
  lemma {:induction false} SubsetCard<T>(a: set<T>, b: set<T>)
    requires a <= b
    ensures |a| <= |b|
    decreases |b|
  {
    if a != {} {
      var x :| x in a;
      SubsetCard(a - {x}, b - {x});
    }
  }
}
