/**
 * Bukkit's `Location` as a value, and the block normalisation that every
 * spawner registry uses as its key (`Spawner.normalizeLocation` and the
 * normalisation inside `SpawnerManager.getSpawner` / `removeSpawner`).
 */
module Locations {
  import opened Common

  /** A loaded world, identified by name and handle. */
  datatype World = World(name: string, handle: nat)

  /** A point with orientation; `world` is `None` when the location has no world. */
  datatype Location = Location(world: Option<World>, x: real, y: real, z: real, yaw: real, pitch: real)

  /** `Location.blockX`: the coordinate rounded down (`NumberConversions.floor`). */
  function BlockX(l: Location): int { l.x.Floor }
  function BlockY(l: Location): int { l.y.Floor }
  function BlockZ(l: Location): int { l.z.Floor }

  /** `Location(world, blockX, blockY, blockZ)` with yaw and pitch zero. */
  function Normalize(l: Location): (n: Location)
    ensures n.world == l.world && n.yaw == 0.0 && n.pitch == 0.0
    ensures n.x == BlockX(l) as real && n.y == BlockY(l) as real && n.z == BlockZ(l) as real
  {
    Location(l.world, BlockX(l) as real, BlockY(l) as real, BlockZ(l) as real, 0.0, 0.0)
  }

  /** A registry key: a location already at a block corner with no orientation. */
  predicate IsNormalized(l: Location) {
    Normalize(l) == l
  }

  /** Normalising a normalised location changes nothing. */
  lemma NormalizeIdempotent(l: Location)
    ensures IsNormalized(Normalize(l))
  {
    var n := Normalize(l);
    assert (BlockX(l) as real).Floor == BlockX(l);
    assert (BlockY(l) as real).Floor == BlockY(l);
    assert (BlockZ(l) as real).Floor == BlockZ(l);
  }

  /** Two locations share a registry key exactly when they are in the same block of the same world. */
  lemma SameKeyIffSameBlock(a: Location, b: Location)
    ensures Normalize(a) == Normalize(b) <==>
      (a.world == b.world && BlockX(a) == BlockX(b) && BlockY(a) == BlockY(b) && BlockZ(a) == BlockZ(b))
  {
    if Normalize(a) == Normalize(b) {
      assert Normalize(a).x == Normalize(b).x;
      assert Normalize(a).y == Normalize(b).y;
      assert Normalize(a).z == Normalize(b).z;
    }
  }
}
