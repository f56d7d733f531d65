/** The runtime resource arbiter. */
module ResourcePools {
  import opened Domain

  function AtLeastZero(x: int): int {
    if x < 0 then 0 else x
  }

  /** What `release` leaves in use; it clamps every component at zero. */
  function Released(used: Resources, r: Resources): Resources {
    Resources(AtLeastZero(used.cpu - r.cpu), AtLeastZero(used.memory - r.memory), AtLeastZero(used.gpu - r.gpu))
  }

  predicate Fits(used: Resources, request: Resources, capacity: Resources) {
    FitsWithin(Plus(used, request), capacity)
  }

  /** Releasing a held reservation gives back exactly what was reserved: with a total that still
      covers it, the clamp never acts. */
  lemma ReleaseUndoesReserve(used: Resources, r: Resources)
    requires NonNegative(used)
    ensures Released(Plus(used, r), r) == used
  {
  }

  class ResourcePool {
    const capacity: Resources
    var used: Resources

    constructor (capacity: Resources)
      ensures this.capacity == capacity && used == NO_RESOURCES
    {
      this.capacity := capacity;
      used := NO_RESOURCES;
    }

    method TryReserve(r: Resources) returns (ok: bool)
      modifies this
      ensures ok == Fits(old(used), r, capacity)
      ensures used == if ok then Plus(old(used), r) else old(used)
    {
      ok := used.cpu + r.cpu <= capacity.cpu &&
            used.memory + r.memory <= capacity.memory &&
            used.gpu + r.gpu <= capacity.gpu;
      if ok {
        used := Resources(used.cpu + r.cpu, used.memory + r.memory, used.gpu + r.gpu);
      }
    }

    method Release(r: Resources)
      modifies this
      ensures used == Released(old(used), r)
    {
      used := Resources(AtLeastZero(used.cpu - r.cpu), AtLeastZero(used.memory - r.memory), AtLeastZero(used.gpu - r.gpu));
    }
  }
}
