/** Compute-kernel grid sizing in `FFTOcean_Script.OnEnable`. */
module Dispatch {
  import opened Numerics

  /** The field resolution `OnEnable` fixes. */
  const Resolution: int := 1024

  /** The divisor of the thread-group computation. */
  const GroupWidth: int := 8

  /** `Mathf.CeilToInt(resolution / 8.0f)`: the fewest groups of 8 that reach `resolution`. */
  function ThreadGroups(resolution: int): (groups: int)
    ensures GroupWidth * (groups - 1) < resolution <= GroupWidth * groups
  {
    CeilToInt(resolution as real / GroupWidth as real)
  }

  /** Every texel row or column `p` of the field falls inside one of the dispatched groups. */
  lemma ThreadGroupsCover(resolution: int, p: int)
    requires 0 <= p < resolution
    ensures 0 <= p / GroupWidth < ThreadGroups(resolution)
  {
  }

  /** `threadGroupsX` and `threadGroupsY` as `OnEnable` sets them: 128 in each axis. */
  method OnEnableGroups() returns (resolution: int, groupsX: int, groupsY: int)
    ensures resolution == Resolution
    ensures groupsX == groupsY == 128
    ensures GroupWidth * groupsX == resolution
  {
    resolution := Resolution;
    groupsX := ThreadGroups(resolution);
    groupsY := ThreadGroups(resolution);
  }
}
