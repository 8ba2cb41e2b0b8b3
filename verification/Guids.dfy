/** GUIDs, and as many different ones as a directed route has hops. */
module Guids {
  type Guid = bv64

  function OneBit(i: nat): Guid
    requires i < 64
  {
    1 << i
  }

  lemma ShiftsDiffer(i: nat, j: nat)
    requires i < j < 64
    ensures (1 as Guid) << i != (1 as Guid) << j
  {}

  lemma OneBitDistinct(i: nat, j: nat)
    requires i < j < 64
    ensures OneBit(i) != OneBit(j)
  {
    ShiftsDiffer(i, j);
  }
}
