/** Hash maps of the kernel programs. */
module BpfMaps {
  type U32 = x: int | 0 <= x < 0x1_0000_0000

  const MAX_ENTRIES: nat := 4096

  // bpf_map_update_elem with BPF_ANY: a new key needs room, a present one does not.
  function MapUpdate<V>(m: map<U32, V>, key: U32, value: V): map<U32, V> {
    if key in m || |m| < MAX_ENTRIES then m[key := value] else m
  }

  lemma {:induction false} SubsetSize(a: set<U32>, b: set<U32>)
    requires a <= b
    ensures |a| <= |b|
  {
    if a != {} {
      var x :| x in a;
      SubsetSize(a - {x}, b - {x});
    }
  }
}
