/** Counts per key; a key that was never counted stands at 0. */
module Tallies {
  function Tally<K(==)>(counts: map<K, nat>, key: K): nat {
    if key in counts then counts[key] else 0
  }

  function Bump<K(==)>(counts: map<K, nat>, key: K): map<K, nat> {
    counts[key := Tally(counts, key) + 1]
  }
}
