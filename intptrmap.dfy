/**
 * IntPointerMap (src/intptrmap.h): a hash table keyed by ints with a
 * 256-bit presence set, four 64-bit words, that answers `contains` for
 * keys below 256 without consulting the table.
 */
module IntPtrMap {
  import opened Wrappers

  /**
   * A uint64_t word, as the set of the positions (0 to 63) of its one
   * bits: `w | (ONE64 << i)` is w + {i}, `w & ~(ONE64 << i)` is w - {i},
   * and `(w & (ONE64 << i)) != 0` is i in w.
   */
  type Word = set<nat>

  /** The presence bit of key k < 256: bit k % 64 of word k / 64. */
  predicate Present(bits: seq<Word>, k: nat)
    requires |bits| == 4 && k < 256
  {
    k % 64 in bits[k / 64]
  }

  class IntPointerMap<V> {
    const bits: array<Word>
    var hash: map<int, V>

    /** The presence bits agree with the table for every key below 256. */
    ghost predicate Valid()
      reads this, bits
    {
      bits.Length == 4 && forall k: nat :: k < 256 ==> (Present(bits[..], k) <==> k in hash)
    }

    /** int_pointer_map_init: all four words zero and an empty table. */
    constructor Init()
      ensures Valid() && fresh(bits)
      ensures bits[..] == [{}, {}, {}, {}] && hash == map[]
    {
      bits := new Word[4](_ => {});
      hash := map[];
      new;
      assert bits[..] == [{}, {}, {}, {}];
    }

    /**
     * int_pointer_map_contains, for the keys the source supports (a negative
     * key shifts by a negative amount): below 256 the answer is the
     * presence bit alone, and it always agrees with the table.
     */
    method Contains(key: int) returns (r: bool)
      requires Valid() && 0 <= key
      ensures r <==> key in hash
      ensures key < 256 ==> r == Present(bits[..], key)
    {
      if key < 64 {
        return key in bits[0];
      }
      if key < 256 {
        return key % 64 in bits[key / 64];
      }
      return key in hash;
    }

    /**
     * int_pointer_map_insert: the key maps to value afterwards, its
     * presence bit (below 256) is set, and the result says whether the
     * key was new, as g_hash_table_insert does.
     */
    method Insert(key: int, value: V) returns (isNew: bool)
      requires Valid() && 0 <= key
      modifies this, bits
      ensures Valid()
      ensures hash == old(hash)[key := value]
      ensures isNew <==> key !in old(hash)
      ensures Lookup(key) == Some(value)
      ensures forall k :: k != key ==> Lookup(k) == old(Lookup(k))
    {
      if key < 256 {
        bits[key / 64] := bits[key / 64] + {key % 64};
      }
      isNew := key !in hash;
      hash := hash[key := value];
    }

    /** int_pointer_map_lookup: the value stored under key, or NULL (None) when there is none. */
    function Lookup(key: int): (r: Option<V>)
      reads this, bits
      ensures r.Some? <==> key in hash
      ensures r.Some? ==> r.value == hash[key]
      ensures Valid() && 0 <= key < 256 ==> (r.Some? <==> Present(bits[..], key))
    {
      if key in hash then Some(hash[key]) else None
    }

    /**
     * int_pointer_map_remove: the key is gone, its presence bit (below
     * 256) is clear, every other key is kept, and the result says whether
     * the key was there.
     */
    method Remove(key: int) returns (found: bool)
      requires Valid() && 0 <= key
      modifies this, bits
      ensures Valid()
      ensures hash == old(hash) - {key}
      ensures found <==> key in old(hash)
      ensures Lookup(key) == None
      ensures forall k :: k != key ==> Lookup(k) == old(Lookup(k))
    {
      if key < 256 {
        bits[key / 64] := bits[key / 64] - {key % 64};
      }
      found := key in hash;
      hash := hash - {key};
    }
  }
}
