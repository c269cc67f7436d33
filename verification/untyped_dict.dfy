/**
 * A dictionary from names to values of any type (matrix/helpers/untyped_dict.hpp),
 * used for the world's global variables.
 */
module UntypedDicts {
  /** A `std::any`: empty, or holding a value of one of the types the
      simulator reads back (any other type is an opaque tag). */
  datatype Any =
    | Empty
    | AnyString(s: string)
    | AnyInt64(i: int)
    | AnyBool(b: bool)
    | AnyOther(tag: nat)

  /** The value stored under `key`, or an empty `Any`. */
  function Lookup(entries: map<string, Any>, key: string): (v: Any)
    ensures key in entries ==> v == entries[key]
    ensures key !in entries ==> v == Empty
  {
    if key in entries then entries[key] else Empty
  }

  class UntypedDict {
    var entries: map<string, Any>

    constructor ()
      ensures entries == map[]
    {
      entries := map[];
    }

    /** Stores `value` under `key`, replacing any earlier value. */
    method Set(key: string, value: Any)
      modifies this
      ensures entries == old(entries)[key := value]
      ensures Get(key) == value && Has(key)
      ensures forall k :: k != key ==> Get(k) == old(Get(k)) && (Has(k) <==> old(Has(k)))
    {
      entries := entries[key := value];
    }

    /** The value under `key`, or an empty any for a missing key. */
    function Get(key: string): (v: Any)
      reads this
      ensures key in entries ==> v == entries[key]
      ensures key !in entries ==> v == Empty
    {
      Lookup(entries, key)
    }

    function Has(key: string): (r: bool)
      reads this
      ensures r <==> key in entries
      ensures !r ==> Get(key) == Empty
    {
      key in entries
    }
  }
}
