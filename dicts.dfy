/** A key-indexed dictionary whose enumeration order is insertion order.
    It stands for the source's `Dictionary<Key, V>`, which is only ever
    cleared and added to, so enumerating it yields the values in the order
    their keys were first added. */
module Dicts {
  import opened SpecIF

  datatype Dict<V> = Dict(Order: seq<Key>, Entries: map<Key, V>) {

    /** Every key is enumerated exactly once, and exactly the keys of the map are enumerated. */
    ghost predicate Valid()
    {
      && (forall i, j :: 0 <= i < j < |Order| ==> Order[i] != Order[j])
      && (forall k :: k in Entries <==> k in Order)
    }

    predicate ContainsKey(k: Key)
    {
      k in Entries
    }

    /** `Dictionary.Add`: only called on a key that is absent (the source's
        `Add` throws otherwise, which callers model themselves). */
    function Add(k: Key, v: V): (d: Dict<V>)
      requires Valid() && !ContainsKey(k)
      ensures d.Valid()
      ensures d.Entries == Entries[k := v] && d.Order == Order + [k]
    {
      Dict(Order + [k], Entries[k := v])
    }

    /** The values in enumeration order: exactly the stored values, one
        per key, the value of an earlier inserted key first. */
    function Values(): (vs: seq<V>)
      requires Valid()
      ensures forall k :: k in Entries ==> Entries[k] in vs
      ensures |vs| == |Order|
      ensures forall i :: 0 <= i < |Order| ==> Order[i] in Entries && vs[i] == Entries[Order[i]]
    {
      var vs := seq(|Order|, i requires 0 <= i < |Order| => Entries[Order[i]]);
      assert forall k :: k in Entries ==> Entries[k] in vs by {
        forall k | k in Entries
          ensures Entries[k] in vs
        {
          var i :| 0 <= i < |Order| && Order[i] == k;
          assert vs[i] == Entries[k];
        }
      }
      vs
    }
  }

  function Empty<V>(): (d: Dict<V>)
    ensures d.Valid() && d.Order == [] && d.Entries == map[]
  {
    Dict([], map[])
  }

  /** `e` is `d` with possibly more keys added at the end; nothing of `d` is removed or overwritten. */
  ghost predicate Grows<V>(d: Dict<V>, e: Dict<V>)
  {
    && d.Order <= e.Order
    && (forall k :: k in d.Entries ==> k in e.Entries && e.Entries[k] == d.Entries[k])
  }

  lemma GrowsTransitive<V>(a: Dict<V>, b: Dict<V>, c: Dict<V>)
    requires Grows(a, b) && Grows(b, c)
    ensures Grows(a, c)
  {
  }

  /** Every enumerated value is stored under some key. */
  lemma ValueStored<V>(d: Dict<V>, v: V) returns (k: Key)
    requires d.Valid() && v in d.Values()
    ensures k in d.Entries && d.Entries[k] == v
  {
    var i :| 0 <= i < |d.Order| && d.Values()[i] == v;
    k := d.Order[i];
  }
}
