/** A Python `dict`: its entries, and the insertion order in which `dict.items()` walks them. */
module PyDict {
  import opened Seqs

  datatype Dict<K(==,!new), V> = Dict(entries: map<K, V>, order: seq<K>) {

    /** The iteration order lists every key once and nothing else. */
    ghost predicate Valid() {
      NoDup(order) && forall k :: k in order <==> k in entries
    }

    /** `d[k] = v`: a new key joins the end of the iteration order, an existing key keeps its place. */
    function Put(k: K, v: V): (d: Dict<K, V>)
      ensures Valid() ==> d.Valid()
      ensures d.entries.Keys == entries.Keys + {k} && d.entries[k] == v
      ensures forall j :: j in entries && j != k ==> d.entries[j] == entries[j]
      ensures k in entries ==> d.order == order
      ensures k !in entries ==> d.order == order + [k]
    {
      Dict(entries[k := v], if k in entries then order else order + [k])
    }

    /** `d.pop(k)` (with the `KeyError` for a missing key swallowed): the key leaves both the
        entries and the iteration order, and the other keys keep their relative order. */
    function Pop(k: K): (d: Dict<K, V>)
      ensures Valid() ==> d.Valid()
      ensures d.entries.Keys == entries.Keys - {k}
      ensures forall j :: j in d.entries ==> d.entries[j] == entries[j]
      ensures k !in entries && Valid() ==> d == this
      ensures k in order ==> d.order == DeleteAt(order, IndexOf(order, k))
      ensures k !in order ==> d.order == order
    {
      RemoveFirstNoDupIfValid(k);
      Dict(entries - {k}, RemoveFirst(order, k))
    }

    lemma RemoveFirstNoDupIfValid(k: K)
      ensures Valid() ==> NoDup(RemoveFirst(order, k)) && forall y :: y in RemoveFirst(order, k) <==> y in order && y != k
    {
      if Valid() {
        RemoveFirstNoDup(order, k);
      }
    }
  }

  function Empty<K(==,!new), V>(): (d: Dict<K, V>)
    ensures d.Valid() && d.entries == map[]
  {
    Dict(map[], [])
  }
}
