/** Small facts about concatenation that several models share. */
module Collections {

  datatype Option<+T> = None | Some(value: T)

  datatype Result<+T, +E> = Ok(value: T) | Err(error: E)

  /** All parts, one after the other. */
  function Concat<T>(parts: seq<seq<T>>): seq<T> {
    if parts == [] then [] else parts[0] + Concat(parts[1..])
  }

  lemma ConcatAssoc<T>(a: seq<T>, b: seq<T>, c: seq<T>)
    ensures (a + b) + c == a + (b + c)
  {
  }

  lemma {:induction false} SubsetSize<T>(a: set<T>, b: set<T>)
    requires a <= b
    ensures |a| <= |b|
    ensures |a| == |b| ==> a == b
  {
    if a != {} {
      var x :| x in a;
      SubsetSize(a - {x}, b - {x});
    }
  }

  /** Two maps agree on one key. */
  ghost predicate SameEntry<K, V>(a: map<K, V>, b: map<K, V>, key: K) {
    (key in a <==> key in b) && (key in a ==> a[key] == b[key])
  }

  ghost predicate NoRepeats<T>(items: seq<T>) {
    items == [] || (items[0] !in items[1..] && NoRepeats(items[1..]))
  }

  lemma {:induction false} NoRepeatsAppend<T>(items: seq<T>, item: T)
    ensures NoRepeats(items + [item]) <==> NoRepeats(items) && item !in items
  {
    if items == [] {
      assert items + [item] == [item] && [item][1..] == [];
    } else {
      NoRepeatsAppend(items[1..], item);
      assert (items + [item])[1..] == items[1..] + [item];
    }
  }
}
