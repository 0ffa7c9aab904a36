/** Optional values, results and the Java exceptions the modelled code can raise. */
module Wrappers {

  /** A value that may be absent: Java's `null` made explicit. */
  datatype Option<+T> = None | Some(value: T) {
    function GetOr(default: T): T {
      match this
      case Some(v) => v
      case None => default
    }
  }

  /** The unchecked exceptions the modelled code can throw on malformed input. */
  datatype JavaException =
    | ArrayIndexOutOfBounds
    | StringIndexOutOfBounds
    | NegativeArraySize
    | NumberFormat
    | NullPointer
    | IllegalArgument
    | IllegalState

  /** Either a normal return or the exception that aborted the computation. */
  datatype Result<+T> = Ok(value: T) | Err(error: JavaException) {
    predicate IsFailure() {
      Err?
    }

    function PropagateFailure<U>(): Result<U>
      requires Err?
    {
      Err(error)
    }

    function Extract(): T
      requires Ok?
    {
      value
    }
  }

  /** `map.getOrDefault(key, default)` */
  function GetOrDefault<K, V>(m: map<K, V>, key: K, default: V): V {
    if key in m then m[key] else default
  }

  /** `map.get(key)`, with `null` for an absent key */
  function Get<K, V>(m: map<K, V>, key: K): Option<V> {
    if key in m then Some(m[key]) else None
  }

  /** A second update of the same key overrides the first. */
  lemma UpdateTwice<K, V>(m: map<K, V>, k: K, a: V, b: V)
    ensures m[k := a][k := b] == m[k := b]
  {
  }
}

/** Iteration over a Java HashMap: every key exactly once, in an order the model leaves open. */
module HashMapOrder {

  /** `order` lists every key of `keys` exactly once. */
  predicate IsEnumeration<K>(order: seq<K>, keys: set<K>) {
    && (forall i, j :: 0 <= i < j < |order| ==> order[i] != order[j])
    && (forall i :: 0 <= i < |order| ==> order[i] in keys)
    && (forall k :: k in keys ==> k in order)
  }

  /** Lists the keys in some order, as iterating `keySet()` or `values()` does. */
  method Enumerate<K>(keys: set<K>) returns (order: seq<K>)
    ensures IsEnumeration(order, keys)
  {
    var rest := keys;
    order := [];
    while rest != {}
      invariant forall k :: k in keys <==> k in rest || k in order
      invariant forall k :: k in rest ==> k !in order
      invariant forall i, j :: 0 <= i < j < |order| ==> order[i] != order[j]
      decreases rest
    {
      var k :| k in rest;
      order := order + [k];
      rest := rest - {k};
    }
  }

  /** The keys an iteration has visited after its first `i` steps. */
  ghost function Visited<K>(order: seq<K>, i: nat): set<K>
    requires i <= |order|
  {
    set j | 0 <= j < i :: order[j]
  }

  lemma VisitedNone<K>(order: seq<K>)
    ensures Visited(order, 0) == {}
  {
  }

  /** One more step visits one more key, which was not visited before. */
  lemma VisitedStep<K>(order: seq<K>, keys: set<K>, i: nat)
    requires IsEnumeration(order, keys) && i < |order|
    ensures Visited(order, i + 1) == Visited(order, i) + {order[i]}
    ensures order[i] !in Visited(order, i) && order[i] in keys
  {
  }

  /** A finished iteration has visited every key. */
  lemma VisitedAll<K>(order: seq<K>, keys: set<K>)
    requires IsEnumeration(order, keys)
    ensures Visited(order, |order|) == keys
  {
  }
}
