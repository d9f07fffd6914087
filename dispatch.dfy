/**
 * The binary-operator registry of siquant/quantities/dispatch.py: a mutable
 * map from the type of the right-hand operand to the handler that serves it.
 * `bin_op_dispatcher` returns two closures over one `registry` dictionary;
 * here the dictionary is the field of one object and the closures are its
 * members.
 */
module Dispatch {
  import opened Outcomes

  /**
   * A registry of handlers `(inst, other) -> result`, keyed by the type of
   * `other` as `typeOf` reports it (Python's `type(other)`).
   */
  class Dispatcher<K(==, !new), A, B, R> {
    const typeOf: B -> K
    var registry: map<K, (A, B) -> R>

    /** A fresh dispatcher has an empty registry. */
    constructor (typeOf: B -> K)
      ensures this.typeOf == typeOf
      ensures registry == map[]
    {
      this.typeOf := typeOf;
      registry := map[];
    }

    /** `supported_types()`: exactly the operand types registered so far. */
    function SupportedTypes(): (ts: set<K>)
      reads this
      ensures forall t :: t in ts <==> t in registry
    {
      registry.Keys
    }

    /**
     * `dispatch(inst, other)`: the handler registered for `type(other)`,
     * applied to both operands; an unregistered type is a KeyError.
     */
    function Dispatch(inst: A, other: B): (r: Result<R>)
      reads this
      ensures r.Ok? <==> typeOf(other) in SupportedTypes()
      ensures r.Err? ==> r.error == KeyError
      ensures r.Ok? ==> r.value == registry[typeOf(other)](inst, other)
    {
      var t := typeOf(other);
      if t in registry then Ok(registry[t](inst, other)) else Err(KeyError)
    }

    /**
     * `register(*op_types)(fcn)`: each listed type now maps to `fcn`, earlier
     * handlers of those types are overwritten, every other entry stays, and
     * the decorator hands back the dispatcher itself.
     */
    method Register(opTypes: seq<K>, fcn: (A, B) -> R) returns (d: Dispatcher<K, A, B, R>)
      modifies this
      ensures d == this
      ensures registry.Keys == old(registry.Keys) + (set t | t in opTypes)
      ensures forall t :: t in opTypes ==> registry[t] == fcn
      ensures forall t :: t in old(registry) && t !in opTypes ==> registry[t] == old(registry[t])
    {
      var i := 0;
      while i < |opTypes|
        invariant 0 <= i <= |opTypes|
        invariant registry.Keys == old(registry.Keys) + (set t | t in opTypes[..i])
        invariant forall t :: t in opTypes[..i] ==> registry[t] == fcn
        invariant forall t :: t in old(registry) && t !in opTypes[..i] ==> registry[t] == old(registry[t])
      {
        assert opTypes[..i + 1] == opTypes[..i] + [opTypes[i]];
        registry := registry[opTypes[i] := fcn];
        i := i + 1;
      }
      assert opTypes[..i] == opTypes;
      d := this;
    }
  }
}
