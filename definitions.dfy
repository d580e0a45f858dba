/**
 * The definition of an execution state: the contexts available to it,
 * kept in a definition array under the key `'context'`, beside any other
 * settings the caller supplies.
 */
module Definitions {
  import opened TypedData

  /** The key of the context definitions in the definition array. */
  const ContextKey: string := "context"

  /** An entry of the definition array. */
  datatype Entry =
    | Contexts(defs: map<string, DefinitionId>)   // context definitions by context name
    | Setting(value: ValueId)                     // any other setting, kept as given

  /** The initial value of the `$definition` property. */
  function Defaults(): (d: map<string, Entry>)
    ensures WellFormed(d) && d.Keys == {ContextKey} && d[ContextKey].defs == map[]
  {
    map[ContextKey := Contexts(map[])]
  }

  /** PHP's array union `$left + $right`: on a shared key the left entry wins. */
  function LeftUnion<K, V>(left: map<K, V>, right: map<K, V>): (r: map<K, V>)
    ensures r.Keys == left.Keys + right.Keys
    ensures forall k :: k in left ==> r[k] == left[k]
    ensures forall k :: k in right && k !in left ==> r[k] == right[k]
  {
    map k | k in left.Keys + right.Keys :: if k in left then left[k] else right[k]
  }

  /** PHP's left-biased union is Dafny's right-biased map union with the operands swapped. */
  lemma LeftUnionIsSwappedUnion<K, V>(left: map<K, V>, right: map<K, V>)
    ensures LeftUnion(left, right) == right + left
  {
  }

  /** The definition array has a context map under `'context'`. */
  predicate WellFormed(definition: map<string, Entry>) {
    ContextKey in definition && definition[ContextKey].Contexts?
  }

  /** Values in the format of `toArray()`: if `'context'` is given, it is a context map. */
  predicate ValidValues(values: map<string, Entry>) {
    ContextKey in values ==> values[ContextKey].Contexts?
  }

  /**
   * The definition built from `values`: every supplied key keeps its value,
   * `'context'` included, and the default context map is added only when
   * `'context'` is absent.
   */
  lemma MergedDefinition(values: map<string, Entry>)
    requires ValidValues(values)
    ensures WellFormed(LeftUnion(values, Defaults()))
    ensures LeftUnion(values, Defaults()).Keys == values.Keys + {ContextKey}
    ensures forall k :: k in values ==> LeftUnion(values, Defaults())[k] == values[k]
    ensures ContextKey !in values ==> LeftUnion(values, Defaults())[ContextKey] == Contexts(map[])
  {
  }

  /** `create()` with no values has an empty context map and nothing else. */
  lemma CreateWithoutValues()
    ensures LeftUnion(map[], Defaults()) == map[ContextKey := Contexts(map[])]
  {
    LeftUnionIsSwappedUnion(map[], Defaults());
  }

  class ExecutionStateDefinition {
    /** The definition array. */
    var definition: map<string, Entry>

    ghost predicate Valid()
      reads this
    {
      WellFormed(definition)
    }

    /** `ExecutionStateDefinition::create($values)`: `$values + $this->definition`. */
    constructor(values: map<string, Entry>)
      requires ValidValues(values)
      ensures Valid()
      ensures definition == LeftUnion(values, Defaults())
    {
      MergedDefinition(values);
      definition := LeftUnion(values, Defaults());
    }

    /** The context definitions, by context name. */
    function ContextDefinitions(): map<string, DefinitionId>
      reads this
      requires Valid()
    {
      definition[ContextKey].defs
    }

    /**
     * `setContextDefinition($name, $definition)`: binds the context `name`,
     * overwriting an earlier binding; other contexts and other keys are kept.
     */
    method SetContextDefinition(name: string, def: DefinitionId) returns (self: ExecutionStateDefinition)
      requires Valid()
      modifies this
      ensures Valid() && self == this
      ensures ContextDefinitions() == old(ContextDefinitions())[name := def]
      ensures definition == old(definition)[ContextKey := Contexts(old(ContextDefinitions())[name := def])]
    {
      definition := definition[ContextKey := Contexts(ContextDefinitions()[name := def])];
      self := this;
    }

    /**
     * `toArray()`: the loop turns each context definition of a local copy
     * into its object properties (`objectVars`), but the copy is dropped and
     * the stored definition array is returned as it is.
     */
    method ToArray(objectVars: DefinitionId -> map<string, ValueId>) returns (r: map<string, Entry>)
      requires Valid()
      ensures r == definition
      ensures r[ContextKey] == Contexts(ContextDefinitions())
    {
      var contexts := ContextDefinitions();
      var exported: map<string, map<string, ValueId>> := map[];
      var remaining := contexts.Keys;
      while remaining != {}
        invariant remaining <= contexts.Keys
        invariant exported.Keys == contexts.Keys - remaining
        decreases remaining
      {
        var name :| name in remaining;
        exported := exported[name := objectVars(contexts[name])];
        remaining := remaining - {name};
      }
      r := definition;
    }
  }

  /** `toArray()` changes nothing, so two calls give the same array. */
  method ToArrayTwice(d: ExecutionStateDefinition, objectVars: DefinitionId -> map<string, ValueId>)
    returns (first: map<string, Entry>, second: map<string, Entry>)
    requires d.Valid()
    ensures first == second == d.definition
  {
    first := d.ToArray(objectVars);
    second := d.ToArray(objectVars);
  }
}
