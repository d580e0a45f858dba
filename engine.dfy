/**
 * The rules execution state: the variables of one evaluation scope, data
 * selector resolution against them, and the selectors whose data is saved
 * when the evaluation is done.
 */
module Engine {
  import opened Wrappers
  import opened Selectors
  import opened TypedData
  import opened Resolution
  import opened DeferredSave

  class ExecutionState {
    /** The known variables, by name. */
    var variables: map<string, NodeId>
    /** The selectors marked for saving later, once each, in first-marking order. */
    var saveLater: seq<string>

    ghost predicate Valid()
      reads this
    {
      Distinct(saveLater)
    }

    /** `ExecutionState::create($variables)`. */
    constructor(variables: map<string, NodeId>)
      ensures Valid()
      ensures this.variables == variables && saveLater == []
    {
      this.variables := variables;
      saveLater := [];
    }

    /**
     * PHP's `clone`: both arrays are copied, the typed data they point to is
     * shared, so variables added to either state are not seen by the other.
     */
    method Clone() returns (c: ExecutionState)
      requires Valid()
      ensures fresh(c) && c.Valid()
      ensures c.variables == variables && c.saveLater == saveLater
    {
      c := new ExecutionState(variables);
      c.saveLater := saveLater;
    }

    /** `addVariableData($name, $data)`: binds `name`, overwriting an earlier binding. */
    method AddVariableData(name: string, data: NodeId) returns (self: ExecutionState)
      requires Valid()
      modifies this`variables
      ensures Valid() && self == this
      ensures variables == old(variables)[name := data]
      ensures HasVariable(name) && GetVariable(name) == Ok(data)
      ensures forall other :: other != name ==> GetVariable(other) == old(GetVariable(other))
    {
      variables := variables[name := data];
      self := this;
    }

    /**
     * `addVariable($name, $definition, $value)`: the typed-data factory
     * `create` builds the data, and a failure of the factory propagates
     * with the state unchanged.
     */
    method AddVariable(name: string, definition: DefinitionId, value: ValueId,
                       create: (DefinitionId, ValueId) -> Result<NodeId, string>)
      returns (r: Result<ExecutionState, string>)
      requires Valid()
      modifies this`variables
      ensures Valid()
      ensures create(definition, value).Err? ==>
                r == Err(create(definition, value).error) && variables == old(variables)
      ensures create(definition, value).Ok? ==>
                r == Ok(this) && variables == old(variables)[name := create(definition, value).value]
    {
      var data := create(definition, value);
      if data.Err? {
        return Err(data.error);
      }
      var self := AddVariableData(name, data.value);
      r := Ok(self);
    }

    /** `getVariable($name)`: the bound data; an unbound name is an error, never a default. */
    function GetVariable(name: string): (r: Result<NodeId, Error>)
      reads this
      ensures r.Ok? <==> name in variables
      ensures r.Ok? ==> r.value == variables[name]
      ensures r.Err? ==> r.error == UndefinedVariable(name)
    {
      if name in variables then Ok(variables[name]) else Err(UndefinedVariable(name))
    }

    /** `getVariableValue($name)`: the plain value of the bound data. */
    function GetVariableValue(g: Graph, name: string): (r: Result<ValueId, Error>)
      reads this
      requires name in variables ==> variables[name] in g
      ensures r.Ok? <==> GetVariable(name).Ok?
      ensures r.Ok? ==> r.value == g[GetVariable(name).value].value
      ensures r.Err? ==> r.error == GetVariable(name).error
    {
      match GetVariable(name)
      case Ok(data) => Ok(g[data].value)
      case Err(e) => Err(e)
    }

    /** `hasVariable($name)`: never fails, and holds exactly when `getVariable` succeeds. */
    function HasVariable(name: string): (r: bool)
      reads this
      ensures r <==> GetVariable(name).Ok?
    {
      name in variables
    }

    /** `applyDataSelector($selector, $langcode)`. */
    method ApplyDataSelector(g: Graph, selector: string, langcode: Langcode) returns (r: Result<Cursor, Error>)
      ensures r == Resolve(variables, g, selector, langcode)
    {
      var (head, rest) := SplitFirst(selector);
      var variable := GetVariable(head);
      if variable.Err? {
        return Err(variable.error);
      }
      var typedData: Cursor := Some(variable.value);
      if rest.None? {
        return Ok(typedData);
      }
      var currentSelector := head;
      var names := Split(rest.value);
      ghost var start := typedData;
      var i := 0;
      while i < |names|
        invariant 0 <= i <= |names|
        invariant Walk(g, typedData, currentSelector, names[i..], langcode) == Walk(g, start, head, names, langcode)
      {
        var name := names[i];
        assert names[i..][0] == name && names[i..][1..] == names[i + 1..];
        var next := ApplySegment(g, typedData, currentSelector, name, langcode);
        if next.Err? {
          return Err(next.error);
        }
        typedData := next.value;
        currentSelector := currentSelector + [Sep] + name;
        i := i + 1;
      }
      r := Ok(typedData);
    }

    /** `saveChangesLater($selector)`: marks the selector; nothing is resolved now. */
    method SaveChangesLater(selector: string) returns (self: ExecutionState)
      requires Valid()
      modifies this`saveLater
      ensures Valid() && self == this
      ensures saveLater == MarkLater(old(saveLater), selector)
    {
      saveLater := MarkLater(saveLater, selector);
      self := this;
    }

    /**
     * `autoSave()`: every marked selector is resolved again, now, with the
     * default language code, and the root of each non-NULL result is saved.
     * Returns the values whose `save()` ran, in order, and the error that
     * stopped the loop. The marks are kept, so a second call saves again.
     * As the marks are distinct, each marked selector is resolved once per
     * call and saves at most once.
     */
    method AutoSave(g: Graph) returns (saved: seq<ValueId>, failure: Option<Error>)
      requires Valid() && Closed(g) && Bound(variables, g)
      ensures SaveOutcome(saved, failure) == AutoSavePlan(variables, g, saveLater)
      ensures |saved| <= |saveLater|
    {
      ghost var rs := Resolutions(variables, g, saveLater);
      ghost var plan := AutoSavePlan(variables, g, saveLater);
      ResolutionsLive(variables, g, saveLater);
      assert rs[0..] == rs;
      saved := [];
      var i := 0;
      while i < |saveLater|
        invariant 0 <= i <= |saveLater|
        invariant Live(g, rs[i..])
        invariant plan == After(saved, Commit(g, rs[i..]))
      {
        CommitStep(g, rs, i, saved, plan);
        var typedData := ApplyDataSelector(g, saveLater[i], DefaultLangcode);
        ResolutionAt(variables, g, saveLater, i);
        if typedData.Err? {
          return saved, Some(typedData.error);
        }
        var data := typedData.value;
        if data.Some? {
          saved := saved + [RootValue(g, data.value)];
        }
        i := i + 1;
      }
      assert rs[i..] == [];
      failure := None;
    }
  }

  /**
   * A rule element that clones the state and adds a variable to the clone:
   * the variable is visible in the clone only, while the typed data stays
   * shared between the two scopes.
   */
  method AddInNestedScope(parent: ExecutionState, name: string, data: NodeId) returns (scope: ExecutionState)
    requires parent.Valid()
    ensures fresh(scope) && scope.Valid()
    ensures scope.variables == parent.variables[name := data]
    ensures scope.HasVariable(name) && scope.GetVariable(name) == Ok(data)
    ensures parent.HasVariable(name) == (name in old(parent.variables))
  {
    scope := parent.Clone();
    var _ := scope.AddVariableData(name, data);
  }

  /**
   * The body of the loop of `applyDataSelector`: the segment `name` applied
   * to `typedData`, after the prefix `currentSelector`. It is the loop body
   * written as the source writes it, one stage after the other, kept as a
   * method of its own so that the loop's proof stays small;
   * `Resolution.Step` is its specification.
   */
  method ApplySegment(g: Graph, typedData: Cursor, currentSelector: string, name: string, langcode: Langcode)
    returns (r: Result<Cursor, Error>)
    ensures r == Step(g, typedData, currentSelector, name, langcode)
  {
    var data := typedData;
    // A reference is replaced by its target.
    var node := At(g, data);
    if node.Some? && node.value.isReference {
      data := node.value.target;
      if data.None? {
        return Err(NullReference(currentSelector));
      }
    }
    ghost var dereferenced := data;
    // The translation for the language code, when there is one.
    node := At(g, data);
    if node.Some? && node.value.isTranslatable {
      if langcode in node.value.translations {
        data := Some(node.value.translations[langcode]);
      }
    }
    // A list addressed by a name that is not all digits: its first item.
    node := At(g, data);
    if node.Some? && node.value.isList && !IsDigits(name) {
      data := node.value.first;
    }
    var selector := currentSelector + [Sep] + name;
    // Descend into a list or complex structure.
    node := At(g, data);
    if node.Some? && (node.value.isList || node.value.isComplex) {
      match Get(node.value, name)
      case Found(child) =>
        r := Ok(Some(child));
      case Null =>
        r := Ok(None);
      case Invalid(reason) =>
        r := Err(LookupFailed(selector, reason));
    } else {
      r := Err(NotStructured(selector, name));
    }
  }
}
