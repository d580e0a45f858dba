/**
 * The typed-data layer the execution state works on, seen only through the
 * capabilities the engine asks about. PHP objects become handles into one
 * graph of nodes, so several variables (and several cloned states) can alias
 * the same node, as the objects do in PHP.
 */
module TypedData {
  import opened Wrappers

  /** Identity of a typed-data object. */
  type NodeId = nat
  /** Identity of a plain value held by typed data (an entity object, a string, ...). */
  type ValueId = nat
  /** Identity of a context-definition object. */
  type DefinitionId = nat
  /** A language code, treated as an opaque string. */
  type Langcode = string

  /** `LanguageInterface::LANGCODE_NOT_SPECIFIED`, the default language of a selector. */
  const DefaultLangcode: Langcode := "und"

  /** The outcome of the foreign child lookup `get($name)`. */
  datatype Lookup =
    | Found(child: NodeId)      // the child's typed data
    | Null                      // the lookup returned NULL
    | Invalid(reason: string)   // it threw \InvalidArgumentException with this message

  /**
   * A typed-data object. The flags say which interfaces the object
   * implements; PHP objects may implement several (an entity is both
   * translatable and complex), so they are not exclusive.
   */
  datatype Node = Node(
    isReference: bool,                       // DataReferenceInterface
    target: Option<NodeId>,                  //   getTarget()
    isTranslatable: bool,                    // TranslatableInterface
    translations: map<Langcode, NodeId>,     //   hasTranslation() / getTranslation()
    isList: bool,                            // ListInterface
    first: Option<NodeId>,                   //   offsetGet(0)
    isComplex: bool,                         // ComplexDataInterface
    children: map<string, Lookup>,           // get($name) for the names the data layer knows
    root: NodeId,                            // getRoot()
    value: ValueId                           // getValue()
  )

  /** All typed-data objects alive during an evaluation. */
  type Graph = map<NodeId, Node>

  /** A nullable handle that, when not NULL, names an object of `g`. */
  predicate Contains(g: Graph, o: Option<NodeId>) {
    o.Some? ==> o.value in g
  }

  /** Every handle held by `n` names an object of `g`. */
  ghost predicate NodeClosed(g: Graph, n: Node) {
    && Contains(g, n.target)
    && Contains(g, n.first)
    && n.root in g
    && n.translations.Values <= g.Keys
    && (forall child :: Found(child) in n.children.Values ==> child in g)
  }

  /** No handle in the graph dangles: PHP object references always name a live object. */
  ghost predicate Closed(g: Graph) {
    forall id {:trigger NodeClosed(g, g[id])} :: id in g ==> NodeClosed(g, g[id])
  }

  /**
   * `get($name)`: the recorded outcome, and for a name the data layer does
   * not know an \InvalidArgumentException (whose message is not modelled).
   */
  function Get(n: Node, name: string): Lookup {
    if name in n.children then n.children[name] else Invalid("")
  }

  /** `id` and its root are objects of `g`, so `getRoot()->getValue()` can be taken. */
  predicate Saveable(g: Graph, id: NodeId) {
    id in g && g[id].root in g
  }

  /** In a closed graph every object has a live root. */
  lemma ClosedSaveable(g: Graph, id: NodeId)
    requires Closed(g) && id in g
    ensures Saveable(g, id)
  {
    assert NodeClosed(g, g[id]);
  }

  /** `getRoot()->getValue()`: the value whose `save()` persists the data of `id`. */
  function RootValue(g: Graph, id: NodeId): ValueId
    requires Saveable(g, id)
  {
    g[g[id].root].value
  }
}
