/**
 * Applying a data selector: the head names a variable, and every later
 * segment runs the same four stages on the current typed data: dereference,
 * localize, forward a list to its first item, descend. This module is the
 * specification that `Engine.ExecutionState.ApplyDataSelector` is proved
 * against, together with the properties of selector resolution.
 */
module Resolution {
  import opened Wrappers
  import opened Selectors
  import opened TypedData

  /** The `RulesEvaluationException`s of the execution state, by kind. */
  datatype Error =
    | UndefinedVariable(name: string)                  // getVariable of an unbound name
    | NullReference(selector: string)                  // a reference whose target is NULL
    | NotStructured(selector: string, name: string)    // descent into neither a list nor a complex structure
    | LookupFailed(selector: string, reason: string)   // the child lookup threw

  /** The start of every message about a data selector. */
  const SelectorLead: string := "Unable to apply data selector "

  /**
   * The exception message of each error: it starts with the unbound name, or
   * with the selector prefix the error names.
   */
  function Message(e: Error): (m: string)
    ensures e.UndefinedVariable? ==> "Unable to get variable " + e.name <= m
    ensures !e.UndefinedVariable? ==> SelectorLead + e.selector <= m
  {
    match e
    case UndefinedVariable(name) =>
      "Unable to get variable " + name + ", it is not defined."
    case NullReference(selector) =>
      SelectorLead + selector + ". The specified reference is NULL."
    case NotStructured(selector, name) =>
      SelectorLead + selector
      + ". The specified variable is not a list or a complex structure: " + name + "."
    case LookupFailed(selector, reason) =>
      SelectorLead + selector + ": " + reason
  }

  /** The current typed data of a resolution, or NULL. */
  type Cursor = Option<NodeId>

  /** Every variable is bound to an object of the graph. */
  ghost predicate Bound(vars: map<string, NodeId>, g: Graph) {
    forall name :: name in vars ==> vars[name] in g
  }

  /**
   * The object under the cursor. In a closed graph every handle names an
   * object, so NULL is the only cursor without one.
   */
  function At(g: Graph, cur: Cursor): Option<Node> {
    if cur.Some? && cur.value in g then Some(g[cur.value]) else None
  }

  /** Stage (a): a reference is replaced by its target once; a NULL target fails. */
  function Dereference(g: Graph, cur: Cursor, consumed: string): (r: Result<Cursor, Error>)
    ensures r.Err? <==> At(g, cur).Some? && At(g, cur).value.isReference && At(g, cur).value.target.None?
    ensures r.Err? ==> r.error == NullReference(consumed)
    ensures r.Ok? ==> r.value == cur || (At(g, cur).Some? && r.value == At(g, cur).value.target)
    ensures At(g, cur).None? || !At(g, cur).value.isReference ==> r == Ok(cur)
  {
    var n := At(g, cur);
    if n.Some? && n.value.isReference then
      if n.value.target.None? then Err(NullReference(consumed)) else Ok(n.value.target)
    else Ok(cur)
  }

  /** Stage (b): the translation for `langcode` if there is one, else the same data. */
  function Localize(g: Graph, cur: Cursor, langcode: Langcode): (r: Cursor)
    ensures r == cur || (At(g, cur).Some? && At(g, cur).value.isTranslatable && r.Some?
                         && r.value in At(g, cur).value.translations.Values)
    ensures At(g, cur).Some? && At(g, cur).value.isTranslatable && langcode in At(g, cur).value.translations ==>
              r == Some(At(g, cur).value.translations[langcode])
  {
    var n := At(g, cur);
    if n.Some? && n.value.isTranslatable && langcode in n.value.translations
    then Some(n.value.translations[langcode])
    else cur
  }

  /** Stage (c): a list addressed by a segment that is not all digits becomes its item 0. */
  function ForwardToFirstItem(g: Graph, cur: Cursor, name: string): (r: Cursor)
    ensures IsDigits(name) ==> r == cur
    ensures r != cur ==> At(g, cur).Some? && At(g, cur).value.isList && r == At(g, cur).value.first
  {
    var n := At(g, cur);
    if n.Some? && n.value.isList && !IsDigits(name) then n.value.first else cur
  }

  /**
   * Stage (d): the child `name` of a list or complex structure. `consumed`
   * already ends with `name`.
   */
  function Descend(g: Graph, cur: Cursor, consumed: string, name: string): (r: Result<Cursor, Error>)
    ensures r.Ok? ==> At(g, cur).Some? && (At(g, cur).value.isList || At(g, cur).value.isComplex)
    ensures r.Ok? && r.value.Some? ==> Get(At(g, cur).value, name) == Found(r.value.value)
    ensures r.Err? ==> r.error == NotStructured(consumed, name) || (r.error.LookupFailed? && r.error.selector == consumed)
  {
    var n := At(g, cur);
    if n.Some? && (n.value.isList || n.value.isComplex) then
      match Get(n.value, name)
      case Found(child) => Ok(Some(child))
      case Null => Ok(None)
      case Invalid(reason) => Err(LookupFailed(consumed, reason))
    else Err(NotStructured(consumed, name))
  }

  /** One segment `name` applied to `cur`, after the prefix `consumed`. */
  function Step(g: Graph, cur: Cursor, consumed: string, name: string, langcode: Langcode): (r: Result<Cursor, Error>)
    ensures r.Err? ==>
              || r.error == NullReference(consumed)
              || r.error == NotStructured(consumed + [Sep] + name, name)
              || (r.error.LookupFailed? && r.error.selector == consumed + [Sep] + name)
  {
    match Dereference(g, cur, consumed)
    case Err(e) => Err(e)
    case Ok(d) =>
      Descend(g, ForwardToFirstItem(g, Localize(g, d, langcode), name), consumed + [Sep] + name, name)
  }

  /** The segments `names` applied in order, the prefix growing by one segment per step. */
  function Walk(g: Graph, cur: Cursor, consumed: string, names: seq<string>, langcode: Langcode): (r: Result<Cursor, Error>)
    ensures r.Err? ==> !r.error.UndefinedVariable? && consumed <= r.error.selector
    decreases |names|
  {
    if names == [] then Ok(cur)
    else
      match Step(g, cur, consumed, names[0], langcode)
      case Err(e) => Err(e)
      case Ok(next) => Walk(g, next, consumed + [Sep] + names[0], names[1..], langcode)
  }

  /** The prefix after walking `names` from `consumed`. */
  function Extend(consumed: string, names: seq<string>): string {
    if names == [] then consumed else consumed + [Sep] + Join(names)
  }

  /** Extending by the first segment and then the rest is extending by all of them. */
  lemma ExtendStep(consumed: string, names: seq<string>)
    requires names != []
    ensures Extend(consumed + [Sep] + names[0], names[1..]) == Extend(consumed, names)
  {
    if names[1..] != [] {
      var j := Join(names[1..]);
      assert Join(names) == names[0] + [Sep] + j;
      calc {
        Extend(consumed + [Sep] + names[0], names[1..]);
        (consumed + [Sep] + names[0]) + [Sep] + j;
        { assert (consumed + [Sep]) + names[0] + [Sep] + j == (consumed + [Sep]) + (names[0] + [Sep] + j); }
        (consumed + [Sep]) + (names[0] + [Sep] + j);
      }
    }
  }

  /**
   * `applyDataSelector($selector, $langcode)`. The undefined-variable error
   * arises exactly when the head is unbound, and names the head.
   */
  function Resolve(vars: map<string, NodeId>, g: Graph, selector: string, langcode: Langcode): (r: Result<Cursor, Error>)
    ensures (r.Err? && r.error.UndefinedVariable?) <==> SplitFirst(selector).0 !in vars
    ensures r.Err? && r.error.UndefinedVariable? ==> r.error.name == SplitFirst(selector).0
  {
    var (head, rest) := SplitFirst(selector);
    if head !in vars then Err(UndefinedVariable(head))
    else if rest.None? then Ok(Some(vars[head]))
    else Walk(g, Some(vars[head]), head, Split(rest.value), langcode)
  }

  /**
   * The message of a failed segment names the selector up to that segment:
   * the prefix before it for a NULL reference, and the prefix through it,
   * `:name` included, when the data is not structured or the lookup fails.
   */
  lemma StepErrorMessage(g: Graph, cur: Cursor, consumed: string, name: string, langcode: Langcode)
    requires Step(g, cur, consumed, name, langcode).Err?
    ensures var e := Step(g, cur, consumed, name, langcode).error;
            var lead := SelectorLead + consumed;
            && lead <= Message(e)
            && (!e.NullReference? ==> lead + [Sep] + name <= Message(e))
  {
    var e := Step(g, cur, consumed, name, langcode).error;
    var lead := SelectorLead + consumed;
    if e.NullReference? {
      assert e.selector == consumed;
    } else {
      assert e.selector == consumed + [Sep] + name;
      var through := lead + [Sep] + name;
      assert SelectorLead + e.selector == through;
      assert through[..|lead|] == lead;
    }
  }

  /** Dereferencing an object of a closed graph lands on an object. */
  lemma DereferenceStaysInGraph(g: Graph, cur: Cursor, consumed: string)
    requires Closed(g) && Contains(g, cur)
    ensures Dereference(g, cur, consumed).Ok? ==> Contains(g, Dereference(g, cur, consumed).value)
  {
    if cur.Some? {
      assert NodeClosed(g, g[cur.value]);
      assert Contains(g, g[cur.value].target);
    }
  }

  /** Localizing an object of a closed graph lands on an object. */
  lemma LocalizeStaysInGraph(g: Graph, cur: Cursor, langcode: Langcode)
    requires Closed(g) && Contains(g, cur)
    ensures Contains(g, Localize(g, cur, langcode))
  {
    if cur.Some? {
      var n := g[cur.value];
      assert NodeClosed(g, n);
      if langcode in n.translations {
        assert n.translations[langcode] in n.translations.Values;
      }
    }
  }

  /** Forwarding a list of a closed graph lands on an object or on NULL. */
  lemma ForwardStaysInGraph(g: Graph, cur: Cursor, name: string)
    requires Closed(g) && Contains(g, cur)
    ensures Contains(g, ForwardToFirstItem(g, cur, name))
  {
    if cur.Some? {
      assert NodeClosed(g, g[cur.value]);
      assert Contains(g, g[cur.value].first);
    }
  }

  /** A child found by name is an object of the graph that holds its parent. */
  lemma FoundChildInGraph(g: Graph, n: Node, name: string)
    requires NodeClosed(g, n)
    requires name in n.children && n.children[name].Found?
    ensures n.children[name].child in g
  {
    assert n.children[name] in n.children.Values;
  }

  /** Descending from an object of a closed graph lands on an object or on NULL. */
  lemma DescendStaysInGraph(g: Graph, cur: Cursor, consumed: string, name: string)
    requires Closed(g) && Contains(g, cur)
    ensures Descend(g, cur, consumed, name).Ok? ==> Contains(g, Descend(g, cur, consumed, name).value)
  {
    if cur.Some? {
      var n := g[cur.value];
      assert NodeClosed(g, n);
      if name in n.children && n.children[name].Found? {
        FoundChildInGraph(g, n, name);
      }
    }
  }

  /** In a closed graph, every step from an object lands on an object or on NULL. */
  lemma StepStaysInGraph(g: Graph, cur: Cursor, consumed: string, name: string, langcode: Langcode)
    requires Closed(g) && Contains(g, cur)
    ensures Step(g, cur, consumed, name, langcode).Ok? ==> Contains(g, Step(g, cur, consumed, name, langcode).value)
  {
    DereferenceStaysInGraph(g, cur, consumed);
    var d := Dereference(g, cur, consumed);
    if d.Ok? {
      LocalizeStaysInGraph(g, d.value, langcode);
      var l := Localize(g, d.value, langcode);
      ForwardStaysInGraph(g, l, name);
      DescendStaysInGraph(g, ForwardToFirstItem(g, l, name), consumed + [Sep] + name, name);
    }
  }

  /** In a closed graph, a walk from an object ends on an object or on NULL. */
  lemma {:induction false} WalkStaysInGraph(g: Graph, cur: Cursor, consumed: string, names: seq<string>, langcode: Langcode)
    requires Closed(g) && Contains(g, cur)
    ensures Walk(g, cur, consumed, names, langcode).Ok? ==> Contains(g, Walk(g, cur, consumed, names, langcode).value)
    decreases |names|
  {
    if names != [] {
      StepStaysInGraph(g, cur, consumed, names[0], langcode);
      var step := Step(g, cur, consumed, names[0], langcode);
      if step.Ok? {
        WalkStaysInGraph(g, step.value, consumed + [Sep] + names[0], names[1..], langcode);
      }
    }
  }

  /**
   * When every variable and every handle names a live object, a successful
   * resolution yields a live object or NULL, never a dangling handle.
   */
  lemma ResolveStaysInGraph(vars: map<string, NodeId>, g: Graph, s: string, langcode: Langcode)
    requires Closed(g) && Bound(vars, g)
    ensures Resolve(vars, g, s, langcode).Ok? ==> Contains(g, Resolve(vars, g, s, langcode).value)
  {
    var (head, rest) := SplitFirst(s);
    if head in vars && rest.Some? {
      WalkStaysInGraph(g, Some(vars[head]), head, Split(rest.value), langcode);
    }
  }

  /** `consumed` is `s` cut at a segment boundary. */
  predicate SegmentPrefix(consumed: string, s: string) {
    consumed <= s && (|consumed| == |s| || s[|consumed|] == Sep)
  }

  /** Walking one more segment is one more step from where the walk ended. */
  lemma {:induction false} WalkAppend(g: Graph, cur: Cursor, consumed: string, names: seq<string>, name: string, langcode: Langcode)
    ensures Walk(g, cur, consumed, names + [name], langcode) ==
            match Walk(g, cur, consumed, names, langcode)
            case Err(e) => Err(e)
            case Ok(c) => Step(g, c, Extend(consumed, names), name, langcode)
    decreases |names|
  {
    if names == [] {
      assert names + [name] == [name];
      assert [name][1..] == [];
    } else {
      var all := names + [name];
      assert all[0] == names[0] && all[1..] == names[1..] + [name];
      var step := Step(g, cur, consumed, names[0], langcode);
      if step.Ok? {
        WalkAppend(g, step.value, consumed + [Sep] + names[0], names[1..], name, langcode);
        ExtendStep(consumed, names);
      }
    }
  }

  /**
   * Resolving `s:name` is resolving `s` and then one step for `name`, with
   * `s` as the prefix consumed so far: errors of `s` propagate unchanged.
   */
  lemma ResolveAppend(vars: map<string, NodeId>, g: Graph, s: string, name: string, langcode: Langcode)
    requires Sep !in name
    ensures Resolve(vars, g, s + [Sep] + name, langcode) ==
            match Resolve(vars, g, s, langcode)
            case Err(e) => Err(e)
            case Ok(c) => Step(g, c, s, name, langcode)
  {
    var (head, rest) := SplitFirst(s);
    if rest.None? {
      SplitFirstAt(head, name);
      SplitNoSep(name);
      if head in vars {
        var v := Some(vars[head]);
        assert Split(name)[1..] == [];
        match Step(g, v, head, name, langcode)
        case Err(e) =>
        case Ok(c) =>
          assert Walk(g, c, head + [Sep] + name, [], langcode) == Ok(c);
      }
    } else {
      var r := rest.value;
      assert s + [Sep] + name == head + [Sep] + (r + [Sep] + name);
      SplitFirstAt(head, r + [Sep] + name);
      SplitAppend(r, name);
      if head in vars {
        WalkAppend(g, Some(vars[head]), head, Split(r), name, langcode);
        SplitJoin(r);
      }
    }
  }

  /** The prefix named by a failed walk lies between the start prefix and the walked path. */
  lemma {:induction false} WalkErrorPrefix(g: Graph, cur: Cursor, consumed: string, names: seq<string>, langcode: Langcode)
    requires Walk(g, cur, consumed, names, langcode).Err?
    ensures var e := Walk(g, cur, consumed, names, langcode).error;
            && !e.UndefinedVariable?
            && consumed <= e.selector
            && (e.NullReference? ==> e.selector + [Sep] <= Extend(consumed, names))
            && (!e.NullReference? ==> consumed + [Sep] <= e.selector && SegmentPrefix(e.selector, Extend(consumed, names)))
    decreases |names|
  {
    var full := Extend(consumed, names);
    var c' := consumed + [Sep] + names[0];
    if |names| == 1 {
      assert full == c';
    } else {
      assert Join(names) == names[0] + [Sep] + Join(names[1..]);
      assert full == c' + [Sep] + Join(names[1..]);
    }
    assert consumed + [Sep] <= c' <= full;
    match Step(g, cur, consumed, names[0], langcode)
    case Err(e) =>
      if !e.NullReference? {
        assert e.selector == c';
        assert |c'| == |full| || full[|c'|] == Sep;
      }
    case Ok(next) =>
      WalkErrorPrefix(g, next, c', names[1..], langcode);
      assert Extend(c', names[1..]) == full;
  }

  /**
   * Every resolution error names a prefix of the selector: the head for an
   * unbound variable, the prefix before the failing segment for a NULL
   * reference, and the prefix through the failing segment otherwise.
   */
  lemma ResolveErrorPrefix(vars: map<string, NodeId>, g: Graph, s: string, langcode: Langcode)
    requires Resolve(vars, g, s, langcode).Err?
    ensures var e := Resolve(vars, g, s, langcode).error;
            && (e.UndefinedVariable? ==> e.name == SplitFirst(s).0 && e.name !in vars)
            && (e.NullReference? ==> e.selector + [Sep] <= s)
            && (!e.UndefinedVariable? && !e.NullReference? ==> SegmentPrefix(e.selector, s))
            && (!e.UndefinedVariable? ==> SplitFirst(s).0 + [Sep] <= s)
  {
    var (head, rest) := SplitFirst(s);
    if head in vars && rest.Some? {
      var names := Split(rest.value);
      WalkErrorPrefix(g, Some(vars[head]), head, names, langcode);
      SplitJoin(rest.value);
      assert Extend(head, names) == s;
    }
  }

  /**
   * A selector without a separator is `getVariable`: the bound data with no
   * traversal, or the undefined-variable error.
   */
  lemma ResolveVariable(vars: map<string, NodeId>, g: Graph, s: string, langcode: Langcode)
    requires Sep !in s
    ensures s in vars ==> Resolve(vars, g, s, langcode) == Ok(Some(vars[s]))
    ensures s !in vars ==> Resolve(vars, g, s, langcode) == Err(UndefinedVariable(s))
  {
  }

  /** Whatever follows it, an unbound head fails with the undefined-variable error. */
  lemma ResolveUnboundHead(vars: map<string, NodeId>, g: Graph, head: string, rest: string, langcode: Langcode)
    requires Sep !in head && head !in vars
    ensures Resolve(vars, g, head + [Sep] + rest, langcode) == Err(UndefinedVariable(head))
  {
    SplitFirstAt(head, rest);
  }

  /**
   * A reference is dereferenced once, before anything else: a NULL target
   * fails naming the prefix before the segment; otherwise the other three
   * stages run on the target itself, even if the target is a reference too.
   */
  lemma ResolveDereference(vars: map<string, NodeId>, g: Graph, s: string, name: string, langcode: Langcode, id: NodeId)
    requires Sep !in name
    requires Resolve(vars, g, s, langcode) == Ok(Some(id))
    requires id in g
    requires g[id].isReference
    ensures g[id].target.None? ==>
              Resolve(vars, g, s + [Sep] + name, langcode) == Err(NullReference(s))
    ensures g[id].target.Some? ==>
              Resolve(vars, g, s + [Sep] + name, langcode) ==
              Descend(g, ForwardToFirstItem(g, Localize(g, g[id].target, langcode), name), s + [Sep] + name, name)
  {
    ResolveAppend(vars, g, s, name, langcode);
  }

  /**
   * Translatable data switches to the requested translation only when it
   * exists; otherwise resolution goes on with the same data, and the missing
   * translation is never an error.
   */
  lemma ResolveTranslation(vars: map<string, NodeId>, g: Graph, s: string, name: string, langcode: Langcode, id: NodeId)
    requires Sep !in name
    requires Resolve(vars, g, s, langcode) == Ok(Some(id))
    requires id in g
    requires !g[id].isReference && g[id].isTranslatable
    ensures langcode in g[id].translations ==>
              Resolve(vars, g, s + [Sep] + name, langcode) ==
              Descend(g, ForwardToFirstItem(g, Some(g[id].translations[langcode]), name), s + [Sep] + name, name)
    ensures langcode !in g[id].translations ==>
              Resolve(vars, g, s + [Sep] + name, langcode) ==
              Descend(g, ForwardToFirstItem(g, Some(id), name), s + [Sep] + name, name)
  {
    ResolveAppend(vars, g, s, name, langcode);
  }

  /**
   * A list addressed by a segment that is not all digits (the empty segment
   * included) is replaced by its item 0 before the lookup; an all-digit
   * segment is looked up on the list itself.
   */
  lemma ResolveListForwarding(vars: map<string, NodeId>, g: Graph, s: string, name: string, langcode: Langcode, id: NodeId)
    requires Sep !in name
    requires Resolve(vars, g, s, langcode) == Ok(Some(id))
    requires id in g
    requires !g[id].isReference && !g[id].isTranslatable && g[id].isList
    ensures name == [] ==> !IsDigits(name)
    ensures !IsDigits(name) ==>
              Resolve(vars, g, s + [Sep] + name, langcode) == Descend(g, g[id].first, s + [Sep] + name, name)
    ensures IsDigits(name) ==>
              Resolve(vars, g, s + [Sep] + name, langcode) ==
              match Get(g[id], name)
              case Found(child) => Ok(Some(child))
              case Null => Ok(None)
              case Invalid(reason) => Err(LookupFailed(s + [Sep] + name, reason))
  {
    ResolveAppend(vars, g, s, name, langcode);
  }

  /**
   * Descent happens only into a list or complex structure; anything else,
   * NULL included, fails. A failed child lookup is wrapped. In both errors the
   * reported prefix already ends with the failing segment.
   */
  lemma ResolveDescent(vars: map<string, NodeId>, g: Graph, s: string, name: string, langcode: Langcode)
    requires Sep !in name
    requires Resolve(vars, g, s, langcode).Ok?
    ensures var n := At(g, Resolve(vars, g, s, langcode).value);
            && (n.None? ==>
                  Resolve(vars, g, s + [Sep] + name, langcode) == Err(NotStructured(s + [Sep] + name, name)))
            && (n.Some? && !n.value.isReference && !n.value.isTranslatable
                && !n.value.isList && !n.value.isComplex ==>
                  Resolve(vars, g, s + [Sep] + name, langcode) == Err(NotStructured(s + [Sep] + name, name)))
            && (n.Some? && !n.value.isReference && !n.value.isTranslatable
                && !n.value.isList && n.value.isComplex ==>
                  Resolve(vars, g, s + [Sep] + name, langcode) ==
                  match Get(n.value, name)
                  case Found(child) => Ok(Some(child))
                  case Null => Ok(None)
                  case Invalid(reason) => Err(LookupFailed(s + [Sep] + name, reason)))
  {
    ResolveAppend(vars, g, s, name, langcode);
  }
}
