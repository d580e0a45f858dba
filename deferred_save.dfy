/**
 * The deferred-save set of the execution state: selectors marked with
 * `saveChangesLater`, kept once each in first-marking order, and the commit
 * that `autoSave` performs over them.
 */
module DeferredSave {
  import opened Wrappers
  import opened TypedData
  import opened Resolution

  /** No selector occurs twice. */
  predicate Distinct(pending: seq<string>) {
    forall i, j :: 0 <= i < j < |pending| ==> pending[i] != pending[j]
  }

  /**
   * `$saveLater[$selector] = TRUE`: a new selector joins at the end, a
   * selector already marked keeps its place.
   */
  function MarkLater(pending: seq<string>, selector: string): (r: seq<string>)
    ensures selector in r
    ensures forall s :: s in r <==> s in pending || s == selector
    ensures pending <= r
    ensures selector in pending ==> r == pending
    ensures Distinct(pending) ==> Distinct(r)
  {
    if selector in pending then pending else pending + [selector]
  }

  /** Marking a selector twice is marking it once. */
  lemma MarkLaterIdempotent(pending: seq<string>, selector: string)
    ensures MarkLater(MarkLater(pending, selector), selector) == MarkLater(pending, selector)
  {
  }

  /**
   * What one `autoSave()` does: the values whose `save()` ran, in order, and
   * the resolution error that stopped it, if any.
   */
  datatype SaveOutcome = SaveOutcome(saved: seq<ValueId>, failure: Option<Error>)

  /** The resolution of every marked selector, with the default language code, against the data as it is now. */
  function Resolutions(vars: map<string, NodeId>, g: Graph, pending: seq<string>): (rs: seq<Result<Cursor, Error>>)
    ensures |rs| == |pending|
    decreases |pending|
  {
    if pending == [] then [] else [Resolve(vars, g, pending[0], DefaultLangcode)] + Resolutions(vars, g, pending[1..])
  }

  /** Each marked selector is resolved on its own. */
  lemma {:induction false} ResolutionAt(vars: map<string, NodeId>, g: Graph, pending: seq<string>, i: nat)
    requires i < |pending|
    ensures Resolutions(vars, g, pending)[i] == Resolve(vars, g, pending[i], DefaultLangcode)
    decreases i
  {
    if i > 0 {
      ResolutionAt(vars, g, pending[1..], i - 1);
    }
  }

  /** A successful resolution is NULL or a live object with a live root. */
  predicate LiveResult(g: Graph, r: Result<Cursor, Error>) {
    r.Ok? && r.value.Some? ==> Saveable(g, r.value.value)
  }

  /** Every resolution is live. */
  ghost predicate Live(g: Graph, rs: seq<Result<Cursor, Error>>) {
    forall i :: 0 <= i < |rs| ==> LiveResult(g, rs[i])
  }

  /** The resolutions of marked selectors, concatenated, are those of the concatenation. */
  lemma {:induction false} ResolutionsAppend(vars: map<string, NodeId>, g: Graph, pending: seq<string>, later: seq<string>)
    ensures Resolutions(vars, g, pending + later) == Resolutions(vars, g, pending) + Resolutions(vars, g, later)
    decreases |pending|
  {
    if pending == [] {
      assert pending + later == later;
    } else {
      var all := pending + later;
      assert all[0] == pending[0] && all[1..] == pending[1..] + later;
      ResolutionsAppend(vars, g, pending[1..], later);
    }
  }

  /** In a closed graph the resolutions of the marked selectors are live. */
  lemma ResolutionsLive(vars: map<string, NodeId>, g: Graph, pending: seq<string>)
    requires Closed(g) && Bound(vars, g)
    ensures Live(g, Resolutions(vars, g, pending))
  {
    forall i | 0 <= i < |pending|
      ensures LiveResult(g, Resolutions(vars, g, pending)[i])
    {
      ResolutionAt(vars, g, pending, i);
      ResolveStaysInGraph(vars, g, pending[i], DefaultLangcode);
      var r := Resolve(vars, g, pending[i], DefaultLangcode);
      if r.Ok? && r.value.Some? {
        ClosedSaveable(g, r.value.value);
      }
    }
  }

  /**
   * The commit over the resolutions, in marking order: a NULL result is
   * skipped, a non-NULL one has its root saved, and the first error stops
   * the commit.
   */
  function Commit(g: Graph, rs: seq<Result<Cursor, Error>>): (r: SaveOutcome)
    requires Live(g, rs)
    ensures |r.saved| <= |rs|
    ensures r.failure.Some? ==> exists i :: 0 <= i < |rs| && rs[i] == Err(r.failure.value)
    decreases |rs|
  {
    if rs == [] then SaveOutcome([], None)
    else
      var rest := Commit(g, rs[1..]);
      assert forall k :: 0 <= k < |rs[1..]| ==> rs[1..][k] == rs[k + 1];
      match rs[0]
      case Err(e) => SaveOutcome([], Some(e))
      case Ok(None) => rest
      case Ok(Some(id)) => SaveOutcome([RootValue(g, id)] + rest.saved, rest.failure)
  }

  /** Saves already made, followed by the outcome of the rest of the commit. */
  function After(saved: seq<ValueId>, rest: SaveOutcome): SaveOutcome {
    SaveOutcome(saved + rest.saved, rest.failure)
  }

  /** Saves made in two rounds are the saves of both, in order. */
  lemma AfterAfter(first: seq<ValueId>, second: seq<ValueId>, rest: SaveOutcome)
    ensures After(first, After(second, rest)) == After(first + second, rest)
  {
    assert first + (second + rest.saved) == first + second + rest.saved;
  }

  /** The commit from position `i` on, one resolution at a time. */
  lemma CommitFrom(g: Graph, rs: seq<Result<Cursor, Error>>, i: nat)
    requires Live(g, rs) && i < |rs|
    ensures Live(g, rs[i..]) && Live(g, rs[i + 1..]) && LiveResult(g, rs[i])
    ensures Commit(g, rs[i..]) ==
            if rs[i].Err? then SaveOutcome([], Some(rs[i].error))
            else if rs[i].value.None? then Commit(g, rs[i + 1..])
            else After([RootValue(g, rs[i].value.value)], Commit(g, rs[i + 1..]))
  {
    var from, tail := rs[i..], rs[i + 1..];
    assert forall k :: 0 <= k < |from| ==> from[k] == rs[i + k];
    assert forall k :: 0 <= k < |tail| ==> tail[k] == rs[i + 1 + k];
    assert from[0] == rs[i] && from[1..] == tail;
  }

  /**
   * One iteration of the `autoSave()` loop, for an outcome `plan` that is the
   * saves made so far followed by the commit from position `i` on: an error
   * ends it, NULL leaves the saves as they are, and data adds its root's save.
   */
  lemma CommitStep(g: Graph, rs: seq<Result<Cursor, Error>>, i: nat, saved: seq<ValueId>, plan: SaveOutcome)
    requires Live(g, rs) && i < |rs|
    requires plan == After(saved, Commit(g, rs[i..]))
    ensures Live(g, rs[i + 1..]) && LiveResult(g, rs[i])
    ensures rs[i].Err? ==> plan == SaveOutcome(saved, Some(rs[i].error))
    ensures rs[i].Ok? && rs[i].value.None? ==> plan == After(saved, Commit(g, rs[i + 1..]))
    ensures rs[i].Ok? && rs[i].value.Some? ==>
              plan == After(saved + [RootValue(g, rs[i].value.value)], Commit(g, rs[i + 1..]))
  {
    CommitFrom(g, rs, i);
    if rs[i].Ok? && rs[i].value.Some? {
      AfterAfter(saved, [RootValue(g, rs[i].value.value)], Commit(g, rs[i + 1..]));
    }
  }

  /** What `autoSave()` does with the marked selectors `pending`. */
  function AutoSavePlan(vars: map<string, NodeId>, g: Graph, pending: seq<string>): (r: SaveOutcome)
    requires Closed(g) && Bound(vars, g)
    ensures |r.saved| <= |pending|
    ensures r.failure.Some? ==>
              exists i :: 0 <= i < |pending| && Resolutions(vars, g, pending)[i] == Err(r.failure.value)
  {
    ResolutionsLive(vars, g, pending);
    Commit(g, Resolutions(vars, g, pending))
  }

  /**
   * The outcome after one more resolution `last`, given the outcome `before`
   * of the earlier ones: nothing changes once the commit has stopped; an error
   * stops it; NULL is skipped; data has its root saved after the earlier saves.
   */
  function Then(g: Graph, before: SaveOutcome, last: Result<Cursor, Error>): SaveOutcome
    requires LiveResult(g, last)
  {
    if before.failure.Some? then before
    else if last.Err? then SaveOutcome(before.saved, Some(last.error))
    else if last.value.None? then before
    else SaveOutcome(before.saved + [RootValue(g, last.value.value)], None)
  }

  /** Live resolutions, concatenated, are live. */
  lemma LiveAppend(g: Graph, rs: seq<Result<Cursor, Error>>, later: seq<Result<Cursor, Error>>)
    requires Live(g, rs) && Live(g, later)
    ensures Live(g, rs + later)
  {
    var all := rs + later;
    forall i | 0 <= i < |all|
      ensures LiveResult(g, all[i])
    {
      if i < |rs| {
        assert all[i] == rs[i];
      } else {
        assert all[i] == later[i - |rs|];
      }
    }
  }

  /** A save made before the outcome `rest` stays in front after one more resolution. */
  lemma ThenAfterSave(g: Graph, v: ValueId, rest: SaveOutcome, last: Result<Cursor, Error>)
    requires LiveResult(g, last)
    ensures Then(g, SaveOutcome([v] + rest.saved, rest.failure), last) ==
            SaveOutcome([v] + Then(g, rest, last).saved, Then(g, rest, last).failure)
  {
    if rest.failure.None? && last.Ok? && last.value.Some? {
      var w := RootValue(g, last.value.value);
      assert [v] + rest.saved + [w] == [v] + (rest.saved + [w]);
    }
  }

  /**
   * The commit proceeds in marking order: one more resolution leaves what the
   * earlier ones do untouched and adds at most one save or the stopping error
   * after them, unless an earlier one already stopped the commit.
   */
  lemma {:induction false} CommitAppend(g: Graph, rs: seq<Result<Cursor, Error>>, last: Result<Cursor, Error>)
    requires Live(g, rs) && LiveResult(g, last)
    ensures Live(g, rs + [last])
    ensures Commit(g, rs + [last]) == Then(g, Commit(g, rs), last)
    decreases |rs|
  {
    LiveAppend(g, rs, [last]);
    var all := rs + [last];
    if rs == [] {
      assert all == [last];
      assert all[1..] == [];
    } else {
      assert all[0] == rs[0] && all[1..] == rs[1..] + [last];
      LiveAppend(g, rs[1..], [last]);
      CommitAppend(g, rs[1..], last);
      if rs[0].Ok? && rs[0].value.Some? {
        ThenAfterSave(g, RootValue(g, rs[0].value.value), Commit(g, rs[1..]), last);
      }
    }
  }

  /** Once a resolution fails, the later selectors are never saved. */
  lemma {:induction false} CommitStopsAtFailure(g: Graph, rs: seq<Result<Cursor, Error>>, later: seq<Result<Cursor, Error>>)
    requires Live(g, rs) && Live(g, later)
    requires exists i :: 0 <= i < |rs| && rs[i].Err?
    ensures Live(g, rs + later)
    ensures Commit(g, rs + later) == Commit(g, rs)
    decreases |rs|
  {
    var all := rs + later;
    assert forall i :: 0 <= i < |rs| ==> all[i] == rs[i];
    assert forall i :: 0 <= i < |later| ==> all[|rs| + i] == later[i];
    assert all[0] == rs[0] && all[1..] == rs[1..] + later;
    if rs[0].Ok? {
      var i :| 0 <= i < |rs| && rs[i].Err?;
      assert rs[1..][i - 1] == rs[i];
      assert forall k :: 0 <= k < |all[1..]| ==> all[1..][k] == all[k + 1];
      CommitStopsAtFailure(g, rs[1..], later);
    }
  }

  /**
   * When every resolution yields data, the commit succeeds and saves the root
   * of each one, one save per selector in marking order, even when two
   * selectors share a root.
   */
  lemma {:induction false} CommitSavesEveryRoot(g: Graph, rs: seq<Result<Cursor, Error>>)
    requires Live(g, rs)
    requires forall i :: 0 <= i < |rs| ==> rs[i].Ok? && rs[i].value.Some?
    ensures Commit(g, rs).failure.None?
    ensures |Commit(g, rs).saved| == |rs|
    ensures forall i :: 0 <= i < |rs| ==>
              rs[i].value.value in g && Commit(g, rs).saved[i] == RootValue(g, rs[i].value.value)
    decreases |rs|
  {
    if rs != [] {
      var tail := rs[1..];
      assert forall k :: 0 <= k < |tail| ==> tail[k] == rs[k + 1];
      CommitSavesEveryRoot(g, tail);
      var rest := Commit(g, tail);
      assert LiveResult(g, rs[0]);
      var first := RootValue(g, rs[0].value.value);
      assert Commit(g, rs) == SaveOutcome([first] + rest.saved, rest.failure);
      SavedShift(g, rs, first, rest.saved);
    }
  }

  lemma SavedShift(g: Graph, rs: seq<Result<Cursor, Error>>, first: ValueId, saved: seq<ValueId>)
    requires Live(g, rs) && |rs| == |saved| + 1
    requires forall i :: 0 <= i < |rs| ==> rs[i].Ok? && rs[i].value.Some?
    requires first == RootValue(g, rs[0].value.value)
    requires forall i :: 0 <= i < |saved| ==> saved[i] == RootValue(g, rs[i + 1].value.value)
    ensures forall i :: 0 <= i < |rs| ==>
              rs[i].value.value in g && ([first] + saved)[i] == RootValue(g, rs[i].value.value)
  {
    forall i | 0 <= i < |rs|
      ensures rs[i].value.value in g && ([first] + saved)[i] == RootValue(g, rs[i].value.value)
    {
      assert LiveResult(g, rs[i]);
    }
  }

  /** A single mark has its own resolution only. */
  lemma ResolutionsSingle(vars: map<string, NodeId>, g: Graph, selector: string)
    ensures Resolutions(vars, g, [selector]) == [Resolve(vars, g, selector, DefaultLangcode)]
  {
    assert [selector][1..] == [];
  }

  /** A marked selector whose data is NULL at commit time adds no save and no error. */
  lemma AutoSaveSkipsNull(vars: map<string, NodeId>, g: Graph, pending: seq<string>, selector: string)
    requires Closed(g) && Bound(vars, g)
    requires Resolve(vars, g, selector, DefaultLangcode) == Ok(None)
    ensures AutoSavePlan(vars, g, pending + [selector]) == AutoSavePlan(vars, g, pending)
  {
    var rs := Resolutions(vars, g, pending);
    ResolutionsAppend(vars, g, pending, [selector]);
    ResolutionsSingle(vars, g, selector);
    ResolutionsLive(vars, g, pending);
    CommitAppend(g, rs, Ok(None));
  }

  /** A failing resolution after a commit that has not stopped stops it with that error, whatever follows. */
  lemma CommitStopsWithError(g: Graph, rs: seq<Result<Cursor, Error>>, e: Error, later: seq<Result<Cursor, Error>>)
    requires Live(g, rs) && Live(g, later)
    requires Commit(g, rs).failure.None?
    ensures Live(g, rs + [Err(e)] + later)
    ensures Commit(g, rs + [Err(e)] + later) == SaveOutcome(Commit(g, rs).saved, Some(e))
  {
    var upto := rs + [Err(e)];
    CommitAppend(g, rs, Err(e));
    assert upto[|rs|].Err?;
    CommitStopsAtFailure(g, upto, later);
  }

  /** A marked selector that fails to resolve at commit time stops the commit with its error. */
  lemma AutoSaveStopsAtError(vars: map<string, NodeId>, g: Graph, pending: seq<string>, selector: string, later: seq<string>, e: Error)
    requires Closed(g) && Bound(vars, g)
    requires AutoSavePlan(vars, g, pending).failure.None?
    requires Resolve(vars, g, selector, DefaultLangcode) == Err(e)
    ensures AutoSavePlan(vars, g, pending + [selector] + later) ==
            SaveOutcome(AutoSavePlan(vars, g, pending).saved, Some(e))
  {
    ResolutionsAppend(vars, g, pending, [selector]);
    ResolutionsSingle(vars, g, selector);
    ResolutionsAppend(vars, g, pending + [selector], later);
    ResolutionsLive(vars, g, pending);
    ResolutionsLive(vars, g, later);
    CommitStopsWithError(g, Resolutions(vars, g, pending), e, Resolutions(vars, g, later));
  }
}
