/**
 What an update keeps of a tool's existing entries besides those the merge keeps (src/lockfile.rs, 3999-4015
 and 5161-5231).
 */
module Preserving {
  import opened Entries
  import opened ToolLists
  import opened Wrappers

  // ----- entries of a shared lockfile that this run cannot see -----

  /** Existing entries whose key is absent and whose data did not all move, and all of it sorted. */
  function WithAbsent(merged: seq<LockfileTool>, existing: seq<LockfileTool>, consumed: set<ToolKey>): seq<LockfileTool> {
    SortByKey(AppendAbsent(merged, Filter(existing, (t: LockfileTool) => t.Key() !in consumed)))
  }

  method PreserveAbsentToolEntries(merged: seq<LockfileTool>, existing: seq<LockfileTool>, consumed: set<ToolKey>)
    returns (tools: seq<LockfileTool>)
    ensures tools == WithAbsent(merged, existing, consumed)
  {
    tools := merged;
    ghost var keep := (t: LockfileTool) => t.Key() !in consumed;
    for i := 0 to |existing|
      invariant tools == AppendAbsent(merged, Filter(existing[..i], keep))
    {
      assert existing[..i + 1][..i] == existing[..i];
      var at := Position(tools, existing[i].Key());
      FindAtIndex(tools, existing[i].Key());
      ghost var kept := Filter(existing[..i], keep);
      assert (kept + [existing[i]])[..|kept|] == kept;
      if at == |tools| && existing[i].Key() !in consumed {
        tools := tools + [existing[i]];
      }
    }
    assert existing[..|existing|] == existing;
    tools := SortByKey(tools);
  }

  /** Under each key is what was merged, else the existing entry unless it was consumed. */
  lemma AbsentAreKept(merged: seq<LockfileTool>, existing: seq<LockfileTool>, consumed: set<ToolKey>, k: ToolKey)
    requires DistinctKeys(merged) && DistinctKeys(existing)
    ensures var tools := WithAbsent(merged, existing, consumed);
      && StrictlySorted(tools)
      && Find(tools, k) == Find(merged, k).Or(if k in consumed then None else Find(existing, k))
  {
    var keep := (t: LockfileTool) => t.Key() !in consumed;
    var kept := Filter(existing, keep);
    AppendDistinct(merged, kept);
    SortIsSorted(AppendAbsent(merged, kept));
    FindSorted(AppendAbsent(merged, kept), k);
    FindAppended(merged, kept, k);
    FilterDistinct(existing, keep);
    FindIs(kept, k);
    FindIs(existing, k);
  }

  // ----- Python entries that only another tool selects -----

  /** A selected request: its selector, and the options its entry carries. */
  datatype Selected = Selected(specifier: string, options: Options)

  predicate Binds(t: LockfileTool, r: Selected) {
    t.options == r.options && r.specifier in t.specifiers
  }

  predicate BindsSome(tools: seq<LockfileTool>, r: Selected) {
    exists t :: t in tools && Binds(t, r)
  }

  /** The selected requests that this update did not lock itself. */
  function Unlocked(merged: seq<LockfileTool>, selected: set<Selected>): set<Selected> {
    set r | r in selected && !BindsSome(merged, r)
  }

  /** The entry with only the requests it is kept for. */
  function Narrowed(t: LockfileTool, unlocked: set<Selected>): LockfileTool {
    t.(specifiers := set s | s in t.specifiers && Selected(s, t.options) in unlocked)
  }

  function Narrow(existing: seq<LockfileTool>, unlocked: set<Selected>): seq<LockfileTool> {
    if existing == [] then []
    else
      var front, last := Narrow(existing[..|existing| - 1], unlocked), Narrowed(existing[|existing| - 1], unlocked);
      if last.specifiers == {} then front else front + [last]
  }

  lemma {:induction false} NarrowIs(existing: seq<LockfileTool>, unlocked: set<Selected>, n: LockfileTool)
    ensures n in Narrow(existing, unlocked) <==>
      n.specifiers != {} && exists t :: t in existing && n == Narrowed(t, unlocked)
  {
    if existing != [] {
      var front, last := existing[..|existing| - 1], existing[|existing| - 1];
      NarrowIs(front, unlocked, n);
      assert existing == front + [last];
    }
  }

  function WithSelected(merged: seq<LockfileTool>, existing: seq<LockfileTool>, selected: set<Selected>): seq<LockfileTool> {
    AppendAbsent(merged, Narrow(existing, Unlocked(merged, selected)))
  }

  method PreserveSelectedPythonEntries(merged: seq<LockfileTool>, existing: seq<LockfileTool>, selected: set<Selected>)
    returns (tools: seq<LockfileTool>)
    ensures tools == WithSelected(merged, existing, selected)
  {
    tools := merged;
    var unlocked := set r | r in selected && !BindsSome(merged, r);
    for i := 0 to |existing|
      invariant tools == AppendAbsent(merged, Narrow(existing[..i], unlocked))
    {
      assert existing[..i + 1][..i] == existing[..i];
      var x := existing[i];
      var bound := set r | r in unlocked && Binds(x, r);
      ghost var narrow := Narrow(existing[..i], unlocked);
      assert (narrow + [Narrowed(x, unlocked)])[..|narrow|] == narrow;
      FindAtIndex(tools, x.Key());
      var at := Position(tools, x.Key());
      var t := x.(specifiers := set s | s in x.specifiers && exists r :: r in bound && r.specifier == s);
      assert t.specifiers == Narrowed(x, unlocked).specifiers by {
        assert forall s :: s in x.specifiers && Selected(s, x.options) in unlocked ==> Selected(s, x.options) in bound;
      }
      assert bound != {} <==> t.specifiers != {} by {
        if r :| r in bound {
          assert r.specifier in t.specifiers;
        }
      }
      if bound != {} && at == |tools| {
        tools := tools + [t];
      }
    }
    assert existing[..|existing|] == existing;
  }

  /** A selected request is bound afterwards exactly if the update locked it, or an existing entry binds it
      whose key the update did not lock. */
  lemma SelectedStaysBound(merged: seq<LockfileTool>, existing: seq<LockfileTool>, selected: set<Selected>, r: Selected)
    requires DistinctKeys(existing) && r in selected
    ensures BindsSome(WithSelected(merged, existing, selected), r) <==>
      BindsSome(merged, r) || exists x :: x in existing && Binds(x, r) && Find(merged, x.Key()).None?
  {
    forall t | t in merged
      ensures t in WithSelected(merged, existing, selected)
    {
      assert t in WithSelected(merged, existing, selected)[..|merged|];
    }
    if !BindsSome(merged, r) {
      if x :| x in existing && Binds(x, r) && Find(merged, x.Key()).None? {
        SelectedIsKept(merged, existing, selected, r, x);
      }
      if t :| t in WithSelected(merged, existing, selected) && Binds(t, r) {
        var narrow := Narrow(existing, Unlocked(merged, selected));
        AppendedIsAbsent(merged, narrow, t);
        NarrowIs(existing, Unlocked(merged, selected), t);
        var y :| y in existing && t == Narrowed(y, Unlocked(merged, selected));
        assert Binds(y, r);
      }
    }
  }

  lemma SelectedIsKept(merged: seq<LockfileTool>, existing: seq<LockfileTool>, selected: set<Selected>, r: Selected,
                       x: LockfileTool)
    requires DistinctKeys(existing) && r in selected && !BindsSome(merged, r)
    requires x in existing && Binds(x, r) && Find(merged, x.Key()).None?
    ensures BindsSome(WithSelected(merged, existing, selected), r)
  {
    var unlocked := Unlocked(merged, selected);
    var narrow := Narrow(existing, unlocked);
    var n := Narrowed(x, unlocked);
    assert Selected(r.specifier, x.options) == r && r in unlocked;
    assert r.specifier in n.specifiers;
    FindAppended(merged, narrow, x.Key());
    FindIs(narrow, x.Key());
    NarrowIs(existing, unlocked, n);
    assert n in narrow && n.Key() == x.Key();
    var found := Find(narrow, x.Key()).value;
    NarrowIs(existing, unlocked, found);
    var y :| y in existing && found == Narrowed(y, unlocked);
    assert y.Key() == x.Key();
    FindIs(existing, x.Key());
    FindIs(WithSelected(merged, existing, selected), x.Key());
    assert Binds(n, r);
  }

  /** The requests of an entry that are selected and that no locked entry of its options has. */
  ghost predicate KeptFor(merged: seq<LockfileTool>, selected: set<Selected>, x: LockfileTool, specifiers: set<string>) {
    forall s :: s in specifiers <==>
      (&& s in x.specifiers && Selected(s, x.options) in selected
       && forall m :: m in merged && m.options == x.options ==> s !in m.specifiers)
  }

  /** An entry that is added is an existing one of a key that was not locked, with those of its requests that
      another tool selects and that no locked entry of its options has, at least one. */
  lemma AddedIsNarrow(merged: seq<LockfileTool>, existing: seq<LockfileTool>, selected: set<Selected>, t: LockfileTool)
    requires t in WithSelected(merged, existing, selected) && t !in merged
    ensures Find(merged, t.Key()).None? && t.specifiers != {}
    ensures exists x :: x in existing && t == x.(specifiers := t.specifiers) && KeptFor(merged, selected, x, t.specifiers)
  {
    var unlocked := Unlocked(merged, selected);
    AppendedIsAbsent(merged, Narrow(existing, unlocked), t);
    NarrowIs(existing, unlocked, t);
    var x :| x in existing && t == Narrowed(x, unlocked);
    forall s
      ensures Selected(s, x.options) in unlocked <==>
        Selected(s, x.options) in selected && forall m :: m in merged && m.options == x.options ==> s !in m.specifiers
    {
    }
  }

  lemma {:induction false} AppendedIsAbsent(tools: seq<LockfileTool>, more: seq<LockfileTool>, t: LockfileTool)
    requires t in AppendAbsent(tools, more) && t !in tools
    ensures t in more && Find(tools, t.Key()).None?
  {
    var front, last := more[..|more| - 1], more[|more| - 1];
    assert more == front + [last];
    if t in AppendAbsent(tools, front) {
      AppendedIsAbsent(tools, front, t);
    } else {
      FindAppended(tools, front, t.Key());
    }
  }

  // ----- baselines -----

  method ReinsertDeferredBaselines(merged: seq<LockfileTool>, baselines: seq<LockfileTool>) returns (tools: seq<LockfileTool>)
    ensures tools == AppendAbsent(merged, baselines)
  {
    tools := merged;
    for i := 0 to |baselines|
      invariant tools == AppendAbsent(merged, baselines[..i])
    {
      assert baselines[..i + 1][..i] == baselines[..i];
      FindAtIndex(tools, baselines[i].Key());
      var at := Position(tools, baselines[i].Key());
      if at == |tools| {
        tools := tools + [baselines[i]];
      }
    }
    assert baselines[..|baselines|] == baselines;
  }
}
