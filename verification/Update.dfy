/** Writing freshly resolved entries of a tool into its lockfile (src/lockfile.rs, 3713-3786). */
module Update {
  import opened Entries
  import opened EntryMergeLaws
  import opened Lockfiles
  import opened Preserving
  import opened ProvenanceBaselines
  import opened ToolLists
  import opened Wrappers

  /** What an update of one tool is given: the fresh entries and how to rekey old ones, whether other projects
      share the lockfile, the Python requests other tools select, and the baselines the regression check
      deferred. */
  datatype Input = Input(context: Context, shared: bool, selected: set<Selected>, baselines: seq<LockfileTool>)

  /** The merged entries with what is preserved of the existing ones. */
  function Preserved(u: Input, existing: seq<LockfileTool>, merged: seq<LockfileTool>, consumed: set<ToolKey>): seq<LockfileTool> {
    var kept := if u.shared then WithAbsent(merged, existing, consumed) else merged;
    AppendAbsent(WithSelected(kept, existing, u.selected), u.baselines)
  }

  // ----- binding the fresh requests -----

  /** Every fresh entry's requests bound to it, in the order of the entries. */
  function BindAll(tools: seq<LockfileTool>, entries: seq<LockfileTool>): (r: seq<LockfileTool>)
    ensures |r| == |tools| && forall i :: 0 <= i < |r| ==> r[i].Key() == tools[i].Key()
  {
    if entries == [] then tools
    else
      var last := entries[|entries| - 1];
      Bound(BindAll(tools, entries[..|entries| - 1]), last.specifiers, last.Key())
  }

  lemma IndexFollowsKeys(tools: seq<LockfileTool>, others: seq<LockfileTool>, k: ToolKey)
    requires |tools| == |others| && forall i :: 0 <= i < |tools| ==> tools[i].Key() == others[i].Key()
    ensures IndexOf(tools, k) == IndexOf(others, k)
  {
  }

  lemma OneMoreBound(tools: seq<LockfileTool>, bound: set<string>, s: string, k: ToolKey)
    ensures Bound(Bound(tools, bound, k), {s}, k) == Bound(tools, bound + {s}, k)
  {
    var was, now := Bound(tools, bound, k), Bound(tools, bound + {s}, k);
    IndexFollowsKeys(tools, was, k);
    if IndexOf(tools, k) < |tools| {
      forall i | 0 <= i < |tools|
        ensures Bound(was, {s}, k)[i] == now[i]
      {
        assert tools[i].specifiers - bound - {s} == tools[i].specifiers - (bound + {s});
        assert tools[i].specifiers + bound + {s} == tools[i].specifiers + (bound + {s});
      }
    }
  }

  /** The result of an update that starts with this merge. */
  ghost predicate StartsWith(u: Input, versioned: bool, existing: seq<LockfileTool>, tools: seq<LockfileTool>,
                             merged: seq<LockfileTool>, consumed: set<ToolKey>) {
    && IsMerge(u.context, existing, merged)
    && (forall k :: k in consumed <==> IsConsumed(u.context, existing, k))
    && tools == Finished(u, versioned, Preserved(u, existing, merged, consumed))
  }

  ghost predicate IsUpdate(u: Input, versioned: bool, existing: seq<LockfileTool>, tools: seq<LockfileTool>) {
    exists merged, consumed :: StartsWith(u, versioned, existing, tools, merged, consumed)
  }

  function Finished(u: Input, versioned: bool, tools: seq<LockfileTool>): seq<LockfileTool> {
    if versioned then BindAll(tools, u.context.entries) else tools
  }

  method MergeAndPreserve(u: Input, existing: seq<LockfileTool>)
    returns (tools: seq<LockfileTool>, ghost merged: seq<LockfileTool>, ghost gone: set<ToolKey>)
    ensures IsMerge(u.context, existing, merged)
    ensures forall k :: k in gone <==> IsConsumed(u.context, existing, k)
    ensures tools == Preserved(u, existing, merged, gone)
  {
    var consumed;
    tools, consumed := MergeToolEntries(u.context, existing);
    merged, gone := tools, consumed;
    if u.shared {
      tools := PreserveAbsentToolEntries(tools, existing, consumed);
    }
    tools := PreserveSelectedPythonEntries(tools, existing, u.selected);
    tools := ReinsertDeferredBaselines(tools, u.baselines);
  }

  method UpdateTool(lockfile: Lockfile, short: string, u: Input)
    modifies lockfile`tools
    ensures short in lockfile.tools && lockfile.tools == old(lockfile.tools)[short := lockfile.tools[short]]
    ensures IsUpdate(u, lockfile.UsesRequestBindings(), EntriesOf(old(lockfile.tools), short), lockfile.tools[short])
  {
    ghost var existing := EntriesOf(lockfile.tools, short);
    var tools, merged, consumed := MergeAndPreserve(u, EntriesOf(lockfile.tools, short));
    lockfile.tools := lockfile.tools[short := tools];
    if lockfile.UsesRequestBindings() {
      BindFresh(lockfile, short, u.context.entries);
    }
    assert StartsWith(u, lockfile.UsesRequestBindings(), existing, lockfile.tools[short], merged, consumed);
  }

  method BindFresh(lockfile: Lockfile, short: string, entries: seq<LockfileTool>)
    requires lockfile.UsesRequestBindings() && short in lockfile.tools
    modifies lockfile`tools
    ensures lockfile.tools == old(lockfile.tools)[short := BindAll(old(lockfile.tools)[short], entries)]
  {
    ghost var before := lockfile.tools;
    for i := 0 to |entries|
      invariant lockfile.UsesRequestBindings()
      invariant lockfile.tools == before[short := BindAll(before[short], entries[..i])]
    {
      assert entries[..i + 1][..i] == entries[..i];
      BindEntry(lockfile, short, entries[i]);
    }
    assert entries[..|entries|] == entries;
  }

  method BindEntry(lockfile: Lockfile, short: string, e: LockfileTool)
    requires lockfile.UsesRequestBindings() && short in lockfile.tools
    modifies lockfile`tools
    ensures lockfile.tools == old(lockfile.tools)[short := Bound(old(lockfile.tools)[short], e.specifiers, e.Key())]
  {
    ghost var before := lockfile.tools;
    ghost var was := before[short];
    var todo := e.specifiers;
    NoneBound(was, e.Key());
    assert e.specifiers - todo == {} && before[short := was] == before;
    while todo != {}
      invariant todo <= e.specifiers && lockfile.UsesRequestBindings()
      invariant lockfile.tools == before[short := Bound(was, e.specifiers - todo, e.Key())]
      decreases todo
    {
      var s :| s in todo;
      ghost var bound := e.specifiers - todo;
      todo := todo - {s};
      var found := lockfile.BindRequest(short, s, e.Key());
      OneMoreBound(was, bound, s, e.Key());
      NotFoundNotBound(Bound(was, bound, e.Key()), s, e.Key());
      assert e.specifiers - todo == bound + {s};
    }
    assert e.specifiers - todo == e.specifiers;
  }

  lemma NoneBound(tools: seq<LockfileTool>, k: ToolKey)
    ensures Bound(tools, {}, k) == tools
  {
    forall i | 0 <= i < |tools|
      ensures Bound(tools, {}, k)[i] == tools[i]
    {
    }
  }

  lemma NotFoundNotBound(tools: seq<LockfileTool>, s: string, k: ToolKey)
    ensures Find(tools, k).None? ==> Bound(tools, {s}, k) == tools
  {
    FindAtIndex(tools, k);
  }

  // ----- what an update preserves -----

  /** An update never leaves two entries of one key, whatever was there. */
  lemma PreservedIsDistinct(u: Input, existing: seq<LockfileTool>, merged: seq<LockfileTool>, consumed: set<ToolKey>)
    requires DistinctKeys(merged)
    ensures DistinctKeys(Preserved(u, existing, merged, consumed))
  {
    var kept := if u.shared then WithAbsent(merged, existing, consumed) else merged;
    if u.shared {
      var rest := Filter(existing, (t: LockfileTool) => t.Key() !in consumed);
      AppendDistinct(merged, rest);
      SortIsSorted(AppendAbsent(merged, rest));
    }
    AppendDistinct(kept, Narrow(existing, Unlocked(kept, u.selected)));
    AppendDistinct(WithSelected(kept, existing, u.selected), u.baselines);
  }

  lemma UpdateIsDistinct(u: Input, versioned: bool, existing: seq<LockfileTool>, tools: seq<LockfileTool>)
    requires IsUpdate(u, versioned, existing, tools)
    ensures DistinctKeys(tools)
  {
    var merged, consumed :| StartsWith(u, versioned, existing, tools, merged, consumed);
    PreservedIsDistinct(u, existing, merged, consumed);
  }

  /** What was merged under a key is still found there before the requests are bound. */
  lemma MergedIsPreserved(u: Input, existing: seq<LockfileTool>, merged: seq<LockfileTool>, consumed: set<ToolKey>, k: ToolKey)
    requires IsMerge(u.context, existing, merged) && After(u.context, existing, k).Some?
    ensures Find(Preserved(u, existing, merged, consumed), k) == After(u.context, existing, k)
  {
    AfterIsFresh(u.context, existing, k);
    FindIs(merged, k);
    var kept := if u.shared then WithAbsent(merged, existing, consumed) else merged;
    if u.shared {
      var rest := Filter(existing, (t: LockfileTool) => t.Key() !in consumed);
      AppendDistinct(merged, rest);
      FindAppended(merged, rest, k);
      FindSorted(AppendAbsent(merged, rest), k);
    }
    FindAppended(kept, Narrow(existing, Unlocked(kept, u.selected)), k);
    FindAppended(WithSelected(kept, existing, u.selected), u.baselines, k);
  }

  lemma FreshKeyIsThere(u: Input, existing: seq<LockfileTool>, merged: seq<LockfileTool>, consumed: set<ToolKey>, e: LockfileTool)
    requires IsMerge(u.context, existing, merged) && e in u.context.entries
    ensures Find(Preserved(u, existing, merged, consumed), e.Key()).Some?
  {
    FreshAtIsFresh(u.context.entries, e.Key());
    AfterIsFresh(u.context, existing, e.Key());
    MergedIsPreserved(u, existing, merged, consumed, e.Key());
  }

  // ----- what becomes of the other existing entries -----

  /** Some tool selects a request of the entry, and nothing that was locked or kept has it. */
  ghost predicate SelectedHere(x: LockfileTool, kept: seq<LockfileTool>, selected: set<Selected>) {
    exists s :: s in x.specifiers && Selected(s, x.options) in selected && !BindsSome(kept, Selected(s, x.options))
  }

  lemma NarrowedHas(x: LockfileTool, kept: seq<LockfileTool>, selected: set<Selected>)
    ensures SelectedHere(x, kept, selected) <==> Narrowed(x, Unlocked(kept, selected)).specifiers != {}
  {
    var unlocked := Unlocked(kept, selected);
    var narrowed := Narrowed(x, unlocked);
    forall s
      ensures s in narrowed.specifiers <==>
        s in x.specifiers && Selected(s, x.options) in selected && !BindsSome(kept, Selected(s, x.options))
    {
    }
    if narrowed.specifiers != {} {
      var s :| s in narrowed.specifiers;
      assert s in x.specifiers;
    }
  }

  lemma NarrowHas(existing: seq<LockfileTool>, kept: seq<LockfileTool>, selected: set<Selected>, k: ToolKey)
    ensures Find(Narrow(existing, Unlocked(kept, selected)), k).Some? <==>
      exists x :: x in existing && x.Key() == k && SelectedHere(x, kept, selected)
  {
    var unlocked := Unlocked(kept, selected);
    var narrow := Narrow(existing, unlocked);
    FindIs(narrow, k);
    forall x: LockfileTool
      ensures SelectedHere(x, kept, selected) <==> Narrowed(x, unlocked).specifiers != {}
    {
      NarrowedHas(x, kept, selected);
    }
    if x :| x in existing && x.Key() == k && SelectedHere(x, kept, selected) {
      NarrowIs(existing, unlocked, Narrowed(x, unlocked));
    }
    if Find(narrow, k).Some? {
      NarrowIs(existing, unlocked, Find(narrow, k).value);
    }
  }

  lemma KeysPreserved(u: Input, existing: seq<LockfileTool>, merged: seq<LockfileTool>, consumed: set<ToolKey>, k: ToolKey)
    requires DistinctKeys(merged) && DistinctKeys(existing)
    ensures Find(Preserved(u, existing, merged, consumed), k).Some? <==>
      || Find(merged, k).Some? || Find(u.baselines, k).Some?
      || (u.shared && k !in consumed && Find(existing, k).Some?)
      || exists x :: x in existing && x.Key() == k
           && SelectedHere(x, if u.shared then WithAbsent(merged, existing, consumed) else merged, u.selected)
  {
    var kept := if u.shared then WithAbsent(merged, existing, consumed) else merged;
    if u.shared {
      AbsentAreKept(merged, existing, consumed, k);
    }
    NarrowHas(existing, kept, u.selected, k);
    FindAppended(kept, Narrow(existing, Unlocked(kept, u.selected)), k);
    FindAppended(WithSelected(kept, existing, u.selected), u.baselines, k);
  }

  /** Another tool selects a request of the entry that no entry of its options has after the merge. */
  ghost predicate StillSelected(c: Context, existing: seq<LockfileTool>, x: LockfileTool, selected: set<Selected>) {
    exists s :: s in x.specifiers && Selected(s, x.options) in selected && !BoundByMerge(c, existing, x.options, s)
  }

  ghost predicate BoundByMerge(c: Context, existing: seq<LockfileTool>, options: Options, s: string) {
    exists k: ToolKey :: k.options == options && After(c, existing, k).Some? && s in After(c, existing, k).value.specifiers
  }

  /** In a lockfile of its own, an existing entry whose version was not locked again stays exactly if it is a
      deferred baseline or still selected. */
  lemma UnlockedStays(u: Input, versioned: bool, existing: seq<LockfileTool>, tools: seq<LockfileTool>, x: LockfileTool)
    requires IsUpdate(u, versioned, existing, tools) && DistinctKeys(existing) && x in existing && !u.shared
    requires forall e :: e in u.context.entries ==> e.version != x.version
    ensures Find(tools, x.Key()).Some? <==>
      (exists b :: b in u.baselines && b.Key() == x.Key()) || StillSelected(u.context, existing, x, u.selected)
  {
    var merged, consumed :| StartsWith(u, versioned, existing, tools, merged, consumed);
    MergedHolds(u.context, existing, merged, x.Key());
    KeysPreserved(u, existing, merged, consumed, x.Key());
    SameKeys(Preserved(u, existing, merged, consumed), tools, x.Key());
    FindIs(existing, x.Key());
    FindIs(u.baselines, x.Key());
    SelectedByMerge(u.context, existing, merged, x, u.selected);
  }

  lemma SelectedByMerge(c: Context, existing: seq<LockfileTool>, merged: seq<LockfileTool>, x: LockfileTool, selected: set<Selected>)
    requires IsMerge(c, existing, merged)
    ensures SelectedHere(x, merged, selected) <==> StillSelected(c, existing, x, selected)
  {
    forall s
      ensures BindsSome(merged, Selected(s, x.options)) <==> BoundByMerge(c, existing, x.options, s)
    {
      BoundInMerge(c, existing, merged, x.options, s);
    }
  }

  lemma SameKeys(before: seq<LockfileTool>, after: seq<LockfileTool>, k: ToolKey)
    requires |before| == |after| && forall i :: 0 <= i < |before| ==> before[i].Key() == after[i].Key()
    ensures Find(after, k).Some? <==> Find(before, k).Some?
  {
    IndexFollowsKeys(before, after, k);
    FindAtIndex(before, k);
    FindAtIndex(after, k);
  }

  lemma MergedHolds(c: Context, existing: seq<LockfileTool>, merged: seq<LockfileTool>, k: ToolKey)
    requires IsMerge(c, existing, merged)
    ensures Find(merged, k).Some? ==> exists e :: e in c.entries && e.version == k.version
    ensures After(c, existing, k).Some? <==> Find(merged, k).Some?
  {
    FindIs(merged, k);
    AfterIsFresh(c, existing, k);
    if After(c, existing, k).Some? {
      assert After(c, existing, k).value in merged;
    }
  }

  lemma BoundInMerge(c: Context, existing: seq<LockfileTool>, merged: seq<LockfileTool>, options: Options, s: string)
    requires IsMerge(c, existing, merged)
    ensures BindsSome(merged, Selected(s, options)) <==> BoundByMerge(c, existing, options, s)
  {
    if t :| t in merged && Binds(t, Selected(s, options)) {
      assert After(c, existing, t.Key()) == Some(t);
    }
    if k: ToolKey :| k.options == options && After(c, existing, k).Some? && s in After(c, existing, k).value.specifiers {
      AfterIsFresh(c, existing, k);
      assert After(c, existing, k).value in merged;
    }
  }

  /** In a shared lockfile every existing entry stays under its key, unless its data all moved to options. */
  lemma SharedStays(u: Input, versioned: bool, existing: seq<LockfileTool>, tools: seq<LockfileTool>, x: LockfileTool)
    requires IsUpdate(u, versioned, existing, tools) && DistinctKeys(existing) && x in existing && u.shared
    requires forall e :: e in u.context.entries ==> e.version != x.version
    ensures Find(tools, x.Key()).Some? && SameButRequests(Find(tools, x.Key()).value, x)
  {
    var merged, consumed :| StartsWith(u, versioned, existing, tools, merged, consumed);
    var before := Preserved(u, existing, merged, consumed);
    var kept := WithAbsent(merged, existing, consumed);
    MergedHolds(u.context, existing, merged, x.Key());
    FindIs(existing, x.Key());
    ConsumedMeans(u.context, existing, x);
    AbsentAreKept(merged, existing, consumed, x.Key());
    FindAppended(kept, Narrow(existing, Unlocked(kept, u.selected)), x.Key());
    FindAppended(WithSelected(kept, existing, u.selected), u.baselines, x.Key());
    BindingKeepsRest(before, u.context.entries);
    IndexFollowsKeys(before, tools, x.Key());
    FindAtIndex(before, x.Key());
    FindAtIndex(tools, x.Key());
  }

  // ----- what becomes of deferred baselines -----

  /** The same entry but for the requests bound to it. */
  predicate SameButRequests(a: LockfileTool, b: LockfileTool) {
    a.(specifiers := {}) == b.(specifiers := {})
  }

  lemma {:induction false} BindingKeepsRest(tools: seq<LockfileTool>, entries: seq<LockfileTool>)
    ensures forall j :: 0 <= j < |tools| ==> SameButRequests(BindAll(tools, entries)[j], tools[j])
  {
    if entries != [] {
      BindingKeepsRest(tools, entries[..|entries| - 1]);
    }
  }

  /** An entry that an update preserves besides the merged ones is an existing one but for its requests. */
  lemma PreservedFrom(u: Input, existing: seq<LockfileTool>, merged: seq<LockfileTool>, consumed: set<ToolKey>, t: LockfileTool)
    requires t in Preserved(u, existing, merged, consumed) && (forall b :: b in u.baselines ==> b in existing)
    ensures t in merged || exists x :: x in existing && SameButRequests(x, t)
  {
    var kept := if u.shared then WithAbsent(merged, existing, consumed) else merged;
    var selected := WithSelected(kept, existing, u.selected);
    var narrow := Narrow(existing, Unlocked(kept, u.selected));
    if t !in selected {
      AppendedIsAbsent(selected, u.baselines, t);
      assert SameButRequests(t, t);
    } else if t !in kept {
      AppendedIsAbsent(kept, narrow, t);
      NarrowIs(existing, Unlocked(kept, u.selected), t);
    } else if t !in merged {
      AppendedIsAbsent(merged, Filter(existing, (x: LockfileTool) => x.Key() !in consumed), t);
      assert SameButRequests(t, t);
    }
  }

  lemma BaselineIsPreserved(u: Input, existing: seq<LockfileTool>, merged: seq<LockfileTool>, consumed: set<ToolKey>, b: LockfileTool)
    requires IsMerge(u.context, existing, merged) && DistinctKeys(existing) && b in existing && b in u.baselines
    requires forall x :: x in u.baselines ==> x in existing
    ensures var found := Find(Preserved(u, existing, merged, consumed), b.Key());
      found.Some? && (After(u.context, existing, b.Key()).None? ==> SameButRequests(found.value, b))
  {
    var k := b.Key();
    var kept := if u.shared then WithAbsent(merged, existing, consumed) else merged;
    var narrow := Narrow(existing, Unlocked(kept, u.selected));
    FindAppended(kept, narrow, k);
    FindAppended(WithSelected(kept, existing, u.selected), u.baselines, k);
    FindIs(u.baselines, k);
    FindIs(existing, k);
    FindIs(merged, k);
    FindIs(narrow, k);
    AfterIsFresh(u.context, existing, k);
    if u.shared {
      AbsentAreKept(merged, existing, consumed, k);
    }
    if Find(narrow, k).Some? {
      NarrowIs(existing, Unlocked(kept, u.selected), Find(narrow, k).value);
    }
  }

  /** An update never drops a baseline it deferred: an entry of its key is there, and unless the merge itself
      put one under that key, it is the baseline with all its data. */
  lemma DeferredBaselineStays(u: Input, versioned: bool, existing: seq<LockfileTool>, tools: seq<LockfileTool>, b: LockfileTool)
    requires IsUpdate(u, versioned, existing, tools) && DistinctKeys(existing)
    requires b in u.baselines && forall x :: x in u.baselines ==> x in existing
    ensures var found := Find(tools, b.Key());
      found.Some? && (After(u.context, existing, b.Key()).None? ==> SameButRequests(found.value, b))
  {
    var merged, consumed :| StartsWith(u, versioned, existing, tools, merged, consumed);
    var before := Preserved(u, existing, merged, consumed);
    BaselineIsPreserved(u, existing, merged, consumed, b);
    BindingKeepsRest(before, u.context.entries);
    IndexFollowsKeys(before, tools, b.Key());
    FindAtIndex(before, b.Key());
    FindAtIndex(tools, b.Key());
  }

  // ----- with the regression check -----

  /** A downloaded fresh entry lacks the provenance of the entry it upgrades. */
  ghost predicate Regresses(s: Site, existing: seq<LockfileTool>, entries: seq<LockfileTool>) {
    exists e :: e in entries && BaselineFor(s, existing, e).Some? && Downloaded(s, e)
  }

  ghost predicate AreDeferred(s: Site, existing: seq<LockfileTool>, entries: seq<LockfileTool>, baselines: seq<LockfileTool>) {
    forall b :: b in baselines <==> exists e :: e in entries && BaselineFor(s, existing, e) == Some(b) && !Downloaded(s, e)
  }

  /** An update that is skipped if it regresses and else keeps what the check deferred. */
  ghost predicate IsCheckedUpdate(s: Site, u: Input, versioned: bool, existing: seq<LockfileTool>, tools: seq<LockfileTool>) {
    if Regresses(s, existing, u.context.entries) then tools == existing
    else AreDeferred(s, existing, u.context.entries, u.baselines) && IsUpdate(u, versioned, existing, tools)
  }

  /** A fresh entry with a URL on the platform shows less than an existing one. */
  ghost predicate LosesProvenance(s: Site, existing: seq<LockfileTool>, entries: seq<LockfileTool>) {
    exists e, t :: e in entries && HasUrl(s, e) && ShowsLess(s, existing, e, t)
  }

  /** An update regresses exactly if provenance is lost. Each fresh entry without a URL that shows less than an
      existing one has one of those deferred, and nothing else is deferred. */
  lemma CheckMeaning(s: Site, existing: seq<LockfileTool>, entries: seq<LockfileTool>, baselines: seq<LockfileTool>)
    requires IsPreorder(s.order) && AreDeferred(s, existing, entries, baselines)
    ensures Regresses(s, existing, entries) <==> LosesProvenance(s, existing, entries)
    ensures forall e, t :: e in entries && !HasUrl(s, e) && ShowsLess(s, existing, e, t) ==>
      exists b :: b in baselines && ShowsLess(s, existing, e, b)
    ensures forall b :: b in baselines ==> exists e :: e in entries && !HasUrl(s, e) && ShowsLess(s, existing, e, b)
  {
    forall e | e in entries
      ensures BaselineFor(s, existing, e).Some? <==> exists t :: ShowsLess(s, existing, e, t)
      ensures BaselineFor(s, existing, e).Some? ==> ShowsLess(s, existing, e, BaselineFor(s, existing, e).value)
      ensures HasUrl(s, e) <==> Downloaded(s, e)
    {
      BaselineShowsMore(s, existing, e);
    }
  }

  /** An update that is refused leaves the entries as they were; any other keeps, under its key, an entry
      that each fresh one without a URL shows less than. */
  lemma RefusedOrDeferred(s: Site, u: Input, versioned: bool, existing: seq<LockfileTool>, tools: seq<LockfileTool>,
                          e: LockfileTool, t: LockfileTool)
    requires IsCheckedUpdate(s, u, versioned, existing, tools) && DistinctKeys(existing) && IsPreorder(s.order)
    requires e in u.context.entries && ShowsLess(s, existing, e, t)
    ensures HasUrl(s, e) ==> tools == existing
    ensures exists b :: ShowsLess(s, existing, e, b) && Find(tools, b.Key()).Some?
  {
    BaselineShowsMore(s, existing, e);
    var b := BaselineFor(s, existing, e).value;
    ComparedEntryStays(s, u, versioned, existing, tools, e, b);
    assert ShowsLess(s, existing, e, b);
  }

  method CheckTool(s: Site, existing: seq<LockfileTool>, entries: seq<LockfileTool>)
    returns (errors: seq<string>, deferred: seq<LockfileTool>)
    ensures errors != [] <==> Regresses(s, existing, entries)
    ensures AreDeferred(s, existing, entries, deferred)
    ensures IsPreorder(s.order) ==> (errors != [] <==> LosesProvenance(s, existing, entries))
  {
    var check := CheckProvenanceRegression(s, existing, entries);
    errors, deferred := check.versions, check.deferred;
    assert forall e :: e in entries && BaselineFor(s, existing, e).Some? && Downloaded(s, e) ==> e.version in errors;
    assert errors != [] ==> errors[0] in errors;
    if IsPreorder(s.order) {
      CheckMeaning(s, existing, entries, deferred);
    }
  }

  method UpdateChecked(lockfile: Lockfile, short: string, s: Site, context: Context, shared: bool, selected: set<Selected>)
    returns (errors: seq<string>, ghost u: Input)
    modifies lockfile`tools
    ensures errors != [] <==> Regresses(s, EntriesOf(old(lockfile.tools), short), context.entries)
    ensures AreDeferred(s, EntriesOf(old(lockfile.tools), short), context.entries, u.baselines)
    ensures errors != [] ==> lockfile.tools == old(lockfile.tools)
    ensures IsPreorder(s.order) ==> (errors != [] <==> LosesProvenance(s, EntriesOf(old(lockfile.tools), short), context.entries))
    ensures u.context == context && u.shared == shared && u.selected == selected
    ensures IsCheckedUpdate(s, u, lockfile.UsesRequestBindings(), EntriesOf(old(lockfile.tools), short),
                            EntriesOf(lockfile.tools, short))
    ensures forall other :: other != short ==> EntriesOf(lockfile.tools, other) == EntriesOf(old(lockfile.tools), other)
  {
    var deferred;
    errors, deferred := CheckTool(s, EntriesOf(lockfile.tools, short), context.entries);
    u := Input(context, shared, selected, deferred);
    if errors == [] {
      UpdateTool(lockfile, short, Input(context, shared, selected, deferred));
    }
  }

  lemma DeferredAreExisting(s: Site, existing: seq<LockfileTool>, entries: seq<LockfileTool>, baselines: seq<LockfileTool>)
    requires AreDeferred(s, existing, entries, baselines)
    ensures forall b :: b in baselines ==> b in existing
  {
    forall b | b in baselines
      ensures b in existing
    {
      var e :| e in entries && BaselineFor(s, existing, e) == Some(b);
      BaselineIsExisting(s, existing, e);
    }
  }

  /** An update that goes through keeps, under its key, every entry that the check compared a fresh one with,
      and all its data unless it was itself locked again. Whether the fresh one is still compared with it is
      another matter (`Comparison.ComparisonSurvives`). */
  lemma ComparedEntryStays(s: Site, u: Input, versioned: bool, existing: seq<LockfileTool>, tools: seq<LockfileTool>,
                           e: LockfileTool, b: LockfileTool)
    requires IsCheckedUpdate(s, u, versioned, existing, tools) && DistinctKeys(existing)
    requires e in u.context.entries && BaselineFor(s, existing, e) == Some(b)
    ensures Find(tools, b.Key()).Some?
    ensures After(u.context, existing, b.Key()).None? ==> SameButRequests(Find(tools, b.Key()).value, b)
  {
    BaselineIsExisting(s, existing, e);
    if Regresses(s, existing, u.context.entries) {
      FindIs(tools, b.Key());
    } else {
      DeferredAreExisting(s, existing, u.context.entries, u.baselines);
      DeferredBaselineStays(u, versioned, existing, tools, b);
    }
  }
}
