/** Whether an upgrade that was not verified yet is still compared with its baseline after the update
    (src/lockfile.rs, 3702-3854 and 4236-4273). */
module Comparison {
  import opened Entries
  import opened EntryMergeLaws
  import opened ProvenanceBaselines
  import opened Records
  import opened ToolLists
  import opened Update
  import opened Wrappers

  /** A prior of `e`: provenance of another version that can be compared, under the same backend. */
  predicate PriorOf(s: Site, e: LockfileTool, t: LockfileTool) {
    IsPrior(s, e.version, UnwrapOr(e.backend, ""), t)
  }

  /** The merge itself puts a prior of `e` under the key. */
  predicate MergedPrior(s: Site, c: Context, existing: seq<LockfileTool>, e: LockfileTool, k: ToolKey) {
    After(c, existing, k).Some? && PriorOf(s, e, After(c, existing, k).value)
  }

  lemma SamePrior(s: Site, e: LockfileTool, t: LockfileTool, x: LockfileTool)
    requires SameButRequests(t, x)
    ensures PriorOf(s, e, t) <==> PriorOf(s, e, x)
    ensures t.version == x.version && t.Key() == x.Key()
  {
  }

  /** What is in the updated entries was there before the requests were bound, and the other way round. */
  lemma BoundFrom(u: Input, versioned: bool, kept: seq<LockfileTool>, t: LockfileTool) returns (x: LockfileTool)
    requires t in Finished(u, versioned, kept)
    ensures x in kept && SameButRequests(t, x)
  {
    BindingKeepsRest(kept, u.context.entries);
    var i :| 0 <= i < |kept| && Finished(u, versioned, kept)[i] == t;
    x := kept[i];
  }

  lemma BoundTo(u: Input, versioned: bool, kept: seq<LockfileTool>, x: LockfileTool) returns (t: LockfileTool)
    requires x in kept
    ensures t in Finished(u, versioned, kept) && SameButRequests(t, x)
  {
    BindingKeepsRest(kept, u.context.entries);
    var i :| 0 <= i < |kept| && kept[i] == x;
    t := Finished(u, versioned, kept)[i];
  }

  /** A prior among the updated entries that is not below `e` was put there by the merge: those that were
      there are below it. */
  lemma HigherPriorIsMerged(s: Site, u: Input, versioned: bool, existing: seq<LockfileTool>, tools: seq<LockfileTool>,
                            e: LockfileTool, b: LockfileTool, t: LockfileTool)
    requires IsPreorder(s.order) && IsUpdate(u, versioned, existing, tools) && forall x :: x in u.baselines ==> x in existing
    requires BaselineFor(s, existing, e) == Some(b)
    requires t in tools && PriorOf(s, e, t) && s.order.le(e.version, t.version)
    ensures MergedPrior(s, u.context, existing, e, t.Key())
  {
    var merged, consumed :| StartsWith(u, versioned, existing, tools, merged, consumed);
    var kept := Preserved(u, existing, merged, consumed);
    var x := BoundFrom(u, versioned, kept, t);
    SamePrior(s, e, t, x);
    PreservedFrom(u, existing, merged, consumed, x);
    NotFromExisting(s, existing, e, b, x);
  }

  lemma NotFromExisting(s: Site, existing: seq<LockfileTool>, e: LockfileTool, b: LockfileTool, x: LockfileTool)
    requires IsPreorder(s.order) && BaselineFor(s, existing, e) == Some(b)
    requires PriorOf(s, e, x) && s.order.le(e.version, x.version)
    ensures forall y :: y in existing ==> !SameButRequests(y, x)
  {
    BaselineMeaning(s, existing, e.version, UnwrapOr(e.backend, ""), None);
    forall y | y in existing
      ensures !SameButRequests(y, x)
    {
      if SameButRequests(y, x) {
        SamePrior(s, e, y, x);
      }
    }
  }

  lemma MergedPriorIsThere(s: Site, u: Input, versioned: bool, existing: seq<LockfileTool>, tools: seq<LockfileTool>,
                           e: LockfileTool, k: ToolKey) returns (t: LockfileTool)
    requires IsUpdate(u, versioned, existing, tools) && MergedPrior(s, u.context, existing, e, k)
    ensures t in tools && PriorOf(s, e, t) && t.Key() == k
  {
    var merged, consumed :| StartsWith(u, versioned, existing, tools, merged, consumed);
    var kept := Preserved(u, existing, merged, consumed);
    MergedIsPreserved(u, existing, merged, consumed, k);
    FindIs(kept, k);
    var x := After(u.context, existing, k).value;
    t := BoundTo(u, versioned, kept, x);
    SamePrior(s, e, t, x);
  }

  /** After an update, a fresh entry that the check deferred is still compared with something, exactly if a
      prior is left at all and the merge puts none there that is not below it. One is left unless the baseline
      itself was locked again. */
  lemma ComparisonSurvives(s: Site, u: Input, versioned: bool, existing: seq<LockfileTool>, tools: seq<LockfileTool>,
                           e: LockfileTool, b: LockfileTool)
    requires IsPreorder(s.order) && DistinctKeys(existing)
    requires IsCheckedUpdate(s, u, versioned, existing, tools) && !Regresses(s, existing, u.context.entries)
    requires e in u.context.entries && BaselineFor(s, existing, e) == Some(b)
    ensures BaselineOf(s, tools, e).Some? <==>
      && (exists t :: t in tools && PriorOf(s, e, t))
      && forall k :: MergedPrior(s, u.context, existing, e, k) ==> !s.order.le(e.version, k.version)
    ensures After(u.context, existing, b.Key()).None? ==> exists t :: t in tools && PriorOf(s, e, t)
  {
    DeferredAreExisting(s, existing, u.context.entries, u.baselines);
    BaselineMeaning(s, existing, e.version, UnwrapOr(e.backend, ""), None);
    BaselineMeaning(s, tools, e.version, UnwrapOr(e.backend, ""), None);
    forall t | t in tools && PriorOf(s, e, t) && s.order.le(e.version, t.version)
      ensures MergedPrior(s, u.context, existing, e, t.Key())
    {
      HigherPriorIsMerged(s, u, versioned, existing, tools, e, b, t);
    }
    forall k | MergedPrior(s, u.context, existing, e, k)
      ensures exists t :: t in tools && PriorOf(s, e, t) && t.version == k.version
    {
      var t := MergedPriorIsThere(s, u, versioned, existing, tools, e, k);
    }
    ComparedEntryStays(s, u, versioned, existing, tools, e, b);
    FindIs(tools, b.Key());
    if After(u.context, existing, b.Key()).None? {
      SamePrior(s, e, Find(tools, b.Key()).value, b);
    }
  }

  // ----- an update after which it is not -----

  lemma SelfMergeKeepsProvenance(info: PlatformInfo)
    ensures info.MergeWith(info).provenance.Some? <==> info.provenance.Some?
  {
  }

  /** A key's only fresh entry keeps its backend and whether it has provenance, if no existing entry is of its
      version. */
  lemma OnlyFreshIsMerged(s: Site, c: Context, existing: seq<LockfileTool>, e: LockfileTool)
    requires e in c.entries && DistinctKeys(c.entries) && forall x :: x in existing ==> x.version != e.version
    ensures var after := After(c, existing, e.Key());
      after.Some? && after.value.backend == e.backend
      && (HasProvenance(after.value, s.platform) <==> HasProvenance(e, s.platform))
  {
    FreshOnce(c.entries, e);
    ExistingDoNotMatter(c, existing, e);
    if s.platform in e.platforms {
      SelfMergeKeepsProvenance(e.platforms[s.platform]);
    }
  }

  lemma {:induction false} FreshOnce(entries: seq<LockfileTool>, e: LockfileTool)
    requires e in entries && DistinctKeys(entries)
    ensures FreshAt(entries, e.Key()) == Some(AddFresh(None, e))
  {
    var front, last := entries[..|entries| - 1], entries[|entries| - 1];
    assert entries == front + [last];
    if e in front {
      FreshOnce(front, e);
    } else {
      FreshAtIsFresh(front, e.Key());
    }
  }

  lemma {:induction false} ExistingDoNotMatter(c: Context, existing: seq<LockfileTool>, e: LockfileTool)
    requires e in c.entries && FreshAt(c.entries, e.Key()).Some? && forall x :: x in existing ==> x.version != e.version
    ensures var first, after := FreshAt(c.entries, e.Key()).value, After(c, existing, e.Key());
      after.Some? && after.value.backend == first.backend && after.value.platforms == first.platforms
  {
    if existing != [] {
      var front, x := existing[..|existing| - 1], existing[|existing| - 1];
      assert existing == front + [x];
      ExistingDoNotMatter(c, front, e);
      assert x.options == [] ==> Arriving(c, x, x.platforms.Keys, e.Key()) == {};
    }
  }

  /** One upgrade waits for its provenance while another fresh entry of the same backend and a version not
      below it has its own: after the update the waiting one is compared with nothing. */
  lemma ComparisonIsLost(s: Site, u: Input, versioned: bool, b: LockfileTool, e: LockfileTool, higher: LockfileTool,
                         tools: seq<LockfileTool>)
    requires IsPreorder(s.order) && u.context.entries == [e, higher]
    requires b.version != e.version && b.version != higher.version && e.version != higher.version
    requires BaselineFor(s, [b], e) == Some(b) && !Downloaded(s, e)
    requires PriorOf(s, e, higher) && s.order.le(e.version, higher.version)
    requires IsCheckedUpdate(s, u, versioned, [b], tools)
    ensures Find(tools, b.Key()).Some? && BaselineOf(s, tools, e) == None
  {
    var entries := u.context.entries;
    assert entries[0] == e && entries[1] == higher && e in entries && higher in entries;
    assert BaselineFor(s, [b], higher).None?;
    assert !Regresses(s, [b], entries);
    OnlyFreshIsMerged(s, u.context, [b], higher);
    AfterIsFresh(u.context, [b], higher.Key());
    assert MergedPrior(s, u.context, [b], e, higher.Key());
    ComparisonSurvives(s, u, versioned, [b], tools, e, b);
    ComparedEntryStays(s, u, versioned, [b], tools, e, b);
  }

  /** And pruning with both requested frees the baseline that the waiting one was deferred for. */
  lemma BaselineIsFreed(s: Site, b: LockfileTool, e: LockfileTool, higher: LockfileTool)
    requires IsPreorder(s.order) && b.version != e.version && b.version != higher.version && e.version != higher.version
    requires BaselineFor(s, [b], e) == Some(b) && !HasProvenance(e, s.platform)
    requires PriorOf(s, e, higher) && s.order.le(e.version, higher.version)
    ensures Stale(Prune(s, {e.version, higher.version}), [b, e, higher], b.Key())
  {
    var p, tools := Prune(s, {e.version, higher.version}), [b, e, higher];
    var backend := UnwrapOr(e.backend, "");
    BaselineMeaning(s, [b], e.version, backend, None);
    BaselineMeaning(s, tools, e.version, backend, None);
    BaselineMeaning(s, tools, higher.version, backend, None);
    assert tools[0] == b && tools[1] == e && tools[2] == higher;
    assert b in tools && higher in tools && b in [b];
    assert IsPrior(s, e.version, backend, b) && IsPrior(s, higher.version, backend, b);
    assert BaselineOf(s, tools, e).None?;
    forall t | t in tools && IsPrior(s, higher.version, backend, t)
      ensures t == b
    {
    }
    assert BaselineOf(s, tools, higher) == Some(b);
    assert StillNeeded(p, tools) == {};
    assert Frees(p, tools, higher, b.Key());
  }
}
