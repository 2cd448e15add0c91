/** What an update locks, as the next lookup finds it (src/lockfile.rs, 3718-3786 and 5786-5860). */
module UpdateLookup {
  import opened Entries
  import opened EntryMergeLaws
  import opened LockedLookup
  import opened Preserving
  import opened ToolLists
  import opened Update
  import opened Wrappers

  /** The key of the fresh entry that binds a request last. */
  function LastBinder(entries: seq<LockfileTool>, r: Selected): Option<ToolKey> {
    if entries == [] then None
    else
      var last := entries[|entries| - 1];
      if Binds(last, r) then Some(last.Key()) else LastBinder(entries[..|entries| - 1], r)
  }

  /** Whether the bindings leave the request bound by an entry: the last binding decides, and without any it
      stays as it was. */
  predicate BoundAfter(entries: seq<LockfileTool>, r: Selected, t: LockfileTool) {
    match LastBinder(entries, r)
    case Some(k) => t.Key() == k
    case None => Binds(t, r)
  }

  ghost predicate AllThere(tools: seq<LockfileTool>, entries: seq<LockfileTool>) {
    forall e :: e in entries ==> Find(tools, e.Key()).Some?
  }

  /** After the bindings, a request is bound by exactly the entry of the key it was bound to last, or by those
      it was bound to before if no fresh entry binds it. */
  lemma {:induction false} LastBindingWins(tools: seq<LockfileTool>, entries: seq<LockfileTool>, r: Selected, j: nat)
    requires DistinctKeys(tools) && AllThere(tools, entries) && j < |tools|
    ensures Binds(BindAll(tools, entries)[j], r) <==> BoundAfter(entries, r, tools[j])
  {
    if entries != [] {
      var front, last := entries[..|entries| - 1], entries[|entries| - 1];
      assert entries == front + [last];
      var before := BindAll(tools, front);
      IndexFollowsKeys(tools, before, last.Key());
      FindAtIndex(tools, last.Key());
      if Binds(last, r) {
        assert tools[j].Key() == last.Key() ==> j == IndexOf(tools, last.Key());
      } else {
        LastBindingWins(tools, front, r, j);
      }
    }
  }

  lemma {:induction false} LastBinderIsFresh(entries: seq<LockfileTool>, r: Selected)
    requires LastBinder(entries, r).Some?
    ensures LastBinder(entries, r).value.options == r.options
    ensures exists e :: e in entries && Binds(e, r) && e.Key() == LastBinder(entries, r).value
  {
    var front, last := entries[..|entries| - 1], entries[|entries| - 1];
    assert entries == front + [last];
    if !Binds(last, r) {
      LastBinderIsFresh(front, r);
      var e :| e in front && Binds(e, r) && e.Key() == LastBinder(front, r).value;
      assert e in entries;
    }
  }

  // ----- which entries a request matches afterwards -----

  /** An entry of other options than `k` that the request is left bound to, under a backend for which it asks
      for those very options. */
  predicate Rivals(r: Request, entries: seq<LockfileTool>, k: ToolKey, t: LockfileTool) {
    && t.options != k.options && r.Reads(Exact, t.backend, t.options)
    && BoundAfter(entries, Selected(r.specifier, t.options), t)
  }

  /** The request reads the entry locked for it with the options it was locked for, and nothing rivals it. */
  ghost predicate ReadsAlone(r: Request, kept: seq<LockfileTool>, entries: seq<LockfileTool>, k: ToolKey) {
    && Find(entries, k).Some? && r.Reads(Exact, Find(entries, k).value.backend, k.options)
    && forall t :: t in kept ==> !Rivals(r, entries, k, t)
  }

  lemma MatchesAfter(r: Request, kept: seq<LockfileTool>, entries: seq<LockfileTool>, k: ToolKey, j: nat)
    requires DistinctKeys(kept) && AllThere(kept, entries) && j < |kept|
    requires LastBinder(entries, Selected(r.specifier, k.options)) == Some(k)
    ensures r.Matches(Exact, BindAll(kept, entries)[j]) <==>
      Rivals(r, entries, k, kept[j]) || (kept[j].Key() == k && r.Reads(Exact, kept[j].backend, k.options))
  {
    LastBindingWins(kept, entries, Selected(r.specifier, kept[j].options), j);
    BindingKeepsRest(kept, entries);
    assert SameButRequests(BindAll(kept, entries)[j], kept[j]);
  }

  lemma OneKeyMatches(r: Request, kept: seq<LockfileTool>, entries: seq<LockfileTool>, k: ToolKey)
    requires DistinctKeys(kept) && AllThere(kept, entries)
    requires LastBinder(entries, Selected(r.specifier, k.options)) == Some(k)
    requires Find(kept, k).Some?
    ensures MatchingKeys(r, Exact, BindAll(kept, entries)) == {k} <==>
      r.Reads(Exact, Find(kept, k).value.backend, k.options) && forall t :: t in kept ==> !Rivals(r, entries, k, t)
  {
    var tools := BindAll(kept, entries);
    forall j | 0 <= j < |kept|
      ensures r.Matches(Exact, tools[j]) <==>
        Rivals(r, entries, k, kept[j]) || (kept[j].Key() == k && r.Reads(Exact, kept[j].backend, k.options))
    {
      MatchesAfter(r, kept, entries, k, j);
    }
    FindAtIndex(kept, k);
    var own := IndexOf(kept, k);
    forall j | 0 <= j < |kept| && kept[j].Key() == k
      ensures j == own
    {
    }
    forall t | t in kept && Rivals(r, entries, k, t)
      ensures t.Key() != k && t.Key() in MatchingKeys(r, Exact, tools)
    {
      var j :| 0 <= j < |kept| && kept[j] == t;
      assert tools[j] in tools;
    }
    assert tools[own] in tools;
    forall other | other in MatchingKeys(r, Exact, tools)
      ensures other == k || exists t :: t in kept && Rivals(r, entries, k, t)
      ensures other == k ==> r.Reads(Exact, kept[own].backend, k.options)
    {
      var j :| 0 <= j < |tools| && r.Matches(Exact, tools[j]) && tools[j].Key() == other;
      assert kept[j] in kept;
    }
    assert k in {k};
  }

  /** The merge keeps the backend of a key's first fresh entry. */
  lemma {:induction false} FreshBackend(c: Context, existing: seq<LockfileTool>, k: ToolKey)
    requires Find(c.entries, k).Some?
    ensures After(c, existing, k).Some? && After(c, existing, k).value.backend == Find(c.entries, k).value.backend
  {
    if existing == [] {
      FreshIsFirst(c.entries, k);
    } else {
      FreshBackend(c, existing[..|existing| - 1], k);
    }
  }

  lemma {:induction false} FreshIsFirst(entries: seq<LockfileTool>, k: ToolKey)
    ensures FreshAt(entries, k).Some? <==> Find(entries, k).Some?
    ensures FreshAt(entries, k).Some? ==> FreshAt(entries, k).value.backend == Find(entries, k).value.backend
  {
    if entries != [] {
      FreshIsFirst(entries[..|entries| - 1], k);
    }
  }

  lemma FoundByKey(r: Request, tools: seq<LockfileTool>, k: ToolKey)
    requires DistinctKeys(tools) && MatchingKeys(r, Exact, tools) == {k}
    ensures Lookup(r, tools).Found? && Lookup(r, tools).tool in tools && Lookup(r, tools).tool.Key() == k
  {
    KeysOfMatching(r, Exact, tools);
    var matching := Matching(r, Exact, tools);
    assert k in {k};
    assert matching[0].Key() in {matching[0].Key()};
  }

  /** After an update, a freshly resolved request matches exactly one entry, that of the version it was bound
      to last, and the lookup returns it, exactly if the request reads that entry with the options it was
      locked for and no fresh or preserved entry of other options rivals it. */
  lemma LockedIsFound(u: Input, existing: seq<LockfileTool>, tools: seq<LockfileTool>, merged: seq<LockfileTool>,
                      consumed: set<ToolKey>, r: Request, k: ToolKey)
    requires StartsWith(u, true, existing, tools, merged, consumed)
    requires LastBinder(u.context.entries, Selected(r.specifier, k.options)) == Some(k)
    ensures MatchingKeys(r, Exact, tools) == {k} <==>
      ReadsAlone(r, Preserved(u, existing, merged, consumed), u.context.entries, k)
    ensures MatchingKeys(r, Exact, tools) == {k} ==>
      Lookup(r, tools).Found? && Lookup(r, tools).tool in tools && Lookup(r, tools).tool.Key() == k
  {
    var entries, kept := u.context.entries, Preserved(u, existing, merged, consumed);
    PreservedIsDistinct(u, existing, merged, consumed);
    forall e | e in entries
      ensures Find(kept, e.Key()).Some?
    {
      FreshKeyIsThere(u, existing, merged, consumed, e);
    }
    LastBinderIsFresh(entries, Selected(r.specifier, k.options));
    FindIs(entries, k);
    FreshBackend(u.context, existing, k);
    MergedIsPreserved(u, existing, merged, consumed, k);
    OneKeyMatches(r, kept, entries, k);
    if MatchingKeys(r, Exact, tools) == {k} {
      FoundByKey(r, tools, k);
    }
  }

  /** A request reads its options alike for every backend, as one that names its backend does. */
  ghost predicate AsksFor(r: Request, options: Options) {
    forall backend :: r.asks(backend).Ok? && r.asks(backend).value.Some? && r.asks(backend).value.value.options == options
  }

  /** Such a request is always found. */
  lemma NamedBackendIsFound(u: Input, existing: seq<LockfileTool>, tools: seq<LockfileTool>, r: Request, k: ToolKey)
    requires IsUpdate(u, true, existing, tools) && AsksFor(r, k.options)
    requires LastBinder(u.context.entries, Selected(r.specifier, k.options)) == Some(k)
    ensures MatchingKeys(r, Exact, tools) == {k}
    ensures Lookup(r, tools).Found? && Lookup(r, tools).tool in tools && Lookup(r, tools).tool.Key() == k
  {
    var merged, consumed :| StartsWith(u, true, existing, tools, merged, consumed);
    LockedIsFound(u, existing, tools, merged, consumed, r, k);
    LastBinderIsFresh(u.context.entries, Selected(r.specifier, k.options));
    FindIs(u.context.entries, k);
  }

  // ----- an update after which the request is ambiguous -----

  lemma OldIsKept(u: Input, old': LockfileTool, merged: seq<LockfileTool>, consumed: set<ToolKey>)
    requires u.shared && IsMerge(u.context, [old'], merged) && !FreshVersion(u.context.entries, old'.version)
    requires forall k :: k in consumed <==> IsConsumed(u.context, [old'], k)
    ensures Find(Preserved(u, [old'], merged, consumed), old'.Key()) == Some(old')
  {
    var k, existing := old'.Key(), [old'];
    var kept := WithAbsent(merged, existing, consumed);
    AfterIsFresh(u.context, existing, k);
    FindIs(merged, k);
    FindIs(existing, k);
    AbsentAreKept(merged, existing, consumed, k);
    FindAppended(kept, Narrow(existing, Unlocked(kept, u.selected)), k);
    FindAppended(WithSelected(kept, existing, u.selected), u.baselines, k);
    assert old' in existing;
  }

  lemma TwoKeysAreAmbiguous(r: Request, tools: seq<LockfileTool>, j: ToolKey, k: ToolKey)
    requires DistinctKeys(tools) && j != k && j in MatchingKeys(r, Exact, tools) && k in MatchingKeys(r, Exact, tools)
    ensures Lookup(r, tools) == Ambiguous
  {
    KeysOfMatching(r, Exact, tools);
    forall x
      ensures MatchingKeys(r, Exact, tools) != {x}
    {
      assert j in {x} && k in {x} ==> j == k;
    }
  }

  lemma MatchesByKey(r: Request, kept: seq<LockfileTool>, entries: seq<LockfileTool>, k: ToolKey, t: LockfileTool)
    requires DistinctKeys(kept) && AllThere(kept, entries) && t in kept
    requires LastBinder(entries, Selected(r.specifier, k.options)) == Some(k)
    requires Rivals(r, entries, k, t) || (t.Key() == k && r.Reads(Exact, t.backend, k.options))
    ensures t.Key() in MatchingKeys(r, Exact, BindAll(kept, entries))
  {
    var j :| 0 <= j < |kept| && kept[j] == t;
    MatchesAfter(r, kept, entries, k, j);
    assert BindAll(kept, entries)[j] in BindAll(kept, entries);
  }

  lemma KeptBoth(u: Input, old': LockfileTool, new': LockfileTool, merged: seq<LockfileTool>, consumed: set<ToolKey>)
    requires u.shared && IsMerge(u.context, [old'], merged) && u.context.entries == [new'] && old'.version != new'.version
    requires forall k :: k in consumed <==> IsConsumed(u.context, [old'], k)
    ensures var kept := Preserved(u, [old'], merged, consumed);
      && DistinctKeys(kept) && Find(kept, old'.Key()) == Some(old')
      && Find(kept, new'.Key()).Some? && Find(kept, new'.Key()).value.backend == new'.backend
  {
    PreservedIsDistinct(u, [old'], merged, consumed);
    OldIsKept(u, old', merged, consumed);
    NewIsKept(u, [old'], new', merged, consumed);
  }

  lemma NewIsKept(u: Input, existing: seq<LockfileTool>, new': LockfileTool, merged: seq<LockfileTool>, consumed: set<ToolKey>)
    requires IsMerge(u.context, existing, merged) && u.context.entries == [new']
    ensures var kept := Preserved(u, existing, merged, consumed);
      Find(kept, new'.Key()).Some? && Find(kept, new'.Key()).value.backend == new'.backend
  {
    assert u.context.entries[..0] == [] && Find(u.context.entries, new'.Key()) == Some(new');
    FreshBackend(u.context, existing, new'.Key());
    MergedIsPreserved(u, existing, merged, consumed, new'.Key());
  }

  lemma BothMatch(r: Request, kept: seq<LockfileTool>, old': LockfileTool, new': LockfileTool)
    requires DistinctKeys(kept) && Find(kept, old'.Key()) == Some(old')
    requires Find(kept, new'.Key()).Some? && Find(kept, new'.Key()).value.backend == new'.backend
    requires old'.options != new'.options && r.specifier in old'.specifiers && r.specifier in new'.specifiers
    requires r.Reads(Exact, old'.backend, old'.options) && r.Reads(Exact, new'.backend, new'.options)
    ensures Lookup(r, BindAll(kept, [new'])) == Ambiguous
  {
    var entries, k := [new'], new'.Key();
    assert entries[..0] == [];
    FindIs(kept, k);
    FindIs(kept, old'.Key());
    assert LastBinder(entries, Selected(r.specifier, k.options)) == Some(k);
    assert LastBinder(entries, Selected(r.specifier, old'.options)) == None;
    assert Rivals(r, entries, k, old');
    MatchesByKey(r, kept, entries, k, Find(kept, k).value);
    MatchesByKey(r, kept, entries, k, old');
    TwoKeysAreAmbiguous(r, BindAll(kept, entries), k, old'.Key());
  }

  /** A shared lockfile binds the request under one backend, and the update locks it at another version under
      another backend for which it has other options: the old binding stays, and the next lookup is
      ambiguous. */
  lemma RebackendedIsAmbiguous(r: Request, u: Input, old': LockfileTool, new': LockfileTool, tools: seq<LockfileTool>)
    requires u.shared && u.context.entries == [new'] && IsUpdate(u, true, [old'], tools)
    requires old'.version != new'.version && old'.options != new'.options
    requires r.specifier in old'.specifiers && r.specifier in new'.specifiers
    requires r.Reads(Exact, old'.backend, old'.options) && r.Reads(Exact, new'.backend, new'.options)
    ensures Lookup(r, tools) == Ambiguous
  {
    var merged, consumed :| StartsWith(u, true, [old'], tools, merged, consumed);
    KeptBoth(u, old', new', merged, consumed);
    BothMatch(r, Preserved(u, [old'], merged, consumed), old', new');
  }
}
