/** Locking again what was just locked changes nothing that is written. */
module RelockFixpoint {
  import opened Entries
  import opened EntryMergeLaws
  import opened Records
  import opened ToolLists
  import opened Wrappers

  /** No legacy data is still to be moved to other options. */
  ghost predicate NothingToRekey(c: Context) {
    forall version, p :: c.resolve(version, p).None? || c.resolve(version, p).value == []
  }

  /** The same entry, except perhaps for the npm source repository, which follows the version and not the
      entry. */
  predicate Alike(a: Option<LockfileTool>, b: Option<LockfileTool>) {
    && (a.Some? <==> b.Some?)
    && (a.Some? ==> a.value.(provenance := None) == b.value.(provenance := None))
  }

  /** Alike, and the platform records agree on everything that is written. */
  predicate SameWritten(a: Option<LockfileTool>, b: Option<LockfileTool>) {
    && (a.Some? <==> b.Some?)
    && (a.Some? ==>
          && a.value.(provenance := None, platforms := map[]) == b.value.(provenance := None, platforms := map[])
          && a.value.platforms.Keys == b.value.platforms.Keys
          && forall p :: p in a.value.platforms ==> a.value.platforms[p].Written() == b.value.platforms[p].Written())
  }

  /** What a key holds after the existing entry of that key alone. */
  function OwnStep(c: Context, k: ToolKey, own: Option<LockfileTool>): Option<LockfileTool> {
    if own.None? then FreshAt(c.entries, k) else AddExisting(c, own.value, k, FreshAt(c.entries, k))
  }

  lemma OtherKeysDoNotMatter(c: Context, x: LockfileTool, k: ToolKey, entry: Option<LockfileTool>)
    requires NothingToRekey(c) && x.Key() != k
    ensures Alike(AddExisting(c, x, k, entry), entry)
  {
    assert x.options == [] ==> Arriving(c, x, x.platforms.Keys, k) == {};
  }

  lemma AlikeRekeyed(c: Context, x: LockfileTool, y: LockfileTool, k: ToolKey, a: Option<LockfileTool>, b: Option<LockfileTool>)
    requires Alike(a, b) && Alike(Some(x), Some(y))
    ensures Alike(Rekeyed(c, x, x.platforms.Keys, k, a), Rekeyed(c, y, y.platforms.Keys, k, b))
  {
    var done := x.platforms.Keys;
    assert x.platforms == y.platforms && x.version == y.version && x.specifiers == y.specifiers;
    var arriving := Arriving(c, x, done, k);
    assert arriving == Arriving(c, y, done, k);
    assert Named(c, x, done, k) <==> Named(c, y, done, k);
    var m := if a.Some? then a.value.platforms else map[];
    assert WithArrivals(c, x, m, arriving) == WithArrivals(c, y, m, arriving);
  }

  lemma AlikeStep(c: Context, x: LockfileTool, y: LockfileTool, k: ToolKey, a: Option<LockfileTool>, b: Option<LockfileTool>)
    requires Alike(a, b) && Alike(Some(x), Some(y))
    ensures Alike(AddExisting(c, x, k, a), AddExisting(c, y, k, b))
  {
    assert x.Key() == y.Key() && x.platforms == y.platforms && x.options == y.options;
    var spreadA := if a.None? then None else Some(SpreadProvenance(a.value, x));
    var spreadB := if b.None? then None else Some(SpreadProvenance(b.value, y));
    assert Alike(spreadA, spreadB);
    var joinedA := if spreadA.Some? && x.Key() == k then Some(Joined(spreadA.value, x)) else spreadA;
    var joinedB := if spreadB.Some? && y.Key() == k then Some(Joined(spreadB.value, y)) else spreadB;
    assert Alike(joinedA, joinedB);
    if x.options == [] {
      AlikeRekeyed(c, x, y, k, joinedA, joinedB);
    } else {
      assert Unrefreshed(c, x) == Unrefreshed(c, y);
    }
  }

  lemma {:induction false} OwnKeyDecides(c: Context, existing: seq<LockfileTool>, k: ToolKey)
    requires NothingToRekey(c) && DistinctKeys(existing)
    ensures Alike(After(c, existing, k), OwnStep(c, k, Find(existing, k)))
  {
    if existing != [] {
      var front, x := existing[..|existing| - 1], existing[|existing| - 1];
      OwnKeyDecides(c, front, k);
      if x.Key() == k {
        FindIs(front, k);
        assert Find(front, k).None?;
        AlikeStep(c, x, x, k, After(c, front, k), FreshAt(c.entries, k));
      } else {
        OtherKeysDoNotMatter(c, x, k, After(c, front, k));
      }
    }
  }

  // ----- one key, twice -----

  /** The second pass merges the platform's record under the fresh one, rather than putting it back. */
  predicate Merging(c: Context, k: ToolKey, p: Platform) {
    k.options != [] || c.resolve(k.version, p).Some?
  }

  /** Merging the fresh record of `p` again, over what the first merge made of it, loses no mark. */
  ghost predicate KeepsMark(c: Context, k: ToolKey, own: Option<LockfileTool>, p: Platform) {
    var first := FreshAt(c.entries, k);
    HasPlatform(first, p) && Merging(c, k, p) ==>
      if HasPlatform(own, p) then !LosesMark(first.value.platforms[p], own.value.platforms[p])
      else !SelfLoses(first.value.platforms[p])
  }

  ghost predicate KeepsMarksOf(c: Context, k: ToolKey, own: Option<LockfileTool>) {
    forall p :: KeepsMark(c, k, own, p)
  }

  /** The record of one platform after one pass. */
  function CellAfter(c: Context, k: ToolKey, own: Option<LockfileTool>, p: Platform): Option<PlatformInfo> {
    var entry := OwnStep(c, k, own);
    if entry.None? then None else Get(entry.value.platforms, p)
  }

  ghost predicate Owns(own: Option<LockfileTool>, k: ToolKey) {
    own.Some? ==> own.value.Key() == k
  }

  lemma FreshCell(c: Context, k: ToolKey, own: Option<LockfileTool>, p: Platform)
    requires NothingToRekey(c) && Owns(own, k) && FreshAt(c.entries, k).Some?
    ensures var first := Get(FreshAt(c.entries, k).value.platforms, p);
      CellAfter(c, k, own, p) ==
        if !HasPlatform(own, p) then first
        else if first.Some? && Merging(c, k, p) then Some(first.value.MergeWith(own.value.platforms[p]))
        else Some(own.value.platforms[p])
  {
    FreshAtIsFresh(c.entries, k);
    if own.Some? && own.value.options == [] {
      assert p in own.value.platforms ==> p in Arriving(c, own.value, own.value.platforms.Keys, k);
    }
  }

  lemma FreshFields(c: Context, k: ToolKey, own: Option<LockfileTool>)
    requires NothingToRekey(c) && Owns(own, k) && FreshAt(c.entries, k).Some?
    ensures OwnStep(c, k, own).Some?
    ensures var f, r := FreshAt(c.entries, k).value, OwnStep(c, k, own).value;
      && r.version == f.version && r.backend == f.backend && r.options == f.options
      && r.specifiers == f.specifiers + (if own.Some? then own.value.specifiers else {})
      && r.aube == (if own.Some? then f.aube.Or(own.value.aube) else f.aube)
      && r.uv == (if own.Some? then f.uv.Or(own.value.uv) else f.uv)
  {
  }

  /** A key with a fresh entry settles on the first pass, platform by platform, as long as no mark is lost. */
  lemma FreshKeyTwice(c: Context, k: ToolKey, own: Option<LockfileTool>)
    requires NothingToRekey(c) && Owns(own, k) && FreshAt(c.entries, k).Some?
    ensures var once := OwnStep(c, k, own);
      SameWritten(OwnStep(c, k, once), once) <==> KeepsMarksOf(c, k, own)
  {
    var once := OwnStep(c, k, own);
    FreshFields(c, k, own);
    FreshFields(c, k, once);
    var twice := OwnStep(c, k, once);
    forall p
      ensures p in twice.value.platforms <==> p in once.value.platforms
      ensures p in once.value.platforms ==>
        (twice.value.platforms[p].Written() == once.value.platforms[p].Written() <==> KeepsMark(c, k, own, p))
      ensures p !in once.value.platforms ==> KeepsMark(c, k, own, p)
    {
      FreshCell(c, k, own, p);
      FreshCell(c, k, once, p);
      var first := Get(FreshAt(c.entries, k).value.platforms, p);
      if first.Some? {
        SelfMerge(first.value);
        if HasPlatform(own, p) {
          Absorption(first.value, own.value.platforms[p]);
        }
      }
    }
    assert twice.value.platforms.Keys == once.value.platforms.Keys;
  }

  /** A key without a fresh entry is kept whole or not at all. */
  lemma KeptKeyTwice(c: Context, k: ToolKey, own: Option<LockfileTool>)
    requires NothingToRekey(c) && Owns(own, k) && FreshAt(c.entries, k).None?
    ensures var once := OwnStep(c, k, own); OwnStep(c, k, once) == once
  {
    var once := OwnStep(c, k, own);
    if own.Some? && once.Some? {
      var x, r := own.value, once.value;
      if x.options == [] {
        var all := Arriving(c, x, x.platforms.Keys, k);
        assert all == x.platforms.Keys;
        assert r.platforms == x.platforms;
        assert Arriving(c, r, r.platforms.Keys, k) == r.platforms.Keys;
        var again := OwnStep(c, k, once).value;
        assert again.platforms == r.platforms;
        assert again.specifiers == r.specifiers;
      } else {
        assert Unrefreshed(c, r) == r.platforms;
      }
    }
  }

  // ----- the whole list -----

  ghost predicate KeepsMarks(c: Context, existing: seq<LockfileTool>) {
    forall k :: KeepsMarksOf(c, k, Find(existing, k))
  }

  /** The list of a merge holds under each key what the merge made of it. */
  lemma FindMerged(c: Context, existing: seq<LockfileTool>, tools: seq<LockfileTool>, k: ToolKey)
    requires IsMerge(c, existing, tools)
    ensures Find(tools, k) == After(c, existing, k) && DistinctKeys(tools)
  {
    FindIs(tools, k);
    AfterIsFresh(c, existing, k);
    if After(c, existing, k).Some? {
      assert After(c, existing, k).value in tools;
    }
  }

  /** What becomes of an option variant that was not locked again while its version was: it keeps, as they
      were, the records of exactly those platforms that the fresh entries of the version lack, and is dropped if
      none is left. */
  lemma StaleVariant(c: Context, existing: seq<LockfileTool>, tools: seq<LockfileTool>, x: LockfileTool)
    requires IsMerge(c, existing, tools) && DistinctKeys(existing) && NothingToRekey(c)
    requires x in existing && x.options != [] && exists e :: e in c.entries && e.version == x.version
    requires !exists e :: e in c.entries && e.version == x.version && e.options == x.options
    ensures var found := Find(tools, x.Key());
      && (found.Some? <==> exists p :: p in x.platforms && forall e :: e in c.entries && e.version == x.version ==> p !in e.platforms)
      && (found.Some? ==> found.value.specifiers == x.specifiers && found.value.backend == x.backend)
      && (found.Some? ==> forall p :: p in found.value.platforms <==>
            p in x.platforms && forall e :: e in c.entries && e.version == x.version ==> p !in e.platforms)
      && (found.Some? ==> forall p :: p in found.value.platforms ==> found.value.platforms[p] == x.platforms[p])
  {
    var k := x.Key();
    FindMerged(c, existing, tools, k);
    OwnKeyDecides(c, existing, k);
    FindIs(existing, k);
    FreshAtIsFresh(c.entries, k);
    assert OwnStep(c, k, Some(x)) == if Unrefreshed(c, x) == map[] then None else Some(x.(platforms := Unrefreshed(c, x)));
    assert forall p :: p in Unrefreshed(c, x) <==> p in x.platforms && !FreshPlatform(c.entries, x.version, p);
    assert Unrefreshed(c, x) == map[] <==> forall p :: p !in Unrefreshed(c, x);
  }

  lemma AlikeWritten(a: Option<LockfileTool>, b: Option<LockfileTool>, x: Option<LockfileTool>, y: Option<LockfileTool>)
    requires Alike(a, x) && Alike(b, y)
    ensures SameWritten(a, b) <==> SameWritten(x, y)
  {
    assert a.Some? ==> a.value.platforms == x.value.platforms;
    assert b.Some? ==> b.value.platforms == y.value.platforms;
  }

  lemma OwnStepTwice(c: Context, k: ToolKey, own: Option<LockfileTool>)
    requires NothingToRekey(c) && Owns(own, k)
    ensures var once := OwnStep(c, k, own); SameWritten(OwnStep(c, k, once), once) <==> KeepsMarksOf(c, k, own)
  {
    if FreshAt(c.entries, k).Some? {
      FreshKeyTwice(c, k, own);
    } else {
      KeptKeyTwice(c, k, own);
    }
  }

  /** A key's second merge starts from its first, so it is like taking the step of its own entry twice. */
  lemma KeyTwice(c: Context, existing: seq<LockfileTool>, tools: seq<LockfileTool>, k: ToolKey)
    requires NothingToRekey(c) && DistinctKeys(existing) && IsMerge(c, existing, tools)
    ensures SameWritten(After(c, tools, k), After(c, existing, k)) <==> KeepsMarksOf(c, k, Find(existing, k))
  {
    var own := Find(existing, k);
    FindIs(existing, k);
    FindMerged(c, existing, tools, k);
    OwnKeyDecides(c, existing, k);
    OwnKeyDecides(c, tools, k);
    var first, once := After(c, existing, k), OwnStep(c, k, own);
    OwnStepTwice(c, k, own);
    if first.Some? {
      AlikeStep(c, first.value, once.value, k, FreshAt(c.entries, k), FreshAt(c.entries, k));
    }
    assert Alike(OwnStep(c, k, first), OwnStep(c, k, once));
    AlikeWritten(After(c, tools, k), first, OwnStep(c, k, once), once);
  }

  /** Both lists have the same keys, and under each the same written entry. */
  ghost predicate SameEntries(tools: seq<LockfileTool>, others: seq<LockfileTool>) {
    forall k :: SameWritten(Find(tools, k), Find(others, k))
  }

  /** Once no legacy rekeying is pending, merging the same fresh entries into the result of merging them
      changes no entry, option, specifier or written platform field, exactly when no mark without a
      checksum is lost on the way. */
  lemma RelockIsFixpoint(c: Context, existing: seq<LockfileTool>, tools: seq<LockfileTool>, again: seq<LockfileTool>)
    requires NothingToRekey(c) && DistinctKeys(existing)
    requires IsMerge(c, existing, tools) && IsMerge(c, tools, again)
    ensures SameEntries(again, tools) <==> KeepsMarks(c, existing)
  {
    forall k
      ensures SameWritten(Find(again, k), Find(tools, k)) <==> KeepsMarksOf(c, k, Find(existing, k))
    {
      FindMerged(c, existing, tools, k);
      FindMerged(c, tools, again, k);
      KeyTwice(c, existing, tools, k);
    }
    if SameEntries(again, tools) {
      forall k
        ensures KeepsMarksOf(c, k, Find(existing, k))
      {
        assert SameWritten(Find(again, k), Find(tools, k));
      }
    }
  }

  /** That is always so when no two fresh entries share a key: a fresh entry is merged with itself first,
      which already drops such a mark. */
  lemma OneFreshEntryPerKey(c: Context, existing: seq<LockfileTool>)
    requires DistinctKeys(c.entries)
    ensures KeepsMarks(c, existing)
  {
    forall k, p | HasPlatform(FreshAt(c.entries, k), p)
      ensures KeepsMark(c, k, Find(existing, k), p)
    {
      var info := SelfMerged(c.entries, k, p);
      SelfMerge(info);
      var own := Find(existing, k);
      if HasPlatform(own, p) {
        WellMarkedNeverLoses(FreshAt(c.entries, k).value.platforms[p], own.value.platforms[p]);
      }
    }
  }

  lemma {:induction false} SelfMerged(entries: seq<LockfileTool>, k: ToolKey, p: Platform) returns (info: PlatformInfo)
    requires DistinctKeys(entries) && HasPlatform(FreshAt(entries, k), p)
    ensures FreshAt(entries, k).value.platforms[p] == info.MergeWith(info)
  {
    var front, last := entries[..|entries| - 1], entries[|entries| - 1];
    if last.Key() == k {
      FreshAtIsFresh(front, k);
      info := last.platforms[p];
    } else {
      info := SelfMerged(front, k, p);
    }
  }

  // ----- a lockfile for which it fails -----

  /** A record of a URL and perhaps a mark, and nothing else. */
  function Bare(url: string, source: Option<ChecksumSource>): PlatformInfo {
    PlatformInfo(None, None, source, None, Some(url), None, None, None, None, None, None, None, None, None, None, [])
  }

  function BareEntry(k: ToolKey, p: Platform, info: PlatformInfo): LockfileTool {
    LockfileTool(k.version, None, {}, k.options, map[p := info], None, None, None)
  }

  lemma FreshTwo(k: ToolKey, p: Platform, first: PlatformInfo, last: PlatformInfo)
    ensures FreshAt([BareEntry(k, p, first), BareEntry(k, p, last)], k) ==
      Some(BareEntry(k, p, last.MergeWith(first.MergeWith(first))))
  {
    var a, b := BareEntry(k, p, first), BareEntry(k, p, last);
    assert [a, b][..1] == [a] && [a][..0] == [];
    assert MergeFresh(a.platforms, a.platforms) == map[p := first.MergeWith(first)];
    assert AddFresh(None, a).platforms == map[p := first.MergeWith(first)] && AddFresh(None, a).specifiers == {};
    assert FreshAt([], k) == None && FreshAt([a], k) == Some(AddFresh(None, a));
    assert FreshAt([a], k) == Some(BareEntry(k, p, first.MergeWith(first)));
    assert MergeFresh(map[p := first.MergeWith(first)], b.platforms) == map[p := last.MergeWith(first.MergeWith(first))];
  }

  /** Two fresh entries of one key with different URLs, the later one marked without a checksum, over an
      existing one with a third URL: the first merge keeps the mark and the second loses it. */
  lemma RelockLosesMark(k: ToolKey, p: Platform, resolve: Resolver, tools: seq<LockfileTool>, again: seq<LockfileTool>)
    requires k.options != []
    requires var c := Context([BareEntry(k, p, Bare("v", None)), BareEntry(k, p, Bare("u", Some(VersionsHost)))], resolve);
      NothingToRekey(c) && IsMerge(c, [BareEntry(k, p, Bare("w", None))], tools) && IsMerge(c, tools, again)
    ensures !SameEntries(again, tools)
  {
    var entries := [BareEntry(k, p, Bare("v", None)), BareEntry(k, p, Bare("u", Some(VersionsHost)))];
    var c, own := Context(entries, resolve), BareEntry(k, p, Bare("w", None));
    RelockIsFixpoint(c, [own], tools, again);
    FreshTwo(k, p, Bare("v", None), Bare("u", Some(VersionsHost)));
    assert [own][..0] == [] && Find([own], k) == Some(own);
    assert LosesOwnMark(FreshAt(entries, k).value.platforms[p], own.platforms[p]);
    assert !KeepsMark(c, k, Some(own), p);
    assert !KeepsMarksOf(c, k, Find([own], k));
  }
}
