/** What the merge of lockfile entries keeps, where its data comes from, and when it settles. */
module EntryMergeLaws {
  import opened Entries
  import opened Records
  import opened Wrappers

  // ----- versions and keys -----

  lemma {:induction false} FreshAtIsFresh(entries: seq<LockfileTool>, k: ToolKey)
    ensures FreshAt(entries, k).Some? <==> exists e :: e in entries && e.Key() == k
  {
    if entries != [] {
      var front, last := entries[..|entries| - 1], entries[|entries| - 1];
      FreshAtIsFresh(front, k);
      assert entries == front + [last];
    }
  }

  lemma {:induction false} AfterIsFresh(c: Context, existing: seq<LockfileTool>, k: ToolKey)
    ensures After(c, existing, k).Some? ==> After(c, existing, k).value.Key() == k && FreshVersion(c.entries, k.version)
    ensures FreshAt(c.entries, k).Some? ==> After(c, existing, k).Some?
  {
    if existing == [] {
      FreshAtIsFresh(c.entries, k);
    } else {
      AfterIsFresh(c, existing[..|existing| - 1], k);
    }
  }

  /** The merged entries' versions are exactly the fresh ones. */
  lemma VersionsAreFresh(c: Context, existing: seq<LockfileTool>, tools: seq<LockfileTool>, version: string)
    requires IsMerge(c, existing, tools)
    ensures (exists t :: t in tools && t.version == version) <==> exists e :: e in c.entries && e.version == version
  {
    if t :| t in tools && t.version == version {
      AfterIsFresh(c, existing, t.Key());
    }
    if FreshVersion(c.entries, version) {
      var e :| e in c.entries && e.version == version;
      FreshAtIsFresh(c.entries, e.Key());
      AfterIsFresh(c, existing, e.Key());
      assert After(c, existing, e.Key()).value in tools;
    }
  }

  // ----- what moves away -----

  lemma {:induction false} OnlyFreshWithoutOptions(c: Context, existing: seq<LockfileTool>, k: ToolKey)
    requires k.options == [] && forall y :: y in existing ==> y.Key() != k
    ensures After(c, existing, k).Some? <==> FreshAt(c.entries, k).Some?
  {
    if existing != [] {
      var front, y := existing[..|existing| - 1], existing[|existing| - 1];
      assert y in existing && forall z :: z in front ==> z in existing;
      OnlyFreshWithoutOptions(c, front, k);
      assert Arriving(c, y, y.platforms.Keys, k) == {} || y.version == k.version;
    }
  }

  /** An existing entry is consumed exactly if it has no options, its version was locked again but not without
      options, and the resolver sends the data of all its platforms to some options. */
  lemma ConsumedMeans(c: Context, existing: seq<LockfileTool>, x: LockfileTool)
    requires DistinctKeys(existing) && x in existing
    ensures IsConsumed(c, existing, x.Key()) <==>
      && x.options == [] && (exists e :: e in c.entries && e.version == x.version)
      && (forall e :: e in c.entries && e.version == x.version ==> e.options != [])
      && forall p :: p in x.platforms ==> c.resolve(x.version, p).Some? && c.resolve(x.version, p).value != []
  {
    var k := x.Key();
    FreshAtIsFresh(c.entries, k);
    var i :| 0 <= i < |existing| && existing[i] == x;
    assert forall j :: 0 <= j < |existing| && existing[j].Key() == k ==> j == i;
    if x.options == [] {
      OnlyFreshWithoutOptions(c, existing[..i], k);
      assert existing[..i + 1][..i] == existing[..i];
      var arriving := Arriving(c, x, x.platforms.Keys, k);
      forall p | p in x.platforms
        ensures p in arriving <==> c.resolve(x.version, p).None? || c.resolve(x.version, p).value == []
      {
      }
      assert arriving == {} <==> forall p :: p in x.platforms ==> p !in arriving;
    }
  }

  // ----- no platform is lost -----

  ghost predicate HasPlatform(entry: Option<LockfileTool>, p: Platform) {
    entry.Some? && p in entry.value.platforms
  }

  lemma {:induction false} FreshPlatformIsThere(entries: seq<LockfileTool>, e: LockfileTool, p: Platform)
    requires e in entries && p in e.platforms
    ensures HasPlatform(FreshAt(entries, e.Key()), p)
  {
    var front, last := entries[..|entries| - 1], entries[|entries| - 1];
    assert entries == front + [last];
    if e in front {
      FreshPlatformIsThere(front, e, p);
    }
  }

  lemma {:induction false} PlatformsStay(c: Context, existing: seq<LockfileTool>, i: nat, k: ToolKey, p: Platform)
    requires i <= |existing| && HasPlatform(After(c, existing[..i], k), p)
    ensures HasPlatform(After(c, existing, k), p)
  {
    if i < |existing| {
      var front := existing[..|existing| - 1];
      assert front[..i] == existing[..i];
      PlatformsStay(c, front, i, k, p);
    } else {
      assert existing[..i] == existing;
    }
  }

  /** Every platform an existing entry of a fresh version has is still there under that version. */
  lemma PlatformSurvives(c: Context, existing: seq<LockfileTool>, i: nat, p: Platform) returns (k: ToolKey)
    requires i < |existing| && p in existing[i].platforms && FreshVersion(c.entries, existing[i].version)
    ensures k.version == existing[i].version && HasPlatform(After(c, existing, k), p)
  {
    var tool := existing[i];
    assert existing[..i + 1][..i] == existing[..i];
    if tool.options == [] {
      k := ToolKey(tool.version, Destination(c, tool.version, p));
      assert p in Arriving(c, tool, tool.platforms.Keys, k);
      PlatformsStay(c, existing, i + 1, k, p);
    } else if After(c, existing[..i], tool.Key()).Some? || !FreshPlatform(c.entries, tool.version, p) {
      k := tool.Key();
      AfterIsFresh(c, existing[..i], k);
      assert !FreshPlatform(c.entries, tool.version, p) ==> p in Unrefreshed(c, tool);
      PlatformsStay(c, existing, i + 1, k, p);
    } else {
      var e :| e in c.entries && e.version == tool.version && p in e.platforms;
      k := e.Key();
      FreshPlatformIsThere(c.entries, e, p);
      assert existing[..0] == [];
      PlatformsStay(c, existing, 0, k, p);
    }
  }

  // ----- whose npm source repository an entry gets -----

  /** An existing entry offers its own to entries of its version that have its backend or its options, or
      that the resolver sends some of its data to. */
  ghost predicate Offers(c: Context, x: LockfileTool, backend: Option<string>, k: ToolKey) {
    && x.version == k.version && x.provenance.Some?
    && (|| x.backend == backend || x.options == k.options
        || (x.options == [] && exists p :: p in x.platforms && c.resolve(x.version, p) == Some(k.options)))
  }

  ghost predicate OffersFirst(c: Context, existing: seq<LockfileTool>, backend: Option<string>, k: ToolKey, i: int) {
    && 0 <= i < |existing| && Offers(c, existing[i], backend, k)
    && forall j :: 0 <= j < i ==> !Offers(c, existing[j], backend, k)
  }

  lemma OfferedStep(c: Context, x: LockfileTool, k: ToolKey, entry: LockfileTool)
    requires entry.Key() == k && FreshVersion(c.entries, k.version)
    ensures var after := AddExisting(c, x, k, Some(entry));
      && after.Some? && after.value.backend == entry.backend
      && after.value.provenance == if entry.provenance.None? && Offers(c, x, entry.backend, k) then x.provenance else entry.provenance
  {
    if x.options == [] && x.version == k.version {
      assert Named(c, x, x.platforms.Keys, k) <==> exists p :: p in x.platforms && c.resolve(x.version, p) == Some(k.options) by {
        forall p | p in x.platforms && c.resolve(x.version, p) == Some(k.options)
          ensures p in Arriving(c, x, x.platforms.Keys, k)
        {
        }
      }
    }
  }

  /** A freshly locked entry keeps its own source repository if it has one, and else gets that of the first
      existing entry that offers one. */
  lemma {:induction false} ProvenanceSpreads(c: Context, existing: seq<LockfileTool>, k: ToolKey)
    requires FreshAt(c.entries, k).Some?
    ensures After(c, existing, k).Some?
    ensures var own, after := FreshAt(c.entries, k).value, After(c, existing, k).value;
      && after.backend == own.backend
      && (own.provenance.Some? ==> after.provenance == own.provenance)
      && (own.provenance.None? ==> forall i :: OffersFirst(c, existing, own.backend, k, i) ==> after.provenance == existing[i].provenance)
      && (own.provenance.None? && after.provenance.Some? ==> exists i :: OffersFirst(c, existing, own.backend, k, i))
  {
    if existing != [] {
      var front, x := existing[..|existing| - 1], existing[|existing| - 1];
      var backend := FreshAt(c.entries, k).value.backend;
      ProvenanceSpreads(c, front, k);
      AfterIsFresh(c, front, k);
      OfferedStep(c, x, k, After(c, front, k).value);
      forall i
        ensures i < |front| ==> (OffersFirst(c, existing, backend, k, i) <==> OffersFirst(c, front, backend, k, i))
      {
      }
      if After(c, front, k).value.provenance.None? && Offers(c, x, backend, k) {
        FirstOffer(c, front, backend, k);
        assert forall i :: !OffersFirst(c, front, backend, k, i);
        assert OffersFirst(c, existing, backend, k, |front|);
      }
    }
  }

  /** If any entry offers, one does first. */
  lemma {:induction false} FirstOffer(c: Context, existing: seq<LockfileTool>, backend: Option<string>, k: ToolKey)
    ensures (exists i :: OffersFirst(c, existing, backend, k, i)) <==>
      exists i :: 0 <= i < |existing| && Offers(c, existing[i], backend, k)
  {
    if existing != [] {
      var front := existing[..|existing| - 1];
      FirstOffer(c, front, backend, k);
      forall i
        ensures i < |front| ==> (OffersFirst(c, existing, backend, k, i) <==> OffersFirst(c, front, backend, k, i))
      {
      }
      if j :| 0 <= j < |existing| && Offers(c, existing[j], backend, k) {
        if j < |front| {
          assert Offers(c, front[j], backend, k);
          var i :| OffersFirst(c, front, backend, k, i);
          assert OffersFirst(c, existing, backend, k, i);
        } else if forall i :: 0 <= i < |front| ==> !Offers(c, existing[i], backend, k) {
          assert OffersFirst(c, existing, backend, k, j);
        } else {
          var m :| 0 <= m < |front| && Offers(c, existing[m], backend, k);
          assert Offers(c, front[m], backend, k);
          var i :| OffersFirst(c, front, backend, k, i);
          assert OffersFirst(c, existing, backend, k, i);
        }
      }
    }
  }

  // ----- where the data comes from -----

  /** A record built from others by merging. */
  datatype MergeTree = Leaf(info: PlatformInfo) | Node(over: MergeTree, under: MergeTree) {
    function Value(): PlatformInfo {
      match this
      case Leaf(info) => info
      case Node(over, under) => over.Value().MergeWith(under.Value())
    }

    function Leaves(): set<PlatformInfo> {
      match this
      case Leaf(info) => {info}
      case Node(over, under) => over.Leaves() + under.Leaves()
    }
  }

  ghost predicate FromFresh(entries: seq<LockfileTool>, k: ToolKey, p: Platform, info: PlatformInfo) {
    exists e :: e in entries && e.Key() == k && Get(e.platforms, p) == Some(info)
  }

  /** An existing entry's record counts for the same options or, from an entry without options, for those
      the resolver names, or for none if it names none. */
  ghost predicate FromExisting(c: Context, existing: seq<LockfileTool>, k: ToolKey, p: Platform, info: PlatformInfo) {
    exists x :: x in existing && x.version == k.version && Get(x.platforms, p) == Some(info)
      && k.options == if x.options == [] then Destination(c, x.version, p) else x.options
  }

  ghost predicate Contributes(c: Context, existing: seq<LockfileTool>, k: ToolKey, p: Platform, info: PlatformInfo) {
    FromFresh(c.entries, k, p, info) || FromExisting(c, existing, k, p, info)
  }

  lemma {:induction false} FreshOrigin(entries: seq<LockfileTool>, k: ToolKey, p: Platform) returns (tree: MergeTree)
    requires HasPlatform(FreshAt(entries, k), p)
    ensures tree.Value() == FreshAt(entries, k).value.platforms[p]
    ensures forall info :: info in tree.Leaves() ==> FromFresh(entries, k, p, info)
  {
    var front, last := entries[..|entries| - 1], entries[|entries| - 1];
    assert entries == front + [last];
    assert forall info :: FromFresh(front, k, p, info) ==> FromFresh(entries, k, p, info);
    if HasPlatform(FreshAt(front, k), p) {
      tree := FreshOrigin(front, k, p);
    }
    if last.Key() == k && p in last.platforms {
      var own := Leaf(last.platforms[p]);
      assert last in entries && FromFresh(entries, k, p, own.info);
      FreshStep(FreshAt(front, k), last, p);
      tree := if HasPlatform(FreshAt(front, k), p) then Node(own, tree)
              else if FreshAt(front, k).None? then Node(own, own) else own;
    }
  }

  lemma FreshStep(entry: Option<LockfileTool>, tool: LockfileTool, p: Platform)
    requires p in tool.platforms
    ensures p in AddFresh(entry, tool).platforms
    ensures AddFresh(entry, tool).platforms[p] ==
      if HasPlatform(entry, p) then tool.platforms[p].MergeWith(entry.value.platforms[p])
      else if entry.None? then tool.platforms[p].MergeWith(tool.platforms[p])
      else tool.platforms[p]
  {
  }

  /** Every record in the merge is a merge of records that belong there: fresh ones of its own key, and
      existing ones of its own options or moved there by the resolver. */
  lemma {:induction false} Origin(c: Context, existing: seq<LockfileTool>, k: ToolKey, p: Platform) returns (tree: MergeTree)
    requires HasPlatform(After(c, existing, k), p)
    ensures tree.Value() == After(c, existing, k).value.platforms[p]
    ensures forall info :: info in tree.Leaves() ==> Contributes(c, existing, k, p, info)
  {
    if existing == [] {
      tree := FreshOrigin(c.entries, k, p);
      return;
    }
    var front, x := existing[..|existing| - 1], existing[|existing| - 1];
    assert existing == front + [x];
    var before, after := After(c, front, k), After(c, existing, k);
    if HasPlatform(before, p) {
      tree := Origin(c, front, k, p);
      forall info | info in tree.Leaves()
        ensures Contributes(c, existing, k, p, info)
      {
        if FromExisting(c, front, k, p, info) {
          var y :| y in front && y.version == k.version && Get(y.platforms, p) == Some(info)
            && k.options == if y.options == [] then Destination(c, y.version, p) else y.options;
          assert y in existing;
        }
      }
    }
    if HasPlatform(before, p) && after.value.platforms[p] == before.value.platforms[p] {
      return;
    }
    Arrived(c, x, k, p, before);
    var own := Leaf(x.platforms[p]);
    assert FromExisting(c, existing, k, p, own.info);
    tree := if after.value.platforms[p] == own.info then own else Node(tree, own);
  }

  /** A platform record changes only where the existing entry's own record belongs. */
  lemma Arrived(c: Context, x: LockfileTool, k: ToolKey, p: Platform, before: Option<LockfileTool>)
    requires HasPlatform(AddExisting(c, x, k, before), p)
    requires !(HasPlatform(before, p) && AddExisting(c, x, k, before).value.platforms[p] == before.value.platforms[p])
    ensures x.version == k.version && p in x.platforms
    ensures k.options == if x.options == [] then Destination(c, x.version, p) else x.options
    ensures var after := AddExisting(c, x, k, before).value.platforms[p];
      after == x.platforms[p] || (HasPlatform(before, p) && after == before.value.platforms[p].MergeWith(x.platforms[p]))
  {
  }

  /** A pin in a merged record was a pin in one of the records it was built from. */
  lemma {:induction false} TreePin(tree: MergeTree, pin: Pin) returns (info: PlatformInfo)
    requires HasPin(tree.Value(), pin)
    ensures info in tree.Leaves() && HasPin(info, pin)
  {
    match tree
    case Leaf(i) => info := i;
    case Node(over, under) =>
      PinOrigin(over.Value(), under.Value(), pin);
      if HasPin(over.Value(), pin) {
        info := TreePin(over, pin);
      } else {
        info := TreePin(under, pin);
      }
  }
}
