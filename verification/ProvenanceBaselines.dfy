/**
 The prior entries that an unverified upgrade is to be compared with: finding them, keeping them, and
 pruning them once they have done their job (src/lockfile.rs, 3820-3854 and 3974-4134).
 */
module ProvenanceBaselines {
  import opened Entries
  import opened Records
  import opened ToolLists
  import opened Wrappers

  /** Which version strings are semantic versions, and how those compare (section 11 of Semantic
      Versioning 2.0.0). */
  datatype VersionOrder = VersionOrder(parses: string -> bool, le: (string, string) -> bool)

  ghost predicate IsPreorder(v: VersionOrder) {
    && (forall a, b :: v.parses(a) && v.parses(b) ==> v.le(a, b) || v.le(b, a))
    && (forall a, b, c :: v.parses(a) && v.parses(b) && v.parses(c) && v.le(a, b) && v.le(b, c) ==> v.le(a, c))
  }

  predicate HasProvenance(t: LockfileTool, platform: Platform) {
    platform in t.platforms && t.platforms[platform].provenance.Some?
  }

  /** What a version is compared with: where it is asked for, and how versions compare there. */
  datatype Site = Site(order: VersionOrder, platform: Platform)

  predicate IsPrior(s: Site, version: string, backend: string, t: LockfileTool) {
    t.version != version && t.backend == Some(backend) && HasProvenance(t, s.platform) && s.order.parses(t.version)
  }

  /** The prior of the highest version, the last of them if several are equal. */
  function Highest(s: Site, tools: seq<LockfileTool>, version: string, backend: string): Option<LockfileTool> {
    if tools == [] then None
    else
      var front, last := Highest(s, tools[..|tools| - 1], version, backend), tools[|tools| - 1];
      if IsPrior(s, version, backend, last) && (front.None? || s.order.le(front.value.version, last.version)) then Some(last)
      else front
  }

  function FindBaseline(s: Site, tools: seq<LockfileTool>, version: string, backend: string, provenance: Option<Provenance>):
    Option<LockfileTool>
  {
    if provenance.Some? || !("github:" <= backend) || !s.order.parses(version) then None
    else
      var prior := Highest(s, tools, version, backend);
      if prior.None? || s.order.le(version, prior.value.version) then None else prior
  }

  /** What an entry whose own provenance does not count yet would be compared with. */
  function BaselineOf(s: Site, tools: seq<LockfileTool>, t: LockfileTool): Option<LockfileTool> {
    FindBaseline(s, tools, t.version, UnwrapOr(t.backend, ""), None)
  }

  lemma {:induction false} HighestIsHighest(s: Site, tools: seq<LockfileTool>, version: string, backend: string)
    requires IsPreorder(s.order)
    ensures var h := Highest(s, tools, version, backend);
      && (h.None? <==> forall t :: t in tools ==> !IsPrior(s, version, backend, t))
      && (h.Some? ==> h.value in tools && IsPrior(s, version, backend, h.value))
      && (h.Some? ==> forall t :: t in tools && IsPrior(s, version, backend, t) ==> s.order.le(t.version, h.value.version))
  {
    if tools != [] {
      HighestIsHighest(s, tools[..|tools| - 1], version, backend);
      assert tools == tools[..|tools| - 1] + [tools[|tools| - 1]];
    }
  }

  /** A baseline is exactly a highest prior of a github upgrade that shows no provenance. */
  lemma BaselineMeaning(s: Site, tools: seq<LockfileTool>, version: string, backend: string, provenance: Option<Provenance>)
    requires IsPreorder(s.order)
    ensures var found := FindBaseline(s, tools, version, backend, provenance);
      && (found.Some? <==>
           && provenance.None? && "github:" <= backend && s.order.parses(version)
           && (exists t :: t in tools && IsPrior(s, version, backend, t))
           && forall t :: t in tools && IsPrior(s, version, backend, t) ==> !s.order.le(version, t.version))
      && (found.Some? ==> found.value in tools && IsPrior(s, version, backend, found.value))
      && (found.Some? ==> forall t :: t in tools && IsPrior(s, version, backend, t) ==> s.order.le(t.version, found.value.version))
  {
    HighestIsHighest(s, tools, version, backend);
    var h := Highest(s, tools, version, backend);
    if h.Some? {
      forall t | t in tools && IsPrior(s, version, backend, t) && s.order.parses(version) && s.order.le(version, t.version)
        ensures s.order.le(version, h.value.version)
      {
        assert s.order.le(t.version, h.value.version);
      }
    }
  }

  /** Of several highest priors it is the last. */
  lemma {:induction false} HighestIsLast(s: Site, tools: seq<LockfileTool>, version: string, backend: string) returns (i: int)
    requires Highest(s, tools, version, backend).Some?
    ensures 0 <= i < |tools| && Highest(s, tools, version, backend) == Some(tools[i])
    ensures forall j :: i < j < |tools| && IsPrior(s, version, backend, tools[j]) ==> !s.order.le(tools[i].version, tools[j].version)
  {
    var last := tools[|tools| - 1];
    if Highest(s, tools, version, backend) == Some(last) {
      i := |tools| - 1;
    } else {
      i := HighestIsLast(s, tools[..|tools| - 1], version, backend);
    }
  }

  /** Removing others leaves the highest what it is. */
  lemma {:induction false} HighestStays(s: Site, tools: seq<LockfileTool>, version: string, backend: string, keep: LockfileTool -> bool)
    requires IsPreorder(s.order)
    requires var h := Highest(s, tools, version, backend); h.Some? && keep(h.value)
    ensures Highest(s, Filter(tools, keep), version, backend) == Highest(s, tools, version, backend)
  {
    var front, last := tools[..|tools| - 1], tools[|tools| - 1];
    var kept := Filter(front, keep);
    assert keep(last) ==> (kept + [last])[..|kept|] == kept;
    var h := Highest(s, front, version, backend);
    if h.Some? && Highest(s, tools, version, backend) == h && keep(h.value) {
      HighestStays(s, front, version, backend, keep);
    } else {
      HighestIsHighest(s, front, version, backend);
      HighestIsHighest(s, kept, version, backend);
    }
  }

  // ----- the check before an update, and the baselines it defers -----

  /** The check's outcome for one tool. */
  datatype Regression = Regression(versions: seq<string>, deferred: seq<LockfileTool>)

  function BaselineFor(s: Site, existing: seq<LockfileTool>, e: LockfileTool): Option<LockfileTool> {
    FindBaseline(s, existing, e.version, UnwrapOr(e.backend, ""),
                 if s.platform in e.platforms then e.platforms[s.platform].provenance else None)
  }

  /** The new artifact was resolved in this session. */
  predicate Downloaded(s: Site, e: LockfileTool) {
    s.platform in e.platforms && e.platforms[s.platform].url.Some?
  }

  /** `t` is another version of the tool under the same backend, with provenance on the platform. */
  ghost predicate HadProvenance(s: Site, e: LockfileTool, t: LockfileTool) {
    && t.version != e.version && t.backend == e.backend && s.order.parses(t.version)
    && s.platform in t.platforms && t.platforms[s.platform].provenance != None
  }

  /** The entry is of a github backend, its version is above all others that have provenance, and `t` is one of
      the highest of those. */
  ghost predicate IsAbove(s: Site, existing: seq<LockfileTool>, e: LockfileTool, t: LockfileTool) {
    && e.backend.Some? && "github:" <= e.backend.value && s.order.parses(e.version)
    && t in existing && HadProvenance(s, e, t)
    && forall x :: x in existing && HadProvenance(s, e, x) ==> !s.order.le(e.version, x.version) && s.order.le(x.version, t.version)
  }

  /** And the entry has no provenance on the platform itself. */
  ghost predicate ShowsLess(s: Site, existing: seq<LockfileTool>, e: LockfileTool, t: LockfileTool) {
    (s.platform in e.platforms ==> e.platforms[s.platform].provenance == None) && IsAbove(s, existing, e, t)
  }

  ghost predicate HasUrl(s: Site, e: LockfileTool) {
    s.platform in e.platforms && e.platforms[s.platform].url != None
  }

  lemma BaselineIsBelow(s: Site, existing: seq<LockfileTool>, e: LockfileTool)
    requires IsPreorder(s.order)
    ensures BaselineOf(s, existing, e).Some? <==> exists t :: IsAbove(s, existing, e, t)
    ensures BaselineOf(s, existing, e).Some? ==> IsAbove(s, existing, e, BaselineOf(s, existing, e).value)
  {
    var backend := UnwrapOr(e.backend, "");
    BaselineMeaning(s, existing, e.version, backend, None);
    var found := BaselineOf(s, existing, e);
    if e.backend.Some? {
      assert forall t :: IsPrior(s, e.version, backend, t) <==> HadProvenance(s, e, t);
      forall t | IsAbove(s, existing, e, t)
        ensures found.Some?
      {
        assert t in existing && IsPrior(s, e.version, backend, t);
      }
      if found.Some? {
        assert IsAbove(s, existing, e, found.value);
      }
    }
  }

  lemma BaselineShowsMore(s: Site, existing: seq<LockfileTool>, e: LockfileTool)
    requires IsPreorder(s.order)
    ensures BaselineFor(s, existing, e).Some? <==> exists t :: ShowsLess(s, existing, e, t)
    ensures BaselineFor(s, existing, e).Some? ==> ShowsLess(s, existing, e, BaselineFor(s, existing, e).value)
  {
    BaselineIsBelow(s, existing, e);
    if s.platform !in e.platforms || e.platforms[s.platform].provenance == None {
      assert BaselineFor(s, existing, e) == BaselineOf(s, existing, e);
      assert forall t :: ShowsLess(s, existing, e, t) <==> IsAbove(s, existing, e, t);
    }
  }

  method CheckProvenanceRegression(s: Site, existing: seq<LockfileTool>, entries: seq<LockfileTool>) returns (r: Regression)
    ensures forall b :: b in r.deferred <==>
      exists e :: e in entries && BaselineFor(s, existing, e) == Some(b) && !Downloaded(s, e)
    ensures forall v :: v in r.versions <==>
      exists e :: e in entries && e.version == v && BaselineFor(s, existing, e).Some? && Downloaded(s, e)
  {
    r := Regression([], []);
    for i := 0 to |entries|
      invariant forall b :: b in r.deferred <==>
        exists e :: e in entries[..i] && BaselineFor(s, existing, e) == Some(b) && !Downloaded(s, e)
      invariant forall v :: v in r.versions <==>
        exists e :: e in entries[..i] && e.version == v && BaselineFor(s, existing, e).Some? && Downloaded(s, e)
    {
      var e := entries[i];
      assert entries[..i + 1] == entries[..i] + [e];
      var baseline := BaselineFor(s, existing, e);
      if baseline.Some? {
        if Downloaded(s, e) {
          r := r.(versions := r.versions + [e.version]);
        } else {
          r := r.(deferred := r.deferred + [baseline.value]);
        }
      }
    }
    assert entries[..|entries|] == entries;
  }

  /** What the check defers are existing entries, each with provenance to lose. */
  lemma BaselineIsExisting(s: Site, existing: seq<LockfileTool>, e: LockfileTool)
    requires BaselineFor(s, existing, e).Some?
    ensures BaselineFor(s, existing, e).value in existing && HasProvenance(BaselineFor(s, existing, e).value, s.platform)
  {
    HighestIsThere(s, existing, e.version, UnwrapOr(e.backend, ""));
  }

  // ----- pruning -----

  /** What a pruning run is given besides the entries. */
  datatype Prune = Prune(site: Site, requested: set<string>)

  predicate Waiting(p: Prune, t: LockfileTool) {
    t.version in p.requested && !HasProvenance(t, p.site.platform)
  }

  predicate Done(p: Prune, t: LockfileTool) {
    t.version in p.requested && HasProvenance(t, p.site.platform)
  }

  function StillNeeded(p: Prune, tools: seq<LockfileTool>): set<ToolKey> {
    set t | t in tools && Waiting(p, t) && BaselineOf(p.site, tools, t).Some? :: BaselineOf(p.site, tools, t).value.Key()
  }

  /** `t` has its provenance, and `k` is the baseline it was waiting to be compared with. */
  predicate Frees(p: Prune, tools: seq<LockfileTool>, t: LockfileTool, k: ToolKey) {
    && Done(p, t) && BaselineOf(p.site, tools, t).Some? && BaselineOf(p.site, tools, t).value.Key() == k
    && k.version !in p.requested && k !in StillNeeded(p, tools)
  }

  predicate Stale(p: Prune, tools: seq<LockfileTool>, k: ToolKey) {
    exists t :: t in tools && Frees(p, tools, t, k)
  }

  function Without(tools: seq<LockfileTool>, k: ToolKey): seq<LockfileTool> {
    Filter(tools, (t: LockfileTool) => t.Key() != k)
  }

  /** The first stale key, going through the entries in order. */
  function FirstStale(p: Prune, tools: seq<LockfileTool>, scanned: seq<LockfileTool>): Option<ToolKey> {
    if scanned == [] then None
    else
      var front, t := FirstStale(p, tools, scanned[..|scanned| - 1]), scanned[|scanned| - 1];
      if front.Some? then front
      else
        var baseline := BaselineOf(p.site, tools, t);
        if baseline.Some? && Frees(p, tools, t, baseline.value.Key()) then Some(baseline.value.Key()) else None
  }

  lemma {:induction false} FirstStaleIsStale(p: Prune, tools: seq<LockfileTool>, scanned: seq<LockfileTool>)
    requires forall t :: t in scanned ==> t in tools
    ensures var k := FirstStale(p, tools, scanned);
      && (k.Some? ==> Stale(p, tools, k.value))
      && (k.None? ==> forall t, j :: t in scanned ==> !Frees(p, tools, t, j))
  {
    if scanned != [] {
      var front := scanned[..|scanned| - 1];
      assert scanned == front + [scanned[|scanned| - 1]];
      FirstStaleIsStale(p, tools, front);
    }
  }

  lemma {:induction false} HighestIsThere(s: Site, tools: seq<LockfileTool>, version: string, backend: string)
    ensures var h := Highest(s, tools, version, backend); h.Some? ==> h.value in tools && IsPrior(s, version, backend, h.value)
  {
    if tools != [] {
      HighestIsThere(s, tools[..|tools| - 1], version, backend);
    }
  }

  /** Each round removes an entry. */
  lemma RoundShortens(p: Prune, tools: seq<LockfileTool>, k: ToolKey)
    requires Stale(p, tools, k)
    ensures |Without(tools, k)| < |tools|
  {
    var t :| t in tools && Frees(p, tools, t, k);
    HighestIsThere(p.site, tools, t.version, UnwrapOr(t.backend, ""));
    FilterShorter(tools, (x: LockfileTool) => x.Key() != k, BaselineOf(p.site, tools, t).value);
  }

  /** The entries after all rounds. */
  function Pruned(p: Prune, tools: seq<LockfileTool>): seq<LockfileTool>
    decreases |tools|
  {
    var k := FirstStale(p, tools, tools);
    if k.None? then tools
    else
      FirstStaleIsStale(p, tools, tools);
      RoundShortens(p, tools, k.value);
      Pruned(p, Without(tools, k.value))
  }

  method PruneVerifiedBaselines(p: Prune, before: seq<LockfileTool>) returns (tools: seq<LockfileTool>, pruned: seq<string>)
    ensures tools == Pruned(p, before)
    ensures forall v :: v in pruned ==> v !in p.requested && exists t :: t in before && t.version == v && t !in tools
    ensures forall t :: t in before && t !in tools ==> t.version in pruned
  {
    tools := before;
    pruned := [];
    while true
      invariant Pruned(p, tools) == Pruned(p, before)
      invariant forall t :: t in tools ==> t in before
      invariant forall v :: v in pruned ==> v !in p.requested && exists t :: t in before && t.version == v && t !in tools
      invariant forall t :: t in before && t !in tools ==> t.version in pruned
      decreases |tools|
    {
      var k := FindStale(p, tools);
      if k.None? {
        return;
      }
      FirstStaleIsStale(p, tools, tools);
      RoundShortens(p, tools, k.value);
      ghost var gone := StaleIsThere(p, tools, k.value);
      assert gone in before && gone.version == k.value.version;
      tools := Without(tools, k.value);
      pruned := pruned + [k.value.version];
    }
  }

  lemma StaleIsThere(p: Prune, tools: seq<LockfileTool>, k: ToolKey) returns (gone: LockfileTool)
    requires Stale(p, tools, k)
    ensures gone in tools && gone.Key() == k && k.version !in p.requested
  {
    var t :| t in tools && Frees(p, tools, t, k);
    HighestIsThere(p.site, tools, t.version, UnwrapOr(t.backend, ""));
    gone := BaselineOf(p.site, tools, t).value;
  }

  method FindStale(p: Prune, tools: seq<LockfileTool>) returns (k: Option<ToolKey>)
    ensures k == FirstStale(p, tools, tools)
  {
    k := None;
    for i := 0 to |tools|
      invariant k.None? && FirstStale(p, tools, tools[..i]) == None
    {
      assert tools[..i + 1][..i] == tools[..i];
      var baseline := BaselineOf(p.site, tools, tools[i]);
      if baseline.Some? && Frees(p, tools, tools[i], baseline.value.Key()) {
        k := Some(baseline.value.Key());
        StaleStaysFirst(p, tools, i + 1, |tools|);
        assert tools[..|tools|] == tools;
        return;
      }
    }
    assert tools[..|tools|] == tools;
  }

  lemma {:induction false} StaleStaysFirst(p: Prune, tools: seq<LockfileTool>, i: nat, n: nat)
    requires i <= n <= |tools| && FirstStale(p, tools, tools[..i]).Some?
    ensures FirstStale(p, tools, tools[..n]) == FirstStale(p, tools, tools[..i])
  {
    if i < n {
      StaleStaysFirst(p, tools, i, n - 1);
      assert tools[..n][..n - 1] == tools[..n - 1];
    }
  }

  // ----- what pruning keeps -----

  /** One round leaves what a waiting entry is compared with as it is. */
  lemma RoundKeepsBaseline(p: Prune, tools: seq<LockfileTool>, k: ToolKey, t: LockfileTool)
    requires IsPreorder(p.site.order) && DistinctKeys(tools) && Stale(p, tools, k) && t in tools && Waiting(p, t)
    ensures t in Without(tools, k) && BaselineOf(p.site, Without(tools, k), t) == BaselineOf(p.site, tools, t)
  {
    var backend := UnwrapOr(t.backend, "");
    var u :| u in tools && Frees(p, tools, u, k);
    var h := Highest(p.site, tools, t.version, backend);
    HighestIsHighest(p.site, tools, t.version, backend);
    HighestIsHighest(p.site, Without(tools, k), t.version, backend);
    if h.None? {
      return;
    }
    FreedIsNotHighest(p, tools, u, k, t, h.value);
    HighestStays(p.site, tools, t.version, backend, (x: LockfileTool) => x.Key() != k);
  }

  /** A freed baseline is not the highest prior of any waiting entry: the entry that frees it is a higher
      one, or of the same version and so waits for the same baseline. */
  lemma FreedIsNotHighest(p: Prune, tools: seq<LockfileTool>, u: LockfileTool, k: ToolKey, t: LockfileTool, h: LockfileTool)
    requires IsPreorder(p.site.order) && DistinctKeys(tools) && u in tools && Frees(p, tools, u, k)
    requires t in tools && Waiting(p, t)
    requires Highest(p.site, tools, t.version, UnwrapOr(t.backend, "")) == Some(h)
    ensures h.Key() != k
  {
    HighestIsHighest(p.site, tools, t.version, UnwrapOr(t.backend, ""));
    HighestIsHighest(p.site, tools, u.version, UnwrapOr(u.backend, ""));
    FindIs(tools, k);
    var own := BaselineOf(p.site, tools, t);
    assert own.Some? ==> own.value.Key() in StillNeeded(p, tools);
  }

  /** After all rounds nothing is stale, and what is left are entries that were there. */
  lemma {:induction false} PruningIsComplete(p: Prune, tools: seq<LockfileTool>)
    ensures forall k :: !Stale(p, Pruned(p, tools), k)
    ensures forall t :: t in Pruned(p, tools) ==> t in tools
    ensures DistinctKeys(tools) ==> DistinctKeys(Pruned(p, tools))
    decreases |tools|
  {
    FirstStaleIsStale(p, tools, tools);
    var k := FirstStale(p, tools, tools);
    if k.Some? {
      RoundShortens(p, tools, k.value);
      PruningIsComplete(p, Without(tools, k.value));
      if DistinctKeys(tools) {
        FilterDistinct(tools, (t: LockfileTool) => t.Key() != k.value);
      }
    }
  }

  /** What is left below a requested entry with provenance is requested too, or some requested entry that has
      none yet is to be compared with an entry of its key. */
  lemma OnlyNeededIsLeft(p: Prune, tools: seq<LockfileTool>, u: LockfileTool)
    requires IsPreorder(p.site.order) && u in Pruned(p, tools) && u.version in p.requested
    requires p.site.platform in u.platforms && u.platforms[p.site.platform].provenance != None
    requires exists b :: IsAbove(p.site, Pruned(p, tools), u, b)
    ensures exists b :: IsAbove(p.site, Pruned(p, tools), u, b) && (b.version in p.requested || IsAwaited(p, Pruned(p, tools), b.Key()))
  {
    var left := Pruned(p, tools);
    PruningIsComplete(p, tools);
    BaselineIsBelow(p.site, left, u);
    var b := BaselineOf(p.site, left, u).value;
    assert Done(p, u) && !Stale(p, left, b.Key());
    assert !Frees(p, left, u, b.Key());
    if b.version !in p.requested {
      var t :| t in left && Waiting(p, t) && BaselineOf(p.site, left, t).Some? && BaselineOf(p.site, left, t).value.Key() == b.Key();
      BaselineIsBelow(p.site, left, t);
      assert IsAbove(p.site, left, t, BaselineOf(p.site, left, t).value);
    }
  }

  /** A requested entry without provenance on the platform is above a highest one of this key. */
  ghost predicate IsAwaited(p: Prune, tools: seq<LockfileTool>, k: ToolKey) {
    exists t, b :: t in tools && t.version in p.requested && IsAbove(p.site, tools, t, b) && b.Key() == k
      && (p.site.platform in t.platforms ==> t.platforms[p.site.platform].provenance == None)
  }

  /** No entry of a requested version is ever removed. */
  lemma {:induction false} RequestedStay(p: Prune, tools: seq<LockfileTool>, t: LockfileTool)
    requires t in tools && t.version in p.requested
    ensures t in Pruned(p, tools)
    decreases |tools|
  {
    FirstStaleIsStale(p, tools, tools);
    var k := FirstStale(p, tools, tools);
    if k.Some? {
      RoundShortens(p, tools, k.value);
      var gone := StaleIsThere(p, tools, k.value);
      RequestedStay(p, Without(tools, k.value), t);
    }
  }

  /** Every entry still waiting for its provenance is compared with the same entry as before, or with none
      as before. */
  lemma {:induction false} WaitingKeepTheirBaseline(p: Prune, tools: seq<LockfileTool>, t: LockfileTool)
    requires IsPreorder(p.site.order) && DistinctKeys(tools) && t in tools && Waiting(p, t)
    ensures t in Pruned(p, tools)
    ensures BaselineOf(p.site, Pruned(p, tools), t) == BaselineOf(p.site, tools, t)
    decreases |tools|
  {
    FirstStaleIsStale(p, tools, tools);
    var k := FirstStale(p, tools, tools);
    if k.Some? {
      RoundShortens(p, tools, k.value);
      RoundKeepsBaseline(p, tools, k.value, t);
      FilterDistinct(tools, (x: LockfileTool) => x.Key() != k.value);
      WaitingKeepTheirBaseline(p, Without(tools, k.value), t);
    }
  }

  /** Whatever was removed had been superseded: a requested entry of the same backend and a strictly higher
      version, with provenance of its own, is still there. */
  lemma {:induction false} RemovedWereSuperseded(p: Prune, tools: seq<LockfileTool>, gone: LockfileTool) returns (u: LockfileTool)
    requires IsPreorder(p.site.order) && DistinctKeys(tools) && gone in tools && gone !in Pruned(p, tools)
    ensures u in Pruned(p, tools) && Done(p, u) && u.backend == gone.backend
    ensures !p.site.order.le(u.version, gone.version)
    ensures gone.version !in p.requested && HasProvenance(gone, p.site.platform)
    decreases |tools|
  {
    FirstStaleIsStale(p, tools, tools);
    var k := FirstStale(p, tools, tools).value;
    RoundShortens(p, tools, k);
    if gone.Key() != k {
      FilterDistinct(tools, (x: LockfileTool) => x.Key() != k);
      u := RemovedWereSuperseded(p, Without(tools, k), gone);
    } else {
      u :| u in tools && Frees(p, tools, u, k);
      BaselineMeaning(p.site, tools, u.version, UnwrapOr(u.backend, ""), None);
      FindIs(tools, k);
      RequestedStay(p, tools, u);
    }
  }
}
