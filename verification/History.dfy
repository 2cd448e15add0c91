/** Every operation on a lockfile, and what holds over whole histories of them (src/lockfile.rs). */
module History {
  import opened Entries
  import opened EntryMergeLaws
  import opened Lockfiles
  import opened MergedView
  import opened Preserving
  import opened ProvenanceBaselines
  import opened ProvenanceHistory
  import opened Records
  import opened ToolLists
  import opened Update
  import opened Wrappers

  datatype Change =
    | Upgrade
    | SetPlatformInfo(short: string, key: ToolKey, backend: Option<string>, platform: Platform, info: PlatformInfo)
    | BindRequest(short: string, specifier: string, key: ToolKey)
    | SwitchBackend(short: string, from: string, versions: set<string>, to: NewBackend)
    | RetainVersions(short: string, versions: set<string>)
    | RetainTools(shorts: set<string>, backends: set<string>)
    | RetainGraphs(keep: (string, LockfileTool) -> bool)
    | RetainUnsuperseded(inScope: (string, LockfileTool) -> bool)
    | Absorb(other: ToolMap)
    | UpdateTool(short: string, site: Site, context: Context, shared: bool, selected: set<Selected>)
    | PruneBaselines(short: string, prune: Prune)

  /** What a change makes of one tool's entries. */
  ghost predicate Effect(versioned: bool, change: Change, short: string, before: seq<LockfileTool>, after: seq<LockfileTool>) {
    match change
    case Upgrade => after == before
    case SetPlatformInfo(s, k, backend, p, info) => after == if s == short then PlatformSet(before, k, backend, p, info) else before
    case BindRequest(s, specifier, k) => after == if s == short && versioned then Bound(before, {specifier}, k) else before
    case SwitchBackend(s, from, versions, to) => after == if s == short then AllSwitched(before, from, versions, to) else before
    case RetainVersions(s, versions) =>
      after == if s == short then Filter(before, (t: LockfileTool) => t.version in versions) else before
    case RetainTools(shorts, backends) => after == if ShouldKeep(short, before, shorts, backends) then before else []
    case RetainGraphs(keep) => after == Filter(before, (t: LockfileTool) => !HasGraph(t) || keep(short, t))
    case RetainUnsuperseded(inScope) => after == Filter(before, Needed(inScope, short, before))
    case Absorb(other) => after == AbsorbAll(before, EntriesOf(other, short))
    case UpdateTool(s, site, context, shared, selected) =>
      if s == short then exists baselines :: IsCheckedUpdate(site, Input(context, shared, selected, baselines), versioned, before, after)
      else after == before
    case PruneBaselines(s, prune) => after == if s == short then Pruned(prune, before) else before
  }

  /** The lockfile after a change: its version, and every tool's entries. */
  ghost predicate Next(change: Change, before: Snapshot, after: Snapshot) {
    && after.version == (if change.Upgrade? then CURRENT_LOCKFILE_VERSION else before.version)
    && forall short :: Effect(before.version > 0, change, short, before.For(short), after.For(short))
  }

  predicate ConcernsOneTool(change: Change) {
    match change
    case Upgrade => false
    case RetainTools(_, _) => false
    case RetainGraphs(_) => false
    case RetainUnsuperseded(_) => false
    case Absorb(_) => false
    case _ => true
  }

  function Now(lockfile: Lockfile): Snapshot
    reads lockfile
  {
    Snapshot(lockfile.lockfileVersion, lockfile.tools)
  }

  method ApplyToAll(lockfile: Lockfile, change: Change)
    requires !ConcernsOneTool(change)
    modifies lockfile`tools, lockfile`lockfileVersion
    ensures Next(change, old(Now(lockfile)), Now(lockfile))
  {
    match change
    case Upgrade =>
      lockfile.Upgrade();
    case RetainTools(shorts, backends) =>
      lockfile.RetainTools(shorts, backends);
    case RetainGraphs(keep) =>
      lockfile.RetainGraphEntries(keep);
    case RetainUnsuperseded(inScope) =>
      lockfile.RetainUnsupersededUnboundEntries(inScope);
    case Absorb(other) =>
      lockfile.Absorb(other);
  }

  method ApplyToOne(lockfile: Lockfile, change: Change)
    requires ConcernsOneTool(change)
    modifies lockfile`tools
    ensures Effect(lockfile.UsesRequestBindings(), change, change.short,
                   EntriesOf(old(lockfile.tools), change.short), EntriesOf(lockfile.tools, change.short))
    ensures forall short :: short != change.short ==> EntriesOf(lockfile.tools, short) == EntriesOf(old(lockfile.tools), short)
  {
    match change
    case SetPlatformInfo(short, k, backend, p, info) =>
      lockfile.SetPlatformInfo(short, k, backend, p, info);
    case BindRequest(short, specifier, k) =>
      NotFoundNotBound(EntriesOf(lockfile.tools, short), specifier, k);
      var bound := lockfile.BindRequest(short, specifier, k);
    case SwitchBackend(short, from, versions, to) =>
      var moved := lockfile.SwitchBackend(short, from, versions, to);
    case RetainVersions(short, versions) =>
      lockfile.RetainToolVersions(short, versions);
    case UpdateTool(short, site, context, shared, selected) =>
      var errors, u := UpdateChecked(lockfile, short, site, context, shared, selected);
      assert u == Input(context, shared, selected, u.baselines);
    case PruneBaselines(short, prune) =>
      var kept, pruned := PruneVerifiedBaselines(prune, EntriesOf(lockfile.tools, short));
      if short in lockfile.tools {
        lockfile.tools := lockfile.tools[short := kept];
      }
  }

  lemma OthersStay(versioned: bool, change: Change, short: string, entries: seq<LockfileTool>)
    requires ConcernsOneTool(change) && short != change.short
    ensures Effect(versioned, change, short, entries, entries)
  {
  }

  /** The operations do what `Next` says. */
  method Apply(lockfile: Lockfile, change: Change)
    modifies lockfile`tools, lockfile`lockfileVersion
    ensures Next(change, old(Now(lockfile)), Now(lockfile))
  {
    ghost var before := Now(lockfile);
    if ConcernsOneTool(change) {
      ApplyToOne(lockfile, change);
      forall short
        ensures Effect(before.version > 0, change, short, before.For(short), Now(lockfile).For(short))
      {
        if short != change.short {
          OthersStay(before.version > 0, change, short, before.For(short));
        }
      }
    } else {
      ApplyToAll(lockfile, change);
    }
  }

  // ----- distinct keys -----

  /** Every change keeps a tool's keys distinct. */
  lemma KeysStayDistinct(versioned: bool, change: Change, short: string, before: seq<LockfileTool>, after: seq<LockfileTool>)
    requires Effect(versioned, change, short, before, after) && DistinctKeys(before)
    ensures DistinctKeys(after)
  {
    match change
    case Upgrade =>
    case SetPlatformInfo(_, k, backend, p, info) =>
      FindAtIndex(before, k);
    case BindRequest(_, _, _) =>
    case SwitchBackend(_, _, _, _) =>
    case RetainVersions(_, versions) =>
      FilterDistinct(before, (t: LockfileTool) => t.version in versions);
    case RetainTools(_, _) =>
    case RetainGraphs(keep) =>
      FilterDistinct(before, (t: LockfileTool) => !HasGraph(t) || keep(short, t));
    case RetainUnsuperseded(inScope) =>
      FilterDistinct(before, Needed(inScope, short, before));
    case Absorb(other) =>
      AbsorbDistinct(before, EntriesOf(other, short));
    case UpdateTool(s, site, context, shared, selected) =>
      if s == short {
        var baselines :| IsCheckedUpdate(site, Input(context, shared, selected, baselines), versioned, before, after);
        if !Regresses(site, before, context.entries) {
          UpdateIsDistinct(Input(context, shared, selected, baselines), versioned, before, after);
        }
      }
    case PruneBaselines(_, prune) =>
      PruningIsComplete(prune, before);
  }

  ghost predicate AllDistinct(s: Snapshot) {
    forall short :: DistinctKeys(s.For(short))
  }

  /** A run of the operations, as the states it goes through. */
  ghost predicate IsRun(states: seq<Snapshot>, changes: seq<Change>) {
    |states| == |changes| + 1 && forall i :: 0 <= i < |changes| ==> Next(changes[i], states[i], states[i + 1])
  }

  lemma RunStep(states: seq<Snapshot>, changes: seq<Change>, i: nat, short: string)
    requires IsRun(states, changes) && i < |changes|
    ensures Effect(states[i].version > 0, changes[i], short, states[i].For(short), states[i + 1].For(short))
  {
    assert Next(changes[i], states[i], states[i + 1]);
  }

  /** From distinct keys on, keys stay distinct for ever. */
  lemma {:induction false} AlwaysDistinct(states: seq<Snapshot>, changes: seq<Change>, n: nat)
    requires IsRun(states, changes) && AllDistinct(states[0]) && n < |states|
    ensures AllDistinct(states[n])
  {
    if n > 0 {
      AlwaysDistinct(states, changes, n - 1);
      forall short
        ensures DistinctKeys(states[n].For(short))
      {
        RunStep(states, changes, n - 1, short);
        KeysStayDistinct(states[n - 1].version > 0, changes[n - 1], short, states[n - 1].For(short), states[n].For(short));
      }
    }
  }

  // ----- pins -----

  /** A checksum usable as a pin is recorded for this version and platform. */
  ghost predicate Pins(tools: seq<LockfileTool>, version: string, p: Platform, pin: Pin) {
    exists t :: t in tools && EntryPins(t, version, p, pin)
  }

  ghost predicate EntryPins(t: LockfileTool, version: string, p: Platform, pin: Pin) {
    t.version == version && p in t.platforms && HasPin(t.platforms[p], pin)
  }

  /** The change itself brings the pin. */
  ghost predicate Brings(change: Change, short: string, version: string, p: Platform, pin: Pin) {
    match change
    case SetPlatformInfo(s, k, _, platform, info) => s == short && k.version == version && platform == p && HasPin(info, pin)
    case Absorb(other) => Pins(EntriesOf(other, short), version, p, pin)
    case UpdateTool(s, _, context, _, _) => s == short && Pins(context.entries, version, p, pin)
    case _ => false
  }

  /** Lists whose entries' platform records come from another list's entries of the same version. */
  ghost predicate NoNewRecords(before: seq<LockfileTool>, after: seq<LockfileTool>) {
    forall t :: t in after ==> RecordsFrom(before, t)
  }

  ghost predicate RecordsFrom(before: seq<LockfileTool>, t: LockfileTool) {
    t.platforms == map[] || exists x :: x in before && x.version == t.version && x.platforms == t.platforms
  }

  lemma NoNewPins(before: seq<LockfileTool>, after: seq<LockfileTool>, version: string, p: Platform, pin: Pin)
    requires NoNewRecords(before, after) && Pins(after, version, p, pin)
    ensures Pins(before, version, p, pin)
  {
    var t :| t in after && EntryPins(t, version, p, pin);
    assert RecordsFrom(before, t);
    var x :| x in before && x.version == t.version && x.platforms == t.platforms;
    assert EntryPins(x, version, p, pin);
  }

  lemma SetPlatformPin(before: seq<LockfileTool>, k: ToolKey, backend: Option<string>, platform: Platform, info: PlatformInfo,
                       version: string, p: Platform, pin: Pin)
    requires Pins(PlatformSet(before, k, backend, platform, info), version, p, pin)
    ensures Pins(before, version, p, pin) || (k.version == version && platform == p && HasPin(info, pin))
  {
    var after := PlatformSet(before, k, backend, platform, info);
    var t :| t in after && EntryPins(t, version, p, pin);
    if t !in before {
      var i := IndexOf(before, k);
      var own := if i < |before| then before[i] else NewEntry(k, backend);
      assert t == WithPlatform(own, platform, info);
      if p == platform && p in own.platforms {
        PinOrigin(info, own.platforms[p], pin);
      }
      assert i < |before| ==> own in before && (EntryPins(own, version, p, pin) ==> Pins(before, version, p, pin));
    } else {
      assert Pins(before, version, p, pin);
    }
  }

  lemma {:induction false} AbsorbedPin(before: seq<LockfileTool>, others: seq<LockfileTool>, version: string, p: Platform, pin: Pin)
    requires Pins(AbsorbAll(before, others), version, p, pin)
    ensures Pins(before, version, p, pin) || Pins(others, version, p, pin)
  {
    if others != [] {
      var front, last := others[..|others| - 1], others[|others| - 1];
      assert others == front + [last];
      var own := AbsorbAll(before, front);
      var t :| t in AbsorbOne(own, last) && EntryPins(t, version, p, pin);
      var i := IndexOf(own, last.Key());
      if t in own || i < |own| {
        assert t !in own ==> t == Absorbed(own[i], last) && own[i] in own && EntryPins(own[i], version, p, pin);
        AbsorbedPin(before, front, version, p, pin);
        if x :| x in front && EntryPins(x, version, p, pin) {
          assert x in others;
        }
      } else {
        assert t == last;
      }
    }
  }

  lemma MergedPin(c: Context, existing: seq<LockfileTool>, merged: seq<LockfileTool>, version: string, p: Platform, pin: Pin)
    requires IsMerge(c, existing, merged) && Pins(merged, version, p, pin)
    ensures Pins(existing, version, p, pin) || Pins(c.entries, version, p, pin)
  {
    var t :| t in merged && EntryPins(t, version, p, pin);
    var tree := Origin(c, existing, t.Key(), p);
    var info := TreePin(tree, pin);
    if FromFresh(c.entries, t.Key(), p, info) {
      var e :| e in c.entries && e.Key() == t.Key() && Get(e.platforms, p) == Some(info);
      assert EntryPins(e, version, p, pin);
    } else {
      var x :| x in existing && x.version == version && Get(x.platforms, p) == Some(info);
      assert EntryPins(x, version, p, pin);
    }
  }

  lemma UpdatePin(u: Input, versioned: bool, before: seq<LockfileTool>, after: seq<LockfileTool>,
                  version: string, p: Platform, pin: Pin)
    requires IsUpdate(u, versioned, before, after) && (forall b :: b in u.baselines ==> b in before)
    requires Pins(after, version, p, pin)
    ensures Pins(before, version, p, pin) || Pins(u.context.entries, version, p, pin)
  {
    var merged, consumed :| StartsWith(u, versioned, before, after, merged, consumed);
    var preserved := Preserved(u, before, merged, consumed);
    BindingKeepsRest(preserved, u.context.entries);
    var i :| 0 <= i < |after| && EntryPins(after[i], version, p, pin);
    assert SameButRequests(after[i], preserved[i]);
    PreservedPin(u, before, merged, consumed, preserved[i], version, p, pin);
  }

  lemma PreservedPin(u: Input, existing: seq<LockfileTool>, merged: seq<LockfileTool>, consumed: set<ToolKey>, t: LockfileTool,
                     version: string, p: Platform, pin: Pin)
    requires IsMerge(u.context, existing, merged) && (forall b :: b in u.baselines ==> b in existing)
    requires t in Preserved(u, existing, merged, consumed) && EntryPins(t, version, p, pin)
    ensures Pins(existing, version, p, pin) || Pins(u.context.entries, version, p, pin)
  {
    PreservedFrom(u, existing, merged, consumed, t);
    if t in merged {
      MergedPin(u.context, existing, merged, version, p, pin);
    } else {
      var x :| x in existing && SameButRequests(x, t);
      assert EntryPins(x, version, p, pin);
    }
  }

  /** A pin after a change was there before it, or the change's own data brings it, for the same version and
      platform: no operation makes an unconfirmed checksum a pin or moves one elsewhere. */
  lemma PinStep(versioned: bool, change: Change, short: string, before: seq<LockfileTool>, after: seq<LockfileTool>,
                version: string, p: Platform, pin: Pin)
    requires Effect(versioned, change, short, before, after) && Pins(after, version, p, pin)
    ensures Pins(before, version, p, pin) || Brings(change, short, version, p, pin)
  {
    match change
    case SetPlatformInfo(s, k, backend, platform, info) =>
      if s == short {
        SetPlatformPin(before, k, backend, platform, info, version, p, pin);
      }
    case Absorb(other) =>
      AbsorbedPin(before, EntriesOf(other, short), version, p, pin);
    case UpdateTool(s, site, context, shared, selected) =>
      if s == short {
        var baselines :| IsCheckedUpdate(site, Input(context, shared, selected, baselines), versioned, before, after);
        if !Regresses(site, before, context.entries) {
          DeferredAreExisting(site, before, context.entries, baselines);
          UpdatePin(Input(context, shared, selected, baselines), versioned, before, after, version, p, pin);
        }
      }
    case _ =>
      RecordsStay(versioned, change, short, before, after);
      NoNewPins(before, after, version, p, pin);
  }

  /** The other changes bring no records at all. */
  lemma RecordsStay(versioned: bool, change: Change, short: string, before: seq<LockfileTool>, after: seq<LockfileTool>)
    requires Effect(versioned, change, short, before, after)
    requires !change.SetPlatformInfo? && !change.Absorb? && !change.UpdateTool?
    ensures NoNewRecords(before, after)
  {
    match change
    case PruneBaselines(_, prune) =>
      PruningIsComplete(prune, before);
    case _ =>
  }

  lemma PinOverStep(states: seq<Snapshot>, changes: seq<Change>, i: nat, short: string, version: string, p: Platform, pin: Pin)
    requires IsRun(states, changes) && i < |changes| && Pins(states[i + 1].For(short), version, p, pin)
    ensures Pins(states[i].For(short), version, p, pin) || Brings(changes[i], short, version, p, pin)
  {
    RunStep(states, changes, i, short);
    PinStep(states[i].version > 0, changes[i], short, states[i].For(short), states[i + 1].For(short), version, p, pin);
  }

  /** What holds at the end held at the start or was brought on the way. */
  lemma {:induction false} TracedBack(holds: nat -> bool, brought: nat -> bool, n: nat)
    requires holds(n) && forall i: nat :: i < n && holds(i + 1) ==> holds(i) || brought(i)
    ensures holds(0) || exists i: nat :: i < n && brought(i)
  {
    if n > 0 && holds(n - 1) {
      TracedBack(holds, brought, n - 1);
    }
  }

  /** Over any history, a checksum usable as a pin was one in the first state or in the data of some change,
      for the same tool, version and platform. */
  lemma PinsHaveOrigins(states: seq<Snapshot>, changes: seq<Change>, n: nat, short: string, version: string, p: Platform, pin: Pin)
    requires IsRun(states, changes) && n < |states| && Pins(states[n].For(short), version, p, pin)
    ensures Pins(states[0].For(short), version, p, pin) || exists i :: 0 <= i < n && Brings(changes[i], short, version, p, pin)
  {
    ghost var holds := (i: nat) => i < |states| && Pins(states[i].For(short), version, p, pin);
    ghost var brought := (i: nat) => i < |changes| && Brings(changes[i], short, version, p, pin);
    forall i: nat | i < n && holds(i + 1)
      ensures holds(i) || brought(i)
    {
      PinOverStep(states, changes, i, short, version, p, pin);
    }
    TracedBack(holds, brought, n);
  }

  // ----- provenance over repeated installs -----

  lemma FindPlatformSet(tools: seq<LockfileTool>, k: ToolKey, backend: Option<string>, p: Platform, info: PlatformInfo, j: ToolKey)
    ensures Find(PlatformSet(tools, k, backend, p, info), j) ==
      if j != k then Find(tools, j)
      else Some(WithPlatform(UnwrapOr(Find(tools, k), NewEntry(k, backend)), p, info))
  {
    FindAtIndex(tools, k);
    var own := UnwrapOr(Find(tools, k), NewEntry(k, backend));
    FindIs(tools, k);
    FindPut(tools, WithPlatform(own, p, info), j);
  }

  /** The entries after one `set_platform_info` call after another, all for one entry and platform. */
  function AfterCalls(tools: seq<LockfileTool>, k: ToolKey, backend: Option<string>, p: Platform, calls: seq<PlatformInfo>):
    seq<LockfileTool>
  {
    if calls == [] then tools
    else PlatformSet(AfterCalls(tools, k, backend, p, calls[..|calls| - 1]), k, backend, p, calls[|calls| - 1])
  }

  /** The record already there, if there is one, as the first of a history. */
  function There(tools: seq<LockfileTool>, k: ToolKey, p: Platform): seq<PlatformInfo> {
    var entry := Find(tools, k);
    if entry.Some? && p in entry.value.platforms then [entry.value.platforms[p]] else []
  }

  lemma IsWritten(own: LockfileTool, p: Platform, info: PlatformInfo)
    requires info.url.Some?
    ensures p in WithPlatform(own, p, info).platforms
    ensures WithPlatform(own, p, info).platforms[p] == if p in own.platforms then info.Update(own.platforms[p]) else info
  {
  }

  lemma StoredSnoc(history: seq<PlatformInfo>, info: PlatformInfo)
    ensures Stored(history + [info]) == if history == [] then info else info.Update(Stored(history))
  {
    assert (history + [info])[..|history|] == history;
  }

  /** What a history of records comes to, if it is one. */
  function Outcome(history: seq<PlatformInfo>): seq<PlatformInfo> {
    if history == [] then [] else [Stored(history)]
  }

  /** The entries hold what the history comes to. */
  ghost predicate Holds(tools: seq<LockfileTool>, k: ToolKey, p: Platform, history: seq<PlatformInfo>) {
    There(tools, k, p) == Outcome(history)
  }

  lemma OneCallIsStored(tools: seq<LockfileTool>, k: ToolKey, backend: Option<string>, p: Platform, info: PlatformInfo,
                        history: seq<PlatformInfo>)
    requires info.url.Some? && Holds(tools, k, p, history)
    ensures Holds(PlatformSet(tools, k, backend, p, info), k, p, history + [info])
  {
    FindPlatformSet(tools, k, backend, p, info, k);
    StoredSnoc(history, info);
    var own := UnwrapOr(Find(tools, k), NewEntry(k, backend));
    IsWritten(own, p, info);
    assert p in own.platforms <==> history != [];
    assert p in own.platforms ==> There(tools, k, p)[0] == own.platforms[p];
  }

  /** Calls that each give a URL go on with a history: they store the fold of their updates over it. */
  lemma {:induction false} CallsGoOn(tools: seq<LockfileTool>, k: ToolKey, backend: Option<string>, p: Platform,
                                     calls: seq<PlatformInfo>, history: seq<PlatformInfo>, n: nat)
    requires n <= |calls| && (forall i :: 0 <= i < |calls| ==> calls[i].url.Some?) && Holds(tools, k, p, history)
    ensures Holds(AfterCalls(tools, k, backend, p, calls[..n]), k, p, history + calls[..n])
  {
    if n == 0 {
      assert history + calls[..0] == history;
    } else {
      CallsGoOn(tools, k, backend, p, calls, history, n - 1);
      NextCallIsStored(tools, k, backend, p, calls, history, n);
    }
  }

  lemma NextCallIsStored(tools: seq<LockfileTool>, k: ToolKey, backend: Option<string>, p: Platform,
                         calls: seq<PlatformInfo>, history: seq<PlatformInfo>, n: nat)
    requires 0 < n <= |calls| && calls[n - 1].url.Some?
    requires Holds(AfterCalls(tools, k, backend, p, calls[..n - 1]), k, p, history + calls[..n - 1])
    ensures Holds(AfterCalls(tools, k, backend, p, calls[..n]), k, p, history + calls[..n])
  {
    var before := AfterCalls(tools, k, backend, p, calls[..n - 1]);
    OneCallIsStored(before, k, backend, p, calls[n - 1], history + calls[..n - 1]);
    AfterOneMore(tools, k, backend, p, calls, n);
    assert history + calls[..n - 1] + [calls[n - 1]] == history + calls[..n];
  }

  lemma AfterOneMore(tools: seq<LockfileTool>, k: ToolKey, backend: Option<string>, p: Platform, calls: seq<PlatformInfo>, n: nat)
    requires 0 < n <= |calls|
    ensures AfterCalls(tools, k, backend, p, calls[..n]) ==
      PlatformSet(AfterCalls(tools, k, backend, p, calls[..n - 1]), k, backend, p, calls[n - 1])
  {
    assert calls[..n][..n - 1] == calls[..n - 1];
  }

  lemma CallsAreStored(tools: seq<LockfileTool>, k: ToolKey, backend: Option<string>, p: Platform, calls: seq<PlatformInfo>)
    requires forall i :: 0 <= i < |calls| ==> calls[i].url.Some?
    ensures There(AfterCalls(tools, k, backend, p, calls), k, p) == Outcome(There(tools, k, p) + calls)
  {
    assert Holds(tools, k, p, There(tools, k, p));
    CallsGoOn(tools, k, backend, p, calls, There(tools, k, p), |calls|);
    assert calls[..|calls|] == calls;
  }

  /** And they touch no other key. */
  lemma {:induction false} CallsTouchNoOther(tools: seq<LockfileTool>, k: ToolKey, backend: Option<string>, p: Platform,
                                             calls: seq<PlatformInfo>, j: ToolKey)
    requires j != k
    ensures Find(AfterCalls(tools, k, backend, p, calls), j) == Find(tools, j)
  {
    if calls != [] {
      var front := calls[..|calls| - 1];
      CallsTouchNoOther(tools, k, backend, p, front, j);
      FindPlatformSet(AfterCalls(tools, k, backend, p, front), k, backend, p, calls[|calls| - 1], j);
    }
  }

  /** What the lockfile vouches for after any number of installs of one entry is the merge of the provenance
      of the last stretch that agrees on the artifact, counting the record that was there as the first
      install, and as strong as the strongest of them. */
  lemma LockedProvenance(tools: seq<LockfileTool>, k: ToolKey, backend: Option<string>, p: Platform, calls: seq<PlatformInfo>)
    requires Downloads(There(tools, k, p) + calls)
    ensures var history := There(tools, k, p) + calls;
      var stretch, found := history[LinkedFrom(history)..], There(AfterCalls(tools, k, backend, p, calls), k, p);
      && |found| == 1 && found[0].provenance == MergedProvenance(stretch)
      && forall i :: 0 <= i < |stretch| ==> Rank(stretch[i].provenance) <= Rank(found[0].provenance)
  {
    var history := There(tools, k, p) + calls;
    assert forall i :: 0 <= i < |calls| ==> calls[i] == history[|history| - |calls| + i] && calls[i] in history;
    CallsAreStored(tools, k, backend, p, calls);
    StoredProvenance(history);
    MergedProvenanceIsStrongest(history[LinkedFrom(history)..]);
  }
}
