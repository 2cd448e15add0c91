/**
 A lockfile and the operations that change its entries in place (src/lockfile.rs, `Lockfile` and
 `merge_lockfile_preserving_root`).
 */
module Lockfiles {
  import opened Entries
  import opened Records
  import opened ToolLists
  import opened Wrappers

  type ToolMap = map<string, seq<LockfileTool>>

  function EntriesOf(tools: ToolMap, short: string): seq<LockfileTool> {
    if short in tools then tools[short] else []
  }

  // ----- what the operations do to one tool's entries -----

  function Rebound(t: LockfileTool, chosen: bool, specifiers: set<string>, options: Options): LockfileTool {
    if t.options != options then t
    else if chosen then t.(specifiers := t.specifiers + specifiers)
    else t.(specifiers := t.specifiers - specifiers)
  }

  /** The requests are bound to the entry of `k`, and to no other entry of its options. */
  function Bound(tools: seq<LockfileTool>, specifiers: set<string>, k: ToolKey): (r: seq<LockfileTool>)
    ensures |r| == |tools| && forall i :: 0 <= i < |r| ==> r[i].Key() == tools[i].Key()
  {
    var target := IndexOf(tools, k);
    if target == |tools| then tools
    else seq(|tools|, i requires 0 <= i < |tools| => Rebound(tools[i], i == target, specifiers, k.options))
  }

  function WithPlatform(t: LockfileTool, platform: Platform, info: PlatformInfo): LockfileTool {
    var merged := if platform in t.platforms then info.Update(t.platforms[platform]) else info;
    if merged.IsEmpty() then t else t.(platforms := t.platforms[platform := merged])
  }

  function NewEntry(k: ToolKey, backend: Option<string>): LockfileTool {
    LockfileTool(k.version, backend, {}, k.options, map[], None, None, None)
  }

  function PlatformSet(tools: seq<LockfileTool>, k: ToolKey, backend: Option<string>, platform: Platform, info: PlatformInfo):
    seq<LockfileTool>
  {
    var i := IndexOf(tools, k);
    if i < |tools| then tools[i := WithPlatform(tools[i], platform, info)]
    else tools + [WithPlatform(NewEntry(k, backend), platform, info)]
  }

  type NewBackend = string -> Option<string>

  predicate Switches(t: LockfileTool, from: string, versions: set<string>, to: NewBackend) {
    t.backend == Some(from) && t.version in versions && to(t.version).Some?
  }

  function Switched(t: LockfileTool, from: string, versions: set<string>, to: NewBackend): LockfileTool {
    if Switches(t, from, versions, to) then t.(backend := to(t.version), platforms := map[], aube := None, uv := None) else t
  }

  function AllSwitched(tools: seq<LockfileTool>, from: string, versions: set<string>, to: NewBackend):
    seq<LockfileTool>
  {
    seq(|tools|, i requires 0 <= i < |tools| => Switched(tools[i], from, versions, to))
  }

  datatype Move = Move(version: string, backend: string, hadPlatforms: bool)

  predicate HasData(t: LockfileTool) {
    exists p :: p in t.platforms && !t.platforms[p].IsEmpty()
  }

  function Moves(tools: seq<LockfileTool>, from: string, versions: set<string>, to: NewBackend): seq<Move> {
    if tools == [] then []
    else
      var front, t := Moves(tools[..|tools| - 1], from, versions, to), tools[|tools| - 1];
      if Switches(t, from, versions, to) then front + [Move(t.version, to(t.version).value, HasData(t))] else front
  }

  /** What comparing provenance looks at: its kind, and not the URL of a SLSA one. */
  function KindOf(p: Option<Provenance>): Option<Provenance> {
    if p.Some? && p.value.Slsa? then Some(Slsa(None)) else p
  }

  lemma KindIsRank(p: Option<Provenance>, q: Option<Provenance>)
    ensures KindOf(p) == KindOf(q) <==> Rank(p) == Rank(q)
  {
  }

  function PersistedArtifact(a: ArtifactInfo): ArtifactInfo {
    a.(size := None, provenance := KindOf(a.provenance))
  }

  function PersistedArtifacts(artifacts: seq<ArtifactInfo>): (r: seq<ArtifactInfo>)
    ensures |r| == |artifacts| && forall i :: 0 <= i < |r| ==> r[i] == PersistedArtifact(artifacts[i])
  {
    seq(|artifacts|, i requires 0 <= i < |artifacts| => PersistedArtifact(artifacts[i]))
  }

  /** What of a record is compared to see whether another says the same. */
  function Persisted(info: PlatformInfo): PlatformInfo {
    info.(size := None, downloadHeaders := None, provenance := KindOf(info.provenance),
          additionalArtifacts := PersistedArtifacts(info.additionalArtifacts))
  }

  /** `bound` has requests and is taken to make `t` redundant: for each platform of `t` it has a record that
      compares equal. */
  predicate Covers(bound: LockfileTool, t: LockfileTool) {
    && bound.specifiers != {} && bound.version == t.version && bound.backend == t.backend
    && forall p :: p in t.platforms ==> p in bound.platforms && Persisted(bound.platforms[p]) == Persisted(t.platforms[p])
  }

  predicate Superseded(t: LockfileTool, tools: seq<LockfileTool>) {
    t.specifiers == {} && t.uv.None? && t.aube.None? && exists bound :: bound in tools && Covers(bound, t)
  }

  predicate HasGraph(t: LockfileTool) {
    t.uv.Some? || t.aube.Some?
  }

  /** Tools by name and, but for Python packages, by a recorded backend. */
  predicate ShouldKeep(short: string, tools: seq<LockfileTool>, keepShorts: set<string>, keepBackends: set<string>) {
    || short in keepShorts
    || (&& !("pypi:" <= short) && !("pipx:" <= short)
        && exists t :: t in tools && t.backend.Some? && t.backend.value in keepBackends)
  }

  lemma NamesBackend(tools: seq<LockfileTool>, backends: set<string>)
    ensures (exists t :: t in tools && t.backend.Some? && t.backend.value in backends) <==>
      exists i :: 0 <= i < |tools| && exists b :: b in backends && tools[i].backend == Some(b)
  {
    if t :| t in tools && t.backend.Some? && t.backend.value in backends {
      var i :| 0 <= i < |tools| && tools[i] == t;
    }
  }

  /** An entry of another lockfile for a key this one has: it adds requests, and what this one lacks if both
      are from the same backend. */
  function Absorbed(own: LockfileTool, other: LockfileTool): LockfileTool {
    var same := own.backend.Some? && own.backend == other.backend;
    own.(
      specifiers := own.specifiers + other.specifiers,
      uv := if same then own.uv.Or(other.uv) else own.uv,
      aube := if same then own.aube.Or(other.aube) else own.aube,
      provenance := if same then own.provenance.Or(other.provenance) else own.provenance)
  }

  function AbsorbOne(tools: seq<LockfileTool>, other: LockfileTool): seq<LockfileTool> {
    var i := IndexOf(tools, other.Key());
    if i < |tools| then tools[i := Absorbed(tools[i], other)] else tools + [other]
  }

  function AbsorbAll(tools: seq<LockfileTool>, others: seq<LockfileTool>): seq<LockfileTool> {
    if others == [] then tools
    else AbsorbOne(AbsorbAll(tools, others[..|others| - 1]), others[|others| - 1])
  }

  function MergedMaps(root: ToolMap, other: ToolMap): ToolMap {
    map short | short in root.Keys + other.Keys :: AbsorbAll(EntriesOf(root, short), EntriesOf(other, short))
  }

  method AbsorbEntries(tools: seq<LockfileTool>, others: seq<LockfileTool>) returns (entries: seq<LockfileTool>)
    ensures entries == AbsorbAll(tools, others)
  {
    entries := tools;
    for i := 0 to |others|
      invariant entries == AbsorbAll(tools, others[..i])
    {
      assert others[..i + 1][..i] == others[..i];
      var at := Position(entries, others[i].Key());
      if at < |entries| {
        entries := entries[at := Absorbed(entries[at], others[i])];
      } else {
        entries := entries + [others[i]];
      }
    }
    assert others[..|others|] == others;
  }

  // ----- the lockfile -----

  const CURRENT_LOCKFILE_VERSION := 4

  class Lockfile {
    var lockfileVersion: nat
    var tools: ToolMap

    constructor (version: nat, read: ToolMap)
      ensures lockfileVersion == version && tools == read
    {
      lockfileVersion := version;
      tools := read;
    }

    predicate UsesRequestBindings()
      reads this
    {
      lockfileVersion > 0
    }

    method Upgrade()
      modifies this`lockfileVersion
      ensures lockfileVersion == CURRENT_LOCKFILE_VERSION && UsesRequestBindings()
    {
      lockfileVersion := CURRENT_LOCKFILE_VERSION;
    }

    method BindRequest(short: string, specifier: string, k: ToolKey) returns (bound: bool)
      modifies this`tools
      ensures bound <==> UsesRequestBindings() && Find(EntriesOf(old(tools), short), k).Some?
      ensures tools ==
        if bound then old(tools)[short := Bound(EntriesOf(old(tools), short), {specifier}, k)] else old(tools)
    {
      if !UsesRequestBindings() || short !in tools {
        return false;
      }
      var entries := tools[short];
      var target := Position(entries, k);
      FindAtIndex(entries, k);
      if target == |entries| {
        return false;
      }
      ghost var was := entries;
      for i := 0 to |entries|
        invariant |entries| == |was|
        invariant forall j :: 0 <= j < |was| ==>
          entries[j] == if j < i then Rebound(was[j], false, {specifier}, k.options) else was[j]
      {
        if entries[i].options == k.options {
          entries := entries[i := entries[i].(specifiers := entries[i].specifiers - {specifier})];
        }
      }
      entries := entries[target := entries[target].(specifiers := entries[target].specifiers + {specifier})];
      assert entries[target].specifiers == was[target].specifiers + {specifier};
      assert entries == Bound(was, {specifier}, k);
      tools := tools[short := entries];
      bound := true;
    }

    method SetPlatformInfo(short: string, k: ToolKey, backend: Option<string>, platform: Platform, info: PlatformInfo)
      modifies this`tools
      ensures tools == old(tools)[short := PlatformSet(EntriesOf(old(tools), short), k, backend, platform, info)]
    {
      var entries := EntriesOf(tools, short);
      var i := Position(entries, k);
      if i < |entries| {
        var t := entries[i];
        var merged := if platform in t.platforms then info.Update(t.platforms[platform]) else info;
        if !merged.IsEmpty() {
          t := t.(platforms := t.platforms[platform := merged]);
        }
        entries := entries[i := t];
      } else {
        var t := NewEntry(k, backend);
        if !info.IsEmpty() {
          t := t.(platforms := map[platform := info]);
        }
        entries := entries + [t];
      }
      tools := tools[short := entries];
    }

    method SwitchBackend(short: string, from: string, versions: set<string>, to: NewBackend) returns (moved: seq<Move>)
      modifies this`tools
      ensures moved == Moves(EntriesOf(old(tools), short), from, versions, to)
      ensures tools.Keys == old(tools).Keys
      ensures forall s :: s in tools ==>
        tools[s] == if s == short then AllSwitched(old(tools)[s], from, versions, to) else old(tools)[s]
    {
      moved := [];
      if short !in tools {
        return;
      }
      var entries := tools[short];
      ghost var was := entries;
      for i := 0 to |entries|
        invariant |entries| == |was|
        invariant forall j :: 0 <= j < |was| ==>
          entries[j] == if j < i then Switched(was[j], from, versions, to) else was[j]
        invariant moved == Moves(was[..i], from, versions, to)
      {
        assert was[..i + 1][..i] == was[..i];
        var entry := entries[i];
        if entry.backend == Some(from) && entry.version in versions && to(entry.version).Some? {
          var backend := to(entry.version).value;
          moved := moved + [Move(entry.version, backend, HasData(entry))];
          entries := entries[i := entry.(backend := Some(backend), platforms := map[], aube := None, uv := None)];
        }
      }
      assert was[..|was|] == was;
      assert entries == AllSwitched(was, from, versions, to);
      tools := tools[short := entries];
    }

    method RetainToolVersions(short: string, keepVersions: set<string>)
      modifies this`tools
      ensures var kept := Filter(EntriesOf(old(tools), short), (t: LockfileTool) => t.version in keepVersions);
        tools == if kept == [] then old(tools) - {short} else old(tools)[short := kept]
    {
      if short in tools {
        var kept := Filter(tools[short], (t: LockfileTool) => t.version in keepVersions);
        tools := tools[short := kept];
        if kept == [] {
          tools := tools - {short};
        }
      }
    }

    method RetainTools(keepShorts: set<string>, keepBackends: set<string>)
      modifies this`tools
      ensures forall s :: s in tools <==>
        && s in old(tools)
        && (|| s in keepShorts
            || (&& !("pypi:" <= s || "pipx:" <= s)
                && exists i :: 0 <= i < |old(tools)[s]| && exists b :: b in keepBackends && old(tools)[s][i].backend == Some(b)))
      ensures forall s :: s in tools ==> tools[s] == old(tools)[s]
    {
      forall s | s in tools
        ensures (exists t :: t in tools[s] && t.backend.Some? && t.backend.value in keepBackends) <==>
          exists i :: 0 <= i < |tools[s]| && exists b :: b in keepBackends && tools[s][i].backend == Some(b)
      {
        NamesBackend(tools[s], keepBackends);
      }
      tools := map s | s in tools && ShouldKeep(s, tools[s], keepShorts, keepBackends) :: tools[s];
    }

    method RetainGraphEntries(keep: (string, LockfileTool) -> bool)
      modifies this`tools
      ensures tools.Keys == old(tools).Keys
      ensures forall s :: s in tools ==> tools[s] == Filter(old(tools)[s], (t: LockfileTool) => !HasGraph(t) || keep(s, t))
    {
      tools := map s | s in tools :: Filter(tools[s], (t: LockfileTool) => !HasGraph(t) || keep(s, t));
    }

    method RetainUnsupersededUnboundEntries(inScope: (string, LockfileTool) -> bool)
      modifies this`tools
      ensures tools.Keys == old(tools).Keys
      ensures forall s :: s in tools ==>
        tools[s] == Filter(old(tools)[s], Needed(inScope, s, old(tools)[s]))
    {
      tools := map s | s in tools :: Filter(tools[s], Needed(inScope, s, tools[s]));
    }

    /** `merge_lockfile_preserving_root`: the other lockfile's entries join this one's. */
    method Absorb(other: ToolMap)
      modifies this`tools
      ensures tools == MergedMaps(old(tools), other)
    {
      ghost var was := tools;
      var todo := other.Keys;
      while todo != {}
        invariant todo <= other.Keys
        invariant tools.Keys == was.Keys + (other.Keys - todo)
        invariant forall s :: s in tools ==>
          tools[s] == if s in other.Keys - todo then AbsorbAll(EntriesOf(was, s), other[s]) else was[s]
        decreases todo
      {
        var short :| short in todo;
        todo := todo - {short};
        var entries := AbsorbEntries(EntriesOf(tools, short), other[short]);
        tools := tools[short := entries];
      }
    }
  }

  /** The entries that `retain_unsuperseded_unbound_entries` keeps. */
  function Needed(inScope: (string, LockfileTool) -> bool, short: string, tools: seq<LockfileTool>): LockfileTool -> bool {
    t => !(inScope(short, t) && Superseded(t, tools))
  }

  /** Writing one platform's record: the entry of the key is there, as it was or new, unbound and of the given
      backend; its other platforms are as they were, and this one has the new record over the old unless that
      comes to nothing. */
  lemma SetMeans(tools: seq<LockfileTool>, k: ToolKey, backend: Option<string>, platform: Platform, info: PlatformInfo)
    ensures var was, now := Find(tools, k), Find(PlatformSet(tools, k, backend, platform, info), k);
      && now.Some?
      && now.value.(platforms := map[]) ==
           (if was.Some? then was.value.(platforms := map[]) else LockfileTool(k.version, backend, {}, k.options, map[], None, None, None))
      && var before, after := if was.Some? then was.value.platforms else map[], now.value.platforms;
         && (forall p :: p != platform ==> Get(after, p) == Get(before, p))
         && var written := if platform in before then info.Update(before[platform]) else info;
            Get(after, platform) == if written.IsEmpty() then Get(before, platform) else Some(written)
  {
    var i := IndexOf(tools, k);
    FindAtIndex(tools, k);
    if i < |tools| {
      FindReplaced(tools, WithPlatform(tools[i], platform, info), k);
    } else {
      FindSnoc(tools, WithPlatform(NewEntry(k, backend), platform, info), k);
    }
  }

  /** An entry of the old backend and a given version gets the new one and keeps nothing recorded for the old:
      no platform records and no graphs. Every other entry is as it was. The move says whether there was data. */
  lemma SwitchMeans(tools: seq<LockfileTool>, from: string, versions: set<string>, to: NewBackend, i: nat)
    requires i < |tools|
    ensures var was, now := tools[i], AllSwitched(tools, from, versions, to)[i];
      if was.backend == Some(from) && was.version in versions && to(was.version).Some? then
        && now.backend == to(was.version) && now.platforms == map[] && now.uv == now.aube == None
        && now.Key() == was.Key() && now.specifiers == was.specifiers && now.provenance == was.provenance
        && exists m :: m in Moves(tools, from, versions, to) && m.version == was.version && Some(m.backend) == to(was.version)
             && (m.hadPlatforms <==> exists p :: p in was.platforms && !was.platforms[p].IsEmpty())
      else now == was
  {
    if Switches(tools[i], from, versions, to) {
      MoveIsListed(tools, from, versions, to, i);
    }
  }

  lemma {:induction false} MoveIsListed(tools: seq<LockfileTool>, from: string, versions: set<string>, to: NewBackend, i: nat)
    requires i < |tools| && Switches(tools[i], from, versions, to)
    ensures Move(tools[i].version, to(tools[i].version).value, HasData(tools[i])) in Moves(tools, from, versions, to)
  {
    if i < |tools| - 1 {
      MoveIsListed(tools[..|tools| - 1], from, versions, to, i);
    }
  }

  /** A second switch finds nothing to move, exactly unless the new backend of some moved entry is the old. */
  lemma {:induction false} SwitchSettles(tools: seq<LockfileTool>, from: string, versions: set<string>, to: NewBackend)
    ensures Moves(AllSwitched(tools, from, versions, to), from, versions, to) == [] <==>
      forall t :: t in tools && Switches(t, from, versions, to) ==> to(t.version) != Some(from)
  {
    if tools != [] {
      var front, last := tools[..|tools| - 1], tools[|tools| - 1];
      SwitchSettles(front, from, versions, to);
      assert tools == front + [last];
      assert AllSwitched(tools, from, versions, to)[..|front|] == AllSwitched(front, from, versions, to);
    }
  }
}
