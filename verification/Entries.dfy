/**
 A tool's lockfile entries and the merge of freshly resolved ones with those already locked
 (src/lockfile.rs, `merge_tool_entries`).
 */
module Entries {
  import opened Ordering
  import opened Records
  import opened Wrappers

  /** A `BTreeMap` of options, as its entries in key order. */
  type Options = seq<(string, string)>

  type Platform = string

  datatype ToolKey = ToolKey(version: string, options: Options)

  /** `aube` and `uv` are opaque dependency graphs; `provenance` is the source repository of an npm
      package. */
  datatype LockfileTool = LockfileTool(
    version: string,
    backend: Option<string>,
    specifiers: set<string>,
    options: Options,
    platforms: map<Platform, PlatformInfo>,
    aube: Option<string>,
    uv: Option<string>,
    provenance: Option<string>)
  {
    function Key(): ToolKey {
      ToolKey(version, options)
    }
  }

  /** What the backend says a legacy platform entry's options are; `None` if it has no answer. */
  type Resolver = (string, Platform) -> Option<Options>

  // ----- keys in order -----

  predicate KeyLe(j: ToolKey, k: ToolKey) {
    PairOf(StringOrder(), LexOf(PairOf(StringOrder(), StringOrder())))((j.version, j.options), (k.version, k.options))
  }

  lemma KeysAreOrdered()
    ensures forall k :: KeyLe(k, k)
    ensures forall j, k :: KeyLe(j, k) || KeyLe(k, j)
    ensures forall j, k :: KeyLe(j, k) && KeyLe(k, j) ==> j == k
    ensures forall i, j, k :: KeyLe(i, j) && KeyLe(j, k) ==> KeyLe(i, k)
  {
    StringIsTotalOrder();
    var pairs := PairOf(StringOrder(), StringOrder());
    PairIsTotalOrder(StringOrder(), StringOrder());
    LexIsTotalOrder(pairs);
    var le := PairOf(StringOrder(), LexOf(pairs));
    PairIsTotalOrder(StringOrder(), LexOf(pairs));
    forall j: ToolKey, k: ToolKey
      ensures KeyLe(j, k) && KeyLe(k, j) ==> j == k
    {
      assert le((j.version, j.options), (k.version, k.options)) && le((k.version, k.options), (j.version, j.options))
        ==> (j.version, j.options) == (k.version, k.options);
    }
  }

  /** The text has the lesser character where it first differs from the other. */
  ghost predicate IsLess(a: string, b: string) {
    a < b || exists i :: 0 <= i < |a| && i < |b| && a[..i] == b[..i] && a[i] < b[i]
  }

  lemma StringOrderMeans(a: string, b: string)
    requires a != b
    ensures StringOrder()(a, b) <==> IsLess(a, b)
  {
    LexMeans(CharOrder(), a, b);
    if i :| 0 <= i < |a| && i < |b| && a[..i] == b[..i] && a[i] < b[i] {
      assert LessAt(CharOrder(), a, b, i);
    }
    if i :| LessAt(CharOrder(), a, b, i) {
      assert a[i] < b[i];
    }
  }

  /** One list of options has the lesser one where they first differ: the lesser name, or at one name the lesser
      value. */
  ghost predicate OptionLess(a: Options, b: Options, i: int) {
    && 0 <= i < |a| && i < |b| && a[..i] == b[..i]
    && (IsLess(a[i].0, b[i].0) || (a[i].0 == b[i].0 && IsLess(a[i].1, b[i].1)))
  }

  /** Keys are in the order of their versions as text, and at one version in that of their options. */
  lemma KeyOrderMeans(j: ToolKey, k: ToolKey)
    ensures j.version != k.version ==> (KeyLe(j, k) <==> IsLess(j.version, k.version))
    ensures j.version == k.version ==> (KeyLe(j, k) <==> j.options <= k.options || exists i :: OptionLess(j.options, k.options, i))
  {
    if j.version != k.version {
      StringOrderMeans(j.version, k.version);
    } else {
      var pairs := PairOf(StringOrder(), StringOrder());
      LexMeans(pairs, j.options, k.options);
      forall i
        ensures LessAt(pairs, j.options, k.options, i) <==> OptionLess(j.options, k.options, i)
      {
        if 0 <= i < |j.options| && i < |k.options| {
          var p, q := j.options[i], k.options[i];
          if p.0 != q.0 {
            StringOrderMeans(p.0, q.0);
          } else if p.1 != q.1 {
            StringOrderMeans(p.1, q.1);
          }
        }
      }
    }
  }

  predicate DistinctKeys(tools: seq<LockfileTool>) {
    forall i, j :: 0 <= i < j < |tools| ==> tools[i].Key() != tools[j].Key()
  }

  predicate StrictlySorted(tools: seq<LockfileTool>) {
    forall i, j :: 0 <= i < j < |tools| ==> tools[i].Key() != tools[j].Key() && KeyLe(tools[i].Key(), tools[j].Key())
  }

  type ByKey = map<ToolKey, LockfileTool>

  predicate Keyed(m: ByKey) {
    forall k :: k in m ==> m[k].Key() == k
  }

  lemma LeastKey(keys: set<ToolKey>) returns (least: ToolKey)
    requires keys != {}
    ensures least in keys && forall k :: k in keys ==> KeyLe(least, k)
  {
    KeysAreOrdered();
    var some :| some in keys;
    var rest := keys - {some};
    if rest == {} {
      least := some;
    } else {
      var other := LeastKey(rest);
      least := if KeyLe(some, other) then some else other;
    }
    forall k | k in keys
      ensures KeyLe(least, k)
    {
      assert k == some || k in rest;
    }
  }

  /** The values in ascending key order. */
  method SortedValues(m: ByKey) returns (tools: seq<LockfileTool>)
    requires Keyed(m)
    ensures StrictlySorted(tools)
    ensures forall t :: t in tools <==> Get(m, t.Key()) == Some(t)
  {
    tools := [];
    var todo := m.Keys;
    while todo != {}
      invariant todo <= m.Keys
      invariant StrictlySorted(tools)
      invariant forall t :: t in tools <==> Get(m, t.Key()) == Some(t) && t.Key() !in todo
      invariant forall t, k :: t in tools && k in todo ==> KeyLe(t.Key(), k)
      decreases todo
    {
      ghost var k := LeastKey(todo);
      var least :| least in todo && forall k :: k in todo ==> KeyLe(least, k);
      todo := todo - {least};
      tools := tools + [m[least]];
    }
  }

  // ----- the fresh entries, one key at a time -----

  /** Platform records of `more` merged over those there. */
  function MergeFresh(platforms: map<Platform, PlatformInfo>, more: map<Platform, PlatformInfo>):
    map<Platform, PlatformInfo>
  {
    map p | p in platforms.Keys + more.Keys ::
      if p !in more then platforms[p]
      else if p in platforms then more[p].MergeWith(platforms[p])
      else more[p]
  }

  /** One fresh entry added to what its key holds; the first entry of a key is merged with itself. */
  function AddFresh(entry: Option<LockfileTool>, tool: LockfileTool): LockfileTool {
    var base := if entry.Some? then entry.value else tool;
    base.(
      specifiers := base.specifiers + tool.specifiers,
      aube := base.aube.Or(tool.aube),
      uv := base.uv.Or(tool.uv),
      provenance := base.provenance.Or(tool.provenance),
      platforms := MergeFresh(base.platforms, tool.platforms))
  }

  /** What the fresh entries put under a key. */
  function FreshAt(entries: seq<LockfileTool>, k: ToolKey): (entry: Option<LockfileTool>)
    ensures entry.Some? ==> entry.value.Key() == k
  {
    if entries == [] then None
    else
      var front, last := FreshAt(entries[..|entries| - 1], k), entries[|entries| - 1];
      if last.Key() == k then Some(AddFresh(front, last)) else front
  }

  predicate FreshVersion(entries: seq<LockfileTool>, version: string) {
    exists e :: e in entries && e.version == version
  }

  predicate FreshPlatform(entries: seq<LockfileTool>, version: string, platform: Platform) {
    exists e :: e in entries && e.version == version && platform in e.platforms
  }

  // ----- an existing entry, one key at a time -----

  /** What the merge of the existing entries depends on besides them. */
  datatype Context = Context(entries: seq<LockfileTool>, resolve: Resolver)

  /** Which options the data of an empty-options entry goes to: those the resolver names, or none. */
  function Destination(c: Context, version: string, platform: Platform): Options {
    var resolved := c.resolve(version, platform);
    if resolved.Some? then resolved.value else []
  }

  /** An npm package's source repository follows its version and backend, whatever the options. */
  function SpreadProvenance(entry: LockfileTool, tool: LockfileTool): LockfileTool {
    if tool.provenance.Some? && entry.version == tool.version && entry.backend == tool.backend
    then entry.(provenance := entry.provenance.Or(tool.provenance))
    else entry
  }

  function Joined(entry: LockfileTool, tool: LockfileTool): LockfileTool {
    entry.(
      specifiers := entry.specifiers + tool.specifiers,
      aube := entry.aube.Or(tool.aube),
      uv := entry.uv.Or(tool.uv),
      provenance := entry.provenance.Or(tool.provenance))
  }

  /** Existing platform records merged under those of the entry. */
  function MergeUnder(platforms: map<Platform, PlatformInfo>, existing: map<Platform, PlatformInfo>):
    map<Platform, PlatformInfo>
  {
    map p | p in platforms.Keys + existing.Keys ::
      if p !in existing then platforms[p]
      else if p in platforms then platforms[p].MergeWith(existing[p])
      else existing[p]
  }

  /** The platforms of an existing entry that no fresh entry of its version refreshed. */
  function Unrefreshed(c: Context, tool: LockfileTool): map<Platform, PlatformInfo> {
    map p | p in tool.platforms && !FreshPlatform(c.entries, tool.version, p) :: tool.platforms[p]
  }

  /** The platforms among `done` whose data goes to `k`. */
  function Arriving(c: Context, tool: LockfileTool, done: set<Platform>, k: ToolKey): set<Platform> {
    set p | p in done && p in tool.platforms && k == ToolKey(tool.version, Destination(c, tool.version, p))
  }

  /** The resolver itself named `k` for one of `done`. */
  predicate Named(c: Context, tool: LockfileTool, done: set<Platform>, k: ToolKey) {
    exists p :: p in Arriving(c, tool, done, k) && c.resolve(tool.version, p).Some?
  }

  /** The data of an empty-options entry moved to where it belongs. Where the resolver has no answer it
      replaces what is there; elsewhere it is merged under it. */
  function Rekeyed(c: Context, tool: LockfileTool, done: set<Platform>, k: ToolKey, entry: Option<LockfileTool>):
    Option<LockfileTool>
  {
    var arriving := Arriving(c, tool, done, k);
    if arriving == {} then entry
    else
      var base := if entry.Some? then entry.value else tool.(options := k.options, platforms := map[]);
      var named := Named(c, tool, done, k);
      Some(base.(
        specifiers := if named then base.specifiers + tool.specifiers else base.specifiers,
        provenance := if named then base.provenance.Or(tool.provenance) else base.provenance,
        platforms := WithArrivals(c, tool, base.platforms, arriving)))
  }

  function WithArrivals(c: Context, tool: LockfileTool, platforms: map<Platform, PlatformInfo>, arriving: set<Platform>):
    map<Platform, PlatformInfo>
    requires arriving <= tool.platforms.Keys
  {
    map p | p in platforms.Keys + arriving ::
      if p !in arriving then platforms[p]
      else if c.resolve(tool.version, p).Some? && p in platforms then platforms[p].MergeWith(tool.platforms[p])
      else tool.platforms[p]
  }

  lemma OneMoreArrival(c: Context, tool: LockfileTool, platforms: map<Platform, PlatformInfo>, was: set<Platform>, p: Platform)
    requires was + {p} <= tool.platforms.Keys && p !in was
    ensures var moved := WithArrivals(c, tool, platforms, was);
      WithArrivals(c, tool, platforms, was + {p}) == moved[p :=
        if c.resolve(tool.version, p).Some? && p in moved then moved[p].MergeWith(tool.platforms[p]) else tool.platforms[p]]
  {
  }

  /** What one existing entry makes of what a key holds. */
  function AddExisting(c: Context, tool: LockfileTool, k: ToolKey, entry: Option<LockfileTool>): Option<LockfileTool> {
    var spread := if entry.None? then None else Some(SpreadProvenance(entry.value, tool));
    var joined := if spread.Some? && tool.Key() == k then Some(Joined(spread.value, tool)) else spread;
    if tool.options != [] then
      if tool.Key() != k then joined
      else if joined.Some? then Some(joined.value.(platforms := MergeUnder(joined.value.platforms, tool.platforms)))
      else if FreshVersion(c.entries, tool.version) && Unrefreshed(c, tool) != map[]
      then Some(tool.(platforms := Unrefreshed(c, tool)))
      else None
    else if FreshVersion(c.entries, tool.version) then Rekeyed(c, tool, tool.platforms.Keys, k, joined)
    else joined
  }

  /** What a key holds after the existing entries, in their order. */
  function After(c: Context, existing: seq<LockfileTool>, k: ToolKey): Option<LockfileTool> {
    if existing == [] then FreshAt(c.entries, k)
    else AddExisting(c, existing[|existing| - 1], k, After(c, existing[..|existing| - 1], k))
  }

  /** The list is the whole merge, in ascending order of keys. */
  ghost predicate IsMerge(c: Context, existing: seq<LockfileTool>, tools: seq<LockfileTool>) {
    && StrictlySorted(tools)
    && forall t :: t in tools <==> After(c, existing, t.Key()) == Some(t)
  }

  /** Keys of empty-options entries whose data all moved elsewhere. */
  ghost predicate IsConsumed(c: Context, existing: seq<LockfileTool>, k: ToolKey) {
    exists i :: 0 <= i < |existing| && existing[i].Key() == k && k.options == []
      && FreshVersion(c.entries, k.version) && After(c, existing[..i + 1], k).None?
  }

  // ----- the method -----

  method MergeToolEntries(c: Context, existing: seq<LockfileTool>)
    returns (tools: seq<LockfileTool>, consumed: set<ToolKey>)
    ensures IsMerge(c, existing, tools)
    ensures forall k :: k in consumed <==> IsConsumed(c, existing, k)
  {
    var byKey := MergeEntries(c.entries);
    consumed := {};
    for i := 0 to |existing|
      invariant Keyed(byKey)
      invariant forall k :: Get(byKey, k) == After(c, existing[..i], k)
      invariant forall k :: k in consumed <==> IsConsumed(c, existing[..i], k)
    {
      assert existing[..i + 1][..i] == existing[..i];
      var tool := existing[i];
      byKey := MergeExisting(c, tool, byKey);
      if tool.options == [] && FreshVersion(c.entries, tool.version) && tool.Key() !in byKey {
        consumed := consumed + {tool.Key()};
      }
      ConsumedStep(c, existing, i);
    }
    assert existing[..|existing|] == existing;
    tools := SortedValues(byKey);
  }

  /** The loop body for one existing entry. */
  method MergeExisting(c: Context, tool: LockfileTool, before: ByKey) returns (byKey: ByKey)
    requires Keyed(before)
    ensures Keyed(byKey)
    ensures forall k :: Get(byKey, k) == AddExisting(c, tool, k, Get(before, k))
  {
    byKey := SpreadToAll(tool, before);
    var key := tool.Key();
    if key in byKey {
      byKey := byKey[key := Joined(byKey[key], tool)];
    }
    if tool.options != [] {
      if key in byKey {
        var entry := byKey[key];
        byKey := byKey[key := entry.(platforms := MergeUnder(entry.platforms, tool.platforms))];
      } else if FreshVersion(c.entries, tool.version) {
        var kept := tool.(platforms := Unrefreshed(c, tool));
        if kept.platforms != map[] {
          byKey := byKey[key := kept];
        }
      }
      return;
    }
    if !FreshVersion(c.entries, tool.version) {
      return;
    }
    byKey := MovePlatforms(c, tool, byKey);
  }

  /** The package provenance pass over every entry. */
  method SpreadToAll(tool: LockfileTool, before: ByKey) returns (byKey: ByKey)
    requires Keyed(before)
    ensures Keyed(byKey) && byKey.Keys == before.Keys
    ensures forall k :: k in byKey ==> byKey[k] == SpreadProvenance(before[k], tool)
  {
    byKey := before;
    if tool.provenance.None? {
      return;
    }
    var todo := before.Keys;
    while todo != {}
      invariant todo <= before.Keys && byKey.Keys == before.Keys
      invariant forall k :: k in before ==>
        byKey[k] == if k in todo then before[k] else SpreadProvenance(before[k], tool)
      decreases todo
    {
      var k :| k in todo;
      todo := todo - {k};
      byKey := byKey[k := SpreadProvenance(byKey[k], tool)];
    }
  }

  /** The platforms of an empty-options entry, each moved to its destination. */
  method MovePlatforms(c: Context, tool: LockfileTool, before: ByKey) returns (byKey: ByKey)
    requires Keyed(before) && tool.options == []
    ensures Keyed(byKey)
    ensures forall k :: Get(byKey, k) == Rekeyed(c, tool, tool.platforms.Keys, k, Get(before, k))
  {
    byKey := before;
    var todo := tool.platforms.Keys;
    ghost var done := {};
    while todo != {}
      invariant todo <= tool.platforms.Keys && done == tool.platforms.Keys - todo
      invariant Keyed(byKey)
      invariant forall k :: Get(byKey, k) == Rekeyed(c, tool, done, k, Get(before, k))
      decreases todo
    {
      var p :| p in todo;
      var info := tool.platforms[p];
      var resolved := c.resolve(tool.version, p);
      ghost var was := byKey;
      var key := ToolKey(tool.version, if resolved.Some? then resolved.value else tool.options);
      var target := if key in byKey then byKey[key] else tool.(options := key.options, platforms := map[]);
      if resolved.None? {
        target := target.(platforms := target.platforms[p := info]);
      } else {
        target := target.(
          provenance := target.provenance.Or(tool.provenance),
          specifiers := target.specifiers + tool.specifiers,
          platforms := target.platforms[p := if p in target.platforms then target.platforms[p].MergeWith(info) else info]);
      }
      byKey := byKey[key := target];
      forall k
        ensures Get(byKey, k) == Rekeyed(c, tool, done + {p}, k, Get(before, k))
      {
        RekeyedStep(c, tool, done, p, k, Get(before, k));
      }
      todo, done := todo - {p}, done + {p};
    }
    assert done == tool.platforms.Keys;
  }

  /** One more platform moved. */
  function MovedOne(c: Context, tool: LockfileTool, p: Platform, k: ToolKey, entry: Option<LockfileTool>):
    Option<LockfileTool>
    requires p in tool.platforms
  {
    if k != ToolKey(tool.version, Destination(c, tool.version, p)) then entry
    else
      var base := if entry.Some? then entry.value else tool.(options := k.options, platforms := map[]);
      if c.resolve(tool.version, p).None? then
        Some(base.(platforms := base.platforms[p := tool.platforms[p]]))
      else
        Some(base.(
          provenance := base.provenance.Or(tool.provenance),
          specifiers := base.specifiers + tool.specifiers,
          platforms := base.platforms[p :=
            if p in base.platforms then base.platforms[p].MergeWith(tool.platforms[p]) else tool.platforms[p]]))
  }

  lemma RekeyedStep(c: Context, tool: LockfileTool, done: set<Platform>, p: Platform, k: ToolKey, entry: Option<LockfileTool>)
    requires p in tool.platforms && p !in done
    ensures Rekeyed(c, tool, done + {p}, k, entry) == MovedOne(c, tool, p, k, Rekeyed(c, tool, done, k, entry))
  {
    if k != ToolKey(tool.version, Destination(c, tool.version, p)) {
      assert Arriving(c, tool, done + {p}, k) == Arriving(c, tool, done, k);
    } else {
      RekeyedArrival(c, tool, done, p, k, entry);
    }
  }

  lemma RekeyedArrival(c: Context, tool: LockfileTool, done: set<Platform>, p: Platform, k: ToolKey, entry: Option<LockfileTool>)
    requires p in tool.platforms && p !in done && k == ToolKey(tool.version, Destination(c, tool.version, p))
    ensures Rekeyed(c, tool, done + {p}, k, entry) == MovedOne(c, tool, p, k, Rekeyed(c, tool, done, k, entry))
  {
    var was, now := Arriving(c, tool, done, k), Arriving(c, tool, done + {p}, k);
    assert now == was + {p} && p in now;
    assert Named(c, tool, done + {p}, k) <==> Named(c, tool, done, k) || c.resolve(tool.version, p).Some?;
    var base := if entry.Some? then entry.value else tool.(options := k.options, platforms := map[]);
    OneMoreArrival(c, tool, base.platforms, was, p);
    assert WithArrivals(c, tool, base.platforms, {}) == base.platforms;
    var left := Rekeyed(c, tool, done + {p}, k, entry).value;
    var right := MovedOne(c, tool, p, k, Rekeyed(c, tool, done, k, entry)).value;
    assert left.specifiers == right.specifiers;
    assert left.platforms == right.platforms;
  }

  lemma ConsumedStep(c: Context, existing: seq<LockfileTool>, i: nat)
    requires i < |existing|
    ensures forall k :: IsConsumed(c, existing[..i + 1], k) <==>
      || IsConsumed(c, existing[..i], k)
      || (existing[i].Key() == k && k.options == [] && FreshVersion(c.entries, k.version)
          && After(c, existing[..i + 1], k).None?)
  {
    var longer, shorter := existing[..i + 1], existing[..i];
    assert longer[..i + 1] == longer;
    forall j | 0 <= j < i
      ensures longer[j] == shorter[j] && longer[..j + 1] == shorter[..j + 1]
    {
    }
  }

  /** The fresh entries grouped by key. */
  method MergeEntries(entries: seq<LockfileTool>) returns (byKey: ByKey)
    ensures Keyed(byKey)
    ensures forall k :: Get(byKey, k) == FreshAt(entries, k)
  {
    byKey := map[];
    for i := 0 to |entries|
      invariant Keyed(byKey)
      invariant forall k :: Get(byKey, k) == FreshAt(entries[..i], k)
    {
      assert entries[..i + 1][..i] == entries[..i];
      var tool := entries[i];
      var key := tool.Key();
      ghost var before := Get(byKey, key);
      var entry := if key in byKey then byKey[key] else tool;
      entry := entry.(
        specifiers := entry.specifiers + tool.specifiers,
        aube := entry.aube.Or(tool.aube),
        uv := entry.uv.Or(tool.uv),
        provenance := entry.provenance.Or(tool.provenance));
      var platforms := entry.platforms;
      var todo := tool.platforms.Keys;
      while todo != {}
        invariant todo <= tool.platforms.Keys
        invariant platforms.Keys == entry.platforms.Keys + (tool.platforms.Keys - todo)
        invariant forall p :: p in platforms ==>
          platforms[p] == if p in tool.platforms.Keys - todo then MergeFresh(entry.platforms, tool.platforms)[p]
                          else entry.platforms[p]
        decreases todo
      {
        var p :| p in todo;
        todo := todo - {p};
        var info := tool.platforms[p];
        platforms := platforms[p := if p in platforms then info.MergeWith(platforms[p]) else info];
      }
      assert platforms == MergeFresh(entry.platforms, tool.platforms);
      byKey := byKey[key := entry.(platforms := platforms)];
      assert byKey[key] == AddFresh(before, tool);
    }
    assert entries[..|entries|] == entries;
  }
}
