/** What the operations that drop entries keep (src/lockfile.rs, 2047-2086). */
module Retaining {
  import opened Entries
  import opened History
  import opened Lockfiles
  import opened Records
  import opened Wrappers

  lemma {:induction false} FilterWithin(tools: seq<LockfileTool>, keep: LockfileTool -> bool, within: LockfileTool -> bool)
    requires forall t :: within(t) ==> keep(t)
    ensures Filter(Filter(tools, keep), within) == Filter(tools, within)
  {
    if tools != [] {
      var front, last := tools[..|tools| - 1], tools[|tools| - 1];
      FilterWithin(front, keep, within);
      assert (Filter(front, keep) + [last])[..|Filter(front, keep)|] == Filter(front, keep);
    }
  }

  /** The entries without a graph are the same as before, in the same order; of the others only refused ones
      are gone. */
  lemma GraphlessStay(keep: (string, LockfileTool) -> bool, short: string, before: seq<LockfileTool>, after: seq<LockfileTool>)
    requires Effect(true, RetainGraphs(keep), short, before, after)
    ensures Filter(after, IsGraphless()) == Filter(before, IsGraphless())
    ensures forall t :: t in before ==> (t !in after <==> (t.uv.Some? || t.aube.Some?) && !keep(short, t))
    ensures forall t :: t in after ==> t in before
  {
    var kept := (t: LockfileTool) => !HasGraph(t) || keep(short, t);
    forall t: LockfileTool | IsGraphless()(t)
      ensures kept(t)
    {
      assert !HasGraph(t);
    }
    FilterWithin(before, kept, IsGraphless());
  }

  function IsGraphless(): LockfileTool -> bool {
    (t: LockfileTool) => t.uv.None? && t.aube.None?
  }

  // ----- superseded entries -----

  function IsBound(): LockfileTool -> bool {
    (t: LockfileTool) => t.specifiers != {}
  }

  /** Some bound entry, alike in version and backend, has for each platform a record that compares equal. */
  ghost predicate HasCover(t: LockfileTool, tools: seq<LockfileTool>) {
    exists b :: b in tools && b.specifiers != {} && b.version == t.version && b.backend == t.backend
      && forall p :: p in t.platforms ==> p in b.platforms && Persisted(b.platforms[p]) == Persisted(t.platforms[p])
  }

  /** The bound entries are the same as before, in the same order, and a dropped entry leaves a bound one whose
      records compare equal: the same but for sizes, headers and perhaps SLSA URLs. */
  lemma SupersededLeaveCover(inScope: (string, LockfileTool) -> bool, short: string, before: seq<LockfileTool>, after: seq<LockfileTool>)
    requires Effect(true, RetainUnsuperseded(inScope), short, before, after)
    ensures Filter(after, IsBound()) == Filter(before, IsBound())
    ensures forall t :: t in after ==> t in before
    ensures forall t :: t in before ==>
      (t !in after <==> inScope(short, t) && t.specifiers == {} && t.uv.None? && t.aube.None? && HasCover(t, before))
    ensures forall t :: t in before && t !in after ==> HasCover(t, after)
  {
    var keep := Needed(inScope, short, before);
    assert forall t :: IsBound()(t) ==> !Superseded(t, before) && keep(t);
    FilterWithin(before, keep, IsBound());
    forall t | t in before
      ensures t !in after <==> inScope(short, t) && Superseded(t, before)
    {
      assert keep(t) == !(inScope(short, t) && Superseded(t, before));
    }
    forall t: LockfileTool, tools
      ensures HasCover(t, tools) <==> exists bound :: bound in tools && Covers(bound, t)
    {
      CoverMeans(t, tools);
    }
    forall t | t in before && t !in after
      ensures HasCover(t, after)
    {
      var bound :| bound in before && Covers(bound, t);
      assert IsBound()(bound);
    }
  }

  lemma CoverMeans(t: LockfileTool, tools: seq<LockfileTool>)
    ensures HasCover(t, tools) <==> exists bound :: bound in tools && Covers(bound, t)
  {
  }

  function SlsaUrl(p: Option<Provenance>): Option<string> {
    if p.Some? && p.value.Slsa? then p.value.url else None
  }

  /** The SLSA URLs of a record and of its artifacts. */
  function SlsaUrls(info: PlatformInfo): (Option<string>, seq<Option<string>>) {
    (SlsaUrl(info.provenance),
     seq(|info.additionalArtifacts|, i requires 0 <= i < |info.additionalArtifacts| =>
       SlsaUrl(info.additionalArtifacts[i].provenance)))
  }

  /** Everything but sizes and headers, which are not written. */
  function Data(info: PlatformInfo): PlatformInfo {
    info.(size := None, downloadHeaders := None, additionalArtifacts := WrittenArtifacts(info.additionalArtifacts))
  }

  lemma ArtifactData(a: ArtifactInfo, b: ArtifactInfo)
    ensures a.Written() == b.Written() <==> PersistedArtifact(a) == PersistedArtifact(b) && SlsaUrl(a.provenance) == SlsaUrl(b.provenance)
  {
  }

  lemma ArtifactsData(xs: seq<ArtifactInfo>, ys: seq<ArtifactInfo>)
    requires |xs| == |ys|
    ensures WrittenArtifacts(xs) == WrittenArtifacts(ys) <==>
      && PersistedArtifacts(xs) == PersistedArtifacts(ys)
      && forall i :: 0 <= i < |xs| ==> SlsaUrl(xs[i].provenance) == SlsaUrl(ys[i].provenance)
  {
    forall i | 0 <= i < |xs|
      ensures WrittenArtifacts(xs)[i] == WrittenArtifacts(ys)[i] <==>
        PersistedArtifacts(xs)[i] == PersistedArtifacts(ys)[i] && SlsaUrl(xs[i].provenance) == SlsaUrl(ys[i].provenance)
    {
      ArtifactData(xs[i], ys[i]);
    }
    if WrittenArtifacts(xs) == WrittenArtifacts(ys) {
      assert forall i :: 0 <= i < |xs| ==> WrittenArtifacts(xs)[i] == WrittenArtifacts(ys)[i];
    }
    if PersistedArtifacts(xs) == PersistedArtifacts(ys) {
      assert forall i :: 0 <= i < |xs| ==> PersistedArtifacts(xs)[i] == PersistedArtifacts(ys)[i];
    }
  }

  /** Records hold the same data exactly if they compare equal and have the same SLSA URLs. */
  lemma DataIsPersistedAndUrls(a: PlatformInfo, b: PlatformInfo)
    ensures Data(a) == Data(b) <==> Persisted(a) == Persisted(b) && SlsaUrls(a) == SlsaUrls(b)
  {
    var xs, ys := a.additionalArtifacts, b.additionalArtifacts;
    assert |SlsaUrls(a).1| == |xs| && |SlsaUrls(b).1| == |ys|;
    assert |Data(a).additionalArtifacts| == |xs| && |Data(b).additionalArtifacts| == |ys|;
    if |xs| == |ys| {
      ArtifactsData(xs, ys);
      assert forall i :: 0 <= i < |xs| ==> SlsaUrls(a).1[i] == SlsaUrl(xs[i].provenance);
      assert forall i :: 0 <= i < |ys| ==> SlsaUrls(b).1[i] == SlsaUrl(ys[i].provenance);
      assert SlsaUrls(a).1 == SlsaUrls(b).1 <==>
        forall i :: 0 <= i < |xs| ==> SlsaUrl(xs[i].provenance) == SlsaUrl(ys[i].provenance);
      OwnData(a, b);
      SplitArtifacts(Data(a), Data(b));
      SplitArtifacts(Persisted(a), Persisted(b));
      assert SlsaUrls(a) == SlsaUrls(b) <==> SlsaUrl(a.provenance) == SlsaUrl(b.provenance) && SlsaUrls(a).1 == SlsaUrls(b).1;
    }
  }

  lemma SplitArtifacts(a: PlatformInfo, b: PlatformInfo)
    ensures a == b <==> a.(additionalArtifacts := []) == b.(additionalArtifacts := []) && a.additionalArtifacts == b.additionalArtifacts
  {
  }

  /** All but the artifacts. */
  lemma OwnData(a: PlatformInfo, b: PlatformInfo)
    ensures Data(a).(additionalArtifacts := []) == Data(b).(additionalArtifacts := []) <==>
      && Persisted(a).(additionalArtifacts := []) == Persisted(b).(additionalArtifacts := [])
      && SlsaUrl(a.provenance) == SlsaUrl(b.provenance)
  {
  }

  /** A bound entry that covers `t` and has its SLSA URLs too, and one that has all its data. */
  ghost predicate CoversUrls(bound: LockfileTool, t: LockfileTool) {
    Covers(bound, t) && forall p :: p in t.platforms ==> SlsaUrls(bound.platforms[p]) == SlsaUrls(t.platforms[p])
  }

  ghost predicate HoldsAll(bound: LockfileTool, t: LockfileTool) {
    && bound.specifiers != {} && bound.version == t.version && bound.backend == t.backend
    && forall p :: p in t.platforms ==> p in bound.platforms && Data(bound.platforms[p]) == Data(t.platforms[p])
  }

  lemma HoldsAllIsCoversUrls(bound: LockfileTool, t: LockfileTool)
    ensures HoldsAll(bound, t) <==> CoversUrls(bound, t)
  {
    forall p | p in t.platforms && p in bound.platforms
      ensures Data(bound.platforms[p]) == Data(t.platforms[p]) <==>
        Persisted(bound.platforms[p]) == Persisted(t.platforms[p]) && SlsaUrls(bound.platforms[p]) == SlsaUrls(t.platforms[p])
    {
      DataIsPersistedAndUrls(bound.platforms[p], t.platforms[p]);
    }
  }

  /** All that is dropped stays in bound entries. */
  ghost predicate NothingIsLost(before: seq<LockfileTool>, after: seq<LockfileTool>) {
    forall t :: t in before && t !in after ==> exists bound :: bound in after && HoldsAll(bound, t)
  }

  /** Every entry to be dropped has a bound sibling with its SLSA URLs. */
  ghost predicate UrlsAreShared(inScope: (string, LockfileTool) -> bool, short: string, before: seq<LockfileTool>) {
    forall t :: t in before && inScope(short, t) && Superseded(t, before) ==> exists bound :: bound in before && CoversUrls(bound, t)
  }

  /** The platform data of every dropped entry stays in a bound one, exactly if each has a bound sibling that
      covers it with the same SLSA URLs. */
  lemma SupersededDataStays(inScope: (string, LockfileTool) -> bool, short: string, before: seq<LockfileTool>, after: seq<LockfileTool>)
    requires Effect(true, RetainUnsuperseded(inScope), short, before, after)
    ensures NothingIsLost(before, after) <==> UrlsAreShared(inScope, short, before)
  {
    SupersededLeaveCover(inScope, short, before, after);
    forall t | t in before
      ensures t !in after <==> inScope(short, t) && Superseded(t, before)
      ensures t.specifiers != {} ==> t in after
    {
      CoverMeans(t, before);
    }
    forall t | t in before && t !in after
      ensures (exists bound :: bound in after && HoldsAll(bound, t)) <==> exists bound :: bound in before && CoversUrls(bound, t)
    {
      HeldByBound(before, after, t);
    }
  }

  lemma HeldByBound(before: seq<LockfileTool>, after: seq<LockfileTool>, t: LockfileTool)
    requires (forall x :: x in after ==> x in before) && forall x :: x in before && x.specifiers != {} ==> x in after
    ensures (exists bound :: bound in after && HoldsAll(bound, t)) <==> exists bound :: bound in before && CoversUrls(bound, t)
  {
    if bound :| bound in after && HoldsAll(bound, t) {
      HoldsAllIsCoversUrls(bound, t);
    }
    if bound :| bound in before && CoversUrls(bound, t) {
      HoldsAllIsCoversUrls(bound, t);
    }
  }

  /** An unbound entry whose record has a SLSA URL, and a bound one of other options with the same record but
      for that: the first is dropped, and its URL is nowhere any more. */
  lemma SlsaUrlIsDropped(inScope: (string, LockfileTool) -> bool, short: string, p: Platform, blank: PlatformInfo, url: string,
                         bound: LockfileTool, after: seq<LockfileTool>)
    requires bound.specifiers != {} && bound.options != []
    requires bound.platforms == map[p := blank.(provenance := Some(Slsa(None)))]
    requires var dropped := bound.(specifiers := {}, options := [], uv := None, aube := None,
                                   platforms := map[p := blank.(provenance := Some(Slsa(Some(url))))]);
      inScope(short, dropped) && Effect(true, RetainUnsuperseded(inScope), short, [dropped, bound], after)
    ensures after == [bound]
    ensures forall t :: t in after && p in t.platforms ==> SlsaUrl(t.platforms[p].provenance) == None
  {
    var dropped := bound.(specifiers := {}, options := [], uv := None, aube := None,
                          platforms := map[p := blank.(provenance := Some(Slsa(Some(url))))]);
    var before := [dropped, bound];
    assert Covers(bound, dropped) && bound in before;
    assert Superseded(dropped, before) && !Superseded(bound, before);
    var keep := Needed(inScope, short, before);
    assert !keep(dropped) && keep(bound);
    assert before[..1] == [dropped] && [dropped][..0] == [];
    assert Filter([dropped], keep) == [];
  }
}
