/**
 The view of all lockfiles merged into one, and the fallback to the nearest of them (src/lockfile.rs,
 3314-3377, 5252-5325, 5906-5920 and 6007-6019).
 */
module MergedView {
  import opened Entries
  import opened LockedLookup
  import opened Lockfiles
  import opened ToolLists
  import opened Wrappers

  /** A lockfile as read. */
  datatype Snapshot = Snapshot(version: nat, tools: ToolMap) {
    function For(short: string): seq<LockfileTool> {
      EntriesOf(tools, short)
    }
  }

  // ----- reading -----

  function Flatten<T>(groups: seq<seq<T>>): seq<T> {
    if groups == [] then [] else Flatten(groups[..|groups| - 1]) + groups[|groups| - 1]
  }

  /** The groups from the last to the first, each in its own order. */
  function LastGroupFirst<T>(groups: seq<seq<T>>): seq<T> {
    if groups == [] then [] else groups[|groups| - 1] + LastGroupFirst(groups[..|groups| - 1])
  }

  function Lengths<T>(groups: seq<seq<T>>): nat {
    if groups == [] then 0 else Lengths(groups[..|groups| - 1]) + |groups[|groups| - 1]|
  }

  /** Reading puts a root's lockfiles after those of the roots before it, and precedence after those of the
      roots behind it; both keep the order within the root. */
  lemma {:induction false} Positions<T>(groups: seq<seq<T>>, i: nat, k: nat)
    requires i < |groups| && k < |groups[i]|
    ensures |Flatten(groups)| == |LastGroupFirst(groups)| == Lengths(groups)
    ensures var before := Lengths(groups[..i]) + k; before < Lengths(groups) && Flatten(groups)[before] == groups[i][k]
    ensures var before := Lengths(groups[i + 1..]) + k; before < Lengths(groups) && LastGroupFirst(groups)[before] == groups[i][k]
  {
    var front, last := groups[..|groups| - 1], groups[|groups| - 1];
    GroupLengths(front);
    if i < |front| {
      Positions(front, i, k);
      assert front[..i] == groups[..i];
      assert groups[i + 1..][..|groups| - i - 2] == front[i + 1..];
    }
  }

  lemma {:induction false} GroupLengths<T>(groups: seq<seq<T>>)
    ensures |Flatten(groups)| == |LastGroupFirst(groups)| == Lengths(groups)
  {
    if groups != [] {
      GroupLengths(groups[..|groups| - 1]);
    }
  }

  ghost predicate IsAt<T>(x: T, list: seq<T>, position: nat) {
    position < |list| && list[position] == x
  }

  /** In `all` a lockfile stands behind those of the outer roots and the earlier ones of its own root, and in
      `byPrecedence` behind those of the inner roots and the earlier ones of its own; legacy ones come last. */
  ghost predicate InnermostLastAndFirst<T>(roots: seq<seq<T>>, legacy: seq<T>, all: seq<T>, byPrecedence: seq<T>) {
    && |all| == |byPrecedence| == Lengths(roots) + |legacy|
    && all[Lengths(roots)..] == byPrecedence[Lengths(roots)..] == legacy
    && (forall i, k :: 0 <= i < |roots| && 0 <= k < |roots[i]| ==> IsAt(roots[i][k], all, Lengths(roots[..i]) + k))
    && forall i, k :: 0 <= i < |roots| && 0 <= k < |roots[i]| ==> IsAt(roots[i][k], byPrecedence, Lengths(roots[i + 1..]) + k)
  }

  lemma ReadingOrder<T>(roots: seq<seq<T>>, legacy: seq<T>, all: seq<T>, byPrecedence: seq<T>)
    requires all == Flatten(roots) + legacy && byPrecedence == LastGroupFirst(roots) + legacy
    ensures InnermostLastAndFirst(roots, legacy, all, byPrecedence)
  {
    GroupLengths(roots);
    forall i: nat, k: nat | i < |roots| && k < |roots[i]|
      ensures IsAt(roots[i][k], all, Lengths(roots[..i]) + k) && IsAt(roots[i][k], byPrecedence, Lengths(roots[i + 1..]) + k)
    {
      Positions(roots, i, k);
    }
  }

  /** Roots come from the outermost in, each with its lockfiles highest first; precedence wants the innermost
      root first. */
  method ReadInOrder<T>(roots: seq<seq<T>>, legacy: seq<T>) returns (all: seq<T>, byPrecedence: seq<T>)
    ensures all == Flatten(roots) + legacy
    ensures byPrecedence == LastGroupFirst(roots) + legacy
    ensures InnermostLastAndFirst(roots, legacy, all, byPrecedence)
  {
    all := [];
    var rootStarts: seq<nat> := [];
    for i := 0 to |roots|
      invariant all == Flatten(roots[..i]) && |rootStarts| == i
      invariant forall j :: 0 <= j < i ==> rootStarts[j] == |Flatten(roots[..j])|
    {
      assert roots[..i + 1][..i] == roots[..i];
      rootStarts := rootStarts + [|all|];
      all := all + roots[i];
    }
    assert roots[..|roots|] == roots;
    var rootsEnd := |all|;
    byPrecedence := FromLastRoot(roots, all, rootStarts);
    all := all + legacy;
    byPrecedence := byPrecedence + all[rootsEnd..];
    ReadingOrder(roots, legacy, all, byPrecedence);
  }

  /** The slices between the starts, from the last to the first. */
  method FromLastRoot<T>(ghost roots: seq<seq<T>>, all: seq<T>, rootStarts: seq<nat>) returns (byPrecedence: seq<T>)
    requires all == Flatten(roots) && |rootStarts| == |roots|
    requires forall j :: 0 <= j < |roots| ==> rootStarts[j] == |Flatten(roots[..j])|
    ensures byPrecedence == LastGroupFirst(roots)
  {
    byPrecedence := [];
    var i := |rootStarts|;
    assert roots[..i] == roots;
    while i > 0
      invariant 0 <= i <= |roots|
      invariant byPrecedence + LastGroupFirst(roots[..i]) == LastGroupFirst(roots)
    {
      i := i - 1;
      GroupIsSlice(roots, i);
      var start := rootStarts[i];
      var end := if i + 1 < |rootStarts| then rootStarts[i + 1] else |all|;
      assert i + 1 == |roots| ==> roots[..i + 1] == roots;
      assert all[start..end] == roots[i];
      assert roots[..i + 1][..i] == roots[..i];
      byPrecedence := byPrecedence + all[start..end];
    }
  }

  lemma {:induction false} GroupIsSlice<T>(groups: seq<seq<T>>, i: nat)
    requires i < |groups|
    ensures |Flatten(groups[..i])| + |groups[i]| == |Flatten(groups[..i + 1])| <= |Flatten(groups)|
    ensures Flatten(groups)[|Flatten(groups[..i])|..|Flatten(groups[..i + 1])|] == groups[i]
  {
    var front := groups[..|groups| - 1];
    if i < |front| {
      GroupIsSlice(front, i);
      assert front[..i] == groups[..i] && front[..i + 1] == groups[..i + 1];
    } else {
      assert groups[..i + 1] == groups;
    }
  }

  lemma {:induction false} GroupsReordered<T>(groups: seq<seq<T>>, x: T)
    ensures x in LastGroupFirst(groups) <==> x in Flatten(groups)
  {
    if groups != [] {
      GroupsReordered(groups[..|groups| - 1], x);
    }
  }

  function MergeAll(all: seq<Snapshot>): Snapshot {
    if all == [] then Snapshot(0, map[])
    else if |all| == 1 then all[0]
    else
      var front, last := MergeAll(all[..|all| - 1]), all[|all| - 1];
      Snapshot(if front.version < last.version then last.version else front.version, MergedMaps(front.tools, last.tools))
  }

  method MergeForLookup(all: seq<Snapshot>) returns (merged: Lockfile)
    ensures Snapshot(merged.lockfileVersion, merged.tools) == MergeAll(all)
  {
    if all == [] {
      merged := new Lockfile(0, map[]);
      return;
    }
    merged := new Lockfile(all[0].version, all[0].tools);
    assert all[..1] == [all[0]];
    for i := 1 to |all|
      invariant fresh(merged)
      invariant Snapshot(merged.lockfileVersion, merged.tools) == MergeAll(all[..i])
    {
      assert all[..i + 1][..i] == all[..i];
      if merged.lockfileVersion < all[i].version {
        merged.lockfileVersion := all[i].version;
      }
      merged.Absorb(all[i].tools);
    }
    assert all[..|all|] == all;
  }

  // ----- asking -----

  function Ask(r: Request, s: Snapshot, short: string): Answer {
    if short !in s.tools then Nothing
    else if s.version > 0 then Lookup(r, s.tools[short])
    else r.unversioned(s.tools[short])
  }

  function NearestDecision(r: Request, lockfiles: seq<Snapshot>, short: string): Answer {
    if lockfiles == [] then Nothing
    else
      var answer := Ask(r, lockfiles[0], short);
      if answer.Found? || answer.Failed? then answer else NearestDecision(r, lockfiles[1..], short)
  }

  method NearestLockfileDecision(r: Request, lockfiles: seq<Snapshot>, short: string) returns (answer: Answer)
    ensures answer == NearestDecision(r, lockfiles, short)
  {
    for i := 0 to |lockfiles|
      invariant NearestDecision(r, lockfiles, short) == NearestDecision(r, lockfiles[i..], short)
    {
      assert lockfiles[i..][1..] == lockfiles[i + 1..];
      answer := AskOne(r, lockfiles[i], short);
      if answer.Found? || answer.Failed? {
        return;
      }
    }
    answer := Nothing;
  }

  method AskOne(r: Request, s: Snapshot, short: string) returns (answer: Answer)
    ensures answer == Ask(r, s, short)
  {
    if short !in s.tools {
      answer := Nothing;
    } else if s.version > 0 {
      answer := LookUp(r, s.tools[short]);
    } else {
      answer := r.unversioned(s.tools[short]);
    }
  }

  /** The answer over all lockfiles. */
  function LockedVersion(r: Request, all: seq<Snapshot>, byPrecedence: seq<Snapshot>, short: string): Answer {
    var answer := Ask(r, MergeAll(all), short);
    if answer != Ambiguous then answer
    else
      var nearest := NearestDecision(r, byPrecedence, short);
      if nearest.Nothing? then Ambiguous else nearest
  }

  /** The lockfile answers, and no lockfile of an inner root or before it in its own does. */
  predicate AnswersFirst(r: Request, roots: seq<seq<Snapshot>>, short: string, i: int, k: int) {
    && 0 <= i < |roots| && 0 <= k < |roots[i]| && Answers(r, roots[i][k], short)
    && (forall l :: 0 <= l < k ==> !Answers(r, roots[i][l], short))
    && forall j, l :: i < j < |roots| && 0 <= l < |roots[j]| ==> !Answers(r, roots[j][l], short)
  }

  predicate Answers(r: Request, s: Snapshot, short: string) {
    Ask(r, s, short).Found? || Ask(r, s, short).Failed?
  }

  lemma {:induction false} ScanPrefix(r: Request, front: seq<Snapshot>, rest: seq<Snapshot>, short: string)
    requires forall l :: 0 <= l < |front| ==> !Answers(r, front[l], short)
    ensures NearestDecision(r, front + rest, short) == NearestDecision(r, rest, short)
  {
    if front == [] {
      assert front + rest == rest;
    } else {
      assert (front + rest)[1..] == front[1..] + rest;
      ScanPrefix(r, front[1..], rest, short);
    }
  }

  /** The scan stops in the innermost root that has an answer, at its first lockfile that does. */
  lemma {:induction false} InnermostAnswers(r: Request, roots: seq<seq<Snapshot>>, legacy: seq<Snapshot>, short: string, i: int, k: int)
    requires AnswersFirst(r, roots, short, i, k)
    ensures NearestDecision(r, LastGroupFirst(roots) + legacy, short) == Ask(r, roots[i][k], short)
  {
    var front, last := roots[..|roots| - 1], roots[|roots| - 1];
    var rest := LastGroupFirst(front) + legacy;
    assert LastGroupFirst(roots) + legacy == last + rest;
    if i < |front| {
      InnermostAnswers(r, front, legacy, short, i, k);
      ScanPrefix(r, last, rest, short);
    } else {
      assert last + rest == last[..k] + (last[k..] + rest);
      ScanPrefix(r, last[..k], last[k..] + rest, short);
    }
  }

  /** If no root has an answer, the legacy lockfiles are asked in order. */
  lemma {:induction false} LegacyAnswers(r: Request, roots: seq<seq<Snapshot>>, legacy: seq<Snapshot>, short: string)
    requires forall i, k :: 0 <= i < |roots| && 0 <= k < |roots[i]| ==> !Answers(r, roots[i][k], short)
    ensures NearestDecision(r, LastGroupFirst(roots) + legacy, short) == NearestDecision(r, legacy, short)
  {
    if roots == [] {
      assert LastGroupFirst(roots) + legacy == legacy;
    } else {
      var front, last := roots[..|roots| - 1], roots[|roots| - 1];
      LegacyAnswers(r, front, legacy, short);
      ScanPrefix(r, last, LastGroupFirst(front) + legacy, short);
      assert LastGroupFirst(roots) + legacy == last + (LastGroupFirst(front) + legacy);
    }
  }

  /** Where the merged view is ambiguous, the innermost root that has an answer settles it. */
  method GetLockedVersion(r: Request, roots: seq<seq<Snapshot>>, legacy: seq<Snapshot>, short: string) returns (answer: Answer)
    ensures answer == LockedVersion(r, Flatten(roots) + legacy, LastGroupFirst(roots) + legacy, short)
    ensures Ask(r, MergeAll(Flatten(roots) + legacy), short) == Ambiguous ==>
      forall i, k :: AnswersFirst(r, roots, short, i, k) ==> answer == Ask(r, roots[i][k], short)
  {
    forall i, k | AnswersFirst(r, roots, short, i, k)
      ensures NearestDecision(r, LastGroupFirst(roots) + legacy, short) == Ask(r, roots[i][k], short)
    {
      InnermostAnswers(r, roots, legacy, short, i, k);
    }
    var all, byPrecedence := ReadInOrder(roots, legacy);
    var merged := MergeForLookup(all);
    answer := AskOne(r, Snapshot(merged.lockfileVersion, merged.tools), short);
    if answer == Ambiguous {
      var nearest := NearestLockfileDecision(r, byPrecedence, short);
      if nearest != Nothing {
        answer := nearest;
      }
    }
  }

  // ----- what the merged view holds -----

  function Join(own: Option<LockfileTool>, other: Option<LockfileTool>): Option<LockfileTool> {
    if own.Some? && other.Some? then Some(Absorbed(own.value, other.value)) else own.Or(other)
  }

  lemma FindAbsorbedOne(tools: seq<LockfileTool>, other: LockfileTool, k: ToolKey)
    ensures Find(AbsorbOne(tools, other), k) == Join(Find(tools, k), if other.Key() == k then Some(other) else None)
  {
    FindAtIndex(tools, other.Key());
    var i := IndexOf(tools, other.Key());
    if i < |tools| {
      FindReplaced(tools, Absorbed(tools[i], other), k);
    } else {
      FindSnoc(tools, other, k);
    }
  }

  lemma {:induction false} FindAbsorbed(tools: seq<LockfileTool>, others: seq<LockfileTool>, k: ToolKey)
    requires DistinctKeys(others)
    ensures Find(AbsorbAll(tools, others), k) == Join(Find(tools, k), Find(others, k))
  {
    if others != [] {
      var front, last := others[..|others| - 1], others[|others| - 1];
      FindAbsorbed(tools, front, k);
      FindAbsorbedOne(AbsorbAll(tools, front), last, k);
      FindIs(front, k);
    }
  }

  lemma {:induction false} AbsorbDistinct(tools: seq<LockfileTool>, others: seq<LockfileTool>)
    requires DistinctKeys(tools)
    ensures DistinctKeys(AbsorbAll(tools, others))
  {
    if others != [] {
      AbsorbDistinct(tools, others[..|others| - 1]);
    }
  }

  /** A root's own entry keeps its version, options, backend and platform records, and absorbing the same
      lockfile once more changes nothing. */
  lemma AbsorbTwiceIsOnce(tools: seq<LockfileTool>, others: seq<LockfileTool>, k: ToolKey)
    requires DistinctKeys(others)
    ensures var once := Find(AbsorbAll(tools, others), k);
      && once == Find(AbsorbAll(AbsorbAll(tools, others), others), k)
      && (Find(tools, k).Some? ==>
            && once.Some? && once.value.Key() == k && once.value.backend == Find(tools, k).value.backend
            && once.value.platforms == Find(tools, k).value.platforms)
      && (Find(tools, k).None? ==> once == Find(others, k))
  {
    FindAbsorbed(tools, others, k);
    FindAbsorbed(AbsorbAll(tools, others), others, k);
    FindIs(tools, k);
    var own, other := Find(tools, k), Find(others, k);
    if own.Some? && other.Some? {
      assert own.value.specifiers + other.value.specifiers + other.value.specifiers == own.value.specifiers + other.value.specifiers;
    } else if other.Some? {
      assert other.value.specifiers + other.value.specifiers == other.value.specifiers;
    }
  }

  // ----- one key of the merged view -----

  /** Distinct keys, every entry bound. */
  ghost predicate WellFormed(tools: seq<LockfileTool>) {
    DistinctKeys(tools) && AllBound(tools)
  }

  ghost predicate AllWellFormed(all: seq<Snapshot>, short: string) {
    forall s :: s in all ==> s.version > 0 && WellFormed(s.For(short))
  }

  /** The entry of the first lockfile that has the key. */
  function FirstEntry(all: seq<Snapshot>, short: string, k: ToolKey): Option<LockfileTool> {
    if all == [] then None
    else FirstEntry(all[..|all| - 1], short, k).Or(Find(all[|all| - 1].For(short), k))
  }

  /** Some lockfile binds the specifier to the key. */
  ghost predicate BoundIn(specifier: string, all: seq<Snapshot>, short: string, k: ToolKey) {
    exists s, t :: s in all && t in s.For(short) && t.Key() == k && specifier in t.specifiers
  }

  ghost predicate BoundHere(specifier: string, tools: seq<LockfileTool>, k: ToolKey) {
    exists t :: t in tools && t.Key() == k && specifier in t.specifiers
  }

  lemma BoundSnoc(specifier: string, front: seq<Snapshot>, last: Snapshot, short: string, k: ToolKey)
    ensures BoundIn(specifier, front + [last], short, k) <==>
      BoundIn(specifier, front, short, k) || BoundHere(specifier, last.For(short), k)
  {
    var all := front + [last];
    if s, t :| s in all && t in s.For(short) && t.Key() == k && specifier in t.specifiers {
      assert s in front || s == last;
    }
    if BoundIn(specifier, front, short, k) {
      var s, t :| s in front && t in s.For(short) && t.Key() == k && specifier in t.specifiers;
      assert s in all;
    }
    assert last in all;
  }

  /** Under each key the merged view has the backend of the first lockfile that has it, and the requests of
      all of them. */
  lemma {:induction false} MergedEntry(specifier: string, all: seq<Snapshot>, short: string, k: ToolKey)
    requires AllWellFormed(all, short)
    ensures var merged, first := MergeAll(all).For(short), FirstEntry(all, short, k);
      && DistinctKeys(merged)
      && (Find(merged, k).Some? <==> first.Some?)
      && (first.Some? ==> Find(merged, k).value.backend == first.value.backend)
      && ((first.Some? && specifier in Find(merged, k).value.specifiers) <==> BoundIn(specifier, all, short, k))
      && (first.Some? ==> Find(merged, k).value.specifiers != {})
  {
    if all == [] {
      return;
    }
    var front, last := all[..|all| - 1], all[|all| - 1];
    assert all == front + [last] && last in all && forall s :: s in front ==> s in all;
    MergedEntry(specifier, front, short, k);
    BoundSnoc(specifier, front, last, short, k);
    FoundIsBound(specifier, last.For(short), k);
    if front == [] {
      assert FirstEntry(front, short, k).None?;
    } else {
      var own, others := MergeAll(front).For(short), last.For(short);
      AbsorbDistinct(own, others);
      FindAbsorbed(own, others, k);
      assert MergeAll(all).For(short) == AbsorbAll(own, others);
    }
  }

  /** What an entry may lack that another lockfile's entry of its key has. */
  datatype Extra = UvGraph | AubeGraph | SourceRepository {
    function Of(t: LockfileTool): Option<string> {
      match this
      case UvGraph => t.uv
      case AubeGraph => t.aube
      case SourceRepository => t.provenance
    }
  }

  /** The lockfile's entry of the key has this graph or source repository and is of that backend. */
  ghost predicate HasExtra(s: Snapshot, short: string, k: ToolKey, x: Extra, value: Option<string>, backend: Option<string>) {
    var own := Find(s.For(short), k);
    own.Some? && x.Of(own.value) == value && own.value.backend == backend
  }

  /** The entry has the first one's platform records, and its graph or source repository or, if it has none,
      that of some lockfile that has the key under the same recorded backend. */
  ghost predicate TakesFrom(all: seq<Snapshot>, short: string, k: ToolKey, x: Extra, merged: LockfileTool, first: LockfileTool) {
    && merged.platforms == first.platforms && merged.backend == first.backend
    && (x.Of(first).Some? ==> x.Of(merged) == x.Of(first))
    && (x.Of(merged).Some? ==> exists s :: s in all && HasExtra(s, short, k, x, x.Of(merged), first.backend))
    && (x.Of(merged).Some? && x.Of(first).None? ==> first.backend.Some?)
  }

  /** The platform records under a key are those of the first lockfile that has it, and a dependency graph or
      source repository is from a lockfile that has it under the same backend. */
  lemma {:induction false} MergedData(all: seq<Snapshot>, short: string, k: ToolKey, x: Extra)
    requires AllWellFormed(all, short) && Find(MergeAll(all).For(short), k).Some?
    ensures FirstEntry(all, short, k).Some?
    ensures TakesFrom(all, short, k, x, Find(MergeAll(all).For(short), k).value, FirstEntry(all, short, k).value)
  {
    var front, last := all[..|all| - 1], all[|all| - 1];
    var own, other := Find(MergeAll(front).For(short), k), Find(last.For(short), k);
    assert all == front + [last] && last in all && forall s :: s in front ==> s in all;
    assert AllWellFormed(front, short);
    MergedSnoc(front, last, short, k);
    if own.Some? {
      MergedData(front, short, k, x);
      TakenOn(all, front, last, short, k, x, own.value, FirstEntry(front, short, k).value);
    } else {
      NotYetThere(front, short, k);
      assert HasExtra(last, short, k, x, x.Of(other.value), other.value.backend);
    }
  }

  lemma TakenOn(all: seq<Snapshot>, front: seq<Snapshot>, last: Snapshot, short: string, k: ToolKey, x: Extra,
                own: LockfileTool, first: LockfileTool)
    requires (forall s :: s in front ==> s in all) && last in all && TakesFrom(front, short, k, x, own, first)
    ensures TakesFrom(all, short, k, x, Join(Some(own), Find(last.For(short), k)).value, first)
  {
    var other := Find(last.For(short), k);
    ExtraJoins(own, other, x);
    if x.Of(own).Some? {
      var s :| s in front && HasExtra(s, short, k, x, x.Of(own), first.backend);
      assert s in all;
    } else if other.Some? {
      assert HasExtra(last, short, k, x, x.Of(other.value), other.value.backend);
    }
  }

  lemma NotYetThere(front: seq<Snapshot>, short: string, k: ToolKey)
    requires AllWellFormed(front, short) && Find(MergeAll(front).For(short), k).None?
    ensures FirstEntry(front, short, k).None?
  {
    MergedEntry("", front, short, k);
  }

  lemma ExtraJoins(own: LockfileTool, other: Option<LockfileTool>, x: Extra)
    ensures var joined := Join(Some(own), other).value;
      && joined.platforms == own.platforms && joined.backend == own.backend
      && (x.Of(own).Some? ==> x.Of(joined) == x.Of(own))
      && (x.Of(own).None? && x.Of(joined).Some? ==>
            other.Some? && x.Of(joined) == x.Of(other.value) && other.value.backend == own.backend && own.backend.Some?)
  {
  }

  lemma MergedSnoc(front: seq<Snapshot>, last: Snapshot, short: string, k: ToolKey)
    requires DistinctKeys(last.For(short))
    ensures Find(MergeAll(front + [last]).For(short), k) == Join(Find(MergeAll(front).For(short), k), Find(last.For(short), k))
  {
    var all := front + [last];
    assert all[..|all| - 1] == front;
    if front != [] {
      FindAbsorbed(MergeAll(front).For(short), last.For(short), k);
      assert MergeAll(all).For(short) == AbsorbAll(MergeAll(front).For(short), last.For(short));
    }
  }

  lemma FoundIsBound(specifier: string, tools: seq<LockfileTool>, k: ToolKey)
    requires WellFormed(tools)
    ensures (Find(tools, k).Some? && specifier in Find(tools, k).value.specifiers) <==> BoundHere(specifier, tools, k)
    ensures Find(tools, k).Some? ==> Find(tools, k).value.specifiers != {}
  {
    FindIs(tools, k);
  }

  lemma MergedIsWellFormed(all: seq<Snapshot>, short: string)
    requires AllWellFormed(all, short)
    ensures WellFormed(MergeAll(all).For(short))
  {
    var merged := MergeAll(all).For(short);
    MergedEntry("", all, short, ToolKey("", []));
    forall t | t in merged
      ensures t.specifiers != {}
    {
      MergedEntry("", all, short, t.Key());
      FindIs(merged, t.Key());
    }
  }

  /** The merged view is of the highest version read. */
  lemma {:induction false} MergedVersionIsHighest(all: seq<Snapshot>)
    requires all != []
    ensures forall s :: s in all ==> s.version <= MergeAll(all).version
    ensures exists s :: s in all && s.version == MergeAll(all).version
  {
    var front, last := all[..|all| - 1], all[|all| - 1];
    assert all == front + [last] && last in all;
    if front != [] {
      MergedVersionIsHighest(front);
      var s :| s in front && s.version == MergeAll(front).version;
      assert s in all;
    }
  }

  /** So one lockfile with bindings makes all entries be looked up by them, and only where none has any is the
      tool's list left to the version match alone. */
  lemma BindingsIfAnyHasThem(r: Request, all: seq<Snapshot>, short: string)
    requires short in MergeAll(all).tools
    ensures (exists s :: s in all && s.version > 0) ==> Ask(r, MergeAll(all), short) == Lookup(r, MergeAll(all).tools[short])
    ensures (forall s :: s in all ==> s.version == 0) ==> Ask(r, MergeAll(all), short) == r.unversioned(MergeAll(all).tools[short])
  {
    MergedVersionIsHighest(all);
  }
}
