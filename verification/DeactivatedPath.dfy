/**
 Undoing mise's PATH changes on deactivation, keeping what the user added
 (src/hook_env.rs, `compute_deactivated_path`).

 A PATH is the list of its entries. The empty list stands for an empty variable.
 */
module DeactivatedPath {
  type Path = string
  type Counts = map<Path, nat>

  function Count(s: seq<Path>, p: Path): nat {
    if s == [] then 0 else Count(s[..|s| - 1], p) + if s[|s| - 1] == p then 1 else 0
  }

  lemma {:induction false} CountConcat(a: seq<Path>, b: seq<Path>, p: Path)
    ensures Count(a + b, p) == Count(a, p) + Count(b, p)
  {
    if b == [] {
      assert a + b == a;
    } else {
      assert (a + b)[..|a + b| - 1] == a + b[..|b| - 1];
      CountConcat(a, b[..|b| - 1], p);
    }
  }

  lemma {:induction false} CountIn(s: seq<Path>, p: Path)
    ensures Count(s, p) > 0 <==> p in s
  {
    if s != [] {
      CountIn(s[..|s| - 1], p);
      assert s == s[..|s| - 1] + [s[|s| - 1]];
    }
  }

  function Min(x: int, y: int): int {
    if x < y then x else y
  }

  function Max(x: int, y: int): int {
    if x < y then y else x
  }

  /** What the computation starts from. `shims` are the directories that activation itself put there. */
  datatype Inputs = Inputs(current: seq<Path>, mise: seq<Path>, pristine: seq<Path>, shims: set<Path>) {
    /** How many copies of `p` are to be left. */
    function Target(p: Path): nat {
      var pristineCount := Count(pristine, p);
      if p in shims then pristineCount
      else Max(Max(0, Count(current, p) - Count(mise, p)), pristineCount)
    }
  }

  /** The entries that come early enough among their copies, in order. */
  function FirstCopies(s: seq<Path>, limit: Path -> nat): seq<Path> {
    if s == [] then []
    else
      var front, last := s[..|s| - 1], s[|s| - 1];
      FirstCopies(front, limit) + if Count(front, last) < limit(last) then [last] else []
  }

  function Repeat(p: Path, n: nat): seq<Path> {
    if n == 0 then [] else Repeat(p, n - 1) + [p]
  }

  /** Each path of `s`, at the first place it has there, as often as `short` says. */
  function Shortfall(s: seq<Path>, short: Path -> nat): seq<Path> {
    if s == [] then []
    else
      var front, last := s[..|s| - 1], s[|s| - 1];
      Shortfall(front, short) + if last in front then [] else Repeat(last, short(last))
  }

  function TargetOf(i: Inputs): Path -> nat {
    p => i.Target(p)
  }

  /** The part of the current PATH that stays. */
  function Kept(i: Inputs): seq<Path> {
    FirstCopies(i.current, TargetOf(i))
  }

  /** How many pristine copies of a path the kept part lacks. */
  function MissingOf(i: Inputs): Path -> nat {
    p => Max(0, i.Target(p) - Count(i.current, p))
  }

  function Restored(i: Inputs): seq<Path> {
    if i.current == [] || i.mise == [] then i.pristine
    else Kept(i) + Shortfall(i.pristine, MissingOf(i))
  }

  // ----- the method -----

  method CountOccurrences(s: seq<Path>) returns (counts: Counts)
    ensures counts.Keys == set p | p in s
    ensures forall p :: Get(counts, p) == Count(s, p)
  {
    counts := map[];
    for k := 0 to |s|
      invariant counts.Keys == set p | p in s[..k]
      invariant forall p :: Get(counts, p) == Count(s[..k], p)
    {
      assert s[..k + 1][..k] == s[..k] && s[..k + 1] == s[..k] + [s[k]];
      counts := counts[s[k] := Get(counts, s[k]) + 1];
    }
    assert s[..|s|] == s;
  }

  function Get(counts: Counts, p: Path): nat {
    if p in counts then counts[p] else 0
  }

  /** How many copies of each path to keep: user additions and pristine entries, and of mise's shim
      directories only what was there before activation. */
  method TargetCounts(i: Inputs) returns (targets: Counts)
    ensures targets.Keys == (set p | p in i.current) + (set p | p in i.pristine)
    ensures forall p :: p in targets ==> targets[p] == i.Target(p)
  {
    var currentCounts := CountOccurrences(i.current);
    var miseCounts := CountOccurrences(i.mise);
    var pristineCounts := CountOccurrences(i.pristine);
    targets := map[];
    var todo := currentCounts.Keys;
    while todo != {}
      invariant todo <= currentCounts.Keys && targets.Keys == currentCounts.Keys - todo
      invariant forall p :: p in targets ==> targets[p] == i.Target(p)
      decreases todo
    {
      var p :| p in todo;
      todo := todo - {p};
      var pristineCount := Get(pristineCounts, p);
      var keep := if p in i.shims then pristineCount
                  else Max(Max(0, currentCounts[p] - Get(miseCounts, p)), pristineCount);
      targets := targets[p := keep];
    }
    todo := pristineCounts.Keys;
    while todo != {}
      invariant todo <= pristineCounts.Keys
      invariant targets.Keys == currentCounts.Keys + (pristineCounts.Keys - todo)
      invariant forall p :: p in targets ==> targets[p] == i.Target(p)
      decreases todo
    {
      var p :| p in todo;
      todo := todo - {p};
      targets := targets[p := if p in targets then Max(targets[p], pristineCounts[p]) else pristineCounts[p]];
    }
  }

  method ComputeDeactivatedPath(i: Inputs) returns (final: seq<Path>)
    ensures final == Restored(i)
    ensures i.current == [] || i.mise == [] ==> final == i.pristine
  {
    if i.current == [] || i.mise == [] {
      return i.pristine;
    }
    var targets := TargetCounts(i);
    var kept, counts := KeepFirstCopies(i.current, targets, TargetOf(i));
    forall p
      ensures i.Target(p) == Count(kept, p) + MissingOf(i)(p)
    {
      TargetSplits(i, p);
    }
    final := AddMissing(i.pristine, targets, kept, counts, MissingOf(i));
  }

  /** The first of the last two loops: each entry stays while its path is below its target. */
  method KeepFirstCopies(s: seq<Path>, targets: Counts, ghost limit: Path -> nat)
    returns (kept: seq<Path>, counts: Counts)
    requires forall p :: p in s ==> p in targets && targets[p] == limit(p)
    ensures kept == FirstCopies(s, limit)
    ensures forall p :: Get(counts, p) == Count(kept, p)
  {
    kept, counts := [], map[];
    for k := 0 to |s|
      invariant kept == FirstCopies(s[..k], limit)
      invariant forall p :: Get(counts, p) == Count(kept, p)
    {
      var p := s[k];
      assert s[..k + 1][..k] == s[..k];
      FirstCopiesCount(s[..k], limit, p);
      ghost var before := kept;
      if Get(counts, p) < targets[p] {
        kept := kept + [p];
        counts := counts[p := Get(counts, p) + 1];
        assert kept[..|before|] == before;
      }
    }
    assert s[..|s|] == s;
  }

  /** The last loop: pristine copies that are still missing go to the end. */
  method AddMissing(s: seq<Path>, targets: Counts, kept: seq<Path>, counts: Counts, ghost short: Path -> nat)
    returns (final: seq<Path>)
    requires forall p :: p in s ==> p in targets && targets[p] == Get(counts, p) + short(p)
    ensures final == kept + Shortfall(s, short)
  {
    final := kept;
    var have := counts;
    ghost var tail := [];
    for k := 0 to |s|
      invariant final == kept + tail && tail == Shortfall(s[..k], short)
      invariant forall p :: p in s[..k] ==> Get(have, p) == Get(counts, p) + short(p)
      invariant forall p :: p !in s[..k] ==> Get(have, p) == Get(counts, p)
    {
      var p := s[k];
      ghost var more := if p in s[..k] then 0 else short(p);
      assert targets[p] - Get(have, p) == more;
      ShortfallStep(s, k, short);
      final, have := FillUp(final, have, p, targets[p]);
      Associative(kept, tail, Repeat(p, more));
      tail := tail + Repeat(p, more);
    }
    assert s[..|s|] == s;
  }

  lemma Associative(a: seq<Path>, b: seq<Path>, c: seq<Path>)
    ensures (a + b) + c == a + (b + c)
  {
  }

  lemma ShortfallStep(s: seq<Path>, k: nat, short: Path -> nat)
    requires k < |s|
    ensures Shortfall(s[..k + 1], short) ==
      Shortfall(s[..k], short) + Repeat(s[k], if s[k] in s[..k] then 0 else short(s[k]))
    ensures forall q :: q in s[..k + 1] <==> q in s[..k] || q == s[k]
  {
    assert s[..k + 1][..k] == s[..k] && s[..k + 1] == s[..k] + [s[k]];
  }

  /** The innermost loop: as many copies as are still missing. */
  method FillUp(paths: seq<Path>, counts: Counts, p: Path, target: nat) returns (final: seq<Path>, kept: Counts)
    requires Get(counts, p) <= target
    ensures final == paths + Repeat(p, target - Get(counts, p))
    ensures forall q :: Get(kept, q) == if q == p then target else Get(counts, q)
  {
    final, kept := paths, counts;
    while Get(kept, p) < target
      invariant Get(counts, p) <= Get(kept, p) <= target
      invariant final == paths + Repeat(p, Get(kept, p) - Get(counts, p))
      invariant forall q :: q != p ==> Get(kept, q) == Get(counts, q)
      decreases target - Get(kept, p)
    {
      final := final + [p];
      kept := kept[p := Get(kept, p) + 1];
    }
  }

  // ----- what deactivation leaves -----

  lemma TargetSplits(i: Inputs, p: Path)
    ensures i.Target(p) == Count(Kept(i), p) + MissingOf(i)(p)
  {
    FirstCopiesCount(i.current, TargetOf(i), p);
  }

  lemma {:induction false} FirstCopiesCount(s: seq<Path>, limit: Path -> nat, p: Path)
    ensures Count(FirstCopies(s, limit), p) == Min(Count(s, p), limit(p))
  {
    if s != [] {
      var front, last := s[..|s| - 1], s[|s| - 1];
      FirstCopiesCount(front, limit, p);
      CountConcat(FirstCopies(front, limit), if Count(front, last) < limit(last) then [last] else [], p);
    }
  }

  lemma {:induction false} ShortfallCount(s: seq<Path>, short: Path -> nat, p: Path)
    ensures Count(Shortfall(s, short), p) == if p in s then short(p) else 0
  {
    if s != [] {
      var front, last := s[..|s| - 1], s[|s| - 1];
      ShortfallCount(front, short, p);
      assert s == front + [last];
      RepeatCount(last, short(last), p);
      CountConcat(Shortfall(front, short), if last in front then [] else Repeat(last, short(last)), p);
    }
  }

  lemma {:induction false} RepeatCount(p: Path, n: nat, q: Path)
    ensures Count(Repeat(p, n), q) == if q == p then n else 0
  {
    if n > 0 {
      RepeatCount(p, n - 1, q);
      CountConcat(Repeat(p, n - 1), [p], q);
    }
  }

  lemma MissingCount(i: Inputs, p: Path)
    ensures Count(Shortfall(i.pristine, MissingOf(i)), p) == MissingOf(i)(p)
  {
    ShortfallCount(i.pristine, MissingOf(i), p);
    CountIn(i.pristine, p);
  }

  /** After deactivation each path is there as often as the user added it beyond mise's own copies, and
      at least as often as before activation; a shim directory exactly as often as before. */
  lemma CountLaw(i: Inputs, p: Path)
    requires i.current != [] && i.mise != []
    ensures Count(Restored(i), p) ==
      if p in i.shims then Count(i.pristine, p)
      else Max(Count(i.current, p) - Count(i.mise, p), Count(i.pristine, p))
  {
    var kept, missing := Kept(i), Shortfall(i.pristine, MissingOf(i));
    TargetSplits(i, p);
    MissingCount(i, p);
    CountConcat(kept, missing, p);
  }

  /** Whatever mise did, no pristine path is left fewer times than it was there. */
  lemma PristineStays(i: Inputs, p: Path)
    ensures Count(Restored(i), p) >= Count(i.pristine, p)
  {
    if i.current != [] && i.mise != [] {
      CountLaw(i, p);
    }
  }

  lemma {:induction false} FirstCopiesPrefix(s: seq<Path>, k: nat, limit: Path -> nat)
    requires k <= |s|
    ensures FirstCopies(s[..k], limit) <= FirstCopies(s, limit)
  {
    if k < |s| {
      assert s[..|s| - 1][..k] == s[..k];
      FirstCopiesPrefix(s[..|s| - 1], k, limit);
    } else {
      assert s[..k] == s;
    }
  }

  lemma {:induction false} ShortfallPrefix(s: seq<Path>, k: nat, short: Path -> nat)
    requires k <= |s|
    ensures Shortfall(s[..k], short) <= Shortfall(s, short)
  {
    if k < |s| {
      assert s[..|s| - 1][..k] == s[..k];
      ShortfallPrefix(s[..|s| - 1], k, short);
    } else {
      assert s[..k] == s;
    }
  }

  /** How many copies of a path are to be left, spelled out. */
  function Wanted(i: Inputs, p: Path): int {
    if p in i.shims then Count(i.pristine, p) else Max(Count(i.current, p) - Count(i.mise, p), Count(i.pristine, p))
  }

  /** It is the first copies that stay: of any first part of the current PATH, the result starts with as many
      copies of each path as there are in it, up to those wanted. */
  lemma FirstCopiesStay(i: Inputs, k: nat) returns (n: nat)
    requires i.current != [] && i.mise != [] && k <= |i.current|
    ensures n <= |Restored(i)|
    ensures forall p :: Count(Restored(i)[..n], p) == Min(Count(i.current[..k], p), Wanted(i, p))
  {
    var start := FirstCopies(i.current[..k], TargetOf(i));
    FirstCopiesPrefix(i.current, k, TargetOf(i));
    n := |start|;
    assert Restored(i)[..n] == start;
    forall p
      ensures Count(Restored(i)[..n], p) == Min(Count(i.current[..k], p), Wanted(i, p))
    {
      StayCount(i, k, p);
    }
  }

  lemma StayCount(i: Inputs, k: nat, p: Path)
    requires k <= |i.current|
    ensures Count(FirstCopies(i.current[..k], TargetOf(i)), p) == Min(Count(i.current[..k], p), Wanted(i, p))
  {
    FirstCopiesCount(i.current[..k], TargetOf(i), p);
  }

  /** And what is missing comes back behind them in the order of the pristine PATH, all copies of a path
      together: after those of any first part of it, each path of that part is complete and no other is
      added to. */
  lemma MissingComeBack(i: Inputs, k: nat) returns (n: nat)
    requires i.current != [] && i.mise != [] && k <= |i.pristine|
    ensures n <= |Restored(i)|
    ensures forall p :: p in i.pristine[..k] ==> Count(Restored(i)[..n], p) == Wanted(i, p)
    ensures forall p :: p !in i.pristine[..k] ==> Count(Restored(i)[..n], p) == Min(Count(i.current, p), Wanted(i, p))
  {
    var back := Shortfall(i.pristine[..k], MissingOf(i));
    ShortfallPrefix(i.pristine, k, MissingOf(i));
    n := |Kept(i)| + |back|;
    assert Restored(i)[..n] == Kept(i) + back;
    forall p
      ensures Count(Restored(i)[..n], p) == BackBy(i, k, p)
    {
      MissingCountBy(i, k, p);
    }
  }

  function BackBy(i: Inputs, k: nat, p: Path): int
    requires k <= |i.pristine|
  {
    if p in i.pristine[..k] then Wanted(i, p) else Min(Count(i.current, p), Wanted(i, p))
  }

  lemma MissingCountBy(i: Inputs, k: nat, p: Path)
    requires k <= |i.pristine|
    ensures Count(Kept(i) + Shortfall(i.pristine[..k], MissingOf(i)), p) == BackBy(i, k, p)
  {
    CountConcat(Kept(i), Shortfall(i.pristine[..k], MissingOf(i)), p);
    FirstCopiesCount(i.current, TargetOf(i), p);
    ShortfallCount(i.pristine[..k], MissingOf(i), p);
  }

  predicate IsSubsequence(a: seq<Path>, b: seq<Path>) {
    if a == [] then true
    else if b == [] then false
    else
      || IsSubsequence(a, b[..|b| - 1])
      || (a[|a| - 1] == b[|b| - 1] && IsSubsequence(a[..|a| - 1], b[..|b| - 1]))
  }

  /** What stays keeps its order; what is added back was there before activation. */
  lemma KeptThenPristine(i: Inputs)
    requires i.current != [] && i.mise != []
    ensures Restored(i) == Kept(i) + Shortfall(i.pristine, MissingOf(i))
    ensures IsSubsequence(Kept(i), i.current)
    ensures forall p :: p in Shortfall(i.pristine, MissingOf(i)) ==> p in i.pristine
  {
    FirstCopiesInOrder(i.current, TargetOf(i));
    forall p | p in Shortfall(i.pristine, MissingOf(i))
      ensures p in i.pristine
    {
      ShortfallCount(i.pristine, MissingOf(i), p);
      CountIn(Shortfall(i.pristine, MissingOf(i)), p);
    }
  }

  lemma {:induction false} FirstCopiesInOrder(s: seq<Path>, limit: Path -> nat)
    ensures IsSubsequence(FirstCopies(s, limit), s)
  {
    if s != [] {
      var front, last := s[..|s| - 1], s[|s| - 1];
      FirstCopiesInOrder(front, limit);
      var kept := FirstCopies(front, limit);
      assert (kept + [last])[..|kept|] == kept;
      assert kept + [] == kept;
    }
  }

  /** Mise's paths are its own: not pristine, and no copies were added by the user. */
  predicate MiseOnly(i: Inputs) {
    forall p :: p in i.mise ==> p !in i.pristine && Count(i.current, p) <= Count(i.mise, p)
  }

  /** The current PATH without mise's entries and without the shim copies that were not there before. */
  function Cleaned(i: Inputs, s: seq<Path>): seq<Path> {
    if s == [] then []
    else
      var front, last := s[..|s| - 1], s[|s| - 1];
      var stays := last !in i.mise && (last in i.shims ==> Count(front, last) < Count(i.pristine, last));
      Cleaned(i, front) + if stays then [last] else []
  }

  /** How many copies of a pristine path the current PATH lacks. */
  function Lacking(i: Inputs): Path -> nat {
    p => Max(Count(i.pristine, p) - Count(i.current, p), 0)
  }

  /** When mise's paths are its own, the result is exactly the current PATH with them removed, and then each
      pristine path as often as the current PATH lacks it. */
  lemma ExactlyCleaned(i: Inputs)
    requires MiseOnly(i) && i.current != [] && i.mise != []
    ensures Restored(i) == Cleaned(i, i.current) + Shortfall(i.pristine, Lacking(i))
  {
    KeptIsCleaned(i);
    forall p | p in i.pristine
      ensures MissingOf(i)(p) == Lacking(i)(p)
    {
      CountIn(i.mise, p);
    }
    SameShortfall(i.pristine, MissingOf(i), Lacking(i));
  }

  lemma {:induction false} SameShortfall(s: seq<Path>, short: Path -> nat, other: Path -> nat)
    requires forall p :: p in s ==> short(p) == other(p)
    ensures Shortfall(s, short) == Shortfall(s, other)
  {
    if s != [] {
      SameShortfall(s[..|s| - 1], short, other);
    }
  }

  lemma KeptIsCleaned(i: Inputs)
    requires MiseOnly(i)
    ensures Kept(i) == Cleaned(i, i.current)
  {
    assert i.current[..|i.current|] == i.current;
    CleanedPrefix(i, |i.current|);
  }

  lemma {:induction false} CleanedPrefix(i: Inputs, k: nat)
    requires MiseOnly(i) && k <= |i.current|
    ensures FirstCopies(i.current[..k], TargetOf(i)) == Cleaned(i, i.current[..k])
  {
    if k > 0 {
      var s, p := i.current[..k], i.current[k - 1];
      CleanedPrefix(i, k - 1);
      assert s[..k - 1] == i.current[..k - 1];
      assert i.current == s + i.current[k..];
      CountConcat(s, i.current[k..], p);
      CountIn(i.mise, p);
      CountIn(i.pristine, p);
    }
  }

  /** Activation put mise's paths in front of the rest, and no pristine copy is gone from that since:
      deactivation gives the rest back with whatever the user changed in it, exactly if the user added no
      copies of shim directories. */
  lemma UndoesActivation(i: Inputs, rest: seq<Path>)
    requires i.mise != [] && i.current == i.mise + rest
    requires forall p :: p in i.mise ==> p !in rest
    requires forall p :: Count(i.pristine, p) <= Count(rest, p)
    ensures Restored(i) == rest <==> forall p :: p in rest && p in i.shims ==> Count(rest, p) == Count(i.pristine, p)
  {
    if Restored(i) == rest {
      forall p | p in rest && p in i.shims
        ensures Count(rest, p) == Count(i.pristine, p)
      {
        CountLaw(i, p);
      }
    }
    if forall p :: p in rest && p in i.shims ==> Count(rest, p) == Count(i.pristine, p) {
      GivesRestBack(i, rest);
    }
  }

  lemma GivesRestBack(i: Inputs, rest: seq<Path>)
    requires i.mise != [] && i.current == i.mise + rest
    requires forall p :: p in i.mise ==> p !in rest
    requires forall p :: Count(i.pristine, p) <= Count(rest, p)
    requires forall p :: p in rest && p in i.shims ==> Count(rest, p) == Count(i.pristine, p)
    ensures Restored(i) == rest
  {
    forall p
      ensures p in i.mise ==> p !in i.pristine && Count(i.current, p) <= Count(i.mise, p)
      ensures p in i.pristine ==> MissingOf(i)(p) == 0
    {
      CountConcat(i.mise, rest, p);
      CountIn(i.mise, p);
      CountIn(rest, p);
      CountIn(i.pristine, p);
    }
    assert MiseOnly(i);
    KeptIsCleaned(i);
    CleanedRest(i, rest, |rest|);
    assert rest[..|rest|] == rest;
    NothingMissing(i.pristine, MissingOf(i));
    assert rest + [] == rest;
  }

  lemma {:induction false} CleanedRest(i: Inputs, rest: seq<Path>, k: nat)
    requires k <= |rest| && (forall p :: p in rest ==> p !in i.mise)
    requires forall p :: p in rest && p in i.shims ==> Count(rest, p) == Count(i.pristine, p)
    ensures Cleaned(i, i.mise + rest[..k]) == rest[..k]
  {
    var s := i.mise + rest[..k];
    if k > 0 {
      CleanedRest(i, rest, k - 1);
      assert s[..|s| - 1] == i.mise + rest[..k - 1];
      assert rest[..k] == rest[..k - 1] + [rest[k - 1]];
      FewerBefore(i, rest, k);
    } else {
      assert s == i.mise && i.mise[..|i.mise|] == i.mise;
      CleanedMise(i, |i.mise|);
    }
  }

  /** Before its k-th place the rest has fewer copies of what is there than in all. */
  lemma FewerBefore(i: Inputs, rest: seq<Path>, k: nat)
    requires 0 < k <= |rest| && rest[k - 1] !in i.mise
    ensures Count(i.mise + rest[..k - 1], rest[k - 1]) < Count(rest, rest[k - 1])
  {
    CountConcat(i.mise, rest[..k - 1], rest[k - 1]);
    CountIn(i.mise, rest[k - 1]);
    FewerInPrefix(rest, k);
  }

  lemma FewerInPrefix(s: seq<Path>, k: nat)
    requires 0 < k <= |s|
    ensures Count(s[..k - 1], s[k - 1]) < Count(s, s[k - 1])
  {
    assert s == s[..k] + s[k..] && s[..k] == s[..k - 1] + [s[k - 1]];
    CountConcat(s[..k], s[k..], s[k - 1]);
    CountConcat(s[..k - 1], [s[k - 1]], s[k - 1]);
  }

  lemma {:induction false} CleanedMise(i: Inputs, k: nat)
    requires k <= |i.mise|
    ensures Cleaned(i, i.mise[..k]) == []
  {
    if k > 0 {
      CleanedMise(i, k - 1);
      assert i.mise[..k][..k - 1] == i.mise[..k - 1];
    }
  }

  lemma {:induction false} NothingMissing(s: seq<Path>, short: Path -> nat)
    requires forall p :: p in s ==> short(p) == 0
    ensures Shortfall(s, short) == []
  {
    if s != [] {
      NothingMissing(s[..|s| - 1], short);
    }
  }
}
