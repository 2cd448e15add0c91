/**
 Skill links: a directory of symbolic links and the persisted record of which of them mise made
 (src/packslip.rs, `sync_skills`).

 Every filesystem effect is one method of `SkillDir`, and each appends the disk it leaves behind to a
 ghost trace. A crash (or an I/O error that ends the call) can leave any disk of that trace, so a
 property of all disks in the trace is a property of every crash point.
 */
module SkillSync {
  import opened Wrappers

  type Name = string
  type Path = string

  /** What is in the directory under one name: a link, or anything else, such as a file or directory. */
  datatype Entry = Link(target: Path) | Other(contents: string)

  /** `made` is the truth the code cannot see: the links mise made that are still there.
      `record` is `None` when the state file exists but cannot be read as one. A link is made under a
      temporary name of its own and then renamed; `temporary` are the targets of those not yet renamed, which
      `entries` does not list. */
  datatype Disk = Disk(
    dirExists: bool,
    entries: map<Name, Entry>,
    record: Option<map<Name, Path>>,
    made: map<Name, Path>,
    temporary: seq<Path>)

  datatype Skill = Skill(name: Name, path: Path)

  datatype Report = Report(linked: set<Name>, upToDate: set<Name>, pruned: set<Name>, skipped: multiset<Name>)

  /** One call's arguments: the wanted links, the test for "inside installs", and whether to prune. */
  datatype Job = Job(wanted: map<Name, Path>, inside: set<Path>, prune: bool)

  /** The first skill of a name is the one that is linked under it. */
  function FirstWins(skills: seq<Skill>): map<Name, Path> {
    if skills == [] then map[]
    else
      var front := skills[..|skills| - 1];
      var last := skills[|skills| - 1];
      if last.name in FirstWins(front) then FirstWins(front) else FirstWins(front)[last.name := last.path]
  }

  lemma {:induction false} FirstWinsMeaning(skills: seq<Skill>, i: nat)
    requires i < |skills|
    ensures skills[i].name in FirstWins(skills)
    ensures (forall j :: 0 <= j < i ==> skills[j].name != skills[i].name)
      ==> FirstWins(skills)[skills[i].name] == skills[i].path
  {
    var front := skills[..|skills| - 1];
    if i < |front| {
      FirstWinsMeaning(front, i);
      assert forall j :: 0 <= j < i ==> front[j] == skills[j];
    } else if skills[i].name in FirstWins(front) {
      var j := FirstOf(front, skills[i].name);
      assert front[j] == skills[j];
    }
  }

  lemma {:induction false} FirstOf(skills: seq<Skill>, name: Name) returns (i: nat)
    requires name in FirstWins(skills)
    ensures i < |skills| && skills[i].name == name
  {
    var front := skills[..|skills| - 1];
    if name in FirstWins(front) {
      i := FirstOf(front, name);
    } else {
      i := |front|;
    }
  }

  /** How often each name was given again after its first skill. */
  function Repeats(skills: seq<Skill>): multiset<Name> {
    if skills == [] then multiset{}
    else
      var front := skills[..|skills| - 1];
      var last := skills[|skills| - 1];
      if last.name in FirstWins(front) then Repeats(front) + multiset{last.name} else Repeats(front)
  }

  function Named(skills: seq<Skill>, name: Name): nat {
    if skills == [] then 0 else Named(skills[..|skills| - 1], name) + if skills[|skills| - 1].name == name then 1 else 0
  }

  /** A name is wanted if some skill has it, and repeated once for every further one. */
  lemma {:induction false} RepeatsMeaning(skills: seq<Skill>, name: Name)
    ensures name in FirstWins(skills) <==> Named(skills, name) > 0
    ensures Named(skills, name) > 0 ==> Repeats(skills)[name] == Named(skills, name) - 1
    ensures Named(skills, name) == 0 ==> Repeats(skills)[name] == 0
  {
    if skills != [] {
      RepeatsMeaning(skills[..|skills| - 1], name);
    }
  }

  // ----- one name at a time -----

  /** Everything a disk says about one name. */
  datatype Cell = Cell(entry: Option<Entry>, recorded: Option<Path>, made: Option<Path>)

  function CellOf(disk: Disk, name: Name): Cell
    requires disk.record.Some?
  {
    Cell(Get(disk.entries, name), Get(disk.record.value, name), Get(disk.made, name))
  }

  /** The entry is a link that points where the record says it was made to point. */
  predicate AsRecorded(c: Cell) {
    c.recorded.Some? && c.entry == Some(Link(c.recorded.value))
  }

  predicate Ours(c: Cell, job: Job) {
    AsRecorded(c) && c.recorded.value in job.inside
  }

  datatype Fate = UpToDate | Relinked | Skipped | Pruned | Untouched

  /** What a sync does under one name, decided by the disk it starts from. */
  function FateOf(c: Cell, name: Name, job: Job): Fate {
    if name in job.wanted then
      if c.entry.None? then Relinked
      else if !Ours(c, job) then Skipped
      else if c.recorded.value == job.wanted[name] then UpToDate
      else Relinked
    else if job.prune && Ours(c, job) then Pruned
    else Untouched
  }

  predicate Changes(c: Cell, name: Name, job: Job) {
    FateOf(c, name, job) == Relinked || FateOf(c, name, job) == Pruned
  }

  /** The record a sync leaves for a name whose entry it did not touch. */
  function Kept(c: Cell, prune: bool): Option<Path> {
    if !prune && AsRecorded(c) then c.recorded else None
  }

  /** The cell a completed sync leaves. */
  function Finished(c: Cell, name: Name, job: Job): Cell {
    match FateOf(c, name, job)
    case UpToDate => c
    case Relinked => Cell(Some(Link(job.wanted[name])), Some(job.wanted[name]), Some(job.wanted[name]))
    case Pruned => Cell(None, None, None)
    case _ => c.(recorded := Kept(c, job.prune))
  }

  /** The cells a sync can be stopped at. A link is recorded before it is made, and forgotten only
      after it is removed. */
  ghost predicate Stage(c0: Cell, name: Name, job: Job, c: Cell) {
    || c == c0
    || c == Finished(c0, name, job)
    || (FateOf(c0, name, job) == Relinked &&
        (|| c == Cell(None, c0.recorded, None)
         || c == Cell(None, Some(job.wanted[name]), None)))
    || (FateOf(c0, name, job) == Pruned && c == Cell(None, c0.recorded, None))
  }

  // ----- whole disks -----

  /** The link for `name` is made but not renamed yet; the record already has it. */
  ghost predicate Lingers(d0: Disk, job: Job, d: Disk, name: Name)
    requires d0.record.Some? && d.record.Some?
  {
    && name in job.wanted && FateOf(CellOf(d0, name), name, job) == Relinked
    && CellOf(d, name) == Cell(None, Some(job.wanted[name]), None)
    && d.temporary == d0.temporary + [job.wanted[name]]
  }

  ghost predicate CrashPoint(d0: Disk, job: Job, d: Disk)
    requires d0.record.Some?
  {
    && d.record.Some?
    && (d.temporary == d0.temporary || exists name :: Lingers(d0, job, d, name))
    && (d.dirExists || d == d0)
    && (d.dirExists ==> d0.dirExists || job.wanted != map[])
    && forall name :: Stage(CellOf(d0, name), name, job, CellOf(d, name))
  }

  ghost predicate Completed(d0: Disk, job: Job, d: Disk)
    requires d0.record.Some?
  {
    && d.record.Some? && d.temporary == d0.temporary
    && d.dirExists == (d0.dirExists || job.wanted != map[])
    && forall name :: CellOf(d, name) == Finished(CellOf(d0, name), name, job)
  }

  /** A directory that is not there holds nothing, and a link mise made that is still there is there. */
  ghost predicate Possible(d: Disk) {
    && (!d.dirExists ==> d.entries == map[] && d.record == Some(map[]) && d.temporary == [])
    && d.made.Keys <= d.entries.Keys
  }

  // ----- the effects, and what each does to the cells -----

  function WithoutEntry(d: Disk, name: Name): Disk {
    d.(entries := d.entries - {name}, made := d.made - {name})
  }

  function WithLink(d: Disk, name: Name, target: Path): Disk {
    d.(entries := d.entries[name := Link(target)], made := d.made[name := target])
  }

  function WithTemporary(d: Disk, target: Path): Disk {
    d.(temporary := d.temporary + [target])
  }

  function WithRecord(d: Disk, links: map<Name, Path>): Disk {
    d.(record := Some(links))
  }

  ghost predicate SameElsewhere(d: Disk, name: Name, after: Disk)
    requires d.record.Some?
  {
    && after.record.Some? && after.dirExists == d.dirExists && after.temporary == d.temporary
    && forall n :: n != name ==> CellOf(after, n) == CellOf(d, n)
  }

  lemma WithoutEntryCells(d: Disk, name: Name)
    requires d.record.Some?
    ensures SameElsewhere(d, name, WithoutEntry(d, name))
    ensures CellOf(WithoutEntry(d, name), name) == Cell(None, CellOf(d, name).recorded, None)
  {
  }

  lemma WithLinkCells(d: Disk, name: Name, target: Path)
    requires d.record.Some?
    ensures SameElsewhere(d, name, WithLink(d, name, target))
    ensures CellOf(WithLink(d, name, target), name) ==
            Cell(Some(Link(target)), CellOf(d, name).recorded, Some(target))
  {
  }

  lemma WithRecordCells(d: Disk, name: Name, links: map<Name, Path>)
    requires d.record.Some? && links - {name} == d.record.value - {name}
    ensures SameElsewhere(d, name, WithRecord(d, links))
    ensures CellOf(WithRecord(d, links), name) == CellOf(d, name).(recorded := Get(links, name))
  {
    forall n | n != name
      ensures Get(links, n) == Get(d.record.value, n)
    {
      assert Get(links - {name}, n) == Get(links, n);
      assert Get(d.record.value - {name}, n) == Get(d.record.value, n);
    }
  }

  // ----- the two phases of a sync, and the steps between their points -----

  /** The names in `done` have been linked or pruned as their fate says; every other cell, and a name
      that is only passed over, is as it was. */
  ghost predicate Progress(d0: Disk, job: Job, done: set<Name>, d: Disk)
    requires d0.record.Some?
  {
    && d.record.Some? && d.temporary == d0.temporary
    && d.dirExists == (d0.dirExists || job.wanted != map[])
    && forall n :: CellOf(d, n) ==
         if n in done && Changes(CellOf(d0, n), n, job)
         then Finished(CellOf(d0, n), n, job) else CellOf(d0, n)
  }

  /** Every disk of the list is a crash point. */
  ghost predicate Passes(d0: Disk, job: Job, disks: seq<Disk>)
    requires d0.record.Some?
  {
    disks == [] || (Passes(d0, job, disks[..|disks| - 1]) && CrashPoint(d0, job, disks[|disks| - 1]))
  }

  lemma {:induction false} PassesAll(d0: Disk, job: Job, disks: seq<Disk>)
    requires d0.record.Some? && Passes(d0, job, disks)
    ensures forall d :: d in disks ==> CrashPoint(d0, job, d)
  {
    if disks != [] {
      PassesAll(d0, job, disks[..|disks| - 1]);
      assert disks == disks[..|disks| - 1] + [disks[|disks| - 1]];
    }
  }

  lemma StepPasses(d0: Disk, job: Job, done: set<Name>, d: Disk, name: Name, after: Disk, disks: seq<Disk>)
    requires d0.record.Some? && Progress(d0, job, done, d) && SameElsewhere(d, name, after)
    requires Stage(CellOf(d0, name), name, job, CellOf(after, name)) && d.dirExists
    requires Passes(d0, job, disks)
    ensures Passes(d0, job, disks + [after])
  {
    assert CrashPoint(d0, job, after);
    assert (disks + [after])[..|disks|] == disks;
  }

  /** The temporary link on the way to a new one. */
  lemma TemporaryPasses(d0: Disk, job: Job, done: set<Name>, d: Disk, name: Name, before: Disk, disks: seq<Disk>)
    requires d0.record.Some? && Progress(d0, job, done, d) && SameElsewhere(d, name, before) && d.dirExists
    requires name in job.wanted && FateOf(CellOf(d0, name), name, job) == Relinked
    requires CellOf(before, name) == Cell(None, Some(job.wanted[name]), None)
    requires Passes(d0, job, disks)
    ensures Passes(d0, job, disks + [WithTemporary(before, job.wanted[name])])
  {
    var after := WithTemporary(before, job.wanted[name]);
    forall n
      ensures CellOf(after, n) == CellOf(before, n)
    {
    }
    assert Lingers(d0, job, after, name);
    assert CrashPoint(d0, job, after);
    assert (disks + [after])[..|disks|] == disks;
  }

  lemma StepMakesProgress(d0: Disk, job: Job, done: set<Name>, d: Disk, name: Name, after: Disk)
    requires d0.record.Some? && Progress(d0, job, done, d) && SameElsewhere(d, name, after)
    requires CellOf(after, name) ==
      if Changes(CellOf(d0, name), name, job)
      then Finished(CellOf(d0, name), name, job) else CellOf(d0, name)
    ensures Progress(d0, job, done + {name}, after)
  {
  }

  ghost function Fated(d0: Disk, job: Job, names: set<Name>, fate: Fate): set<Name>
    requires d0.record.Some?
  {
    set n | n in names && FateOf(CellOf(d0, n), n, job) == fate
  }

  lemma FatedPlus(d0: Disk, job: Job, names: set<Name>, name: Name, fate: Fate)
    requires d0.record.Some?
    ensures Fated(d0, job, names + {name}, fate) ==
            Fated(d0, job, names, fate) + if FateOf(CellOf(d0, name), name, job) == fate then {name} else {}
  {
  }

  /** After the link loop the directory holds what it held, and the links just made. */
  lemma SameNames(d0: Disk, job: Job, d: Disk)
    requires d0.record.Some? && Progress(d0, job, job.wanted.Keys, d)
    ensures d0.entries.Keys <= d.entries.Keys <= d0.entries.Keys + job.wanted.Keys
    ensures Fated(d0, job, d.entries.Keys, Pruned) == Fated(d0, job, d0.entries.Keys, Pruned)
  {
    forall n
      ensures n in d0.entries ==> n in d.entries
      ensures n in d.entries ==> n in d0.entries || n in job.wanted
    {
      assert CellOf(d, n).entry.Some? <==> n in d.entries;
    }
  }

  /** The record written last: what was linked or already right, and without pruning whatever else is
      still as recorded. */
  lemma LastRecord(d0: Disk, job: Job, done: set<Name>, d: Disk, kept: map<Name, Path>, disks: seq<Disk>)
    requires d0.record.Some? && Possible(d0) && Progress(d0, job, done, d)
    requires job.wanted.Keys <= done
    requires job.prune && d.dirExists ==> d0.entries.Keys <= done
    requires forall n :: Get(kept, n) == Finished(CellOf(d0, n), n, job).recorded
    requires Passes(d0, job, disks)
    ensures Completed(d0, job, WithRecord(d, kept))
    ensures Passes(d0, job, disks + [WithRecord(d, kept)])
  {
    var after := WithRecord(d, kept);
    forall n
      ensures CellOf(after, n) == Finished(CellOf(d0, n), n, job)
    {
      assert CellOf(after, n) == CellOf(d, n).(recorded := Get(kept, n));
    }
    if !after.dirExists {
      forall n
        ensures CellOf(after, n) == CellOf(d0, n)
      {
        assert CellOf(d, n) == CellOf(d0, n);
      }
      SameCells(after, d0);
    }
    assert CrashPoint(d0, job, after);
    assert (disks + [after])[..|disks|] == disks;
  }

  lemma KeptWhenPruning(d0: Disk, job: Job, good: set<Name>, kept: map<Name, Path>)
    requires d0.record.Some? && job.prune
    requires good == Fated(d0, job, job.wanted.Keys, Relinked) + Fated(d0, job, job.wanted.Keys, UpToDate)
    requires kept == map n | n in good :: job.wanted[n]
    ensures forall n :: Get(kept, n) == Finished(CellOf(d0, n), n, job).recorded
  {
  }

  lemma KeptOtherwise(d0: Disk, job: Job, d: Disk, good: set<Name>, kept: map<Name, Path>)
    requires d0.record.Some? && Possible(d0) && Progress(d0, job, job.wanted.Keys, d)
    requires !job.prune || !d.dirExists
    requires good == Fated(d0, job, job.wanted.Keys, Relinked) + Fated(d0, job, job.wanted.Keys, UpToDate)
    requires kept == (map n | n in good :: job.wanted[n])
      + map n | n in d0.record.value && n in d.entries && d.entries[n] == Link(d0.record.value[n]) :: d0.record.value[n]
    ensures forall n :: Get(kept, n) == Finished(CellOf(d0, n), n, job).recorded
  {
    forall n
      ensures Get(kept, n) == Finished(CellOf(d0, n), n, job).recorded
    {
      KeptName(d0, job, d, n);
    }
  }

  /** One name of the record that is written without pruning: what the old one says where it is still so, and
      otherwise what was linked. */
  lemma KeptName(d0: Disk, job: Job, d: Disk, n: Name)
    requires d0.record.Some? && Possible(d0) && d.record.Some? && (!job.prune || !d.dirExists)
    requires d.dirExists == (d0.dirExists || job.wanted != map[])
    requires CellOf(d, n) == if n in job.wanted.Keys && Changes(CellOf(d0, n), n, job)
                             then Finished(CellOf(d0, n), n, job) else CellOf(d0, n)
    ensures Finished(CellOf(d0, n), n, job).recorded ==
      if n in d0.record.value && n in d.entries && d.entries[n] == Link(d0.record.value[n]) then Some(d0.record.value[n])
      else if n in job.wanted && FateOf(CellOf(d0, n), n, job) in {Relinked, UpToDate} then Some(job.wanted[n])
      else None
  {
    assert n in d.entries <==> CellOf(d, n).entry.Some?;
    assert n in d0.record.value <==> CellOf(d0, n).recorded.Some?;
  }

  // ----- what becomes of a name, in terms of the disk -----

  /** The entry is the link its record says, to somewhere inside installs. */
  ghost predicate HasOwnLink(d: Disk, job: Job, name: Name)
    requires d.record.Some?
  {
    && name in d.entries && name in d.record.value
    && d.entries[name] == Link(d.record.value[name]) && d.record.value[name] in job.inside
  }

  /** A wanted name is up to date if its entry is a link of mise's to the wanted place, linked if it has no
      entry or a link of mise's to another, and skipped if it has any other entry; a name that is not wanted is
      pruned, if the sync prunes, if its entry is a link of mise's. */
  lemma FateMeaning(d0: Disk, job: Job, name: Name)
    requires d0.record.Some?
    ensures var own, fate := HasOwnLink(d0, job, name), FateOf(CellOf(d0, name), name, job);
      && (fate == UpToDate <==> name in job.wanted && own && d0.entries[name] == Link(job.wanted[name]))
      && (fate == Relinked <==> name in job.wanted && (name !in d0.entries || (own && d0.entries[name] != Link(job.wanted[name]))))
      && (fate == Skipped <==> name in job.wanted && name in d0.entries && !own)
      && (fate == Pruned <==> name !in job.wanted && job.prune && own)
  {
    assert CellOf(d0, name).entry.Some? <==> name in d0.entries;
    assert CellOf(d0, name).recorded.Some? <==> name in d0.record.value;
  }

  /** What a sync reports, name by name. */
  ghost predicate ReportsOn(d0: Disk, job: Job, linked: set<Name>, upToDate: set<Name>, passedOver: set<Name>, pruned: set<Name>)
    requires d0.record.Some?
  {
    && (forall n :: n in upToDate <==> n in job.wanted && HasOwnLink(d0, job, n) && d0.entries[n] == Link(job.wanted[n]))
    && (forall n :: n in linked <==>
          n in job.wanted && (n in d0.entries ==> HasOwnLink(d0, job, n) && d0.entries[n] != Link(job.wanted[n])))
    && (forall n :: n in passedOver <==> n in job.wanted && n in d0.entries && !HasOwnLink(d0, job, n))
    && (forall n :: n in pruned <==> n !in job.wanted && job.prune && HasOwnLink(d0, job, n))
  }

  lemma FatedAreReported(d0: Disk, job: Job)
    requires d0.record.Some?
    ensures ReportsOn(d0, job, Fated(d0, job, job.wanted.Keys, Relinked), Fated(d0, job, job.wanted.Keys, UpToDate),
                      Fated(d0, job, job.wanted.Keys, Skipped), Fated(d0, job, d0.entries.Keys, Pruned))
  {
    forall n
      ensures var own, fate := HasOwnLink(d0, job, n), FateOf(CellOf(d0, n), n, job);
        && (fate == UpToDate <==> n in job.wanted && own && d0.entries[n] == Link(job.wanted[n]))
        && (fate == Relinked <==> n in job.wanted && (n !in d0.entries || (own && d0.entries[n] != Link(job.wanted[n]))))
        && (fate == Skipped <==> n in job.wanted && n in d0.entries && !own)
        && (fate == Pruned <==> n !in job.wanted && job.prune && own)
    {
      FateMeaning(d0, job, n);
    }
  }

  /** The names whose entries no step touches: those with an entry, unless it is a link of mise's that points
      somewhere else than wanted, or that is not wanted and is pruned. */
  ghost predicate LeftAlone(d0: Disk, job: Job, name: Name)
    requires d0.record.Some?
  {
    if HasOwnLink(d0, job, name) then
      if name in job.wanted then d0.entries[name] == Link(job.wanted[name]) else !job.prune
    else name in d0.entries || name !in job.wanted
  }

  /** Such an entry is the same at every crash point, and the record of one that is already right is too. */
  lemma LeftAloneStays(d0: Disk, job: Job, d: Disk, name: Name)
    requires d0.record.Some? && CrashPoint(d0, job, d) && LeftAlone(d0, job, name)
    ensures Get(d.entries, name) == Get(d0.entries, name) && Get(d.made, name) == Get(d0.made, name)
    ensures name in job.wanted && HasOwnLink(d0, job, name) ==> Get(d.record.value, name) == Some(job.wanted[name])
  {
    FateMeaning(d0, job, name);
    assert Stage(CellOf(d0, name), name, job, CellOf(d, name));
  }

  class SkillDir {
    var disk: Disk
    /** Every disk an effect of the current sync has left behind, oldest first. */
    ghost var trace: seq<Disk>

    method CreateDirAll()
      modifies this
      ensures disk == old(disk).(dirExists := true)
      ensures trace == old(trace) + [disk]
    {
      disk := disk.(dirExists := true);
      trace := trace + [disk];
    }

    method RemoveAll(name: Name)
      modifies this
      ensures disk == WithoutEntry(old(disk), name)
      ensures trace == old(trace) + [disk]
    {
      disk := disk.(entries := disk.entries - {name}, made := disk.made - {name});
      trace := trace + [disk];
    }

    method WriteSyncState(links: map<Name, Path>)
      modifies this
      ensures disk == WithRecord(old(disk), links)
      ensures trace == old(trace) + [disk]
    {
      disk := disk.(record := Some(links));
      trace := trace + [disk];
    }

    method MakeTemporary(target: Path)
      modifies this
      ensures disk == WithTemporary(old(disk), target)
      ensures trace == old(trace) + [disk]
    {
      disk := disk.(temporary := disk.temporary + [target]);
      trace := trace + [disk];
    }

    /** The newest temporary link gets its name. */
    method Rename(target: Path, name: Name)
      requires disk.temporary != [] && disk.temporary[|disk.temporary| - 1] == target
      modifies this
      ensures disk == WithLink(old(disk), name, target).(temporary := old(disk).temporary[..|old(disk).temporary| - 1])
      ensures trace == old(trace) + [disk]
    {
      disk := disk.(
        entries := disk.entries[name := Link(target)],
        made := disk.made[name := target],
        temporary := disk.temporary[..|disk.temporary| - 1]);
      trace := trace + [disk];
    }

    /** A link is made under a temporary name and then renamed over its own. */
    method MakeSymlink(target: Path, name: Name)
      modifies this
      ensures disk == WithLink(old(disk), name, target)
      ensures trace == old(trace) + [WithTemporary(old(disk), target)] + [disk]
    {
      MakeTemporary(target);
      Rename(target, name);
      assert disk.temporary == old(disk).temporary;
    }

    /** The test every step makes before it touches an entry: the old record has the name, the entry is the
        link it says, and the target is one mise installs to. */
    predicate IsOurs(before: map<Name, Path>, name: Name, inside: set<Path>)
      reads this
    {
      && name in before && name in disk.entries
      && disk.entries[name] == Link(before[name]) && before[name] in inside
    }

    method DropRepeats(skills: seq<Skill>) returns (wanted: map<Name, Path>, skipped: multiset<Name>)
      ensures wanted == FirstWins(skills) && skipped == Repeats(skills)
    {
      wanted, skipped := map[], multiset{};
      for i := 0 to |skills|
        invariant wanted == FirstWins(skills[..i]) && skipped == Repeats(skills[..i])
      {
        assert skills[..i + 1][..i] == skills[..i];
        if skills[i].name in wanted {
          skipped := skipped + multiset{skills[i].name};
        } else {
          wanted := wanted[skills[i].name := skills[i].path];
        }
      }
      assert skills[..|skills|] == skills;
    }

    /** The link loop's body for one name: the record is written before the link is made, and an
        entry that is not ours is passed over. */
    method LinkOne(before: map<Name, Path>, inside: set<Path>, name: Name, path: Path, current: map<Name, Path>,
                   ghost d0: Disk, ghost job: Job, ghost done: set<Name>)
      returns (fate: Fate, links: map<Name, Path>)
      requires Possible(d0) && d0.record == Some(before) && job.inside == inside && disk.record == Some(current)
      requires Get(job.wanted, name) == Some(path) && name !in done && Progress(d0, job, done, disk)
      requires Passes(d0, job, trace)
      modifies this
      ensures disk.record == Some(links) && Progress(d0, job, done + {name}, disk)
      ensures fate == FateOf(CellOf(d0, name), name, job)
      ensures Passes(d0, job, trace)
    {
      ghost var d := disk;
      links := current;
      assert CellOf(d, name) == CellOf(d0, name);
      if IsOurs(before, name, inside) && disk.entries[name] == Link(path) {
        StepMakesProgress(d0, job, done, d, name, d);
        return UpToDate, links;
      }
      if name in disk.entries && !IsOurs(before, name, inside) {
        StepMakesProgress(d0, job, done, d, name, d);
        return Skipped, links;
      }
      links := Relink(name, path, current, d0, job, done);
      return Relinked, links;
    }

    /** The first step of replacing a link: the old one goes. */
    method Clear(name: Name, current: map<Name, Path>, ghost d0: Disk, ghost job: Job, ghost done: set<Name>)
      requires Possible(d0) && d0.record.Some? && disk.record == Some(current)
      requires name in job.wanted && name !in done && Progress(d0, job, done, disk)
      requires FateOf(CellOf(d0, name), name, job) == Relinked
      requires Passes(d0, job, trace)
      modifies this
      ensures disk.record == Some(current) && SameElsewhere(old(disk), name, disk)
      ensures CellOf(disk, name) == Cell(None, CellOf(d0, name).recorded, None)
      ensures Passes(d0, job, trace)
    {
      ghost var d, passed := disk, trace;
      assert CellOf(d, name) == CellOf(d0, name);
      if name in disk.entries {
        RemoveAll(name);
        WithoutEntryCells(d, name);
        StepPasses(d0, job, done, d, name, disk, passed);
      }
    }

    /** Replaces or makes one link. The record names the new link before it is there. */
    method Relink(name: Name, path: Path, current: map<Name, Path>, ghost d0: Disk, ghost job: Job, ghost done: set<Name>)
      returns (links: map<Name, Path>)
      requires Possible(d0) && d0.record.Some? && disk.record == Some(current)
      requires Get(job.wanted, name) == Some(path) && name !in done && Progress(d0, job, done, disk)
      requires FateOf(CellOf(d0, name), name, job) == Relinked
      requires Passes(d0, job, trace)
      modifies this
      ensures disk.record == Some(links) && Progress(d0, job, done + {name}, disk)
      ensures Passes(d0, job, trace)
    {
      ghost var d := disk;
      Clear(name, current, d0, job, done);
      ghost var d1, passed := disk, trace;
      links := current[name := path];
      WriteSyncState(links);
      WithRecordCells(d1, name, links);
      ghost var d2 := disk;
      assert SameElsewhere(d, name, d2);
      StepPasses(d0, job, done, d, name, d2, passed);
      passed := trace;
      MakeSymlink(path, name);
      TemporaryPasses(d0, job, done, d, name, d2, passed);
      WithLinkCells(d2, name, path);
      assert SameElsewhere(d, name, disk);
      StepPasses(d0, job, done, d, name, disk, passed + [WithTemporary(d2, path)]);
      StepMakesProgress(d0, job, done, d, name, disk);
    }

    /** The prune loop's body for one listed name: the link goes first, its record after it. */
    method PruneOne(before: map<Name, Path>, inside: set<Path>, name: Name, current: map<Name, Path>,
                    ghost d0: Disk, ghost job: Job, ghost done: set<Name>)
      returns (pruned: bool, links: map<Name, Path>)
      requires d0.record == Some(before) && job.inside == inside && disk.record == Some(current) && job.prune
      requires name !in job.wanted && name !in done && Progress(d0, job, done, disk) && disk.dirExists
      requires Passes(d0, job, trace)
      modifies this
      ensures disk.record == Some(links) && Progress(d0, job, done + {name}, disk)
      ensures pruned <==> FateOf(CellOf(d0, name), name, job) == Pruned
      ensures Passes(d0, job, trace)
    {
      ghost var d := disk;
      links := current;
      assert CellOf(d, name) == CellOf(d0, name);
      pruned := IsOurs(before, name, inside);
      if pruned {
        RemoveAll(name);
        WithoutEntryCells(d, name);
        ghost var d1 := disk;
        StepPasses(d0, job, done, d, name, d1, old(trace));
        links := links - {name};
        ghost var passed := trace;
        WriteSyncState(links);
        WithRecordCells(d1, name, links);
        assert SameElsewhere(d, name, disk);
        StepPasses(d0, job, done, d, name, disk, passed);
      }
      StepMakesProgress(d0, job, done, d, name, disk);
    }

    /** The link loop. The names are taken in any order. */
    method LinkAll(wanted: map<Name, Path>, before: map<Name, Path>, inside: set<Path>, current: map<Name, Path>,
                   ghost d0: Disk, ghost job: Job)
      returns (linked: set<Name>, upToDate: set<Name>, passedOver: set<Name>, links: map<Name, Path>)
      requires Possible(d0) && d0.record == Some(before) && disk.record == Some(current)
      requires job.inside == inside && job.wanted == wanted && Progress(d0, job, {}, disk)
      requires Passes(d0, job, trace)
      modifies this
      ensures disk.record == Some(links) && Progress(d0, job, wanted.Keys, disk)
      ensures linked == Fated(d0, job, wanted.Keys, Relinked)
      ensures upToDate == Fated(d0, job, wanted.Keys, UpToDate)
      ensures passedOver == Fated(d0, job, wanted.Keys, Skipped)
      ensures Passes(d0, job, trace)
    {
      linked, upToDate, passedOver, links := {}, {}, {}, current;
      var todo := wanted.Keys;
      ghost var done := {};
      while todo != {}
        invariant todo <= wanted.Keys && done == wanted.Keys - todo
        invariant disk.record == Some(links) && Progress(d0, job, done, disk)
        invariant Passes(d0, job, trace)
        invariant linked == Fated(d0, job, done, Relinked)
        invariant upToDate == Fated(d0, job, done, UpToDate)
        invariant passedOver == Fated(d0, job, done, Skipped)
        decreases todo
      {
        var name :| name in todo;
        var fate: Fate;
        fate, links := LinkOne(before, inside, name, wanted[name], links, d0, job, done);
        FatedPlus(d0, job, done, name, Relinked);
        FatedPlus(d0, job, done, name, UpToDate);
        FatedPlus(d0, job, done, name, Skipped);
        todo, done := todo - {name}, done + {name};
        linked := linked + if fate == Relinked then {name} else {};
        upToDate := upToDate + if fate == UpToDate then {name} else {};
        passedOver := passedOver + if fate == Skipped then {name} else {};
      }
      assert done == wanted.Keys;
    }

    /** The prune loop, over everything listed in the directory, in any order. */
    method PruneAll(wanted: map<Name, Path>, before: map<Name, Path>, inside: set<Path>, current: map<Name, Path>,
                    ghost d0: Disk, ghost job: Job)
      returns (links: map<Name, Path>, pruned: set<Name>)
      requires d0.record == Some(before) && disk.record == Some(current)
      requires job.inside == inside && job.wanted == wanted && job.prune && disk.dirExists
      requires Progress(d0, job, wanted.Keys, disk)
      requires Passes(d0, job, trace)
      modifies this
      ensures disk.record == Some(links) && Progress(d0, job, wanted.Keys + old(disk.entries.Keys), disk)
      ensures pruned == Fated(d0, job, old(disk.entries.Keys), Pruned)
      ensures Passes(d0, job, trace)
    {
      links, pruned := current, {};
      var listing := disk.entries.Keys;
      ghost var listed, done := listing, {};
      assert wanted.Keys + done == wanted.Keys;
      while listing != {}
        invariant listing <= listed && done == listed - listing
        invariant disk.record == Some(links) && Progress(d0, job, wanted.Keys + done, disk)
        invariant Passes(d0, job, trace)
        invariant pruned == Fated(d0, job, done, Pruned)
        decreases listing
      {
        var name :| name in listing;
        if name !in wanted {
          var gone: bool;
          gone, links := PruneOne(before, inside, name, links, d0, job, wanted.Keys + done);
          pruned := pruned + if gone then {name} else {};
        }
        FatedPlus(d0, job, done, name, Pruned);
        assert wanted.Keys + (done + {name}) ==
          if name in wanted then wanted.Keys + done else (wanted.Keys + done) + {name};
        listing, done := listing - {name}, done + {name};
      }
      assert done == listed;
    }

    /** Prunes, or finds what is still as recorded; either way what the record should come to. */
    method PruneOrKeep(wanted: map<Name, Path>, good: set<Name>, before: map<Name, Path>, inside: set<Path>,
                       prune: bool, links: map<Name, Path>, ghost d0: Disk, ghost job: Job)
      returns (pruned: set<Name>, current: map<Name, Path>, kept: map<Name, Path>, ghost done: set<Name>)
      requires Possible(d0) && d0.record == Some(before) && disk.record == Some(links)
      requires job == Job(wanted, inside, prune) && Progress(d0, job, wanted.Keys, disk)
      requires good == Fated(d0, job, wanted.Keys, Relinked) + Fated(d0, job, wanted.Keys, UpToDate)
      requires Passes(d0, job, trace)
      modifies this
      ensures disk.record == Some(current) && Progress(d0, job, done, disk) && Passes(d0, job, trace)
      ensures wanted.Keys <= done && (prune && disk.dirExists ==> d0.entries.Keys <= done)
      ensures forall n :: Get(kept, n) == Finished(CellOf(d0, n), n, job).recorded
      ensures pruned == Fated(d0, job, d0.entries.Keys, Pruned)
    {
      kept := map n | n in good :: wanted[n];
      SameNames(d0, job, disk);
      if prune && disk.dirExists {
        done := wanted.Keys + disk.entries.Keys;
        KeptWhenPruning(d0, job, good, kept);
        current, pruned := PruneAll(wanted, before, inside, links, d0, job);
      } else {
        done, current, pruned := wanted.Keys, links, {};
        kept := kept + map n | n in before && n in disk.entries && disk.entries[n] == Link(before[n]) :: before[n];
        KeptOtherwise(d0, job, disk, good, kept);
        assert Fated(d0, job, d0.entries.Keys, Pruned) == {};
      }
    }

    /** What follows the link loop: prune, or keep what is still as recorded, then write the record once
        more if that changes it. */
    method Settle(wanted: map<Name, Path>, good: set<Name>, before: map<Name, Path>, inside: set<Path>,
                  prune: bool, links: map<Name, Path>, ghost d0: Disk, ghost job: Job)
      returns (pruned: set<Name>)
      requires Possible(d0) && d0.record == Some(before) && disk.record == Some(links)
      requires job == Job(wanted, inside, prune) && Progress(d0, job, wanted.Keys, disk)
      requires good == Fated(d0, job, wanted.Keys, Relinked) + Fated(d0, job, wanted.Keys, UpToDate)
      requires Passes(d0, job, trace)
      modifies this
      ensures Completed(d0, job, disk) && Passes(d0, job, trace)
      ensures pruned == Fated(d0, job, d0.entries.Keys, Pruned)
    {
      var current, kept;
      ghost var done;
      pruned, current, kept, done := PruneOrKeep(wanted, good, before, inside, prune, links, d0, job);
      LastRecord(d0, job, done, disk, kept, trace);
      if kept != current {
        WriteSyncState(kept);
      } else {
        assert disk == WithRecord(disk, kept);
      }
    }

    /** Links each skill under its name. Either the record cannot be read and nothing happens at all,
        or every disk along the way is a crash point of the job and the last one is its completion. */
    method SyncSkills(skills: seq<Skill>, inside: set<Path>, prune: bool)
      returns (result: Result<Report>, ghost passedOver: set<Name>)
      requires Possible(disk)
      modifies this
      ensures result.Err? <==> old(disk).record.None?
      ensures result.Err? ==> disk == old(disk) && trace == []
      ensures result.Ok? ==>
        var d0, job := old(disk), Job(FirstWins(skills), inside, prune);
        && Completed(d0, job, disk)
        && (forall d :: d in trace ==> CrashPoint(d0, job, d))
        && ReportsOn(d0, job, result.value.linked, result.value.upToDate, passedOver, result.value.pruned)
        && result.value.skipped == Repeats(skills) + multiset(passedOver)
        && forall d, n :: d in trace && LeftAlone(d0, job, n) ==> Get(d.entries, n) == Get(d0.entries, n)
    {
      trace, passedOver := [], {};
      if disk.record.None? {
        result := Err;
        return;
      }
      ghost var d0 := disk;
      var before := disk.record.value;
      var wanted, skipped := DropRepeats(skills);
      ghost var job := Job(wanted, inside, prune);
      if wanted != map[] {
        CreateDirAll();
        assert CrashPoint(d0, job, disk);
      }
      var linked, upToDate, others, afterLinks := LinkAll(wanted, before, inside, before, d0, job);
      var pruned := Settle(wanted, linked + upToDate, before, inside, prune, afterLinks, d0, job);
      PassesAll(d0, job, trace);
      FatedAreReported(d0, job);
      passedOver := others;
      result := Ok(Report(linked, upToDate, pruned, skipped + multiset(others)));
      forall d, n | d in trace && LeftAlone(d0, job, n)
        ensures Get(d.entries, n) == Get(d0.entries, n)
      {
        LeftAloneStays(d0, job, d, n);
      }
    }
  }

  // ----- what the protocol is for -----

  /** Every link mise made is recorded with its exact target, and nothing else looks recorded. */
  ghost predicate Tracked(d: Disk) {
    && d.record.Some?
    && forall n :: TrackedCell(CellOf(d, n))
  }

  predicate TrackedCell(c: Cell) {
    && (c.made.Some? ==> c.entry == Some(Link(c.made.value)) && c.recorded == c.made)
    && (AsRecorded(c) ==> c.made.Some?)
  }

  /** An entry that was there and is not mise's. */
  predicate Foreign(d: Disk, n: Name) {
    n in d.entries && n !in d.made
  }

  predicate MadeInside(d: Disk, inside: set<Path>) {
    forall n :: n in d.made ==> d.made[n] in inside
  }

  /** The disk a completed sync leaves; there is exactly one (`FinishedIsUnique`). */
  ghost function FinishedDisk(d0: Disk, job: Job): (d: Disk)
    requires d0.record.Some?
    ensures Completed(d0, job, d)
  {
    CompletionExists(d0, job);
    var d :| Completed(d0, job, d);
    d
  }

  ghost function Tabulate<V>(names: set<Name>, f: Name -> Option<V>): (m: map<Name, V>)
    ensures forall n :: Get(m, n) == if n in names then f(n) else None
  {
    map n | n in names && f(n).Some? :: f(n).value
  }

  lemma CompletionExists(d0: Disk, job: Job)
    requires d0.record.Some?
    ensures exists d :: Completed(d0, job, d)
  {
    var names := d0.entries.Keys + d0.record.value.Keys + d0.made.Keys + job.wanted.Keys;
    var after := n => Finished(CellOf(d0, n), n, job);
    var d := Disk(
      d0.dirExists || job.wanted != map[],
      Tabulate(names, n => after(n).entry),
      Some(Tabulate(names, n => after(n).recorded)),
      Tabulate(names, n => after(n).made),
      d0.temporary);
    forall n
      ensures CellOf(d, n) == Finished(CellOf(d0, n), n, job)
    {
      assert n !in names ==> CellOf(d0, n) == Cell(None, None, None) == after(n);
    }
    assert Completed(d0, job, d);
  }

  lemma SameCells(d: Disk, e: Disk)
    requires d.record.Some? && e.record.Some? && d.dirExists == e.dirExists && d.temporary == e.temporary
    requires forall n :: CellOf(d, n) == CellOf(e, n)
    ensures d == e
  {
    forall n
      ensures Get(d.entries, n) == Get(e.entries, n)
      ensures Get(d.record.value, n) == Get(e.record.value, n)
      ensures Get(d.made, n) == Get(e.made, n)
    {
      assert CellOf(d, n) == CellOf(e, n);
    }
    SameMaps(d.entries, e.entries);
    SameMaps(d.record.value, e.record.value);
    SameMaps(d.made, e.made);
  }

  /** Synced again, a directory that was just synced changes nowhere: every name is left alone. */
  lemma SecondSyncChangesNothing(d0: Disk, job: Job, d: Disk)
    requires d0.record.Some? && CrashPoint(FinishedDisk(d0, job), job, d)
    ensures var e := FinishedDisk(d0, job);
      && d.entries == e.entries && d.made == e.made && d.temporary == e.temporary
      && (forall n :: LeftAlone(e, job, n))
      && forall n :: n in job.wanted ==> n in e.entries
  {
    var e := FinishedDisk(d0, job);
    forall n
      ensures LeftAlone(e, job, n)
      ensures n in job.wanted ==> n in e.entries
      ensures Get(d.entries, n) == Get(e.entries, n) && Get(d.made, n) == Get(e.made, n)
    {
      FateMeaning(d0, job, n);
      FateMeaning(e, job, n);
      assert CellOf(e, n) == Finished(CellOf(d0, n), n, job);
      assert CellOf(e, n).entry.Some? <==> n in e.entries;
      LeftAloneStays(e, job, d, n);
    }
    SameMaps(d.entries, e.entries);
    SameMaps(d.made, e.made);
    forall n
      ensures !Lingers(e, job, d, n)
    {
      FateMeaning(e, job, n);
    }
  }

  lemma SameMaps<K(!new), V>(m: map<K, V>, n: map<K, V>)
    requires forall k :: Get(m, k) == Get(n, k)
    ensures m == n
  {
    assert forall k :: k in m <==> Get(m, k).Some?;
    assert forall k :: k in n <==> Get(n, k).Some?;
    assert forall k :: k in m ==> Get(m, k).value == m[k] && Get(n, k).value == n[k];
  }

  lemma FinishedIsUnique(d0: Disk, job: Job, d: Disk)
    requires d0.record.Some? && Completed(d0, job, d)
    ensures d == FinishedDisk(d0, job)
  {
    SameCells(d, FinishedDisk(d0, job));
  }

  /** At every crash point each link mise made under its name is in the record with its exact target, no entry
      that was not mise's has changed or become mise's, and at most one temporary link is left over, to
      something wanted. */
  lemma CrashSafe(d0: Disk, job: Job, d: Disk)
    requires Possible(d0) && Tracked(d0) && CrashPoint(d0, job, d)
    requires job.prune ==> MadeInside(d0, job.inside)
    ensures Possible(d) && Tracked(d)
    ensures forall n :: Foreign(d0, n) ==> Foreign(d, n) && d.entries[n] == d0.entries[n]
    ensures d.temporary == d0.temporary || exists n :: n in job.wanted && d.temporary == d0.temporary + [job.wanted[n]]
  {
    forall n
      ensures TrackedCell(CellOf(d, n))
      ensures n in d.made ==> n in d.entries
      ensures Foreign(d0, n) ==> Foreign(d, n) && d.entries[n] == d0.entries[n]
    {
      assert TrackedCell(CellOf(d0, n)) && Stage(CellOf(d0, n), n, job, CellOf(d, n));
    }
  }

  /** The record a completed sync leaves covers every link mise made exactly when it did not prune, or
      all those links pointed inside installs: pruning forgets, without removing, one that does not. */
  lemma PruneForgetsOutsideLinks(d0: Disk, job: Job)
    requires Possible(d0) && Tracked(d0)
    ensures Tracked(FinishedDisk(d0, job)) <==> !job.prune || MadeInside(d0, job.inside)
  {
    var d := FinishedDisk(d0, job);
    if !job.prune || MadeInside(d0, job.inside) {
      forall n
        ensures TrackedCell(CellOf(d, n))
      {
        assert TrackedCell(CellOf(d0, n));
      }
    } else {
      var n :| n in d0.made && d0.made[n] !in job.inside;
      assert TrackedCell(CellOf(d0, n)) && !TrackedCell(CellOf(d, n));
    }
  }

  /** Every link the sync makes points inside installs, or it does not prune. */
  ghost predicate Restartable(d0: Disk, job: Job)
    requires d0.record.Some?
  {
    job.prune ==> (forall n :: n in job.wanted && FateOf(CellOf(d0, n), n, job) == Relinked ==>
                     job.wanted[n] in job.inside)
  }

  /** A sync stopped anywhere and run again with the same skills ends with the same directory and the
      same record as one that was never stopped, exactly when it is `Restartable`; but a temporary link that
      was left over stays. */
  lemma RerunConverges(d0: Disk, job: Job)
    requires Possible(d0) && d0.record.Some?
    ensures Restartable(d0, job) <==>
      forall d :: CrashPoint(d0, job, d) ==> FinishedDisk(d, job) == FinishedDisk(d0, job).(temporary := d.temporary)
  {
    if Restartable(d0, job) {
      forall d | CrashPoint(d0, job, d)
        ensures FinishedDisk(d, job) == FinishedDisk(d0, job).(temporary := d.temporary)
      {
        RerunFrom(d0, job, d);
      }
    } else {
      var n :| n in job.wanted && FateOf(CellOf(d0, n), n, job) == Relinked && job.wanted[n] !in job.inside;
      var done := FinishedDisk(d0, job);
      assert CrashPoint(d0, job, done);
      assert CellOf(FinishedDisk(done, job), n) != CellOf(done, n);
    }
  }

  lemma RerunFrom(d0: Disk, job: Job, d: Disk)
    requires d0.record.Some? && Restartable(d0, job) && CrashPoint(d0, job, d)
    ensures FinishedDisk(d, job) == FinishedDisk(d0, job).(temporary := d.temporary)
  {
    var e0, e := FinishedDisk(d0, job).(temporary := d.temporary), FinishedDisk(d, job);
    forall n
      ensures CellOf(e, n) == CellOf(e0, n)
    {
      assert CellOf(e0, n) == CellOf(FinishedDisk(d0, job), n);
      FinishedFromStage(CellOf(d0, n), n, job, CellOf(d, n));
    }
    SameCells(e, e0);
  }

  /** From any point under one name, finishing comes to the same. */
  lemma FinishedFromStage(c0: Cell, name: Name, job: Job, c: Cell)
    requires Stage(c0, name, job, c)
    requires job.prune && name in job.wanted && FateOf(c0, name, job) == Relinked ==> job.wanted[name] in job.inside
    ensures Finished(c, name, job) == Finished(c0, name, job)
  {
  }

  /** Every link a sync makes can be left over under its temporary name, and no later sync removes it. */
  lemma TemporaryStays(d0: Disk, job: Job, name: Name, later: Job) returns (d: Disk)
    requires Possible(d0) && d0.record.Some? && d0.dirExists
    requires name in job.wanted && FateOf(CellOf(d0, name), name, job) == Relinked
    ensures CrashPoint(d0, job, d) && d.temporary == d0.temporary + [job.wanted[name]]
    ensures FinishedDisk(d, later).temporary == d.temporary
  {
    var links := d0.record.value[name := job.wanted[name]];
    var d1 := WithRecord(WithoutEntry(d0, name), links);
    WithoutEntryCells(d0, name);
    WithRecordCells(WithoutEntry(d0, name), name, links);
    d := WithTemporary(d1, job.wanted[name]);
    forall n
      ensures CellOf(d, n) == CellOf(d1, n)
    {
    }
    assert Lingers(d0, job, d, name);
  }

  /** What a completed sync has done: every wanted name is linked and recorded unless something that is
      not mise's is there, and with pruning no other link of mise's is left. */
  lemma SyncDelivers(d0: Disk, job: Job)
    requires Possible(d0) && Tracked(d0) && MadeInside(d0, job.inside)
    ensures var d := FinishedDisk(d0, job);
      && (forall n :: n in job.wanted && !Foreign(d0, n) ==>
            Get(d.entries, n) == Some(Link(job.wanted[n])) && Get(d.record.value, n) == Some(job.wanted[n]))
      && (forall n :: n in d.made && n !in job.wanted ==> !job.prune && Get(d.made, n) == Get(d0.made, n))
  {
    var d := FinishedDisk(d0, job);
    forall n
      ensures n in job.wanted && !Foreign(d0, n) ==>
        Get(d.entries, n) == Some(Link(job.wanted[n])) && Get(d.record.value, n) == Some(job.wanted[n])
      ensures n in d.made && n !in job.wanted ==> !job.prune && Get(d.made, n) == Get(d0.made, n)
    {
      assert CellOf(d, n) == Finished(CellOf(d0, n), n, job);
      assert TrackedCell(CellOf(d0, n));
      assert n in d.made <==> CellOf(d, n).made.Some?;
    }
  }

  /** A history of syncs, each stopped at any point of its own or completed. */
  ghost predicate History(disks: seq<Disk>, jobs: seq<Job>, inside: set<Path>) {
    && |disks| == |jobs| + 1
    && (forall i :: 0 <= i < |disks| ==> disks[i].record.Some?)
    && (forall i :: 0 <= i < |jobs| ==> jobs[i].inside == inside && jobs[i].wanted.Values <= inside)
    && (forall i :: 0 <= i < |jobs| ==> CrashPoint(disks[i], jobs[i], disks[i + 1]))
  }

  /** Over any history of interrupted syncs into one installs directory, mise never loses track of a
      link it made and never changes an entry it did not make; each may leave one temporary link over. */
  lemma {:induction false} HistoryIsSafe(disks: seq<Disk>, jobs: seq<Job>, inside: set<Path>)
    requires History(disks, jobs, inside)
    requires Possible(disks[0]) && Tracked(disks[0]) && MadeInside(disks[0], inside)
    ensures var last := disks[|jobs|];
      && Possible(last) && Tracked(last) && MadeInside(last, inside)
      && (forall n :: Foreign(disks[0], n) ==> Foreign(last, n) && last.entries[n] == disks[0].entries[n])
      && |last.temporary| <= |disks[0].temporary| + |jobs|
  {
    if jobs != [] {
      var k := |jobs| - 1;
      HistoryIsSafe(disks[..k + 1], jobs[..k], inside);
      CrashSafe(disks[k], jobs[k], disks[k + 1]);
      forall n {:trigger disks[k + 1].made[n]} | n in disks[k + 1].made
        ensures disks[k + 1].made[n] in inside
      {
        assert Stage(CellOf(disks[k], n), n, jobs[k], CellOf(disks[k + 1], n));
        assert n in jobs[k].wanted ==> jobs[k].wanted[n] in jobs[k].wanted.Values;
        assert Get(disks[k + 1].made, n) == Some(disks[k + 1].made[n]);
      }
    }
  }
}
