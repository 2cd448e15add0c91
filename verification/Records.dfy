/**
 What a lockfile records about one artifact, and how two records of it are merged
 (src/lockfile.rs, `ProvenanceType` to `PlatformInfo::merge_with`).
 */
module Records {
  import opened Wrappers

  datatype Provenance = Minisign | Cosign | Slsa(url: Option<string>) | GithubAttestations {
    /** The priority that the source's equality and ordering look at, and nothing else. */
    function Ordinal(): nat {
      match this
      case Minisign => 1
      case Cosign => 2
      case Slsa(_) => 3
      case GithubAttestations => 4
    }

    function Merge(other: Provenance): Provenance {
      if Slsa? && other.Slsa? then Slsa(url.Or(other.url))
      else if other.Ordinal() >= Ordinal() then other
      else this
    }
  }

  datatype ChecksumSource = VersionsHost

  datatype AttestationsStatus = Unavailable

  // ----- checksums -----

  function LowerChar(c: char): char {
    if 'A' <= c <= 'Z' then 'a' + (c - 'A') else c
  }

  function Lower(s: string): string {
    if s == "" then "" else [LowerChar(s[0])] + Lower(s[1..])
  }

  lemma LowerCons(c: char, s: string)
    ensures Lower([c] + s) == [LowerChar(c)] + Lower(s)
  {
    assert ([c] + s)[1..] == s;
  }

  /** The text before and after the first colon. */
  function SplitColon(s: string): Option<(string, string)> {
    if s == "" then None
    else if s[0] == ':' then Some(("", s[1..]))
    else
      var rest := SplitColon(s[1..]);
      if rest.None? then None else Some(([s[0]] + rest.value.0, rest.value.1))
  }

  predicate IsSha256(checksum: string) {
    "sha256:" <= checksum
  }

  /** The two can be compared, as only digests of one kind can, and they differ. */
  predicate ChecksumChanged(before: Option<string>, after: Option<string>) {
    && before.Some? && after.Some?
    && var b, a := SplitColon(before.value), SplitColon(after.value);
       b.Some? && a.Some?
       && Lower(b.value.0) == Lower(a.value.0) && Lower(b.value.1) != Lower(a.value.1)
  }

  /** For a checksum both sides hold: marked as unconfirmed only if both mark it. */
  function SameChecksumSource(a: Option<string>, aSource: Option<ChecksumSource>,
                              b: Option<string>, bSource: Option<ChecksumSource>): Option<Option<ChecksumSource>> {
    if a.Some? && a == b then Some(aSource.And(bSource)) else None
  }

  /** Provenance and the opaque legacy flag that goes with it. */
  function MergeProvenanceState(current: Option<Provenance>, currentVerified: Option<bool>,
                                other: Option<Provenance>, otherVerified: Option<bool>):
    (Option<Provenance>, Option<bool>)
  {
    if current.Some? && other.Some? then (Some(current.value.Merge(other.value)), currentVerified.Or(otherVerified))
    else if current.Some? then (current, currentVerified)
    else if other.Some? then (other, otherVerified)
    else (None, currentVerified.Or(otherVerified))
  }

  // ----- records -----

  datatype ArtifactInfo = ArtifactInfo(
    checksum: Option<string>,
    checksumSource: Option<ChecksumSource>,
    size: Option<nat>,
    url: string,
    urlApi: Option<string>,
    provenance: Option<Provenance>,
    provenanceVerified: Option<bool>)
  {
    function MergeWith(other: ArtifactInfo): ArtifactInfo {
      if url != other.url then this
      else
        var takeOther := checksum.None? || (other.checksum.Some? && IsSha256(other.checksum.value) && !IsSha256(checksum.value));
        var chosen := if takeOther then other.checksum else checksum;
        var chosenSource := if chosen.None? then None else if takeOther then other.checksumSource else checksumSource;
        var state :=
          if ChecksumChanged(other.checksum, checksum) then (provenance, provenanceVerified)
          else MergeProvenanceState(provenance, provenanceVerified, other.provenance, other.provenanceVerified);
        ArtifactInfo(
          chosen,
          UnwrapOr(SameChecksumSource(checksum, checksumSource, other.checksum, other.checksumSource), chosenSource),
          size.Or(other.size),
          url,
          urlApi.Or(other.urlApi),
          state.0,
          state.1)
    }

    /** The record without what is read but never written. */
    function Written(): ArtifactInfo {
      this.(size := None)
    }

    /** A mark says where a checksum came from, so it comes with one. */
    predicate WellMarked() {
      checksum.None? ==> checksumSource.None?
    }
  }

  /** Artifacts are paired by position; the longer list's tail is kept. */
  function MergeArtifacts(current: seq<ArtifactInfo>, other: seq<ArtifactInfo>): (r: seq<ArtifactInfo>)
    ensures |r| == if |current| < |other| then |other| else |current|
    ensures forall i :: 0 <= i < |r| ==>
      r[i] == if i >= |other| then current[i] else if i >= |current| then other[i] else current[i].MergeWith(other[i])
  {
    if current == [] then other
    else if other == [] then current
    else [current[0].MergeWith(other[0])] + MergeArtifacts(current[1..], other[1..])
  }

  type Headers = map<string, string>

  datatype PlatformInfo = PlatformInfo(
    install: Option<string>,
    checksum: Option<string>,
    checksumSource: Option<ChecksumSource>,
    size: Option<nat>,
    url: Option<string>,
    urlApi: Option<string>,
    downloadHeaders: Option<Headers>,
    condaDeps: Option<seq<string>>,
    provenance: Option<Provenance>,
    provenanceVerified: Option<bool>,
    githubAttestations: Option<AttestationsStatus>,
    signer: Option<string>,
    attestedBy: Option<string>,
    repositoryId: Option<string>,
    repositoryOwnerId: Option<string>,
    additionalArtifacts: seq<ArtifactInfo>)
  {
    /** Nothing that would be written. */
    predicate IsEmpty() {
      && install.None? && checksum.None? && checksumSource.None? && url.None? && urlApi.None?
      && condaDeps.None? && provenance.None? && provenanceVerified.None? && signer.None?
      && attestedBy.None? && repositoryId.None? && repositoryOwnerId.None? && additionalArtifacts == []
    }

    /** The checksum where it may stand in for a download: one that is marked may not. */
    function PinChecksum(): Option<string> {
      if checksumSource.None? then checksum else None
    }

    /** Whether this record is for another artifact than `other`'s, so that what describes `other`'s
        artifact does not carry over. */
    predicate ArtifactChanged(other: PlatformInfo) {
      || (url.Some? && other.url.Some? && url != other.url)
      || (install.Some? && install != other.install)
      || (url.Some? && other.install == Some("source"))
    }

    function MergedChecksum(other: PlatformInfo): Option<string> {
      if TakesOtherChecksum(other) then other.checksum else checksum
    }

    /** sha256 is preferred, then this side's checksum. */
    predicate TakesOtherChecksum(other: PlatformInfo) {
      && !ArtifactChanged(other)
      && (checksum.None? || (other.checksum.Some? && IsSha256(other.checksum.value) && !IsSha256(checksum.value)))
    }

    function MergedChecksumSource(other: PlatformInfo): Option<ChecksumSource> {
      if ArtifactChanged(other) then checksumSource
      else
        var chosen :=
          if MergedChecksum(other).None? then None
          else if TakesOtherChecksum(other) then other.checksumSource
          else checksumSource;
        UnwrapOr(SameChecksumSource(checksum, checksumSource, other.checksum, other.checksumSource), chosen)
    }

    function MergedProvenance(other: PlatformInfo): (Option<Provenance>, Option<bool>) {
      if ArtifactChanged(other) || ChecksumChanged(other.checksum, checksum) then (provenance, provenanceVerified)
      else MergeProvenanceState(provenance, provenanceVerified, other.provenance, other.provenanceVerified)
    }

    function MergeWith(other: PlatformInfo): PlatformInfo {
      var changed := ArtifactChanged(other);
      var state := MergedProvenance(other);
      PlatformInfo(
        install := if install.Some? then install else if url.Some? then None else other.install,
        checksum := MergedChecksum(other),
        checksumSource := MergedChecksumSource(other),
        size := if changed then size else size.Or(other.size),
        url := if changed then url else url.Or(other.url),
        urlApi := if changed then urlApi else urlApi.Or(other.urlApi),
        downloadHeaders := None,
        condaDeps := condaDeps.Or(other.condaDeps),
        provenance := state.0,
        provenanceVerified := state.1,
        githubAttestations := None,
        signer := signer.Or(other.signer),
        attestedBy := if signer.Some? then attestedBy else other.attestedBy,
        repositoryId := if signer.Some? then repositoryId else other.repositoryId,
        repositoryOwnerId := if signer.Some? then repositoryOwnerId else other.repositoryOwnerId,
        additionalArtifacts :=
          if changed then additionalArtifacts else MergeArtifacts(additionalArtifacts, other.additionalArtifacts))
    }

    /** Whether a write of this record replaces the artifact that `existing` describes. */
    predicate Replaces(existing: PlatformInfo) {
      || (url.Some? && existing.url.Some? && url != existing.url)
      || (install.Some? && install != existing.install)
      || (url.Some? && install.None? && existing.install == Some("source"))
    }

    /** How `set_platform_info` combines this new record with the one there: like a merge, except that a
        checksum is only replaced, never preferred, and dependency lists are always the new ones. */
    function Update(existing: PlatformInfo): PlatformInfo {
      var preserve := !Replaces(existing);
      var state :=
        if preserve && !ChecksumChanged(existing.checksum, checksum)
        then MergeProvenanceState(provenance, provenanceVerified, existing.provenance, existing.provenanceVerified)
        else (provenance, provenanceVerified);
      var shared := SameChecksumSource(checksum, checksumSource, existing.checksum, existing.checksumSource);
      PlatformInfo(
        install := if install.Some? then install else if url.Some? then None else existing.install,
        checksum := if checksum.Some? then checksum else if preserve then existing.checksum else None,
        checksumSource :=
          if checksum.Some? then (if preserve && shared.Some? then shared.value else checksumSource)
          else if preserve then existing.checksumSource
          else None,
        size := if size.Some? then size else if preserve then existing.size else None,
        url := if url.Some? then url else if preserve then existing.url else None,
        urlApi := if urlApi.Some? then urlApi else if preserve then existing.urlApi else None,
        downloadHeaders := None,
        condaDeps := condaDeps,
        provenance := state.0,
        provenanceVerified := state.1,
        githubAttestations := None,
        signer := signer.Or(existing.signer),
        attestedBy := if signer.Some? then attestedBy else existing.attestedBy,
        repositoryId := if signer.Some? then repositoryId else existing.repositoryId,
        repositoryOwnerId := if signer.Some? then repositoryOwnerId else existing.repositoryOwnerId,
        additionalArtifacts :=
          if preserve then MergeArtifacts(additionalArtifacts, existing.additionalArtifacts) else additionalArtifacts)
    }

    /** The record without what is read but never written. */
    function Written(): PlatformInfo {
      this.(size := None, downloadHeaders := None, githubAttestations := None,
            additionalArtifacts := WrittenArtifacts(additionalArtifacts))
    }

    predicate WellMarked() {
      && (checksum.None? ==> checksumSource.None?)
      && forall a :: a in additionalArtifacts ==> a.WellMarked()
    }
  }

  function WrittenArtifacts(artifacts: seq<ArtifactInfo>): (r: seq<ArtifactInfo>)
    ensures |r| == |artifacts| && forall i :: 0 <= i < |r| ==> r[i] == artifacts[i].Written()
  {
    seq(|artifacts|, i requires 0 <= i < |artifacts| => artifacts[i].Written())
  }

  // ----- provenance -----

  lemma MergeIsMax(p: Provenance, q: Provenance)
    ensures p.Merge(q).Ordinal() == if p.Ordinal() < q.Ordinal() then q.Ordinal() else p.Ordinal()
    ensures p.Merge(q) == p || p.Merge(q) == q
    ensures p.Slsa? && q.Slsa? ==> (p.Merge(q).url.None? <==> p.url.None? && q.url.None?)
  {
  }

  lemma MergeIsAssociative(p: Provenance, q: Provenance, r: Provenance)
    ensures p.Merge(q).Merge(r) == p.Merge(q.Merge(r))
  {
  }

  // ----- absorption: merging a record into its own merge changes nothing -----

  lemma ArtifactAbsorbs(x: ArtifactInfo, y: ArtifactInfo)
    ensures x.MergeWith(x.MergeWith(y)) == x.MergeWith(y) <==> x.WellMarked() || x.url == y.url
  {
  }

  /** Merging would lose a mark that has no checksum: the record's own, or one of its artifacts'. */
  ghost predicate LosesMark(x: PlatformInfo, y: PlatformInfo) {
    && !(x.url.Some? && x.install == Some("source"))
    && (LosesOwnMark(x, y) || exists i :: LosesArtifactMark(x, y, i))
  }

  predicate LosesOwnMark(x: PlatformInfo, y: PlatformInfo) {
    x.ArtifactChanged(y) && x.checksum.None? && x.checksumSource.Some?
  }

  predicate LosesArtifactMark(x: PlatformInfo, y: PlatformInfo, i: int) {
    && 0 <= i < |x.additionalArtifacts| && !x.additionalArtifacts[i].WellMarked()
    && (|| x.ArtifactChanged(y) || i >= |y.additionalArtifacts|
        || x.additionalArtifacts[i].url != y.additionalArtifacts[i].url)
  }

  /** A merge's own record is of the same artifact as the merge, unless it is built from source. */
  lemma MergeIsSameArtifact(x: PlatformInfo, y: PlatformInfo)
    ensures x.ArtifactChanged(x.MergeWith(y)) <==> x.url.Some? && x.install == Some("source")
    ensures x.url.Some? && x.install == Some("source") ==> x.ArtifactChanged(y)
  {
  }

  lemma ChecksumAbsorbs(x: PlatformInfo, y: PlatformInfo)
    ensures var z := x.MergeWith(y);
      (x.MergedChecksum(z) == z.checksum && x.MergedChecksumSource(z) == z.checksumSource) <==>
      (x.url.Some? && x.install == Some("source")) || !LosesOwnMark(x, y)
  {
    MergeIsSameArtifact(x, y);
  }

  lemma ProvenanceAbsorbs(x: PlatformInfo, y: PlatformInfo)
    ensures var z := x.MergeWith(y);
      x.MergedProvenance(z) == (z.provenance, z.provenanceVerified)
  {
    MergeIsSameArtifact(x, y);
    var z := x.MergeWith(y);
    assert z.checksum == x.checksum || z.checksum == y.checksum;
    if x.provenance.Some? && y.provenance.Some? {
      MergeIsAssociative(x.provenance.value, x.provenance.value, y.provenance.value);
    }
  }

  lemma ArtifactsAbsorb(x: PlatformInfo, y: PlatformInfo)
    ensures var z := x.MergeWith(y);
      WrittenArtifacts(x.MergeWith(z).additionalArtifacts) == WrittenArtifacts(z.additionalArtifacts) <==>
      (x.url.Some? && x.install == Some("source")) || !exists i :: LosesArtifactMark(x, y, i)
  {
    MergeIsSameArtifact(x, y);
    var z := x.MergeWith(y);
    var w := x.MergeWith(z);
    if !(x.url.Some? && x.install == Some("source")) {
      forall i | 0 <= i < |z.additionalArtifacts|
        ensures w.additionalArtifacts[i].Written() == z.additionalArtifacts[i].Written() <==> !LosesArtifactMark(x, y, i)
      {
        if i < |x.additionalArtifacts| {
          ArtifactAbsorbsAt(x, y, i);
        }
      }
    }
  }

  lemma ArtifactAbsorbsAt(x: PlatformInfo, y: PlatformInfo, i: nat)
    requires i < |x.additionalArtifacts| && !(x.url.Some? && x.install == Some("source"))
    ensures var z := x.MergeWith(y);
      x.additionalArtifacts[i].MergeWith(z.additionalArtifacts[i]).Written() == z.additionalArtifacts[i].Written()
      <==> !LosesArtifactMark(x, y, i)
  {
    var a := x.additionalArtifacts[i];
    ArtifactAbsorbs(a, a);
    if i < |y.additionalArtifacts| {
      ArtifactAbsorbs(a, y.additionalArtifacts[i]);
    }
  }

  /** Re-merging what was merged before changes nothing that is written, exactly when no mark without a
      checksum is lost. */
  lemma Absorption(x: PlatformInfo, y: PlatformInfo)
    ensures x.MergeWith(x.MergeWith(y)).Written() == x.MergeWith(y).Written() <==> !LosesMark(x, y)
  {
    MergeIsSameArtifact(x, y);
    ChecksumAbsorbs(x, y);
    ProvenanceAbsorbs(x, y);
    ArtifactsAbsorb(x, y);
    var z := x.MergeWith(y);
    var w := x.MergeWith(z);
    assert w.install == z.install && w.url == z.url && w.urlApi == z.urlApi && w.condaDeps == z.condaDeps;
    assert w.signer == z.signer && w.attestedBy == z.attestedBy;
    assert w.repositoryId == z.repositoryId && w.repositoryOwnerId == z.repositoryOwnerId;
  }

  /** Merging a record with itself would lose a mark that has no checksum. */
  predicate SelfLoses(x: PlatformInfo) {
    !(x.url.Some? && x.install == Some("source")) && !x.WellMarked()
  }

  lemma SelfMerge(x: PlatformInfo)
    ensures x.MergeWith(x).Written() == x.Written() <==> !SelfLoses(x)
    ensures !SelfLoses(x.MergeWith(x))
  {
    var z := x.MergeWith(x);
    forall i | 0 <= i < |x.additionalArtifacts|
      ensures z.additionalArtifacts[i].Written() == x.additionalArtifacts[i].Written() <==>
              x.ArtifactChanged(x) || x.additionalArtifacts[i].WellMarked()
      ensures !x.ArtifactChanged(x) ==> z.additionalArtifacts[i].WellMarked()
    {
      ArtifactAbsorbs(x.additionalArtifacts[i], x.additionalArtifacts[i]);
    }
    SelfMergeOwn(x);
    if !x.ArtifactChanged(x) && WrittenArtifacts(z.additionalArtifacts) == WrittenArtifacts(x.additionalArtifacts) {
      forall i | 0 <= i < |x.additionalArtifacts|
        ensures x.additionalArtifacts[i].WellMarked()
      {
        assert WrittenArtifacts(z.additionalArtifacts)[i] == WrittenArtifacts(x.additionalArtifacts)[i];
      }
    }
  }

  /** All but the artifacts. */
  lemma SelfMergeOwn(x: PlatformInfo)
    ensures var z := x.MergeWith(x);
      && (z.checksumSource == x.checksumSource <==> x.ArtifactChanged(x) || (x.checksum.None? ==> x.checksumSource.None?))
      && z.(checksumSource := None, additionalArtifacts := []).Written() == x.(checksumSource := None, additionalArtifacts := []).Written()
  {
  }

  /** A record that would lose nothing merged with itself loses nothing. */
  lemma WellMarkedNeverLoses(x: PlatformInfo, y: PlatformInfo)
    requires !SelfLoses(x)
    ensures !LosesMark(x, y)
  {
    assert forall i :: LosesArtifactMark(x, y, i) ==> x.additionalArtifacts[i] in x.additionalArtifacts;
  }

  /** A record that does lose its mark. No merge or update of others makes one, but a lockfile edited by hand
      can hold it: parsing accepts a source without a checksum. */
  lemma MarkIsLost(blank: PlatformInfo)
    requires blank.url.None? && blank.install.None? && blank.checksum.None?
    ensures
      var x := blank.(url := Some("u"), checksumSource := Some(VersionsHost));
      var y := blank.(url := Some("v"));
      x.MergeWith(y).checksumSource == Some(VersionsHost) && x.MergeWith(x.MergeWith(y)).checksumSource == None
  {
  }

  // ----- updates against merges -----

  /** The merge prefers the other record's sha256 checksum. */
  predicate PrefersOther(x: PlatformInfo, y: PlatformInfo) {
    !x.ArtifactChanged(y) && x.checksum.Some? && x.TakesOtherChecksum(y)
  }

  /** A mark that comes without a checksum, which an update keeps or drops where a merge does not. */
  predicate StrayMark(x: PlatformInfo, y: PlatformInfo) {
    x.checksum.None? &&
    if x.ArtifactChanged(y) then x.checksumSource.Some? else y.checksum.None? && y.checksumSource.Some?
  }

  /** A record with a URL that is built from source, written over one that is too: a merge always sees
      another artifact there, an update only if the URLs differ. */
  predicate Rebuilds(x: PlatformInfo, y: PlatformInfo) {
    x.url.Some? && x.install == Some("source") && y.install == Some("source") && (y.url.None? || y.url == x.url)
  }

  lemma ReplacesIsChange(x: PlatformInfo, y: PlatformInfo)
    ensures x.Replaces(y) <==> x.ArtifactChanged(y) && !Rebuilds(x, y)
    ensures Rebuilds(x, y) ==> x.ArtifactChanged(y)
  {
  }

  /** Writing a new record over one that is there is merging it, exactly unless the merge would prefer the old
      sha256 checksum, the old dependency list would be kept, or a mark without a checksum is in play. */
  lemma UpdateIsMerge(x: PlatformInfo, y: PlatformInfo)
    requires !Rebuilds(x, y)
    ensures x.Update(y).Written() == x.MergeWith(y).Written() <==>
      !PrefersOther(x, y) && !StrayMark(x, y) && (x.condaDeps.Some? || y.condaDeps.None?)
  {
    var u, m := x.Update(y), x.MergeWith(y);
    ReplacesIsChange(x, y);
    assert u.install == m.install && u.url == m.url && u.urlApi == m.urlApi && u.provenance == m.provenance;
    assert u.condaDeps == m.condaDeps <==> x.condaDeps.Some? || y.condaDeps.None?;
    assert u.checksum == m.checksum <==> !PrefersOther(x, y);
    assert !PrefersOther(x, y) ==> (u.checksumSource == m.checksumSource <==> !StrayMark(x, y));
    assert u.additionalArtifacts == m.additionalArtifacts;
  }

  /** Where a record built from source is rebuilt, a merge takes nothing about the artifact from the old
      record, and an update takes all that the new one lacks. */
  lemma RebuildIsNoMerge(x: PlatformInfo, y: PlatformInfo)
    requires Rebuilds(x, y)
    ensures var m := x.MergeWith(y);
      && (m.checksum, m.checksumSource, m.urlApi, m.provenance) == (x.checksum, x.checksumSource, x.urlApi, x.provenance)
      && m.additionalArtifacts == x.additionalArtifacts
    ensures var u := x.Update(y);
      && u.checksum == x.checksum.Or(y.checksum) && u.urlApi == x.urlApi.Or(y.urlApi)
      && Rank(u.provenance) >= Rank(x.provenance)
      && (!ChecksumChanged(y.checksum, x.checksum) ==> Rank(u.provenance) >= Rank(y.provenance))
      && |u.additionalArtifacts| >= |y.additionalArtifacts|
  {
    ReplacesIsChange(x, y);
    if x.provenance.Some? && y.provenance.Some? {
      MergeIsMax(x.provenance.value, y.provenance.value);
    }
  }

  // ----- which side a field comes from -----

  /** Another artifact is there: of another URL, installed in another way, or built where this one is fetched. */
  predicate IsAnother(x: PlatformInfo, y: PlatformInfo) {
    || (x.url.Some? && y.url.Some? && x.url != y.url)
    || (x.install.Some? && x.install != y.install)
    || (x.url.Some? && y.install == Some("source"))
  }

  /** What the new record has it keeps, but for a checksum where the other has a sha256 one of the same
      artifact; what it lacks comes from the other, if that describes the same artifact. */
  lemma MergeTakes(x: PlatformInfo, y: PlatformInfo)
    ensures var m, same := x.MergeWith(y), !IsAnother(x, y);
      && m.url == (if x.url.Some? || !same then x.url else y.url)
      && m.urlApi == (if x.urlApi.Some? || !same then x.urlApi else y.urlApi)
      && m.size == (if x.size.Some? || !same then x.size else y.size)
      && m.install == (if x.install.Some? || x.url.Some? then x.install else y.install)
      && m.condaDeps == (if x.condaDeps.Some? then x.condaDeps else y.condaDeps)
      && (m.checksum == y.checksum || m.checksum == x.checksum)
      && (same && x.checksum.None? ==> m.checksum == y.checksum)
      && (same && x.checksum.Some? && y.checksum.Some? && "sha256:" <= y.checksum.value && !("sha256:" <= x.checksum.value)
          ==> m.checksum == y.checksum)
      && (!same || (x.checksum.Some? && (y.checksum.None? || "sha256:" <= x.checksum.value || !("sha256:" <= y.checksum.value)))
          ==> m.checksum == x.checksum)
  {
  }

  /** The opaque flag goes with the provenance it was read with; of two the new record's counts first. */
  lemma FlagGoesWithProvenance(x: PlatformInfo, y: PlatformInfo)
    requires !IsAnother(x, y) && !ChecksumChanged(y.checksum, x.checksum)
    ensures var flag := x.MergeWith(y).provenanceVerified;
      && (x.provenance.Some? && y.provenance.None? ==> flag == x.provenanceVerified)
      && (x.provenance.None? && y.provenance.Some? ==> flag == y.provenanceVerified)
      && ((x.provenance.Some? <==> y.provenance.Some?) ==>
            flag == if x.provenanceVerified.Some? then x.provenanceVerified else y.provenanceVerified)
  {
  }

  /** The signer and what goes with it come from one side together, whatever the artifact. */
  lemma SignerGoesTogether(x: PlatformInfo, y: PlatformInfo)
    ensures var m, u, side := x.MergeWith(y), x.Update(y), if x.signer.Some? then x else y;
      && (m.signer, m.attestedBy, m.repositoryId, m.repositoryOwnerId) ==
           (side.signer, side.attestedBy, side.repositoryId, side.repositoryOwnerId)
      && (u.signer, u.attestedBy, u.repositoryId, u.repositoryOwnerId) ==
           (side.signer, side.attestedBy, side.repositoryId, side.repositoryOwnerId)
  {
  }

  // ----- what a checksum may be used for -----

  /** A checksum that may serve to reuse a kept file: the record's own, or an additional artifact's. */
  datatype Pin = Primary(checksum: string) | Additional(url: string, checksum: string)

  ghost predicate HasPin(info: PlatformInfo, pin: Pin) {
    match pin
    case Primary(c) => info.PinChecksum() == Some(c)
    case Additional(u, c) => exists a :: a in info.additionalArtifacts && ArtifactPins(a, u, c)
  }

  predicate ArtifactPins(a: ArtifactInfo, url: string, checksum: string) {
    a.url == url && a.checksum == Some(checksum) && a.checksumSource.None?
  }

  lemma ArtifactPinOrigin(x: ArtifactInfo, y: ArtifactInfo, url: string, checksum: string)
    requires ArtifactPins(x.MergeWith(y), url, checksum)
    ensures ArtifactPins(x, url, checksum) || ArtifactPins(y, url, checksum)
  {
  }

  lemma MergedArtifactPinOrigin(xs: seq<ArtifactInfo>, ys: seq<ArtifactInfo>, a: ArtifactInfo, url: string, checksum: string)
    requires a in MergeArtifacts(xs, ys) && ArtifactPins(a, url, checksum)
    ensures exists o :: (o in xs || o in ys) && ArtifactPins(o, url, checksum)
  {
    var i :| 0 <= i < |MergeArtifacts(xs, ys)| && MergeArtifacts(xs, ys)[i] == a;
    if i < |xs| && i < |ys| {
      ArtifactPinOrigin(xs[i], ys[i], url, checksum);
      assert xs[i] in xs && ys[i] in ys;
    } else if i < |xs| {
      assert xs[i] in xs;
    } else {
      assert ys[i] in ys;
    }
  }

  /** Neither a merge nor an update makes an unconfirmed checksum usable as a pin. */
  lemma PinOrigin(x: PlatformInfo, y: PlatformInfo, pin: Pin)
    ensures HasPin(x.MergeWith(y), pin) ==> HasPin(x, pin) || HasPin(y, pin)
    ensures HasPin(x.Update(y), pin) ==> HasPin(x, pin) || HasPin(y, pin)
  {
    if pin.Additional? && (HasPin(x.MergeWith(y), pin) || HasPin(x.Update(y), pin)) {
      var merged := MergeArtifacts(x.additionalArtifacts, y.additionalArtifacts);
      if a :| a in merged && ArtifactPins(a, pin.url, pin.checksum) {
        MergedArtifactPinOrigin(x.additionalArtifacts, y.additionalArtifacts, a, pin.url, pin.checksum);
      }
    }
  }

  /** A checksum that both sides hold for the same artifact is confirmed in the result exactly if it was on
      either side; across a change of artifact only the new record's word counts. */
  lemma ConfirmedOnEitherSide(x: PlatformInfo, y: PlatformInfo)
    requires x.checksum.Some? && x.checksum == y.checksum
    ensures x.MergeWith(y).PinChecksum() ==
      if x.PinChecksum().Some? || x.ArtifactChanged(y) then x.PinChecksum() else y.PinChecksum()
    ensures x.Update(y).PinChecksum() ==
      if x.PinChecksum().Some? || x.Replaces(y) then x.PinChecksum() else y.PinChecksum()
  {
  }

  /** And so it is for an additional artifact of one URL. */
  lemma ConfirmedArtifact(x: ArtifactInfo, y: ArtifactInfo)
    requires x.checksum.Some? && x.checksum == y.checksum && x.url == y.url
    ensures x.MergeWith(y).checksum == x.checksum
    ensures x.MergeWith(y).checksumSource.None? <==> x.checksumSource.None? || y.checksumSource.None?
  {
  }

  /** Provenance is about bytes: across a change of artifact or checksum none carries over, and
      otherwise the stronger of the two is kept. */
  lemma ProvenanceFollowsBytes(x: PlatformInfo, y: PlatformInfo)
    ensures x.ArtifactChanged(y) || ChecksumChanged(y.checksum, x.checksum) ==> x.MergeWith(y).provenance == x.provenance
    ensures !x.ArtifactChanged(y) && !ChecksumChanged(y.checksum, x.checksum) ==>
      Rank(x.MergeWith(y).provenance) == if Rank(x.provenance) < Rank(y.provenance) then Rank(y.provenance) else Rank(x.provenance)
  {
    if x.provenance.Some? && y.provenance.Some? {
      MergeIsMax(x.provenance.value, y.provenance.value);
    }
  }

  /** The ordinal, and 0 for no provenance. */
  function Rank(p: Option<Provenance>): nat {
    if p.Some? then p.value.Ordinal() else 0
  }

  lemma {:induction false} LowerSplit(s: string, t: string)
    requires Lower(s) == Lower(t)
    ensures SplitColon(s).Some? <==> SplitColon(t).Some?
    ensures SplitColon(s).Some? ==>
      && Lower(SplitColon(s).value.0) == Lower(SplitColon(t).value.0)
      && Lower(SplitColon(s).value.1) == Lower(SplitColon(t).value.1)
  {
    if s != "" && t != "" {
      assert Lower(s)[0] == LowerChar(s[0]) && Lower(s)[1..] == Lower(s[1..]);
      assert Lower(t)[0] == LowerChar(t[0]) && Lower(t)[1..] == Lower(t[1..]);
      LowerSplit(s[1..], t[1..]);
      if s[0] != ':' && SplitColon(s[1..]).Some? {
        LowerCons(s[0], SplitColon(s[1..]).value.0);
        LowerCons(t[0], SplitColon(t[1..]).value.0);
      }
    }
  }
}
