/**
 The TOML form of a platform record (src/lockfile.rs, `TryFrom<toml::Value> for PlatformInfo` and back,
 and the derived forms of `ArtifactInfo`).
 */
module RecordToml {
  import opened Wrappers
  import opened Records

  /** The keys this code names, each by its constructor, and all others by their text. */
  datatype Key =
    | InstallKey | ChecksumKey | ChecksumSourceKey | SizeKey | UrlKey | UrlApiKey | CondaDepsKey
    | AdditionalArtifactsKey | ProvenanceKey | ProvenanceVerifiedKey | ProvenanceUrlKey | SlsaKey
    | GithubAttestationsKey | SignerKey | AttestedByKey | RepositoryIdsKey | RepositoryKey | OwnerKey
    | RepositoryIdKey | RepositoryOwnerIdKey | OtherKey(name: string)

  /** A TOML value. Tables keep the order of their keys. */
  datatype Value =
    | String(s: string)
    | Integer(i: int)
    | Boolean(b: bool)
    | Array(items: seq<Value>)
    | Table(pairs: Pairs)
    | Other(text: string)

  type Pairs = seq<(Key, Value)>

  function Lookup(t: Pairs, key: Key): Option<Value> {
    if t == [] then None
    else if t[|t| - 1].0 == key then Some(t[|t| - 1].1)
    else Lookup(t[..|t| - 1], key)
  }

  type Fields = Key -> Option<Value>

  /** A table of the fields that have a value, in the given order. */
  function Collect(order: seq<Key>, fields: Fields): Pairs {
    if order == [] then []
    else
      var front, key := Collect(order[..|order| - 1], fields), order[|order| - 1];
      if fields(key).Some? then front + [(key, fields(key).value)] else front
  }

  lemma {:induction false} LookupCollected(order: seq<Key>, fields: Fields, key: Key)
    ensures Lookup(Collect(order, fields), key) == if key in order then fields(key) else None
  {
    if order != [] {
      var front, last := order[..|order| - 1], order[|order| - 1];
      LookupCollected(front, fields, key);
      assert order == front + [last];
      if fields(last).Some? {
        assert (Collect(front, fields) + [(last, fields(last).value)])[..|Collect(front, fields)|] == Collect(front, fields);
      }
    }
  }

  function FieldsOf(t: Pairs): Fields {
    (key: Key) => Lookup(t, key)
  }

  function OptString(o: Option<string>): Option<Value> {
    if o.None? then None else Some(String(o.value))
  }

  function OptBool(o: Option<bool>): Option<Value> {
    if o.None? then None else Some(Boolean(o.value))
  }

  function OptSource(o: Option<ChecksumSource>): Option<Value> {
    if o.None? then None else Some(String("mise-versions"))
  }

  // ----- printing -----

  function ProvenanceName(p: Provenance): string {
    match p
    case Minisign => "minisign"
    case Cosign => "cosign"
    case Slsa(_) => "slsa"
    case GithubAttestations => "github-attestations"
  }

  function PrintProvenance(o: Option<Provenance>): Option<Value> {
    if o.None? then None
    else if o.value.Slsa? && o.value.url.Some?
    then Some(Table([(SlsaKey, Table([(UrlKey, String(o.value.url.value))]))]))
    else Some(String(ProvenanceName(o.value)))
  }

  const ARTIFACT_KEYS := [ChecksumKey, ChecksumSourceKey, UrlKey, UrlApiKey, ProvenanceKey, ProvenanceVerifiedKey]

  function ArtifactFields(a: ArtifactInfo): Fields {
    (key: Key) =>
      match key
      case ChecksumKey => OptString(a.checksum)
      case ChecksumSourceKey => OptSource(a.checksumSource)
      case UrlKey => Some(String(a.url))
      case UrlApiKey => OptString(a.urlApi)
      case ProvenanceKey => PrintProvenance(a.provenance)
      case ProvenanceVerifiedKey => OptBool(a.provenanceVerified)
      case _ => None
  }

  function PrintArtifact(a: ArtifactInfo): Value {
    Table(Collect(ARTIFACT_KEYS, ArtifactFields(a)))
  }

  function PrintArtifacts(artifacts: seq<ArtifactInfo>): (r: seq<Value>)
    ensures |r| == |artifacts| && forall i :: 0 <= i < |r| ==> r[i] == PrintArtifact(artifacts[i])
  {
    seq(|artifacts|, i requires 0 <= i < |artifacts| => PrintArtifact(artifacts[i]))
  }

  function PrintExtra(artifacts: seq<ArtifactInfo>): Option<Value> {
    if artifacts == [] then None else Some(Array(PrintArtifacts(artifacts)))
  }

  function PrintDeps(deps: seq<string>): seq<Value> {
    if deps == [] then [] else [String(deps[0])] + PrintDeps(deps[1..])
  }

  function IdFields(repository: string, owner: Option<string>): Fields {
    (key: Key) =>
      match key
      case RepositoryKey => Some(String(repository))
      case OwnerKey => OptString(owner)
      case _ => None
  }

  const ID_KEYS := [RepositoryKey, OwnerKey]

  /** An owner ID is only written beside a repository ID. */
  function PrintIds(repository: Option<string>, owner: Option<string>): Option<Value> {
    if repository.None? then None else Some(Table(Collect(ID_KEYS, IdFields(repository.value, owner))))
  }

  const RECORD_KEYS := [
    InstallKey, ChecksumKey, ChecksumSourceKey, UrlKey, UrlApiKey, CondaDepsKey, AdditionalArtifactsKey,
    ProvenanceKey, ProvenanceVerifiedKey, SignerKey, AttestedByKey, RepositoryIdsKey
  ]

  function RecordField(info: PlatformInfo, key: Key): Option<Value> {
    match key
    case InstallKey => OptString(info.install)
    case ChecksumKey => OptString(info.checksum)
    case ChecksumSourceKey => OptSource(info.checksumSource)
    case UrlKey => OptString(info.url)
    case UrlApiKey => OptString(info.urlApi)
    case CondaDepsKey => if info.condaDeps.None? then None else Some(Array(PrintDeps(info.condaDeps.value)))
    case AdditionalArtifactsKey => PrintExtra(info.additionalArtifacts)
    case ProvenanceKey => PrintProvenance(info.provenance)
    case ProvenanceVerifiedKey => OptBool(info.provenanceVerified)
    case SignerKey => OptString(info.signer)
    case AttestedByKey => OptString(info.attestedBy)
    case RepositoryIdsKey => PrintIds(info.repositoryId, info.repositoryOwnerId)
    case _ => None
  }

  function RecordFields(info: PlatformInfo): Fields {
    (key: Key) => RecordField(info, key)
  }

  function Print(info: PlatformInfo): Value {
    Table(Collect(RECORD_KEYS, RecordFields(info)))
  }

  // ----- parsing -----

  /** A field that is ignored unless it is a string. */
  function LenientString(v: Option<Value>): Option<string> {
    if v.Some? && v.value.String? then Some(v.value.s) else None
  }

  /** A field that must be a string if it is there. */
  function StrictString(v: Option<Value>): Result<Option<string>> {
    if v.None? then Ok(None) else if v.value.String? then Ok(Some(v.value.s)) else Err
  }

  /** A field with one allowed string; other strings are refused and other values ignored. */
  function OnlyString(v: Option<Value>, allowed: string): Result<Option<string>> {
    var s := LenientString(v);
    if s.Some? && s.value != allowed then Err else Ok(s)
  }

  function ParseSource(v: Option<Value>): Result<Option<ChecksumSource>> {
    if v.None? then Ok(None)
    else if v.value == String("mise-versions") then Ok(Some(VersionsHost))
    else Err
  }

  function ProvenanceNamed(name: string): Result<Provenance> {
    if name == "minisign" then Ok(Minisign)
    else if name == "cosign" then Ok(Cosign)
    else if name == "slsa" then Ok(Slsa(None))
    else if name == "github-attestations" then Ok(GithubAttestations)
    else Err
  }

  /** An artifact's provenance, read strictly: a table must begin with its `slsa` key. */
  function ParseArtifactProvenance(v: Option<Value>): Result<Option<Provenance>> {
    if v.None? then Ok(None)
    else
      match v.value
      case String(s) =>
        var p := ProvenanceNamed(s);
        if p.Err? then Err else Ok(Some(p.value))
      case Table(pairs) =>
        if pairs == [] || pairs[0].0 != SlsaKey || !pairs[0].1.Table? then Err
        else
          var url := StrictString(Lookup(pairs[0].1.pairs, UrlKey));
          if url.Err? then Err else Ok(Some(Slsa(url.value)))
      case _ => Err
  }

  function ParseArtifact(v: Value): Result<ArtifactInfo> {
    if v.Table? then ParseArtifactFields(FieldsOf(v.pairs)) else Err
  }

  function ParseArtifactFields(get: Fields): Result<ArtifactInfo> {
    AssembleArtifact(get, ParseArtifactProvenance(get(ProvenanceKey)))
  }

  function AssembleArtifact(get: Fields, provenance: Result<Option<Provenance>>): Result<ArtifactInfo> {
    var checksum, source := StrictString(get(ChecksumKey)), ParseSource(get(ChecksumSourceKey));
    var size, url, urlApi, verified := get(SizeKey), get(UrlKey), StrictString(get(UrlApiKey)), get(ProvenanceVerifiedKey);
    if || checksum.Err? || source.Err? || (size.Some? && !(size.value.Integer? && size.value.i >= 0))
       || url.None? || !url.value.String? || urlApi.Err? || provenance.Err?
       || (verified.Some? && !verified.value.Boolean?)
    then Err
    else
      Ok(ArtifactInfo(checksum.value, source.value, if size.Some? then Some(size.value.i) else None,
        url.value.s, urlApi.value, provenance.value, if verified.Some? then Some(verified.value.b) else None))
  }

  function ParseArtifacts(items: seq<Value>): Result<seq<ArtifactInfo>> {
    if items == [] then Ok([])
    else
      var first, rest := ParseArtifact(items[0]), ParseArtifacts(items[1..]);
      if first.Err? || rest.Err? then Err else Ok([first.value] + rest.value)
  }

  function StringsIn(items: seq<Value>): seq<string> {
    if items == [] then []
    else if items[0].String? then [items[0].s] + StringsIn(items[1..])
    else StringsIn(items[1..])
  }

  /** A record's provenance, read leniently; a SLSA name may take its URL from the legacy key. */
  function ParseProvenance(v: Option<Value>, legacyUrl: Option<string>): Result<Option<Provenance>> {
    if v.None? then Ok(None)
    else
      match v.value
      case String(s) =>
        var p := ProvenanceNamed(s);
        if p.Err? then Err else if p.value.Slsa? then Ok(Some(Slsa(legacyUrl))) else Ok(Some(p.value))
      case Table(pairs) =>
        var slsa := Lookup(pairs, SlsaKey);
        if slsa.None? then Err
        else Ok(Some(Slsa(if slsa.value.Table? then LenientString(Lookup(slsa.value.pairs, UrlKey)) else None)))
      case _ => Ok(None)
  }

  predicate OnlyKeys(t: Pairs, keys: set<Key>) {
    forall p :: p in t ==> p.0 in keys
  }

  /** The forge IDs: a table with a repository and perhaps an owner, and nothing else. */
  function ParseIds(v: Option<Value>): Result<(Option<string>, Option<string>)> {
    if v.None? then Ok((None, None))
    else if !v.value.Table? then Err
    else
      var repository, owner := StrictString(Lookup(v.value.pairs, RepositoryKey)), StrictString(Lookup(v.value.pairs, OwnerKey));
      if repository.Err? || owner.Err? || !OnlyKeys(v.value.pairs, {RepositoryKey, OwnerKey}) || repository.value.None? then Err
      else Ok((repository.value, owner.value))
  }

  const EMPTY := PlatformInfo(None, None, None, None, None, None, None, None, None, None, None, None, None, None, None, [])

  function ParseExtra(v: Option<Value>): Result<seq<ArtifactInfo>> {
    if v.None? then Ok([]) else if v.value.Array? then ParseArtifacts(v.value.items) else Err
  }

  function ParseRecord(get: Fields): Result<PlatformInfo> {
    Assemble(get, ParseProvenance(get(ProvenanceKey), LenientString(get(ProvenanceUrlKey))),
      ParseIds(get(RepositoryIdsKey)), ParseExtra(get(AdditionalArtifactsKey)))
  }

  /** The record, from its plain fields and its parsed nested ones. */
  function Assemble(get: Fields, provenance: Result<Option<Provenance>>,
                    ids: Result<(Option<string>, Option<string>)>, artifacts: Result<seq<ArtifactInfo>>):
    Result<PlatformInfo>
  {
    var install, source := OnlyString(get(InstallKey), "source"), ParseSource(get(ChecksumSourceKey));
    var size, deps := get(SizeKey), get(CondaDepsKey);
    var status := OnlyString(get(GithubAttestationsKey), "unavailable");
    var verified, attestedBy := get(ProvenanceVerifiedKey), OnlyString(get(AttestedByKey), "repackager");
    var flat := get(RepositoryIdKey).Some? || get(RepositoryOwnerIdKey).Some?;
    if || install.Err? || source.Err? || (size.Some? && size.value.Integer? && size.value.i < 0) || status.Err?
       || provenance.Err? || attestedBy.Err? || flat || ids.Err? || artifacts.Err?
    then Err
    else
      Ok(PlatformInfo(
        install := install.value,
        checksum := LenientString(get(ChecksumKey)),
        checksumSource := source.value,
        size := if size.Some? && size.value.Integer? then Some(size.value.i) else None,
        url := LenientString(get(UrlKey)),
        urlApi := LenientString(get(UrlApiKey)),
        downloadHeaders := None,
        condaDeps := if deps.Some? && deps.value.Array? then Some(StringsIn(deps.value.items)) else None,
        provenance := provenance.value,
        provenanceVerified := if verified.Some? && verified.value.Boolean? then Some(verified.value.b) else None,
        githubAttestations := if provenance.value.None? && status.value.Some? then Some(Unavailable) else None,
        signer := LenientString(get(SignerKey)),
        attestedBy := attestedBy.value,
        repositoryId := ids.value.0,
        repositoryOwnerId := ids.value.1,
        additionalArtifacts := artifacts.value))
  }

  /** An old lockfile's record may be its checksum alone. */
  function Parse(v: Value): Result<PlatformInfo> {
    match v
    case String(checksum) => Ok(EMPTY.(checksum := Some(checksum)))
    case Table(t) => ParseRecord(FieldsOf(t))
    case _ => Err
  }

  // ----- round trips -----

  /** What parsing can return: the allowed words, and no owner without a repository. */
  predicate WellFormed(info: PlatformInfo) {
    && (info.install.None? || info.install.value == "source")
    && (info.attestedBy.None? || info.attestedBy.value == "repackager")
    && (info.repositoryOwnerId.Some? ==> info.repositoryId.Some?)
  }

  lemma ProvenanceRoundTrip(p: Option<Provenance>)
    ensures ParseProvenance(PrintProvenance(p), None) == Ok(p)
    ensures ParseArtifactProvenance(PrintProvenance(p)) == Ok(p)
  {
    if p.Some? && p.value.Slsa? && p.value.url.Some? {
      OnePair(UrlKey, String(p.value.url.value));
      OnePair(SlsaKey, Table([(UrlKey, String(p.value.url.value))]));
    }
  }

  lemma SourceRoundTrip(o: Option<ChecksumSource>)
    ensures ParseSource(OptSource(o)) == Ok(o)
  {
    if o.Some? {
      match o.value
      case VersionsHost =>
    }
  }

  lemma OnePair(key: Key, value: Value)
    ensures forall q :: Lookup([(key, value)], q) == if q == key then Some(value) else None
  {
    assert [(key, value)][..0] == [];
  }

  lemma ArtifactRoundTrip(a: ArtifactInfo)
    ensures ParseArtifact(PrintArtifact(a)) == Ok(a.Written())
  {
    var printed := FieldsOf(Collect(ARTIFACT_KEYS, ArtifactFields(a)));
    forall key
      ensures printed(key) == ArtifactFields(a)(key)
    {
      LookupCollected(ARTIFACT_KEYS, ArtifactFields(a), key);
    }
    SameFieldsSameArtifact(printed, ArtifactFields(a));
    ArtifactFieldsRoundTrip(a);
  }

  lemma ArtifactFieldsRoundTrip(a: ArtifactInfo)
    ensures ParseArtifactFields(ArtifactFields(a)) == Ok(a.Written())
  {
    ProvenanceRoundTrip(a.provenance);
    SourceRoundTrip(a.checksumSource);
    ArtifactFieldsHold(a, ArtifactFields(a));
    AssembledArtifact(a, ArtifactFields(a), Ok(a.provenance));
  }

  ghost predicate HoldsArtifact(get: Fields, a: ArtifactInfo) {
    && get(ChecksumKey) == OptString(a.checksum)
    && get(ChecksumSourceKey) == OptSource(a.checksumSource)
    && get(UrlKey) == Some(String(a.url))
    && get(UrlApiKey) == OptString(a.urlApi)
    && get(ProvenanceVerifiedKey) == OptBool(a.provenanceVerified)
    && get(SizeKey) == None
  }

  lemma ArtifactFieldsHold(a: ArtifactInfo, get: Fields)
    requires get == ArtifactFields(a)
    ensures HoldsArtifact(get, a) && get(ProvenanceKey) == PrintProvenance(a.provenance)
  {
  }

  lemma AssembledArtifact(a: ArtifactInfo, get: Fields, provenance: Result<Option<Provenance>>)
    requires HoldsArtifact(get, a) && provenance == Ok(a.provenance)
    ensures AssembleArtifact(get, provenance) == Ok(a.Written())
  {
    SourceRoundTrip(a.checksumSource);
  }

  lemma SameFieldsSameArtifact(f: Fields, g: Fields)
    requires forall key :: f(key) == g(key)
    ensures ParseArtifactFields(f) == ParseArtifactFields(g)
  {
  }

  lemma ParsedCons(items: seq<Value>, first: ArtifactInfo, rest: seq<ArtifactInfo>)
    requires items != [] && ParseArtifact(items[0]) == Ok(first) && ParseArtifacts(items[1..]) == Ok(rest)
    ensures ParseArtifacts(items) == Ok([first] + rest)
  {
  }

  lemma {:induction false} ParsedInOrder(items: seq<Value>, artifacts: seq<ArtifactInfo>)
    requires |items| == |artifacts| && forall i :: 0 <= i < |items| ==> ParseArtifact(items[i]) == Ok(artifacts[i])
    ensures ParseArtifacts(items) == Ok(artifacts)
  {
    if items != [] {
      ParsedInOrder(items[1..], artifacts[1..]);
      ParsedCons(items, artifacts[0], artifacts[1..]);
      assert artifacts == [artifacts[0]] + artifacts[1..];
    }
  }

  lemma ArtifactsRoundTrip(artifacts: seq<ArtifactInfo>)
    ensures ParseArtifacts(PrintArtifacts(artifacts)) == Ok(WrittenArtifacts(artifacts))
  {
    forall i | 0 <= i < |artifacts|
      ensures ParseArtifact(PrintArtifacts(artifacts)[i]) == Ok(WrittenArtifacts(artifacts)[i])
    {
      ArtifactRoundTrip(artifacts[i]);
    }
    ParsedInOrder(PrintArtifacts(artifacts), WrittenArtifacts(artifacts));
  }

  lemma {:induction false} DepsRoundTrip(deps: seq<string>)
    ensures StringsIn(PrintDeps(deps)) == deps
  {
    if deps != [] {
      DepsRoundTrip(deps[1..]);
    }
  }

  lemma IdsRoundTrip(info: PlatformInfo)
    ensures ParseIds(PrintIds(info.repositoryId, info.repositoryOwnerId)) ==
      Ok((info.repositoryId, if info.repositoryId.Some? then info.repositoryOwnerId else None))
  {
    if info.repositoryId.Some? {
      var fields := IdFields(info.repositoryId.value, info.repositoryOwnerId);
      var t := Collect(ID_KEYS, fields);
      LookupCollected(ID_KEYS, fields, RepositoryKey);
      LookupCollected(ID_KEYS, fields, OwnerKey);
      CollectedKeys(ID_KEYS, fields);
      IdsParse(t, info.repositoryId.value, info.repositoryOwnerId);
    }
  }

  lemma IdsParse(t: Pairs, repository: string, owner: Option<string>)
    requires Lookup(t, RepositoryKey) == Some(String(repository)) && Lookup(t, OwnerKey) == OptString(owner)
    requires forall p :: p in t ==> p.0 in ID_KEYS
    ensures ParseIds(Some(Table(t))) == Ok((Some(repository), owner))
  {
  }

  lemma {:induction false} CollectedKeys(order: seq<Key>, fields: Fields)
    ensures forall p :: p in Collect(order, fields) ==> p.0 in order
  {
    if order != [] {
      CollectedKeys(order[..|order| - 1], fields);
    }
  }

  /** A printed table holds the record's fields and nothing else. */
  lemma PrintedFields(info: PlatformInfo, key: Key)
    ensures FieldsOf(Collect(RECORD_KEYS, RecordFields(info)))(key) == RecordFields(info)(key)
  {
    LookupCollected(RECORD_KEYS, RecordFields(info), key);
  }

  lemma SameFieldsParseAlike(f: Fields, g: Fields)
    requires forall key :: f(key) == g(key)
    ensures ParseRecord(f) == ParseRecord(g)
  {
  }

  /** Parsing a printed table is parsing the record's fields. */
  lemma PrintedParses(info: PlatformInfo)
    ensures Parse(Print(info)) == ParseRecord(RecordFields(info))
  {
    forall key
      ensures FieldsOf(Collect(RECORD_KEYS, RecordFields(info)))(key) == RecordFields(info)(key)
    {
      PrintedFields(info, key);
    }
    SameFieldsParseAlike(FieldsOf(Collect(RECORD_KEYS, RecordFields(info))), RecordFields(info));
  }

  /** Parsing the printed table gives back everything that is written, exactly for well-formed records. */
  lemma RoundTrip(info: PlatformInfo)
    ensures Parse(Print(info)) == Ok(info.Written()) <==> WellFormed(info)
  {
    PrintedParses(info);
    FieldsRoundTrip(info);
  }

  lemma FieldsRoundTrip(info: PlatformInfo)
    ensures ParseRecord(RecordFields(info)) == Ok(info.Written()) <==> WellFormed(info)
  {
    NestedRoundTrip(info);
    RecordFieldsHold(info);
    AssembledFields(RecordFields(info), info, Ok(info.provenance),
      Ok((info.repositoryId, if info.repositoryId.Some? then info.repositoryOwnerId else None)),
      Ok(WrittenArtifacts(info.additionalArtifacts)));
  }

  lemma NestedRoundTrip(info: PlatformInfo)
    ensures var get := RecordFields(info);
      && ParseProvenance(get(ProvenanceKey), LenientString(get(ProvenanceUrlKey))) == Ok(info.provenance)
      && ParseIds(get(RepositoryIdsKey)) ==
           Ok((info.repositoryId, if info.repositoryId.Some? then info.repositoryOwnerId else None))
      && ParseExtra(get(AdditionalArtifactsKey)) == Ok(WrittenArtifacts(info.additionalArtifacts))
  {
    ProvenanceFields(info);
    NestedFields(info);
    ProvenanceRoundTrip(info.provenance);
    IdsRoundTrip(info);
    ExtraRoundTrip(info.additionalArtifacts);
  }

  lemma ProvenanceFields(info: PlatformInfo)
    ensures var get := RecordFields(info);
      get(ProvenanceKey) == PrintProvenance(info.provenance) && get(ProvenanceUrlKey) == None
  {
  }

  lemma NestedFields(info: PlatformInfo)
    ensures var get := RecordFields(info);
      && get(RepositoryIdsKey) == PrintIds(info.repositoryId, info.repositoryOwnerId)
      && get(AdditionalArtifactsKey) == PrintExtra(info.additionalArtifacts)
  {
  }

  lemma ExtraRoundTrip(artifacts: seq<ArtifactInfo>)
    ensures ParseExtra(PrintExtra(artifacts)) == Ok(WrittenArtifacts(artifacts))
  {
    ArtifactsRoundTrip(artifacts);
  }

  /** The plain fields a table holds for a record. */
  ghost predicate Holds(get: Fields, info: PlatformInfo) {
    && get(InstallKey) == OptString(info.install)
    && get(ChecksumKey) == OptString(info.checksum)
    && get(ChecksumSourceKey) == OptSource(info.checksumSource)
    && get(UrlKey) == OptString(info.url)
    && get(UrlApiKey) == OptString(info.urlApi)
    && get(CondaDepsKey) == (if info.condaDeps.None? then None else Some(Array(PrintDeps(info.condaDeps.value))))
    && get(ProvenanceVerifiedKey) == OptBool(info.provenanceVerified)
    && get(SignerKey) == OptString(info.signer)
    && get(AttestedByKey) == OptString(info.attestedBy)
    && get(SizeKey) == get(GithubAttestationsKey) == get(RepositoryIdKey) == get(RepositoryOwnerIdKey) == None
  }

  lemma RecordFieldsHold(info: PlatformInfo)
    ensures Holds(RecordFields(info), info)
  {
  }

  lemma AssembledFields(get: Fields, info: PlatformInfo, provenance: Result<Option<Provenance>>,
                        ids: Result<(Option<string>, Option<string>)>, artifacts: Result<seq<ArtifactInfo>>)
    requires Holds(get, info)
    requires provenance == Ok(info.provenance) && artifacts == Ok(WrittenArtifacts(info.additionalArtifacts))
    requires ids == Ok((info.repositoryId, if info.repositoryId.Some? then info.repositoryOwnerId else None))
    ensures Assemble(get, provenance, ids, artifacts) == Ok(info.Written()) <==> WellFormed(info)
  {
    if info.condaDeps.Some? {
      DepsRoundTrip(info.condaDeps.value);
    }
    var install, attestedBy := OnlyString(get(InstallKey), "source"), OnlyString(get(AttestedByKey), "repackager");
    assert install == Ok(info.install) <==> info.install.None? || info.install.value == "source";
    assert attestedBy == Ok(info.attestedBy) <==> info.attestedBy.None? || info.attestedBy.value == "repackager";
    SourceRoundTrip(info.checksumSource);
  }

  lemma ParsedIsWellFormed(v: Value)
    requires Parse(v).Ok?
    ensures WellFormed(Parse(v).value)
  {
  }

  /** Every accepted value, old forms included: printing what was parsed and parsing that loses nothing
      that is written, and from then on printing is stable. */
  lemma ParsePrintParse(v: Value)
    requires Parse(v).Ok?
    ensures Parse(Print(Parse(v).value)) == Ok(Parse(v).value.Written())
    ensures Print(Parse(v).value.Written()) == Print(Parse(v).value)
  {
    ParsedIsWellFormed(v);
    RoundTrip(Parse(v).value);
    PrintedAlike(Parse(v).value);
  }

  lemma PrintedAlike(info: PlatformInfo)
    ensures Print(info.Written()) == Print(info)
  {
    forall key
      ensures RecordFields(info.Written())(key) == RecordFields(info)(key)
    {
      PrintedFieldAlike(info, key);
    }
    CollectSame(RECORD_KEYS, RecordFields(info.Written()), RecordFields(info));
  }

  lemma PrintedFieldAlike(info: PlatformInfo, key: Key)
    ensures RecordField(info.Written(), key) == RecordField(info, key)
  {
    ExtraAlike(info.additionalArtifacts);
    FieldsAlike(info.Written(), info, key);
  }

  lemma ExtraAlike(artifacts: seq<ArtifactInfo>)
    ensures PrintExtra(WrittenArtifacts(artifacts)) == PrintExtra(artifacts)
  {
    PrintIgnoresUnwritten(artifacts);
  }

  /** Only what is written is printed. */
  lemma FieldsAlike(a: PlatformInfo, b: PlatformInfo, key: Key)
    requires a.(additionalArtifacts := [], size := None, downloadHeaders := None, githubAttestations := None)
          == b.(additionalArtifacts := [], size := None, downloadHeaders := None, githubAttestations := None)
    requires PrintExtra(a.additionalArtifacts) == PrintExtra(b.additionalArtifacts)
    ensures RecordField(a, key) == RecordField(b, key)
  {
  }

  lemma {:induction false} CollectSame(order: seq<Key>, f: Fields, g: Fields)
    requires forall key :: f(key) == g(key)
    ensures Collect(order, f) == Collect(order, g)
  {
    if order != [] {
      CollectSame(order[..|order| - 1], f, g);
    }
  }

  lemma PrintIgnoresUnwritten(artifacts: seq<ArtifactInfo>)
    ensures PrintArtifacts(WrittenArtifacts(artifacts)) == PrintArtifacts(artifacts)
  {
    forall a: ArtifactInfo
      ensures PrintArtifact(a.Written()) == PrintArtifact(a)
    {
      CollectSame(ARTIFACT_KEYS, ArtifactFields(a.Written()), ArtifactFields(a));
    }
  }

  lemma ParsedProvenance(t: Pairs)
    requires Parse(Table(t)).Ok?
    ensures ParseProvenance(Lookup(t, ProvenanceKey), LenientString(Lookup(t, ProvenanceUrlKey))) ==
      Ok(Parse(Table(t)).value.provenance)
  {
    assert FieldsOf(t)(ProvenanceKey) == Lookup(t, ProvenanceKey);
    assert FieldsOf(t)(ProvenanceUrlKey) == Lookup(t, ProvenanceUrlKey);
  }

  lemma LegacyProvenance(url: string)
    ensures ParseProvenance(Some(String("slsa")), Some(url)) == Ok(Some(Slsa(Some(url))))
  {
  }

  lemma LegacyUrlIsRead(t: Pairs, url: string)
    requires Lookup(t, ProvenanceKey) == Some(String("slsa")) && Lookup(t, ProvenanceUrlKey) == Some(String(url))
    requires Parse(Table(t)).Ok?
    ensures Parse(Table(t)).value.provenance == Some(Slsa(Some(url)))
  {
    ParsedProvenance(t);
    LegacyProvenance(url);
  }

  lemma PrintKeepsProvenance(v: Value)
    requires Parse(v).Ok?
    ensures Parse(Print(Parse(v).value)).Ok? && Parse(Print(Parse(v).value)).value.provenance == Parse(v).value.provenance
  {
    ParsePrintParse(v);
  }

  /** A legacy URL key survives as the SLSA URL in today's form. */
  lemma LegacyUrlIsKept(t: Pairs, url: string)
    requires Lookup(t, ProvenanceKey) == Some(String("slsa")) && Lookup(t, ProvenanceUrlKey) == Some(String(url))
    requires Parse(Table(t)).Ok?
    ensures var info := Parse(Table(t)).value;
      info.provenance == Some(Slsa(Some(url))) && Parse(Print(info)).Ok? && Parse(Print(info)).value.provenance == info.provenance
  {
    LegacyUrlIsRead(t, url);
    PrintKeepsProvenance(Table(t));
  }

  /** Whatever string a record is, it is a checksum without a mark and nothing else, and stays one when it is
      printed in today's form. */
  lemma LegacyChecksumIsKept(text: string)
    ensures Parse(String(text)).Ok?
    ensures var info := Parse(String(text)).value;
      && info.checksum == Some(text) && info.checksumSource.None? && info.size.None? && info.downloadHeaders.None?
      && info.githubAttestations.None? && info.(checksum := None).IsEmpty()
      && Parse(Print(info)) == Ok(info)
  {
    ParsePrintParse(String(text));
  }

  /** A table is refused for forge IDs beside the record, for a negative size, and for a word that is not
      allowed; nothing but a string or a table is a record. */
  lemma Refused(v: Value, t: Pairs)
    ensures !v.String? && !v.Table? ==> Parse(v).Err?
    ensures Lookup(t, RepositoryIdKey).Some? || Lookup(t, RepositoryOwnerIdKey).Some? ==> Parse(Table(t)).Err?
    ensures forall n :: Lookup(t, SizeKey) == Some(Integer(n)) && n < 0 ==> Parse(Table(t)).Err?
    ensures forall word :: Lookup(t, InstallKey) == Some(String(word)) && word != "source" ==> Parse(Table(t)).Err?
    ensures forall word :: Lookup(t, AttestedByKey) == Some(String(word)) && word != "repackager" ==> Parse(Table(t)).Err?
  {
    var get := FieldsOf(t);
    assert get(RepositoryIdKey) == Lookup(t, RepositoryIdKey) && get(RepositoryOwnerIdKey) == Lookup(t, RepositoryOwnerIdKey);
    assert get(SizeKey) == Lookup(t, SizeKey) && get(InstallKey) == Lookup(t, InstallKey) && get(AttestedByKey) == Lookup(t, AttestedByKey);
  }

  lemma AssembledSize(get: Fields, provenance: Result<Option<Provenance>>,
                      ids: Result<(Option<string>, Option<string>)>, artifacts: Result<seq<ArtifactInfo>>)
    requires Assemble(get, provenance, ids, artifacts).Ok?
    ensures forall n: nat :: Assemble(get, provenance, ids, artifacts).value.size == Some(n) <==> get(SizeKey) == Some(Integer(n))
  {
  }

  lemma AssembledStatus(get: Fields, provenance: Result<Option<Provenance>>,
                        ids: Result<(Option<string>, Option<string>)>, artifacts: Result<seq<ArtifactInfo>>)
    requires Assemble(get, provenance, ids, artifacts).Ok?
    ensures var info := Assemble(get, provenance, ids, artifacts).value;
      info.githubAttestations.Some? <==> get(GithubAttestationsKey) == Some(String("unavailable")) && info.provenance.None?
  {
  }

  /** What is read though it is never written: a size, and that attestations were unavailable, unless there is
      a provenance. */
  lemma ReadButNotWritten(t: Pairs)
    requires Parse(Table(t)).Ok?
    ensures var info := Parse(Table(t)).value;
      && (forall n: nat :: info.size == Some(n) <==> Lookup(t, SizeKey) == Some(Integer(n)))
      && (info.githubAttestations.Some? <==> Lookup(t, GithubAttestationsKey) == Some(String("unavailable")) && info.provenance.None?)
  {
    var get := FieldsOf(t);
    var provenance := ParseProvenance(get(ProvenanceKey), LenientString(get(ProvenanceUrlKey)));
    var ids, artifacts := ParseIds(get(RepositoryIdsKey)), ParseExtra(get(AdditionalArtifactsKey));
    assert Parse(Table(t)) == Assemble(get, provenance, ids, artifacts);
    AssembledSize(get, provenance, ids, artifacts);
    AssembledStatus(get, provenance, ids, artifacts);
    assert get(SizeKey) == Lookup(t, SizeKey) && get(GithubAttestationsKey) == Lookup(t, GithubAttestationsKey);
  }

  lemma {:induction false} CollectsNothing(order: seq<Key>, fields: Fields)
    ensures Collect(order, fields) == [] <==> forall key :: key in order ==> fields(key).None?
  {
    if order != [] {
      var front, last := order[..|order| - 1], order[|order| - 1];
      CollectsNothing(front, fields);
      assert order == front + [last];
    }
  }

  lemma RecordKeysAre(fields: Fields)
    ensures (forall key :: key in RECORD_KEYS ==> fields(key).None?) <==>
      && fields(InstallKey).None? && fields(ChecksumKey).None? && fields(ChecksumSourceKey).None? && fields(UrlKey).None?
      && fields(UrlApiKey).None? && fields(CondaDepsKey).None? && fields(AdditionalArtifactsKey).None?
      && fields(ProvenanceKey).None? && fields(ProvenanceVerifiedKey).None? && fields(SignerKey).None?
      && fields(AttestedByKey).None? && fields(RepositoryIdsKey).None?
  {
  }

  lemma PlainFieldsEmpty(info: PlatformInfo)
    ensures var f := RecordFields(info);
      && (f(InstallKey).None? <==> info.install.None?) && (f(ChecksumKey).None? <==> info.checksum.None?)
      && (f(ChecksumSourceKey).None? <==> info.checksumSource.None?) && (f(UrlKey).None? <==> info.url.None?)
      && (f(UrlApiKey).None? <==> info.urlApi.None?) && (f(CondaDepsKey).None? <==> info.condaDeps.None?)
  {
  }

  lemma OtherFieldsEmpty(info: PlatformInfo)
    ensures var f := RecordFields(info);
      && (f(AdditionalArtifactsKey).None? <==> info.additionalArtifacts == []) && (f(ProvenanceKey).None? <==> info.provenance.None?)
      && (f(ProvenanceVerifiedKey).None? <==> info.provenanceVerified.None?) && (f(SignerKey).None? <==> info.signer.None?)
      && (f(AttestedByKey).None? <==> info.attestedBy.None?) && (f(RepositoryIdsKey).None? <==> info.repositoryId.None?)
  {
  }

  /** A record is empty exactly if nothing would be written, except that an owner ID alone, which is never
      written, makes it not empty. */
  lemma EmptyPrintsNothing(info: PlatformInfo)
    ensures Print(info) == Table([]) <==> info.(repositoryOwnerId := None).IsEmpty()
  {
    CollectsNothing(RECORD_KEYS, RecordFields(info));
    RecordKeysAre(RecordFields(info));
    PlainFieldsEmpty(info);
    OtherFieldsEmpty(info);
  }
}
