/**
 Looking a request up in one lockfile with request bindings (src/lockfile.rs, 5822-5902 and 6098-6119).
 */
module LockedLookup {
  import opened Entries
  import opened Records
  import opened Wrappers

  /** The options a request has where an entry was locked under some backend, and whether an entry without
      options may stand in. */
  datatype Asked = Asked(options: Options, fallback: bool)

  /** `asks` reads the request's options as the entry's recorded backend does; `matches` and `pick` choose
      among entries that no request is bound to; `unversioned` is the answer of a lockfile without bindings. */
  datatype Request = Request(
    specifier: string,
    asks: Option<string> -> Result<Option<Asked>>,
    options: Options,
    fallback: bool,
    matches: string -> bool,
    pick: seq<LockfileTool> -> LockfileTool,
    unversioned: seq<LockfileTool> -> Answer)
  {
    /** How the request reads an entry of these options under this backend. */
    predicate Reads(kind: Kind, backend: Option<string>, options: Options) {
      match (kind, asks(backend))
      case (Exact, Ok(Some(asked))) => options == asked.options
      case (Optionless, Ok(Some(asked))) => asked.fallback && asked.options != [] && options == []
      case (Unreadable, Err) => true
      case _ => false
    }

    predicate Matches(kind: Kind, t: LockfileTool) {
      if kind.Unbound? then t.specifiers == {} && matches(t.version) && t.options == kind.wanted
      else specifier in t.specifiers && Reads(kind, t.backend, t.options)
    }
  }

  /** How an entry may match: bound to the request with the very options it has, bound to it without
      options, bound to it under a backend whose options cannot be read, or bound to no request and of a
      version this one may take. */
  datatype Kind = Exact | Optionless | Unreadable | Unbound(wanted: Options)

  datatype Answer = Found(tool: LockfileTool) | Nothing | Ambiguous | Failed

  function WithoutArtifactData(info: PlatformInfo): PlatformInfo {
    PlatformInfo(info.install, None, None, None, None, None, None, info.condaDeps, None, None, None, info.signer,
                 info.attestedBy, info.repositoryId, info.repositoryOwnerId, [])
  }

  /** The version pin of an entry without options, without what is known about its artifacts. */
  function WithRequestOptions(t: LockfileTool, options: Options): LockfileTool {
    t.(options := options,
       platforms := map p | p in t.platforms && !WithoutArtifactData(t.platforms[p]).IsEmpty()
                    :: WithoutArtifactData(t.platforms[p]))
  }

  function Stripped(r: Request, t: LockfileTool): LockfileTool
    requires r.Matches(Optionless, t)
  {
    WithRequestOptions(t, r.asks(t.backend).value.value.options)
  }

  function Matching(r: Request, kind: Kind, tools: seq<LockfileTool>): (matching: seq<LockfileTool>)
    ensures forall i :: 0 <= i < |matching| ==> matching[i] in tools && r.Matches(kind, matching[i])
  {
    if tools == [] then []
    else
      var front, last := Matching(r, kind, tools[..|tools| - 1]), tools[|tools| - 1];
      if r.Matches(kind, last) then front + [last] else front
  }

  lemma {:induction false} MatchingIs(r: Request, kind: Kind, tools: seq<LockfileTool>)
    ensures forall t :: t in tools && r.Matches(kind, t) ==> t in Matching(r, kind, tools)
    ensures DistinctKeys(tools) ==> DistinctKeys(Matching(r, kind, tools))
  {
    if tools != [] {
      MatchingIs(r, kind, tools[..|tools| - 1]);
      assert tools == tools[..|tools| - 1] + [tools[|tools| - 1]];
    }
  }

  function Lookup(r: Request, tools: seq<LockfileTool>): Answer {
    var exact := Matching(r, Exact, tools);
    if |exact| == 1 then Found(exact[0])
    else if |exact| > 1 then Ambiguous
    else
      var optionless := Matching(r, Optionless, tools);
      if |optionless| == 1 then Found(Stripped(r, optionless[0]))
      else if |optionless| > 1 then Ambiguous
      else LookupUnbound(r, tools)
  }

  function LookupUnbound(r: Request, tools: seq<LockfileTool>): Answer {
    var own := Matching(r, Unbound(r.options), tools);
    var legacy := Matching(r, Unbound([]), tools);
    if own != [] then Found(r.pick(own))
    else if r.fallback && r.options != [] && legacy != [] then Found(WithRequestOptions(r.pick(legacy), r.options))
    else if exists t :: t in tools && r.Matches(Unreadable, t) then Failed
    else Nothing
  }

  /** `matching_request_bindings`: the entries bound to the specifier that match, and whether the options of
      any could not be read. */
  method MatchingRequestBindings(r: Request, kind: Kind, tools: seq<LockfileTool>)
    returns (matching: seq<LockfileTool>, unreadable: bool)
    requires kind.Exact? || kind.Optionless?
    ensures matching == Matching(r, kind, tools)
    ensures unreadable <==> exists t :: t in tools && r.Matches(Unreadable, t)
  {
    matching, unreadable := [], false;
    for i := 0 to |tools|
      invariant matching == Matching(r, kind, tools[..i])
      invariant unreadable <==> exists t :: t in tools[..i] && r.Matches(Unreadable, t)
    {
      var t := tools[i];
      assert tools[..i + 1] == tools[..i] + [t] && t in tools[..i + 1];
      assert tools[..i + 1][..i] == tools[..i];
      if r.specifier in t.specifiers {
        var asked := r.asks(t.backend);
        if asked.Err? {
          unreadable := true;
        } else if r.Matches(kind, t) {
          matching := matching + [t];
        }
      }
    }
    assert tools[..|tools|] == tools;
  }

  method LookUp(r: Request, tools: seq<LockfileTool>) returns (answer: Answer)
    ensures answer == Lookup(r, tools)
  {
    var exact, unreadable := MatchingRequestBindings(r, Exact, tools);
    if |exact| == 1 {
      return Found(exact[0]);
    } else if |exact| > 1 {
      return Ambiguous;
    }
    var optionless, _ := MatchingRequestBindings(r, Optionless, tools);
    if |optionless| == 1 {
      return Found(Stripped(r, optionless[0]));
    } else if |optionless| > 1 {
      return Ambiguous;
    }
    var own := Matching(r, Unbound(r.options), tools);
    if own != [] {
      return Found(r.pick(own));
    }
    if r.fallback && r.options != [] {
      var legacy := Matching(r, Unbound([]), tools);
      if legacy != [] {
        return Found(WithRequestOptions(r.pick(legacy), r.options));
      }
    }
    answer := if unreadable then Failed else Nothing;
  }

  // ----- which entry answers -----

  /** How an entry may match, field by field. */
  lemma MatchMeans(r: Request, t: LockfileTool, wanted: Options)
    ensures var bound, asked := r.specifier in t.specifiers, r.asks(t.backend);
      && (r.Matches(Exact, t) <==> bound && asked.Ok? && asked.value.Some? && asked.value.value.options == t.options)
      && (r.Matches(Optionless, t) <==>
            bound && t.options == [] && asked.Ok? && asked.value.Some? && asked.value.value.fallback && asked.value.value.options != [])
      && (r.Matches(Unreadable, t) <==> bound && asked.Err?)
      && (r.Matches(Unbound(wanted), t) <==> t.specifiers == {} && t.options == wanted && r.matches(t.version))
  {
  }

  /** The entry at `i` is the only one that matches in this way. */
  ghost predicate IsOnly(r: Request, kind: Kind, tools: seq<LockfileTool>, i: int) {
    0 <= i < |tools| && forall j :: 0 <= j < |tools| ==> (r.Matches(kind, tools[j]) <==> j == i)
  }

  ghost predicate NoneMatches(r: Request, kind: Kind, tools: seq<LockfileTool>) {
    forall t :: t in tools ==> !r.Matches(kind, t)
  }

  lemma {:induction false} MatchingCount(r: Request, kind: Kind, tools: seq<LockfileTool>)
    ensures Matching(r, kind, tools) == [] <==> NoneMatches(r, kind, tools)
    ensures |Matching(r, kind, tools)| == 1 ==> exists i :: IsOnly(r, kind, tools, i)
    ensures forall i :: IsOnly(r, kind, tools, i) ==> Matching(r, kind, tools) == [tools[i]]
  {
    if tools != [] {
      var front, last := tools[..|tools| - 1], tools[|tools| - 1];
      assert tools == front + [last];
      MatchingCount(r, kind, front);
      forall i | IsOnly(r, kind, tools, i)
        ensures Matching(r, kind, tools) == [tools[i]]
      {
        assert i < |front| ==> IsOnly(r, kind, front, i);
        assert i == |front| ==> forall j :: 0 <= j < |front| ==> !r.Matches(kind, tools[j]);
      }
      if |Matching(r, kind, tools)| == 1 {
        if r.Matches(kind, last) {
          assert forall j :: 0 <= j < |front| ==> front[j] in front;
          assert IsOnly(r, kind, tools, |front|);
        } else {
          var i :| IsOnly(r, kind, front, i);
          assert IsOnly(r, kind, tools, i);
        }
      }
    }
  }

  /** One bound entry of the request's own options answers. Where there is none, one that is bound without
      options does, as a bare pin; several of either are ambiguous. */
  lemma BoundEntriesAnswer(r: Request, tools: seq<LockfileTool>)
    ensures forall i :: IsOnly(r, Exact, tools, i) ==> Lookup(r, tools) == Found(tools[i])
    ensures forall i :: NoneMatches(r, Exact, tools) && IsOnly(r, Optionless, tools, i) ==>
      Lookup(r, tools) == Found(WithRequestOptions(tools[i], r.asks(tools[i].backend).value.value.options))
    ensures Lookup(r, tools) == Ambiguous <==>
      || !(NoneMatches(r, Exact, tools) || exists i :: IsOnly(r, Exact, tools, i))
      || (NoneMatches(r, Exact, tools) && !(NoneMatches(r, Optionless, tools) || exists i :: IsOnly(r, Optionless, tools, i)))
  {
    MatchingCount(r, Exact, tools);
    MatchingCount(r, Optionless, tools);
    forall i | IsOnly(r, Optionless, tools, i)
      ensures r.Matches(Optionless, tools[i])
    {
    }
  }

  /** Only where no bound entry matches is an unbound one taken: one of the request's own options first, then,
      for a request with options that allows it, the bare pin of one without; and only where there is neither do
      unreadable options fail the lookup. */
  lemma UnboundEntriesAnswer(r: Request, tools: seq<LockfileTool>)
    requires NoneMatches(r, Exact, tools) && NoneMatches(r, Optionless, tools)
    ensures var answer, own, bare := Lookup(r, tools), Matching(r, Unbound(r.options), tools), Matching(r, Unbound([]), tools);
      if !NoneMatches(r, Unbound(r.options), tools) then answer == Found(r.pick(own))
      else if r.fallback && r.options != [] && !NoneMatches(r, Unbound([]), tools)
      then answer == Found(WithRequestOptions(r.pick(bare), r.options))
      else answer == if NoneMatches(r, Unreadable, tools) then Nothing else Failed
  {
    MatchingCount(r, Exact, tools);
    MatchingCount(r, Optionless, tools);
    MatchingCount(r, Unbound(r.options), tools);
    MatchingCount(r, Unbound([]), tools);
  }

  /** A bare pin is the version, backend and bindings of an entry; of its platform records, what describes an
      artifact is gone, and a record of nothing else is gone with it. */
  lemma BarePin(t: LockfileTool, options: Options, p: Platform)
    ensures var pin := WithRequestOptions(t, options);
      && pin.options == options && pin.(options := t.options, platforms := t.platforms) == t
      && (p in pin.platforms <==> p in t.platforms && var was := t.platforms[p];
            || was.install.Some? || was.condaDeps.Some? || was.signer.Some? || was.attestedBy.Some?
            || was.repositoryId.Some? || was.repositoryOwnerId.Some?)
      && (p in pin.platforms ==> var was, now := t.platforms[p], pin.platforms[p];
            && now.install == was.install && now.condaDeps == was.condaDeps && now.signer == was.signer
            && now.attestedBy == was.attestedBy && now.repositoryId == was.repositoryId
            && now.repositoryOwnerId == was.repositoryOwnerId
            && now.checksum.None? && now.checksumSource.None? && now.size.None? && now.url.None? && now.urlApi.None?
            && now.downloadHeaders.None? && now.provenance.None? && now.provenanceVerified.None?
            && now.githubAttestations.None? && now.additionalArtifacts == [])
  {
  }

  // ----- what decides a request -----

  function MatchingKeys(r: Request, kind: Kind, tools: seq<LockfileTool>): set<ToolKey> {
    set t | t in tools && r.Matches(kind, t) :: t.Key()
  }

  /** The keys of the entries bound to a request: with its options, without options, and unreadable. */
  datatype Ruling = Ruling(exact: set<ToolKey>, optionless: set<ToolKey>, unreadable: set<ToolKey>) {
    /** Exact entries decide, or where there are none, optionless ones. */
    function Deciding(): set<ToolKey> {
      if exact != {} then exact else optionless
    }

    function Of(kind: Kind): set<ToolKey>
      requires !kind.Unbound?
    {
      match kind
      case Exact => exact
      case Optionless => optionless
      case Unreadable => unreadable
    }

    ghost function Verdict(): Verdict {
      if Deciding() == {} then (if unreadable == {} then NoPin else Unread)
      else
        var k :| k in Deciding();
        if Deciding() == {k} then Pin(k) else Unclear
    }
  }

  /** One entry decides, or none, or several do, or none that can be read. */
  datatype Verdict = Pin(key: ToolKey) | NoPin | Unclear | Unread {
    /** A scan of lockfiles stops here. */
    predicate Settles() {
      Pin? || Unread?
    }
  }

  lemma VerdictIs(ruling: Ruling)
    ensures ruling.Verdict().NoPin? <==> ruling.Deciding() == {} && ruling.unreadable == {}
    ensures ruling.Verdict().Unread? <==> ruling.Deciding() == {} && ruling.unreadable != {}
    ensures forall k :: ruling.Verdict() == Pin(k) <==> ruling.Deciding() == {k}
  {
    assert forall k :: ruling.Deciding() == {k} ==> k in ruling.Deciding();
  }

  function RulingOf(r: Request, tools: seq<LockfileTool>): Ruling {
    Ruling(MatchingKeys(r, Exact, tools), MatchingKeys(r, Optionless, tools), MatchingKeys(r, Unreadable, tools))
  }

  predicate Agrees(answer: Answer, verdict: Verdict) {
    match verdict
    case Pin(k) => answer.Found? && answer.tool.version == k.version
    case NoPin => answer.Nothing?
    case Unclear => answer.Ambiguous?
    case Unread => answer.Failed?
  }

  ghost predicate AllBound(tools: seq<LockfileTool>) {
    forall t :: t in tools ==> t.specifiers != {}
  }

  lemma KeysOfMatching(r: Request, kind: Kind, tools: seq<LockfileTool>)
    requires DistinctKeys(tools)
    ensures var matching, keys := Matching(r, kind, tools), MatchingKeys(r, kind, tools);
      && (|matching| == 0 <==> keys == {})
      && (|matching| == 1 ==> keys == {matching[0].Key()})
      && (|matching| > 1 ==> forall k :: keys != {k})
  {
    var matching, keys := Matching(r, kind, tools), MatchingKeys(r, kind, tools);
    MatchingIs(r, kind, tools);
    forall i | 0 <= i < |matching|
      ensures matching[i].Key() in keys
    {
    }
    if |matching| == 1 {
      assert forall k :: k in keys ==> k == matching[0].Key();
    } else if |matching| > 1 {
      assert matching[0].Key() in keys && matching[1].Key() in keys && matching[0].Key() != matching[1].Key();
    }
  }

  lemma {:induction false} NoneUnbound(r: Request, tools: seq<LockfileTool>, wanted: Options)
    requires AllBound(tools)
    ensures Matching(r, Unbound(wanted), tools) == []
  {
    if tools != [] {
      NoneUnbound(r, tools[..|tools| - 1], wanted);
    }
  }

  /** In a lockfile whose entries are all bound, a request is answered by the one entry that decides it. It
      is ambiguous if there are several, and if there is none it fails if options could not be read and else
      has no answer. */
  lemma LookupIsVerdict(r: Request, tools: seq<LockfileTool>)
    requires DistinctKeys(tools) && AllBound(tools)
    ensures Agrees(Lookup(r, tools), RulingOf(r, tools).Verdict())
  {
    KeysOfMatching(r, Exact, tools);
    KeysOfMatching(r, Optionless, tools);
    NoneUnbound(r, tools, r.options);
    NoneUnbound(r, tools, []);
    VerdictIs(RulingOf(r, tools));
    assert MatchingKeys(r, Unreadable, tools) == {} <==> !exists t :: t in tools && r.Matches(Unreadable, t) by {
      if t :| t in tools && r.Matches(Unreadable, t) {
        assert t.Key() in MatchingKeys(r, Unreadable, tools);
      }
    }
  }
}
