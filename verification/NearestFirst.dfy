/** The lookup over all lockfiles against a scan of them nearest first (src/lockfile.rs, 5749-5921 and
    6054-6069). */
module NearestFirst {
  import opened Entries
  import opened LockedLookup
  import opened Lockfiles
  import opened MergedView
  import opened Rulings
  import opened ToolLists
  import opened Wrappers

  function RulingsOf(r: Request, lockfiles: seq<Snapshot>, short: string): (rulings: seq<Ruling>)
    ensures |rulings| == |lockfiles| && forall i :: 0 <= i < |rulings| ==> rulings[i] == RulingOf(r, lockfiles[i].For(short))
  {
    seq(|lockfiles|, i requires 0 <= i < |lockfiles| => RulingOf(r, lockfiles[i].For(short)))
  }

  lemma AskIsVerdict(r: Request, s: Snapshot, short: string)
    requires (s.version > 0 || s.tools == map[]) && WellFormed(s.For(short))
    ensures Agrees(Ask(r, s, short), RulingOf(r, s.For(short)).Verdict())
  {
    LookupIsVerdict(r, s.For(short));
    if short !in s.tools {
      VerdictIs(RulingOf(r, []));
    }
  }

  /** The scan finds what is nearest, and nothing where that is unclear. */
  lemma {:induction false} ScanIsNearest(r: Request, lockfiles: seq<Snapshot>, short: string)
    requires AllWellFormed(lockfiles, short)
    ensures var answer, nearest := NearestDecision(r, lockfiles, short), Nearest(RulingsOf(r, lockfiles, short));
      if nearest.Settles() then Agrees(answer, nearest) else answer.Nothing?
  {
    if lockfiles != [] {
      AskIsVerdict(r, lockfiles[0], short);
      ScanIsNearest(r, lockfiles[1..], short);
      assert RulingsOf(r, lockfiles, short)[1..] == RulingsOf(r, lockfiles[1..], short);
    }
  }

  // ----- how the merged view reads the bindings -----

  /** The merged view reads a key as the first lockfile that has it records it. */
  predicate FirstReads(r: Request, kind: Kind, all: seq<Snapshot>, short: string, k: ToolKey) {
    var first := FirstEntry(all, short, k);
    first.Some? && r.Reads(kind, first.value.backend, k.options)
  }

  function KeysRead(r: Request, kind: Kind, all: seq<Snapshot>, short: string): set<ToolKey> {
    set s, t | s in all && t in s.For(short) && r.specifier in t.specifiers && FirstReads(r, kind, all, short, t.Key()) :: t.Key()
  }

  function FirstReading(r: Request, all: seq<Snapshot>, short: string): Ruling {
    Ruling(KeysRead(r, Exact, all, short), KeysRead(r, Optionless, all, short), KeysRead(r, Unreadable, all, short))
  }

  /** In some lockfile an entry of the key matches. */
  ghost predicate SomeMatches(r: Request, kind: Kind, all: seq<Snapshot>, short: string, k: ToolKey) {
    exists s :: s in all && k in MatchingKeys(r, kind, s.For(short))
  }

  /** A bound key is misread if the first lockfile that has it, bound there or not, has the request read it
      as no lockfile that binds it does, or fail to read it as one of them does. */
  ghost predicate Misread(r: Request, all: seq<Snapshot>, short: string, k: ToolKey, kind: Kind) {
    !kind.Unbound? && BoundIn(r.specifier, all, short, k)
    && (FirstReads(r, kind, all, short, k) <==> !SomeMatches(r, kind, all, short, k))
  }

  ghost predicate NoneMisread(r: Request, all: seq<Snapshot>, short: string) {
    forall k, kind :: !Misread(r, all, short, k, kind)
  }

  lemma MatchAt(r: Request, kind: Kind, tools: seq<LockfileTool>, k: ToolKey)
    requires DistinctKeys(tools)
    ensures k in MatchingKeys(r, kind, tools) <==> Find(tools, k).Some? && r.Matches(kind, Find(tools, k).value)
  {
    FindIs(tools, k);
  }

  lemma KeysReadAre(r: Request, kind: Kind, all: seq<Snapshot>, short: string, k: ToolKey)
    ensures k in KeysRead(r, kind, all, short) <==> BoundIn(r.specifier, all, short, k) && FirstReads(r, kind, all, short, k)
  {
  }

  lemma MergedMatches(r: Request, kind: Kind, all: seq<Snapshot>, short: string, k: ToolKey)
    requires AllWellFormed(all, short) && !kind.Unbound?
    ensures k in MatchingKeys(r, kind, MergeAll(all).For(short)) <==> k in KeysRead(r, kind, all, short)
  {
    MergedEntry(r.specifier, all, short, k);
    FindIs(MergeAll(all).For(short), k);
    MatchAt(r, kind, MergeAll(all).For(short), k);
    KeysReadAre(r, kind, all, short, k);
  }

  /** The merged view rules as the first lockfile that has each bound key reads it. */
  lemma MergedRuling(r: Request, all: seq<Snapshot>, short: string)
    requires AllWellFormed(all, short)
    ensures RulingOf(r, MergeAll(all).For(short)) == FirstReading(r, all, short)
  {
    forall k
      ensures k in MatchingKeys(r, Exact, MergeAll(all).For(short)) <==> k in KeysRead(r, Exact, all, short)
      ensures k in MatchingKeys(r, Optionless, MergeAll(all).For(short)) <==> k in KeysRead(r, Optionless, all, short)
      ensures k in MatchingKeys(r, Unreadable, MergeAll(all).For(short)) <==> k in KeysRead(r, Unreadable, all, short)
    {
      MergedMatches(r, Exact, all, short, k);
      MergedMatches(r, Optionless, all, short, k);
      MergedMatches(r, Unreadable, all, short, k);
    }
  }

  lemma UnionMatches(r: Request, kind: Kind, all: seq<Snapshot>, short: string, k: ToolKey)
    requires !kind.Unbound?
    ensures k in Union(RulingsOf(r, all, short)).Of(kind) <==> SomeMatches(r, kind, all, short, k)
  {
    var rulings := RulingsOf(r, all, short);
    UnionHas(rulings, kind, k);
    forall i | 0 <= i < |all|
      ensures rulings[i].Of(kind) == MatchingKeys(r, kind, all[i].For(short))
    {
    }
    if s :| s in all && k in MatchingKeys(r, kind, s.For(short)) {
      var i :| 0 <= i < |all| && all[i] == s;
      assert k in rulings[i].Of(kind);
    }
  }

  lemma MatchIsBound(r: Request, kind: Kind, all: seq<Snapshot>, short: string, k: ToolKey)
    requires SomeMatches(r, kind, all, short, k) && !kind.Unbound?
    ensures BoundIn(r.specifier, all, short, k)
  {
    var s :| s in all && k in MatchingKeys(r, kind, s.For(short));
    var t :| t in s.For(short) && r.Matches(kind, t) && t.Key() == k;
  }

  /** So it rules as all lockfiles together do, exactly if no bound key is misread. */
  lemma MergedRulingIsUnion(r: Request, all: seq<Snapshot>, short: string)
    requires AllWellFormed(all, short)
    ensures RulingOf(r, MergeAll(all).For(short)) == Union(RulingsOf(r, all, short)) <==> NoneMisread(r, all, short)
  {
    MergedRuling(r, all, short);
    var merged, union := FirstReading(r, all, short), Union(RulingsOf(r, all, short));
    forall k, kind: Kind | !kind.Unbound?
      ensures (k in merged.Of(kind) <==> k in union.Of(kind)) <==> !Misread(r, all, short, k, kind)
    {
      KeysReadAre(r, kind, all, short, k);
      UnionMatches(r, kind, all, short, k);
      if SomeMatches(r, kind, all, short, k) {
        MatchIsBound(r, kind, all, short, k);
      }
    }
    SameRuling(merged, union);
    if merged == union {
      forall k, kind
        ensures !Misread(r, all, short, k, kind)
      {
        assert !kind.Unbound? ==> (k in merged.Of(kind) <==> k in union.Of(kind));
      }
    } else {
      var kind: Kind :| !kind.Unbound? && merged.Of(kind) != union.Of(kind);
      var k :| k in merged.Of(kind) <==> k !in union.Of(kind);
      assert Misread(r, all, short, k, kind);
    }
  }

  // ----- the lookup against the scan -----

  lemma LockedVersionIsOverall(r: Request, all: seq<Snapshot>, byPrecedence: seq<Snapshot>, short: string)
    requires AllWellFormed(all, short) && SameMembers(all, byPrecedence)
    ensures Agrees(LockedVersion(r, all, byPrecedence, short),
                   Overall(FirstReading(r, all, short), RulingsOf(r, byPrecedence, short)))
  {
    MergedRuling(r, all, short);
    MergedIsWellFormed(all, short);
    if all != [] {
      MergedVersionIsHighest(all);
    }
    AskIsVerdict(r, MergeAll(all), short);
    ScanIsNearest(r, byPrecedence, short);
  }

  lemma AgreesWithOne(answer: Answer, v: Verdict, w: Verdict)
    requires Agrees(answer, v)
    ensures Agrees(answer, w) <==> SameVersion(v, w)
  {
  }

  /** Where all lockfiles use bindings, have distinct keys and bind every entry, the lookup over all of them
      answers as the nearest lockfile that decides, exactly in the cases `AgreesByCase` names for the bound
      keys as the first lockfile that has each reads them. */
  lemma LookupAgreesByFirstReading(r: Request, all: seq<Snapshot>, byPrecedence: seq<Snapshot>, short: string)
    requires AllWellFormed(all, short) && SameMembers(all, byPrecedence)
    ensures var ordered := RulingsOf(r, byPrecedence, short);
      Agrees(LockedVersion(r, all, byPrecedence, short), Nearest(ordered)) <==> AgreesByCase(FirstReading(r, all, short), ordered)
  {
    LookupAgrees(r, all, byPrecedence, short);
    OverallByCase(FirstReading(r, all, short), RulingsOf(r, byPrecedence, short));
  }

  lemma LookupAgrees(r: Request, all: seq<Snapshot>, byPrecedence: seq<Snapshot>, short: string)
    requires AllWellFormed(all, short) && SameMembers(all, byPrecedence)
    ensures var ordered := RulingsOf(r, byPrecedence, short);
      Agrees(LockedVersion(r, all, byPrecedence, short), Nearest(ordered)) <==>
      SameVersion(Overall(FirstReading(r, all, short), ordered), Nearest(ordered))
  {
    LockedVersionIsOverall(r, all, byPrecedence, short);
    var ordered := RulingsOf(r, byPrecedence, short);
    AgreesWithOne(LockedVersion(r, all, byPrecedence, short), Overall(FirstReading(r, all, short), ordered), Nearest(ordered));
  }

  /** With no key misread, it does except exactly where the nearest lockfile that decides has the request
      without options and is outvoted by the only exact entry, or cannot be read while the others decide. */
  lemma MergedAgreesUnlessOutvoted(r: Request, all: seq<Snapshot>, byPrecedence: seq<Snapshot>, short: string)
    requires AllWellFormed(all, short) && SameMembers(all, byPrecedence) && NoneMisread(r, all, short)
    ensures var rulings, ordered := RulingsOf(r, all, short), RulingsOf(r, byPrecedence, short);
      Agrees(LockedVersion(r, all, byPrecedence, short), Nearest(ordered)) <==>
      !Outvoted(rulings, ordered) && !Outread(rulings, ordered)
  {
    MergedRuling(r, all, short);
    MergedRulingIsUnion(r, all, short);
    RulingsPermuted(r, all, byPrecedence, short);
    OverallIsNearest(RulingsOf(r, all, short), RulingsOf(r, byPrecedence, short));
    LookupAgrees(r, all, byPrecedence, short);
  }

  lemma RulingsPermuted(r: Request, all: seq<Snapshot>, byPrecedence: seq<Snapshot>, short: string)
    requires SameMembers(all, byPrecedence)
    ensures SameMembers(RulingsOf(r, all, short), RulingsOf(r, byPrecedence, short))
  {
    forall x
      ensures x in RulingsOf(r, all, short) <==> exists s :: s in all && x == RulingOf(r, s.For(short))
      ensures x in RulingsOf(r, byPrecedence, short) <==> exists s :: s in byPrecedence && x == RulingOf(r, s.For(short))
    {
      IsRuling(r, all, short, x);
      IsRuling(r, byPrecedence, short, x);
    }
  }

  lemma IsRuling(r: Request, lockfiles: seq<Snapshot>, short: string, x: Ruling)
    ensures x in RulingsOf(r, lockfiles, short) <==> exists s :: s in lockfiles && x == RulingOf(r, s.For(short))
  {
    if x in RulingsOf(r, lockfiles, short) {
      var i :| 0 <= i < |lockfiles| && RulingsOf(r, lockfiles, short)[i] == x;
      assert lockfiles[i] in lockfiles;
    }
    if s :| s in lockfiles && x == RulingOf(r, s.For(short)) {
      var i :| 0 <= i < |lockfiles| && lockfiles[i] == s;
      assert RulingsOf(r, lockfiles, short)[i] == x;
    }
  }

  /** No entry without options may stand in. */
  ghost predicate NoFallback(r: Request) {
    forall backend :: r.asks(backend).Ok? && r.asks(backend).value.Some? ==> !r.asks(backend).value.value.fallback
  }

  /** Where none may, the answer is the nearest one, except exactly where that cannot be read. */
  lemma MergedAgreesUnlessOutread(r: Request, all: seq<Snapshot>, byPrecedence: seq<Snapshot>, short: string)
    requires AllWellFormed(all, short) && SameMembers(all, byPrecedence) && NoneMisread(r, all, short) && NoFallback(r)
    ensures var rulings, ordered := RulingsOf(r, all, short), RulingsOf(r, byPrecedence, short);
      Agrees(LockedVersion(r, all, byPrecedence, short), Nearest(ordered)) <==> !Outread(rulings, ordered)
  {
    MergedAgreesUnlessOutvoted(r, all, byPrecedence, short);
    var rulings, ordered := RulingsOf(r, all, short), RulingsOf(r, byPrecedence, short);
    forall i, k, e
      ensures !IsOutvoted(rulings, ordered, i, k, e)
    {
      assert k in {k};
      assert forall t :: !r.Matches(Optionless, t);
      assert 0 <= i < |ordered| ==> ordered[i].optionless == {};
    }
  }

  /** The request names its backend: options are read alike whatever an entry records, and no entry without
      options may stand in. */
  ghost predicate Plain(r: Request, options: Options) {
    forall backend :: r.asks(backend) == Ok(Some(Asked(options, false)))
  }

  /** For such a request the answer is always the nearest one. */
  lemma MergedAgreesWithNearest(r: Request, options: Options, roots: seq<seq<Snapshot>>, legacy: seq<Snapshot>, short: string)
    requires AllWellFormed(Flatten(roots) + legacy, short) && Plain(r, options)
    ensures var all, byPrecedence := Flatten(roots) + legacy, LastGroupFirst(roots) + legacy;
      Agrees(LockedVersion(r, all, byPrecedence, short), Nearest(RulingsOf(r, byPrecedence, short)))
  {
    var all, byPrecedence := Flatten(roots) + legacy, LastGroupFirst(roots) + legacy;
    forall s
      ensures s in all <==> s in byPrecedence
    {
      GroupsReordered(roots, s);
    }
    PlainIsNotMisread(r, options, all, short);
    MergedAgreesUnlessOutread(r, all, byPrecedence, short);
    var ordered := RulingsOf(r, byPrecedence, short);
    assert forall t :: !r.Matches(Unreadable, t);
    forall i | 0 <= i < |ordered|
      ensures !ordered[i].Verdict().Unread?
    {
      VerdictIs(ordered[i]);
      assert ordered[i].unreadable == {};
    }
    forall i | SettlesFirst(ordered, i)
      ensures !FailsFirst(ordered, i)
    {
      NearestIsFirst(ordered, i);
      FirstIsNearest(ordered, i);
    }
  }

  /** The lockfile binds such a request to this entry's key and no other. */
  ghost predicate BindsOnly(r: Request, options: Options, s: Snapshot, short: string, t: LockfileTool) {
    && t in s.For(short) && r.specifier in t.specifiers && t.options == options
    && forall u :: u in s.For(short) && r.specifier in u.specifiers && u.options == options ==> u.Key() == t.Key()
  }

  lemma PlainAsk(r: Request, options: Options, s: Snapshot, short: string, t: LockfileTool)
    requires s.version > 0 && WellFormed(s.For(short)) && Plain(r, options)
    ensures BindsOnly(r, options, s, short, t) ==> Ask(r, s, short).Found? && Ask(r, s, short).tool.version == t.version
    ensures Answers(r, s, short) ==> exists u :: BindsOnly(r, options, s, short, u)
  {
    var ruling := RulingOf(r, s.For(short));
    AskIsVerdict(r, s, short);
    VerdictIs(ruling);
    assert ruling.optionless == {} && ruling.unreadable == {};
    if BindsOnly(r, options, s, short, t) {
      assert r.Matches(Exact, t);
      assert ruling.exact == {t.Key()};
    }
    if Answers(r, s, short) {
      var k := ruling.Verdict().key;
      assert k in ruling.exact;
      var u :| u in s.For(short) && r.Matches(Exact, u) && u.Key() == k;
      forall v | v in s.For(short) && r.Matches(Exact, v)
        ensures v.Key() == k
      {
        assert v.Key() in ruling.exact;
      }
      assert BindsOnly(r, options, s, short, u);
    }
  }

  /** So the innermost root with a lockfile that binds the request to one key decides it, by the first such
      lockfile it has. */
  lemma InnermostDecides(r: Request, options: Options, roots: seq<seq<Snapshot>>, legacy: seq<Snapshot>, short: string,
                         i: nat, k: nat, t: LockfileTool)
    requires AllWellFormed(Flatten(roots) + legacy, short) && Plain(r, options)
    requires i < |roots| && k < |roots[i]| && BindsOnly(r, options, roots[i][k], short, t)
    requires forall l, u :: 0 <= l < k ==> !BindsOnly(r, options, roots[i][l], short, u)
    requires forall j, l, u :: i < j < |roots| && 0 <= l < |roots[j]| ==> !BindsOnly(r, options, roots[j][l], short, u)
    ensures var answer := LockedVersion(r, Flatten(roots) + legacy, LastGroupFirst(roots) + legacy, short);
      answer.Found? && answer.tool.version == t.version
  {
    var all, byPrecedence := Flatten(roots) + legacy, LastGroupFirst(roots) + legacy;
    forall j: nat, l: nat | j < |roots| && l < |roots[j]|
      ensures roots[j][l] in all
      ensures Answers(r, roots[j][l], short) ==> exists u :: BindsOnly(r, options, roots[j][l], short, u)
    {
      Positions(roots, j, l);
      assert roots[j][l] in all;
      PlainAsk(r, options, roots[j][l], short, t);
    }
    PlainAsk(r, options, roots[i][k], short, t);
    assert AnswersFirst(r, roots, short, i, k);
    InnermostAnswers(r, roots, legacy, short, i, k);
    MergedAgreesWithNearest(r, options, roots, legacy, short);
    forall s
      ensures s in all <==> s in byPrecedence
    {
      GroupsReordered(roots, s);
    }
    ScanIsNearest(r, byPrecedence, short);
  }

  /** The options are read alike everywhere, so no key is misread. */
  lemma PlainIsNotMisread(r: Request, options: Options, all: seq<Snapshot>, short: string)
    requires Plain(r, options)
    ensures NoneMisread(r, all, short)
  {
    forall k, kind: Kind | !kind.Unbound? && BoundIn(r.specifier, all, short, k)
      ensures !Misread(r, all, short, k, kind)
    {
      var s, t :| s in all && t in s.For(short) && t.Key() == k && r.specifier in t.specifiers;
      HasFirst(all, short, s, t);
      PlainReads(r, options, kind, all, short, k, s, t);
    }
  }

  lemma PlainReads(r: Request, options: Options, kind: Kind, all: seq<Snapshot>, short: string, k: ToolKey,
                   s: Snapshot, t: LockfileTool)
    requires Plain(r, options) && !kind.Unbound? && FirstEntry(all, short, k).Some?
    requires s in all && t in s.For(short) && t.Key() == k && r.specifier in t.specifiers
    ensures FirstReads(r, kind, all, short, k) <==> SomeMatches(r, kind, all, short, k)
  {
    if FirstReads(r, kind, all, short, k) {
      assert k in MatchingKeys(r, kind, s.For(short));
    }
  }

  lemma {:induction false} HasFirst(all: seq<Snapshot>, short: string, s: Snapshot, t: LockfileTool)
    requires s in all && t in s.For(short)
    ensures FirstEntry(all, short, t.Key()).Some?
  {
    var front, last := all[..|all| - 1], all[|all| - 1];
    assert all == front + [last];
    if s in front {
      HasFirst(front, short, s, t);
    } else {
      FindIs(last.For(short), t.Key());
    }
  }

  // ----- lockfiles for which the answers differ -----

  function Entry(version: string, backend: Option<string>, specifier: string, options: Options): LockfileTool {
    LockfileTool(version, backend, {specifier}, options, map[], None, None, None)
  }

  function OneEntry(short: string, t: LockfileTool): Snapshot {
    Snapshot(1, map[short := [t]])
  }

  lemma LookupOne(r: Request, t: LockfileTool)
    requires t.specifiers != {}
    ensures Lookup(r, [t]) ==
      if r.Matches(Exact, t) then Found(t)
      else if r.Matches(Optionless, t) then Found(Stripped(r, t))
      else if r.Matches(Unreadable, t) then Failed
      else Nothing
  {
    MatchingOne(r, Exact, t);
    MatchingOne(r, Optionless, t);
    NoneUnbound(r, [t], r.options);
    NoneUnbound(r, [t], []);
    assert [t][0] in [t];
  }

  lemma MatchingOne(r: Request, kind: Kind, t: LockfileTool)
    ensures Matching(r, kind, [t]) == if r.Matches(kind, t) then [t] else []
  {
    assert [t][..0] == [];
  }

  lemma MatchingTwo(r: Request, kind: Kind, t: LockfileTool, u: LockfileTool)
    ensures Matching(r, kind, [t, u]) == (if r.Matches(kind, t) then [t] else []) + (if r.Matches(kind, u) then [u] else [])
  {
    MatchingOne(r, kind, t);
    assert [t, u][..1] == [t];
  }

  lemma MergedTwo(short: string, t: LockfileTool, u: LockfileTool)
    ensures MergeAll([OneEntry(short, t), OneEntry(short, u)]) == Snapshot(1, map[short :=
      if t.Key() == u.Key() then [Absorbed(t, u)] else [t, u]])
  {
    var all := [OneEntry(short, t), OneEntry(short, u)];
    assert all[..1] == [all[0]];
    assert [t][..0] == [] && [u][..0] == [];
    assert AbsorbAll([t], [u]) == AbsorbOne(AbsorbAll([t], []), u);
    assert AbsorbOne([t], u) == if t.Key() == u.Key() then [Absorbed(t, u)] else [t, u];
  }

  lemma TwoAreWellFormed(short: string, t: LockfileTool, u: LockfileTool)
    requires t.specifiers != {} && u.specifiers != {}
    ensures AllWellFormed([OneEntry(short, t), OneEntry(short, u)], short)
  {
  }

  /** What a far exact entry and a near optionless one merge to is answered by the far one. */
  lemma FarIsFound(r: Request, short: string, far: LockfileTool, near: LockfileTool)
    requires far.Key() != near.Key() && r.Matches(Exact, far) && !r.Matches(Exact, near)
    ensures Ask(r, MergeAll([OneEntry(short, far), OneEntry(short, near)]), short) == Found(far)
  {
    MergedTwo(short, far, near);
    MatchingTwo(r, Exact, far, near);
  }

  /** Two lockfiles whose only exact entry outvotes a nearer one: the nearer has the request without options,
      the farther has it with them and at another version. */
  lemma OutvotedHappens(r: Request, short: string, near: string, far: string, backend: Option<string>, options: Options)
    requires near != far && options != [] && r.asks(backend) == Ok(Some(Asked(options, true)))
    ensures var n, f := OneEntry(short, Entry(near, backend, r.specifier, [])), OneEntry(short, Entry(far, backend, r.specifier, options));
      && AllWellFormed([f, n], short) && NoneMisread(r, [f, n], short)
      && NearestDecision(r, [n, f], short).Found? && NearestDecision(r, [n, f], short).tool.version == near
      && LockedVersion(r, [f, n], [n, f], short).Found? && LockedVersion(r, [f, n], [n, f], short).tool.version == far
  {
    var a, b := Entry(near, backend, r.specifier, []), Entry(far, backend, r.specifier, options);
    var n, f := OneEntry(short, a), OneEntry(short, b);
    assert a.specifiers == b.specifiers == {r.specifier} && r.specifier in a.specifiers;
    TwoAreWellFormed(short, b, a);
    OneBackendIsNotMisread(r, [f, n], short, backend);
    LookupOne(r, a);
    assert NearestDecision(r, [n, f], short) == Ask(r, n, short);
    FarIsFound(r, short, b, a);
  }

  /** With one backend no key is misread. */
  lemma OneBackendIsNotMisread(r: Request, all: seq<Snapshot>, short: string, backend: Option<string>)
    requires forall s, t :: s in all && t in s.For(short) ==> t.backend == backend
    ensures NoneMisread(r, all, short)
  {
    forall k, kind: Kind | !kind.Unbound? && BoundIn(r.specifier, all, short, k)
      ensures !Misread(r, all, short, k, kind)
    {
      var s, t :| s in all && t in s.For(short) && t.Key() == k && r.specifier in t.specifiers;
      HasFirst(all, short, s, t);
      FirstIsThere(all, short, k);
      if FirstReads(r, kind, all, short, k) {
        assert k in MatchingKeys(r, kind, s.For(short));
      }
    }
  }

  lemma {:induction false} FirstIsThere(all: seq<Snapshot>, short: string, k: ToolKey)
    requires FirstEntry(all, short, k).Some?
    ensures FirstEntry(all, short, k).value.Key() == k
    ensures exists s :: s in all && FirstEntry(all, short, k).value in s.For(short)
  {
    var front, last := all[..|all| - 1], all[|all| - 1];
    assert all == front + [last] && last in all;
    if FirstEntry(front, short, k).Some? {
      FirstIsThere(front, short, k);
      var s :| s in front && FirstEntry(front, short, k).value in s.For(short);
      assert s in all;
    } else {
      FindIs(last.For(short), k);
    }
  }

  /** Two lockfiles that record one entry under backends the request reads differently: the nearer one binds
      it, but the merged view keeps the farther one's backend and finds nothing. */
  lemma MisreadHappens(r: Request, short: string, version: string, x: Option<string>, y: Option<string>, options: Options)
    requires options != [] && r.asks(x) == Ok(Some(Asked(options, false))) && r.asks(y) == Ok(Some(Asked([], false)))
    ensures var n, f := OneEntry(short, Entry(version, y, r.specifier, [])), OneEntry(short, Entry(version, x, r.specifier, []));
      && AllWellFormed([f, n], short)
      && !Outvoted(RulingsOf(r, [f, n], short), RulingsOf(r, [n, f], short))
      && !Outread(RulingsOf(r, [f, n], short), RulingsOf(r, [n, f], short))
      && NearestDecision(r, [n, f], short).Found? && NearestDecision(r, [n, f], short).tool.version == version
      && LockedVersion(r, [f, n], [n, f], short) == Nothing
  {
    var a, b := Entry(version, y, r.specifier, []), Entry(version, x, r.specifier, []);
    LookupOne(r, a);
    LookupOne(r, Absorbed(b, a));
    MergedTwo(short, b, a);
    var n, f := OneEntry(short, a), OneEntry(short, b);
    assert NearestDecision(r, [n, f], short) == Ask(r, n, short);
    var ordered := RulingsOf(r, [n, f], short);
    assert a in n.For(short);
    assert a.Key() in ordered[0].exact;
    VerdictIs(ordered[0]);
    assert ordered[0].Deciding() == {a.Key()};
    assert SettlesFirst(ordered, 0);
    forall i | SettlesFirst(ordered, i)
      ensures i == 0
    {
      SettlesOnce(ordered, 0, i);
    }
  }
}
