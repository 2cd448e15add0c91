/**
 Which of a statement's resources an install uses (src/packslip.rs, `specificity`, `applicable`,
 `selected_resources`): for each thing the resources describe, the most narrowly scoped that fit.
 */
module ResourceSelection {
  import opened Wrappers

  type Identity = string

  datatype Resource = Resource(
    name: string,
    artifact: Option<string>,
    os: Option<string>,
    arch: Option<string>,
    libc: Option<string>,
    identities: seq<Identity>)

  datatype Specificity = Specificity(namesArtifact: bool, fields: nat) {
    predicate AtMost(other: Specificity) {
      || (!namesArtifact && other.namesArtifact)
      || (namesArtifact == other.namesArtifact && fields <= other.fields)
    }

    function Max(other: Specificity): Specificity {
      if AtMost(other) then other else this
    }
  }

  const UNSCOPED := Specificity(false, 0)

  function Count(f: Option<string>): nat {
    if f.Some? then 1 else 0
  }

  function SpecificityOf(r: Resource): Specificity {
    Specificity(r.artifact.Some?, Count(r.os) + Count(r.arch) + Count(r.libc))
  }

  function Both<T>(p: T -> bool, q: T -> bool): T -> bool {
    x => p(x) && q(x)
  }

  lemma {:induction false} FilterTwice<T(!new)>(s: seq<T>, p: T -> bool, q: T -> bool)
    ensures Filter(Filter(s, p), q) == Filter(s, Both(p, q))
  {
    if s != [] {
      FilterTwice(s[..|s| - 1], p, q);
      var front := Filter(s[..|s| - 1], p);
      assert (front + [s[|s| - 1]])[..|front|] == front;
    }
  }

  lemma {:induction false} FilterSame<T(!new)>(s: seq<T>, p: T -> bool, q: T -> bool)
    requires forall x :: x in s ==> (p(x) <==> q(x))
    ensures Filter(s, p) == Filter(s, q)
  {
    if s != [] {
      FilterSame(s[..|s| - 1], p, q);
    }
  }

  function MaxSpecificity(rs: seq<Resource>): (m: Specificity)
    ensures forall r :: r in rs ==> SpecificityOf(r).AtMost(m)
    ensures m == UNSCOPED || exists r :: r in rs && SpecificityOf(r) == m
  {
    if rs == [] then UNSCOPED
    else
      var front, last := rs[..|rs| - 1], rs[|rs| - 1];
      assert rs == front + [last];
      MaxSpecificity(front).Max(SpecificityOf(last))
  }

  function Unscoped(): Resource -> bool {
    (r: Resource) => SpecificityOf(r) == UNSCOPED
  }

  function Sharing(i: Identity): Resource -> bool {
    (r: Resource) => i in r.identities
  }

  function IsMost(m: Specificity): Resource -> bool {
    (r: Resource) => SpecificityOf(r) == m
  }

  /** The most specific of the resources that fit, in document order: with an artifact those that fit
      it, and without one those that are not scoped at all. */
  function Applicable(resources: seq<Resource>, fits: Option<Resource -> bool>): seq<Resource> {
    var fitting := Filter(resources, if fits.Some? then fits.value else Unscoped());
    Filter(fitting, IsMost(MaxSpecificity(fitting)))
  }

  /** No fitting resource that has the identity is scoped more narrowly than `r`. */
  ghost predicate BestFor(resources: seq<Resource>, fits: Resource -> bool, r: Resource, i: Identity) {
    forall o :: o in resources && fits(o) && i in o.identities ==> SpecificityOf(o).AtMost(SpecificityOf(r))
  }

  /** Scanning one identity's resources alone keeps exactly those that are best for it. */
  lemma ApplicableIsBest(resources: seq<Resource>, fits: Resource -> bool, r: Resource, i: Identity)
    ensures r in Applicable(Filter(resources, Sharing(i)), Some(fits)) <==>
            r in resources && fits(r) && i in r.identities && BestFor(resources, fits, r, i)
  {
    var sharing := Filter(resources, Sharing(i));
    var fitting := Filter(sharing, fits);
    forall o: Resource
      ensures o in fitting <==> o in resources && i in o.identities && fits(o)
    {
    }
  }

  /** The per-identity definition: `r` is among the applicable resources of something it describes. */
  ghost predicate ChosenForSome(resources: seq<Resource>, fits: Resource -> bool, r: Resource) {
    exists i :: i in r.identities && r in Applicable(Filter(resources, Sharing(i)), Some(fits))
  }

  ghost function Chosen(resources: seq<Resource>, fits: Resource -> bool): Resource -> bool {
    (r: Resource) => ChosenForSome(resources, fits, r)
  }

  type Table = map<Identity, Specificity>

  /** The table holds each identity's greatest specificity among the resources that have it. */
  ghost predicate IsTable(rs: seq<Resource>, best: Table) {
    && (forall r :: r in rs ==> IsNoted(best, r))
    && (forall i :: i in best ==> IsAttained(rs, i, best[i]))
  }

  predicate IsNoted(best: Table, r: Resource) {
    forall i :: i in r.identities ==> i in best && SpecificityOf(r).AtMost(best[i])
  }

  ghost predicate IsAttained(rs: seq<Resource>, i: Identity, s: Specificity) {
    exists r :: r in rs && i in r.identities && SpecificityOf(r) == s
  }

  /** One identity of one resource, folded into the table. */
  function Note(best: Table, i: Identity, s: Specificity): Table {
    best[i := s.Max(if i in best then best[i] else UNSCOPED)]
  }

  /** `best` is `before` with every identity of `r` noted at its specificity. */
  ghost predicate NotedIn(before: Table, r: Resource, identities: seq<Identity>, best: Table) {
    && (forall i :: i in best <==> i in before || i in identities)
    && (forall i :: i in best ==>
          best[i] == if i in identities then Note(before, i, SpecificityOf(r))[i] else before[i])
  }

  method NoteAll(before: Table, r: Resource) returns (best: Table)
    ensures NotedIn(before, r, r.identities, best)
  {
    best := before;
    for j := 0 to |r.identities|
      invariant NotedIn(before, r, r.identities[..j], best)
    {
      best := Note(best, r.identities[j], SpecificityOf(r));
      assert r.identities[..j + 1] == r.identities[..j] + [r.identities[j]];
    }
    assert r.identities[..|r.identities|] == r.identities;
  }

  method BestTable(rs: seq<Resource>) returns (best: Table)
    ensures IsTable(rs, best)
  {
    best := map[];
    for k := 0 to |rs|
      invariant IsTable(rs[..k], best)
    {
      var r := rs[k];
      ghost var before := best;
      best := NoteAll(best, r);
      Noted(rs[..k], before, r, best);
      assert rs[..k + 1] == rs[..k] + [r];
    }
    assert rs[..|rs|] == rs;
  }

  lemma Noted(rs: seq<Resource>, before: Table, r: Resource, best: Table)
    requires IsTable(rs, before)
    requires NotedIn(before, r, r.identities, best)
    ensures IsTable(rs + [r], best)
  {
    forall i | i in best
      ensures IsAttained(rs + [r], i, best[i])
    {
      if i in r.identities && best[i] == SpecificityOf(r) {
        assert r in rs + [r];
      } else {
        assert i in before && best[i] == before[i];
        var o :| o in rs && i in o.identities && SpecificityOf(o) == before[i];
        assert o in rs + [r];
      }
    }
    forall o | o in rs + [r]
      ensures IsNoted(best, o)
    {
      assert o in rs ==> IsNoted(before, o);
    }
  }

  predicate InTable(best: Table, r: Resource) {
    exists i :: i in r.identities && i in best && best[i] == SpecificityOf(r)
  }

  /** The table's entry for an identity says which resources are best for it. */
  lemma TableIsBest(resources: seq<Resource>, fits: Resource -> bool, best: Table, r: Resource, i: Identity)
    requires IsTable(Filter(resources, fits), best) && r in resources && fits(r) && i in r.identities
    ensures BestFor(resources, fits, r, i) <==> i in best && best[i] == SpecificityOf(r)
  {
    var fitting := Filter(resources, fits);
    assert r in fitting && IsNoted(best, r) && IsAttained(fitting, i, best[i]);
    var o :| o in fitting && i in o.identities && SpecificityOf(o) == best[i];
    assert o in resources && fits(o);
  }

  /** Being best in the table is being chosen for some identity. */
  lemma TableChooses(resources: seq<Resource>, fits: Resource -> bool, best: Table, r: Resource)
    requires IsTable(Filter(resources, fits), best)
    ensures r in resources && fits(r) && InTable(best, r) <==> ChosenForSome(resources, fits, r)
  {
    forall i | i in r.identities
      ensures r in Applicable(Filter(resources, Sharing(i)), Some(fits)) <==>
              r in resources && fits(r) && i in best && best[i] == SpecificityOf(r)
    {
      ApplicableIsBest(resources, fits, r, i);
      if r in resources && fits(r) {
        TableIsBest(resources, fits, best, r, i);
      }
    }
  }

  /** How narrowly a resource is scoped, as one number: naming the artifact outweighs everything else. */
  function Scope(r: Resource): nat {
    (if r.artifact == None then 0 else 4) + (if r.os == None then 0 else 1) + (if r.arch == None then 0 else 1)
    + (if r.libc == None then 0 else 1)
  }

  /** The resource fits, and for something it describes no fitting one is scoped more narrowly. */
  ghost predicate Narrowest(resources: seq<Resource>, fits: Resource -> bool, r: Resource) {
    && r in resources && fits(r)
    && exists i :: i in r.identities && forall o :: o in resources && fits(o) && i in o.identities ==> Scope(o) <= Scope(r)
  }

  lemma ScopeOrders(o: Resource, r: Resource)
    ensures SpecificityOf(o).AtMost(SpecificityOf(r)) <==> Scope(o) <= Scope(r)
  {
  }

  lemma BestByScope(resources: seq<Resource>, fits: Resource -> bool, r: Resource, i: Identity)
    ensures BestFor(resources, fits, r, i) <==> forall o :: o in resources && fits(o) && i in o.identities ==> Scope(o) <= Scope(r)
  {
    forall o
      ensures SpecificityOf(o).AtMost(SpecificityOf(r)) <==> Scope(o) <= Scope(r)
    {
      ScopeOrders(o, r);
    }
  }

  lemma ChosenAreNarrowest(resources: seq<Resource>, fits: Resource -> bool, r: Resource)
    ensures ChosenForSome(resources, fits, r) <==> Narrowest(resources, fits, r)
  {
    forall i | i in r.identities
      ensures r in Applicable(Filter(resources, Sharing(i)), Some(fits)) <==>
        r in resources && fits(r) && forall o :: o in resources && fits(o) && i in o.identities ==> Scope(o) <= Scope(r)
    {
      ApplicableIsBest(resources, fits, r, i);
      BestByScope(resources, fits, r, i);
    }
  }

  /** One pass: a table of the best specificity per identity, and one scan against it. The result is, in
      document order, exactly what the per-identity scans choose: the most narrowly scoped, and without an
      artifact those not scoped at all. */
  method SelectedResources(resources: seq<Resource>, fits: Option<Resource -> bool>) returns (chosen: seq<Resource>)
    ensures fits.Some? ==> chosen == Filter(resources, Chosen(resources, fits.value))
    ensures fits.None? ==> chosen == Applicable(resources, None)
    ensures fits.Some? ==> forall r :: r in chosen <==> Narrowest(resources, fits.value, r)
    ensures fits.None? ==> forall r :: r in chosen <==> r in resources && Scope(r) == 0
  {
    if fits.None? {
      var plain := (r: Resource) => r.artifact.None? && r.os.None? && r.arch.None? && r.libc.None?;
      FilterSame(resources, plain, Unscoped());
      AllUnscoped(resources);
      return Filter(resources, plain);
    }
    var fitting := Filter(resources, fits.value);
    var best := BestTable(fitting);
    var inTable := (r: Resource) => InTable(best, r);
    FilterTwice(resources, fits.value, inTable);
    forall r | r in resources
      ensures Both(fits.value, inTable)(r) <==> Chosen(resources, fits.value)(r)
    {
      TableChooses(resources, fits.value, best, r);
    }
    FilterSame(resources, Both(fits.value, inTable), Chosen(resources, fits.value));
    forall r
      ensures ChosenForSome(resources, fits.value, r) <==> Narrowest(resources, fits.value, r)
    {
      ChosenAreNarrowest(resources, fits.value, r);
    }
    return Filter(fitting, inTable);
  }

  /** Without an artifact the unscoped resources are all equally specific. */
  lemma AllUnscoped(resources: seq<Resource>)
    ensures Applicable(resources, None) == Filter(resources, Unscoped())
  {
    var fitting := Filter(resources, Unscoped());
    forall r | r in fitting
      ensures SpecificityOf(r) == UNSCOPED
    {
    }
    FilterAll(fitting, IsMost(MaxSpecificity(fitting)));
  }

  lemma {:induction false} FilterAll<T(!new)>(s: seq<T>, keep: T -> bool)
    requires forall x :: x in s ==> keep(x)
    ensures Filter(s, keep) == s
  {
    if s != [] {
      FilterAll(s[..|s| - 1], keep);
    }
  }
}
