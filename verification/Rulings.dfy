/** How the rulings of several lockfiles combine: nearest first, and all together (src/lockfile.rs, 5906-5920
    and 6054-6069). */
module Rulings {
  import opened Entries
  import opened LockedLookup

  function Union(rulings: seq<Ruling>): Ruling {
    if rulings == [] then Ruling({}, {}, {})
    else
      var front, last := Union(rulings[..|rulings| - 1]), rulings[|rulings| - 1];
      Ruling(front.exact + last.exact, front.optionless + last.optionless, front.unreadable + last.unreadable)
  }

  /** The first that decides or cannot be read; else unclear if any binds the request. */
  ghost function Nearest(rulings: seq<Ruling>): Verdict {
    if rulings == [] then NoPin
    else
      var own, rest := rulings[0].Verdict(), Nearest(rulings[1..]);
      if own.Settles() || rest.NoPin? then own else rest
  }

  /** The first lockfile with exactly one deciding entry, or with none and unreadable ones, is this one. */
  ghost predicate SettlesFirst(rulings: seq<Ruling>, i: int) {
    0 <= i < |rulings| && rulings[i].Verdict().Settles() && forall j :: 0 <= j < i ==> !rulings[j].Verdict().Settles()
  }

  lemma {:induction false} NearestSettles(rulings: seq<Ruling>) returns (i: nat)
    requires Nearest(rulings).Settles()
    ensures SettlesFirst(rulings, i) && Nearest(rulings) == rulings[i].Verdict()
  {
    if rulings[0].Verdict().Settles() {
      i := 0;
    } else {
      i := NearestSettles(rulings[1..]);
      forall j | 0 <= j < i + 1
        ensures !rulings[j].Verdict().Settles()
      {
        assert j > 0 ==> rulings[j] == rulings[1..][j - 1];
      }
      i := i + 1;
    }
  }

  lemma {:induction false} FirstIsNearest(rulings: seq<Ruling>, i: int)
    requires SettlesFirst(rulings, i)
    ensures Nearest(rulings) == rulings[i].Verdict()
  {
    if i > 0 {
      forall j | 0 <= j < i - 1
        ensures !rulings[1..][j].Verdict().Settles()
      {
        assert rulings[1..][j] == rulings[j + 1];
      }
      FirstIsNearest(rulings[1..], i - 1);
    }
  }

  lemma {:induction false} NoneNearest(rulings: seq<Ruling>)
    ensures Nearest(rulings).NoPin? <==> forall i :: 0 <= i < |rulings| ==> rulings[i].Verdict().NoPin?
  {
    if rulings != [] {
      NoneNearest(rulings[1..]);
      assert forall i :: 0 <= i < |rulings[1..]| ==> rulings[1..][i] == rulings[i + 1];
      assert forall i :: 0 < i < |rulings| ==> rulings[i] == rulings[1..][i - 1];
    }
  }

  /** The first lockfile to settle does so by this key. */
  ghost predicate PinsFirst(rulings: seq<Ruling>, i: int, k: ToolKey) {
    SettlesFirst(rulings, i) && rulings[i].Deciding() == {k}
  }

  /** The first lockfile to settle does so because it cannot be read. */
  ghost predicate FailsFirst(rulings: seq<Ruling>, i: int) {
    SettlesFirst(rulings, i) && rulings[i].Deciding() == {}
  }

  lemma NearestIsFirst(rulings: seq<Ruling>, i: int)
    requires SettlesFirst(rulings, i)
    ensures forall k :: Nearest(rulings) == Pin(k) <==> PinsFirst(rulings, i, k)
    ensures Nearest(rulings).Unread? <==> FailsFirst(rulings, i)
  {
    FirstIsNearest(rulings, i);
    VerdictIs(rulings[i]);
  }

  /** Nearest first means: the pin or the failure of the first lockfile that has either, none exactly if no
      lockfile binds the request, and unclear otherwise. */
  lemma NearestMeaning(rulings: seq<Ruling>)
    ensures forall k :: Nearest(rulings) == Pin(k) <==> exists i :: PinsFirst(rulings, i, k)
    ensures Nearest(rulings).Unread? <==> exists i :: FailsFirst(rulings, i)
    ensures Nearest(rulings).NoPin? <==>
      forall i :: 0 <= i < |rulings| ==> rulings[i].Deciding() == {} && rulings[i].unreadable == {}
  {
    NoneNearest(rulings);
    forall i | 0 <= i < |rulings|
      ensures rulings[i].Verdict().NoPin? <==> rulings[i].Deciding() == {} && rulings[i].unreadable == {}
    {
      VerdictIs(rulings[i]);
    }
    forall i | SettlesFirst(rulings, i)
      ensures Nearest(rulings).Settles()
    {
      FirstIsNearest(rulings, i);
    }
    if Nearest(rulings).Settles() {
      var i := NearestSettles(rulings);
      NearestIsFirst(rulings, i);
      forall j | SettlesFirst(rulings, j)
        ensures j == i
      {
        SettlesOnce(rulings, i, j);
      }
    }
  }

  lemma {:induction false} UnionHas(rulings: seq<Ruling>, kind: Kind, k: ToolKey)
    requires !kind.Unbound?
    ensures k in Union(rulings).Of(kind) <==> exists i :: 0 <= i < |rulings| && k in rulings[i].Of(kind)
  {
    if rulings != [] {
      UnionHas(rulings[..|rulings| - 1], kind, k);
    }
  }

  ghost predicate SameMembers<T(!new)>(xs: seq<T>, ys: seq<T>) {
    forall x :: x in xs <==> x in ys
  }

  lemma UnionIsPermuted(all: seq<Ruling>, byPrecedence: seq<Ruling>)
    requires SameMembers(all, byPrecedence)
    ensures Union(all) == Union(byPrecedence)
  {
    forall kind: Kind | !kind.Unbound?
      ensures Union(all).Of(kind) == Union(byPrecedence).Of(kind)
    {
      forall k
        ensures k in Union(all).Of(kind) <==> k in Union(byPrecedence).Of(kind)
      {
        UnionHas(all, kind, k);
        UnionHas(byPrecedence, kind, k);
        assert forall i :: 0 <= i < |all| ==> all[i] in byPrecedence;
        assert forall i :: 0 <= i < |byPrecedence| ==> byPrecedence[i] in all;
      }
    }
    SameRuling(Union(all), Union(byPrecedence));
  }

  lemma SameRuling(a: Ruling, b: Ruling)
    ensures a == b <==> forall kind: Kind :: !kind.Unbound? ==> a.Of(kind) == b.Of(kind)
  {
    assert a.exact == a.Of(Exact) && a.optionless == a.Of(Optionless) && a.unreadable == a.Of(Unreadable);
    assert b.exact == b.Of(Exact) && b.optionless == b.Of(Optionless) && b.unreadable == b.Of(Unreadable);
  }

  /** Each lockfile's ruling is within the union. */
  lemma WithinUnion(rulings: seq<Ruling>, i: nat)
    requires i < |rulings|
    ensures rulings[i].exact <= Union(rulings).exact && rulings[i].optionless <= Union(rulings).optionless
    ensures rulings[i].unreadable <= Union(rulings).unreadable
  {
    forall k
      ensures k in rulings[i].Of(Exact) ==> k in Union(rulings).Of(Exact)
      ensures k in rulings[i].Of(Optionless) ==> k in Union(rulings).Of(Optionless)
      ensures k in rulings[i].Of(Unreadable) ==> k in Union(rulings).Of(Unreadable)
    {
      UnionHas(rulings, Exact, k);
      UnionHas(rulings, Optionless, k);
      UnionHas(rulings, Unreadable, k);
    }
  }

  // ----- all together against nearest first -----

  /** What a merged ruling comes to, with the fallback to the nearest where it is unclear. */
  ghost function Overall(merged: Ruling, byPrecedence: seq<Ruling>): Verdict {
    if merged.Verdict().Unclear? && Nearest(byPrecedence).Settles() then Nearest(byPrecedence) else merged.Verdict()
  }

  predicate SameVersion(v: Verdict, w: Verdict) {
    if v.Pin? && w.Pin? then v.key.version == w.key.version else v == w
  }

  /** The first lockfile that decides has the request without options only, and the single exact binding of
      all lockfiles is to another version: the merged view sees the exact one alone. */
  ghost predicate Outvoted(all: seq<Ruling>, byPrecedence: seq<Ruling>) {
    exists i, k, e :: IsOutvoted(all, byPrecedence, i, k, e)
  }

  ghost predicate IsOutvoted(all: seq<Ruling>, byPrecedence: seq<Ruling>, i: int, k: ToolKey, e: ToolKey) {
    PinsFirst(byPrecedence, i, k) && byPrecedence[i].exact == {} && Union(all).exact == {e} && e.version != k.version
  }

  /** The first lockfile to settle cannot be read, while all together decide. */
  ghost predicate Outread(all: seq<Ruling>, byPrecedence: seq<Ruling>) {
    Union(all).Verdict().Pin? && exists i :: FailsFirst(byPrecedence, i)
  }

  /** Some lockfile binds the request. */
  predicate SomeBinds(rulings: seq<Ruling>) {
    exists i :: 0 <= i < |rulings| && (rulings[i].Deciding() != {} || rulings[i].unreadable != {})
  }

  /** The merged ruling, with the fallback, comes to what nearest-first gives: if one key decides, exactly if
      the first lockfile to settle pins a key of its version; if none does, exactly if no lockfile binds the
      request or, where one cannot be read, the first to settle cannot; and if several do, exactly if some
      lockfile binds it. */
  ghost predicate AgreesByCase(merged: Ruling, byPrecedence: seq<Ruling>) {
    if merged.Deciding() == {} then
      if merged.unreadable == {} then !SomeBinds(byPrecedence) else exists i :: FailsFirst(byPrecedence, i)
    else if exists e :: merged.Deciding() == {e} then
      exists e, i, k :: merged.Deciding() == {e} && PinsFirst(byPrecedence, i, k) && k.version == e.version
    else SomeBinds(byPrecedence)
  }

  lemma OverallByCase(merged: Ruling, byPrecedence: seq<Ruling>)
    ensures SameVersion(Overall(merged, byPrecedence), Nearest(byPrecedence)) <==> AgreesByCase(merged, byPrecedence)
  {
    VerdictIs(merged);
    NearestMeaning(byPrecedence);
    var nearest := Nearest(byPrecedence);
    if merged.Verdict().Pin? {
      var e := merged.Verdict().key;
      forall x | merged.Deciding() == {x}
        ensures x == e
      {
        assert x in {x};
      }
      if nearest.Pin? {
        var i :| PinsFirst(byPrecedence, i, nearest.key);
        forall j, k | PinsFirst(byPrecedence, j, k)
          ensures k == nearest.key
        {
          NearestIsFirst(byPrecedence, j);
        }
      }
    }
  }

  lemma {:induction false} SomeSettles(rulings: seq<Ruling>, s: nat)
    requires s < |rulings| && rulings[s].Verdict().Settles()
    ensures Nearest(rulings).Settles()
  {
    if s > 0 {
      assert rulings[1..][s - 1] == rulings[s];
      SomeSettles(rulings[1..], s - 1);
    }
  }

  /** Where the union pins the request, the first lockfile to settle does so by the same key, or it has no
      exact binding and there is one elsewhere, or it cannot be read. */
  lemma PinnedUnion(rulings: seq<Ruling>, e: ToolKey) returns (i: nat)
    requires Union(rulings).Deciding() == {e}
    ensures SettlesFirst(rulings, i) && Nearest(rulings) == rulings[i].Verdict()
    ensures rulings[i].Verdict().Pin? && rulings[i].Verdict().key != e ==>
      rulings[i].exact == {} && rulings[i].optionless == {rulings[i].Verdict().key} && Union(rulings).exact == {e}
  {
    var union := Union(rulings);
    var kind := if union.exact != {} then Exact else Optionless;
    UnionHas(rulings, kind, e);
    assert e in union.Deciding();
    var s: nat :| s < |rulings| && e in rulings[s].Of(kind);
    WithinUnion(rulings, s);
    assert rulings[s].Deciding() == {e};
    VerdictIs(rulings[s]);
    SomeSettles(rulings, s);
    i := NearestSettles(rulings);
    WithinUnion(rulings, i);
    VerdictIs(rulings[i]);
    if rulings[i].Verdict().Pin? {
      assert rulings[i].Verdict().key in rulings[i].Deciding();
    }
  }

  lemma SettlesOnce(rulings: seq<Ruling>, i: int, j: int)
    requires SettlesFirst(rulings, i) && SettlesFirst(rulings, j)
    ensures i == j
  {
  }

  /** Nothing decides anywhere if and only if nothing does in the union, and then it is read alike too. */
  lemma EmptyUnion(rulings: seq<Ruling>)
    requires Union(rulings).Deciding() == {}
    ensures Nearest(rulings) == Union(rulings).Verdict()
  {
    forall i | 0 <= i < |rulings|
      ensures rulings[i].Deciding() == {}
      ensures rulings[i].Verdict().NoPin? || rulings[i].Verdict().Unread?
      ensures rulings[i].Verdict().NoPin? <==> rulings[i].unreadable == {}
    {
      WithinUnion(rulings, i);
      VerdictIs(rulings[i]);
    }
    VerdictIs(Union(rulings));
    NoneNearest(rulings);
    if k :| k in Union(rulings).unreadable {
      UnionHas(rulings, Unreadable, k);
      var i: nat :| i < |rulings| && k in rulings[i].Of(Unreadable);
      SomeSettles(rulings, i);
      var first := NearestSettles(rulings);
    } else {
      forall i | 0 <= i < |rulings|
        ensures rulings[i].unreadable == {}
      {
        WithinUnion(rulings, i);
      }
    }
  }

  lemma SomethingDecides(rulings: seq<Ruling>)
    requires Union(rulings).Deciding() != {}
    ensures !Nearest(rulings).NoPin?
  {
    var k :| k in Union(rulings).Deciding();
    var kind := if Union(rulings).exact != {} then Exact else Optionless;
    UnionHas(rulings, kind, k);
    var i :| 0 <= i < |rulings| && k in rulings[i].Of(kind);
    VerdictIs(rulings[i]);
    NoneNearest(rulings);
  }

  /** All together, with the fallback, decide as the nearest lockfile that decides, except exactly where that
      one is outvoted or cannot be read. */
  lemma OverallIsNearest(all: seq<Ruling>, byPrecedence: seq<Ruling>)
    requires SameMembers(all, byPrecedence)
    ensures SameVersion(Overall(Union(all), byPrecedence), Nearest(byPrecedence)) <==>
      !Outvoted(all, byPrecedence) && !Outread(all, byPrecedence)
  {
    UnionIsPermuted(all, byPrecedence);
    var union := Union(all);
    VerdictIs(union);
    if union.Deciding() == {} {
      EmptyUnion(byPrecedence);
    } else if union.Verdict().Pin? {
      PinnedIsNearest(all, byPrecedence, union.Verdict().key);
    } else {
      SomethingDecides(byPrecedence);
      assert forall e :: union.exact == {e} ==> union.Deciding() == {e};
    }
  }

  lemma PinnedIsNearest(all: seq<Ruling>, byPrecedence: seq<Ruling>, e: ToolKey)
    requires Union(all) == Union(byPrecedence) && Union(all).Deciding() == {e}
    ensures SameVersion(Pin(e), Nearest(byPrecedence)) <==> !Outvoted(all, byPrecedence) && !Outread(all, byPrecedence)
  {
    var i := PinnedUnion(byPrecedence, e);
    VerdictIs(Union(all));
    NearestIsFirst(byPrecedence, i);
    forall j | SettlesFirst(byPrecedence, j)
      ensures j == i
    {
      SettlesOnce(byPrecedence, i, j);
    }
    forall j, l, x | IsOutvoted(all, byPrecedence, j, l, x)
      ensures Nearest(byPrecedence) == Pin(l) && x == e && l.version != e.version
    {
      OutvotedIs(all, byPrecedence, j, l, x);
    }
    if Nearest(byPrecedence).Unread? {
      assert FailsFirst(byPrecedence, i);
    } else {
      var k := Nearest(byPrecedence).key;
      assert PinsFirst(byPrecedence, i, k);
      assert k.version != e.version ==> IsOutvoted(all, byPrecedence, i, k, e);
    }
  }

  lemma OutvotedIs(all: seq<Ruling>, byPrecedence: seq<Ruling>, i: int, k: ToolKey, e: ToolKey)
    requires IsOutvoted(all, byPrecedence, i, k, e)
    ensures Nearest(byPrecedence) == Pin(k) && Union(all).Verdict() == Pin(e)
  {
    NearestIsFirst(byPrecedence, i);
    VerdictIs(Union(all));
    assert Union(all).Deciding() == {e};
  }
}
