/**
 The provenance a lockfile ends up with for one entry and platform after any sequence of
 `set_platform_info` calls (src/lockfile.rs, 2200-2342).
 */
module ProvenanceHistory {
  import opened Wrappers
  import opened Records

  /** A call as an install makes it: a downloaded artifact, with its URL and checksum. */
  predicate IsDownload(c: PlatformInfo) {
    c.url.Some? && c.checksum.Some? && c.install.None?
  }

  predicate Downloads(calls: seq<PlatformInfo>) {
    calls != [] && forall c :: c in calls ==> IsDownload(c)
  }

  /** The record after the calls: the first is stored as it is, each later one updates what is there. */
  function Stored(calls: seq<PlatformInfo>): PlatformInfo
    requires calls != []
  {
    var n := |calls| - 1;
    if n == 0 then calls[0] else calls[n].Update(Stored(calls[..n]))
  }

  /** The later call is for the same URL, and its checksum does not show other bytes. */
  predicate Linked(before: PlatformInfo, after: PlatformInfo) {
    before.url == after.url && !ChecksumChanged(before.checksum, after.checksum)
  }

  /** Where the last stretch of linked calls begins. */
  function LinkedFrom(calls: seq<PlatformInfo>): (from: nat)
    requires calls != []
    ensures from < |calls|
  {
    var n := |calls| - 1;
    if n > 0 && Linked(calls[n - 1], calls[n]) then LinkedFrom(calls[..n]) else n
  }

  /** `LinkedFrom` is the start of the longest such stretch. */
  lemma {:induction false} LinkedFromIsMaximal(calls: seq<PlatformInfo>)
    requires calls != []
    ensures forall i :: LinkedFrom(calls) < i < |calls| ==> Linked(calls[i - 1], calls[i])
    ensures LinkedFrom(calls) > 0 ==> !Linked(calls[LinkedFrom(calls) - 1], calls[LinkedFrom(calls)])
  {
    var n := |calls| - 1;
    if n > 0 && Linked(calls[n - 1], calls[n]) {
      LinkedFromIsMaximal(calls[..n]);
    }
  }

  function Stronger(p: Option<Provenance>, q: Option<Provenance>): Option<Provenance> {
    if p.Some? && q.Some? then Some(p.value.Merge(q.value)) else p.Or(q)
  }

  /** The merge of the calls' provenance, each over those before it. */
  function MergedProvenance(calls: seq<PlatformInfo>): Option<Provenance> {
    if calls == [] then None
    else Stronger(calls[|calls| - 1].provenance, MergedProvenance(calls[..|calls| - 1]))
  }

  lemma UpdateByDownload(c: PlatformInfo, existing: PlatformInfo)
    requires IsDownload(c) && IsDownload(existing)
    ensures var u := c.Update(existing);
      && IsDownload(u) && u.url == c.url && u.checksum == c.checksum
      && u.provenance == if Linked(existing, c) then Stronger(c.provenance, existing.provenance) else c.provenance
  {
  }

  /** The stored URL and checksum are always the last call's, and the stored provenance is the merge over
      exactly the last stretch of linked calls. */
  lemma {:induction false} StoredProvenance(calls: seq<PlatformInfo>)
    requires Downloads(calls)
    ensures IsDownload(Stored(calls))
    ensures Stored(calls).url == calls[|calls| - 1].url && Stored(calls).checksum == calls[|calls| - 1].checksum
    ensures Stored(calls).provenance == MergedProvenance(calls[LinkedFrom(calls)..])
  {
    var n := |calls| - 1;
    assert calls[n] in calls;
    TailMerge(calls, LinkedFrom(calls));
    if n > 0 {
      var front := calls[..n];
      StoredProvenance(front);
      UpdateByDownload(calls[n], Stored(front));
    }
  }

  lemma TailMerge(calls: seq<PlatformInfo>, from: nat)
    requires from < |calls|
    ensures MergedProvenance(calls[from..]) ==
            Stronger(calls[|calls| - 1].provenance, MergedProvenance(calls[..|calls| - 1][from..]))
  {
    var tail := calls[from..];
    assert tail[..|tail| - 1] == calls[..|calls| - 1][from..];
  }

  lemma StrongerIsMax(p: Option<Provenance>, q: Option<Provenance>)
    ensures Rank(Stronger(p, q)) == if Rank(p) < Rank(q) then Rank(q) else Rank(p)
  {
    if p.Some? && q.Some? {
      MergeIsMax(p.value, q.value);
    }
  }

  /** Its strength is the greatest of the stretch: no call's is greater, and some call's is as great. */
  lemma {:induction false} MergedProvenanceIsStrongest(calls: seq<PlatformInfo>)
    ensures forall i :: 0 <= i < |calls| ==> Rank(calls[i].provenance) <= Rank(MergedProvenance(calls))
    ensures calls != [] ==> exists i :: 0 <= i < |calls| && Rank(calls[i].provenance) == Rank(MergedProvenance(calls))
  {
    if calls != [] {
      var n := |calls| - 1;
      var front := calls[..n];
      MergedProvenanceIsStrongest(front);
      StrongerIsMax(calls[n].provenance, MergedProvenance(front));
      assert forall i :: 0 <= i < n ==> front[i] == calls[i];
      if front == [] || Rank(calls[n].provenance) >= Rank(MergedProvenance(front)) {
        assert Rank(calls[n].provenance) == Rank(MergedProvenance(calls));
      } else {
        var i :| 0 <= i < n && Rank(front[i].provenance) == Rank(MergedProvenance(front));
        assert Rank(calls[i].provenance) == Rank(MergedProvenance(calls));
      }
    }
  }

  /** When it is SLSA, its URL is the latest one that a call of the stretch gave. */
  lemma {:induction false} SlsaUrlIsLatest(calls: seq<PlatformInfo>, i: int, u: string)
    requires LastSlsaUrl(calls, i, u) && Rank(MergedProvenance(calls)) == 3
    ensures MergedProvenance(calls) == Some(Slsa(Some(u)))
  {
    var n := |calls| - 1;
    var front := calls[..n];
    var p, q := calls[n].provenance, MergedProvenance(front);
    if p.Some? && q.Some? {
      MergeIsMax(p.value, q.value);
    }
    MergedProvenanceIsStrongest(front);
    if i < n {
      assert front[i] == calls[i];
      SlsaUrlIsLatest(front, i, u);
    }
  }

  /** The i-th call gave the SLSA URL `u`, and no later call gave one. */
  predicate LastSlsaUrl(calls: seq<PlatformInfo>, i: int, u: string) {
    && 0 <= i < |calls| && calls[i].provenance == Some(Slsa(Some(u)))
    && forall j :: i < j < |calls| ==>
         calls[j].provenance.Some? && calls[j].provenance.value.Slsa? ==> calls[j].provenance.value.url.None?
  }

  // ----- when the stretch is the calls for the bytes now recorded -----

  /** Same URL, and the same checksum ignoring case. */
  predicate Agrees(a: PlatformInfo, b: PlatformInfo)
    requires a.checksum.Some? && b.checksum.Some?
  {
    a.url == b.url && Lower(a.checksum.value) == Lower(b.checksum.value)
  }

  lemma AgreementLinks(a: PlatformInfo, b: PlatformInfo)
    requires a.checksum.Some? && b.checksum.Some? && Agrees(a, b)
    ensures Linked(a, b)
  {
    LowerSplit(a.checksum.value, b.checksum.value);
  }

  /** Where the last stretch of calls that all agree with the last one begins. */
  function AgreeingFrom(calls: seq<PlatformInfo>): (from: nat)
    requires Downloads(calls)
    ensures from < |calls|
  {
    var n := |calls| - 1;
    assert calls[n] in calls;
    if n > 0 && (assert calls[n - 1] in calls; Agrees(calls[n - 1], calls[n])) then AgreeingFrom(calls[..n]) else n
  }

  lemma {:induction false} AgreeingFromIsMaximal(calls: seq<PlatformInfo>)
    requires Downloads(calls)
    ensures forall i :: 0 <= i < |calls| ==> IsDownload(calls[i])
    ensures forall i :: AgreeingFrom(calls) <= i < |calls| ==> Agrees(calls[i], calls[|calls| - 1])
    ensures AgreeingFrom(calls) > 0 ==> !Agrees(calls[AgreeingFrom(calls) - 1], calls[|calls| - 1])
  {
    var n := |calls| - 1;
    assert calls[n] in calls;
    if n > 0 {
      assert calls[n - 1] in calls;
      if Agrees(calls[n - 1], calls[n]) {
        AgreeingFromIsMaximal(calls[..n]);
      }
    }
  }

  lemma {:induction false} AgreeingCallsAreLinked(calls: seq<PlatformInfo>)
    requires Downloads(calls)
    ensures LinkedFrom(calls) <= AgreeingFrom(calls)
  {
    var n := |calls| - 1;
    assert calls[n] in calls;
    if n > 0 {
      assert calls[n - 1] in calls;
      if Agrees(calls[n - 1], calls[n]) {
        AgreementLinks(calls[n - 1], calls[n]);
        AgreeingCallsAreLinked(calls[..n]);
      }
    }
  }

  /** The linked stretch is the agreeing one if and only if the call before that differs in the URL, or in the
      bytes named by the same algorithm. */
  lemma StretchesCoincide(calls: seq<PlatformInfo>)
    requires Downloads(calls)
    ensures var from := AgreeingFrom(calls);
      LinkedFrom(calls) == from <==> from == 0 || !Linked(calls[from - 1], calls[from])
  {
    AgreeingCallsAreLinked(calls);
    LinkedFromIsMaximal(calls);
  }

  lemma StrongerIsAssociative(p: Option<Provenance>, q: Option<Provenance>, r: Option<Provenance>)
    ensures Stronger(Stronger(p, q), r) == Stronger(p, Stronger(q, r))
  {
    if p.Some? && q.Some? && r.Some? {
      MergeIsAssociative(p.value, q.value, r.value);
    }
  }

  lemma {:induction false} MergedInTwo(calls: seq<PlatformInfo>, from: nat)
    requires from <= |calls|
    ensures MergedProvenance(calls) == Stronger(MergedProvenance(calls[from..]), MergedProvenance(calls[..from]))
  {
    if from == |calls| {
      assert calls[from..] == [] && calls[..from] == calls;
    } else {
      var n := |calls| - 1;
      var front := calls[..n];
      MergedInTwo(front, from);
      TailMerge(calls, from);
      assert front[..from] == calls[..from];
      StrongerIsAssociative(calls[n].provenance, MergedProvenance(front[from..]), MergedProvenance(calls[..from]));
    }
  }

  /** Merging `q` under `p` changes nothing: `p` is stronger, or as strong and with as much of a SLSA URL. */
  predicate Outweighs(p: Option<Provenance>, q: Option<Provenance>) {
    || q.None?
    || (p.Some? && Rank(q) < Rank(p))
    || (p.Some? && Rank(q) == Rank(p) && (p.value.Slsa? ==> p.value.url.Some? || q.value.url.None?))
  }

  lemma OutweighsIs(p: Option<Provenance>, q: Option<Provenance>)
    ensures Stronger(p, q) == p <==> Outweighs(p, q)
  {
  }

  /** The stored provenance is the merge over exactly the calls that agree with the last one on URL and
      checksum, if and only if what the linked calls before them gave is outweighed by it. */
  lemma OnlyAgreeingCallsCount(calls: seq<PlatformInfo>)
    requires Downloads(calls)
    ensures LinkedFrom(calls) <= AgreeingFrom(calls)
    ensures var agreeing := MergedProvenance(calls[AgreeingFrom(calls)..]);
      Stored(calls).provenance == agreeing <==>
      Outweighs(agreeing, MergedProvenance(calls[LinkedFrom(calls)..AgreeingFrom(calls)]))
  {
    AgreeingCallsAreLinked(calls);
    StoredProvenance(calls);
    TailInTwo(calls, LinkedFrom(calls), AgreeingFrom(calls));
    OutweighsIs(MergedProvenance(calls[AgreeingFrom(calls)..]),
                MergedProvenance(calls[LinkedFrom(calls)..AgreeingFrom(calls)]));
  }

  lemma TailInTwo(calls: seq<PlatformInfo>, start: nat, from: nat)
    requires start <= from <= |calls|
    ensures MergedProvenance(calls[start..]) == Stronger(MergedProvenance(calls[from..]), MergedProvenance(calls[start..from]))
  {
    var tail := calls[start..];
    MergedInTwo(tail, from - start);
    assert tail[from - start..] == calls[from..] && tail[..from - start] == calls[start..from];
  }

  /** When every call's checksum is of one algorithm, the two stretches are one. */
  lemma {:induction false} OneAlgorithm(calls: seq<PlatformInfo>, algorithm: string)
    requires Downloads(calls)
    requires forall c :: c in calls ==>
      SplitColon(c.checksum.value).Some? && Lower(SplitColon(c.checksum.value).value.0) == algorithm
    ensures LinkedFrom(calls) == AgreeingFrom(calls)
  {
    AgreeingFromIsMaximal(calls);
    var from := AgreeingFrom(calls);
    if from > 0 {
      var a, b := calls[from - 1], calls[from];
      if Linked(a, b) {
        JoinSplit(a.checksum.value);
        JoinSplit(b.checksum.value);
      }
    }
    StretchesCoincide(calls);
  }

  lemma {:induction false} JoinSplit(s: string)
    requires SplitColon(s).Some?
    ensures Lower(s) == Lower(SplitColon(s).value.0) + ":" + Lower(SplitColon(s).value.1)
  {
    if s[0] != ':' {
      JoinSplit(s[1..]);
      LowerCons(s[0], SplitColon(s[1..]).value.0);
    }
  }

  /** With two algorithms it can fail: a checksum that cannot be compared in between carries provenance
      from one artifact's bytes to another's. */
  lemma ProvenanceCrossesAlgorithms(a: PlatformInfo, b: PlatformInfo, c: PlatformInfo, first: string, second: string,
                                    h: string, h': string, h'': string)
    requires IsDownload(a) && IsDownload(b) && IsDownload(c) && a.url == b.url == c.url
    requires ':' !in first && ':' !in second && Lower(first) != Lower(second) && Lower(h) != Lower(h'')
    requires a.checksum.value == first + ":" + h && b.checksum.value == second + ":" + h'
    requires c.checksum.value == first + ":" + h''
    requires a.provenance.Some? && b.provenance.None? && c.provenance.None?
    ensures ChecksumChanged(a.checksum, c.checksum) && Stored([a, b, c]).provenance == a.provenance
  {
    Comparable(first, h, first, h'');
    assert Linked(a, b) by {
      Comparable(first, h, second, h');
    }
    assert Linked(b, c) by {
      Comparable(second, h', first, h'');
    }
    CarriedAlong(a, b, c);
  }

  lemma CarriedAlong(a: PlatformInfo, b: PlatformInfo, c: PlatformInfo)
    requires IsDownload(a) && IsDownload(b) && IsDownload(c) && Linked(a, b) && Linked(b, c)
    requires b.provenance.None? && c.provenance.None?
    ensures Stored([a, b, c]).provenance == a.provenance
  {
    UpdateByDownload(b, a);
    UpdateByDownload(c, b.Update(a));
    assert [a, b, c][..2] == [a, b] && [a, b][..1] == [a];
    assert Stored([a, b]) == b.Update(a);
    assert Stored([a, b, c]) == c.Update(b.Update(a));
  }

  lemma Comparable(algorithm: string, hash: string, algorithm': string, hash': string)
    requires ':' !in algorithm && ':' !in algorithm'
    ensures ChecksumChanged(Some(algorithm + ":" + hash), Some(algorithm' + ":" + hash')) <==>
            Lower(algorithm) == Lower(algorithm') && Lower(hash) != Lower(hash')
  {
    SplitAt(algorithm, hash);
    SplitAt(algorithm', hash');
  }

  lemma {:induction false} SplitAt(before: string, after: string)
    requires ':' !in before
    ensures SplitColon(before + ":" + after) == Some((before, after))
  {
    var s := before + ":" + after;
    if before == "" {
      assert s[1..] == after;
    } else {
      SplitAt(before[1..], after);
      assert s[1..] == before[1..] + ":" + after;
      assert before == [before[0]] + before[1..];
    }
  }
}
