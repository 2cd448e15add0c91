/** A tool's entries as the lockfile operations see them: the first entry of a key, entries kept, entries
    added where their key is absent. */
module ToolLists {
  import opened Entries
  import opened Wrappers

  /** The first entry of a key. */
  function Find(tools: seq<LockfileTool>, k: ToolKey): Option<LockfileTool> {
    if tools == [] then None
    else
      var front, last := Find(tools[..|tools| - 1], k), tools[|tools| - 1];
      if front.Some? then front else if last.Key() == k then Some(last) else None
  }

  lemma {:induction false} FindIs(tools: seq<LockfileTool>, k: ToolKey)
    ensures Find(tools, k).Some? ==> Find(tools, k).value in tools && Find(tools, k).value.Key() == k
    ensures Find(tools, k).None? ==> forall t :: t in tools ==> t.Key() != k
    ensures DistinctKeys(tools) ==> forall t :: t in tools && t.Key() == k ==> Find(tools, k) == Some(t)
  {
    if tools != [] {
      FindIs(tools[..|tools| - 1], k);
      assert tools == tools[..|tools| - 1] + [tools[|tools| - 1]];
    }
  }

  /** The list with one more entry. */
  lemma FindSnoc(tools: seq<LockfileTool>, t: LockfileTool, k: ToolKey)
    ensures Find(tools + [t], k) == Find(tools, k).Or(if t.Key() == k then Some(t) else None)
  {
    assert (tools + [t])[..|tools|] == tools;
  }

  /** Where the first entry of a key is, or the length. */
  function IndexOf(tools: seq<LockfileTool>, k: ToolKey): (i: nat)
    ensures i <= |tools| && forall j :: 0 <= j < i ==> tools[j].Key() != k
    ensures i < |tools| ==> tools[i].Key() == k
  {
    if tools == [] then 0
    else
      var front, n := IndexOf(tools[..|tools| - 1], k), |tools| - 1;
      if front < n then front else if tools[n].Key() == k then n else n + 1
  }

  method Position(tools: seq<LockfileTool>, k: ToolKey) returns (i: nat)
    ensures i == IndexOf(tools, k)
  {
    i := 0;
    while i < |tools| && tools[i].Key() != k
      invariant i <= |tools| && forall j :: 0 <= j < i ==> tools[j].Key() != k
    {
      i := i + 1;
    }
  }

  lemma {:induction false} FindAtIndex(tools: seq<LockfileTool>, k: ToolKey)
    ensures Find(tools, k) == if IndexOf(tools, k) < |tools| then Some(tools[IndexOf(tools, k)]) else None
  {
    if tools != [] {
      FindAtIndex(tools[..|tools| - 1], k);
    }
  }

  /** Replacing the first entry of a key changes what that key holds and nothing else. */
  lemma FindReplaced(tools: seq<LockfileTool>, t: LockfileTool, k: ToolKey)
    requires IndexOf(tools, t.Key()) < |tools|
    ensures Find(tools[IndexOf(tools, t.Key()) := t], k) == if k == t.Key() then Some(t) else Find(tools, k)
  {
    var i := IndexOf(tools, t.Key());
    var after := tools[i := t];
    FindAtIndex(tools, k);
    FindAtIndex(after, k);
    var j, was := IndexOf(after, k), IndexOf(tools, k);
    assert j < |after| ==> after[j].Key() == tools[j].Key();
    assert was < |after| ==> after[was].Key() == tools[was].Key();
    assert j == was;
  }

  /** The entry in the place of the first of its key, or at the end. */
  lemma FindPut(tools: seq<LockfileTool>, t: LockfileTool, k: ToolKey)
    ensures var i := IndexOf(tools, t.Key());
      Find(if i < |tools| then tools[i := t] else tools + [t], k) == if k == t.Key() then Some(t) else Find(tools, k)
  {
    FindAtIndex(tools, t.Key());
    if IndexOf(tools, t.Key()) < |tools| {
      FindReplaced(tools, t, k);
    } else {
      FindSnoc(tools, t, k);
    }
  }

  // ----- keeping some -----

  lemma {:induction false} FilterDistinct(tools: seq<LockfileTool>, keep: LockfileTool -> bool)
    requires DistinctKeys(tools)
    ensures DistinctKeys(Filter(tools, keep))
  {
    if tools != [] {
      var front, last := tools[..|tools| - 1], tools[|tools| - 1];
      FilterDistinct(front, keep);
      forall t | t in Filter(front, keep)
        ensures t.Key() != last.Key()
      {
        assert t in front;
      }
    }
  }

  lemma {:induction false} FilterShorter(tools: seq<LockfileTool>, keep: LockfileTool -> bool, t: LockfileTool)
    requires t in tools && !keep(t)
    ensures |Filter(tools, keep)| < |tools|
  {
    var front, last := tools[..|tools| - 1], tools[|tools| - 1];
    assert tools == front + [last];
    if t in front {
      FilterShorter(front, keep, t);
    }
  }

  // ----- adding some -----

  /** Entries pushed one after another, each only if no entry has its key yet. */
  function AppendAbsent(tools: seq<LockfileTool>, more: seq<LockfileTool>): (r: seq<LockfileTool>)
    ensures |tools| <= |r| && r[..|tools|] == tools
  {
    if more == [] then tools
    else
      var front, last := AppendAbsent(tools, more[..|more| - 1]), more[|more| - 1];
      if Find(front, last.Key()).Some? then front else front + [last]
  }

  /** Under each key, what was there, else the first of the others. */
  lemma {:induction false} FindAppended(tools: seq<LockfileTool>, more: seq<LockfileTool>, k: ToolKey)
    ensures Find(AppendAbsent(tools, more), k) == Find(tools, k).Or(Find(more, k))
  {
    if more != [] {
      var front, last := more[..|more| - 1], more[|more| - 1];
      FindAppended(tools, front, k);
      FindSnoc(AppendAbsent(tools, front), last, k);
    }
  }

  lemma {:induction false} AppendDistinct(tools: seq<LockfileTool>, more: seq<LockfileTool>)
    requires DistinctKeys(tools)
    ensures DistinctKeys(AppendAbsent(tools, more))
    ensures forall t :: t in AppendAbsent(tools, more) ==> t in tools || t in more
  {
    if more != [] {
      var front, last := more[..|more| - 1], more[|more| - 1];
      AppendDistinct(tools, front);
      FindIs(AppendAbsent(tools, front), last.Key());
      assert more == front + [last];
    }
  }

  // ----- sorting -----

  predicate Sorted(tools: seq<LockfileTool>) {
    forall i, j :: 0 <= i < j < |tools| ==> KeyLe(tools[i].Key(), tools[j].Key())
  }

  function InsertSorted(tools: seq<LockfileTool>, t: LockfileTool): (r: seq<LockfileTool>)
    ensures |r| == |tools| + 1 && forall x :: x in r <==> x in tools || x == t
  {
    if tools == [] then [t]
    else
      var front, last := tools[..|tools| - 1], tools[|tools| - 1];
      assert tools == front + [last];
      if KeyLe(last.Key(), t.Key()) then tools + [t] else InsertSorted(front, t) + [last]
  }

  /** The standard library's stable sort by key. */
  function SortByKey(tools: seq<LockfileTool>): (r: seq<LockfileTool>)
    ensures |r| == |tools| && forall t :: t in r <==> t in tools
  {
    if tools == [] then []
    else
      var front, last := tools[..|tools| - 1], tools[|tools| - 1];
      assert tools == front + [last];
      InsertSorted(SortByKey(front), last)
  }

  lemma {:induction false} InsertKeepsSorted(tools: seq<LockfileTool>, t: LockfileTool)
    requires Sorted(tools)
    ensures Sorted(InsertSorted(tools, t))
  {
    KeysAreOrdered();
    if tools != [] && !KeyLe(tools[|tools| - 1].Key(), t.Key()) {
      var front, last := tools[..|tools| - 1], tools[|tools| - 1];
      InsertKeepsSorted(front, t);
      forall x | x in InsertSorted(front, t)
        ensures KeyLe(x.Key(), last.Key())
      {
        assert x in front || x == t;
      }
    }
  }

  lemma {:induction false} InsertKeepsDistinct(tools: seq<LockfileTool>, t: LockfileTool)
    requires DistinctKeys(tools) && forall x :: x in tools ==> x.Key() != t.Key()
    ensures DistinctKeys(InsertSorted(tools, t))
  {
    if tools != [] {
      var front, last := tools[..|tools| - 1], tools[|tools| - 1];
      assert tools == front + [last];
      InsertKeepsDistinct(front, t);
      forall x | x in InsertSorted(front, t)
        ensures x.Key() != last.Key()
      {
        assert x in front || x == t;
      }
    }
  }

  lemma {:induction false} SortIsSorted(tools: seq<LockfileTool>)
    ensures Sorted(SortByKey(tools))
    ensures DistinctKeys(tools) ==> StrictlySorted(SortByKey(tools)) && DistinctKeys(SortByKey(tools))
  {
    if tools != [] {
      var front, last := tools[..|tools| - 1], tools[|tools| - 1];
      SortIsSorted(front);
      InsertKeepsSorted(SortByKey(front), last);
      if DistinctKeys(tools) {
        forall x | x in SortByKey(front)
          ensures x.Key() != last.Key()
        {
          assert x in front;
        }
        InsertKeepsDistinct(SortByKey(front), last);
      }
    }
  }

  /** Sorting entries of distinct keys moves them and nothing else. */
  lemma FindSorted(tools: seq<LockfileTool>, k: ToolKey)
    requires DistinctKeys(tools)
    ensures Find(SortByKey(tools), k) == Find(tools, k)
  {
    SortIsSorted(tools);
    FindIs(tools, k);
    FindIs(SortByKey(tools), k);
  }
}
