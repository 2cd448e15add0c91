/**
 The restricted edit distance behind "did you mean" (src/fuzzy.rs): the smallest number of letters
 inserted, deleted, substituted or swapped with their neighbour, where a letter is edited at most once.
 */
module EditDistance {
  import opened Wrappers

  /** One column of an edit script: the letters it takes from the source and gives to the target. */
  datatype Edit =
    | Keep(c: char)
    | Insert(c: char)
    | Delete(c: char)
    | Substitute(c: char, d: char)
    | Swap(c: char, d: char)
  {
    function Takes(): string {
      match this
      case Keep(c) => [c]
      case Insert(_) => []
      case Delete(c) => [c]
      case Substitute(c, _) => [c]
      case Swap(c, d) => [c, d]
    }

    function Gives(): string {
      match this
      case Keep(c) => [c]
      case Insert(c) => [c]
      case Delete(_) => []
      case Substitute(_, d) => [d]
      case Swap(c, d) => [d, c]
    }

    function Cost(): nat {
      if Keep? then 0 else 1
    }

    /** The edit that undoes this one. */
    function Inverse(): Edit {
      match this
      case Keep(c) => Keep(c)
      case Insert(c) => Delete(c)
      case Delete(c) => Insert(c)
      case Substitute(c, d) => Substitute(d, c)
      case Swap(c, d) => Swap(d, c)
    }
  }

  /** An edit script, column by column from the left. */
  datatype Script = Start | Then(front: Script, last: Edit)

  function Source(script: Script): string {
    match script
    case Start => ""
    case Then(front, last) => Source(front) + last.Takes()
  }

  function Target(script: Script): string {
    match script
    case Start => ""
    case Then(front, last) => Target(front) + last.Gives()
  }

  function Cost(script: Script): nat {
    match script
    case Start => 0
    case Then(front, last) => Cost(front) + last.Cost()
  }

  predicate Turns(script: Script, a: string, b: string) {
    Source(script) == a && Target(script) == b
  }

  /** `n` is the least cost of any script that turns `a` into `b`. */
  ghost predicate IsDistance(n: nat, a: string, b: string) {
    && (exists script :: Turns(script, a, b) && Cost(script) == n)
    && (forall script :: Turns(script, a, b) ==> n <= Cost(script))
  }

  lemma DistanceExists(a: string, b: string)
    ensures exists n :: IsDistance(n, a, b)
  {
    var script := Retype(a, b);
    var n := LeastUpTo(a, b, script);
  }

  /** Everything substituted letter by letter from the left, and then the rest deleted or inserted. */
  lemma {:induction false} Retype(a: string, b: string) returns (script: Script)
    ensures Turns(script, a, b) && Cost(script) <= if |a| < |b| then |b| else |a|
    decreases |a| + |b|
  {
    if a == "" && b == "" {
      script := Start;
    } else if |a| < |b| {
      script := Retype(a, b[..|b| - 1]);
      script := Then(script, Insert(b[|b| - 1]));
      Snoc(b);
    } else if |b| < |a| {
      script := Retype(a[..|a| - 1], b);
      script := Then(script, Delete(a[|a| - 1]));
      Snoc(a);
    } else {
      script := Retype(a[..|a| - 1], b[..|b| - 1]);
      script := Then(script, Substitute(a[|a| - 1], b[|b| - 1]));
      Snoc(a);
      Snoc(b);
    }
  }

  lemma Snoc(s: string)
    requires s != ""
    ensures s == s[..|s| - 1] + [s[|s| - 1]]
  {
  }

  lemma {:induction false} LeastUpTo(a: string, b: string, script: Script) returns (n: nat)
    requires Turns(script, a, b)
    ensures IsDistance(n, a, b)
    decreases Cost(script)
  {
    if better :| Turns(better, a, b) && Cost(better) < Cost(script) {
      n := LeastUpTo(a, b, better);
    } else {
      n := Cost(script);
    }
  }

  ghost function Distance(a: string, b: string): (n: nat)
    ensures IsDistance(n, a, b)
  {
    DistanceExists(a, b);
    var n :| IsDistance(n, a, b);
    n
  }

  lemma BestScript(a: string, b: string) returns (script: Script)
    ensures Turns(script, a, b) && Cost(script) == Distance(a, b)
  {
    var n := Distance(a, b);
    assert IsDistance(n, a, b);
    script :| Turns(script, a, b) && Cost(script) == n;
  }

  // ----- the distance by its last letters -----

  /** The last two letters of each are the other's, swapped. */
  predicate EndsSwapped(a: string, b: string) {
    && |a| > 1 && |b| > 1
    && a[|a| - 1] == b[|b| - 2] && a[|a| - 2] == b[|b| - 1]
  }

  function Min(x: nat, y: nat): nat {
    if y < x then y else x
  }

  /** What the table puts in the cell of `a` and `b`, given the cells before it. */
  ghost function CellValue(a: string, b: string): nat
    requires a != "" && b != ""
  {
    var a1, b1 := a[..|a| - 1], b[..|b| - 1];
    var cost := if a[|a| - 1] != b[|b| - 1] then 1 else 0;
    var plain := Min(Min(Distance(a1, b) + 1, Distance(a, b1) + 1), Distance(a1, b1) + cost);
    if EndsSwapped(a, b) then Min(plain, Distance(a[..|a| - 2], b[..|b| - 2]) + 1) else plain
  }

  /** One more edit after the best script for what comes before it. */
  lemma OneMore(a: string, b: string, last: Edit, a': string, b': string)
    requires a' == a + last.Takes() && b' == b + last.Gives()
    ensures Distance(a', b') <= Distance(a, b) + last.Cost()
  {
    var script := BestScript(a, b);
    var longer := Then(script, last);
    assert Turns(longer, a', b');
  }

  lemma AtMostCell(a: string, b: string)
    requires a != "" && b != ""
    ensures Distance(a, b) <= CellValue(a, b)
  {
    LastLetters(a, b);
    if EndsSwapped(a, b) {
      LastSwap(a, b);
    }
  }

  lemma LastLetters(a: string, b: string)
    requires a != "" && b != ""
    ensures Distance(a, b) <= Distance(a[..|a| - 1], b) + 1
    ensures Distance(a, b) <= Distance(a, b[..|b| - 1]) + 1
    ensures Distance(a, b) <= Distance(a[..|a| - 1], b[..|b| - 1]) + if a[|a| - 1] != b[|b| - 1] then 1 else 0
  {
    var x, y, a1, b1 := a[|a| - 1], b[|b| - 1], a[..|a| - 1], b[..|b| - 1];
    assert a == a1 + [x] && b == b1 + [y];
    OneMore(a1, b, Delete(x), a, b);
    OneMore(a, b1, Insert(y), a, b);
    OneMore(a1, b1, if x == y then Keep(x) else Substitute(x, y), a, b);
  }

  lemma LastSwap(a: string, b: string)
    requires EndsSwapped(a, b)
    ensures Distance(a, b) <= Distance(a[..|a| - 2], b[..|b| - 2]) + 1
  {
    var x, y := a[|a| - 1], b[|b| - 1];
    assert a == a[..|a| - 2] + [y, x] && b == b[..|b| - 2] + [x, y];
    OneMore(a[..|a| - 2], b[..|b| - 2], Swap(y, x), a, b);
  }

  /** The best script's last edit is one of those the table considers. */
  lemma AtLeastCell(a: string, b: string)
    requires a != "" && b != ""
    ensures Distance(a, b) >= CellValue(a, b)
  {
    var script := BestScript(a, b);
    var front, last := script.front, script.last;
    var a0, b0 := Source(front), Target(front);
    assert Turns(front, a0, b0);
    assert Distance(a0, b0) + last.Cost() <= Distance(a, b);
    LastEdit(a0, b0, last, a, b);
  }

  lemma LastEdit(a0: string, b0: string, last: Edit, a: string, b: string)
    requires a == a0 + last.Takes() && b == b0 + last.Gives() && a != "" && b != ""
    ensures CellValue(a, b) <= Distance(a0, b0) + last.Cost()
  {
    assert a0 == a[..|a| - |last.Takes()|] && b0 == b[..|b| - |last.Gives()|];
    assert last.Insert? ==> a0 == a;
    assert last.Delete? ==> b0 == b;
    assert last.Swap? ==> EndsSwapped(a, b);
  }

  lemma Edges(a: string)
    ensures Distance(a, "") == |a| && Distance("", a) == |a|
  {
    Bounds(a, "");
    Bounds("", a);
  }

  lemma {:induction false} LengthsDiffer(script: Script)
    ensures |Source(script)| <= |Target(script)| + Cost(script)
    ensures |Target(script)| <= |Source(script)| + Cost(script)
  {
    if script.Then? {
      LengthsDiffer(script.front);
    }
  }

  /** The rule by which the table of src/fuzzy.rs is filled, as a property of a function of two prefix
      lengths. */
  ghost predicate FillsTable(a: string, b: string, dist: (nat, nat) -> nat) {
    && (forall i :: 0 <= i <= |a| ==> dist(i, 0) == i)
    && (forall j :: 0 <= j <= |b| ==> dist(0, j) == j)
    && (forall i, j {:trigger FromNeighbours(a, b, dist, i, j)} ::
          0 < i <= |a| && 0 < j <= |b| ==> dist(i, j) == FromNeighbours(a, b, dist, i, j))
  }

  ghost function FromNeighbours(a: string, b: string, dist: (nat, nat) -> nat, i: nat, j: nat): nat
    requires 0 < i <= |a| && 0 < j <= |b|
  {
    var cost := if a[i - 1] != b[j - 1] then 1 else 0;
    var plain := Min(Min(dist(i - 1, j) + 1, dist(i, j - 1) + 1), dist(i - 1, j - 1) + cost);
    if i > 1 && j > 1 && a[i - 1] == b[j - 2] && a[i - 2] == b[j - 1]
    then Min(plain, dist(i - 2, j - 2) + 1) else plain
  }

  ghost function PrefixDistance(a: string, b: string): (nat, nat) -> nat {
    (i: nat, j: nat) => if i <= |a| && j <= |b| then Distance(a[..i], b[..j]) else 0
  }

  /** The distances of the prefixes obey the table's rule. */
  lemma DistancesFillTable(a: string, b: string)
    ensures FillsTable(a, b, PrefixDistance(a, b))
  {
    var dist := PrefixDistance(a, b);
    forall i | 0 <= i <= |a|
      ensures dist(i, 0) == i
    {
      Edges(a[..i]);
    }
    forall j | 0 <= j <= |b|
      ensures dist(0, j) == j
    {
      Edges(b[..j]);
    }
    forall i, j {:trigger FromNeighbours(a, b, dist, i, j)} | 0 < i <= |a| && 0 < j <= |b|
      ensures dist(i, j) == FromNeighbours(a, b, dist, i, j)
    {
      DistanceFromNeighbours(a, b, i, j);
    }
  }

  lemma DistanceFromNeighbours(a: string, b: string, i: nat, j: nat)
    requires 0 < i <= |a| && 0 < j <= |b|
    ensures PrefixDistance(a, b)(i, j) == FromNeighbours(a, b, PrefixDistance(a, b), i, j)
  {
    TableStep(a, b, i, j);
  }

  /** The first column and the first row. */
  method FillEdges(d: array2<nat>)
    requires d.Length0 > 0 && d.Length1 > 0
    modifies d
    ensures forall p :: 0 <= p < d.Length0 ==> d[p, 0] == p
    ensures forall q :: 0 <= q < d.Length1 ==> d[0, q] == q
  {
    for i := 0 to d.Length0
      invariant forall k :: 0 <= k < i ==> d[k, 0] == k
    {
      d[i, 0] := i;
    }
    for j := 0 to d.Length1
      invariant forall k :: 0 <= k < j ==> d[0, k] == k
      invariant forall k :: 0 <= k < d.Length0 ==> d[k, 0] == k
    {
      d[0, j] := j;
    }
  }

  /** The nested loops of src/fuzzy.rs: the table's corner, for any function that obeys its rule. */
  method FillTable(a: string, b: string, ghost dist: (nat, nat) -> nat) returns (n: nat)
    requires FillsTable(a, b, dist)
    ensures n == dist(|a|, |b|)
  {
    var d := new nat[|a| + 1, |b| + 1]((_, _) => 0);
    FillEdges(d);
    for i := 1 to |a| + 1
      invariant forall p, q :: 0 <= p < i && 0 <= q <= |b| ==> d[p, q] == dist(p, q)
      invariant forall p :: 0 <= p <= |a| ==> d[p, 0] == p
    {
      for j := 1 to |b| + 1
        invariant forall p, q :: 0 <= p < i && 0 <= q <= |b| ==> d[p, q] == dist(p, q)
        invariant forall q :: 0 <= q < j ==> d[i, q] == dist(i, q)
        invariant forall p :: 0 <= p <= |a| ==> d[p, 0] == p
      {
        var cost := if a[i - 1] != b[j - 1] then 1 else 0;
        d[i, j] := Min(Min(d[i - 1, j] + 1, d[i, j - 1] + 1), d[i - 1, j - 1] + cost);
        if i > 1 && j > 1 && a[i - 1] == b[j - 2] && a[i - 2] == b[j - 1] {
          d[i, j] := Min(d[i, j], d[i - 2, j - 2] + 1);
        }
        assert d[i, j] == FromNeighbours(a, b, dist, i, j);
      }
    }
    n := d[|a|, |b|];
  }

  /** The table's corner is the least cost of any restricted edit script. */
  method OsaDistance(a: string, b: string) returns (n: nat)
    ensures IsDistance(n, a, b)
    ensures n == Distance(a, b)
  {
    DistancesFillTable(a, b);
    n := FillTable(a, b, PrefixDistance(a, b));
    assert a[..|a|] == a && b[..|b|] == b;
  }

  /** One cell of the table in terms of the cells before it. */
  lemma TableStep(a: string, b: string, i: nat, j: nat)
    requires 0 < i <= |a| && 0 < j <= |b|
    ensures
      var cost := if a[i - 1] != b[j - 1] then 1 else 0;
      var plain := Min(Min(Distance(a[..i - 1], b[..j]) + 1, Distance(a[..i], b[..j - 1]) + 1),
                       Distance(a[..i - 1], b[..j - 1]) + cost);
      Distance(a[..i], b[..j]) ==
        if i > 1 && j > 1 && a[i - 1] == b[j - 2] && a[i - 2] == b[j - 1]
        then Min(plain, Distance(a[..i - 2], b[..j - 2]) + 1) else plain
  {
    var p, q := a[..i], b[..j];
    assert p[..i - 1] == a[..i - 1] && q[..j - 1] == b[..j - 1];
    if i > 1 && j > 1 {
      assert p[..i - 2] == a[..i - 2] && q[..j - 2] == b[..j - 2];
    }
    AtMostCell(p, q);
    AtLeastCell(p, q);
  }

  // ----- what the distance means -----

  lemma {:induction false} InverseScript(script: Script) returns (back: Script)
    ensures Turns(back, Target(script), Source(script)) && Cost(back) == Cost(script)
  {
    if script.Start? {
      back := Start;
    } else {
      var front := InverseScript(script.front);
      back := Then(front, script.last.Inverse());
    }
  }

  lemma Symmetric(a: string, b: string)
    ensures Distance(a, b) == Distance(b, a)
  {
    NoMoreThanBack(a, b);
    NoMoreThanBack(b, a);
  }

  lemma NoMoreThanBack(a: string, b: string)
    ensures Distance(a, b) <= Distance(b, a)
  {
    var script := BestScript(b, a);
    var back := InverseScript(script);
    assert Turns(back, a, b);
  }

  lemma {:induction false} FreeScriptIsIdentity(script: Script)
    requires Cost(script) == 0
    ensures Source(script) == Target(script)
  {
    if script.Then? {
      FreeScriptIsIdentity(script.front);
    }
  }

  /** Keeping what follows costs nothing. */
  lemma {:induction false} KeepRest(script: Script, rest: string) returns (longer: Script)
    ensures Turns(longer, Source(script) + rest, Target(script) + rest) && Cost(longer) == Cost(script)
  {
    if rest == "" {
      longer := script;
    } else {
      var k := |rest| - 1;
      longer := KeepRest(script, rest[..k]);
      longer := Then(longer, Keep(rest[k]));
      assert rest == rest[..k] + [rest[k]];
    }
  }

  lemma ZeroIffEqual(a: string, b: string)
    ensures Distance(a, b) == 0 <==> a == b
  {
    if Distance(a, b) == 0 {
      var script := BestScript(a, b);
      FreeScriptIsIdentity(script);
    }
    if a == b {
      var keep := KeepRest(Start, a);
      assert Turns(keep, a, b);
    }
  }

  /** Between the difference of the lengths and the longer length. */
  lemma Bounds(a: string, b: string)
    ensures Distance(a, b) <= if |a| < |b| then |b| else |a|
    ensures |a| <= |b| + Distance(a, b) && |b| <= |a| + Distance(a, b)
  {
    var script := BestScript(a, b);
    LengthsDiffer(script);
    var direct := Retype(a, b);
  }

  /** Two neighbouring letters the wrong way round are at most one edit. */
  lemma AdjacentSwap(before: string, c: char, d: char, after: string)
    ensures Distance(before + [c, d] + after, before + [d, c] + after) <= 1
  {
    var script := KeepRest(Start, before);
    script := Then(script, Swap(c, d));
    script := KeepRest(script, after);
    assert Turns(script, before + [c, d] + after, before + [d, c] + after);
  }

  /** It is not a metric: letters that were swapped may not be edited again on the way to "abc". */
  lemma NoTriangleInequality()
    ensures Distance("ca", "abc") > Distance("ca", "ac") + Distance("ac", "abc")
  {
    AdjacentSwap("", 'c', 'a', "");
    assert "" + ['c', 'a'] + "" == "ca" && "" + ['a', 'c'] + "" == "ac";
    OneMore("a", "a", Insert('b'), "a", "ab");
    OneMore("a", "ab", Keep('c'), "ac", "abc");
    ZeroIffEqual("a", "a");
    CaToAbc();
  }

  lemma CaToAbc()
    ensures Distance("ca", "abc") >= 3
  {
    CaToAb();
    var ca, abc := "ca", "abc";
    assert ca[..1] == "c" && abc[..2] == "ab";
    AtLeastCell(ca, abc);
    Bounds("c", "abc");
  }

  lemma CaToAb()
    ensures Distance("ca", "ab") >= 2 && Distance("c", "ab") >= 2
  {
    var ca, c, ab := "ca", "c", "ab";
    assert ca[..1] == c && c[..0] == "" && ab[..1] == "a";
    ZeroIffEqual(c, "a");
    Bounds("", ab);
    Bounds("", "a");
    AtLeastCell(c, ab);
    assert Distance(c, ab) >= 2;
    Bounds(ca, "a");
    AtLeastCell(ca, ab);
  }

  // ----- the suggestion -----

  /** `names[i]` is the first of the names at the least distance, and that is within two edits. */
  ghost predicate Suggests(typo: string, names: seq<string>, lower: string -> string, i: nat)
    requires i < |names|
  {
    && Distance(lower(typo), lower(names[i])) <= 2
    && (forall j :: 0 <= j < |names| ==>
          Distance(lower(typo), lower(names[i])) <= Distance(lower(typo), lower(names[j])))
    && (forall j :: 0 <= j < i ==> Distance(lower(typo), lower(names[i])) < Distance(lower(typo), lower(names[j])))
  }

  /** The iterator chain: names within two edits, and the first of least distance among them. */
  method Nearest(typo: string, names: seq<string>, lower: string -> string) returns (r: Option<string>)
    ensures r.None? ==> forall i :: 0 <= i < |names| ==> Distance(lower(typo), lower(names[i])) > 2
    ensures r.Some? ==> exists i :: 0 <= i < |names| && names[i] == r.value && Suggests(typo, names, lower, i)
  {
    r := None;
    var least := 3;
    ghost var at := 0;
    for k := 0 to |names|
      invariant r.None? ==> least == 3 && forall j :: 0 <= j < k ==> Distance(lower(typo), lower(names[j])) > 2
      invariant r.Some? ==> at < k && names[at] == r.value && least == Distance(lower(typo), lower(names[at])) <= 2
      invariant r.Some? ==> forall j :: 0 <= j < k ==> least <= Distance(lower(typo), lower(names[j]))
      invariant r.Some? ==> forall j :: 0 <= j < at ==> least < Distance(lower(typo), lower(names[j]))
    {
      var distance := OsaDistance(lower(typo), lower(names[k]));
      if distance <= 2 && distance < least {
        r, least, at := Some(names[k]), distance, k;
      }
    }
    assert r.Some? ==> Suggests(typo, names, lower, at);
  }
}
