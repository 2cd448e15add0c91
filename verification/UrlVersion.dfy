/**
 Whether a locked download URL names another release than the locked version
 (src/lockfile.rs, `dotted_number_runs` to `url_contradicts_version`).

 Text is a sequence of characters. Only ASCII digits, dots and a few separators matter to this code, so
 characters stand in for the bytes the source scans.
 */
module UrlVersion {
  import opened Wrappers

  predicate IsDigit(c: char) {
    '0' <= c <= '9'
  }

  // ----- the scan for dotted numbers -----

  /** A character at which a number goes on: a digit, or a dot with a digit after it. */
  predicate Continues(s: string, k: int)
    requires 0 <= k
  {
    k < |s| && (IsDigit(s[k]) || (s[k] == '.' && k + 1 < |s| && IsDigit(s[k + 1])))
  }

  /** `s[from..to]` is a dotted number that cannot be extended on either side: it has at least one dot,
      and neither a digit nor a dot is immediately to its left. */
  ghost predicate IsRun(s: string, from: int, to: int) {
    && 0 <= from < to <= |s|
    && IsDigit(s[from])
    && (forall k :: from <= k < to ==> Continues(s, k))
    && !Continues(s, to)
    && (exists k :: from <= k < to && s[k] == '.')
    && (from > 0 ==> !IsDigit(s[from - 1]) && s[from - 1] != '.')
  }

  datatype Span = Span(from: int, to: int)

  function Texts(s: string, spans: seq<Span>): (r: seq<string>)
    requires forall p :: p in spans ==> 0 <= p.from <= p.to <= |s|
    ensures |r| == |spans|
  {
    if spans == [] then []
    else Texts(s, spans[..|spans| - 1]) + [s[spans[|spans| - 1].from..spans[|spans| - 1].to]]
  }

  /** The spans are all the runs that start before `end`, from left to right. */
  ghost predicate RunsBefore(s: string, spans: seq<Span>, end: int) {
    && (forall i :: 0 <= i < |spans| ==> IsRun(s, spans[i].from, spans[i].to) && spans[i].from < end)
    && (forall i, j :: 0 <= i < j < |spans| ==> spans[i].from < spans[j].from)
    && (forall from, to :: IsRun(s, from, to) && from < end ==> Span(from, to) in spans)
  }

  /** The runs' texts are exactly the maximal dotted numbers of `s`, in order. */
  ghost predicate AreRuns(s: string, runs: seq<string>) {
    exists spans: seq<Span> :: RunsBefore(s, spans, |s|) && runs == Texts(s, spans)
  }

  /** A number ends where it cannot go on, so its start determines it. */
  lemma NumberEnd(s: string, from: int, to: int, to': int)
    requires 0 <= from < to && from < to' && !Continues(s, to) && !Continues(s, to')
    requires forall k :: from <= k < to ==> Continues(s, k)
    requires forall k :: from <= k < to' ==> Continues(s, k)
    ensures to == to'
  {
  }

  /** Inside a number, no run starts. */
  lemma NoRunInside(s: string, start: int, end: int, from: int, to: int)
    requires 0 <= start < from < end <= |s|
    requires forall k :: start <= k < end ==> Continues(s, k)
    ensures !IsRun(s, from, to)
  {
    assert Continues(s, from - 1);
  }

  lemma TextsSnoc(s: string, spans: seq<Span>, last: Span)
    requires forall p :: p in spans + [last] ==> 0 <= p.from <= p.to <= |s|
    ensures forall p :: p in spans ==> p in spans + [last]
    ensures Texts(s, spans + [last]) == Texts(s, spans) + [s[last.from..last.to]]
  {
    assert (spans + [last])[..|spans|] == spans;
  }

  /** The inner loop: as far as the number that starts here goes on, counting its dots. */
  method ScanNumber(s: string, start: int) returns (end: int, dots: nat)
    requires 0 <= start < |s| && IsDigit(s[start])
    ensures start < end <= |s|
    ensures forall k :: start <= k < end ==> Continues(s, k)
    ensures !Continues(s, end)
    ensures dots > 0 <==> exists k :: start <= k < end && s[k] == '.'
  {
    end, dots := start, 0;
    while end < |s|
      invariant start <= end <= |s|
      invariant forall k :: start <= k < end ==> Continues(s, k)
      invariant dots > 0 <==> exists k :: start <= k < end && s[k] == '.'
      decreases |s| - end
    {
      if IsDigit(s[end]) {
        end := end + 1;
      } else if s[end] == '.' && end + 1 < |s| && IsDigit(s[end + 1]) {
        dots := dots + 1;
        end := end + 1;
      } else {
        break;
      }
    }
  }

  /** A number that was scanned adds itself to the runs if it is one, and no other run. */
  lemma ScannedNumber(s: string, spans: seq<Span>, start: int, end: int) returns (longer: seq<Span>)
    requires 0 <= start < end <= |s| && IsDigit(s[start]) && !Continues(s, end)
    requires forall k :: start <= k < end ==> Continues(s, k)
    requires start > 0 ==> !IsDigit(s[start - 1])
    requires RunsBefore(s, spans, start)
    ensures longer ==
      if (exists k :: start <= k < end && s[k] == '.') && !(start > 0 && s[start - 1] == '.')
      then spans + [Span(start, end)] else spans
    ensures RunsBefore(s, longer, end)
  {
    longer := spans;
    if (exists k :: start <= k < end && s[k] == '.') && !(start > 0 && s[start - 1] == '.') {
      assert IsRun(s, start, end);
      longer := spans + [Span(start, end)];
    }
    forall from, to | IsRun(s, from, to) && from < end
      ensures Span(from, to) in longer
    {
      if from < start {
        assert Span(from, to) in spans;
      } else if from == start {
        NumberEnd(s, start, end, to);
      } else {
        NoRunInside(s, start, end, from, to);
      }
    }
  }

  method DottedNumberRuns(s: string) returns (runs: seq<string>)
    ensures AreRuns(s, runs)
  {
    ghost var spans: seq<Span> := [];
    runs := [];
    var i := 0;
    while i < |s|
      invariant 0 <= i <= |s|
      invariant RunsBefore(s, spans, i) && runs == Texts(s, spans)
      invariant i == |s| || i == 0 || !IsDigit(s[i - 1]) || !IsDigit(s[i])
      decreases |s| - i
    {
      if !IsDigit(s[i]) {
        i := i + 1;
        continue;
      }
      var start := i;
      var end, dots := ScanNumber(s, start);
      var joinsLeft := start > 0 && s[start - 1] == '.';
      ghost var before := spans;
      spans := ScannedNumber(s, before, start, end);
      if dots > 0 && !joinsLeft {
        runs := runs + [s[start..end]];
        TextsSnoc(s, before, Span(start, end));
      }
      i := if end < start + 1 then start + 1 else end;
    }
  }

  // ----- comparing two dotted numbers -----

  /** `split` on one character: never empty, and "" splits into one empty part. */
  function Split(s: string, sep: char): (parts: seq<string>)
    ensures parts != []
    ensures forall p :: p in parts ==> sep !in p
  {
    if s == "" then [""]
    else
      var front := Split(s[..|s| - 1], sep);
      var c := s[|s| - 1];
      if c == sep then front + [""]
      else front[|front| - 1 := front[|front| - 1] + [c]]
  }

  function Join(parts: seq<string>, sep: char): string
    requires parts != []
  {
    if |parts| == 1 then parts[0] else Join(parts[..|parts| - 1], sep) + [sep] + parts[|parts| - 1]
  }

  /** Splitting loses nothing: the parts, none of which holds the separator, join to the text. */
  lemma {:induction false} SplitJoins(s: string, sep: char)
    ensures Join(Split(s, sep), sep) == s
  {
    if s != "" {
      var front, c := s[..|s| - 1], s[|s| - 1];
      SplitJoins(front, sep);
      var parts := Split(front, sep);
      var k := |parts| - 1;
      if c == sep {
        assert (parts + [""])[..|parts|] == parts;
      } else if k > 0 {
        assert parts[k := parts[k] + [c]][..k] == parts[..k];
      }
    }
  }

  function TrimZeros(s: string): string {
    if s != "" && s[0] == '0' then TrimZeros(s[1..]) else s
  }

  predicate AllDigits(s: string) {
    forall k :: 0 <= k < |s| ==> IsDigit(s[k])
  }

  /** The natural number a string of digits writes; unbounded, and 0 for no digits. */
  function Value(s: string): nat
    requires AllDigits(s)
  {
    if s == "" then 0 else 10 * Value(s[..|s| - 1]) + (s[|s| - 1] - '0') as nat
  }

  lemma {:induction false} TrimKeepsValue(s: string)
    requires AllDigits(s)
    ensures AllDigits(TrimZeros(s)) && Value(TrimZeros(s)) == Value(s)
    ensures TrimZeros(s) != "" ==> TrimZeros(s)[0] != '0'
  {
    if s != "" && s[0] == '0' {
      TrimKeepsValue(s[1..]);
      LeadingZero(s);
    }
  }

  lemma {:induction false} LeadingZero(s: string)
    requires AllDigits(s) && s != "" && s[0] == '0'
    ensures Value(s[1..]) == Value(s)
  {
    if |s| > 1 {
      LeadingZero(s[..|s| - 1]);
      assert s[..|s| - 1][1..] == s[1..][..|s| - 2];
    }
  }

  lemma {:induction false} NoLeadingZeroIsPositive(s: string)
    requires AllDigits(s) && s != "" && s[0] != '0'
    ensures Value(s) > 0
  {
    if |s| > 1 {
      NoLeadingZeroIsPositive(s[..|s| - 1]);
    }
  }

  /** Without leading zeros a number is written in one way. */
  lemma {:induction false} ValueIsInjective(s: string, t: string)
    requires AllDigits(s) && AllDigits(t) && Value(s) == Value(t)
    requires s != "" ==> s[0] != '0'
    requires t != "" ==> t[0] != '0'
    ensures s == t
  {
    if s == "" || t == "" {
      if s != "" {
        NoLeadingZeroIsPositive(s);
      }
      if t != "" {
        NoLeadingZeroIsPositive(t);
      }
    } else {
      var s1, t1 := s[..|s| - 1], t[..|t| - 1];
      ValueIsInjective(s1, t1);
      assert s == s1 + [s[|s| - 1]] && t == t1 + [t[|t| - 1]];
    }
  }

  /** Components compare as numbers, however long and however padded. */
  lemma SameComponent(x: string, y: string)
    requires AllDigits(x) && AllDigits(y)
    ensures TrimZeros(x) == TrimZeros(y) <==> Value(x) == Value(y)
  {
    TrimKeepsValue(x);
    TrimKeepsValue(y);
    if Value(x) == Value(y) {
      ValueIsInjective(TrimZeros(x), TrimZeros(y));
    }
  }

  /** A dotted number: digits and dots only. */
  predicate IsDotted(s: string) {
    forall k :: 0 <= k < |s| ==> IsDigit(s[k]) || s[k] == '.'
  }

  lemma {:induction false} PartsAreDigits(s: string)
    requires IsDotted(s)
    ensures forall p :: p in Split(s, '.') ==> AllDigits(p)
  {
    if s != "" {
      var front, c := s[..|s| - 1], s[|s| - 1];
      assert IsDigit(c) || c == '.';
      PartsAreDigits(front);
      var parts := Split(front, '.');
      var last := parts[|parts| - 1];
      assert last in parts;
      forall p | p in Split(s, '.')
        ensures AllDigits(p)
      {
        assert p in parts || p == "" || p == last + [c];
      }
    }
  }

  function Trimmed(parts: seq<string>): (t: seq<string>)
    ensures |t| == |parts| && forall k :: 0 <= k < |t| ==> t[k] == TrimZeros(parts[k])
  {
    seq(|parts|, k requires 0 <= k < |parts| => TrimZeros(parts[k]))
  }

  function Values(parts: seq<string>): (v: seq<nat>)
    requires forall p :: p in parts ==> AllDigits(p)
    ensures |v| == |parts| && forall k :: 0 <= k < |v| ==> v[k] == Value(parts[k])
  {
    seq(|parts|, k requires 0 <= k < |parts| => Value(parts[k]))
  }

  /** The components of a dotted number, as unbounded naturals. */
  function Components(s: string): seq<nat>
    requires IsDotted(s)
  {
    PartsAreDigits(s);
    Values(Split(s, '.'))
  }

  /** One list is a prefix of the other. */
  predicate Comparable<T(==)>(a: seq<T>, b: seq<T>) {
    a <= b || b <= a
  }

  method DottedNumbersAgree(a: string, b: string) returns (agree: bool)
    ensures agree <==> Comparable(Trimmed(Split(a, '.')), Trimmed(Split(b, '.')))
    ensures IsDotted(a) && IsDotted(b) ==> (agree <==> Comparable(Components(a), Components(b)))
  {
    var xs, ys := Split(a, '.'), Split(b, '.');
    if IsDotted(a) && IsDotted(b) {
      TrimmedComparesValues(a, b);
    }
    ghost var tx, ty := Trimmed(xs), Trimmed(ys);
    var k := 0;
    while k < |xs| && k < |ys|
      invariant k <= |xs| && k <= |ys|
      invariant tx[..k] == ty[..k]
    {
      if TrimZeros(xs[k]) != TrimZeros(ys[k]) {
        assert tx[k] != ty[k];
        return false;
      }
      assert tx[..k + 1] == tx[..k] + [tx[k]] && ty[..k + 1] == ty[..k] + [ty[k]];
      k := k + 1;
    }
    assert tx[..|tx|] == tx && ty[..|ty|] == ty;
    return true;
  }

  /** Comparing trimmed components as text is comparing them as numbers. */
  lemma TrimmedComparesValues(a: string, b: string)
    requires IsDotted(a) && IsDotted(b)
    ensures Comparable(Trimmed(Split(a, '.')), Trimmed(Split(b, '.'))) <==> Comparable(Components(a), Components(b))
  {
    var xs, ys := Split(a, '.'), Split(b, '.');
    PartsAreDigits(a);
    PartsAreDigits(b);
    forall k | 0 <= k < |xs| && k < |ys|
      ensures Trimmed(xs)[k] == Trimmed(ys)[k] <==> Components(a)[k] == Components(b)[k]
    {
      assert xs[k] in xs && ys[k] in ys;
      SameComponent(xs[k], ys[k]);
    }
    PrefixPointwise(Trimmed(xs), Trimmed(ys));
    PrefixPointwise(Components(a), Components(b));
  }

  lemma PrefixPointwise<T>(a: seq<T>, b: seq<T>)
    ensures Comparable(a, b) <==> forall k :: 0 <= k < |a| && k < |b| ==> a[k] == b[k]
  {
  }

  /** Every run is a dotted number. */
  lemma RunIsDotted(s: string, from: int, to: int)
    requires IsRun(s, from, to)
    ensures IsDotted(s[from..to])
  {
    forall k | 0 <= k < to - from
      ensures IsDigit(s[from..to][k]) || s[from..to][k] == '.'
    {
      assert Continues(s, from + k);
    }
  }

  /** `r` is the text of one of the runs of `s`. */
  ghost predicate HasRun(s: string, r: string) {
    exists from, to :: IsRun(s, from, to) && r == s[from..to]
  }

  lemma {:induction false} TextsAre(s: string, spans: seq<Span>, i: nat)
    requires forall p :: p in spans ==> 0 <= p.from <= p.to <= |s|
    requires i < |spans|
    ensures Texts(s, spans)[i] == s[spans[i].from..spans[i].to]
  {
    if i < |spans| - 1 {
      TextsAre(s, spans[..|spans| - 1], i);
    }
  }

  /** The scan reports a text exactly when it is a run's. */
  lemma RunsAreExactly(s: string, runs: seq<string>)
    requires AreRuns(s, runs)
    ensures forall r :: r in runs <==> HasRun(s, r)
    ensures forall r :: r in runs ==> IsDotted(r)
  {
    var spans: seq<Span> :| RunsBefore(s, spans, |s|) && runs == Texts(s, spans);
    forall r | r in runs
      ensures HasRun(s, r) && IsDotted(r)
    {
      var i :| 0 <= i < |runs| && runs[i] == r;
      TextsAre(s, spans, i);
      RunIsDotted(s, spans[i].from, spans[i].to);
    }
    forall r | HasRun(s, r)
      ensures r in runs
    {
      var from, to :| IsRun(s, from, to) && r == s[from..to];
      assert Span(from, to) in spans;
      var i :| 0 <= i < |spans| && spans[i] == Span(from, to);
      TextsAre(s, spans, i);
    }
  }

  // ----- the numbers in a URL that identify its release -----

  predicate Occurs(s: string, pattern: string, k: nat) {
    k + |pattern| <= |s| && s[k..k + |pattern|] == pattern
  }

  /** Where `pattern` first occurs from `k` on. */
  function Find(s: string, pattern: string, k: nat): (at: Option<nat>)
    ensures at.Some? ==> Occurs(s, pattern, at.value) && forall j :: k <= j < at.value ==> !Occurs(s, pattern, j)
    ensures at.None? ==> forall j :: k <= j ==> !Occurs(s, pattern, j)
    decreases |s| - k
  {
    if Occurs(s, pattern, k) then Some(k)
    else if k < |s| then Find(s, pattern, k + 1)
    else None
  }

  function UpTo(s: string, stop: set<char>): string {
    if s == "" || s[0] in stop then "" else [s[0]] + UpTo(s[1..], stop)
  }

  /** The path of a URL: past the scheme and host, without query and fragment. */
  function UrlPath(url: string): Option<string> {
    var scheme := Find(url, "://", 0);
    var rest := if scheme.Some? then url[scheme.value + 3..] else url;
    var bare := UpTo(rest, {'?', '#'});
    var slash := Find(bare, "/", 0);
    if slash.Some? then Some(bare[slash.value..]) else None
  }

  lemma {:induction false} UpToStops(s: string, tail: string, stop: set<char>)
    requires (forall c :: c in s ==> c !in stop) && (tail == "" || tail[0] in stop)
    ensures UpTo(s + tail, stop) == s
  {
    if s == "" {
      assert s + tail == tail;
    } else {
      assert (s + tail)[1..] == s[1..] + tail;
      UpToStops(s[1..], tail, stop);
    }
  }

  lemma OccursByFirst(s: string, pattern: string)
    requires pattern != ""
    ensures forall k: nat :: Occurs(s, pattern, k) ==> k < |s| && s[k] == pattern[0]
  {
    forall k: nat | Occurs(s, pattern, k)
      ensures s[k] == pattern[0]
    {
      assert s[k] == s[k..k + |pattern|][0];
    }
  }

  lemma FirstOccurrence(before: string, pattern: string, after: string)
    requires pattern != "" && pattern[0] !in before
    ensures Find(before + pattern + after, pattern, 0) == Some(|before|)
  {
    var s := before + pattern + after;
    assert s[|before|..|before| + |pattern|] == pattern;
    OccursByFirst(s, pattern);
    assert forall k: nat :: k < |before| ==> s[k] == before[k];
    assert Occurs(s, pattern, |before|);
  }

  lemma NoOccurrence(s: string, pattern: string)
    requires pattern != "" && pattern[0] !in s
    ensures Find(s, pattern, 0) == None
  {
    OccursByFirst(s, pattern);
  }

  predicate IsHost(host: string) {
    forall c :: c in host ==> c != '/' && c != '?' && c != '#'
  }

  predicate IsPath(path: string) {
    (path == "" || path[0] == '/') && forall c :: c in path ==> c != '?' && c != '#'
  }

  predicate IsTail(tail: string) {
    tail == "" || tail[0] == '?' || tail[0] == '#'
  }

  lemma PathAfterHost(host: string, path: string, tail: string)
    requires IsHost(host) && IsPath(path) && IsTail(tail)
    ensures var bare := UpTo(host + path + tail, {'?', '#'});
      bare == host + path && Find(bare, "/", 0) == if path == "" then None else Some(|host|)
  {
    UpToStops(host + path, tail, {'?', '#'});
    assert host + path + tail == (host + path) + tail;
    if path == "" {
      assert host + path == host;
      NoOccurrence(host, "/");
    } else {
      FirstOccurrence(host, "/", path[1..]);
      assert host + path == host + "/" + path[1..];
    }
  }

  /** Of a URL made of these parts the path is what remains, with or without a scheme; a host alone has none. */
  lemma UrlPathOfParts(scheme: string, host: string, path: string, tail: string)
    requires ':' !in scheme && IsHost(host) && IsPath(path) && IsTail(tail)
    ensures UrlPath(scheme + "://" + host + path + tail) == if path == "" then None else Some(path)
    ensures ':' !in host + path + tail ==> UrlPath(host + path + tail) == if path == "" then None else Some(path)
  {
    var rest := host + path + tail;
    var url := scheme + "://" + host + path + tail;
    FirstOccurrence(scheme, "://", rest);
    assert url == scheme + "://" + rest;
    assert url[|scheme| + 3..] == rest;
    PathAfterHost(host, path, tail);
    assert path != "" ==> (host + path)[|host|..] == path;
    if ':' !in rest {
      NoOccurrence(rest, "://");
    }
  }

  function NonEmpty(parts: seq<string>, decode: string -> string): seq<string> {
    if parts == [] then []
    else
      var front, last := NonEmpty(parts[..|parts| - 1], decode), parts[|parts| - 1];
      if last == "" then front else front + [decode(last)]
  }

  function Position(segments: seq<string>, name: string): (at: Option<nat>)
    ensures at.Some? ==> at.value < |segments| && segments[at.value] == name && name !in segments[..at.value]
    ensures at.None? ==> name !in segments
  {
    if segments == [] then None
    else
      var front, k := segments[..|segments| - 1], |segments| - 1;
      var before := Position(front, name);
      if before.Some? then
        assert front[..before.value] == segments[..before.value];
        before
      else if segments[k] == name then Some(k) else
        assert segments == front + [segments[k]];
        None
  }

  function At(segments: seq<string>, k: nat): Option<string> {
    if k < |segments| then Some(segments[k]) else None
  }

  /** Where a path names a release at all, the segment that does. */
  function ReleaseTag(segments: seq<string>): Option<string> {
    var releases := Position(segments, "releases");
    var tag := if releases.None? then None
               else if At(segments, releases.value + 1) == Some("download") then At(segments, releases.value + 2)
               else At(segments, releases.value + 1);
    if tag.Some? then tag
    else
      var archive := Position(segments, "archive");
      if archive.None? then None else At(segments, archive.value + 1)
  }

  /** `/releases/download/<tag>/...`, `/releases/<tag>/...` and `/archive/<tag>/...` name the tag. */
  lemma TagPositions(before: seq<string>, tag: string, after: seq<string>)
    requires "releases" !in before
    ensures ReleaseTag(before + ["releases", "download", tag] + after) == Some(tag)
    ensures tag != "download" ==> ReleaseTag(before + ["releases", tag] + after) == Some(tag)
    ensures "archive" !in before && tag != "releases" && "releases" !in after ==>
      ReleaseTag(before + ["archive", tag] + after) == Some(tag)
  {
    FirstAt(before, "releases", ["download", tag] + after);
    assert before + ["releases", "download", tag] + after == before + ["releases"] + (["download", tag] + after);
    FirstAt(before, "releases", [tag] + after);
    assert before + ["releases", tag] + after == before + ["releases"] + ([tag] + after);
    if "archive" !in before && tag != "releases" && "releases" !in after {
      FirstAt(before, "archive", [tag] + after);
      assert before + ["archive", tag] + after == before + ["archive"] + ([tag] + after);
    }
  }

  lemma FirstAt(before: seq<string>, name: string, after: seq<string>)
    requires name !in before
    ensures Position(before + [name] + after, name) == Some(|before|)
  {
    var all := before + [name] + after;
    assert all[|before|] == name;
    forall k | 0 <= k < |before|
      ensures all[k] != name
    {
      assert all[k] == before[k];
    }
    forall k | |before| < k <= |all|
      ensures name in all[..k]
    {
      assert all[..k][|before|] == name;
    }
  }

  function Segments(path: string, decode: string -> string): seq<string> {
    NonEmpty(Split(path, '/'), decode)
  }

  /** `r` is a dotted number in the release tag or in the file name of the URL. */
  ghost predicate Identifies(url: string, decode: string -> string, r: string) {
    var path := UrlPath(url);
    path.Some? && PathIdentifies(path.value, decode, r)
  }

  ghost predicate PathIdentifies(path: string, decode: string -> string, r: string) {
    var segments := Segments(path, decode);
    || (ReleaseTag(segments).Some? && HasRun(ReleaseTag(segments).value, r))
    || (segments != [] && HasRun(segments[|segments| - 1], r))
  }

  lemma {:induction false} SplitSnoc(s: string, sep: char, p: string)
    requires sep !in p
    ensures Split(s + [sep] + p, sep) == Split(s, sep) + [p]
  {
    var all := s + [sep] + p;
    if p == "" {
      assert all[..|all| - 1] == s;
    } else {
      assert all[..|all| - 1] == s + [sep] + p[..|p| - 1];
      SplitSnoc(s, sep, p[..|p| - 1]);
      assert p == p[..|p| - 1] + [p[|p| - 1]];
    }
  }

  lemma {:induction false} SplitWhole(p: string, sep: char)
    requires sep !in p
    ensures Split(p, sep) == [p]
  {
    if p != "" {
      SplitWhole(p[..|p| - 1], sep);
      assert p == p[..|p| - 1] + [p[|p| - 1]];
    }
  }

  lemma {:induction false} SplitJoined(parts: seq<string>, sep: char)
    requires parts != [] && forall p :: p in parts ==> sep !in p
    ensures Split(Join(parts, sep), sep) == parts
  {
    if |parts| == 1 {
      SplitWhole(parts[0], sep);
    } else {
      SplitJoined(parts[..|parts| - 1], sep);
      SplitSnoc(Join(parts[..|parts| - 1], sep), sep, parts[|parts| - 1]);
    }
  }

  lemma {:induction false} JoinAfterEmpty(parts: seq<string>, sep: char)
    requires parts != []
    ensures Join([""] + parts, sep) == [sep] + Join(parts, sep)
  {
    assert ([""] + parts)[..|parts|] == [""] + parts[..|parts| - 1];
    if |parts| > 1 {
      JoinAfterEmpty(parts[..|parts| - 1], sep);
    }
  }

  lemma {:induction false} NonEmptyParts(parts: seq<string>, decode: string -> string)
    requires "" !in parts
    ensures NonEmpty([""] + parts, decode) == seq(|parts|, i requires 0 <= i < |parts| => decode(parts[i]))
  {
    assert ([""] + parts)[..|parts|] == if parts == [] then [] else [""] + parts[..|parts| - 1];
    if parts != [] {
      NonEmptyParts(parts[..|parts| - 1], decode);
    }
  }

  lemma {:induction false} JoinAvoids(parts: seq<string>, sep: char, c: char)
    requires parts != [] && c != sep && forall p :: p in parts ==> c !in p
    ensures c !in Join(parts, sep)
  {
    if |parts| > 1 {
      JoinAvoids(parts[..|parts| - 1], sep, c);
    }
  }

  predicate Plain(part: string) {
    part != "" && IsHost(part)
  }

  /** The segments of a path are its parts, each decoded after the split. */
  lemma SegmentsOfParts(parts: seq<string>, decode: string -> string)
    requires parts != [] && forall p :: p in parts ==> Plain(p)
    ensures Segments("/" + Join(parts, '/'), decode) == seq(|parts|, i requires 0 <= i < |parts| => decode(parts[i]))
  {
    JoinAfterEmpty(parts, '/');
    SplitJoined([""] + parts, '/');
    NonEmptyParts(parts, decode);
  }

  /** A forge's download URL names a release by the dotted numbers of its tag and its file name, and by nothing
      in its scheme, host, earlier segments, query or fragment. */
  lemma ForgeUrlNames(scheme: string, host: string, before: seq<string>, tag: string, file: string, tail: string,
                      decode: string -> string, r: string)
    requires ':' !in scheme && IsHost(host) && IsTail(tail)
    requires (forall p :: p in before ==> Plain(p) && decode(p) != "releases") && Plain(tag) && Plain(file)
    requires decode("releases") == "releases" && decode("download") == "download"
    ensures var path := Join(before + ["releases", "download", tag, file], '/');
      Identifies(scheme + "://" + host + ("/" + path) + tail, decode, r) <==> HasRun(decode(tag), r) || HasRun(decode(file), r)
  {
    var parts := before + ["releases", "download", tag, file];
    JoinAvoids(parts, '/', '?');
    JoinAvoids(parts, '/', '#');
    UrlPathOfParts(scheme, host, "/" + Join(parts, '/'), tail);
    ForgeSegments(before, tag, file, decode);
  }

  lemma ForgeSegments(before: seq<string>, tag: string, file: string, decode: string -> string)
    requires (forall p :: p in before ==> Plain(p) && decode(p) != "releases") && Plain(tag) && Plain(file)
    requires decode("releases") == "releases" && decode("download") == "download"
    ensures var segments := Segments("/" + Join(before + ["releases", "download", tag, file], '/'), decode);
      && ReleaseTag(segments) == Some(decode(tag))
      && segments != [] && segments[|segments| - 1] == decode(file)
  {
    var parts := before + ["releases", "download", tag, file];
    SegmentsOfParts(parts, decode);
    var start := seq(|before|, i requires 0 <= i < |before| => decode(before[i]));
    assert Segments("/" + Join(parts, '/'), decode) == start + ["releases", "download", decode(tag)] + [decode(file)];
    TagPositions(start, decode(tag), [decode(file)]);
  }

  method ReleaseIdentifiers(path: string, decode: string -> string) returns (found: seq<string>)
    ensures forall r :: r in found <==> PathIdentifies(path, decode, r)
    ensures forall r :: r in found ==> IsDotted(r)
  {
    found := [];
    var segments := Segments(path, decode);
    var tag := ReleaseTag(segments);
    if tag.Some? {
      found := DottedNumberRuns(tag.value);
      RunsAreExactly(tag.value, found);
    }
    if segments != [] {
      var name := DottedNumberRuns(segments[|segments| - 1]);
      RunsAreExactly(segments[|segments| - 1], name);
      found := found + name;
    }
  }

  /** A URL provably contradicts a version: both hold dotted numbers, and none of the one's names the
      same release as any of the other's. */
  ghost predicate Contradicts(version: string, url: string, decode: string -> string) {
    && (exists v :: HasRun(version, v))
    && (exists u :: Identifies(url, decode, u))
    && (forall u, v :: Identifies(url, decode, u) && HasRun(version, v) ==>
          IsDotted(u) && IsDotted(v) && !Comparable(Components(u), Components(v)))
  }

  method UrlContradictsVersion(version: string, url: string, decode: string -> string)
    returns (named: Option<seq<string>>)
    ensures named.Some? <==> Contradicts(version, url, decode)
    ensures named.Some? ==> forall u :: u in named.value <==> Identifies(url, decode, u)
  {
    var versionRuns := DottedNumberRuns(version);
    RunsAreExactly(version, versionRuns);
    if versionRuns == [] {
      return None;
    }
    assert HasRun(version, versionRuns[0]);
    var path := UrlPath(url);
    if path.None? {
      return None;
    }
    var identifiers := ReleaseIdentifiers(path.value, decode);
    assert forall u :: u in identifiers <==> Identifies(url, decode, u);
    if identifiers == [] {
      return None;
    }
    assert Identifies(url, decode, identifiers[0]);
    var agrees := AnyAgree(identifiers, versionRuns);
    return if agrees then None else Some(identifiers);
  }

  method AnyAgree(us: seq<string>, vs: seq<string>) returns (agree: bool)
    requires forall u :: u in us ==> IsDotted(u)
    requires forall v :: v in vs ==> IsDotted(v)
    ensures agree <==> exists u, v :: u in us && v in vs && Comparable(Components(u), Components(v))
  {
    for i := 0 to |us|
      invariant forall u, v :: u in us[..i] && v in vs ==> !Comparable(Components(u), Components(v))
    {
      for j := 0 to |vs|
        invariant forall v :: v in vs[..j] ==> !Comparable(Components(us[i]), Components(v))
      {
        var same := DottedNumbersAgree(us[i], vs[j]);
        if same {
          return true;
        }
      }
    }
    return false;
  }
}
