/**
 When a release hidden by `minimum_release_age` becomes eligible (src/install_before.rs).

 An instant is a number of nanoseconds. Calendar arithmetic is a library's: the model takes, for one
 release and one age, which instants it calls eligible and the instant at which the search starts.
 Subtracting months clamps to the end of shorter months, so eligibility need not be monotone in time.
 */
module ReleaseAge {
  import opened Wrappers

  type Instant = int

  const DAY_NANOS: int := 86_400 * 1_000_000_000
  const PROBES: nat := 370

  /** One release and one age, as the calendar library sees them. `start` is the creation instant plus
      the age, when that is representable; `latest` is the last representable instant. */
  datatype Query = Query(
    created: Instant,
    negative: bool,
    start: Option<Instant>,
    latest: Instant,
    eligible: Instant -> bool)

  /** The library's promise: a non-negative age is added forwards, and results are representable. */
  predicate WellFormed(q: Query) {
    q.created <= q.latest && (!q.negative && q.start.Some? ==> q.created <= q.start.value <= q.latest)
  }

  /** The k-th instant the scan looks at. */
  function Probe(q: Query, k: nat): Instant
    requires q.start.Some?
  {
    q.start.value + k * DAY_NANOS
  }

  /** The scan finds the k-th probe eligible, and none before it. */
  ghost predicate FirstHit(q: Query, k: nat)
    requires q.start.Some?
  {
    && k < PROBES && Probe(q, k) <= q.latest && q.eligible(Probe(q, k))
    && forall j :: 0 <= j < k ==> !q.eligible(Probe(q, j))
  }

  /** The day-by-day scan for an eligible instant, then the binary search down to a boundary. No
      monotonicity is assumed: the instant found is eligible and the nanosecond before it is not. */
  method ReleaseEligibleAt(q: Query) returns (at: Option<Instant>)
    requires WellFormed(q)
    ensures at.Some? <==> !q.negative && q.start.Some? && exists k: nat :: FirstHit(q, k)
    ensures at.Some? ==>
      && q.eligible(at.value) && q.created <= at.value
      && (at.value == q.created || !q.eligible(at.value - 1))
      && forall k: nat :: FirstHit(q, k) ==> at.value <= Probe(q, k)
  {
    if q.negative || q.start.None? {
      return None;
    }
    var high := q.start.value;
    for k := 0 to PROBES
      invariant high == Probe(q, k) <= q.latest
      invariant forall j :: 0 <= j < k ==> !q.eligible(Probe(q, j))
    {
      if q.eligible(high) {
        assert FirstHit(q, k);
        var boundary := Boundary(q, high);
        return Some(boundary);
      }
      if q.latest < high + DAY_NANOS {
        assert forall j: nat :: j > k ==> Probe(q, j) >= Probe(q, k) + DAY_NANOS;
        return None;
      }
      high := high + DAY_NANOS;
    }
    return None;
  }

  /** The binary search: from any eligible instant to the first of a stretch of eligible ones. */
  method Boundary(q: Query, found: Instant) returns (at: Instant)
    requires q.created <= found && q.eligible(found)
    ensures q.created <= at <= found && q.eligible(at)
    ensures at == q.created || !q.eligible(at - 1)
  {
    var low, high := q.created, found;
    while low < high
      invariant q.created <= low <= high <= found && q.eligible(high)
      invariant low == q.created || !q.eligible(low - 1)
    {
      var mid := low + (high - low) / 2;
      if q.eligible(mid) {
        high := mid;
      } else {
        low := mid + 1;
      }
    }
    at := high;
  }

  /** Where eligibility is monotone there is one boundary, so the search finds the least eligible
      instant. */
  lemma MonotoneBoundaryIsLeast(q: Query, at: Instant)
    requires forall t, u :: q.created <= t <= u && q.eligible(t) ==> q.eligible(u)
    requires q.created <= at && q.eligible(at) && (at == q.created || !q.eligible(at - 1))
    ensures forall t :: q.created <= t && q.eligible(t) ==> at <= t
  {
    forall t | q.created <= t && q.eligible(t)
      ensures at <= t
    {
      assert t <= at - 1 ==> q.eligible(at - 1);
    }
  }

  /** The query for an age of a fixed number of nanoseconds: the cutoff that far back must be
      representable and later than the creation instant. */
  function FixedAge(created: Instant, age: nat, earliest: Instant, latest: Instant): Query {
    Query(created, false, if created + age <= latest then Some(created + age) else None, latest,
      now => earliest <= now - age && now - age > created)
  }

  /** For an age of fixed length the answer is the creation instant plus the age plus one nanosecond,
      the least eligible instant. There is an answer exactly when a full day after the age has passed is
      still representable, which is later than the answer itself needs. */
  method FixedAgeEligibleAt(created: Instant, age: nat, earliest: Instant, latest: Instant)
    returns (at: Option<Instant>)
    requires earliest <= created <= latest
    ensures at == if created + age + DAY_NANOS <= latest then Some(created + age + 1) else None
    ensures at.Some? ==> forall t :: FixedAge(created, age, earliest, latest).eligible(t) <==> at.value <= t
  {
    var q := FixedAge(created, age, earliest, latest);
    at := ReleaseEligibleAt(q);
    if q.start.Some? {
      assert Probe(q, 0) == created + age && Probe(q, 1) == created + age + DAY_NANOS;
      assert forall j: nat :: j > 1 ==> Probe(q, j) >= Probe(q, 1);
      if created + age + DAY_NANOS <= latest {
        assert FirstHit(q, 1);
      }
    }
  }

  /** A release the library can still date, in the last day it can represent, is never announced. */
  lemma LastDayIsSilent(created: Instant, age: nat, earliest: Instant, latest: Instant)
    requires earliest <= created && created + age < latest < created + age + DAY_NANOS
    ensures var q := FixedAge(created, age, earliest, latest);
      q.eligible(created + age + 1) && q.start.Some? && forall k: nat :: !FirstHit(q, k)
  {
    var q := FixedAge(created, age, earliest, latest);
    assert Probe(q, 0) == created + age;
    assert forall j: nat :: j > 0 ==> Probe(q, j) >= Probe(q, 0) + DAY_NANOS;
  }
}
