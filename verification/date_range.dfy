/** A lease period: two instants, meant as the half-open interval [start, end). */
module DateRanges {
  import opened Wrappers
  import opened Primitives
  import opened Errors

  datatype DateRange = DateRange(start: Ticks, end: Ticks)

  predicate Overlaps(a: DateRange, b: DateRange) {
    a.start < b.end && a.end > b.start
  }

  predicate IsValid(d: DateRange) {
    d.start < d.end
  }

  /** Throws `InvalidLeasePeriodException` unless the start precedes the end. */
  function Validate(d: DateRange): (r: Outcome<Error>)
    ensures r.Pass? <==> IsValid(d)
    ensures r.Fail? ==> r.error == InvalidLeasePeriod
  {
    if d.start >= d.end then Fail(InvalidLeasePeriod) else Pass
  }

  /** The instant `t` lies in the half-open interval [start, end). */
  predicate Contains(d: DateRange, t: Ticks) {
    d.start <= t < d.end
  }

  /** Two valid ranges overlap exactly when some instant lies in both. */
  lemma OverlapsMeansSharedInstant(a: DateRange, b: DateRange)
    requires IsValid(a) && IsValid(b)
    ensures Overlaps(a, b) <==> exists t :: Contains(a, t) && Contains(b, t)
  {
    if Overlaps(a, b) {
      var t := if a.start < b.start then b.start else a.start;
      assert Contains(a, t) && Contains(b, t);
    }
  }

  lemma OverlapsSymmetric(a: DateRange, b: DateRange)
    ensures Overlaps(a, b) <==> Overlaps(b, a)
  {
  }

  /** Ranges that only touch do not overlap. */
  lemma TouchingDoNotOverlap(a: DateRange, b: DateRange)
    requires a.end == b.start
    ensures !Overlaps(a, b) && !Overlaps(b, a)
  {
  }

  /** A range overlaps itself exactly when it is valid. */
  lemma SelfOverlapIffValid(a: DateRange)
    ensures Overlaps(a, a) <==> IsValid(a)
  {
  }
}
