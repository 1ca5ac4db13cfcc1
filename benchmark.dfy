/** PerformanceBenchmark: nine process-wide counters, five `AtomicLong`
    totals of milliseconds and four `AtomicInteger` counts, which the
    exporter bumps as it works, and the averages `printStats` reports.
    The static fields become the fields of one object; the clock readings
    passed in are inputs. */
module Benchmarking {
  import opened Wrappers
  import opened Text

  /** Java `long` division of a total by a positive count: the quotient
      truncated toward zero. */
  function TruncatedDiv(total: int, count: int): (q: int)
    requires count > 0
    ensures total >= 0 ==> q >= 0 && q * count <= total < (q + 1) * count
    ensures total < 0 ==> q <= 0 && (q - 1) * count < total <= q * count
  {
    if total >= 0 then
      DivBounds(total, count);
      total / count
    else
      NegatedDivBounds(-total, count);
      -((-total) / count)
  }

  /** Euclidean division of a non-negative number brackets it between two
      consecutive multiples of the divisor. */
  lemma DivBounds(n: int, c: int)
    requires n >= 0 && c > 0
    ensures var q := n / c; q >= 0 && q * c <= n < (q + 1) * c
  {
    var q, r := n / c, n % c;
    assert n == q * c + r && 0 <= r < c;
    assert (q + 1) * c == q * c + c;
  }

  /** The same bracket for the negated quotient of a negated number. */
  lemma NegatedDivBounds(m: int, c: int)
    requires m > 0 && c > 0
    ensures var q := -(m / c); q <= 0 && (q - 1) * c < -m <= q * c
  {
    DivBounds(m, c);
    var d := m / c;
    assert (-d - 1) * c == -((d + 1) * c);
    assert -d * c == -(d * c);
  }

  /** The truncated quotient lies between zero and the total. */
  lemma TruncatedDivInRange(total: int, count: int)
    requires count > 0
    ensures total >= 0 ==> 0 <= TruncatedDiv(total, count) <= total
    ensures total < 0 ==> total <= TruncatedDiv(total, count) <= 0
  {
    var q := TruncatedDiv(total, count);
    if total >= 0 {
      AtMostProduct(q, count);
    } else {
      AtMostProduct(-q, count);
      assert -q * count == -(q * count);
    }
  }

  lemma AtMostProduct(q: int, count: int)
    requires q >= 0 && count >= 1
    ensures q <= q * count
  {
    assert q * count == q * (count - 1) + q;
    assert q * (count - 1) >= 0;
  }

  /** What `printStats` reports for one activity: the count, and the
      average time only when the count is positive. */
  datatype Figure = Figure(count: int, total: int, average: Option<int>)

  /** The figure of one time/count pair: `printStats` divides only under
      its `count > 0` guard. */
  function FigureOf(total: int, count: int): (f: Figure)
    ensures f.count == count && f.total == total
    ensures f.average.Some? <==> count > 0
    ensures f.average.Some? && total >= 0 ==> f.average.value * count <= total < (f.average.value + 1) * count
  {
    Figure(count, total, if count > 0 then Some(TruncatedDiv(total, count)) else None)
  }

  datatype Report = Report(
    exports: Figure, classifications: Figure, sourceReads: Figure, methodExtractions: Figure,
    jsonSerializationTime: int)

  class PerformanceBenchmark {
    var totalExportTime: int
    var totalClassificationTime: int
    var totalSourceReadTime: int
    var totalMethodExtractionTime: int
    var totalJsonSerializationTime: int
    var totalExports: int
    var totalClassifications: int
    var totalSourceReads: int
    var totalMethodExtractions: int

    /** The totals are `long` values and the counts `int` values. */
    predicate Valid()
      reads this
    {
      && IsInt64(totalExportTime) && IsInt64(totalClassificationTime) && IsInt64(totalSourceReadTime)
      && IsInt64(totalMethodExtractionTime) && IsInt64(totalJsonSerializationTime)
      && IsInt32(totalExports) && IsInt32(totalClassifications)
      && IsInt32(totalSourceReads) && IsInt32(totalMethodExtractions)
    }

    /** Every counter starts at zero. */
    predicate Zero()
      reads this
    {
      && totalExportTime == 0 && totalClassificationTime == 0 && totalSourceReadTime == 0
      && totalMethodExtractionTime == 0 && totalJsonSerializationTime == 0
      && totalExports == 0 && totalClassifications == 0 && totalSourceReads == 0
      && totalMethodExtractions == 0
    }

    constructor ()
      ensures Valid() && Zero()
    {
      totalExportTime, totalClassificationTime, totalSourceReadTime := 0, 0, 0;
      totalMethodExtractionTime, totalJsonSerializationTime := 0, 0;
      totalExports, totalClassifications, totalSourceReads, totalMethodExtractions := 0, 0, 0, 0;
    }

    /** `recordExportTime`: `addAndGet` on the total and `incrementAndGet` on
        the count, both wrapping like Java arithmetic. */
    method RecordExportTime(timeMs: int)
      requires Valid() && IsInt64(timeMs)
      modifies this
      ensures Valid()
      ensures totalExportTime == AddLong(old(totalExportTime), timeMs)
      ensures totalExports == IncInt(old(totalExports))
      ensures totalClassificationTime == old(totalClassificationTime) && totalSourceReadTime == old(totalSourceReadTime)
      ensures totalMethodExtractionTime == old(totalMethodExtractionTime)
      ensures totalJsonSerializationTime == old(totalJsonSerializationTime)
      ensures totalClassifications == old(totalClassifications) && totalSourceReads == old(totalSourceReads)
      ensures totalMethodExtractions == old(totalMethodExtractions)
    {
      totalExportTime := AddLong(totalExportTime, timeMs);
      totalExports := IncInt(totalExports);
    }

    method RecordClassificationTime(timeMs: int)
      requires Valid() && IsInt64(timeMs)
      modifies this
      ensures Valid()
      ensures totalClassificationTime == AddLong(old(totalClassificationTime), timeMs)
      ensures totalClassifications == IncInt(old(totalClassifications))
      ensures totalExportTime == old(totalExportTime) && totalSourceReadTime == old(totalSourceReadTime)
      ensures totalMethodExtractionTime == old(totalMethodExtractionTime)
      ensures totalJsonSerializationTime == old(totalJsonSerializationTime)
      ensures totalExports == old(totalExports) && totalSourceReads == old(totalSourceReads)
      ensures totalMethodExtractions == old(totalMethodExtractions)
    {
      totalClassificationTime := AddLong(totalClassificationTime, timeMs);
      totalClassifications := IncInt(totalClassifications);
    }

    method RecordSourceReadTime(timeMs: int)
      requires Valid() && IsInt64(timeMs)
      modifies this
      ensures Valid()
      ensures totalSourceReadTime == AddLong(old(totalSourceReadTime), timeMs)
      ensures totalSourceReads == IncInt(old(totalSourceReads))
      ensures totalExportTime == old(totalExportTime) && totalClassificationTime == old(totalClassificationTime)
      ensures totalMethodExtractionTime == old(totalMethodExtractionTime)
      ensures totalJsonSerializationTime == old(totalJsonSerializationTime)
      ensures totalExports == old(totalExports) && totalClassifications == old(totalClassifications)
      ensures totalMethodExtractions == old(totalMethodExtractions)
    {
      totalSourceReadTime := AddLong(totalSourceReadTime, timeMs);
      totalSourceReads := IncInt(totalSourceReads);
    }

    method RecordMethodExtractionTime(timeMs: int)
      requires Valid() && IsInt64(timeMs)
      modifies this
      ensures Valid()
      ensures totalMethodExtractionTime == AddLong(old(totalMethodExtractionTime), timeMs)
      ensures totalMethodExtractions == IncInt(old(totalMethodExtractions))
      ensures totalExportTime == old(totalExportTime) && totalClassificationTime == old(totalClassificationTime)
      ensures totalSourceReadTime == old(totalSourceReadTime)
      ensures totalJsonSerializationTime == old(totalJsonSerializationTime)
      ensures totalExports == old(totalExports) && totalClassifications == old(totalClassifications)
      ensures totalSourceReads == old(totalSourceReads)
    {
      totalMethodExtractionTime := AddLong(totalMethodExtractionTime, timeMs);
      totalMethodExtractions := IncInt(totalMethodExtractions);
    }

    /** `recordJsonSerializationTime`: a total without a count. */
    method RecordJsonSerializationTime(timeMs: int)
      requires Valid() && IsInt64(timeMs)
      modifies this
      ensures Valid()
      ensures totalJsonSerializationTime == AddLong(old(totalJsonSerializationTime), timeMs)
      ensures totalExportTime == old(totalExportTime) && totalClassificationTime == old(totalClassificationTime)
      ensures totalSourceReadTime == old(totalSourceReadTime)
      ensures totalMethodExtractionTime == old(totalMethodExtractionTime)
      ensures totalExports == old(totalExports) && totalClassifications == old(totalClassifications)
      ensures totalSourceReads == old(totalSourceReads) && totalMethodExtractions == old(totalMethodExtractions)
    {
      totalJsonSerializationTime := AddLong(totalJsonSerializationTime, timeMs);
    }

    /** `reset`: all nine counters back to zero. */
    method Reset()
      modifies this
      ensures Valid() && Zero()
    {
      totalExportTime, totalClassificationTime, totalSourceReadTime := 0, 0, 0;
      totalMethodExtractionTime, totalJsonSerializationTime := 0, 0;
      totalExports, totalClassifications, totalSourceReads, totalMethodExtractions := 0, 0, 0, 0;
    }

    /** The figures `printStats` writes to the log. */
    function Stats(): (r: Report)
      reads this
      ensures r.exports.average.Some? <==> totalExports > 0
      ensures r.classifications.average.Some? <==> totalClassifications > 0
      ensures r.sourceReads.average.Some? <==> totalSourceReads > 0
      ensures r.methodExtractions.average.Some? <==> totalMethodExtractions > 0
      ensures r.jsonSerializationTime == totalJsonSerializationTime
    {
      Report(
        FigureOf(totalExportTime, totalExports),
        FigureOf(totalClassificationTime, totalClassifications),
        FigureOf(totalSourceReadTime, totalSourceReads),
        FigureOf(totalMethodExtractionTime, totalMethodExtractions),
        totalJsonSerializationTime)
    }
  }

  /** Right after a reset no average is reported: nothing is divided. */
  lemma ZeroReportsNoAverage(b: PerformanceBenchmark)
    requires b.Zero()
    ensures var r := b.Stats();
      r.exports.average.None? && r.classifications.average.None?
      && r.sourceReads.average.None? && r.methodExtractions.average.None?
  {
  }

  /** One export of `t` milliseconds recorded after a reset averages `t`. */
  lemma SingleExportAverage(t: int)
    ensures FigureOf(AddLong(0, t), IncInt(0)).average == Some(t)
    requires IsInt64(t)
  {
  }
}
