/**
 * GStreamer time values as the converter uses them: nanosecond clock times
 * with the all-ones "none" value, the integer scaling helper and the
 * segment the element keeps. Clock times are unbounded naturals here.
 */
module Clock {
  import opened Base

  /** GST_CLOCK_TIME_NONE: the all-ones 64-bit value. */
  const NONE: nat := MAX_UINT64

  /** GST_SECOND: nanoseconds per second. */
  const SECOND: nat := 1_000_000_000

  /** GST_CLOCK_TIME_IS_VALID. */
  predicate IsValid(t: nat) {
    t != NONE
  }

  /**
   * gst_util_uint64_scale_int (v, num, denom): v * num / denom rounded down;
   * a negative numerator, a denominator that is not positive and a result
   * that does not fit in 64 bits all give the all-ones value.
   */
  function ScaleInt(v: nat, num: int, denom: int): (r: nat)
    ensures num >= 0 && denom > 0 && v * num / denom <= MAX_UINT64 ==> r * denom <= v * num < (r + 1) * denom
    ensures (num < 0 || denom <= 0) ==> r == MAX_UINT64
    ensures r <= MAX_UINT64
  {
    if num < 0 || denom <= 0 then MAX_UINT64 else Min(v * num / denom, MAX_UINT64)
  }

  /** The formats a segment can be expressed in (GstFormat, as far as the converter cares). */
  datatype SegmentFormat = FormatTime | FormatBytes | FormatOther

  /** A GstSegment reduced to the fields the converter reads and writes. */
  datatype Segment = Segment(format: SegmentFormat, start: nat, time: nat)

  /** gst_segment_init: the given format, starting at zero. */
  function InitSegment(f: SegmentFormat): (s: Segment)
    ensures s.format == f && s.start == 0 && s.time == 0
  {
    Segment(f, 0, 0)
  }
}
