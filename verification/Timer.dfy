/** The division the sound chips use to jump over whole timer periods. */
module Timer {
  import opened Arith

  /** Number of expirations at time, time + period, ... before end. */
  function Periods(time: int, end: int, period: int): int
    requires period > 0
  {
    (end - time + period - 1) / period
  }

  lemma PeriodsNone(time: int, end: int, period: int)
    requires period > 0 && end <= time < end + period
    ensures Periods(time, end, period) == 0
  {
    DivIs(end - time + period - 1, period, 0);
  }

  lemma PeriodsStep(time: int, end: int, period: int)
    requires period > 0 && time < end
    ensures Periods(time, end, period) == 1 + Periods(time + period, end, period)
    ensures Periods(time, end, period) >= 1
  {
    DivShift(end - time - 1, 1, period);
    DivMono(0, end - time - 1, period);
  }
}
