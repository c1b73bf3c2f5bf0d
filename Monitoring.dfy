// The gateway's named counters.  `time` runs a runnable, then, whether or not
// the runnable threw, adds one to "<metric>.count" and the elapsed milliseconds to
// "<metric>.totalMs".  The runnable and the clock are parameters: `outcome` says
// whether the runnable threw, and the instants (in nanoseconds) are the readings of
// `Instant.now()` the source takes.
module Monitoring {
  import opened Wrappers

  type Counters = map<string, int>

  /** `getOrDefault(metric, 0)`. */
  function Count(m: Counters, metric: string): int
  {
    if metric in m then m[metric] else 0
  }

  /** `merge(metric, by, Long::sum)`: only `metric` changes. */
  function Bump(m: Counters, metric: string, delta: int): (r: Counters)
    ensures Count(r, metric) == Count(m, metric) + delta
    ensures metric in r
    ensures forall k :: k != metric ==> (k in r <==> k in m) && Count(r, k) == Count(m, k)
  {
    m[metric := Count(m, metric) + delta]
  }

  /** `Duration.between(start, end).toMillis()` on nanosecond readings: whole
    * milliseconds, the fraction dropped toward zero for either sign. */
  function ElapsedMillis(start: int, end: int): (ms: int)
    ensures end - start >= 0 ==> 0 <= ms && ms * 1_000_000 <= end - start < (ms + 1) * 1_000_000
    ensures end - start < 0 ==> ms <= 0 && (ms - 1) * 1_000_000 < end - start <= ms * 1_000_000
  {
    TruncatedMillis(end - start)
  }

  function TruncatedMillis(nanos: int): int
  {
    if nanos >= 0 then nanos / 1_000_000 else -((-nanos) / 1_000_000)
  }

  function CountKey(metric: string): string { metric + ".count" }

  function TotalKey(metric: string): string { metric + ".totalMs" }

  /** The counters after one `time(metric, …)` whose runnable took `ms` milliseconds. */
  function AfterTime(m: Counters, metric: string, ms: int): Counters
  {
    Bump(Bump(m, CountKey(metric), 1), TotalKey(metric), ms)
  }

  lemma UnseenIsZero(m: Counters, metric: string)
    requires metric !in m
    ensures Count(m, metric) == 0
  {
  }

  /** `time` adds one to the count, ms to the total, and leaves every other counter alone. */
  lemma TimeEffect(m: Counters, metric: string, ms: int)
    ensures Count(AfterTime(m, metric, ms), CountKey(metric)) == Count(m, CountKey(metric)) + 1
    ensures Count(AfterTime(m, metric, ms), TotalKey(metric)) == Count(m, TotalKey(metric)) + ms
    ensures forall k :: k != CountKey(metric) && k != TotalKey(metric) ==>
      Count(AfterTime(m, metric, ms), k) == Count(m, k)
  {
    assert |CountKey(metric)| != |TotalKey(metric)|;
  }

  /** The runnable either completes or throws. */
  datatype Outcome = Completed | Threw(message: string)

  class MonitoringService {
    var counters: Counters

    constructor ()
      ensures counters == map[]
    {
      counters := map[];
    }

    method Increment(metric: string)
      modifies this
      ensures counters == Bump(old(counters), metric, 1)
    {
      counters := counters[metric := Count(counters, metric) + 1];
    }

    method Counter(metric: string) returns (r: int)
      ensures r == Count(counters, metric)
    {
      r := if metric in counters then counters[metric] else 0;
    }

    /**
     * `start` is read before the runnable runs, `finish` in the finally block and
     * `returned` for the return value: three separate clock readings.
     */
    method Time(metric: string, outcome: Outcome, start: int, finish: int, returned: int) returns (r: Result<int>)
      modifies this
      ensures counters == AfterTime(old(counters), metric, ElapsedMillis(start, finish))
      ensures outcome.Threw? ==> r == Err(IllegalState(outcome.message))
      ensures outcome.Completed? ==> r == Ok(ElapsedMillis(start, returned))
    {
      var ms := TruncatedMillis(finish - start);
      counters := counters[metric + ".count" := Count(counters, metric + ".count") + 1];
      counters := counters[metric + ".totalMs" := Count(counters, metric + ".totalMs") + ms];
      if outcome.Threw? {
        return Err(IllegalState(outcome.message));
      }
      r := Ok(TruncatedMillis(returned - start));
    }
  }
}
