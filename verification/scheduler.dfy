/** The nightly status job: when the scheduler is enabled, the bulk status
    update is called with the configured threshold until it succeeds, at
    most `maxRetries` times. The wait between attempts is left out; whether
    it is interrupted is a parameter. */
module Scheduler {
  import opened Wrappers
  import opened Exceptions

  /** The scheduler settings the job reads. */
  datatype SchedulerConfig = SchedulerConfig(enabled: bool, maxRetries: int, expiringSoonDays: int)

  /** How attempt `k` (from 0) of the update service ends: the number of
      certificates it updated, or the exception it threw. Attempts past the
      end of the list succeed. */
  function AttemptAt(outcomes: seq<Result<int, Exception>>, k: nat): Result<int, Exception> {
    if k < |outcomes| then outcomes[k] else Ok(0)
  }

  /** Whether the wait after failed attempt `k` is interrupted. */
  function InterruptedAt(interrupts: seq<bool>, k: nat): bool {
    k < |interrupts| && interrupts[k]
  }

  /** The number of calls the retry loop makes, from attempt `k` on, when
      `k` attempts have already failed. */
  function CallsFrom(maxRetries: int, outcomes: seq<Result<int, Exception>>, interrupts: seq<bool>, k: nat): (n: nat)
    ensures k < maxRetries ==> n >= 1
    ensures n <= if maxRetries > k then maxRetries - k else 0
    decreases if maxRetries > k then maxRetries - k else 0
  {
    if k >= maxRetries then 0
    else if AttemptAt(outcomes, k).Ok? then 1
    else if k + 1 < maxRetries && InterruptedAt(interrupts, k) then 1
    else 1 + CallsFrom(maxRetries, outcomes, interrupts, k + 1)
  }

  /** `updateAllCertificateStatus()` of the scheduler: returns the thresholds
      passed to the update service, one per call, and whether a call
      succeeded. */
  method RunStatusJob(cfg: SchedulerConfig, outcomes: seq<Result<int, Exception>>, interrupts: seq<bool>)
    returns (calls: seq<int>, success: bool)
    ensures !cfg.enabled ==> calls == [] && !success
    ensures |calls| <= if cfg.maxRetries > 0 then cfg.maxRetries else 0
    ensures forall i :: 0 <= i < |calls| ==> calls[i] == cfg.expiringSoonDays
    ensures success <==> |calls| > 0 && AttemptAt(outcomes, |calls| - 1).Ok?
    ensures forall i :: 0 <= i < |calls| - 1 ==> AttemptAt(outcomes, i).Err?
    ensures cfg.enabled ==> |calls| == CallsFrom(cfg.maxRetries, outcomes, interrupts, 0)
  {
    calls, success := [], false;
    if !cfg.enabled {
      return;
    }
    var retryCount := 0;
    while retryCount < cfg.maxRetries && !success
      invariant 0 <= retryCount && |calls| == retryCount + (if success then 1 else 0)
      invariant cfg.maxRetries > 0 ==> retryCount <= cfg.maxRetries
      invariant success ==> retryCount < cfg.maxRetries
      invariant forall i :: 0 <= i < |calls| ==> calls[i] == cfg.expiringSoonDays
      invariant forall i :: 0 <= i < retryCount ==> AttemptAt(outcomes, i).Err?
      invariant success ==> AttemptAt(outcomes, retryCount).Ok?
      invariant !success ==> CallsFrom(cfg.maxRetries, outcomes, interrupts, 0) == retryCount + CallsFrom(cfg.maxRetries, outcomes, interrupts, retryCount)
      invariant success ==> CallsFrom(cfg.maxRetries, outcomes, interrupts, 0) == retryCount + 1
      decreases cfg.maxRetries - retryCount, if success then 0 else 1
    {
      calls := calls + [cfg.expiringSoonDays];
      if AttemptAt(outcomes, retryCount).Ok? {
        success := true;
      } else {
        retryCount := retryCount + 1;
        if retryCount < cfg.maxRetries && InterruptedAt(interrupts, retryCount - 1) {
          assert CallsFrom(cfg.maxRetries, outcomes, interrupts, 0) == retryCount;
          return;
        }
      }
    }
  }

  /** When every attempt throws and no wait is interrupted, the job calls
      the service exactly `maxRetries` times. */
  lemma {:induction false} AllFailCallsMax(maxRetries: int, outcomes: seq<Result<int, Exception>>, k: nat)
    requires forall i :: 0 <= i < maxRetries ==> AttemptAt(outcomes, i).Err?
    ensures CallsFrom(maxRetries, outcomes, [], k) == if maxRetries > k then maxRetries - k else 0
    decreases if maxRetries > k then maxRetries - k else 0
  {
    if k < maxRetries {
      AllFailCallsMax(maxRetries, outcomes, k + 1);
    }
  }

  /** The first attempt succeeding means exactly one call. */
  lemma FirstSuccessOneCall(maxRetries: int, outcomes: seq<Result<int, Exception>>, interrupts: seq<bool>)
    requires maxRetries >= 1 && AttemptAt(outcomes, 0).Ok?
    ensures CallsFrom(maxRetries, outcomes, interrupts, 0) == 1
  {
  }
}
