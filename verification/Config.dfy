/** Worker configuration: the bounds that startup enforces. Durations are milliseconds. */
module Config {
  import opened Core

  const MAX_ALLOWED_CONCURRENCY: nat := 1000
  const MAX_ALLOWED_POLL_INTERVAL_MS: nat := 60_000
  const MAX_ALLOWED_LEASE_DURATION_MS: nat := 3_600_000
  const MAX_ALLOWED_CHARGE_REQUEST_TIMEOUT_MS: nat := 120_000
  const MAX_ALLOWED_RETRY_MAX_DELAY_MS: nat := 3_600_000
  const MAX_ALLOWED_SHUTDOWN_GRACE_MS: nat := 3_600_000

  datatype WorkerConfig = WorkerConfig(
    concurrency: nat,
    pollInterval: nat,
    leaseDuration: nat,
    chargeRequestTimeout: nat,
    retryBaseDelay: nat,
    retryMultiplier: nat,
    retryMaxDelay: nat,
    shutdownGrace: nat
  )

  datatype ConfigError =
    | InvalidConcurrency
    | InvalidPollInterval
    | InvalidLeaseDuration
    | InvalidChargeRequestTimeout
    | InvalidRetryBaseDelay
    | InvalidRetryMultiplier
    | InvalidRetryMaxDelay
    | InvalidShutdownGrace

  function Validate(c: WorkerConfig): Result<WorkerConfig, ConfigError> {
    if c.concurrency == 0 || c.concurrency > MAX_ALLOWED_CONCURRENCY then Err(InvalidConcurrency)
    else if c.pollInterval == 0 || c.pollInterval > MAX_ALLOWED_POLL_INTERVAL_MS then Err(InvalidPollInterval)
    else if c.leaseDuration == 0 || c.leaseDuration > MAX_ALLOWED_LEASE_DURATION_MS then Err(InvalidLeaseDuration)
    else if c.chargeRequestTimeout == 0 || c.chargeRequestTimeout > MAX_ALLOWED_CHARGE_REQUEST_TIMEOUT_MS
    then Err(InvalidChargeRequestTimeout)
    else if c.retryBaseDelay == 0 then Err(InvalidRetryBaseDelay)
    else if c.retryMultiplier < 1 then Err(InvalidRetryMultiplier)
    else if c.retryMaxDelay == 0 || c.retryMaxDelay > MAX_ALLOWED_RETRY_MAX_DELAY_MS then Err(InvalidRetryMaxDelay)
    else if c.retryBaseDelay > c.retryMaxDelay then Err(InvalidRetryBaseDelay)
    else if c.shutdownGrace > MAX_ALLOWED_SHUTDOWN_GRACE_MS then Err(InvalidShutdownGrace)
    else Ok(c)
  }

  /** What startup accepts, in numbers. */
  lemma ValidatedExactly(c: WorkerConfig)
    ensures Validate(c).Ok? <==>
      && 1 <= c.concurrency <= 1000
      && 1 <= c.pollInterval <= 60_000
      && 1 <= c.leaseDuration <= 3600 * 1000
      && 1 <= c.chargeRequestTimeout <= 120 * 1000
      && 1 <= c.retryBaseDelay <= c.retryMaxDelay <= 3600 * 1000
      && c.retryMultiplier >= 1
      && c.shutdownGrace <= 3600 * 1000
    ensures Validate(c).Ok? ==> Validate(c).value == c
  {
  }
}
