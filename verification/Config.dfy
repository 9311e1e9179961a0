/**
  The broadcast configuration (`StoredConfig`, `BroadcastConfig`) and the clamping that
  `updateConfig` applies to a submitted configuration.
 */
module Config {
  import Recipients

  /** The five fields the user edits and the store persists. Delays in seconds, interval in minutes. */
  datatype StoredConfig = StoredConfig(
    recipientsRaw: string,
    message: string,
    minDelaySec: int,
    maxDelaySec: int,
    intervalMinutes: int)

  /** The stored fields plus the recipients derived from `recipientsRaw`. */
  datatype BroadcastConfig = BroadcastConfig(
    recipientsRaw: string,
    message: string,
    minDelaySec: int,
    maxDelaySec: int,
    intervalMinutes: int,
    recipients: seq<string>)
  {
    /** `recipients` is the normalisation of `recipientsRaw`, never set on its own. */
    predicate Derived() {
      recipients == Recipients.Sanitized(recipientsRaw)
    }
  }

  const DefaultStoredConfig: StoredConfig := StoredConfig("", "", 1, 3, 0)

  function Max(a: int, b: int): int {
    if a < b then b else a
  }

  /** The invariant the clamping establishes: no negative value, and a delay range that is not empty. */
  predicate Clamped(c: StoredConfig) {
    0 <= c.minDelaySec <= c.maxDelaySec && 0 <= c.intervalMinutes
  }

  /**
    The `safeConfig` of `updateConfig`: each number is raised to at least 0, then the maximum
    delay is raised to the minimum when it is below it. Text fields are kept as submitted.
   */
  function SafeConfig(partial: StoredConfig): (safe: StoredConfig)
    ensures Clamped(safe)
    ensures safe.recipientsRaw == partial.recipientsRaw && safe.message == partial.message
    ensures safe.minDelaySec >= partial.minDelaySec && safe.intervalMinutes >= partial.intervalMinutes
    ensures partial.minDelaySec >= 0 ==> safe.minDelaySec == partial.minDelaySec
    ensures partial.intervalMinutes >= 0 ==> safe.intervalMinutes == partial.intervalMinutes
    ensures safe.maxDelaySec >= partial.maxDelaySec
    ensures safe.maxDelaySec == partial.maxDelaySec || safe.maxDelaySec == safe.minDelaySec
    ensures partial.minDelaySec < 0 ==> safe.minDelaySec == 0
    ensures partial.intervalMinutes < 0 ==> safe.intervalMinutes == 0
  {
    var minDelay := Max(0, partial.minDelaySec);
    var maxDelay := Max(0, partial.maxDelaySec);
    StoredConfig(
      partial.recipientsRaw,
      partial.message,
      minDelay,
      if maxDelay < minDelay then minDelay else maxDelay,
      Max(0, partial.intervalMinutes))
  }

  /** A configuration that already satisfies the invariant is stored unchanged, so clamping is idempotent. */
  lemma SafeConfigFixesClamped(c: StoredConfig)
    ensures Clamped(c) ==> SafeConfig(c) == c
    ensures SafeConfig(SafeConfig(c)) == SafeConfig(c)
  {
  }

  /** The stored fields unchanged, with the recipient list derived from the raw recipient text. */
  function WithRecipients(stored: StoredConfig): (c: BroadcastConfig)
    ensures c.Derived()
    ensures c.recipientsRaw == stored.recipientsRaw && c.message == stored.message
    ensures c.minDelaySec == stored.minDelaySec && c.maxDelaySec == stored.maxDelaySec
    ensures c.intervalMinutes == stored.intervalMinutes
  {
    BroadcastConfig(
      stored.recipientsRaw, stored.message, stored.minDelaySec, stored.maxDelaySec,
      stored.intervalMinutes, Recipients.Sanitized(stored.recipientsRaw))
  }
}
