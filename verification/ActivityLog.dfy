/**
  The activity log: one entry per broadcast attempt, newest first, keeping only what is at most
  seven days old. Timestamps are milliseconds since the epoch.
 */
module ActivityLog {

  const SevenDaysMs: int := 7 * 24 * 60 * 60 * 1000

  datatype LogEntry = LogEntry(
    id: string,
    timestamp: int,
    recipients: seq<string>,
    success: int,
    failed: int,
    messagePreview: string)

  /** The part of an entry the broadcaster supplies; the log adds the id and the time. */
  datatype LogSummary = LogSummary(
    recipients: seq<string>,
    success: int,
    failed: int,
    messagePreview: string)

  function Stamp(summary: LogSummary, id: string, now: int): (e: LogEntry)
    ensures e.id == id && e.timestamp == now
    ensures e.recipients == summary.recipients && e.messagePreview == summary.messagePreview
    ensures e.success == summary.success && e.failed == summary.failed
  {
    LogEntry(id, now, summary.recipients, summary.success, summary.failed, summary.messagePreview)
  }

  /** An entry survives a prune at `now` when it is no older than seven days. */
  predicate Retained(e: LogEntry, now: int) {
    e.timestamp >= now - SevenDaysMs
  }

  /** Keeps the retained entries, in their order, and drops the rest. */
  function Pruned(logs: seq<LogEntry>, now: int): (kept: seq<LogEntry>)
    ensures |kept| <= |logs|
  {
    if logs == [] then []
    else (if Retained(logs[0], now) then [logs[0]] else []) + Pruned(logs[1..], now)
  }

  /** Pruning keeps exactly the retained entries. */
  lemma {:induction false} PrunedKeepsExactlyRetained(logs: seq<LogEntry>, now: int, e: LogEntry)
    ensures e in Pruned(logs, now) <==> e in logs && Retained(e, now)
  {
    if logs != [] {
      PrunedKeepsExactlyRetained(logs[1..], now, e);
      assert logs == [logs[0]] + logs[1..];
    }
  }

  /** Pruning works entry by entry, so the relative order of the kept entries is the original one. */
  lemma {:induction false} PrunedDistributes(a: seq<LogEntry>, b: seq<LogEntry>, now: int)
    ensures Pruned(a + b, now) == Pruned(a, now) + Pruned(b, now)
  {
    if a == [] {
      assert a + b == b;
    } else {
      var head: seq<LogEntry> := if Retained(a[0], now) then [a[0]] else [];
      assert (a + b)[0] == a[0] && (a + b)[1..] == a[1..] + b;
      assert Pruned(a + b, now) == head + Pruned(a[1..] + b, now);
      PrunedDistributes(a[1..], b, now);
      assert Pruned(a, now) == head + Pruned(a[1..], now);
    }
  }

  /** A later prune subsumes an earlier one; pruning twice at the same time is pruning once. */
  lemma {:induction false} PrunedLater(logs: seq<LogEntry>, earlier: int, later: int)
    requires earlier <= later
    ensures Pruned(Pruned(logs, earlier), later) == Pruned(logs, later)
  {
    if logs != [] {
      PrunedLater(logs[1..], earlier, later);
      var head: seq<LogEntry> := if Retained(logs[0], earlier) then [logs[0]] else [];
      PrunedDistributes(head, Pruned(logs[1..], earlier), later);
    }
  }

  /** The entry just stamped at `now` is always retained, at the front. */
  lemma FreshEntryLeads(e: LogEntry, logs: seq<LogEntry>, now: int)
    requires e.timestamp == now
    ensures Pruned([e] + logs, now) == [e] + Pruned(logs, now)
  {
    PrunedDistributes([e], logs, now);
  }
}
