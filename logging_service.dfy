/** The stand-alone logging program: the same `log_recent` and `log_common` as the
    shared `Logging` module, over the same keys. */
module LoggingService {
  import opened Wrappers
  import opened Redis
  import Logging

  /** `log_recent`, the same as the shared one's. */
  method LogRecent(store: Store, queued: seq<Cmd>, name: string, message: string, severity: Logging.Severity,
                   stamp: string, conflict: bool)
    returns (r: Result<()>)
    modifies store
    ensures r == Logging.ExecReply(old(store.State()), queued + Logging.RecentCmds(name, message, severity, stamp),
                                   conflict)
    ensures store.State() == if conflict then old(store.State())
                             else ApplyAll(old(store.State()), queued + Logging.RecentCmds(name, message, severity, stamp))
  {
    r := Logging.LogRecent(store, queued, name, message, severity, stamp, conflict);
  }

  /** `log_common`, the same loop as the shared one's. */
  method LogCommon(store: Store, name: string, message: string, severity: Logging.Severity,
                   ticks: seq<Logging.Tick>)
    returns (r: Result<()>)
    modifies store
    ensures (r, store.State()) == Logging.LogCommonRun(old(store.State()), name, message, severity, ticks)
  {
    r := Logging.LogCommon(store, name, message, severity, ticks);
  }
}
