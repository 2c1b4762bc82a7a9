/** Logging into Redis. `log_recent` keeps the newest 100 lines of a (name, severity)
    pair in a list; `log_common` counts messages in a sorted set per hour, rotating the
    previous hour's set to `:last` when the stored start of the hour is older than the
    current one. The clock, the hour truncation and the RFC 2822 time stamp are given
    to each loop iteration as a `Tick`. */
module Logging {
  import opened Wrappers
  import opened Decimals
  import opened Redis

  datatype Severity = Debug | Info | Warning | Error | Critical

  /** `Display`: each severity prints as its variant name. */
  function Display(s: Severity): string {
    match s
    case Debug => "Debug"
    case Info => "Info"
    case Warning => "Warning"
    case Error => "Error"
    case Critical => "Critical"
  }

  /** The five names are distinct. */
  lemma DisplayInjective(a: Severity, b: Severity)
    ensures Display(a) == Display(b) <==> a == b
  {
    if a != b {
      assert Display(a)[0] != Display(b)[0] || |Display(a)| != |Display(b)|;
    }
  }

  /** The seconds `time::OffsetDateTime::from_unix_timestamp` accepts: the years
      -9999 to 9999. Outside them its `unwrap()` panics. */
  const MIN_UNIX := -377705116800
  const MAX_UNIX := 253402300799

  /** How many lines `log_recent` keeps. */
  const RECENT_KEEP := 100

  function RecentLogKey(name: string, severity: Severity): string {
    "recent:" + name + ":" + Display(severity)
  }

  function CommonKey(name: string, severity: Severity): string {
    "common:" + name + ":" + Display(severity)
  }

  function StartKey(name: string, severity: Severity): string { CommonKey(name, severity) + ":start" }

  function LastKey(name: string, severity: Severity): string { CommonKey(name, severity) + ":last" }

  function PStartKey(name: string, severity: Severity): string { CommonKey(name, severity) + ":pstart" }

  /** One name's severities log to different lists. */
  lemma RecentLogKeyInjective(name: string, a: Severity, b: Severity)
    requires RecentLogKey(name, a) == RecentLogKey(name, b)
    ensures a == b
  {
    var n := |"recent:" + name + ":"|;
    assert RecentLogKey(name, a)[n..] == Display(a);
    assert RecentLogKey(name, b)[n..] == Display(b);
    DisplayInjective(a, b);
  }

  /** The five keys of a (name, severity) pair are distinct. */
  lemma KeysApart(name: string, severity: Severity)
    ensures var c := CommonKey(name, severity); var s := StartKey(name, severity);
      var l := LastKey(name, severity); var p := PStartKey(name, severity);
      var r := RecentLogKey(name, severity);
      && c != s && c != l && c != p && s != l && s != p && l != p
      && r != c && r != s && r != l && r != p
  {
    var c := CommonKey(name, severity);
    assert |StartKey(name, severity)| == |c| + 6;
    assert |LastKey(name, severity)| == |c| + 5;
    assert |PStartKey(name, severity)| == |c| + 7;
    var r := RecentLogKey(name, severity);
    assert r[0] == 'r' && c[0] == 'c';
    assert StartKey(name, severity)[0] == 'c' && LastKey(name, severity)[0] == 'c';
    assert PStartKey(name, severity)[0] == 'c';
  }

  // ----- log_recent -----

  /** The two commands `log_recent` queues. */
  function RecentCmds(name: string, message: string, severity: Severity, stamp: string): seq<Cmd> {
    [LPush(RecentLogKey(name, severity), stamp + message), LTrim(RecentLogKey(name, severity), 0, RECENT_KEEP - 1)]
  }

  /** EXEC's reply as `exec(true)` returns it: a transaction the server discarded for a
      watch conflict replies nil, which is not an error; a committed one fails when one
      of its commands was refused, and the only command refused here is RENAME of a
      missing key. */
  function ExecReply(db: Db, batch: seq<Cmd>, conflict: bool): Result<()> {
    if conflict || AllSucceed(db, batch) then Ok(()) else Err(NoSuchKey)
  }

  /** `log_recent` on a transaction already holding `queued`: queue the list writes and
      execute everything. */
  method LogRecent(store: Store, queued: seq<Cmd>, name: string, message: string, severity: Severity,
                   stamp: string, conflict: bool)
    returns (r: Result<()>)
    modifies store
    ensures r == ExecReply(old(store.State()), queued + RecentCmds(name, message, severity, stamp), conflict)
    ensures store.State() == if conflict then old(store.State())
                             else ApplyAll(old(store.State()), queued + RecentCmds(name, message, severity, stamp))
  {
    var destination := "recent:" + name + ":" + Display(severity);
    var line := stamp + message;
    var batch := queued + [LPush(destination, line)];
    batch := batch + [LTrim(destination, 0, 99)];
    assert batch == queued + RecentCmds(name, message, severity, stamp);
    var ok := AllSucceed(store.State(), batch);
    var committed := store.Exec(batch, conflict);
    r := if !committed || ok then Ok(()) else Err(NoSuchKey);
  }

  /** After `log_recent` the newest line is at the head and the list holds at most 100
      lines: the new one followed by the newest of the old ones. */
  lemma RecentEffect(db: Db, name: string, message: string, severity: Severity, stamp: string)
    ensures var k := RecentLogKey(name, severity); var old_ := ListOf(db, k);
      var l := ListOf(ApplyAll(db, RecentCmds(name, message, severity, stamp)), k);
      && |l| == (if |old_| < RECENT_KEEP then |old_| + 1 else RECENT_KEEP)
      && l[0] == stamp + message
      && l[1..] == old_[..|l| - 1]
  {
    var k := RecentLogKey(name, severity);
    var cmds := RecentCmds(name, message, severity, stamp);
    ApplyAllTwo(db, cmds[0], cmds[1]);
    LPushIs(db, k, stamp + message);
  }

  /** `log_recent` writes its own list and nothing else. */
  lemma RecentFrame(db: Db, name: string, message: string, severity: Severity, stamp: string, k: string)
    requires k != RecentLogKey(name, severity)
    ensures At(ApplyAll(db, RecentCmds(name, message, severity, stamp)), k) == At(db, k)
  {
    var cmds := RecentCmds(name, message, severity, stamp);
    ApplyAllTwo(db, cmds[0], cmds[1]);
    Frame(db, cmds[0], k);
    Frame(Apply(db, cmds[0]), cmds[1], k);
  }

  // ----- log_common -----

  /** What one iteration of the loop is given: the start of the current hour, the time
      stamp `log_recent` prefixes, and whether another client wrote the watched start
      key before EXEC. */
  datatype Tick = Tick(hourStart: int, stamp: string, conflict: bool)

  /** The rotation `log_common` queues before handing the transaction to `log_recent`. */
  function RotateCmds(name: string, message: string, severity: Severity, hourStart: int): seq<Cmd> {
    [Rename(CommonKey(name, severity), LastKey(name, severity)),
     Rename(StartKey(name, severity), PStartKey(name, severity)),
     Set(StartKey(name, severity), Decimal(hourStart)),
     ZIncrBy(CommonKey(name, severity), message, 1)]
  }

  function RotateBatch(name: string, message: string, severity: Severity, t: Tick): seq<Cmd> {
    RotateCmds(name, message, severity, t.hourStart) + RecentCmds(name, message, severity, t.stamp)
  }

  /** The stored start of the hour reads as an older hour than `hourStart`. */
  predicate StaleStart(db: Db, name: string, severity: Severity, hourStart: int) {
    var start := Get(db, StartKey(name, severity));
    && start.Some?
    && ParseInt(start.value).Some?
    && MIN_UNIX <= ParseInt(start.value).value <= MAX_UNIX
    && ParseInt(start.value).value < hourStart
  }

  /** One iteration of the loop: its error, if it ends `log_common`, and the state after
      it. */
  function Attempt(db: Db, name: string, message: string, severity: Severity, t: Tick): (Result<()>, Db) {
    var start := Get(db, StartKey(name, severity));
    if start.None? then (Ok(()), db)
    else if ParseInt(start.value).None? then (Err(NotAnInteger), db)
    else if !(MIN_UNIX <= ParseInt(start.value).value <= MAX_UNIX) then (Err(Panicked), db)
    else if ParseInt(start.value).value >= t.hourStart then (Ok(()), db)
    else
      var batch := RotateBatch(name, message, severity, t);
      (ExecReply(db, batch, t.conflict), if t.conflict then db else ApplyAll(db, batch))
  }

  /** `log_common` over the iterations its deadline allows. */
  function LogCommonRun(db: Db, name: string, message: string, severity: Severity, ticks: seq<Tick>)
    : (Result<()>, Db)
    decreases |ticks|
  {
    if ticks == [] then (Ok(()), db)
    else
      var a := Attempt(db, name, message, severity, ticks[0]);
      if a.0.Err? then a else LogCommonRun(a.1, name, message, severity, ticks[1..])
  }

  /** `log_common`: until the deadline, WATCH the start key, read it, and when it names
      an older hour rotate the counts and log the message. */
  method LogCommon(store: Store, name: string, message: string, severity: Severity, ticks: seq<Tick>)
    returns (r: Result<()>)
    modifies store
    ensures (r, store.State()) == LogCommonRun(old(store.State()), name, message, severity, ticks)
  {
    ghost var db := store.State();
    var i := 0;
    while i < |ticks|
      invariant i <= |ticks|
      invariant LogCommonRun(db, name, message, severity, ticks)
             == LogCommonRun(store.State(), name, message, severity, ticks[i..])
    {
      assert ticks[i..][1..] == ticks[i + 1..];
      var reply := Iteration(store, name, message, severity, ticks[i]);
      if reply.Err? {
        return reply;
      }
      i := i + 1;
    }
    return Ok(());
  }

  /** One pass of the loop in `log_common`: read the watched start key and, when it names
      an older hour, queue the rotation and let `log_recent` execute the transaction. */
  method Iteration(store: Store, name: string, message: string, severity: Severity, t: Tick)
    returns (r: Result<()>)
    modifies store
    ensures (r, store.State()) == Attempt(old(store.State()), name, message, severity, t)
  {
    var destination := "common:" + name + ":" + Display(severity);
    var startKey := destination + ":start";
    var existing := Get(store.State(), startKey);
    r := Ok(());
    if existing.Some? {
      var parsed := ParseInt(existing.value);
      if parsed.None? {
        return Err(NotAnInteger);
      }
      if !(MIN_UNIX <= parsed.value <= MAX_UNIX) {
        return Err(Panicked);
      }
      if parsed.value < t.hourStart {
        var queued := [Rename(destination, destination + ":last"), Rename(startKey, destination + ":pstart"),
                       Set(startKey, Decimal(t.hourStart)), ZIncrBy(destination, message, 1)];
        assert queued == RotateCmds(name, message, severity, t.hourStart);
        r := LogRecent(store, queued, name, message, severity, t.stamp, t.conflict);
      }
    }
  }

  /** An iteration that finds no start key, or one naming the current hour or a later
      one, stages nothing. */
  lemma AttemptIdle(db: Db, name: string, message: string, severity: Severity, t: Tick)
    requires var start := Get(db, StartKey(name, severity));
      || start.None?
      || (ParseInt(start.value).Some? && MIN_UNIX <= ParseInt(start.value).value <= MAX_UNIX
          && ParseInt(start.value).value >= t.hourStart)
    ensures Attempt(db, name, message, severity, t) == (Ok(()), db)
  {
  }

  /** An unreadable start key ends `log_common` with an error and no writes. */
  lemma AttemptFails(db: Db, name: string, message: string, severity: Severity, t: Tick)
    requires Get(db, StartKey(name, severity)).Some?
    requires !(ParseInt(Get(db, StartKey(name, severity)).value).Some?
               && MIN_UNIX <= ParseInt(Get(db, StartKey(name, severity)).value).value <= MAX_UNIX)
    ensures Attempt(db, name, message, severity, t).0.Err?
    ensures Attempt(db, name, message, severity, t).1 == db
  {
  }

  // The rotation, one command at a time.

  lemma RotateStep1(db: Db, name: string, severity: Severity, d1: Db)
    requires d1 == Apply(db, Rename(CommonKey(name, severity), LastKey(name, severity)))
    ensures Exists(db, CommonKey(name, severity)) ==>
      At(d1, LastKey(name, severity)) == At(db, CommonKey(name, severity))
    ensures !Exists(d1, CommonKey(name, severity))
    ensures At(d1, StartKey(name, severity)) == At(db, StartKey(name, severity))
    ensures At(d1, RecentLogKey(name, severity)) == At(db, RecentLogKey(name, severity))
  {
    KeysApart(name, severity);
    var c := CommonKey(name, severity);
    var l := LastKey(name, severity);
    if Exists(db, c) {
      RenameMoves(db, c, l);
    }
    Frame(db, Rename(c, l), StartKey(name, severity));
    Frame(db, Rename(c, l), RecentLogKey(name, severity));
  }

  lemma RotateStep2(d1: Db, name: string, severity: Severity, d2: Db)
    requires Exists(d1, StartKey(name, severity))
    requires d2 == Apply(d1, Rename(StartKey(name, severity), PStartKey(name, severity)))
    ensures At(d2, PStartKey(name, severity)) == At(d1, StartKey(name, severity))
    ensures At(d2, LastKey(name, severity)) == At(d1, LastKey(name, severity))
    ensures At(d2, CommonKey(name, severity)) == At(d1, CommonKey(name, severity))
    ensures At(d2, RecentLogKey(name, severity)) == At(d1, RecentLogKey(name, severity))
  {
    KeysApart(name, severity);
    var s := StartKey(name, severity);
    var p := PStartKey(name, severity);
    RenameMoves(d1, s, p);
    Frame(d1, Rename(s, p), LastKey(name, severity));
    Frame(d1, Rename(s, p), CommonKey(name, severity));
    Frame(d1, Rename(s, p), RecentLogKey(name, severity));
  }

  lemma RotateStep3(d2: Db, name: string, severity: Severity, hourStart: int, d3: Db)
    requires d3 == Apply(d2, Set(StartKey(name, severity), Decimal(hourStart)))
    ensures Get(d3, StartKey(name, severity)) == Some(Decimal(hourStart))
    ensures At(d3, PStartKey(name, severity)) == At(d2, PStartKey(name, severity))
    ensures At(d3, LastKey(name, severity)) == At(d2, LastKey(name, severity))
    ensures At(d3, CommonKey(name, severity)) == At(d2, CommonKey(name, severity))
    ensures At(d3, RecentLogKey(name, severity)) == At(d2, RecentLogKey(name, severity))
  {
    KeysApart(name, severity);
    var s := StartKey(name, severity);
    SetStores(d2, s, Decimal(hourStart));
    Frame(d2, Set(s, Decimal(hourStart)), PStartKey(name, severity));
    Frame(d2, Set(s, Decimal(hourStart)), LastKey(name, severity));
    Frame(d2, Set(s, Decimal(hourStart)), CommonKey(name, severity));
    Frame(d2, Set(s, Decimal(hourStart)), RecentLogKey(name, severity));
  }

  lemma RotateStep4(d3: Db, name: string, message: string, severity: Severity, d4: Db)
    requires d4 == Apply(d3, ZIncrBy(CommonKey(name, severity), message, 1))
    ensures ZSetOf(d4, CommonKey(name, severity)) == ZSetOf(d3, CommonKey(name, severity))[
      message := ScoreOr0(d3, CommonKey(name, severity), message) + 1]
    ensures At(d4, StartKey(name, severity)) == At(d3, StartKey(name, severity))
    ensures At(d4, PStartKey(name, severity)) == At(d3, PStartKey(name, severity))
    ensures At(d4, LastKey(name, severity)) == At(d3, LastKey(name, severity))
    ensures At(d4, RecentLogKey(name, severity)) == At(d3, RecentLogKey(name, severity))
  {
    KeysApart(name, severity);
    var c := CommonKey(name, severity);
    ZIncrByIs(d3, c, message, 1);
    Frame(d3, ZIncrBy(c, message, 1), StartKey(name, severity));
    Frame(d3, ZIncrBy(c, message, 1), PStartKey(name, severity));
    Frame(d3, ZIncrBy(c, message, 1), LastKey(name, severity));
    Frame(d3, ZIncrBy(c, message, 1), RecentLogKey(name, severity));
  }

  /** The four rotation commands: the old counts move to `:last`, the old start to
      `:pstart`, the start key names the current hour, and the message is counted once
      in a fresh sorted set. Only the first RENAME can be refused, when there are no
      counts yet. */
  lemma RotateEffect(db: Db, name: string, message: string, severity: Severity, hourStart: int)
    requires Get(db, StartKey(name, severity)).Some?
    ensures var d := ApplyAll(db, RotateCmds(name, message, severity, hourStart));
      && Get(d, StartKey(name, severity)) == Some(Decimal(hourStart))
      && Get(d, PStartKey(name, severity)) == Get(db, StartKey(name, severity))
      && (Exists(db, CommonKey(name, severity)) ==>
           At(d, LastKey(name, severity)) == At(db, CommonKey(name, severity)))
      && ZSetOf(d, CommonKey(name, severity)) == map[message := 1]
      && ListOf(d, RecentLogKey(name, severity)) == ListOf(db, RecentLogKey(name, severity))
      && (AllSucceed(db, RotateCmds(name, message, severity, hourStart)) <==> Exists(db, CommonKey(name, severity)))
  {
    var cmds := RotateCmds(name, message, severity, hourStart);
    var d1 := Apply(db, cmds[0]);
    var d2 := Apply(d1, cmds[1]);
    var d3 := Apply(d2, cmds[2]);
    var d4 := Apply(d3, cmds[3]);
    RotateStep1(db, name, severity, d1);
    RotateStep2(d1, name, severity, d2);
    RotateStep3(d2, name, severity, hourStart, d3);
    RotateStep4(d3, name, message, severity, d4);
    FourCmds(db, cmds);
    RotateSucceeds(db, cmds, d1, d2, d3);
  }

  lemma FourCmds(db: Db, cmds: seq<Cmd>)
    requires |cmds| == 4
    ensures ApplyAll(db, cmds) == Apply(Apply(Apply(Apply(db, cmds[0]), cmds[1]), cmds[2]), cmds[3])
  {
    assert cmds == [cmds[0]] + cmds[1..];
    ApplyAllCons(db, cmds[0], cmds[1..]);
    var d1 := Apply(db, cmds[0]);
    assert cmds[1..] == [cmds[1]] + cmds[2..];
    ApplyAllCons(d1, cmds[1], cmds[2..]);
    assert cmds[2..] == [cmds[2], cmds[3]];
    ApplyAllTwo(Apply(d1, cmds[1]), cmds[2], cmds[3]);
  }

  lemma RotateSucceeds(db: Db, cmds: seq<Cmd>, d1: Db, d2: Db, d3: Db)
    requires |cmds| == 4 && cmds[0].Rename? && cmds[1].Rename? && cmds[2].Set? && cmds[3].ZIncrBy?
    requires d1 == Apply(db, cmds[0]) && d2 == Apply(d1, cmds[1]) && d3 == Apply(d2, cmds[2])
    requires Exists(d1, cmds[1].key)
    ensures AllSucceed(db, cmds) <==> Exists(db, cmds[0].key)
  {
    var d4 := Apply(d3, cmds[3]);
    assert cmds[1..][1..] == cmds[2..];
    assert cmds[2..][1..] == cmds[3..];
    assert cmds[3..][1..] == [];
    assert AllSucceed(d4, cmds[3..][1..]);
    assert AllSucceed(d3, cmds[3..]);
    assert AllSucceed(d2, cmds[2..]);
    assert AllSucceed(d1, cmds[1..]);
  }

  /** A rotation that commits. */
  lemma AttemptRotates(db: Db, name: string, message: string, severity: Severity, t: Tick)
    requires StaleStart(db, name, severity, t.hourStart) && !t.conflict
    ensures var a := Attempt(db, name, message, severity, t); var d := a.1;
      && Get(d, StartKey(name, severity)) == Some(Decimal(t.hourStart))
      && Get(d, PStartKey(name, severity)) == Get(db, StartKey(name, severity))
      && (Exists(db, CommonKey(name, severity)) ==>
           At(d, LastKey(name, severity)) == At(db, CommonKey(name, severity)))
      && ZSetOf(d, CommonKey(name, severity)) == map[message := 1]
      && |ListOf(d, RecentLogKey(name, severity))| > 0
      && ListOf(d, RecentLogKey(name, severity))[0] == t.stamp + message
      && (a.0.Ok? <==> Exists(db, CommonKey(name, severity)))
  {
    var rot := RotateCmds(name, message, severity, t.hourStart);
    var rec := RecentCmds(name, message, severity, t.stamp);
    var d4 := ApplyAll(db, rot);
    RotateEffect(db, name, message, severity, t.hourStart);
    ApplyAllConcat(db, rot, rec);
    RecentEffect(d4, name, message, severity, t.stamp);
    KeysApart(name, severity);
    RecentFrame(d4, name, message, severity, t.stamp, StartKey(name, severity));
    RecentFrame(d4, name, message, severity, t.stamp, PStartKey(name, severity));
    RecentFrame(d4, name, message, severity, t.stamp, LastKey(name, severity));
    RecentFrame(d4, name, message, severity, t.stamp, CommonKey(name, severity));
    AllSucceedConcat(db, rot, rec);
    RecentSucceeds(d4, name, message, severity, t.stamp);
  }

  lemma RecentSucceeds(db: Db, name: string, message: string, severity: Severity, stamp: string)
    ensures AllSucceed(db, RecentCmds(name, message, severity, stamp))
  {
    var cmds := RecentCmds(name, message, severity, stamp);
    assert cmds[1..] == [cmds[1]];
    assert cmds[1..][1..] == [];
  }

  /** A batch succeeds when both of its parts do, the second from where the first ends. */
  lemma {:induction false} AllSucceedConcat(db: Db, a: seq<Cmd>, b: seq<Cmd>)
    ensures AllSucceed(db, a + b) <==> AllSucceed(db, a) && AllSucceed(ApplyAll(db, a), b)
    decreases |a|
  {
    if a == [] {
      assert a + b == b;
    } else {
      assert (a + b)[0] == a[0];
      assert (a + b)[1..] == a[1..] + b;
      AllSucceedConcat(Apply(db, a[0]), a[1..], b);
    }
  }

  /** Once a rotation has committed, no later iteration in the same hour rotates again:
      the start key now names that hour. */
  lemma NoSecondRotation(db: Db, name: string, message: string, severity: Severity, t: Tick, t2: Tick)
    requires StaleStart(db, name, severity, t.hourStart) && !t.conflict
    requires MIN_UNIX <= t.hourStart <= MAX_UNIX
    requires t2.hourStart <= t.hourStart
    ensures var d := Attempt(db, name, message, severity, t).1;
      Attempt(d, name, message, severity, t2) == (Ok(()), d)
  {
    AttemptRotates(db, name, message, severity, t);
    ParseDecimal(t.hourStart);
  }

  /** While the start key names hour `h`, every iteration of that hour or an earlier
      one stages nothing, so the rest of the loop leaves the store as it is. */
  lemma {:induction false} SameHourStable(d: Db, name: string, message: string, severity: Severity, h: int,
                                          ticks: seq<Tick>)
    requires Get(d, StartKey(name, severity)) == Some(Decimal(h)) && MIN_UNIX <= h <= MAX_UNIX
    requires forall i :: 0 <= i < |ticks| ==> ticks[i].hourStart <= h
    ensures LogCommonRun(d, name, message, severity, ticks) == (Ok(()), d)
    decreases |ticks|
  {
    if ticks != [] {
      ParseDecimal(h);
      AttemptIdle(d, name, message, severity, ticks[0]);
      SameHourStable(d, name, message, severity, h, ticks[1..]);
    }
  }

  /** Without a start key `log_common` never writes: only a rotation counts a message or
      logs it, and nothing creates the start key but a rotation. */
  lemma {:induction false} NeverStarted(db: Db, name: string, message: string, severity: Severity,
                                        ticks: seq<Tick>)
    requires Get(db, StartKey(name, severity)).None?
    ensures LogCommonRun(db, name, message, severity, ticks) == (Ok(()), db)
    decreases |ticks|
  {
    if ticks != [] {
      AttemptIdle(db, name, message, severity, ticks[0]);
      NeverStarted(db, name, message, severity, ticks[1..]);
    }
  }
}
