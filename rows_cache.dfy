/** Caching database rows. `schedule:` orders row ids by when their cached copy is next
    due, `delay:` holds each row's refresh interval, and `inv:{row}` holds the cached
    JSON. One pass of the `cache_rows` loop looks at the earliest entry of the schedule
    and, if it is due, either drops the row from the cache (a delay of 0 or less) or
    stores a fresh copy and reschedules it. The program reads the schedule's reply with
    member and score swapped (`CachePassAsWritten`); `CachePass` is the pass it means. */
module RowsCache {
  import opened Wrappers
  import opened Decimals
  import opened Ordering
  import opened Redis

  const DelayKey := "delay:"
  const ScheduleKey := "schedule:"

  /** The row ids are `i32`. */
  const I32_MIN := -0x8000_0000
  const I32_MAX := 0x7fff_ffff

  function InvKey(row: int): string { "inv:" + Decimal(row) }

  /** A member of `schedule:` read back as an `i32` row id. */
  function ParseRow(m: string): Option<int> {
    var v := ParseInt(m);
    if v.Some? && I32_MIN <= v.value <= I32_MAX then v else None
  }

  /** Different rows are cached under different keys, none of them a sorted set's. */
  lemma KeysApart(row: int, other: int)
    ensures InvKey(row) != DelayKey && InvKey(row) != ScheduleKey && DelayKey != ScheduleKey
    ensures InvKey(row) == InvKey(other) <==> row == other
  {
    assert InvKey(row)[0] == 'i';
    assert InvKey(row)[4..] == Decimal(row) && InvKey(other)[4..] == Decimal(other);
    if InvKey(row) == InvKey(other) {
      DecimalInjective(row, other);
    }
  }

  // ----- schedule_row_cache -----

  function ScheduleCmds(row: int, delay: int, now: int): seq<Cmd> {
    [ZAdd(DelayKey, Decimal(row), delay), ZAdd(ScheduleKey, Decimal(row), now)]
  }

  /** `schedule_row_cache` at time `now`: record the row's delay, and make it due now. */
  method ScheduleRowCache(store: Store, row: int, delay: int, now: int) returns (r: Result<()>)
    modifies store
    ensures r == Ok(())
    ensures store.State() == ApplyAll(old(store.State()), ScheduleCmds(row, delay, now))
  {
    ghost var db := store.State();
    var member := Decimal(row);
    var _ := store.Run(ZAdd("delay:", member, delay));
    var _ := store.Run(ZAdd("schedule:", member, now));
    ApplyAllTwo(db, ZAdd(DelayKey, member, delay), ZAdd(ScheduleKey, member, now));
    r := Ok(());
  }

  /** After scheduling, the row's delay is `delay` and it is due at `now`; every other
      row keeps its delay and its due time. */
  lemma ScheduleEffect(db: Db, row: int, delay: int, now: int)
    ensures var d := ApplyAll(db, ScheduleCmds(row, delay, now));
      && ZSetOf(d, DelayKey) == ZSetOf(db, DelayKey)[Decimal(row) := delay]
      && ZSetOf(d, ScheduleKey) == ZSetOf(db, ScheduleKey)[Decimal(row) := now]
      && d.strs == db.strs
  {
    var cmds := ScheduleCmds(row, delay, now);
    ApplyAllTwo(db, cmds[0], cmds[1]);
    ZAddIs(db, DelayKey, Decimal(row), delay);
    ZAddIs(Apply(db, cmds[0]), ScheduleKey, Decimal(row), now);
  }

  // ----- one pass of cache_rows -----

  /** What a pass did. */
  datatype Pass = Idle | Removed(row: int) | Refreshed(row: int)

  /** The writes of a row whose delay is 0 or less. */
  function RemoveCmds(row: int): seq<Cmd> {
    [ZRem(DelayKey, [Decimal(row)]), ZRem(ScheduleKey, [Decimal(row)]), Del([InvKey(row)])]
  }

  /** The writes of a row that is refreshed at `now` with delay `delay`. */
  function RefreshCmds(row: int, due: int, json: string): seq<Cmd> {
    [ZAdd(ScheduleKey, Decimal(row), due), Set(InvKey(row), json)]
  }

  /** What a pass does to the row it found due at time `now`: look up the row's delay,
      then drop the row (a delay of 0 or less) or store `json` and reschedule it. */
  function ActOn(db: Db, row: int, now: int, json: string): (Result<Pass>, Db) {
    var delay := ZScore(db, DelayKey, Decimal(row));
    if delay.None? then (Err(NilReply), db)
    else if delay.value <= 0 then (Ok(Removed(row)), ApplyAll(db, RemoveCmds(row)))
    else (Ok(Refreshed(row)), ApplyAll(db, RefreshCmds(row, now + delay.value, json)))
  }

  /** The intended pass at time `now`, `json` being what the database returns for the
      row: the earliest entry of `schedule:` names the row and its score is when the row
      is due. The reply, and the state after the pass. */
  function CachePass(db: Db, now: int, json: string): (Result<Pass>, Db) {
    var next := ZRange(db, ScheduleKey, 0, 0);
    if next == [] then (Ok(Idle), db)
    else if ParseRow(next[0]).None? then (Err(NotAnInteger), db)
    else if ZSetOf(db, ScheduleKey)[next[0]] > now then (Ok(Idle), db)
    else ActOn(db, ParseRow(next[0]).value, now, json)
  }

  /** The pass as `cache_rows` decodes the `ZRANGE schedule: 0 0 WITHSCORES` reply: as a
      list of `(Timestamp, RowId)` pairs, while the reply gives each member before its
      score. The member is read as the due time, and the score as the `i32` row id; a
      reply that does not convert is an error. */
  function CachePassAsWritten(db: Db, now: int, json: string): (Result<Pass>, Db) {
    var next := ZRange(db, ScheduleKey, 0, 0);
    if next == [] then (Ok(Idle), db)
    else
      var due, row := ParseInt(next[0]), ZSetOf(db, ScheduleKey)[next[0]];
      if due.None? || !(I32_MIN <= row <= I32_MAX) then (Err(NotAnInteger), db)
      else if due.value > now then (Ok(Idle), db)
      else ActOn(db, row, now, json)
  }

  /** One pass of the `cache_rows` loop, decoding the reply as the program does; the loop
      itself, and its sleep while nothing is due, are the caller's. */
  method CacheRowsPass(store: Store, now: int, json: string) returns (r: Result<Pass>)
    modifies store
    ensures (r, store.State()) == CachePassAsWritten(old(store.State()), now, json)
  {
    var next := ZRange(store.State(), "schedule:", 0, 0);
    if next == [] {
      return Ok(Idle);
    }
    // the pair is (member, score), taken as (due time, row id)
    var due := ParseInt(next[0]);
    var row := ZSetOf(store.State(), "schedule:")[next[0]];
    if due.None? || !(I32_MIN <= row <= I32_MAX) {
      return Err(NotAnInteger);
    }
    if due.value > now {
      return Ok(Idle);
    }
    r := ActOnRow(store, row, now, json);
  }

  /** The due row's delay lookup and writes. */
  method ActOnRow(store: Store, row: int, now: int, json: string) returns (r: Result<Pass>)
    modifies store
    ensures (r, store.State()) == ActOn(old(store.State()), row, now, json)
  {
    var delay := ZScore(store.State(), "delay:", Decimal(row));
    if delay.None? {
      return Err(NilReply);
    }
    if delay.value <= 0 {
      DropRow(store, row);
      r := Ok(Removed(row));
    } else {
      RefreshRow(store, row, now + delay.value, json);
      r := Ok(Refreshed(row));
    }
  }

  /** The row is no longer cached: forget its delay, its due time and its copy. */
  method DropRow(store: Store, row: int)
    modifies store
    ensures store.State() == ApplyAll(old(store.State()), RemoveCmds(row))
  {
    ghost var db := store.State();
    var member := Decimal(row);
    var _ := store.Run(ZRem("delay:", [member]));
    var _ := store.Run(ZRem("schedule:", [member]));
    var _ := store.Run(Del(["inv:" + member]));
    ApplyAllThree(db, RemoveCmds(row));
  }

  /** Reschedule the row for `due` and store its fresh copy. */
  method RefreshRow(store: Store, row: int, due: int, json: string)
    modifies store
    ensures store.State() == ApplyAll(old(store.State()), RefreshCmds(row, due, json))
  {
    ghost var db := store.State();
    var member := Decimal(row);
    var _ := store.Run(ZAdd("schedule:", member, due));
    var _ := store.Run(Set("inv:" + member, json));
    ApplyAllTwo(db, ZAdd(ScheduleKey, member, due), Set(InvKey(row), json));
  }

  lemma ApplyAllThree(db: Db, cmds: seq<Cmd>)
    requires |cmds| == 3
    ensures ApplyAll(db, cmds) == Apply(Apply(Apply(db, cmds[0]), cmds[1]), cmds[2])
  {
    assert cmds == [cmds[0]] + cmds[1..];
    ApplyAllCons(db, cmds[0], cmds[1..]);
    assert cmds[1..] == [cmds[1], cmds[2]];
    ApplyAllTwo(Apply(db, cmds[0]), cmds[1], cmds[2]);
  }

  /** The member a pass looks at is the earliest entry of the schedule. */
  lemma NextIsEarliest(db: Db)
    requires ZSetOf(db, ScheduleKey) != map[]
    ensures ZRange(db, ScheduleKey, 0, 0) == [Ordered(ZSetOf(db, ScheduleKey))[0]]
    ensures IsFirst(ZSetOf(db, ScheduleKey), ZRange(db, ScheduleKey, 0, 0)[0])
  {
    OrderedHead(ZSetOf(db, ScheduleKey));
  }

  /** A pass that acts on a row acts on the earliest entry of the schedule, and only
      when it is due. */
  lemma PassPicksEarliest(db: Db, now: int, json: string)
    requires CachePass(db, now, json).0.Ok? && !CachePass(db, now, json).0.value.Idle?
    ensures var row := CachePass(db, now, json).0.value.row; var z := ZSetOf(db, ScheduleKey);
      && IsFirst(z, Decimal(row))
      && z[Decimal(row)] <= now
  {
    NextIsEarliest(db);
    var m := ZRange(db, ScheduleKey, 0, 0)[0];
    DecimalOfParse(m, ParseInt(m).value);
  }

  /** With nothing due the pass does nothing: an empty schedule, or an earliest entry
      due after `now`. */
  lemma NothingDue(db: Db, now: int, json: string)
    requires forall m :: m in ZSetOf(db, ScheduleKey) ==> ZSetOf(db, ScheduleKey)[m] > now
    ensures CachePass(db, now, json).1 == db
    ensures CachePass(db, now, json).0.Ok? ==> CachePass(db, now, json).0.value == Idle
  {
    if ZSetOf(db, ScheduleKey) != map[] {
      NextIsEarliest(db);
    }
  }

  /** A pass as written that acts on a row takes the row id from the earliest entry's
      score, and acts when that entry's member, read as a time, is not after `now`. */
  lemma AsWrittenPicks(db: Db, now: int, json: string)
    requires CachePassAsWritten(db, now, json).0.Ok? && !CachePassAsWritten(db, now, json).0.value.Idle?
    ensures var next, z := ZRange(db, ScheduleKey, 0, 0), ZSetOf(db, ScheduleKey);
      && |next| == 1
      && IsFirst(z, next[0])
      && ParseInt(next[0]).Some? && ParseInt(next[0]).value <= now
      && CachePassAsWritten(db, now, json).0.value.row == z[next[0]]
  {
    NextIsEarliest(db);
  }

  /** The writes of a pass as written that acts on a row are those of the intended pass
      for that row: removal when its delay is 0 or less, otherwise a refresh. No other
      row's cached copy changes. */
  lemma AsWrittenEffect(db: Db, now: int, json: string)
    requires CachePassAsWritten(db, now, json).0.Ok? && !CachePassAsWritten(db, now, json).0.value.Idle?
    ensures var p := CachePassAsWritten(db, now, json).0.value; var d := CachePassAsWritten(db, now, json).1;
      var m, delay := Decimal(p.row), ZScore(db, DelayKey, Decimal(p.row));
      && delay.Some?
      && (p.Removed? ==>
           && delay.value <= 0
           && ZSetOf(d, DelayKey) == ZSetOf(db, DelayKey) - {m}
           && ZSetOf(d, ScheduleKey) == ZSetOf(db, ScheduleKey) - {m}
           && !Exists(d, InvKey(p.row)))
      && (p.Refreshed? ==>
           && delay.value > 0
           && ZSetOf(d, ScheduleKey) == ZSetOf(db, ScheduleKey)[m := now + delay.value]
           && ZSetOf(d, DelayKey) == ZSetOf(db, DelayKey)
           && Get(d, InvKey(p.row)) == Some(json))
      && (forall other :: other != p.row ==> At(d, InvKey(other)) == At(db, InvKey(other)))
  {
    var next := ZRange(db, ScheduleKey, 0, 0);
    ActOnEffect(db, ZSetOf(db, ScheduleKey)[next[0]], now, json);
  }

  /** The writes that follow from a row's delay, and the other rows' copies they keep. */
  lemma ActOnEffect(db: Db, row: int, now: int, json: string)
    requires ActOn(db, row, now, json).0.Ok?
    ensures var p, d := ActOn(db, row, now, json).0.value, ActOn(db, row, now, json).1;
      var m, delay := Decimal(row), ZScore(db, DelayKey, Decimal(row));
      && delay.Some? && p.row == row
      && (p.Removed? ==>
           && delay.value <= 0
           && ZSetOf(d, DelayKey) == ZSetOf(db, DelayKey) - {m}
           && ZSetOf(d, ScheduleKey) == ZSetOf(db, ScheduleKey) - {m}
           && !Exists(d, InvKey(row)))
      && (p.Refreshed? ==>
           && delay.value > 0
           && ZSetOf(d, ScheduleKey) == ZSetOf(db, ScheduleKey)[m := now + delay.value]
           && ZSetOf(d, DelayKey) == ZSetOf(db, DelayKey)
           && Get(d, InvKey(row)) == Some(json))
      && (forall other :: other != row ==> At(d, InvKey(other)) == At(db, InvKey(other)))
  {
    var delay := ZScore(db, DelayKey, Decimal(row));
    if delay.value <= 0 {
      var cmds := RemoveCmds(row);
      ApplyAllThree(db, cmds);
      var d1 := Apply(db, cmds[0]);
      var d2 := Apply(d1, cmds[1]);
      RemoveSteps(db, row, d1, d2, Apply(d2, cmds[2]));
    } else {
      var cmds := RefreshCmds(row, now + delay.value, json);
      ApplyAllTwo(db, cmds[0], cmds[1]);
      RefreshSteps(db, row, now + delay.value, json, Apply(db, cmds[0]), ApplyAll(db, cmds));
    }
  }

  /** The two readings of the reply agree whenever the earliest entry's member is the
      decimal rendering of its own score. */
  lemma PassesAgree(db: Db, now: int, json: string)
    requires ZSetOf(db, ScheduleKey) != map[]
    requires var m := ZRange(db, ScheduleKey, 0, 0)[0]; m == Decimal(ZSetOf(db, ScheduleKey)[m])
    ensures CachePassAsWritten(db, now, json) == CachePass(db, now, json)
  {
    NextIsEarliest(db);
    var m := ZRange(db, ScheduleKey, 0, 0)[0];
    ParseDecimal(ZSetOf(db, ScheduleKey)[m]);
  }

  /** Row 42, due at 100 with a delay of 5, at time 100: the pass as written takes 100 as
      the row id, finds no delay for it and fails without writing, where the intended pass
      refreshes row 42 and makes it due at 105. */
  lemma SwappedReplyFails(db: Db, json: string)
    requires ZSetOf(db, ScheduleKey) == map["42" := 100]
    requires ZSetOf(db, DelayKey) == map["42" := 5]
    ensures CachePassAsWritten(db, 100, json) == (Err(NilReply), db)
    ensures CachePass(db, 100, json).0 == Ok(Refreshed(42))
    ensures ZSetOf(CachePass(db, 100, json).1, ScheduleKey) == map["42" := 105]
  {
    OnlyEntry(db, "42", 100);
    assert Decimal(42) == Digits(4) + [DigitChar(2)] == "42";
    ParseDecimal(42);
    if Decimal(100) == "42" {
      DecimalInjective(100, 42);
    }
    assert CachePassAsWritten(db, 100, json) == ActOn(db, 100, 100, json);
    assert CachePass(db, 100, json) == ActOn(db, 42, 100, json);
    ActOnEffect(db, 42, 100, json);
  }

  /** A schedule of one entry: that entry is the earliest. */
  lemma OnlyEntry(db: Db, m: string, t: int)
    requires ZSetOf(db, ScheduleKey) == map[m := t]
    ensures ZRange(db, ScheduleKey, 0, 0) == [m]
  {
    NextIsEarliest(db);
  }

  /** Row 1000, due at 1000 with a delay of 5, stored under the member "7", at time 100:
      nothing is due, yet the pass as written reads 7 as the due time and refreshes row
      1000 (making it due at 105), where the intended pass stays idle. */
  lemma SwappedReplyActsEarly(db: Db, json: string)
    requires ZSetOf(db, ScheduleKey) == map["7" := 1000]
    requires ZSetOf(db, DelayKey) == map[Decimal(1000) := 5]
    ensures CachePassAsWritten(db, 100, json).0 == Ok(Refreshed(1000))
    ensures CachePassAsWritten(db, 100, json).1 != db
    ensures CachePass(db, 100, json) == (Ok(Idle), db)
  {
    OnlyEntry(db, "7", 1000);
    ParseDecimal(7);
    DecimalOfParse("7", 7);
    AsWrittenEffect(db, 100, json);
    var d := CachePassAsWritten(db, 100, json).1;
    assert Get(d, InvKey(1000)) == Some(json);
  }

  /** A pass as written that does not act on a row writes nothing. */
  lemma AsWrittenIdleWritesNothing(db: Db, now: int, json: string)
    requires CachePassAsWritten(db, now, json).0 == Ok(Idle) || CachePassAsWritten(db, now, json).0.Err?
    ensures CachePassAsWritten(db, now, json).1 == db
  {
  }

  /** The intended pass that does not act on a row writes nothing. */
  lemma IdleWritesNothing(db: Db, now: int, json: string)
    requires CachePass(db, now, json).0 == Ok(Idle) || CachePass(db, now, json).0.Err?
    ensures CachePass(db, now, json).1 == db
  {
  }

  /** A pass that drops a row removes it from both sorted sets and deletes its cached
      copy; no other row's entries change. */
  lemma RemovedEffect(db: Db, now: int, json: string)
    requires CachePass(db, now, json).0.Ok? && CachePass(db, now, json).0.value.Removed?
    ensures var row := CachePass(db, now, json).0.value.row; var d := CachePass(db, now, json).1;
      && ZScore(db, DelayKey, Decimal(row)).value <= 0
      && ZSetOf(d, DelayKey) == ZSetOf(db, DelayKey) - {Decimal(row)}
      && ZSetOf(d, ScheduleKey) == ZSetOf(db, ScheduleKey) - {Decimal(row)}
      && !Exists(d, InvKey(row))
      && (forall other :: other != row ==> At(d, InvKey(other)) == At(db, InvKey(other)))
  {
    var row := CachePass(db, now, json).0.value.row;
    var cmds := RemoveCmds(row);
    ApplyAllThree(db, cmds);
    var d1 := Apply(db, cmds[0]);
    var d2 := Apply(d1, cmds[1]);
    RemoveSteps(db, row, d1, d2, Apply(d2, cmds[2]));
  }

  lemma RemoveSteps(db: Db, row: int, d1: Db, d2: Db, d: Db)
    requires d1 == Apply(db, ZRem(DelayKey, [Decimal(row)]))
    requires d2 == Apply(d1, ZRem(ScheduleKey, [Decimal(row)]))
    requires d == Apply(d2, Del([InvKey(row)]))
    ensures ZSetOf(d, DelayKey) == ZSetOf(db, DelayKey) - {Decimal(row)}
    ensures ZSetOf(d, ScheduleKey) == ZSetOf(db, ScheduleKey) - {Decimal(row)}
    ensures !Exists(d, InvKey(row))
    ensures forall other :: other != row ==> At(d, InvKey(other)) == At(db, InvKey(other))
  {
    KeysApart(row, row);
    var m := Decimal(row);
    assert Elems([m]) == {m};
    ZRemIs(db, DelayKey, [m]);
    ZRemIs(d1, ScheduleKey, [m]);
    DelIs(d2, [InvKey(row)]);
    assert Elems([InvKey(row)]) == {InvKey(row)};
    PutZSetFrame(d1, ScheduleKey, DelayKey, ZSetOf(d1, ScheduleKey) - {m});
    RemoveFrame(d2, {InvKey(row)}, DelayKey);
    RemoveFrame(d2, {InvKey(row)}, ScheduleKey);
    RemoveOthers(db, row, d1, d2, d);
  }

  lemma RemoveOthers(db: Db, row: int, d1: Db, d2: Db, d: Db)
    requires d1 == PutZSet(db, DelayKey, ZSetOf(db, DelayKey) - {Decimal(row)})
    requires d2 == PutZSet(d1, ScheduleKey, ZSetOf(d1, ScheduleKey) - {Decimal(row)})
    requires d == RemoveKeys(d2, {InvKey(row)})
    ensures forall other :: other != row ==> At(d, InvKey(other)) == At(db, InvKey(other))
  {
    forall other | other != row
      ensures At(d, InvKey(other)) == At(db, InvKey(other))
    {
      KeysApart(row, other);
      KeysApart(other, other);
      PutZSetFrame(db, DelayKey, InvKey(other), ZSetOf(db, DelayKey) - {Decimal(row)});
      PutZSetFrame(d1, ScheduleKey, InvKey(other), ZSetOf(d1, ScheduleKey) - {Decimal(row)});
      RemoveFrame(d2, {InvKey(row)}, InvKey(other));
    }
  }

  /** A pass that refreshes a row stores its JSON and makes it due again `delay`
      seconds after `now`, strictly later; its delay and every other row's entries stay
      as they were. */
  lemma RefreshedEffect(db: Db, now: int, json: string)
    requires CachePass(db, now, json).0.Ok? && CachePass(db, now, json).0.value.Refreshed?
    ensures var row := CachePass(db, now, json).0.value.row; var d := CachePass(db, now, json).1;
      && ZScore(db, DelayKey, Decimal(row)).value > 0
      && ZSetOf(d, ScheduleKey)
         == ZSetOf(db, ScheduleKey)[Decimal(row) := now + ZScore(db, DelayKey, Decimal(row)).value]
      && ZSetOf(d, ScheduleKey)[Decimal(row)] > now
      && ZSetOf(d, DelayKey) == ZSetOf(db, DelayKey)
      && Get(d, InvKey(row)) == Some(json)
      && (forall other :: other != row ==> At(d, InvKey(other)) == At(db, InvKey(other)))
  {
    var row := CachePass(db, now, json).0.value.row;
    var due := now + ZScore(db, DelayKey, Decimal(row)).value;
    var cmds := RefreshCmds(row, due, json);
    ApplyAllTwo(db, cmds[0], cmds[1]);
    RefreshSteps(db, row, due, json, Apply(db, cmds[0]), ApplyAll(db, cmds));
  }

  lemma RefreshSteps(db: Db, row: int, due: int, json: string, d1: Db, d: Db)
    requires d1 == Apply(db, ZAdd(ScheduleKey, Decimal(row), due))
    requires d == Apply(d1, Set(InvKey(row), json))
    ensures ZSetOf(d, ScheduleKey) == ZSetOf(db, ScheduleKey)[Decimal(row) := due]
    ensures ZSetOf(d, DelayKey) == ZSetOf(db, DelayKey)
    ensures Get(d, InvKey(row)) == Some(json)
    ensures forall other :: other != row ==> At(d, InvKey(other)) == At(db, InvKey(other))
  {
    KeysApart(row, row);
    ZAddIs(db, ScheduleKey, Decimal(row), due);
    SetIs(d1, InvKey(row), json);
    forall other | other != row
      ensures At(d, InvKey(other)) == At(db, InvKey(other))
    {
      KeysApart(row, other);
      KeysApart(other, other);
    }
  }
}
