/** The retailer's variant of the login sessions. It keeps the same keys as `Sessions`,
    but a session's viewed items are a list with the newest first, and `update_token`
    queues its writes in one pipeline. The command meant to trim that list is LRANGE, a
    read, so the list is never trimmed. */
module RetailerSessions {
  import opened Wrappers
  import opened Redis
  import Sessions

  /** `check_token`, the same as the plain variant's. */
  method CheckToken(store: Store, token: string) returns (r: Result<string>)
    ensures r.Ok? <==> token in HashOf(store.State(), Sessions.LoginKey)
    ensures r.Ok? ==> r.value == HashOf(store.State(), Sessions.LoginKey)[token]
    ensures r.Err? ==> r.error == NilReply
  {
    r := Sessions.CheckToken(store, token);
  }

  /** The pipeline `update_token` queues, in order. */
  function UpdateCmds(token: string, user: string, item: Option<string>, timestamp: int): seq<Cmd> {
    [HSet(Sessions.LoginKey, token, user), ZAdd(Sessions.RecentKey, token, timestamp)]
    + if item.None? then []
      else [LPush(Sessions.ViewedKey(token), item.value),
            LRange(Sessions.ViewedKey(token), 0, 26),
            ZIncrBy(Sessions.ViewCountKey, item.value, -1)]
  }

  /** `update_token` at time `timestamp`: queue the writes, then run the pipeline. */
  method UpdateToken(store: Store, token: string, user: string, item: Option<string>, timestamp: int)
    returns (r: Result<()>)
    modifies store
    ensures r.Ok? <==> AllSucceed(old(store.State()), UpdateCmds(token, user, item, timestamp))
    ensures r.Err? ==> r.error == NotAnInteger
    ensures store.State() == ApplyAll(old(store.State()), UpdateCmds(token, user, item, timestamp))
  {
    var pipe := [HSet(Sessions.LoginKey, token, user), ZAdd(Sessions.RecentKey, token, timestamp)];
    if item.Some? {
      var viewed := Sessions.ViewedKey(token);
      pipe := pipe + [LPush(viewed, item.value)];
      pipe := pipe + [LRange(viewed, 0, 26)];
      pipe := pipe + [ZIncrBy(Sessions.ViewCountKey, item.value, -1)];
    }
    assert pipe == UpdateCmds(token, user, item, timestamp);
    var ok := store.Pipeline(pipe);
    r := if ok then Ok(()) else Err(NotAnInteger);
  }

  /** No command of the pipeline can be refused, so `update_token` always succeeds. */
  lemma {:induction false} UpdateTokenSucceeds(db: Db, token: string, user: string, item: Option<string>, timestamp: int)
    ensures AllSucceed(db, UpdateCmds(token, user, item, timestamp))
  {
    NeverRefused(db, UpdateCmds(token, user, item, timestamp));
  }

  lemma {:induction false} NeverRefused(db: Db, cmds: seq<Cmd>)
    requires forall i :: 0 <= i < |cmds| ==> !cmds[i].Incr? && !cmds[i].HIncrBy? && !cmds[i].Rename?
    ensures AllSucceed(db, cmds)
    decreases |cmds|
  {
    if cmds != [] {
      NeverRefused(Apply(db, cmds[0]), cmds[1..]);
    }
  }

  /** The state after the writes every update queues first. */
  lemma UpdateSplit(db: Db, token: string, user: string, item: string, timestamp: int)
    ensures var cmds := UpdateCmds(token, user, Some(item), timestamp);
      var d2 := Apply(Apply(db, cmds[0]), cmds[1]);
      ApplyAll(db, cmds) == Apply(Apply(Apply(d2, cmds[2]), cmds[3]), cmds[4])
  {
    var cmds := UpdateCmds(token, user, Some(item), timestamp);
    var d2 := Apply(Apply(db, cmds[0]), cmds[1]);
    ApplyAllTwo(db, cmds[0], cmds[1]);
    ApplyAllConcat(db, cmds[..2], cmds[2..]);
    assert cmds == cmds[..2] + cmds[2..];
    Sessions.ThreeCmds(d2, cmds[2], cmds[3], cmds[4]);
  }

  /** After an update the token maps to its user and was last seen at `timestamp`; the
      other sessions' entries are as they were. */
  lemma UpdateTokenSeen(db: Db, token: string, user: string, item: Option<string>, timestamp: int)
    ensures var d := ApplyAll(db, UpdateCmds(token, user, item, timestamp));
      && HashOf(d, Sessions.LoginKey) == HashOf(db, Sessions.LoginKey)[token := user]
      && ZSetOf(d, Sessions.RecentKey) == ZSetOf(db, Sessions.RecentKey)[token := timestamp]
  {
    var cmds := UpdateCmds(token, user, item, timestamp);
    var d2 := Apply(Apply(db, cmds[0]), cmds[1]);
    Sessions.SeenStep(db, token, user, timestamp);
    if item.Some? {
      UpdateSplit(db, token, user, item.value, timestamp);
      ViewStepsKeep(d2, token, item.value, Apply(d2, cmds[2]), Apply(Apply(d2, cmds[2]), cmds[3]),
        ApplyAll(db, cmds));
    } else {
      assert cmds == [cmds[0], cmds[1]];
      ApplyAllTwo(db, cmds[0], cmds[1]);
    }
  }

  /** A view's three writes leave `login:` and `recent:` alone. */
  lemma ViewStepsKeep(db: Db, token: string, item: string, d1: Db, d2: Db, d: Db)
    requires d1 == Apply(db, LPush(Sessions.ViewedKey(token), item))
    requires d2 == Apply(d1, LRange(Sessions.ViewedKey(token), 0, 26))
    requires d == Apply(d2, ZIncrBy(Sessions.ViewCountKey, item, -1))
    ensures d.hashes == db.hashes
    ensures ZSetOf(d, Sessions.RecentKey) == ZSetOf(db, Sessions.RecentKey)
    ensures d.lists == d1.lists
  {
    LPushIs(db, Sessions.ViewedKey(token), item);
    ZIncrByIs(d2, Sessions.ViewCountKey, item, -1);
  }

  /** A view pushes the item onto the head of the session's list; the LRANGE that
      follows reads it and removes nothing, so the list grows by one on every view. */
  lemma UpdateTokenViewed(db: Db, token: string, user: string, item: string, timestamp: int)
    ensures var d := ApplyAll(db, UpdateCmds(token, user, Some(item), timestamp));
      && ListOf(d, Sessions.ViewedKey(token)) == [item] + ListOf(db, Sessions.ViewedKey(token))
      && |ListOf(d, Sessions.ViewedKey(token))| == |ListOf(db, Sessions.ViewedKey(token))| + 1
  {
    var cmds := UpdateCmds(token, user, Some(item), timestamp);
    var d2 := Apply(Apply(db, cmds[0]), cmds[1]);
    Sessions.SeenStep(db, token, user, timestamp);
    UpdateSplit(db, token, user, item, timestamp);
    ViewStepsKeep(d2, token, item, Apply(d2, cmds[2]), Apply(Apply(d2, cmds[2]), cmds[3]), ApplyAll(db, cmds));
    LPushIs(d2, Sessions.ViewedKey(token), item);
  }

  /** A view lowers the item's `viewed:` score by exactly one (an absent item counts as
      0) and leaves every other item's score alone. */
  lemma UpdateTokenCountsView(db: Db, token: string, user: string, item: string, timestamp: int)
    ensures var d := ApplyAll(db, UpdateCmds(token, user, Some(item), timestamp));
      ZSetOf(d, Sessions.ViewCountKey)
        == ZSetOf(db, Sessions.ViewCountKey)[item := ScoreOr0(db, Sessions.ViewCountKey, item) - 1]
  {
    var cmds := UpdateCmds(token, user, Some(item), timestamp);
    var d2 := Apply(Apply(db, cmds[0]), cmds[1]);
    Sessions.SeenStep(db, token, user, timestamp);
    UpdateSplit(db, token, user, item, timestamp);
    var e1 := Apply(d2, cmds[2]);
    ListsOnly(d2, cmds[2]);
    ListsOnly(e1, cmds[3]);
    ZIncrByIs(Apply(e1, cmds[3]), Sessions.ViewCountKey, item, -1);
    assert ZSetOf(d2, Sessions.ViewCountKey) == ZSetOf(db, Sessions.ViewCountKey);
  }

  lemma ListsOnly(db: Db, c: Cmd)
    requires c.LPush? || c.LRange?
    ensures Apply(db, c).zsets == db.zsets
  {
  }

  /** Without an item only `login:` and `recent:` change: no `viewed` key is touched. */
  lemma UpdateTokenNoItem(db: Db, token: string, user: string, timestamp: int, k: string)
    requires k != Sessions.LoginKey && k != Sessions.RecentKey
    ensures At(ApplyAll(db, UpdateCmds(token, user, None, timestamp)), k) == At(db, k)
  {
    var cmds := UpdateCmds(token, user, None, timestamp);
    assert cmds == [HSet(Sessions.LoginKey, token, user), ZAdd(Sessions.RecentKey, token, timestamp)];
    ApplyAllTwo(db, cmds[0], cmds[1]);
    Frame(db, cmds[0], k);
    Frame(Apply(db, cmds[0]), cmds[1], k);
  }

  /** `clean_sessions_task`, the same loop as the plain variant's. */
  method CleanSessions(store: Store) returns (r: Result<()>)
    modifies store
    ensures r == Ok(())
    ensures store.State() == Sessions.CleanAll(old(store.State()))
  {
    r := Sessions.CleanSessions(store);
  }
}
