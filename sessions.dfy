/** Login sessions of the web shop: `login:` maps a session token to its user, `recent:`
    scores each token with the time it was last seen, `viewed:{token}` keeps the items a
    session looked at (a sorted set scored by view time, trimmed to the newest 25), and
    `viewed:` counts views of every item downwards. A cleaning task evicts the oldest
    sessions, a batch at a time, until at most LIMIT are left. The clock is a parameter. */
module Sessions {
  import opened Wrappers
  import opened Ordering
  import opened Redis

  const LoginKey := "login:"
  const RecentKey := "recent:"
  const ViewCountKey := "viewed:"

  /** The number of sessions the cleaning task keeps. */
  const LIMIT := 10000000
  /** The most sessions one cleaning round evicts. */
  const BATCH := 100
  /** How many recently viewed items a session keeps. */
  const VIEWED_KEEP := 25

  function ViewedKey(token: string): string { "viewed:" + token }

  function CartKey(token: string): string { "cart:" + token }

  /** A session's own keys never collide with the shared ones. */
  lemma SessionKeysApart(token: string)
    ensures ViewedKey(token) != LoginKey && ViewedKey(token) != RecentKey
    ensures CartKey(token) != LoginKey && CartKey(token) != RecentKey
    ensures CartKey(token) != ViewCountKey && CartKey(token) != ViewedKey(token)
    ensures token != "" ==> ViewedKey(token) != ViewCountKey
  {
    assert ViewedKey(token)[0] == 'v' && CartKey(token)[0] == 'c';
    assert |ViewedKey(token)| == 7 + |token|;
  }

  // ----- check_token -----

  /** `check_token`: the user logged in under `token`; reading a missing field as a
      string gives the nil-reply error. */
  method CheckToken(store: Store, token: string) returns (r: Result<string>)
    ensures r.Ok? <==> token in HashOf(store.State(), LoginKey)
    ensures r.Ok? ==> r.value == HashOf(store.State(), LoginKey)[token]
    ensures r.Err? ==> r.error == NilReply
  {
    var user := HGet(store.State(), LoginKey, token);
    if user.None? {
      return Err(NilReply);
    }
    return Ok(user.value);
  }

  // ----- update_token -----

  /** The writes `update_token` awaits, in order. */
  function UpdateCmds(token: string, user: string, item: Option<string>, timestamp: int): seq<Cmd> {
    [HSet(LoginKey, token, user), ZAdd(RecentKey, token, timestamp)]
    + if item.None? then []
      else [ZAdd(ViewedKey(token), item.value, timestamp),
            ZRemRangeByRank(ViewedKey(token), 0, -(VIEWED_KEEP + 1)),
            ZIncrBy(ViewCountKey, item.value, -1)]
  }

  /** `update_token`, at time `timestamp`. None of its commands can be refused, so every
      `?` passes. */
  method UpdateToken(store: Store, token: string, user: string, item: Option<string>, timestamp: int)
    returns (r: Result<()>)
    modifies store
    ensures r == Ok(())
    ensures store.State() == ApplyAll(old(store.State()), UpdateCmds(token, user, item, timestamp))
  {
    ghost var db := store.State();
    var _ := store.Run(HSet(LoginKey, token, user));
    var _ := store.Run(ZAdd(RecentKey, token, timestamp));
    ghost var d2 := store.State();
    if item.Some? {
      var viewed := ViewedKey(token);
      var _ := store.Run(ZAdd(viewed, item.value, timestamp));
      var _ := store.Run(ZRemRangeByRank(viewed, 0, -26));
      var _ := store.Run(ZIncrBy(ViewCountKey, item.value, -1));
      ThreeCmds(d2, ZAdd(viewed, item.value, timestamp), ZRemRangeByRank(viewed, 0, -26),
        ZIncrBy(ViewCountKey, item.value, -1));
    } else {
      assert ApplyAll(d2, []) == d2;
    }
    ApplyAllTwo(db, HSet(LoginKey, token, user), ZAdd(RecentKey, token, timestamp));
    ApplyAllConcat(db, [HSet(LoginKey, token, user), ZAdd(RecentKey, token, timestamp)],
      UpdateCmds(token, user, item, timestamp)[2..]);
    assert UpdateCmds(token, user, item, timestamp)
        == [HSet(LoginKey, token, user), ZAdd(RecentKey, token, timestamp)]
           + UpdateCmds(token, user, item, timestamp)[2..];
    return Ok(());
  }

  lemma ThreeCmds(db: Db, c0: Cmd, c1: Cmd, c2: Cmd)
    ensures ApplyAll(db, [c0, c1, c2]) == Apply(Apply(Apply(db, c0), c1), c2)
  {
    assert [c0, c1, c2] == [c0] + [c1, c2];
    ApplyAllCons(db, c0, [c1, c2]);
    ApplyAllTwo(Apply(db, c0), c1, c2);
  }

  /** The state after the two writes every update makes. */
  lemma SeenStep(db: Db, token: string, user: string, timestamp: int)
    ensures var d := Apply(Apply(db, HSet(LoginKey, token, user)), ZAdd(RecentKey, token, timestamp));
      && HashOf(d, LoginKey) == HashOf(db, LoginKey)[token := user]
      && ZSetOf(d, RecentKey) == ZSetOf(db, RecentKey)[token := timestamp]
      && d.strs == db.strs && d.sets == db.sets && d.lists == db.lists
      && (forall k :: k != LoginKey ==> HashOf(d, k) == HashOf(db, k))
      && (forall k :: k != RecentKey ==> ZSetOf(d, k) == ZSetOf(db, k))
  {
  }

  /** After an update the token maps to its user and was last seen at `timestamp`; the
      other sessions' entries are as they were. */
  lemma UpdateTokenSeen(db: Db, token: string, user: string, item: Option<string>, timestamp: int)
    ensures var d := ApplyAll(db, UpdateCmds(token, user, item, timestamp));
      && HashOf(d, LoginKey) == HashOf(db, LoginKey)[token := user]
      && ZSetOf(d, RecentKey) == ZSetOf(db, RecentKey)[token := timestamp]
  {
    var cmds := UpdateCmds(token, user, item, timestamp);
    var d2 := Apply(Apply(db, cmds[0]), cmds[1]);
    SeenStep(db, token, user, timestamp);
    ApplyAllTwo(db, cmds[0], cmds[1]);
    ApplyAllConcat(db, cmds[..2], cmds[2..]);
    assert cmds == cmds[..2] + cmds[2..];
    SessionKeysApart(token);
    if item.Some? {
      ThreeCmds(d2, cmds[2], cmds[3], cmds[4]);
      ViewStepsKeep(d2, token, item.value, timestamp, Apply(d2, cmds[2]), Apply(Apply(d2, cmds[2]), cmds[3]),
        ApplyAll(db, cmds));
    } else {
      assert cmds[2..] == [];
    }
  }

  /** The three writes of a view leave `login:` and `recent:` alone. */
  lemma ViewStepsKeep(db: Db, token: string, item: string, timestamp: int, d1: Db, d2: Db, d: Db)
    requires d1 == Apply(db, ZAdd(ViewedKey(token), item, timestamp))
    requires d2 == Apply(d1, ZRemRangeByRank(ViewedKey(token), 0, -26))
    requires d == Apply(d2, ZIncrBy(ViewCountKey, item, -1))
    ensures d.hashes == db.hashes
    ensures ZSetOf(d, RecentKey) == ZSetOf(db, RecentKey)
  {
    var v := ViewedKey(token);
    SessionKeysApart(token);
    ZAddKeeps(db, v, item, timestamp);
    ZRemRangeOtherSet(d1, v, 0, -26, RecentKey);
    ZRemRangeKeeps(d1, v, 0, -26);
    ZIncrByKeeps(d2, ViewCountKey, item, -1);
    ZAddOtherSet(db, v, item, timestamp, RecentKey);
    ZIncrByOtherSet(d2, ViewCountKey, item, -1, RecentKey);
  }

  /** The three writes of a view move the item's `viewed:` score down by one. */
  lemma ViewStepsCount(db: Db, token: string, item: string, timestamp: int, d1: Db, d2: Db, d: Db)
    requires token != ""
    requires d1 == Apply(db, ZAdd(ViewedKey(token), item, timestamp))
    requires d2 == Apply(d1, ZRemRangeByRank(ViewedKey(token), 0, -26))
    requires d == Apply(d2, ZIncrBy(ViewCountKey, item, -1))
    ensures ZSetOf(d, ViewCountKey) == ZSetOf(db, ViewCountKey)[item := ScoreOr0(db, ViewCountKey, item) - 1]
  {
    var v := ViewedKey(token);
    SessionKeysApart(token);
    ZAddOtherSet(db, v, item, timestamp, ViewCountKey);
    ZRemRangeOtherSet(d1, v, 0, -26, ViewCountKey);
    ZIncrByIs(d2, ViewCountKey, item, -1);
  }

  /** Without an item only `login:` and `recent:` change: no `viewed` key is touched. */
  lemma UpdateTokenNoItem(db: Db, token: string, user: string, timestamp: int, k: string)
    requires k != LoginKey && k != RecentKey
    ensures At(ApplyAll(db, UpdateCmds(token, user, None, timestamp)), k) == At(db, k)
  {
    var cmds := UpdateCmds(token, user, None, timestamp);
    assert cmds == [HSet(LoginKey, token, user), ZAdd(RecentKey, token, timestamp)];
    ApplyAllTwo(db, cmds[0], cmds[1]);
    Frame(db, cmds[0], k);
    Frame(Apply(db, cmds[0]), cmds[1], k);
  }

  /** A view lowers the item's `viewed:` score by exactly one (an absent item counts as
      0) and leaves every other item's score alone. An empty token is left out: its
      `viewed:{token}` is `viewed:` itself. */
  lemma UpdateTokenCountsView(db: Db, token: string, user: string, item: string, timestamp: int)
    requires token != ""
    ensures var d := ApplyAll(db, UpdateCmds(token, user, Some(item), timestamp));
      && ZScore(d, ViewCountKey, item) == Some(ScoreOr0(db, ViewCountKey, item) - 1)
      && forall m :: m != item ==> ZScore(d, ViewCountKey, m) == ZScore(db, ViewCountKey, m)
  {
    var cmds := UpdateCmds(token, user, Some(item), timestamp);
    var d2 := Apply(Apply(db, cmds[0]), cmds[1]);
    SeenStep(db, token, user, timestamp);
    ApplyAllTwo(db, cmds[0], cmds[1]);
    ApplyAllConcat(db, cmds[..2], cmds[2..]);
    assert cmds == cmds[..2] + cmds[2..];
    ThreeCmds(d2, cmds[2], cmds[3], cmds[4]);
    ViewStepsCount(d2, token, item, timestamp, Apply(d2, cmds[2]), Apply(Apply(d2, cmds[2]), cmds[3]),
      ApplyAll(db, cmds));
    assert ZSetOf(d2, ViewCountKey) == ZSetOf(db, ViewCountKey);
  }

  /** The session's viewed items after a view: the item scored at `timestamp`, then only
      the 25 highest-ranked members kept. */
  lemma UpdateTokenViewed(db: Db, token: string, user: string, item: string, timestamp: int)
    requires token != ""
    ensures var d := ApplyAll(db, UpdateCmds(token, user, Some(item), timestamp));
      ZSetOf(d, ViewedKey(token)) == WithoutRanks(ZSetOf(db, ViewedKey(token))[item := timestamp], 0, -26)
  {
    var cmds := UpdateCmds(token, user, Some(item), timestamp);
    var d2 := Apply(Apply(db, cmds[0]), cmds[1]);
    SeenStep(db, token, user, timestamp);
    SessionKeysApart(token);
    ApplyAllTwo(db, cmds[0], cmds[1]);
    ApplyAllConcat(db, cmds[..2], cmds[2..]);
    assert cmds == cmds[..2] + cmds[2..];
    ThreeCmds(d2, cmds[2], cmds[3], cmds[4]);
    var e1 := Apply(d2, cmds[2]);
    var e2 := Apply(e1, cmds[3]);
    ViewTrim(d2, ViewedKey(token), item, timestamp, e1, e2);
    ZIncrByOtherSet(e2, ViewCountKey, item, -1, ViewedKey(token));
  }

  /** Scoring the item, then trimming the session's sorted set. */
  lemma ViewTrim(db: Db, v: string, item: string, timestamp: int, d1: Db, d2: Db)
    requires d1 == Apply(db, ZAdd(v, item, timestamp))
    requires d2 == Apply(d1, ZRemRangeByRank(v, 0, -26))
    ensures ZSetOf(d2, v) == WithoutRanks(ZSetOf(db, v)[item := timestamp], 0, -26)
  {
    ZAddStores(db, v, item, timestamp);
    ZRemRangeStores(d1, v, 0, -26);
  }

  /** The trim keeps at most 25 members, exactly the highest-ranked ones, with their
      scores. */
  lemma TrimKeepsNewest(z: map<string, int>, m: string)
    ensures |WithoutRanks(z, 0, -26)| == if |z| <= VIEWED_KEEP then |z| else VIEWED_KEEP
    ensures m in WithoutRanks(z, 0, -26) <==> m in z && RankIn(z, m) >= |z| - VIEWED_KEEP
    ensures m in WithoutRanks(z, 0, -26) ==> WithoutRanks(z, 0, -26)[m] == z[m]
  {
    WithoutRanksKeeps(z, 0, -26, m);
    WithoutRanksSize(z, 0, -26);
  }

  /** The item just viewed survives the trim when it is the newest view. */
  lemma TrimKeepsLatest(z: map<string, int>, item: string, timestamp: int)
    requires forall m :: m in z && m != item ==> z[m] < timestamp
    ensures item in WithoutRanks(z[item := timestamp], 0, -26)
  {
    var z1 := z[item := timestamp];
    var o := Ordered(z1);
    var r := RankIn(z1, item);
    OrderedSorted(z1);
    if r + 1 < |o| {
      assert Precedes(z1, o[r], o[r + 1]);
      assert o[r + 1] != item by { OrderedDistinct(z1); }
    }
    TrimKeepsNewest(z1, item);
  }

  /** The sorted set ZREMRANGEBYRANK leaves loses exactly the window's members. */
  lemma WithoutRanksSize(z: map<string, int>, a: int, b: int)
    ensures var w := Window(|z|, a, b); |WithoutRanks(z, a, b)| == |z| - (w.1 - w.0)
  {
    var o := Ordered(z);
    var w := Window(|o|, a, b);
    OrderedDistinct(z);
    WindowMembers(o, w.0, w.1);
    DistinctCard(o[w.0..w.1]);
    MapMinusCard(z, set i | w.0 <= i < w.1 :: o[i]);
  }

  lemma WindowMembers(o: seq<string>, lo: nat, hi: nat)
    requires lo <= hi <= |o|
    ensures (set i | lo <= i < hi :: o[i]) == Elems(o[lo..hi])
  {
    forall m | m in Elems(o[lo..hi]) ensures m in set i | lo <= i < hi :: o[i] {
      var j :| 0 <= j < hi - lo && o[lo..hi][j] == m;
      assert o[lo + j] == m;
    }
  }

  /** A sequence without repeats has as many distinct members as entries. */
  lemma {:induction false} DistinctCard(s: seq<string>)
    requires forall i, j :: 0 <= i < j < |s| ==> s[i] != s[j]
    ensures |Elems(s)| == |s|
  {
    if s != [] {
      var t := s[1..];
      DistinctCard(t);
      assert Elems(s) == Elems(t) + {s[0]};
      assert s[0] !in t;
    }
  }

  lemma MapMinusCard(z: map<string, int>, gone: set<string>)
    requires gone <= z.Keys
    ensures |z - gone| == |z| - |gone|
  {
    assert (z - gone).Keys == z.Keys - gone;
    assert z.Keys == (z.Keys - gone) + gone;
  }

  // ----- clean_sessions_task -----

  /** How many sessions a round evicts when `size` are recorded. */
  function EvictCount(size: int): int {
    if size - LIMIT < BATCH then size - LIMIT else BATCH
  }

  /** The tokens a round evicts: the first ones in `recent:`'s rank order. */
  function Evicted(db: Db): seq<string> {
    ZRange(db, RecentKey, 0, EvictCount(ZCard(db, RecentKey)) - 1)
  }

  /** `viewed:{t}` and `cart:{t}` for each token, in order. */
  function SessionKeys(tokens: seq<string>): seq<string> {
    if tokens == [] then []
    else SessionKeys(tokens[..|tokens| - 1]) + [ViewedKey(tokens[|tokens| - 1]), CartKey(tokens[|tokens| - 1])]
  }

  /** Every token's keys are listed, and nothing names a shared key. */
  lemma {:induction false} SessionKeysCover(tokens: seq<string>)
    ensures forall t :: t in tokens ==> ViewedKey(t) in SessionKeys(tokens) && CartKey(t) in SessionKeys(tokens)
    ensures forall k :: k in SessionKeys(tokens) ==> k != LoginKey && k != RecentKey
  {
    if tokens != [] {
      var init := tokens[..|tokens| - 1];
      var last := tokens[|tokens| - 1];
      SessionKeysCover(init);
      SessionKeysApart(last);
      assert tokens == init + [last];
    }
  }

  /** The three writes of one round, awaited in order; none of them can be refused. */
  function RoundCmds(tokens: seq<string>): seq<Cmd> {
    [Del(SessionKeys(tokens)), HDel(LoginKey, tokens), ZRem(RecentKey, tokens)]
  }

  function CleanRound(db: Db): Db {
    ApplyAll(db, RoundCmds(Evicted(db)))
  }

  /** What the cleaning task leaves: rounds until at most LIMIT sessions remain. */
  function CleanAll(db: Db): Db
    decreases ZCard(db, RecentKey)
  {
    if ZCard(db, RecentKey) <= LIMIT then db
    else
      CleanRoundShrinks(db);
      CleanAll(CleanRound(db))
  }

  /** A round evicts between 1 and 100 sessions, all distinct and all recorded. */
  lemma EvictedShape(db: Db)
    requires ZCard(db, RecentKey) > LIMIT
    ensures var z := ZSetOf(db, RecentKey); var t := Evicted(db);
      && |t| == EvictCount(|z|) && 1 <= |t| <= BATCH
      && (forall i :: 0 <= i < |t| ==> t[i] in z)
      && (forall i, j :: 0 <= i < j < |t| ==> t[i] != t[j])
  {
    var z := ZSetOf(db, RecentKey);
    assert Evicted(db) == Ordered(z)[..EvictCount(|z|)];
    OrderedDistinct(z);
  }

  /** The evicted sessions are the oldest: each precedes every token the round leaves
      in `recent:`. */
  lemma EvictedOldest(db: Db)
    requires ZCard(db, RecentKey) > LIMIT
    ensures var z := ZSetOf(db, RecentKey); var t := Evicted(db);
      forall i, m :: 0 <= i < |t| && m in z && m !in t ==> Precedes(z, t[i], m)
  {
    var z := ZSetOf(db, RecentKey);
    var o := Ordered(z);
    var t := Evicted(db);
    assert t == o[..EvictCount(|z|)];
    OrderedSorted(z);
    forall i, m | 0 <= i < |t| && m in z && m !in t ensures Precedes(z, t[i], m) {
      var j := IndexOf(o, m);
      assert Precedes(z, o[i], o[j]);
    }
  }

  /** The first write of a round: the evicted sessions' own keys go, nothing else. */
  lemma DelStep(db: Db, tokens: seq<string>)
    ensures var d := Apply(db, Del(SessionKeys(tokens)));
      && ZSetOf(d, RecentKey) == ZSetOf(db, RecentKey)
      && HashOf(d, LoginKey) == HashOf(db, LoginKey)
      && forall t :: t in tokens ==> !Exists(d, ViewedKey(t)) && !Exists(d, CartKey(t))
  {
    DelIs(db, SessionKeys(tokens));
    SessionKeysCover(tokens);
  }

  /** The state a round leaves, write by write. */
  lemma RoundSteps(db: Db, t: seq<string>)
    ensures var d1 := Apply(db, Del(SessionKeys(t)));
      var d2 := Apply(d1, HDel(LoginKey, t));
      && ApplyAll(db, RoundCmds(t)) == Apply(d2, ZRem(RecentKey, t))
      && d2 == PutHash(d1, LoginKey, HashOf(d1, LoginKey) - Elems(t))
      && Apply(d2, ZRem(RecentKey, t)) == PutZSet(d2, RecentKey, ZSetOf(d2, RecentKey) - Elems(t))
  {
    var d1 := Apply(db, Del(SessionKeys(t)));
    var d2 := Apply(d1, HDel(LoginKey, t));
    ThreeCmds(db, Del(SessionKeys(t)), HDel(LoginKey, t), ZRem(RecentKey, t));
    HDelIs(d1, LoginKey, t);
    ZRemIs(d2, RecentKey, t);
  }

  /** What a round does to `recent:` and `login:`: the evicted tokens leave both, and
      everyone else's entries keep their values. */
  lemma CleanRoundEffect(db: Db)
    ensures var d := CleanRound(db); var t := Evicted(db);
      && ZSetOf(d, RecentKey) == ZSetOf(db, RecentKey) - Elems(t)
      && HashOf(d, LoginKey) == HashOf(db, LoginKey) - Elems(t)
  {
    var t := Evicted(db);
    RoundSteps(db, t);
    var d1 := Apply(db, Del(SessionKeys(t)));
    var d2 := Apply(d1, HDel(LoginKey, t));
    RoundEffect(db, t, d1, d2, CleanRound(db));
  }

  lemma RoundEffect(db: Db, t: seq<string>, d1: Db, d2: Db, d: Db)
    requires d1 == Apply(db, Del(SessionKeys(t)))
    requires d2 == PutHash(d1, LoginKey, HashOf(d1, LoginKey) - Elems(t))
    requires d == PutZSet(d2, RecentKey, ZSetOf(d2, RecentKey) - Elems(t))
    ensures ZSetOf(d, RecentKey) == ZSetOf(db, RecentKey) - Elems(t)
    ensures HashOf(d, LoginKey) == HashOf(db, LoginKey) - Elems(t)
  {
    DelStep(db, t);
  }

  /** A round deletes the evicted sessions' viewed items and carts. */
  lemma CleanRoundDeletes(db: Db, m: string)
    requires m in Evicted(db)
    ensures !Exists(CleanRound(db), ViewedKey(m)) && !Exists(CleanRound(db), CartKey(m))
  {
    var t := Evicted(db);
    var d1 := Apply(db, Del(SessionKeys(t)));
    var d2 := Apply(d1, HDel(LoginKey, t));
    RoundSteps(db, t);
    DelStep(db, t);
    SessionKeysApart(m);
    HDelZRemOtherKey(d1, LoginKey, t, ViewedKey(m));
    HDelZRemOtherKey(d1, LoginKey, t, CartKey(m));
    HDelZRemOtherKey(d2, RecentKey, t, ViewedKey(m));
    HDelZRemOtherKey(d2, RecentKey, t, CartKey(m));
  }

  /** A round above the limit shrinks `recent:` by the number evicted and never below
      LIMIT. */
  lemma CleanRoundShrinks(db: Db)
    requires ZCard(db, RecentKey) > LIMIT
    ensures ZCard(CleanRound(db), RecentKey) == ZCard(db, RecentKey) - EvictCount(ZCard(db, RecentKey))
    ensures LIMIT <= ZCard(CleanRound(db), RecentKey) < ZCard(db, RecentKey)
  {
    var z := ZSetOf(db, RecentKey);
    var t := Evicted(db);
    EvictedShape(db);
    CleanRoundEffect(db);
    DistinctCard(t);
    MapMinusCard(z, Elems(t));
  }

  /** The task ends with exactly LIMIT sessions when it started above LIMIT, and changes
      nothing otherwise. */
  lemma {:induction false} CleanAllSize(db: Db)
    ensures ZCard(db, RecentKey) <= LIMIT ==> CleanAll(db) == db
    ensures ZCard(CleanAll(db), RecentKey) == if ZCard(db, RecentKey) <= LIMIT then ZCard(db, RecentKey) else LIMIT
    decreases ZCard(db, RecentKey)
  {
    if ZCard(db, RecentKey) > LIMIT {
      CleanRoundShrinks(db);
      CleanAllSize(CleanRound(db));
    }
  }

  /** The sessions that remain are the newest: each one keeps its timestamp, and every
      evicted session precedes every remaining one in `recent:`. */
  lemma {:induction false} CleanAllKeepsNewest(db: Db, gone: string, kept: string)
    requires gone in ZSetOf(db, RecentKey) && gone !in ZSetOf(CleanAll(db), RecentKey)
    requires kept in ZSetOf(CleanAll(db), RecentKey)
    ensures kept in ZSetOf(db, RecentKey) && ZSetOf(CleanAll(db), RecentKey)[kept] == ZSetOf(db, RecentKey)[kept]
    ensures Precedes(ZSetOf(db, RecentKey), gone, kept)
    decreases ZCard(db, RecentKey)
  {
    var z := ZSetOf(db, RecentKey);
    if ZCard(db, RecentKey) > LIMIT {
      var d := CleanRound(db);
      var t := Evicted(db);
      CleanRoundShrinks(db);
      CleanRoundEffect(db);
      EvictedShape(db);
      EvictedOldest(db);
      CleanAllSurvivor(d, kept);
      assert kept !in t;
      if gone in t {
        var i :| 0 <= i < |t| && t[i] == gone;
        assert Precedes(z, t[i], kept);
      } else {
        CleanAllKeepsNewest(d, gone, kept);
      }
    }
  }

  /** A session that remains was there before, with the same timestamp. */
  lemma {:induction false} CleanAllSurvivor(db: Db, kept: string)
    requires kept in ZSetOf(CleanAll(db), RecentKey)
    ensures kept in ZSetOf(db, RecentKey) && ZSetOf(CleanAll(db), RecentKey)[kept] == ZSetOf(db, RecentKey)[kept]
    decreases ZCard(db, RecentKey)
  {
    if ZCard(db, RecentKey) > LIMIT {
      CleanRoundShrinks(db);
      CleanRoundEffect(db);
      CleanAllSurvivor(CleanRound(db), kept);
    }
  }

  /** Every session the task evicts is gone for good: its token has left `login:`, and
      it has no viewed list and no cart. */
  lemma {:induction false} CleanAllEvicts(db: Db, gone: string)
    requires gone in ZSetOf(db, RecentKey) && gone !in ZSetOf(CleanAll(db), RecentKey)
    ensures var d := CleanAll(db);
      gone !in HashOf(d, LoginKey) && !Exists(d, ViewedKey(gone)) && !Exists(d, CartKey(gone))
    decreases ZCard(db, RecentKey)
  {
    if ZCard(db, RecentKey) > LIMIT {
      CleanRoundShrinks(db);
      CleanRoundEffect(db);
      if gone in Evicted(db) {
        CleanRoundDeletes(db, gone);
        CleanAllKeepsGone(CleanRound(db), gone);
      } else {
        CleanAllEvicts(CleanRound(db), gone);
      }
    }
  }

  /** Later rounds bring no evicted session back. */
  lemma {:induction false} CleanAllKeepsGone(db: Db, m: string)
    requires m !in HashOf(db, LoginKey) && !Exists(db, ViewedKey(m)) && !Exists(db, CartKey(m))
    ensures var d := CleanAll(db);
      m !in HashOf(d, LoginKey) && !Exists(d, ViewedKey(m)) && !Exists(d, CartKey(m))
    decreases ZCard(db, RecentKey)
  {
    if ZCard(db, RecentKey) > LIMIT {
      CleanRoundShrinks(db);
      CleanRoundEffect(db);
      SessionKeysApart(m);
      RoundCreatesNothing(db, ViewedKey(m));
      RoundCreatesNothing(db, CartKey(m));
      CleanAllKeepsGone(CleanRound(db), m);
    }
  }

  /** A round creates no key besides `login:` and `recent:`. */
  lemma RoundCreatesNothing(db: Db, k: string)
    requires k != LoginKey && k != RecentKey && !Exists(db, k)
    ensures !Exists(CleanRound(db), k)
  {
    var t := Evicted(db);
    var d1 := Apply(db, Del(SessionKeys(t)));
    var d2 := Apply(d1, HDel(LoginKey, t));
    ThreeCmds(db, Del(SessionKeys(t)), HDel(LoginKey, t), ZRem(RecentKey, t));
    DelIs(db, SessionKeys(t));
    HDelZRemOtherKey(d1, LoginKey, t, k);
    HDelZRemOtherKey(d2, RecentKey, t, k);
  }

  /** The key list the task builds for a batch of tokens. */
  method CollectSessionKeys(tokens: seq<string>) returns (keys: seq<string>)
    ensures keys == SessionKeys(tokens)
    ensures |keys| == 2 * |tokens|
  {
    keys := [];
    for i := 0 to |tokens|
      invariant keys == SessionKeys(tokens[..i])
      invariant |keys| == 2 * i
    {
      keys := keys + [ViewedKey(tokens[i]), CartKey(tokens[i])];
      assert tokens[..i + 1][..i] == tokens[..i];
    }
    assert tokens[..|tokens|] == tokens;
  }

  /** One round of `clean_sessions_task`, once `size` tokens are known to be recorded
      and that is more than LIMIT. */
  method EvictRound(store: Store, size: int)
    requires size == ZCard(store.State(), RecentKey) && size > LIMIT
    modifies store
    ensures store.State() == CleanRound(old(store.State()))
  {
    var endIndex := if size - LIMIT < 100 then size - LIMIT else 100;
    var tokens := ZRange(store.State(), RecentKey, 0, endIndex - 1);
    var sessionKeys := CollectSessionKeys(tokens);
    ghost var db := store.State();
    var _ := store.Run(Del(sessionKeys));
    var _ := store.Run(HDel(LoginKey, tokens));
    var _ := store.Run(ZRem(RecentKey, tokens));
    assert tokens == Evicted(db);
    ThreeCmds(db, Del(sessionKeys), HDel(LoginKey, tokens), ZRem(RecentKey, tokens));
  }

  /** `clean_sessions_task`: while `recent:` holds more than LIMIT tokens, evict the
      oldest batch with their keys. */
  method CleanSessions(store: Store) returns (r: Result<()>)
    modifies store
    ensures r == Ok(())
    ensures store.State() == CleanAll(old(store.State()))
  {
    var size := ZCard(store.State(), RecentKey);
    while size > LIMIT
      invariant size == ZCard(store.State(), RecentKey)
      invariant CleanAll(store.State()) == CleanAll(old(store.State()))
      decreases size
    {
      ghost var db := store.State();
      EvictRound(store, size);
      CleanRoundShrinks(db);
      size := ZCard(store.State(), RecentKey);
    }
    CleanAllSize(store.State());
    return Ok(());
  }
}
