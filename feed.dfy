/** The article-voting feed: posting articles, grouping them, reading them a page at a
    time by score, and up/down votes that move the score by a fixed ratio. */
module Feed {
  import opened Wrappers
  import opened Decimals
  import opened Ordering
  import opened Redis

  const SECONDS_IN_DAY: int := 86400
  const VOTES_REQUIRED: int := 200
  /** The score a single vote is worth: a day's worth of seconds per 200 votes (432). */
  const RATIO: int := SECONDS_IN_DAY / VOTES_REQUIRED
  const ONE_WEEK_IN_SECONDS: int := SECONDS_IN_DAY * 7
  const ARTICLES_PER_PAGE: int := 25
  const U32_LIMIT: int := 0x1_0000_0000

  const CounterKey := "article:"
  const ScoreKey := "score:"
  const TimeKey := "time:"

  function ArticleKey(id: int): string { "article:" + Decimal(id) }

  /** `upvoted:{id}` or `downvoted:{id}`: the users who voted one way on an article. */
  function VotersKey(direction: string, id: string): string { direction + ":" + id }

  function GroupKey(group: string): string { "group:" + group }

  /** Where a group's articles are ranked by score: `score:{group}`. */
  function GroupScoreKey(group: string): string { "score:" + group }

  // ----- article ids -----

  /** The text before the first `:`, all of it when there is none. */
  function UpToColon(s: string): (r: string)
    ensures ':' !in r
  {
    if s == [] || s[0] == ':' then [] else [s[0]] + UpToColon(s[1..])
  }

  /** The text after the first `:`, if there is one. */
  function AfterColon(s: string): Option<string> {
    if s == [] then None else if s[0] == ':' then Some(s[1..]) else AfterColon(s[1..])
  }

  /** The second `:`-separated piece of an article key, where a trailing empty piece does
      not count (Rust's `split_terminator(':').skip(1).next()`). */
  function ArticleIdOf(article: string): Option<string> {
    match AfterColon(article)
    case None => None
    case Some(rest) => if rest == [] then None else Some(UpToColon(rest))
  }

  lemma {:induction false} AfterColonPrefix(p: string, rest: string)
    requires ':' !in p
    ensures AfterColon(p + ":" + rest) == Some(rest)
    decreases |p|
  {
    if p == [] {
      assert p + ":" + rest == [':'] + rest;
    } else {
      assert (p + ":" + rest)[1..] == p[1..] + ":" + rest;
      AfterColonPrefix(p[1..], rest);
    }
  }

  lemma {:induction false} UpToColonWhole(s: string)
    requires ':' !in s
    ensures UpToColon(s) == s
    decreases |s|
  {
    if s != [] {
      UpToColonWhole(s[1..]);
    }
  }

  /** The article key `post_article` builds gives back its number as the id
      `article_vote` extracts. */
  lemma ArticleIdOfKey(n: int)
    ensures ArticleIdOf(ArticleKey(n)) == Some(Decimal(n))
  {
    var d := Decimal(n);
    assert ':' !in d by {
      forall i | 0 <= i < |d| ensures d[i] != ':' {
        assert d[i] == '-' || IsDigit(d[i]);
      }
    }
    assert ArticleKey(n) == "article" + ":" + d;
    AfterColonPrefix("article", d);
    UpToColonWhole(d);
  }

  // ----- post_article -----

  function ArticleFields(user: string, title: string, link: string, now: int): seq<(string, string)> {
    [("title", title), ("link", link), ("author", user), ("time", Decimal(now)), ("upvotes", "1"), ("downvotes", "0")]
  }

  /** The writes after the id is drawn, each awaited in turn: the author's own upvote,
      the article hash, and its entries in `score:` and `time:` (ZADD with INCR, which
      adds to any earlier score). None of them can be refused. */
  function PostWrites(d1: Db, id: int, user: string, title: string, link: string, now: int): Db {
    var article := ArticleKey(id);
    var d2 := Apply(d1, SAdd(VotersKey("upvoted", Decimal(id)), user));
    var d3 := Apply(d2, HMSet(article, ArticleFields(user, title, link, now)));
    var d4 := Apply(d3, ZIncrBy(ScoreKey, article, now + RATIO));
    Apply(d4, ZIncrBy(TimeKey, article, now))
  }

  /** What `post_article` returns and leaves behind. The id is the reply of INCR on
      `article:`, read as a `u32`. */
  function PostRun(db: Db, user: string, title: string, link: string, now: int): (Result<int>, Db) {
    var c := Counter(Get(db, CounterKey));
    if c.None? then (Err(NotAnInteger), db)
    else
      var id := c.value + 1;
      var d1 := Apply(db, Incr(CounterKey));
      if !(0 <= id < U32_LIMIT) then (Err(NotAnInteger), d1)
      else (Ok(id), PostWrites(d1, id, user, title, link, now))
  }

  method PostArticle(store: Store, user: string, title: string, link: string, now: int)
    returns (r: Result<int>)
    modifies store
    ensures (r, store.State()) == PostRun(old(store.State()), user, title, link, now)
  {
    ghost var db := store.State();
    var reply := store.Incr(CounterKey);
    if reply.Err? {
      return Err(reply.error);
    }
    var id := reply.value;
    if !(0 <= id < U32_LIMIT) {
      return Err(NotAnInteger);
    }
    ghost var d1 := store.State();
    var voted := VotersKey("upvoted", Decimal(id));
    var ok := store.Run(SAdd(voted, user));
    // EXPIRE of the voters set is not modelled
    var article := ArticleKey(id);
    ok := store.Run(HMSet(article, ArticleFields(user, title, link, now)));
    ok := store.Run(ZIncrBy(ScoreKey, article, now + RATIO));
    ok := store.Run(ZIncrBy(TimeKey, article, now));
    assert store.State() == PostWrites(d1, id, user, title, link, now);
    PostRunOk(db, user, title, link, now, id);
    return Ok(id);
  }

  /** A counter that reads as an integer and a new id that fits a `u32`: the post goes
      through. */
  lemma PostRunOk(db: Db, user: string, title: string, link: string, now: int, id: int)
    requires Counter(Get(db, CounterKey)) == Some(id - 1) && 0 <= id < U32_LIMIT
    ensures PostRun(db, user, title, link, now) == (Ok(id), PostWrites(Apply(db, Incr(CounterKey)), id, user, title, link, now))
  {
  }

  /** The writes after INCR leave the counter alone and add the author to the article's
      upvoters. */
  lemma PostWritesVoters(d1: Db, id: int, user: string, title: string, link: string, now: int)
    ensures var after := PostWrites(d1, id, user, title, link, now);
            && after.strs == d1.strs
            && Members(after, VotersKey("upvoted", Decimal(id))) == Members(d1, VotersKey("upvoted", Decimal(id))) + {user}
  {
    var article := ArticleKey(id);
    var voters := VotersKey("upvoted", Decimal(id));
    var d2 := Apply(d1, SAdd(voters, user));
    var d3 := Apply(d2, HMSet(article, ArticleFields(user, title, link, now)));
    var d4 := Apply(d3, ZIncrBy(ScoreKey, article, now + RATIO));
    SAddMembers(d1, voters, user, voters);
    SAddKeeps(d1, voters, user);
    HMSetKeeps(d2, article, ArticleFields(user, title, link, now));
    ZIncrByKeeps(d3, ScoreKey, article, now + RATIO);
    ZIncrByKeeps(d4, TimeKey, article, now);
  }

  /** A posted article: its id is one past the old counter, the counter now reads that
      id, and the author is the article's first upvoter. */
  lemma PostArticleId(db: Db, user: string, title: string, link: string, now: int, id: int)
    requires Counter(Get(db, CounterKey)) == Some(id - 1) && 0 <= id < U32_LIMIT
    ensures var (r, after) := PostRun(db, user, title, link, now);
            && r == Ok(id)
            && Get(after, CounterKey) == Some(Decimal(id))
            && Members(after, VotersKey("upvoted", Decimal(id))) == Members(db, VotersKey("upvoted", Decimal(id))) + {user}
  {
    var d1 := Apply(db, Incr(CounterKey));
    PostRunOk(db, user, title, link, now, id);
    IncrStores(db, CounterKey);
    IncrKeeps(db, CounterKey);
    PostWritesVoters(d1, id, user, title, link, now);
  }

  /** HMSET of the article's fields. */
  lemma ArticleFieldsStored(db: Db, article: string, user: string, title: string, link: string, now: int)
    ensures var d := Apply(db, HMSet(article, ArticleFields(user, title, link, now)));
            && HGet(d, article, "title") == Some(title)
            && HGet(d, article, "link") == Some(link)
            && HGet(d, article, "author") == Some(user)
            && HGet(d, article, "time") == Some(Decimal(now))
            && HGet(d, article, "upvotes") == Some("1")
            && HGet(d, article, "downvotes") == Some("0")
  {
    var fields := ArticleFields(user, title, link, now);
    HMSetStores(db, article, fields, 0);
    HMSetStores(db, article, fields, 1);
    HMSetStores(db, article, fields, 2);
    HMSetStores(db, article, fields, 3);
    HMSetStores(db, article, fields, 4);
    HMSetStores(db, article, fields, 5);
  }

  /** The writes after INCR leave the article's hash holding its fields. */
  lemma PostWritesHash(d1: Db, id: int, user: string, title: string, link: string, now: int)
    ensures var article := ArticleKey(id);
            var after := PostWrites(d1, id, user, title, link, now);
            && HGet(after, article, "title") == Some(title)
            && HGet(after, article, "link") == Some(link)
            && HGet(after, article, "author") == Some(user)
            && HGet(after, article, "time") == Some(Decimal(now))
            && HGet(after, article, "upvotes") == Some("1")
            && HGet(after, article, "downvotes") == Some("0")
  {
    var article := ArticleKey(id);
    var d2 := Apply(d1, SAdd(VotersKey("upvoted", Decimal(id)), user));
    var d3 := Apply(d2, HMSet(article, ArticleFields(user, title, link, now)));
    var d4 := Apply(d3, ZIncrBy(ScoreKey, article, now + RATIO));
    ArticleFieldsStored(d2, article, user, title, link, now);
    ZIncrByKeeps(d3, ScoreKey, article, now + RATIO);
    ZIncrByKeeps(d4, TimeKey, article, now);
  }

  /** The posted article's hash holds the given title, link and author, the posting time,
      one upvote and no downvote. */
  lemma PostArticleHash(db: Db, user: string, title: string, link: string, now: int, id: int)
    requires Counter(Get(db, CounterKey)) == Some(id - 1) && 0 <= id < U32_LIMIT
    ensures var article := ArticleKey(id);
            var after := PostRun(db, user, title, link, now).1;
            && HGet(after, article, "title") == Some(title)
            && HGet(after, article, "link") == Some(link)
            && HGet(after, article, "author") == Some(user)
            && HGet(after, article, "time") == Some(Decimal(now))
            && HGet(after, article, "upvotes") == Some("1")
            && HGet(after, article, "downvotes") == Some("0")
  {
    PostRunOk(db, user, title, link, now, id);
    PostWritesHash(Apply(db, Incr(CounterKey)), id, user, title, link, now);
  }

  /** The writes after INCR, from a state whose sorted sets are those of `db`, add
      `now + RATIO` to the article's `score:` entry and `now` to its `time:` entry. */
  lemma PostWritesScores(db: Db, d1: Db, id: int, user: string, title: string, link: string, now: int)
    requires d1.zsets == db.zsets
    ensures ZScore(PostWrites(d1, id, user, title, link, now), ScoreKey, ArticleKey(id))
         == Some(ScoreOr0(db, ScoreKey, ArticleKey(id)) + now + RATIO)
    ensures ZScore(PostWrites(d1, id, user, title, link, now), TimeKey, ArticleKey(id))
         == Some(ScoreOr0(db, TimeKey, ArticleKey(id)) + now)
  {
    var article := ArticleKey(id);
    var voters := VotersKey("upvoted", Decimal(id));
    var d2 := Apply(d1, SAdd(voters, user));
    var d3 := Apply(d2, HMSet(article, ArticleFields(user, title, link, now)));
    SAddKeeps(d1, voters, user);
    HMSetKeeps(d2, article, ArticleFields(user, title, link, now));
    PostScoreWrites(db, d3, article, now);
  }

  /** The two ZINCRBYs of a post, from a state whose sorted sets are those of `db`. */
  lemma PostScoreWrites(db: Db, d3: Db, article: string, now: int)
    requires d3.zsets == db.zsets
    ensures var after := Apply(Apply(d3, ZIncrBy(ScoreKey, article, now + RATIO)), ZIncrBy(TimeKey, article, now));
            && ZScore(after, ScoreKey, article) == Some(ScoreOr0(db, ScoreKey, article) + now + RATIO)
            && ZScore(after, TimeKey, article) == Some(ScoreOr0(db, TimeKey, article) + now)
  {
    var d4 := Apply(d3, ZIncrBy(ScoreKey, article, now + RATIO));
    ZIncrByAddsTo(db, d3, ScoreKey, article, now + RATIO);
    ZIncrByOtherKey(d4, TimeKey, article, now, ScoreKey, article);
    ZIncrByOtherKey(d3, ScoreKey, article, now + RATIO, TimeKey, article);
    ZScoreOfZSets(d3, db, TimeKey, article);
    ZIncrByAddsFrom(db, d4, TimeKey, article, now);
  }

  /** The posted article sits in `score:` at `now + RATIO` and in `time:` at `now`, on
      top of any score the same key already had there. */
  lemma PostArticleScores(db: Db, user: string, title: string, link: string, now: int, id: int)
    requires Counter(Get(db, CounterKey)) == Some(id - 1) && 0 <= id < U32_LIMIT
    ensures var article := ArticleKey(id);
            var after := PostRun(db, user, title, link, now).1;
            && ZScore(after, ScoreKey, article) == Some(ScoreOr0(db, ScoreKey, article) + now + RATIO)
            && ZScore(after, TimeKey, article) == Some(ScoreOr0(db, TimeKey, article) + now)
  {
    PostRunOk(db, user, title, link, now, id);
    IncrKeeps(db, CounterKey);
    PostWritesScores(db, Apply(db, Incr(CounterKey)), id, user, title, link, now);
  }

  // ----- add_remove_groups -----

  function GroupCmd(add: bool, group: string, article: string): Cmd {
    if add then SAdd(GroupKey(group), article) else SRem(GroupKey(group), article)
  }

  function GroupCmdsFor(add: bool, groups: seq<string>, article: string): seq<Cmd> {
    seq(|groups|, i requires 0 <= i < |groups| => GroupCmd(add, groups[i], article))
  }

  /** The writes of `add_remove_groups`: every SADD, then every SREM. */
  function GroupCmds(article: string, toAdd: seq<string>, toRemove: seq<string>): seq<Cmd> {
    GroupCmdsFor(true, toAdd, article) + GroupCmdsFor(false, toRemove, article)
  }

  /** The `i`-th write of `add_remove_groups`. */
  lemma GroupCmdAt(article: string, toAdd: seq<string>, toRemove: seq<string>, i: nat)
    requires i < |toAdd| + |toRemove|
    ensures GroupCmds(article, toAdd, toRemove)[i] ==
              if i < |toAdd| then SAdd(GroupKey(toAdd[i]), article) else SRem(GroupKey(toRemove[i - |toAdd|]), article)
  {
  }

  /** One more write of `add_remove_groups` applied. */
  lemma GroupStep(db: Db, article: string, toAdd: seq<string>, toRemove: seq<string>, i: nat)
    requires i < |toAdd| + |toRemove|
    ensures var cmds := GroupCmds(article, toAdd, toRemove);
            ApplyAll(db, cmds[..i + 1]) == Apply(ApplyAll(db, cmds[..i]),
              if i < |toAdd| then SAdd(GroupKey(toAdd[i]), article) else SRem(GroupKey(toRemove[i - |toAdd|]), article))
  {
    GroupCmdAt(article, toAdd, toRemove, i);
    ApplyAllPrefix(db, GroupCmds(article, toAdd, toRemove), i);
  }

  method AddRemoveGroups(store: Store, articleId: nat, toAdd: seq<string>, toRemove: seq<string>)
    modifies store
    ensures store.State() == ApplyAll(old(store.State()), GroupCmds(ArticleKey(articleId), toAdd, toRemove))
  {
    var article := ArticleKey(articleId);
    ghost var db := store.State();
    ghost var cmds := GroupCmds(article, toAdd, toRemove);
    var i := 0;
    while i < |toAdd|
      invariant i <= |toAdd|
      invariant store.State() == ApplyAll(db, cmds[..i])
    {
      var ok := store.Run(SAdd(GroupKey(toAdd[i]), article));
      GroupStep(db, article, toAdd, toRemove, i);
      i := i + 1;
    }
    var j := 0;
    while j < |toRemove|
      invariant j <= |toRemove|
      invariant store.State() == ApplyAll(db, cmds[..|toAdd| + j])
    {
      var ok := store.Run(SRem(GroupKey(toRemove[j]), article));
      GroupStep(db, article, toAdd, toRemove, |toAdd| + j);
      j := j + 1;
    }
    assert cmds[..|toAdd| + |toRemove|] == cmds;
  }

  /** Membership after one group write. */
  function MemberStep(was: bool, group: string, c: Cmd, article: string): bool {
    match c
    case SAdd(k, m) => if k == GroupKey(group) && m == article then true else was
    case SRem(k, m) => if k == GroupKey(group) && m == article then false else was
    case _ => was
  }

  /** Membership after a run of group writes: the last write naming the group decides. */
  function MemberAfter(was: bool, group: string, cmds: seq<Cmd>, article: string): bool
    decreases |cmds|
  {
    if cmds == [] then was
    else MemberAfter(MemberStep(was, group, cmds[0], article), group, cmds[1..], article)
  }

  lemma {:induction false} GroupCmdsMembership(db: Db, cmds: seq<Cmd>, group: string, article: string)
    requires forall i :: 0 <= i < |cmds| ==> cmds[i].SAdd? || cmds[i].SRem?
    ensures SIsMember(ApplyAll(db, cmds), GroupKey(group), article) ==
            MemberAfter(SIsMember(db, GroupKey(group), article), group, cmds, article)
    decreases |cmds|
  {
    if cmds != [] {
      MemberStepApplies(db, cmds[0], group, article);
      assert forall i :: 0 <= i < |cmds[1..]| ==> cmds[1..][i] == cmds[i + 1];
      GroupCmdsMembership(Apply(db, cmds[0]), cmds[1..], group, article);
    }
  }

  /** One group write changes membership as `MemberStep` says. */
  lemma MemberStepApplies(db: Db, c: Cmd, group: string, article: string)
    requires c.SAdd? || c.SRem?
    ensures SIsMember(Apply(db, c), GroupKey(group), article) ==
            MemberStep(SIsMember(db, GroupKey(group), article), group, c, article)
  {
  }

  lemma {:induction false} MemberAfterAppend(was: bool, group: string, a: seq<Cmd>, b: seq<Cmd>, article: string)
    ensures MemberAfter(was, group, a + b, article) == MemberAfter(MemberAfter(was, group, a, article), group, b, article)
    decreases |a|
  {
    if a != [] {
      assert (a + b)[1..] == a[1..] + b;
      assert (a + b)[0] == a[0];
      MemberAfterAppend(MemberStep(was, group, a[0], article), group, a[1..], b, article);
    } else {
      assert a + b == b;
    }
  }

  lemma {:induction false} MemberAfterAll(was: bool, group: string, groups: seq<string>, article: string, add: bool)
    ensures MemberAfter(was, group, GroupCmdsFor(add, groups, article), article) == if group in groups then add else was
    decreases |groups|
  {
    var cmds := GroupCmdsFor(add, groups, article);
    if groups != [] {
      assert cmds[1..] == GroupCmdsFor(add, groups[1..], article);
      assert cmds[0] == GroupCmd(add, groups[0], article);
      MemberAfterAll(MemberStep(was, group, cmds[0], article), group, groups[1..], article, add);
      if GroupKey(groups[0]) == GroupKey(group) {
        assert groups[0] == GroupKey(groups[0])[6..] == group;
      }
      assert group in groups <==> group == groups[0] || group in groups[1..];
    }
  }

  /** After `add_remove_groups` the article is in a group exactly when the group is not
      in the removal list and is in the addition list, or is in neither list and held
      the article before: removals come last, so a group in both lists ends without
      the article. */
  lemma GroupMembership(db: Db, articleId: nat, toAdd: seq<string>, toRemove: seq<string>, group: string)
    ensures var after := ApplyAll(db, GroupCmds(ArticleKey(articleId), toAdd, toRemove));
            var article := ArticleKey(articleId);
            SIsMember(after, GroupKey(group), article) ==
              if group in toRemove then false
              else if group in toAdd then true
              else SIsMember(db, GroupKey(group), article)
  {
    var article := ArticleKey(articleId);
    var adds := GroupCmdsFor(true, toAdd, article);
    var rems := GroupCmdsFor(false, toRemove, article);
    GroupCmdsMembership(db, adds + rems, group, article);
    var was := SIsMember(db, GroupKey(group), article);
    MemberAfterAppend(was, group, adds, rems, article);
    MemberAfterAll(was, group, toAdd, article, true);
    MemberAfterAll(MemberAfter(was, group, adds, article), group, toRemove, article, false);
  }

  // ----- reading pages -----

  /** The ranks page `page` covers, counted from the highest score. */
  function PageRanks(page: int): (int, int) {
    var start := (page - 1) * ARTICLES_PER_PAGE;
    (start, start + ARTICLES_PER_PAGE - 1)
  }

  /** The article keys on a page, highest score first. */
  function PageIds(db: Db, zsetKey: string, page: int): seq<string> {
    var (start, end) := PageRanks(page);
    ZRevRange(db, zsetKey, start, end)
  }

  /** Each article's hash with `"id"` set to its key. */
  function ArticleView(db: Db, key: string): map<string, string> {
    HashOf(db, key)["id" := key]
  }

  /** `get_article_order_by_score`: reads only. */
  method GetArticleOrderByScore(store: Store, page: int, zsetKey: string)
    returns (articles: seq<map<string, string>>)
    ensures |articles| == |PageIds(store.State(), zsetKey, page)|
    ensures forall i :: 0 <= i < |articles| ==>
              articles[i] == ArticleView(store.State(), PageIds(store.State(), zsetKey, page)[i])
  {
    var ids := PageIds(store.State(), zsetKey, page);
    articles := [];
    for i := 0 to |ids|
      invariant |articles| == i
      invariant forall j :: 0 <= j < i ==> articles[j] == ArticleView(store.State(), ids[j])
    {
      var data := HashOf(store.State(), ids[i]);
      articles := articles + [data["id" := ids[i]]];
    }
  }

  /** A window of 25 ranks holds at most 25 entries, whatever the sign of its ends. */
  lemma PageWindow(len: nat, page: int)
    ensures var (s, e) := PageRanks(page);
            Window(len, s, e).1 - Window(len, s, e).0 <= ARTICLES_PER_PAGE
  {
  }

  /** A page holds at most 25 articles, each a member of the sorted set. */
  lemma PageBounded(db: Db, zsetKey: string, page: int)
    ensures var ids := PageIds(db, zsetKey, page);
            && |ids| <= ARTICLES_PER_PAGE
            && forall i :: 0 <= i < |ids| ==> ids[i] in ZSetOf(db, zsetKey)
  {
    var r := Reverse(Ordered(ZSetOf(db, zsetKey)));
    PageWindow(|r|, page);
  }

  /** Reversing an ascending run of members gives a descending one. */
  lemma ReverseDescending(z: map<string, int>, o: seq<string>)
    requires forall i :: 0 <= i < |o| ==> o[i] in z
    requires forall i, j :: 0 <= i < j < |o| ==> Precedes(z, o[i], o[j])
    ensures var r := Reverse(o);
            && (forall i :: 0 <= i < |r| ==> r[i] in z)
            && (forall i, j :: 0 <= i < j < |r| ==> Precedes(z, r[j], r[i]))
  {
    var r := Reverse(o);
    forall i, j | 0 <= i < j < |r| ensures Precedes(z, r[j], r[i]) {
      assert r[j] == o[|o| - 1 - j] && r[i] == o[|o| - 1 - i];
    }
  }

  lemma ReversedSliceDescending(z: map<string, int>, o: seq<string>, a: nat, b: nat, ids: seq<string>)
    requires forall i :: 0 <= i < |o| ==> o[i] in z
    requires forall i, j :: 0 <= i < j < |o| ==> Precedes(z, o[i], o[j])
    requires a <= b <= |o| && ids == Reverse(o)[a..b]
    ensures forall i :: 0 <= i < |ids| ==> ids[i] in z
    ensures forall i, j :: 0 <= i < j < |ids| ==> Precedes(z, ids[j], ids[i])
  {
    var r := Reverse(o);
    ReverseDescending(z, o);
    forall i, j | 0 <= i < j < |ids| ensures Precedes(z, ids[j], ids[i]) {
      assert ids[j] == r[a + j] && ids[i] == r[a + i];
    }
  }

  lemma PageDescending(db: Db, zsetKey: string, page: int)
    ensures var ids := PageIds(db, zsetKey, page);
            forall i, j :: 0 <= i < j < |ids| ==> Precedes(ZSetOf(db, zsetKey), ids[j], ids[i])
  {
    var z := ZSetOf(db, zsetKey);
    var o := Ordered(z);
    var r := Reverse(o);
    var (s, e) := PageRanks(page);
    var w := Window(|r|, s, e);
    assert PageIds(db, zsetKey, page) == r[w.0..w.1];
    OrderedSorted(z);
    ReversedSliceDescending(z, o, w.0, w.1, r[w.0..w.1]);
  }

  /** `get_group_articles_by_score`: the group's ranking is built only when it is not
      already there, as the intersection of `group:{group}` with `score:` taking the
      larger score. */
  function GroupRanking(db: Db, group: string): Db {
    if Exists(db, GroupScoreKey(group)) then db
    else Apply(db, ZInterStoreMax(GroupScoreKey(group), GroupKey(group), ScoreKey))
  }

  method GetGroupArticlesByScore(store: Store, group: string, page: int)
    returns (articles: seq<map<string, string>>)
    modifies store
    ensures store.State() == GroupRanking(old(store.State()), group)
    ensures |articles| == |PageIds(store.State(), GroupScoreKey(group), page)|
    ensures forall i :: 0 <= i < |articles| ==>
              articles[i] == ArticleView(store.State(), PageIds(store.State(), GroupScoreKey(group), page)[i])
  {
    var destination := GroupScoreKey(group);
    if !Exists(store.State(), destination) {
      var ok := store.Run(ZInterStoreMax(destination, GroupKey(group), ScoreKey));
      // EXPIRE of the ranking is not modelled
    }
    articles := GetArticleOrderByScore(store, page, destination);
  }

  /** A freshly built group ranking holds exactly the group's articles that have a
      score, each at the larger of its score and 1 (a plain set's members weigh 1). */
  lemma GroupRankingScores(db: Db, group: string)
    requires !Exists(db, GroupScoreKey(group))
    requires GroupKey(group) !in db.zsets && ScoreKey !in db.sets
    ensures var z := ZSetOf(GroupRanking(db, group), GroupScoreKey(group));
            && (forall m :: m in z <==> m in Members(db, GroupKey(group)) && m in ZSetOf(db, ScoreKey))
            && (forall m :: m in z ==> z[m] == Max(1, ZSetOf(db, ScoreKey)[m]))
  {
  }

  // ----- article_vote -----

  /** The user's current vote: `Some(true)` up, `Some(false)` down, `None` neither. The
      upvoters are looked at first. */
  function CurrentVote(db: Db, id: string, user: string): Option<bool> {
    if SIsMember(db, VotersKey("upvoted", id), user) then Some(true)
    else if SIsMember(db, VotersKey("downvoted", id), user) then Some(false)
    else None
  }

  /** The voter set a changed vote leaves and the one a vote joins. */
  function LeftSet(isUpvote: bool): string { if isUpvote then "downvoted" else "upvoted" }

  function JoinedSet(isUpvote: bool): string { if isUpvote then "upvoted" else "downvoted" }

  /** What a changed vote adds to `upvotes` (its negation goes to `downvotes`). */
  function UpvoteDiff(isUpvote: bool): int { if isUpvote then 1 else -1 }

  /** What a changed vote adds to the score: as written, twice the ratio taken off when
      switching to an upvote and added when switching to a downvote. */
  function ToggleScoreDiff(isUpvote: bool): int { if isUpvote then -RATIO * 2 else RATIO * 2 }

  /** What a first vote adds to the score. */
  function FirstScoreDiff(isUpvote: bool): int { if isUpvote then RATIO else -RATIO }

  /** The four writes of the toggle arm, in order. */
  function ToggleWrites(article: string, from: string, to: string, user: string,
                        upvoteDiff: int, downvoteDiff: int, scoreDiff: int): seq<Cmd> {
    [ SMove(from, to, user),
      HIncrBy(article, "upvotes", upvoteDiff),
      HIncrBy(article, "downvotes", downvoteDiff),
      ZIncrBy(ScoreKey, article, scoreDiff) ]
  }

  /** The toggle arm: the user moves from the set they were in to the other one. */
  function ToggleCmds(article: string, id: string, user: string, isUpvote: bool): seq<Cmd> {
    ToggleWrites(article, VotersKey(LeftSet(isUpvote), id), VotersKey(JoinedSet(isUpvote), id), user,
                 UpvoteDiff(isUpvote), -UpvoteDiff(isUpvote), ToggleScoreDiff(isUpvote))
  }

  /** The three writes of the first-vote arm, in order. */
  function FirstWrites(article: string, voters: string, field: string, user: string, ratio: int): seq<Cmd> {
    [ SAdd(voters, user),
      ZIncrBy(ScoreKey, article, ratio),
      HIncrBy(article, field, 1) ]
  }

  /** The first-vote arm; the hash field counted is named after the voter set. */
  function FirstCmds(article: string, id: string, user: string, isUpvote: bool): seq<Cmd> {
    FirstWrites(article, VotersKey(JoinedSet(isUpvote), id), JoinedSet(isUpvote), user, FirstScoreDiff(isUpvote))
  }

  /** The vote-state match: the writes a vote makes given the user's current vote. A
      repeated vote writes nothing. */
  function VoteCmds(article: string, id: string, user: string, current: Option<bool>, isUpvote: bool): seq<Cmd> {
    if current == Some(isUpvote) then []
    else if current.Some? then ToggleCmds(article, id, user, isUpvote)
    else FirstCmds(article, id, user, isUpvote)
  }

  /** What `article_vote` returns and leaves behind. A missing `time:` score, one that
      is not a `u64` (a negative one), or an article key without an id makes an
      `unwrap` panic; a refused HINCRBY stops the writes there. */
  function VoteRun(db: Db, user: string, article: string, isUpvote: bool, now: int): (Result<()>, Db) {
    var posted := ZScore(db, TimeKey, article);
    if posted.None? || posted.value < 0 then (Err(Panicked), db)
    else if posted.value < now - ONE_WEEK_IN_SECONDS then (Ok(()), db)
    else match ArticleIdOf(article)
      case None => (Err(Panicked), db)
      case Some(id) =>
        var (ok, after) := RunSeq(db, VoteCmds(article, id, user, CurrentVote(db, id, user), isUpvote));
        (if ok then Ok(()) else Err(NotAnInteger), after)
  }

  method ArticleVote(store: Store, user: string, article: string, isUpvote: bool, now: int)
    returns (r: Result<()>)
    modifies store
    ensures (r, store.State()) == VoteRun(old(store.State()), user, article, isUpvote, now)
  {
    var cutoff := now - ONE_WEEK_IN_SECONDS;
    var posted := ZScore(store.State(), TimeKey, article);
    if posted.None? || posted.value < 0 {
      return Err(Panicked);
    }
    if posted.value < cutoff {
      return Ok(());
    }
    var articleId := ArticleIdOf(article);
    if articleId.None? {
      return Err(Panicked);
    }
    var id := articleId.value;
    var current: Option<bool>;
    if SIsMember(store.State(), VotersKey("upvoted", id), user) {
      current := Some(true);
    } else if SIsMember(store.State(), VotersKey("downvoted", id), user) {
      current := Some(false);
    } else {
      current := None;
    }
    if current == Some(isUpvote) {
      return Ok(());
    }
    var ok;
    if current.Some? {
      ok := ChangeVote(store, article, id, user, isUpvote);
    } else {
      ok := FirstVote(store, article, id, user, isUpvote);
    }
    return if ok then Ok(()) else Err(NotAnInteger);
  }

  /** The toggle arm of `article_vote`. */
  method ChangeVote(store: Store, article: string, id: string, user: string, isUpvote: bool)
    returns (ok: bool)
    modifies store
    ensures (ok, store.State()) == RunSeq(old(store.State()), VoteCmds(article, id, user, Some(!isUpvote), isUpvote))
  {
    ghost var s0 := store.State();
    var c0 := SMove(VotersKey(LeftSet(isUpvote), id), VotersKey(JoinedSet(isUpvote), id), user);
    var c1 := HIncrBy(article, "upvotes", UpvoteDiff(isUpvote));
    var c2 := HIncrBy(article, "downvotes", -UpvoteDiff(isUpvote));
    var c3 := ZIncrBy(ScoreKey, article, ToggleScoreDiff(isUpvote));
    assert VoteCmds(article, id, user, Some(!isUpvote), isUpvote) == [c0] + ([c1] + ([c2] + [c3]));
    RunSeqCons(s0, c0, [c1] + ([c2] + [c3]));
    ok := store.Run(c0);
    ghost var s1 := store.State();
    RunSeqCons(s1, c1, [c2] + [c3]);
    ok := store.Run(c1);
    if !ok {
      return;
    }
    ghost var s2 := store.State();
    RunSeqCons(s2, c2, [c3]);
    ok := store.Run(c2);
    if !ok {
      return;
    }
    ghost var s3 := store.State();
    RunSeqCons(s3, c3, []);
    assert [c3] + [] == [c3];
    ok := store.Run(c3);
  }

  /** The first-vote arm of `article_vote`. */
  method FirstVote(store: Store, article: string, id: string, user: string, isUpvote: bool)
    returns (ok: bool)
    modifies store
    ensures (ok, store.State()) == RunSeq(old(store.State()), VoteCmds(article, id, user, None, isUpvote))
  {
    ghost var s0 := store.State();
    var c0 := SAdd(VotersKey(JoinedSet(isUpvote), id), user);
    var c1 := ZIncrBy(ScoreKey, article, FirstScoreDiff(isUpvote));
    var c2 := HIncrBy(article, JoinedSet(isUpvote), 1);
    assert VoteCmds(article, id, user, None, isUpvote) == [c0] + ([c1] + [c2]);
    RunSeqCons(s0, c0, [c1] + [c2]);
    ok := store.Run(c0);
    ghost var s1 := store.State();
    RunSeqCons(s1, c1, [c2]);
    ok := store.Run(c1);
    ghost var s2 := store.State();
    RunSeqCons(s2, c2, []);
    assert [c2] + [] == [c2];
    ok := store.Run(c2);
  }

  /** The votes that change nothing: an unknown article, or one whose posting time is
      negative, panics; an article older than a week or a vote the user has already
      cast returns at once. */
  lemma VoteIgnored(db: Db, user: string, article: string, isUpvote: bool, now: int)
    ensures ZScore(db, TimeKey, article).None? || ZScore(db, TimeKey, article).value < 0 ==>
              VoteRun(db, user, article, isUpvote, now) == (Err(Panicked), db)
    ensures ZScore(db, TimeKey, article).Some? && 0 <= ZScore(db, TimeKey, article).value < now - ONE_WEEK_IN_SECONDS ==>
              VoteRun(db, user, article, isUpvote, now) == (Ok(()), db)
    ensures ArticleIdOf(article).Some? && CurrentVote(db, ArticleIdOf(article).value, user) == Some(isUpvote) ==>
              VoteRun(db, user, article, isUpvote, now).1 == db
  {
  }

  lemma VotersKeysDistinct(x: string, id: string)
    ensures VotersKey("upvoted", x) != VotersKey("downvoted", id)
    ensures VotersKey("upvoted", x) == VotersKey("upvoted", id) ==> x == id
    ensures VotersKey("downvoted", x) == VotersKey("downvoted", id) ==> x == id
  {
    assert VotersKey("upvoted", x)[0] == 'u' && VotersKey("downvoted", id)[0] == 'd';
    assert VotersKey("upvoted", x)[8..] == x && VotersKey("upvoted", id)[8..] == id;
    assert VotersKey("downvoted", x)[10..] == x && VotersKey("downvoted", id)[10..] == id;
  }

  /** The sets after a vote's writes: only the first write, an SMOVE or an SADD, touches
      a set. */
  lemma VoteSets(db: Db, article: string, id: string, user: string, current: Option<bool>, isUpvote: bool)
    requires current != Some(isUpvote)
    ensures var cmds := VoteCmds(article, id, user, current, isUpvote);
            RunSeq(db, cmds).1.sets == Apply(db, cmds[0]).sets
  {
    var cmds := VoteCmds(article, id, user, current, isUpvote);
    RunSeqCons(db, cmds[0], cmds[1..]);
    assert cmds == [cmds[0]] + cmds[1..];
    RunSeqKeepsSets(Apply(db, cmds[0]), cmds[1..]);
  }

  /** The first write of a vote, an SMOVE or an SADD of the voter, keeps the two voter
      sets of every article disjoint. */
  lemma FirstWriteKeepsDisjoint(db: Db, article: string, id: string, user: string, current: Option<bool>,
                                isUpvote: bool, x: string)
    requires current == CurrentVote(db, id, user) && current != Some(isUpvote)
    requires Members(db, VotersKey("upvoted", x)) !! Members(db, VotersKey("downvoted", x))
    ensures var d1 := Apply(db, VoteCmds(article, id, user, current, isUpvote)[0]);
            Members(d1, VotersKey("upvoted", x)) !! Members(d1, VotersKey("downvoted", x))
  {
    var c := VoteCmds(article, id, user, current, isUpvote)[0];
    var up, down := VotersKey("upvoted", x), VotersKey("downvoted", x);
    VotersKeysDistinct(x, id);
    VotersKeysDistinct(id, x);
    VotersKeysDistinct(x, x);
    VotersKeysDistinct(id, id);
    if current.Some? {
      ToggleCmdsAre(article, id, user, isUpvote);
      var from, to := VotersKey(LeftSet(isUpvote), id), VotersKey(JoinedSet(isUpvote), id);
      assert c == SMove(from, to, user);
      SMoveMembers(db, from, to, user, up);
      SMoveMembers(db, from, to, user, down);
    } else {
      FirstCmdsAre(article, id, user, isUpvote);
      var voters := VotersKey(JoinedSet(isUpvote), id);
      assert c == SAdd(voters, user);
      SAddMembers(db, voters, user, up);
      SAddMembers(db, voters, user, down);
    }
  }

  /** No vote puts a user in both voter sets of an article: if the sets of an article
      are disjoint before a vote, they are disjoint after it. */
  lemma VoteKeepsVotersDisjoint(db: Db, user: string, article: string, isUpvote: bool, now: int, x: string)
    requires Members(db, VotersKey("upvoted", x)) !! Members(db, VotersKey("downvoted", x))
    ensures var after := VoteRun(db, user, article, isUpvote, now).1;
            Members(after, VotersKey("upvoted", x)) !! Members(after, VotersKey("downvoted", x))
  {
    var posted := ZScore(db, TimeKey, article);
    if posted.Some? && posted.value >= 0 && posted.value >= now - ONE_WEEK_IN_SECONDS && ArticleIdOf(article).Some? {
      var id := ArticleIdOf(article).value;
      var current := CurrentVote(db, id, user);
      if current != Some(isUpvote) {
        var cmds := VoteCmds(article, id, user, current, isUpvote);
        VoteSets(db, article, id, user, current, isUpvote);
        FirstWriteKeepsDisjoint(db, article, id, user, current, isUpvote, x);
        assert VoteRun(db, user, article, isUpvote, now).1.sets == Apply(db, cmds[0]).sets;
      }
    }
  }

  /** Both vote counters of the article read as integers, as HINCRBY needs them. */
  predicate CountersReadable(db: Db, article: string) {
    Counter(HGet(db, article, "upvotes")).Some? && Counter(HGet(db, article, "downvotes")).Some?
  }

  // The four writes of a changed vote are taken apart one at a time; each lemma below
  // sees at most one step of the chain.

  /** The four writes of a changed vote, applied in turn, add `scoreDiff` to the score. */
  lemma ToggleChainScore(db: Db, article: string, from: string, to: string, user: string,
                         upvoteDiff: int, downvoteDiff: int, scoreDiff: int)
    ensures var d3 := Apply(Apply(Apply(db, SMove(from, to, user)), HIncrBy(article, "upvotes", upvoteDiff)),
                            HIncrBy(article, "downvotes", downvoteDiff));
            ZScore(Apply(d3, ZIncrBy(ScoreKey, article, scoreDiff)), ScoreKey, article)
              == Some(ScoreOr0(db, ScoreKey, article) + scoreDiff)
  {
    var d1 := Apply(db, SMove(from, to, user));
    var d2 := Apply(d1, HIncrBy(article, "upvotes", upvoteDiff));
    var d3 := Apply(d2, HIncrBy(article, "downvotes", downvoteDiff));
    SMoveKeeps(db, from, to, user);
    HIncrByKeeps(d1, article, "upvotes", upvoteDiff);
    HIncrByKeeps(d2, article, "downvotes", downvoteDiff);
    ZIncrByAddsTo(db, d3, ScoreKey, article, scoreDiff);
  }

  /** The two HINCRBYs of a changed vote, on a state whose hashes are those of `db`. */
  lemma ToggleCounters(db: Db, d1: Db, article: string, upvoteDiff: int, downvoteDiff: int)
    requires d1.hashes == db.hashes
    requires CountersReadable(db, article)
    ensures !Fails(d1, HIncrBy(article, "upvotes", upvoteDiff))
    ensures !Fails(Apply(d1, HIncrBy(article, "upvotes", upvoteDiff)), HIncrBy(article, "downvotes", downvoteDiff))
    ensures var d3 := Apply(Apply(d1, HIncrBy(article, "upvotes", upvoteDiff)), HIncrBy(article, "downvotes", downvoteDiff));
            && HGet(d3, article, "upvotes") == Some(Decimal(Counter(HGet(db, article, "upvotes")).value + upvoteDiff))
            && HGet(d3, article, "downvotes") == Some(Decimal(Counter(HGet(db, article, "downvotes")).value + downvoteDiff))
  {
    var d2 := Apply(d1, HIncrBy(article, "upvotes", upvoteDiff));
    HIncrByStoresTo(db, d1, article, "upvotes", upvoteDiff);
    HIncrByKeepsOthers(db, d1, article, "upvotes", upvoteDiff, "downvotes");
    HIncrByStores(d2, article, "downvotes", downvoteDiff);
    HIncrByOtherField(d2, article, "upvotes", "downvotes", downvoteDiff);
  }

  /** A changed vote whose two counters are integers runs all four writes. */
  lemma ToggleSteps(db: Db, article: string, from: string, to: string, user: string,
                    upvoteDiff: int, downvoteDiff: int, scoreDiff: int)
    requires CountersReadable(db, article)
    ensures var c0, c1 := SMove(from, to, user), HIncrBy(article, "upvotes", upvoteDiff);
            var c2, c3 := HIncrBy(article, "downvotes", downvoteDiff), ZIncrBy(ScoreKey, article, scoreDiff);
            RunSeq(db, ToggleWrites(article, from, to, user, upvoteDiff, downvoteDiff, scoreDiff)) ==
              (true, Apply(Apply(Apply(Apply(db, c0), c1), c2), c3))
  {
    var c0, c1 := SMove(from, to, user), HIncrBy(article, "upvotes", upvoteDiff);
    var c2, c3 := HIncrBy(article, "downvotes", downvoteDiff), ZIncrBy(ScoreKey, article, scoreDiff);
    var d1 := Apply(db, c0);
    SMoveKeeps(db, from, to, user);
    ToggleCounters(db, d1, article, upvoteDiff, downvoteDiff);
    ToggleRunSeq(db, c0, c1, c2, c3);
  }

  /** Four awaited commands, the first and the last of which cannot be refused. */
  lemma ToggleRunSeq(db: Db, c0: Cmd, c1: Cmd, c2: Cmd, c3: Cmd)
    requires c0.SMove? && c3.ZIncrBy?
    requires !Fails(Apply(db, c0), c1) && !Fails(Apply(Apply(db, c0), c1), c2)
    ensures RunSeq(db, [c0, c1, c2, c3]) == (true, Apply(Apply(Apply(Apply(db, c0), c1), c2), c3))
  {
    var d1 := Apply(db, c0);
    var d2 := Apply(d1, c1);
    var d3 := Apply(d2, c2);
    assert [c0, c1, c2, c3] == [c0] + ([c1] + ([c2] + [c3]));
    RunSeqCons(db, c0, [c1] + ([c2] + [c3]));
    RunSeqCons(d1, c1, [c2] + [c3]);
    RunSeqCons(d2, c2, [c3]);
    RunSeqCons(d3, c3, []);
    assert [c3] + [] == [c3];
  }

  /** The counters after the four writes of a changed vote. */
  lemma ToggleCounts(db: Db, article: string, from: string, to: string, user: string,
                     upvoteDiff: int, downvoteDiff: int, scoreDiff: int)
    requires CountersReadable(db, article)
    ensures var (ok, after) := RunSeq(db, ToggleWrites(article, from, to, user, upvoteDiff, downvoteDiff, scoreDiff));
            && ok
            && HGet(after, article, "upvotes") == Some(Decimal(Counter(HGet(db, article, "upvotes")).value + upvoteDiff))
            && HGet(after, article, "downvotes") == Some(Decimal(Counter(HGet(db, article, "downvotes")).value + downvoteDiff))
  {
    var d1 := Apply(db, SMove(from, to, user));
    var d3 := Apply(Apply(d1, HIncrBy(article, "upvotes", upvoteDiff)), HIncrBy(article, "downvotes", downvoteDiff));
    SMoveKeeps(db, from, to, user);
    ToggleSteps(db, article, from, to, user, upvoteDiff, downvoteDiff, scoreDiff);
    ToggleCounters(db, d1, article, upvoteDiff, downvoteDiff);
    ZIncrByKeeps(d3, ScoreKey, article, scoreDiff);
    HGetOfHashes(Apply(d3, ZIncrBy(ScoreKey, article, scoreDiff)), d3, article, "upvotes");
    HGetOfHashes(Apply(d3, ZIncrBy(ScoreKey, article, scoreDiff)), d3, article, "downvotes");
  }

  /** The score after the four writes of a changed vote. */
  lemma ToggleScore(db: Db, article: string, from: string, to: string, user: string,
                    upvoteDiff: int, downvoteDiff: int, scoreDiff: int)
    requires CountersReadable(db, article)
    ensures var after := RunSeq(db, ToggleWrites(article, from, to, user, upvoteDiff, downvoteDiff, scoreDiff)).1;
            ZScore(after, ScoreKey, article) == Some(ScoreOr0(db, ScoreKey, article) + scoreDiff)
  {
    ToggleSteps(db, article, from, to, user, upvoteDiff, downvoteDiff, scoreDiff);
    ToggleChainScore(db, article, from, to, user, upvoteDiff, downvoteDiff, scoreDiff);
  }

  /** The voter sets after the four writes of a changed vote. */
  lemma ToggleVoters(db: Db, article: string, from: string, to: string, user: string,
                     upvoteDiff: int, downvoteDiff: int, scoreDiff: int)
    requires CountersReadable(db, article)
    requires from != to && user in Members(db, from)
    ensures var after := RunSeq(db, ToggleWrites(article, from, to, user, upvoteDiff, downvoteDiff, scoreDiff)).1;
            user !in Members(after, from) && user in Members(after, to)
  {
    ToggleSteps(db, article, from, to, user, upvoteDiff, downvoteDiff, scoreDiff);
    var d1 := Apply(db, SMove(from, to, user));
    var d2 := Apply(d1, HIncrBy(article, "upvotes", upvoteDiff));
    var d3 := Apply(d2, HIncrBy(article, "downvotes", downvoteDiff));
    SMoveMembers(db, from, to, user, from);
    SMoveMembers(db, from, to, user, to);
    HIncrByKeeps(d1, article, "upvotes", upvoteDiff);
    HIncrByKeeps(d2, article, "downvotes", downvoteDiff);
    ZIncrByKeeps(d3, ScoreKey, article, scoreDiff);
  }

  /** The toggle arm runs when the article is recent, has an id and the user voted the
      other way. */
  lemma ChangedVoteRun(db: Db, user: string, article: string, isUpvote: bool, now: int)
    requires ZScore(db, TimeKey, article).Some? && ZScore(db, TimeKey, article).value >= now - ONE_WEEK_IN_SECONDS
    requires ZScore(db, TimeKey, article).value >= 0
    requires ArticleIdOf(article).Some?
    requires CurrentVote(db, ArticleIdOf(article).value, user) == Some(!isUpvote)
    ensures var id := ArticleIdOf(article).value;
            var (ok, after) := RunSeq(db, ToggleCmds(article, id, user, isUpvote));
            VoteRun(db, user, article, isUpvote, now) == (if ok then Ok(()) else Err(NotAnInteger), after)
  {
  }

  /** The toggle arm runs all four writes of `ToggleWrites`. */
  lemma ToggleCmdsAre(article: string, id: string, user: string, isUpvote: bool)
    ensures ToggleCmds(article, id, user, isUpvote)
         == ToggleWrites(article, VotersKey(LeftSet(isUpvote), id), VotersKey(JoinedSet(isUpvote), id), user,
                         UpvoteDiff(isUpvote), -UpvoteDiff(isUpvote), ToggleScoreDiff(isUpvote))
  {
  }

  /** What the four writes of the toggle arm leave in the voter sets. */
  lemma ToggleEffectVoters(db: Db, user: string, article: string, id: string, isUpvote: bool)
    requires CountersReadable(db, article)
    requires user in Members(db, VotersKey(LeftSet(isUpvote), id))
    ensures var (ok, after) := RunSeq(db, ToggleCmds(article, id, user, isUpvote));
            && ok
            && user !in Members(after, VotersKey(LeftSet(isUpvote), id))
            && user in Members(after, VotersKey(JoinedSet(isUpvote), id))
  {
    var du := UpvoteDiff(isUpvote);
    VotersKeysDistinct(id, id);
    ToggleCmdsAre(article, id, user, isUpvote);
    ToggleCounts(db, article, VotersKey(LeftSet(isUpvote), id), VotersKey(JoinedSet(isUpvote), id), user, du, -du, ToggleScoreDiff(isUpvote));
    ToggleVoters(db, article, VotersKey(LeftSet(isUpvote), id), VotersKey(JoinedSet(isUpvote), id), user, du, -du, ToggleScoreDiff(isUpvote));
  }

  /** What the four writes of the toggle arm leave in the counters. */
  lemma ToggleEffectCounts(db: Db, user: string, article: string, id: string, isUpvote: bool)
    requires CountersReadable(db, article)
    ensures var after := RunSeq(db, ToggleCmds(article, id, user, isUpvote)).1;
            && HGet(after, article, "upvotes") ==
                 Some(Decimal(Counter(HGet(db, article, "upvotes")).value + UpvoteDiff(isUpvote)))
            && HGet(after, article, "downvotes") ==
                 Some(Decimal(Counter(HGet(db, article, "downvotes")).value - UpvoteDiff(isUpvote)))
  {
    var du := UpvoteDiff(isUpvote);
    ToggleCmdsAre(article, id, user, isUpvote);
    assert Counter(HGet(db, article, "downvotes")).value + -du == Counter(HGet(db, article, "downvotes")).value - du;
    ToggleCounts(db, article, VotersKey(LeftSet(isUpvote), id), VotersKey(JoinedSet(isUpvote), id), user, du, -du, ToggleScoreDiff(isUpvote));
  }

  /** What the four writes of the toggle arm leave in the score. */
  lemma ToggleEffectScore(db: Db, user: string, article: string, id: string, isUpvote: bool)
    requires CountersReadable(db, article)
    ensures ZScore(RunSeq(db, ToggleCmds(article, id, user, isUpvote)).1, ScoreKey, article) ==
              Some(ScoreOr0(db, ScoreKey, article) + ToggleScoreDiff(isUpvote))
  {
    var du := UpvoteDiff(isUpvote);
    ToggleCmdsAre(article, id, user, isUpvote);
    ToggleScore(db, article, VotersKey(LeftSet(isUpvote), id), VotersKey(JoinedSet(isUpvote), id), user, du, -du, ToggleScoreDiff(isUpvote));
  }

  /** A user who changes their vote, on an article whose counters are integers, moves
      from the set they were in to the other one; one vote moves across between the
      `upvotes` and `downvotes` counters; and the score moves by twice the ratio, down
      when switching to an upvote and up when switching to a downvote. */
  lemma ChangedVoteEffect(db: Db, user: string, article: string, isUpvote: bool, now: int)
    requires ZScore(db, TimeKey, article).Some? && ZScore(db, TimeKey, article).value >= now - ONE_WEEK_IN_SECONDS
    requires ZScore(db, TimeKey, article).value >= 0
    requires ArticleIdOf(article).Some?
    requires CurrentVote(db, ArticleIdOf(article).value, user) == Some(!isUpvote)
    requires CountersReadable(db, article)
    ensures var id := ArticleIdOf(article).value;
            var (r, after) := VoteRun(db, user, article, isUpvote, now);
            && r == Ok(())
            && user !in Members(after, VotersKey(LeftSet(isUpvote), id))
            && user in Members(after, VotersKey(JoinedSet(isUpvote), id))
            && HGet(after, article, "upvotes") ==
                 Some(Decimal(Counter(HGet(db, article, "upvotes")).value + UpvoteDiff(isUpvote)))
            && HGet(after, article, "downvotes") ==
                 Some(Decimal(Counter(HGet(db, article, "downvotes")).value - UpvoteDiff(isUpvote)))
            && ZScore(after, ScoreKey, article) ==
                 Some(ScoreOr0(db, ScoreKey, article) + ToggleScoreDiff(isUpvote))
  {
    var id := ArticleIdOf(article).value;
    ChangedVoteRun(db, user, article, isUpvote, now);
    ToggleEffectVoters(db, user, article, id, isUpvote);
    ToggleEffectCounts(db, user, article, id, isUpvote);
    ToggleEffectScore(db, user, article, id, isUpvote);
  }

  // The three writes of a first vote, taken apart the same way.

  /** After the SADD and the ZINCRBY of a first vote the hashes are as before. */
  lemma FirstKeepsHashes(db: Db, article: string, voters: string, user: string, ratio: int)
    ensures Apply(Apply(db, SAdd(voters, user)), ZIncrBy(ScoreKey, article, ratio)).hashes == db.hashes
  {
    SAddKeeps(db, voters, user);
    ZIncrByKeeps(Apply(db, SAdd(voters, user)), ScoreKey, article, ratio);
  }

  /** A first vote whose hash field is an integer runs all three writes. */
  lemma FirstSteps(db: Db, article: string, voters: string, field: string, user: string, ratio: int)
    requires Counter(HGet(db, article, field)).Some?
    ensures var c0, c1, c2 := SAdd(voters, user), ZIncrBy(ScoreKey, article, ratio), HIncrBy(article, field, 1);
            RunSeq(db, FirstWrites(article, voters, field, user, ratio)) == (true, Apply(Apply(Apply(db, c0), c1), c2))
  {
    var c0, c1, c2 := SAdd(voters, user), ZIncrBy(ScoreKey, article, ratio), HIncrBy(article, field, 1);
    var d2 := Apply(Apply(db, c0), c1);
    FirstKeepsHashes(db, article, voters, user, ratio);
    HIncrByStoresTo(db, d2, article, field, 1);
    FirstRunSeq(db, c0, c1, c2);
  }

  /** Three awaited commands, the first two of which cannot be refused. */
  lemma FirstRunSeq(db: Db, c0: Cmd, c1: Cmd, c2: Cmd)
    requires c0.SAdd? && c1.ZIncrBy?
    requires !Fails(Apply(Apply(db, c0), c1), c2)
    ensures RunSeq(db, [c0, c1, c2]) == (true, Apply(Apply(Apply(db, c0), c1), c2))
  {
    var d1 := Apply(db, c0);
    var d2 := Apply(d1, c1);
    assert [c0, c1, c2] == [c0] + ([c1] + [c2]);
    RunSeqCons(db, c0, [c1] + [c2]);
    RunSeqCons(d1, c1, [c2]);
    RunSeqCons(d2, c2, []);
    assert [c2] + [] == [c2];
  }

  /** The hash fields after the three writes of a first vote: the counted one goes up by
      one and every other one is kept. */
  lemma FirstCounts(db: Db, article: string, voters: string, field: string, user: string, ratio: int, other: string)
    requires Counter(HGet(db, article, field)).Some? && other != field
    ensures var (ok, after) := RunSeq(db, FirstWrites(article, voters, field, user, ratio));
            && ok
            && HGet(after, article, field) == Some(Decimal(Counter(HGet(db, article, field)).value + 1))
            && HGet(after, article, other) == HGet(db, article, other)
  {
    var d2 := Apply(Apply(db, SAdd(voters, user)), ZIncrBy(ScoreKey, article, ratio));
    FirstSteps(db, article, voters, field, user, ratio);
    FirstKeepsHashes(db, article, voters, user, ratio);
    HIncrByStoresTo(db, d2, article, field, 1);
    HIncrByKeepsOthers(db, d2, article, field, 1, other);
  }

  /** The three writes of a first vote, applied in turn, add `ratio` to the score. */
  lemma FirstChainScore(db: Db, article: string, voters: string, field: string, user: string, ratio: int)
    ensures var d2 := Apply(Apply(db, SAdd(voters, user)), ZIncrBy(ScoreKey, article, ratio));
            ZScore(Apply(d2, HIncrBy(article, field, 1)), ScoreKey, article) == Some(ScoreOr0(db, ScoreKey, article) + ratio)
  {
    var d1 := Apply(db, SAdd(voters, user));
    var d2 := Apply(d1, ZIncrBy(ScoreKey, article, ratio));
    SAddKeeps(db, voters, user);
    ZIncrByAddsTo(db, d1, ScoreKey, article, ratio);
    HIncrByKeeps(d2, article, field, 1);
    ZScoreOfZSets(Apply(d2, HIncrBy(article, field, 1)), d2, ScoreKey, article);
  }

  /** The score after the three writes of a first vote. */
  lemma FirstScore(db: Db, article: string, voters: string, field: string, user: string, ratio: int)
    requires Counter(HGet(db, article, field)).Some?
    ensures var after := RunSeq(db, FirstWrites(article, voters, field, user, ratio)).1;
            ZScore(after, ScoreKey, article) == Some(ScoreOr0(db, ScoreKey, article) + ratio)
  {
    FirstSteps(db, article, voters, field, user, ratio);
    FirstChainScore(db, article, voters, field, user, ratio);
  }

  /** The sets after the three writes of a first vote. */
  lemma FirstVoters(db: Db, article: string, voters: string, field: string, user: string, ratio: int, k: string)
    requires Counter(HGet(db, article, field)).Some?
    ensures var after := RunSeq(db, FirstWrites(article, voters, field, user, ratio)).1;
            Members(after, k) == if k == voters then Members(db, voters) + {user} else Members(db, k)
  {
    FirstSteps(db, article, voters, field, user, ratio);
    var d1 := Apply(db, SAdd(voters, user));
    var d2 := Apply(d1, ZIncrBy(ScoreKey, article, ratio));
    SAddMembers(db, voters, user, k);
    ZIncrByKeeps(d1, ScoreKey, article, ratio);
    HIncrByKeeps(d2, article, field, 1);
  }

  /** The first-vote arm runs when the article is recent, has an id and the user has not
      voted on it. */
  lemma FirstVoteRun(db: Db, user: string, article: string, isUpvote: bool, now: int)
    requires ZScore(db, TimeKey, article).Some? && ZScore(db, TimeKey, article).value >= now - ONE_WEEK_IN_SECONDS
    requires ZScore(db, TimeKey, article).value >= 0
    requires ArticleIdOf(article).Some?
    requires CurrentVote(db, ArticleIdOf(article).value, user) == None
    ensures var id := ArticleIdOf(article).value;
            var (ok, after) := RunSeq(db, FirstCmds(article, id, user, isUpvote));
            VoteRun(db, user, article, isUpvote, now) == (if ok then Ok(()) else Err(NotAnInteger), after)
  {
  }

  /** The first-vote arm runs the three writes of `FirstWrites`. */
  lemma FirstCmdsAre(article: string, id: string, user: string, isUpvote: bool)
    ensures FirstCmds(article, id, user, isUpvote)
         == FirstWrites(article, VotersKey(JoinedSet(isUpvote), id), JoinedSet(isUpvote), user, FirstScoreDiff(isUpvote))
  {
  }

  /** What the three writes of the first-vote arm leave in the voter sets. */
  lemma FirstEffectVoters(db: Db, user: string, article: string, id: string, isUpvote: bool)
    requires Counter(HGet(db, article, JoinedSet(isUpvote))).Some?
    ensures var (ok, after) := RunSeq(db, FirstCmds(article, id, user, isUpvote));
            && ok
            && user in Members(after, VotersKey(JoinedSet(isUpvote), id))
            && Members(after, VotersKey(LeftSet(isUpvote), id)) == Members(db, VotersKey(LeftSet(isUpvote), id))
  {
    var voters, field, ratio := VotersKey(JoinedSet(isUpvote), id), JoinedSet(isUpvote), FirstScoreDiff(isUpvote);
    VotersKeysDistinct(id, id);
    FirstCmdsAre(article, id, user, isUpvote);
    FirstSteps(db, article, voters, field, user, ratio);
    FirstVoters(db, article, voters, field, user, ratio, voters);
    FirstVoters(db, article, voters, field, user, ratio, VotersKey(LeftSet(isUpvote), id));
  }

  /** What the three writes of the first-vote arm leave in the article's hash. */
  lemma FirstEffectCounts(db: Db, user: string, article: string, id: string, isUpvote: bool)
    requires Counter(HGet(db, article, JoinedSet(isUpvote))).Some?
    ensures var after := RunSeq(db, FirstCmds(article, id, user, isUpvote)).1;
            && HGet(after, article, JoinedSet(isUpvote)) ==
                 Some(Decimal(Counter(HGet(db, article, JoinedSet(isUpvote))).value + 1))
            && HGet(after, article, "upvotes") == HGet(db, article, "upvotes")
            && HGet(after, article, "downvotes") == HGet(db, article, "downvotes")
  {
    var voters, field, ratio := VotersKey(JoinedSet(isUpvote), id), JoinedSet(isUpvote), FirstScoreDiff(isUpvote);
    FirstCmdsAre(article, id, user, isUpvote);
    FirstCounts(db, article, voters, field, user, ratio, "upvotes");
    FirstCounts(db, article, voters, field, user, ratio, "downvotes");
  }

  /** What the three writes of the first-vote arm leave in the score. */
  lemma FirstEffectScore(db: Db, user: string, article: string, id: string, isUpvote: bool)
    requires Counter(HGet(db, article, JoinedSet(isUpvote))).Some?
    ensures ZScore(RunSeq(db, FirstCmds(article, id, user, isUpvote)).1, ScoreKey, article) ==
              Some(ScoreOr0(db, ScoreKey, article) + FirstScoreDiff(isUpvote))
  {
    FirstCmdsAre(article, id, user, isUpvote);
    FirstScore(db, article, VotersKey(JoinedSet(isUpvote), id), JoinedSet(isUpvote), user, FirstScoreDiff(isUpvote));
  }

  /** A user's first vote puts them in exactly one voter set, moves the score by the
      ratio, and counts the vote in the hash field named after the voter set
      (`upvoted` or `downvoted`), so the `upvotes` and `downvotes` fields that
      `post_article` created are left as they were. */
  lemma FirstVoteEffect(db: Db, user: string, article: string, isUpvote: bool, now: int)
    requires ZScore(db, TimeKey, article).Some? && ZScore(db, TimeKey, article).value >= now - ONE_WEEK_IN_SECONDS
    requires ZScore(db, TimeKey, article).value >= 0
    requires ArticleIdOf(article).Some?
    requires CurrentVote(db, ArticleIdOf(article).value, user) == None
    requires Counter(HGet(db, article, JoinedSet(isUpvote))).Some?
    ensures var id := ArticleIdOf(article).value;
            var (r, after) := VoteRun(db, user, article, isUpvote, now);
            && r == Ok(())
            && user in Members(after, VotersKey(JoinedSet(isUpvote), id))
            && user !in Members(after, VotersKey(LeftSet(isUpvote), id))
            && HGet(after, article, JoinedSet(isUpvote)) ==
                 Some(Decimal(Counter(HGet(db, article, JoinedSet(isUpvote))).value + 1))
            && HGet(after, article, "upvotes") == HGet(db, article, "upvotes")
            && HGet(after, article, "downvotes") == HGet(db, article, "downvotes")
            && ZScore(after, ScoreKey, article) ==
                 Some(ScoreOr0(db, ScoreKey, article) + FirstScoreDiff(isUpvote))
  {
    var id := ArticleIdOf(article).value;
    FirstVoteRun(db, user, article, isUpvote, now);
    FirstEffectVoters(db, user, article, id, isUpvote);
    FirstEffectCounts(db, user, article, id, isUpvote);
    FirstEffectScore(db, user, article, id, isUpvote);
  }
}
