# redis-in-action, modelled in Dafny

The repository is a Rust port of the examples from *Redis in Action*. Each example is a small async function that sends commands to a Redis server through the `fred` client. This project models the server-side effect of those functions and proves properties about it. The modelled functions are:

- the game marketplace (`list_item`, `purchase_item`);
- the article voting site (`post_article`, `article_vote`, the group and page queries);
- the time-sliced counters;
- the login-session cookies in two variants;
- the database-row cache;
- the shopping cart;
- the web-page cache;
- the recent and common logs.

The model has two layers.

- **`Redis`** (redis.dfy) models the keyspace.
  - A `Db` value holds one map per value type: strings, sets, hashes, sorted sets and lists.
  - `Cmd` is one command per Redis command the examples send. `Apply` gives that command's effect on the keyspace.
  - `Fails` says when the server refuses a command. It refuses INCR or HINCRBY of a value that is not an integer, and RENAME of a missing key. A refused command changes nothing.
  - `ApplyAll`, `AllSucceed` and `RunSeq` describe batches. `ApplyAll` covers a pipeline or a committed MULTI/EXEC. `RunSeq` covers a run of awaited commands that stops at the first refused one.
  - The mutable `Redis.Store` class is the connection. The example functions are methods on it.
  - Sorted-set order is the server's: by score, then by member. It is defined in `Ordering` (ordering.dfy).
  - Integers travel as canonical decimal strings (`Decimals`, decimal.dfy).
- **The examples.** Each one is a module whose methods do what the Rust function does. Each function is specified by a function on the keyspace, and the promised properties are lemmas about that function:
  - `Marketplace`
  - `Feed`
  - `Counters`
  - `Sessions` (src/session_cookie.rs)
  - `RetailerSessions` (fake-web-retailer/src/session_cookie.rs)
  - `RowsCache`
  - `Cart`
  - `PageCache`
  - `Logging` (support/src/logging.rs)
  - `LoggingService` (logging/src/main.rs, the same code as a binary)

Things outside the server become parameters:

- The clock is a `now` or `timestamp` argument.
- A WATCH race is a `conflict` flag, or a `conflicts` sequence with one flag per attempt the deadline allows.
- A row's JSON is an argument, and so is a request's item id, dynamic flag, hash and rendered page.

Several behaviours are modelled as the code is written:

- **`article_vote`, changed vote.** Switching to an upvote takes twice the ratio *off* the score.
- **`article_vote`, first vote.** It counts the vote in the hash field `upvoted`/`downvoted`, not in the `upvotes`/`downvotes` fields that `post_article` creates.
- **Retailer `update_token`.** It sends LRANGE where a trim was meant, so a session's viewed list grows on every view.
- **`cache_request`.** It wraps the GET reply in `Some` before testing it, so the branch that renders and stores a missing page never runs, and a missing page is an error.
- **`log_common`.**
  - It counts the message only in the iteration that rotates the hour.
  - It never starts a log whose start key is absent.
  - It keeps looping until the deadline.

## Model

| member | source | states |
|---|---|---|
| Redis.Store.Run | src/session_cookie.rs:23 | An awaited command changes the keyspace as `Apply` says. It replies ok exactly when the server does not refuse it. |
| Redis.Store.Incr | feed/src/main.rs:46 | INCR replies the old counter plus one (absent counts as 0), or a not-an-integer error. The key then holds the reply. |
| Redis.Store.Exec | fake-game-company/src/main.rs:48-50 | EXEC after WATCH commits exactly when no watched key changed. A committed batch applies every command in order; a discarded one applies none. |
| Redis.Store.Pipeline | fake-web-retailer/src/session_cookie.rs:53 | `all()` runs every queued command in order. It is ok exactly when none was refused. |
| Redis.RenameMoves | support/src/logging.rs:72-77 | RENAME of an existing key to another name moves its value to the new name and leaves the old name empty. |
| Redis.SetStores | support/src/logging.rs:79-87 | SET leaves the key holding exactly the given string, and no sorted set under that name. |
| Decimals.ParseDecimal | support/src/logging.rs:65 | An integer written as a decimal string reads back as the same integer. |
| Decimals.DecimalOfParse | support/src/logging.rs:65 | A string that reads as an integer is that integer's canonical decimal form, so the two conversions are inverse. |
| Ordering.OrderedSorted | src/session_cookie.rs:69-79 | The rank order ZRANGE reads lists every member of the sorted set, in strictly ascending (score, member) order. |
| Marketplace.ItemIdSplits | fake-game-company/src/main.rs:28 | The listing id `{item}.{seller}` splits at its last `.` back into the item name and the seller id. |
| Marketplace.ItemIdInjective | fake-game-company/src/main.rs:28 | Different (item, seller) pairs get different listing ids. |
| Marketplace.KeysDistinct | fake-game-company/src/main.rs:66-72 | `market:`, `inventory:{id}` and `users:{id}` never collide, and different users get different keys. |
| Marketplace.ListItem | fake-game-company/src/main.rs:21-55 | The result and the new keyspace are those of `ListItemRun`, attempt by attempt. |
| Marketplace.ListItemOutcomes | fake-game-company/src/main.rs:31-54 | An item the seller lacks gives `None` with no writes. Otherwise the first attempt without a conflict commits and gives `Some(true)`. A deadline that passes first gives `Some(false)` with no writes. |
| Marketplace.ListCommitEffect | fake-game-company/src/main.rs:42-45 | A committed listing puts the listing id in `market:` at the price and removes the item from the inventory. No other key changes. |
| Marketplace.RelistNotOwned | fake-game-company/src/main.rs:36-39 | Listing the same item again after a commit finds it gone and gives `None`. |
| Marketplace.PurchaseItem | fake-game-company/src/main.rs:58-97 | The result and the new keyspace are those of `PurchaseRun`, attempt by attempt. |
| Marketplace.ExecPurchase | fake-game-company/src/main.rs:83-94 | A conflict discards the transaction and gives no reply. Otherwise the four writes are applied in order, and the reply is `Ok(Some(true))` when none was refused and an error when one was. |
| Marketplace.PurchaseOutcomes | fake-game-company/src/main.rs:75-96 | A price other than the agreed one, or above the buyer's funds, gives `Ok(None)` with no writes. Otherwise the first attempt without a conflict commits the batch. It gives `Ok(Some(true))` exactly when the seller's funds are absent or an integer, and an error otherwise. A deadline that passes first gives `Ok(None)`. |
| Marketplace.PurchaseBatchSucceeds | fake-game-company/src/main.rs:85-89 | Once the buyer's funds have been read as a number, the batch runs without a refusal exactly when the seller's funds are absent or an integer. |
| Marketplace.PurchaseUnpaidSeller | fake-game-company/src/main.rs:85-91 | When the seller's funds are not an integer, EXEC refuses the credit but runs the rest. The buyer is charged, the item moves and the listing goes, while the seller's funds stay as they were. |
| Marketplace.PurchaseUnreadable | fake-game-company/src/main.rs:77-78 | A missing listing, or funds that do not read as a number, end the purchase with an error and no writes. |
| Marketplace.PurchaseMovesFunds | fake-game-company/src/main.rs:85-86 | When the seller's funds are absent or an integer, a committed purchase moves the price from buyer to seller. The two users' funds together are unchanged, also when buyer and seller are the same user. |
| Marketplace.PurchaseMovesItem | fake-game-company/src/main.rs:88-89 | The buyer's inventory gains the item and `market:` loses the listing. Only the two users' hashes, the buyer's inventory and `market:` change. |
| Marketplace.ListingSoldOnce | fake-game-company/src/main.rs:77 | After a committed purchase the listing is gone, and any later purchase of it fails with no writes. |
| Marketplace.PriceChangeSafe | fake-game-company/src/main.rs:79-82 | If the live price differs from the agreed one, nothing commits and nothing is written. |
| Feed.ArticleIdOfKey | feed/src/main.rs:178 | The id `article_vote` cuts out of `article:{n}` is `n`. |
| Feed.PostArticle | feed/src/main.rs:40-81 | The reply and the new keyspace are those of `PostRun`. |
| Feed.PostArticleId | feed/src/main.rs:46-48 | The new id is one past the old counter, and the counter now holds it. The author becomes the article's first upvoter. |
| Feed.PostArticleHash | feed/src/main.rs:53-65 | The article hash holds the title, link, author, posting time, one upvote and no downvote. |
| Feed.PostArticleScores | feed/src/main.rs:66-78 | `score:` gains `now + 432` for the article and `time:` gains `now`, added to any earlier score. |
| Feed.AddRemoveGroups | feed/src/main.rs:84-100 | The new keyspace is every SADD followed by every SREM, applied in order. |
| Feed.GroupMembership | feed/src/main.rs:84-100 | Afterwards the article is in a group exactly when the group is not in the removal list and either is in the addition list or held the article before. |
| Feed.GetArticleOrderByScore | feed/src/main.rs:128-158 | Returns one hash per ranked key on the page, in page order, each with `id` set to its key. Nothing is written. |
| Feed.PageBounded | feed/src/main.rs:138-147 | A page holds at most 25 articles, each a member of the sorted set. |
| Feed.PageDescending | feed/src/main.rs:143-147 | A page lists its articles from the highest (score, member) down. |
| Feed.GetGroupArticlesByScore | feed/src/main.rs:104-124 | The group ranking is built only when absent; then the page is read from it. |
| Feed.GroupRankingScores | feed/src/main.rs:112-119 | A fresh ranking holds exactly the group's articles that have a score, each at the larger of its score and 1. |
| Feed.ArticleVote | feed/src/main.rs:163-242 | The reply and the new keyspace are those of `VoteRun`. |
| Feed.VoteIgnored | feed/src/main.rs:172-199 | An article with no posting time, or a negative one (not a `u64`), panics with no writes. An article older than a week returns ok, and a repeated vote changes nothing. |
| Feed.VoteKeepsVotersDisjoint | feed/src/main.rs:202-238 | If no user is in both voter sets of an article before a vote, none is after it. |
| Feed.ChangedVoteEffect | feed/src/main.rs:202-225 | A changed vote moves the user to the other voter set and moves one vote between the `upvotes` and `downvotes` counters. The score moves by twice the ratio in the direction written. |
| Feed.FirstVoteEffect | feed/src/main.rs:228-238 | A first vote adds the user to one voter set and moves the score by the ratio. It adds one to the field named after that set, and leaves `upvotes` and `downvotes` unchanged. |
| Counters.SliceStartBounds | support/src/counters.rs:32 | The slice start is a multiple of the width. For `now >= 0` it is the largest such multiple `<= now`; below 0 the division truncates toward zero. |
| Counters.CountKeyInjective | support/src/counters.rs:34 | Different widths of one counter get different hash keys. |
| Counters.UpdateCounter | support/src/counters.rs:20-44 | The new keyspace is all seven widths' writes applied in order. The reply is ok exactly when no HINCRBY was refused. |
| Counters.UpdateCounterCounts | support/src/counters.rs:40 | At each width, the current slice's field grows by `count`; a field that does not read as an integer stays as it was. Every other field is unchanged. |
| Counters.UpdateCounterKnown | support/src/counters.rs:37-38 | `known:` lists `{prec}:{name}` at score 0 for each width. Every other entry is unchanged. |
| Counters.UpdateKnownStable | support/src/counters.rs:37-38 | A second update of the same counter leaves `known:` exactly as the first one left it. |
| Counters.UpdateCounterFrame | support/src/counters.rs:28-42 | Keys other than `known:` and the counter's seven hashes are unchanged. |
| Counters.SortSamples | support/src/counters.rs:58 | The array ends sorted by (time, count) and is a permutation of its old contents. |
| Counters.Insert | support/src/counters.rs:58 | One insertion step extends the sorted prefix by one element and keeps the contents. |
| Counters.ReadSamples | support/src/counters.rs:55-56 | Reading succeeds exactly when every field and value parses as an integer. It then yields one pair per field, exactly the hash's pairs. |
| Counters.GetCounter | support/src/counters.rs:47-60 | Returns the hash's samples sorted and complete, or a not-an-integer error exactly when some field or value does not parse. |
| Sessions.SessionKeysApart | src/session_cookie.rs:23-52 | A session's `viewed:{t}` and `cart:{t}` never collide with `login:`, `recent:` or (for a non-empty token) `viewed:`. |
| Sessions.CheckToken | src/session_cookie.rs:7-12 | Returns the token's user exactly when the token is in `login:`; otherwise a nil-reply error. |
| Sessions.UpdateToken | src/session_cookie.rs:14-55 | Always ok. The new keyspace is the awaited writes applied in order. |
| Sessions.UpdateTokenSeen | src/session_cookie.rs:23-34 | The token maps to its user and was last seen at `timestamp`. Other sessions' entries are unchanged. |
| Sessions.UpdateTokenNoItem | src/session_cookie.rs:35 | Without an item only `login:` and `recent:` change. |
| Sessions.UpdateTokenCountsView | src/session_cookie.rs:52 | A view lowers the item's `viewed:` score by one (absent counts as 0) and leaves every other item's score unchanged. |
| Sessions.UpdateTokenViewed | src/session_cookie.rs:37-48 | The session's viewed set is the old one with the item at `timestamp`, trimmed to its 25 highest ranks. |
| Sessions.TrimKeepsNewest | src/session_cookie.rs:48 | The trim keeps exactly the min(size, 25) highest-ranked members, with their scores. |
| Sessions.TrimKeepsLatest | src/session_cookie.rs:37-48 | The item just viewed survives the trim when it is the newest view. |
| Sessions.EvictedShape | src/session_cookie.rs:68-79 | A round evicts between 1 and 100 distinct recorded tokens, as many as the excess over the limit or 100. |
| Sessions.EvictedOldest | src/session_cookie.rs:69-79 | Every evicted token precedes every token the round leaves in `recent:`. |
| Sessions.CleanRoundEffect | src/session_cookie.rs:91-93 | A round removes the evicted tokens from `recent:` and `login:`. Everyone else's entries keep their values. |
| Sessions.CleanRoundDeletes | src/session_cookie.rs:82-91 | A round deletes each evicted session's viewed items and cart. |
| Sessions.CleanRoundShrinks | src/session_cookie.rs:62-93 | A round above the limit shrinks `recent:` by the number evicted and never below the limit. |
| Sessions.CleanAllSize | src/session_cookie.rs:57-95 | The task ends with exactly 10,000,000 sessions when it started above that, and otherwise changes nothing. |
| Sessions.CleanAllKeepsNewest | src/session_cookie.rs:57-95 | Each remaining session keeps its timestamp, and every evicted session precedes every remaining one. |
| Sessions.CleanAllEvicts | src/session_cookie.rs:57-95 | Every session the task evicts from `recent:` has also left `login:`, and has no viewed list and no cart when the task ends. |
| Sessions.CollectSessionKeys | src/session_cookie.rs:82-88 | The key list is `viewed:{t}`, `cart:{t}` for each token in order, twice as long as the token list. |
| Sessions.EvictRound | src/session_cookie.rs:68-93 | One round leaves the keyspace `CleanRound` describes. |
| Sessions.CleanSessions | src/session_cookie.rs:57-95 | The task is always ok and leaves the keyspace `CleanAll` describes. |
| RetailerSessions.CheckToken | fake-web-retailer/src/session_cookie.rs:9-14 | Returns the token's user exactly when the token is in `login:`; otherwise a nil-reply error. |
| RetailerSessions.UpdateToken | fake-web-retailer/src/session_cookie.rs:21-55 | The new keyspace is the pipeline applied in order. Ok exactly when nothing was refused. |
| RetailerSessions.UpdateTokenSucceeds | fake-web-retailer/src/session_cookie.rs:29-53 | No command of the pipeline can be refused, so `update_token` is always ok. |
| RetailerSessions.UpdateTokenSeen | fake-web-retailer/src/session_cookie.rs:31-41 | The token maps to its user and was last seen at `timestamp`. Other sessions' entries are unchanged. |
| RetailerSessions.UpdateTokenViewed | fake-web-retailer/src/session_cookie.rs:45-47 | A view pushes the item onto the head of the session's list. The LRANGE removes nothing, so the list grows by one. |
| RetailerSessions.UpdateTokenCountsView | fake-web-retailer/src/session_cookie.rs:51 | A view lowers the item's `viewed:` score by one and leaves every other item's score unchanged. |
| RetailerSessions.UpdateTokenNoItem | fake-web-retailer/src/session_cookie.rs:42 | Without an item only `login:` and `recent:` change. |
| RetailerSessions.CleanSessions | fake-web-retailer/src/session_cookie.rs:62-99 | Always ok, and leaves the keyspace `CleanAll` describes. |
| RowsCache.KeysApart | fake-web-retailer/src/database_rows_cache.rs:20-25 | `inv:{row}` never names `delay:` or `schedule:`. Two rows share an `inv:` key exactly when they are the same row. |
| RowsCache.ScheduleRowCache | fake-web-retailer/src/database_rows_cache.rs:14-27 | Always ok. The new keyspace is the two ZADDs applied in order. |
| RowsCache.ScheduleEffect | fake-web-retailer/src/database_rows_cache.rs:20-25 | The row's delay is `delay` and it is due at `now`. Every other row keeps its delay and due time. |
| RowsCache.CacheRowsPass | fake-web-retailer/src/database_rows_cache.rs:43-99 | One pass's reply and new keyspace are those of `CachePassAsWritten`. The pass reads the earliest `schedule:` entry's member as the due time and its score as the `i32` row id, as the program decodes the reply. |
| RowsCache.ActOnRow | fake-web-retailer/src/database_rows_cache.rs:70-97 | A due row is dropped when its delay is 0 or less, refreshed otherwise, and a missing delay is a nil-reply error with no writes. |
| RowsCache.AsWrittenPicks | fake-web-retailer/src/database_rows_cache.rs:51-68 | A pass that acts takes the earliest entry's score as the row, and acts only when that entry's member, read as a time, is not after `now`. |
| RowsCache.AsWrittenEffect | fake-web-retailer/src/database_rows_cache.rs:68-97 | The row a pass acts on is removed from both sorted sets and loses its copy (delay <= 0), or is rescheduled at `now` + delay and stores the JSON. No other row's cached copy changes. |
| RowsCache.AsWrittenIdleWritesNothing | fake-web-retailer/src/database_rows_cache.rs:62-66 | An idle or failed pass, as the program reads the reply, writes nothing. |
| RowsCache.PassesAgree | fake-web-retailer/src/database_rows_cache.rs:51-68 | The program's reading and the intended reading give the same reply and state whenever the earliest member is the rendering of its own score. |
| RowsCache.SwappedReplyFails | fake-web-retailer/src/database_rows_cache.rs:51-72 | Row 42 due at 100 with delay 5, at time 100: the program fails with no writes, the intended pass refreshes row 42 to 105. |
| RowsCache.SwappedReplyActsEarly | fake-web-retailer/src/database_rows_cache.rs:51-68 | Nothing due at time 100, yet the program refreshes row 1000 (member `7`, score 1000), where the intended pass stays idle. |
| RowsCache.NextIsEarliest | fake-web-retailer/src/database_rows_cache.rs:51-61 | The member a pass reads is the earliest entry of `schedule:`. |
| RowsCache.PassPicksEarliest | fake-web-retailer/src/database_rows_cache.rs:62-72 | The intended pass (`CachePass`) acts only on the earliest scheduled row, and only when it is due. |
| RowsCache.NothingDue | fake-web-retailer/src/database_rows_cache.rs:62-66 | With no row due, the intended pass writes nothing and reports idle. |
| RowsCache.IdleWritesNothing | fake-web-retailer/src/database_rows_cache.rs:62-66 | An idle or failed run of the intended pass (`CachePass`) writes nothing. |
| RowsCache.RemovedEffect | fake-web-retailer/src/database_rows_cache.rs:73-79 | In the intended pass (`CachePass`), a row with delay <= 0 leaves both sorted sets and loses its cached copy. No other row's copy changes. |
| RowsCache.RefreshedEffect | fake-web-retailer/src/database_rows_cache.rs:82-97 | In the intended pass (`CachePass`), a refreshed row holds its JSON and is due again `delay` seconds after `now`, strictly later. Its delay and other rows' copies are unchanged. |
| Cart.AddToCart | fake-web-retailer/src/shopping_cart.rs:5-18 | Always ok. The new keyspace is HDEL for a zero count, HSET otherwise. |
| Cart.AddToCartStores | fake-web-retailer/src/shopping_cart.rs:12-15 | Afterwards the item reads back as exactly `count`, or is gone when `count` is 0. |
| Cart.AddToCartOtherItems | fake-web-retailer/src/shopping_cart.rs:12-15 | Other items in the cart keep their quantities. |
| Cart.AddToCartOtherKeys | fake-web-retailer/src/shopping_cart.rs:11 | Every key but the session's cart, including other carts, is unchanged. |
| Cart.CartKeyInjective | fake-web-retailer/src/shopping_cart.rs:11 | Two sessions share a cart exactly when they are the same session. |
| Cart.AddToCartIdempotent | fake-web-retailer/src/shopping_cart.rs:5-18 | Repeating the same call leaves the cart as one call does. |
| PageCache.ShouldCacheExactly | src/web_page_caching.rs:40-59 | Only a non-dynamic item page is cached, and then exactly when fewer than 10000 viewed items rank ahead of it in `viewed:`. |
| PageCache.RankCountsAhead | src/web_page_caching.rs:52-58 | ZRANK's rank of an item is the number of items ranked ahead of it, so rank 0 is the most viewed. |
| PageCache.MoreViewedIsCached | src/web_page_caching.rs:51-55 | An item ranked ahead of a cached item is cached too. |
| PageCache.RankOrder | src/web_page_caching.rs:51 | Rank follows the sorted-set order. |
| PageCache.CachedItems | src/web_page_caching.rs:51-58 | The cached items are exactly the first min(size, 10000) of `viewed:`, so at most 10000 are cached. |
| PageCache.CacheRequest | src/web_page_caching.rs:12-38 | An uncached request gets the rendered page. A cached one gets the stored page, or a nil-reply error exactly when none is stored. Nothing is written. |
| Logging.DisplayInjective | support/src/logging.rs:22-32 | Two severities display alike exactly when they are equal. |
| Logging.RecentLogKeyInjective | support/src/logging.rs:40 | One name's severities log to different lists. |
| Logging.KeysApart | support/src/logging.rs:56-58 | The recent list, the counts, `:start`, `:last` and `:pstart` of one (name, severity) are five distinct keys. |
| Logging.LogRecent | support/src/logging.rs:34-46 | EXEC replies ok on a conflict or when nothing was refused, and NoSuchKey otherwise. The keyspace is unchanged on a conflict and otherwise has the whole transaction applied. |
| Logging.RecentEffect | support/src/logging.rs:42-43 | The new line is at the head. The list keeps min(old + 1, 100) lines: the new one, then the newest old ones in order. |
| Logging.RecentFrame | support/src/logging.rs:42-43 | `log_recent` writes only its own list. |
| Logging.LogCommon | support/src/logging.rs:48-96 | The reply and the new keyspace are those of `LogCommonRun` over the loop's iterations. |
| Logging.Iteration | support/src/logging.rs:62-92 | One iteration's outcome and keyspace are those of `Attempt`. |
| Logging.AttemptIdle | support/src/logging.rs:67-71 | An iteration that finds no start key, or one naming this hour or later, writes nothing. |
| Logging.AttemptFails | support/src/logging.rs:65-69 | A start key that is not an integer, or is out of the timestamp range, ends `log_common` with an error and no writes. |
| Logging.RotateEffect | support/src/logging.rs:72-89 | The old counts move to `:last` and the old start to `:pstart`. The start names this hour and the counts hold only the message, once. The batch succeeds exactly when counts existed. |
| Logging.AttemptRotates | support/src/logging.rs:71-91 | A committed rotation leaves the new start, `:pstart`, `:last` and a fresh count of the message, with the message at the head of the recent list. It is ok exactly when counts existed. |
| Logging.AllSucceedConcat | support/src/logging.rs:91 | The rotation and `log_recent`'s commands succeed together exactly when each part does in turn. |
| Logging.NoSecondRotation | support/src/logging.rs:60-71 | After a committed rotation, no iteration in the same or an earlier hour rotates again. |
| Logging.SameHourStable | support/src/logging.rs:60-94 | While the start key names hour `h`, the rest of the loop, in hour `h` or earlier, changes nothing and is ok. |
| Logging.NeverStarted | support/src/logging.rs:67 | With no start key, `log_common` writes nothing and is ok. |
| LoggingService.LogRecent | logging/src/main.rs:41-53 | The same transaction outcome and keyspace as `Logging.LogRecent`. |
| LoggingService.LogCommon | logging/src/main.rs:55-103 | The same loop outcome and keyspace as `Logging.LogCommon`. |

## Findings

| source | as written | input that shows it | evidently intended | confidence | as-written member | corrected member |
|---|---|---|---|---|---|---|
| fake-web-retailer/src/database_rows_cache.rs:51-68 | `cache_rows` decodes `ZRANGE schedule: 0 0 WITHSCORES` as `Vec<(Timestamp, RowId)>`. The reply lists the member before its score, as feed/src/main.rs:143-151 reads it. So the row id is taken as the due time and the due time as the row id. | `schedule:` = {`42`: 100}, `delay:` = {`42`: 5}, now = 100: no delay is found for "row" 100 and the pass fails. `schedule:` = {`7`: 1000}, `delay:` = {`1000`: 5}, now = 100: row 1000 is refreshed although nothing is due. | `Vec<(RowId, Timestamp)>`: refresh the earliest row when its score is due | high (not executed) | RowsCache.CachePassAsWritten, RowsCache.SwappedReplyFails, RowsCache.SwappedReplyActsEarly | RowsCache.CachePass, RowsCache.PassPicksEarliest, RowsCache.NothingDue |

## Left out

- The `fred` client setup, the programs' `main` functions and their printed output are not modelled. The server's transport errors are not modelled either: every command reaches the server.
- Clocks are parameters (`now`, `timestamp`, `Tick.hourStart`), and so is the logged time stamp text. Formatting dates and truncating to the hour are therefore not modelled.
- The deadline loops in `list_item`, `purchase_item` and `log_common` run over a finite `conflicts`/`ticks` sequence, one entry per attempt the deadline allows. A WATCH conflict is an input flag, not another client.
- The sleeps in `clean_sessions_task` and `cache_rows` are not modelled. `cache_rows` is modelled one pass at a time (`RowsCache.CacheRowsPass`), because its loop never ends.
- Key expiry is not modelled: the EXPIRE calls in `post_article` and `get_group_articles_by_score`, and SET EX in the unreachable branch of `cache_request`.
- The stubs `Db::get`, `extract_item_id`, `is_dynamic_page`, `hash_request` and the page callback are not modelled. Their results are parameters.
- Scores, prices and funds are `f64` in the client. The model takes them as integers: the listing price and agreed price of `list_item` and `purchase_item`, the delay and due time of `schedule_row_cache` and `cache_rows`, and the buyer's funds. Fractional values are not modelled.
- Marketplace.PurchaseUnreadable: funds that are a number but not an integer (such as `10.5`) are an immediate error with no writes. The client reads them as an `f64` and goes on to the price check, and a committed batch would then fail on the buyer's HINCRBY.
- Integer widths are not modelled, except the `i32` row ids of the rows cache and the `u32` article id. This covers `i64` funds and counters, `u32` ranks and the `u64` cart count (a `nat`).
- Feed.ArticleVote: the `u64` cutoff `now - ONE_WEEK_IN_SECONDS` is an unbounded subtraction, so the underflow panic for `now` below one week is not modelled. A negative `time:` score, which is not a `u64`, is a panic.
- Redis replies converted by the client are modelled as follows:
  - Integers are canonical decimal strings. The client's own parse also accepts `+7` or `007`; the model does not.
  - Counters.ReadSamples treats a non-canonical integer field or value as unreadable, so `get_counter` reports an error.
  - RowsCache.CachePassAsWritten treats a `schedule:` member that is not a canonical integer as unreadable, so the pass reports an error. The client reads it as an `f64`. RowsCache.ParseRow does the same for the intended pass.
  - Logging.Attempt treats a non-canonical start key as unreadable, so `log_common` reports an error.
  - Marketplace.PurchaseUnreadable treats non-canonical funds as unreadable.
  - A nil reply read as a string or number is a `NilReply` error.
  - A committed EXEC with a refused RENAME is a `NoSuchKey` error. One with a refused HINCRBY is a `NotAnInteger` error.
- WRONGTYPE errors are not modelled. Each value type has its own map, so commands of different types on one key do not clash.
- Sessions.UpdateTokenCountsView requires a non-empty token: with an empty token `viewed:{token}` is `viewed:` itself, and the view count and viewed set coincide.
- Sessions.UpdateTokenViewed requires a non-empty token, for the same reason.
- The benchmark code in fake-web-retailer/src/session_cookie.rs and the retailer's analytics module are not part of this model.
- Pipelined and one-by-one execution are not distinguished, since no other client runs in between.
