/** The game marketplace: sellers move items from their inventory set into the
    `market:` sorted set, buyers pay for a listing and receive the item. Both operations
    WATCH what their decision reads and retry the MULTI/EXEC batch until it commits or
    the deadline passes. Each attempt the deadline allows is one entry of `conflicts`,
    which says whether another client wrote a watched key during that attempt. */
module Marketplace {
  import opened Wrappers
  import opened Decimals
  import opened Redis

  const MarketKey := "market:"
  const FundsField := "funds"

  function InventoryKey(userId: int): string { "inventory:" + Decimal(userId) }

  function UserKey(userId: int): string { "users:" + Decimal(userId) }

  /** The listing's member in `market:`: `"{item_name}.{seller_id}"`. */
  function ItemId(itemName: string, sellerId: int): string {
    itemName + "." + Decimal(sellerId)
  }

  /** A string cut at its last `.`, as a reader of listing ids would cut it. */
  function SplitLastDot(s: string): Option<(string, string)>
    decreases |s|
  {
    if s == [] then None
    else if s[|s| - 1] == '.' then Some((s[..|s| - 1], ""))
    else match SplitLastDot(s[..|s| - 1])
      case None => None
      case Some(p) => Some((p.0, p.1 + [s[|s| - 1]]))
  }

  lemma {:induction false} SplitAfterLastDot(p: string, t: string)
    requires '.' !in t
    ensures SplitLastDot(p + "." + t) == Some((p, t))
    decreases |t|
  {
    var s := p + "." + t;
    if t != [] {
      var t' := t[..|t| - 1];
      assert s[..|s| - 1] == p + "." + t';
      SplitAfterLastDot(p, t');
      assert t' + [t[|t| - 1]] == t;
    } else {
      assert s[..|s| - 1] == p;
    }
  }

  /** The listing id names its item and seller unambiguously: a decimal number has no
      `.`, so cutting at the last `.` gives back both parts. */
  lemma ItemIdSplits(itemName: string, sellerId: int)
    ensures SplitLastDot(ItemId(itemName, sellerId)) == Some((itemName, Decimal(sellerId)))
    ensures ParseInt(SplitLastDot(ItemId(itemName, sellerId)).value.1) == Some(sellerId)
  {
    SplitAfterLastDot(itemName, Decimal(sellerId));
    ParseDecimal(sellerId);
  }

  lemma ItemIdInjective(a: string, s: int, b: string, t: int)
    requires ItemId(a, s) == ItemId(b, t)
    ensures a == b && s == t
  {
    ItemIdSplits(a, s);
    ItemIdSplits(b, t);
    DecimalInjective(s, t);
  }

  lemma KeysDistinct(a: int, b: int)
    ensures InventoryKey(a) != MarketKey && UserKey(a) != MarketKey
    ensures InventoryKey(a) != UserKey(b)
    ensures a != b ==> UserKey(a) != UserKey(b) && InventoryKey(a) != InventoryKey(b)
  {
    assert InventoryKey(a)[0] == 'i' && UserKey(b)[0] == 'u' && MarketKey[0] == 'm';
    assert UserKey(a)[6..] == Decimal(a) && UserKey(b)[6..] == Decimal(b);
    assert InventoryKey(a)[10..] == Decimal(a) && InventoryKey(b)[10..] == Decimal(b);
    if Decimal(a) == Decimal(b) {
      DecimalInjective(a, b);
    }
  }

  lemma UserKeysDistinct(a: int, b: int)
    requires a != b
    ensures UserKey(a) != UserKey(b)
  {
    KeysDistinct(a, b);
  }

  // ----- list_item -----

  /** The batch `list_item` stages: the listing enters `market:` at `price`, the item
      leaves the seller's inventory. */
  function ListBatch(itemName: string, sellerId: int, price: int): seq<Cmd> {
    [ZAdd(MarketKey, ItemId(itemName, sellerId), price), SRem(InventoryKey(sellerId), itemName)]
  }

  /** What `list_item` returns and leaves behind, attempt by attempt. */
  function ListItemRun(db: Db, itemName: string, sellerId: int, price: int, conflicts: seq<bool>)
    : (Option<bool>, Db)
    decreases |conflicts|
  {
    if conflicts == [] then (Some(false), db)
    else if !SIsMember(db, InventoryKey(sellerId), itemName) then (None, db)
    else if !conflicts[0] then (Some(true), ApplyAll(db, ListBatch(itemName, sellerId, price)))
    else ListItemRun(db, itemName, sellerId, price, conflicts[1..])
  }

  /** `list_item`: WATCH the inventory, check ownership, stage the batch, EXEC; a nil
      EXEC starts over. */
  method ListItem(store: Store, itemName: string, sellerId: int, price: int, conflicts: seq<bool>)
    returns (r: Option<bool>)
    modifies store
    ensures (r, store.State()) == ListItemRun(old(store.State()), itemName, sellerId, price, conflicts)
  {
    var inventory := InventoryKey(sellerId);
    var item := ItemId(itemName, sellerId);
    ghost var db := store.State();
    var attempt := 0;
    while attempt < |conflicts|
      invariant attempt <= |conflicts|
      invariant store.State() == db
      invariant ListItemRun(db, itemName, sellerId, price, conflicts)
             == ListItemRun(db, itemName, sellerId, price, conflicts[attempt..])
    {
      assert conflicts[attempt..][1..] == conflicts[attempt + 1..];
      // WATCH inventory, then SISMEMBER
      if !SIsMember(store.State(), inventory, itemName) {
        // UNWATCH
        return None;
      }
      var committed := store.Exec([ZAdd(MarketKey, item, price), SRem(inventory, itemName)], conflicts[attempt]);
      if committed {
        return Some(true);
      }
      attempt := attempt + 1;
    }
    return Some(false);
  }

  /** The three ways `list_item` ends. Not owning the item ends it at once, unretried;
      the first attempt without a conflict commits the batch; a deadline that passes
      first gives `Some(false)` with nothing written. */
  lemma {:induction false} ListItemOutcomes(db: Db, itemName: string, sellerId: int, price: int, conflicts: seq<bool>)
    ensures var (r, after) := ListItemRun(db, itemName, sellerId, price, conflicts);
            var owned := SIsMember(db, InventoryKey(sellerId), itemName);
            && (conflicts != [] && !owned ==> r == None && after == db)
            && (conflicts != [] && owned && false in conflicts ==>
                  r == Some(true) && after == ApplyAll(db, ListBatch(itemName, sellerId, price)))
            && (conflicts == [] || (owned && false !in conflicts) ==> r == Some(false) && after == db)
    decreases |conflicts|
  {
    if conflicts != [] && SIsMember(db, InventoryKey(sellerId), itemName) && conflicts[0] {
      ListItemOutcomes(db, itemName, sellerId, price, conflicts[1..]);
      assert conflicts == [conflicts[0]] + conflicts[1..];
    }
  }

  /** A committed listing: the listing id is in `market:` at the asked price, the item is
      no longer in the seller's inventory, and no other key changed. */
  lemma ListCommitEffect(db: Db, itemName: string, sellerId: int, price: int)
    ensures var after := ApplyAll(db, ListBatch(itemName, sellerId, price));
            && ZSetOf(after, MarketKey) == ZSetOf(db, MarketKey)[ItemId(itemName, sellerId) := price]
            && Members(after, InventoryKey(sellerId)) == Members(db, InventoryKey(sellerId)) - {itemName}
            && forall k :: k != MarketKey && k != InventoryKey(sellerId) ==> At(after, k) == At(db, k)
  {
    var batch := ListBatch(itemName, sellerId, price);
    KeysDistinct(sellerId, sellerId);
    assert batch == [batch[0]] + [batch[1]];
    ApplyAllCons(db, batch[0], [batch[1]]);
    ApplyAllOne(Apply(db, batch[0]), batch[1]);
    Frame(db, batch[0], InventoryKey(sellerId));
    assert TouchedAll(batch) == {MarketKey, InventoryKey(sellerId)} by {
      assert Touched(batch[0]) == {MarketKey} && Touched(batch[1]) == {InventoryKey(sellerId)};
    }
    forall k | k != MarketKey && k != InventoryKey(sellerId)
      ensures At(ApplyAll(db, batch), k) == At(db, k)
    {
      FrameAll(db, batch, k);
    }
  }

  /** Listing the same item again right after a committed listing finds it gone from
      the inventory and reports `None`. */
  lemma RelistNotOwned(db: Db, itemName: string, sellerId: int, price: int, price2: int, conflicts: seq<bool>)
    requires conflicts != []
    ensures var after := ApplyAll(db, ListBatch(itemName, sellerId, price));
            ListItemRun(after, itemName, sellerId, price2, conflicts) == (None, after)
  {
    ListCommitEffect(db, itemName, sellerId, price);
  }

  // ----- purchase_item -----

  /** The batch `purchase_item` stages: pay the seller, charge the buyer, hand over the
      item, withdraw the listing. */
  function PurchaseBatch(buyerId: int, itemName: string, sellerId: int, price: int): seq<Cmd> {
    [ HIncrBy(UserKey(sellerId), FundsField, price),
      HIncrBy(UserKey(buyerId), FundsField, -price),
      SAdd(InventoryKey(buyerId), itemName),
      ZRem(MarketKey, [ItemId(itemName, sellerId)]) ]
  }

  /** What `purchase_item` returns and leaves behind, attempt by attempt. A missing
      listing or funds field is a nil reply the client cannot read as a number. A
      committed batch whose HINCRBY the server refused still runs its other commands,
      and EXEC's reply then carries the error. */
  function PurchaseRun(db: Db, buyerId: int, itemName: string, sellerId: int, lprice: int, conflicts: seq<bool>)
    : (Result<Option<bool>>, Db)
    decreases |conflicts|
  {
    if conflicts == [] then (Ok(None), db)
    else
      var price := ZScore(db, MarketKey, ItemId(itemName, sellerId));
      var funds := HGet(db, UserKey(buyerId), FundsField);
      if price.None? || funds.None? then (Err(NilReply), db)
      else if ParseInt(funds.value).None? then (Err(NotAnInteger), db)
      else if price.value != lprice || price.value > ParseInt(funds.value).value then (Ok(None), db)
      else if !conflicts[0] then
        var batch := PurchaseBatch(buyerId, itemName, sellerId, price.value);
        (if AllSucceed(db, batch) then Ok(Some(true)) else Err(NotAnInteger), ApplyAll(db, batch))
      else PurchaseRun(db, buyerId, itemName, sellerId, lprice, conflicts[1..])
  }

  /** `purchase_item`: WATCH `market:` and the buyer, read price and funds, check them,
      stage the batch, EXEC; a nil EXEC starts over. */
  method PurchaseItem(store: Store, buyerId: int, itemName: string, sellerId: int, lprice: int, conflicts: seq<bool>)
    returns (r: Result<Option<bool>>)
    modifies store
    ensures (r, store.State()) == PurchaseRun(old(store.State()), buyerId, itemName, sellerId, lprice, conflicts)
  {
    var buyer := UserKey(buyerId);
    var item := ItemId(itemName, sellerId);
    ghost var db := store.State();
    var attempt := 0;
    while attempt < |conflicts|
      invariant attempt <= |conflicts|
      invariant store.State() == db
      invariant PurchaseRun(db, buyerId, itemName, sellerId, lprice, conflicts)
             == PurchaseRun(db, buyerId, itemName, sellerId, lprice, conflicts[attempt..])
    {
      assert conflicts[attempt..][1..] == conflicts[attempt + 1..];
      // WATCH market: and the buyer, then ZSCORE and HGET
      var price := ZScore(store.State(), MarketKey, item);
      if price.None? { return Err(NilReply); }
      var fundsText := HGet(store.State(), buyer, FundsField);
      if fundsText.None? { return Err(NilReply); }
      var funds := ParseInt(fundsText.value);
      if funds.None? { return Err(NotAnInteger); }
      if price.value != lprice || price.value > funds.value {
        // UNWATCH
        return Ok(None);
      }
      var reply := ExecPurchase(store, buyerId, itemName, sellerId, price.value, conflicts[attempt]);
      if reply.Some? {
        return reply.value;
      }
      attempt := attempt + 1;
    }
    return Ok(None);
  }

  /** MULTI, the four staged writes, EXEC: `None` when a conflict discarded the
      transaction, otherwise EXEC's reply. */
  method ExecPurchase(store: Store, buyerId: int, itemName: string, sellerId: int, price: int, conflict: bool)
    returns (reply: Option<Result<Option<bool>>>)
    modifies store
    ensures conflict ==> reply == None && store.State() == old(store.State())
    ensures !conflict ==>
      var batch := PurchaseBatch(buyerId, itemName, sellerId, price);
      && reply == Some(if AllSucceed(old(store.State()), batch) then Ok(Some(true)) else Err(NotAnInteger))
      && store.State() == ApplyAll(old(store.State()), batch)
  {
    var batch :=
      [ HIncrBy(UserKey(sellerId), FundsField, price),
        HIncrBy(UserKey(buyerId), FundsField, -price),
        SAdd(InventoryKey(buyerId), itemName),
        ZRem(MarketKey, [ItemId(itemName, sellerId)]) ];
    assert batch == PurchaseBatch(buyerId, itemName, sellerId, price);
    var ok := AllSucceed(store.State(), batch);
    var committed := store.Exec(batch, conflict);
    reply := if !committed then None else if ok then Some(Ok(Some(true))) else Some(Err(NotAnInteger));
  }

  /** The buyer's funds as the purchase reads them. */
  predicate FundsReadable(db: Db, userId: int) {
    HGet(db, UserKey(userId), FundsField).Some? && ParseInt(HGet(db, UserKey(userId), FundsField).value).Some?
  }

  /** How `purchase_item` ends when the listing and the buyer's funds can be read: a
      price other than the expected one, or one above the funds, ends it at once with
      `Ok(None)` and nothing written; otherwise the first attempt without a conflict
      commits the batch at the expected price, reporting `Some(true)` exactly when the
      seller's funds took the credit and an error otherwise; a deadline that passes
      first also gives `Ok(None)`, the same value as the failed check. */
  lemma {:induction false} PurchaseOutcomes(db: Db, buyerId: int, itemName: string, sellerId: int, lprice: int, conflicts: seq<bool>)
    requires conflicts != []
    requires ZScore(db, MarketKey, ItemId(itemName, sellerId)).Some? && FundsReadable(db, buyerId)
    ensures var (r, after) := PurchaseRun(db, buyerId, itemName, sellerId, lprice, conflicts);
            var price := ZScore(db, MarketKey, ItemId(itemName, sellerId)).value;
            var funds := ParseInt(HGet(db, UserKey(buyerId), FundsField).value).value;
            && (price != lprice || price > funds ==> r == Ok(None) && after == db)
            && (price == lprice && price <= funds && false in conflicts ==>
                  && after == ApplyAll(db, PurchaseBatch(buyerId, itemName, sellerId, lprice))
                  && (r == Ok(Some(true)) <==> Counter(HGet(db, UserKey(sellerId), FundsField)).Some?)
                  && (r != Ok(Some(true)) ==> r == Err(NotAnInteger)))
            && (false !in conflicts ==> r == Ok(None) && after == db)
    decreases |conflicts|
  {
    PurchaseBatchSucceeds(db, buyerId, itemName, sellerId, lprice);
    if conflicts[0] && |conflicts| > 1 {
      PurchaseOutcomes(db, buyerId, itemName, sellerId, lprice, conflicts[1..]);
      assert conflicts == [conflicts[0]] + conflicts[1..];
    }
  }

  /** A listing that is gone, or funds that cannot be read, end the purchase with an
      error and nothing written. */
  lemma PurchaseUnreadable(db: Db, buyerId: int, itemName: string, sellerId: int, lprice: int, conflicts: seq<bool>)
    requires conflicts != []
    requires ZScore(db, MarketKey, ItemId(itemName, sellerId)).None? || !FundsReadable(db, buyerId)
    ensures PurchaseRun(db, buyerId, itemName, sellerId, lprice, conflicts).0.Err?
    ensures PurchaseRun(db, buyerId, itemName, sellerId, lprice, conflicts).1 == db
  {
  }

  /** The batch runs without a refusal exactly when the seller's funds are absent or an
      integer: the buyer's were read as a number before the batch was staged. */
  lemma PurchaseBatchSucceeds(db: Db, buyerId: int, itemName: string, sellerId: int, price: int)
    requires FundsReadable(db, buyerId)
    ensures AllSucceed(db, PurchaseBatch(buyerId, itemName, sellerId, price))
        <==> Counter(HGet(db, UserKey(sellerId), FundsField)).Some?
  {
    var b := PurchaseBatch(buyerId, itemName, sellerId, price);
    var buyer, seller := UserKey(buyerId), UserKey(sellerId);
    if Counter(HGet(db, seller, FundsField)).Some? {
      var d1 := Apply(db, b[0]);
      if buyerId == sellerId {
        HIncrByAdds(db, seller, FundsField, price);
      } else {
        UserKeysDistinct(sellerId, buyerId);
        HIncrByOtherKey(db, seller, FundsField, price, buyer, FundsField);
      }
      var d2 := Apply(d1, b[1]);
      var d3 := Apply(d2, b[2]);
      assert AllSucceed(d3, b[3..]) by { assert b[3..][1..] == []; }
      assert AllSucceed(d2, b[2..]) by { assert b[2..][1..] == b[3..]; }
      assert AllSucceed(d1, b[1..]) by { assert b[1..][1..] == b[2..]; }
    }
  }

  /** A committed purchase whose seller's funds are not an integer: the server refuses
      the credit and runs the rest, so the buyer is charged, the item moves and the
      listing goes, while the seller's funds stay as they were. */
  lemma PurchaseUnpaidSeller(db: Db, buyerId: int, itemName: string, sellerId: int, price: int)
    requires FundsReadable(db, buyerId)
    requires Counter(HGet(db, UserKey(sellerId), FundsField)).None?
    ensures var after := ApplyAll(db, PurchaseBatch(buyerId, itemName, sellerId, price));
            && !AllSucceed(db, PurchaseBatch(buyerId, itemName, sellerId, price))
            && buyerId != sellerId
            && Counter(HGet(after, UserKey(buyerId), FundsField)) == Some(Funds(db, buyerId) - price)
            && HGet(after, UserKey(sellerId), FundsField) == HGet(db, UserKey(sellerId), FundsField)
            && Members(after, InventoryKey(buyerId)) == Members(db, InventoryKey(buyerId)) + {itemName}
            && ZSetOf(after, MarketKey) == ZSetOf(db, MarketKey) - {ItemId(itemName, sellerId)}
  {
    PurchaseBatchSucceeds(db, buyerId, itemName, sellerId, price);
    UnpaidFunds(db, buyerId, itemName, sellerId, price);
    PurchaseGivesItem(db, buyerId, itemName, sellerId, price);
    PurchaseWithdrawsListing(db, buyerId, itemName, sellerId, price);
  }

  /** The funds after a batch whose credit to the seller was refused. */
  lemma UnpaidFunds(db: Db, buyerId: int, itemName: string, sellerId: int, price: int)
    requires FundsReadable(db, buyerId)
    requires Counter(HGet(db, UserKey(sellerId), FundsField)).None?
    ensures buyerId != sellerId
    ensures var after := ApplyAll(db, PurchaseBatch(buyerId, itemName, sellerId, price));
            && Counter(HGet(after, UserKey(buyerId), FundsField)) == Some(Funds(db, buyerId) - price)
            && HGet(after, UserKey(sellerId), FundsField) == HGet(db, UserKey(sellerId), FundsField)
  {
    var buyer, seller := UserKey(buyerId), UserKey(sellerId);
    PurchaseSteps(db, buyerId, itemName, sellerId, price);
    UserKeysDistinct(buyerId, sellerId);
    assert Apply(db, HIncrBy(seller, FundsField, price)) == db;
    var d2 := Apply(db, HIncrBy(buyer, FundsField, -price));
    var d3 := Apply(d2, SAdd(InventoryKey(buyerId), itemName));
    var d4 := Apply(d3, ZRem(MarketKey, [ItemId(itemName, sellerId)]));
    HIncrByAdds(db, buyer, FundsField, -price);
    HIncrByOtherKey(db, buyer, FundsField, -price, seller, FundsField);
    SAddKeeps(d2, InventoryKey(buyerId), itemName);
    ZRemKeeps(d3, MarketKey, [ItemId(itemName, sellerId)]);
    HGetOfHashes(d4, d2, buyer, FundsField);
    HGetOfHashes(d4, d2, seller, FundsField);
  }

  /** A user's funds as HINCRBY counts them (absent is 0). */
  function Funds(db: Db, userId: int): int
    requires Counter(HGet(db, UserKey(userId), FundsField)).Some?
  {
    Counter(HGet(db, UserKey(userId), FundsField)).value
  }

  lemma PurchaseSteps(db: Db, buyerId: int, itemName: string, sellerId: int, price: int)
    ensures ApplyAll(db, PurchaseBatch(buyerId, itemName, sellerId, price))
         == Apply(Apply(Apply(Apply(db, HIncrBy(UserKey(sellerId), FundsField, price)),
                                 HIncrBy(UserKey(buyerId), FundsField, -price)),
                           SAdd(InventoryKey(buyerId), itemName)),
                     ZRem(MarketKey, [ItemId(itemName, sellerId)]))
  {
    var b := PurchaseBatch(buyerId, itemName, sellerId, price);
    assert b == [b[0]] + ([b[1]] + ([b[2]] + [b[3]]));
    ApplyAllCons(db, b[0], [b[1]] + ([b[2]] + [b[3]]));
    ApplyAllCons(Apply(db, b[0]), b[1], [b[2]] + [b[3]]);
    ApplyAllCons(Apply(Apply(db, b[0]), b[1]), b[2], [b[3]]);
    ApplyAllOne(Apply(Apply(Apply(db, b[0]), b[1]), b[2]), b[3]);
  }

  /** A committed purchase moves `price` from buyer to seller, so their funds together
      stay the same. The seller's funds must be absent or an integer for HINCRBY to
      apply; the buyer's were read as a number before the batch was staged. */
  lemma PurchaseMovesFunds(db: Db, buyerId: int, itemName: string, sellerId: int, price: int)
    requires FundsReadable(db, buyerId)
    requires Counter(HGet(db, UserKey(sellerId), FundsField)).Some?
    ensures var after := ApplyAll(db, PurchaseBatch(buyerId, itemName, sellerId, price));
            && Counter(HGet(after, UserKey(buyerId), FundsField)).Some?
            && Counter(HGet(after, UserKey(sellerId), FundsField)).Some?
            && (buyerId != sellerId ==>
                  && Funds(after, buyerId) == Funds(db, buyerId) - price
                  && Funds(after, sellerId) == Funds(db, sellerId) + price)
            && Funds(after, buyerId) + Funds(after, sellerId) == Funds(db, buyerId) + Funds(db, sellerId)
  {
    var buyer := UserKey(buyerId);
    var seller := UserKey(sellerId);
    PurchaseSteps(db, buyerId, itemName, sellerId, price);
    var d1 := Apply(db, HIncrBy(seller, FundsField, price));
    var d2 := Apply(d1, HIncrBy(buyer, FundsField, -price));
    var d3 := Apply(d2, SAdd(InventoryKey(buyerId), itemName));
    var d4 := Apply(d3, ZRem(MarketKey, [ItemId(itemName, sellerId)]));
    if buyerId != sellerId {
      UserKeysDistinct(buyerId, sellerId);
      PaymentBetween(db, buyer, seller, price);
    } else {
      PaymentToSelf(db, buyer, price);
    }
    SAddKeeps(d2, InventoryKey(buyerId), itemName);
    ZRemKeeps(d3, MarketKey, [ItemId(itemName, sellerId)]);
    HGetOfHashes(d4, d2, buyer, FundsField);
    HGetOfHashes(d4, d2, seller, FundsField);
  }

  /** The two HINCRBYs of the batch, between two different users' hashes. */
  lemma PaymentBetween(db: Db, buyer: string, seller: string, price: int)
    requires buyer != seller
    requires Counter(HGet(db, buyer, FundsField)).Some?
    requires Counter(HGet(db, seller, FundsField)).Some?
    ensures var after := Apply(Apply(db, HIncrBy(seller, FundsField, price)), HIncrBy(buyer, FundsField, -price));
            && Counter(HGet(after, buyer, FundsField)) == Some(Counter(HGet(db, buyer, FundsField)).value - price)
            && Counter(HGet(after, seller, FundsField)) == Some(Counter(HGet(db, seller, FundsField)).value + price)
  {
    PaymentToSeller(db, buyer, seller, price);
    PaymentFromBuyer(db, buyer, seller, price);
  }

  lemma PaymentToSeller(db: Db, buyer: string, seller: string, price: int)
    requires buyer != seller
    requires Counter(HGet(db, seller, FundsField)).Some?
    ensures var after := Apply(Apply(db, HIncrBy(seller, FundsField, price)), HIncrBy(buyer, FundsField, -price));
            Counter(HGet(after, seller, FundsField)) == Some(Counter(HGet(db, seller, FundsField)).value + price)
  {
    var d1 := Apply(db, HIncrBy(seller, FundsField, price));
    HIncrByStores(db, seller, FundsField, price);
    HIncrByOtherKey(d1, buyer, FundsField, -price, seller, FundsField);
    ParseDecimal(Counter(HGet(db, seller, FundsField)).value + price);
  }

  lemma PaymentFromBuyer(db: Db, buyer: string, seller: string, price: int)
    requires buyer != seller
    requires Counter(HGet(db, buyer, FundsField)).Some?
    ensures var after := Apply(Apply(db, HIncrBy(seller, FundsField, price)), HIncrBy(buyer, FundsField, -price));
            Counter(HGet(after, buyer, FundsField)) == Some(Counter(HGet(db, buyer, FundsField)).value - price)
  {
    var d1 := Apply(db, HIncrBy(seller, FundsField, price));
    HIncrByOtherKey(db, seller, FundsField, price, buyer, FundsField);
    HIncrByStoresFrom(db, d1, buyer, FundsField, -price);
    ParseDecimal(Counter(HGet(db, buyer, FundsField)).value - price);
  }

  /** The two HINCRBYs of the batch, when buyer and seller are the same user. */
  lemma PaymentToSelf(db: Db, user: string, price: int)
    requires Counter(HGet(db, user, FundsField)).Some?
    ensures var after := Apply(Apply(db, HIncrBy(user, FundsField, price)), HIncrBy(user, FundsField, -price));
            Counter(HGet(after, user, FundsField)) == Counter(HGet(db, user, FundsField))
  {
    HIncrByAdds(db, user, FundsField, price);
    HIncrByAdds(Apply(db, HIncrBy(user, FundsField, price)), user, FundsField, -price);
  }

  /** A committed purchase hands the item to the buyer and withdraws the listing; the
      only other keys it changes are the two users' hashes. */
  lemma PurchaseMovesItem(db: Db, buyerId: int, itemName: string, sellerId: int, price: int)
    ensures var after := ApplyAll(db, PurchaseBatch(buyerId, itemName, sellerId, price));
            && Members(after, InventoryKey(buyerId)) == Members(db, InventoryKey(buyerId)) + {itemName}
            && ZSetOf(after, MarketKey) == ZSetOf(db, MarketKey) - {ItemId(itemName, sellerId)}
            && forall k :: k !in {UserKey(buyerId), UserKey(sellerId), InventoryKey(buyerId), MarketKey} ==>
                 At(after, k) == At(db, k)
  {
    PurchaseGivesItem(db, buyerId, itemName, sellerId, price);
    PurchaseWithdrawsListing(db, buyerId, itemName, sellerId, price);
    forall k | k !in {UserKey(buyerId), UserKey(sellerId), InventoryKey(buyerId), MarketKey}
      ensures At(ApplyAll(db, PurchaseBatch(buyerId, itemName, sellerId, price)), k) == At(db, k)
    {
      PurchaseKeepsOthers(db, buyerId, itemName, sellerId, price, k);
    }
  }

  lemma PurchaseGivesItem(db: Db, buyerId: int, itemName: string, sellerId: int, price: int)
    ensures var after := ApplyAll(db, PurchaseBatch(buyerId, itemName, sellerId, price));
            Members(after, InventoryKey(buyerId)) == Members(db, InventoryKey(buyerId)) + {itemName}
  {
    var inv := InventoryKey(buyerId);
    PurchaseSteps(db, buyerId, itemName, sellerId, price);
    var d1 := Apply(db, HIncrBy(UserKey(sellerId), FundsField, price));
    var d2 := Apply(d1, HIncrBy(UserKey(buyerId), FundsField, -price));
    var d3 := Apply(d2, SAdd(inv, itemName));
    HIncrByKeeps(db, UserKey(sellerId), FundsField, price);
    HIncrByKeeps(d1, UserKey(buyerId), FundsField, -price);
    SAddMembers(d2, inv, itemName, inv);
    ZRemKeeps(d3, MarketKey, [ItemId(itemName, sellerId)]);
  }

  lemma PurchaseWithdrawsListing(db: Db, buyerId: int, itemName: string, sellerId: int, price: int)
    ensures var after := ApplyAll(db, PurchaseBatch(buyerId, itemName, sellerId, price));
            ZSetOf(after, MarketKey) == ZSetOf(db, MarketKey) - {ItemId(itemName, sellerId)}
  {
    var item := ItemId(itemName, sellerId);
    PurchaseSteps(db, buyerId, itemName, sellerId, price);
    var d1 := Apply(db, HIncrBy(UserKey(sellerId), FundsField, price));
    var d2 := Apply(d1, HIncrBy(UserKey(buyerId), FundsField, -price));
    var d3 := Apply(d2, SAdd(InventoryKey(buyerId), itemName));
    HIncrByKeeps(db, UserKey(sellerId), FundsField, price);
    HIncrByKeeps(d1, UserKey(buyerId), FundsField, -price);
    SAddKeeps(d2, InventoryKey(buyerId), itemName);
    ZRemOne(d3, MarketKey, item);
  }

  lemma PurchaseKeepsOthers(db: Db, buyerId: int, itemName: string, sellerId: int, price: int, k: string)
    requires k !in {UserKey(buyerId), UserKey(sellerId), InventoryKey(buyerId), MarketKey}
    ensures At(ApplyAll(db, PurchaseBatch(buyerId, itemName, sellerId, price)), k) == At(db, k)
  {
    PurchaseSteps(db, buyerId, itemName, sellerId, price);
    var c0 := HIncrBy(UserKey(sellerId), FundsField, price);
    var c1 := HIncrBy(UserKey(buyerId), FundsField, -price);
    var c2 := SAdd(InventoryKey(buyerId), itemName);
    var c3 := ZRem(MarketKey, [ItemId(itemName, sellerId)]);
    var d1 := Apply(db, c0);
    var d2 := Apply(d1, c1);
    var d3 := Apply(d2, c2);
    FrameHIncrBy(db, UserKey(sellerId), FundsField, price, k);
    FrameHIncrBy(d1, UserKey(buyerId), FundsField, -price, k);
    FrameSAdd(d2, InventoryKey(buyerId), itemName, k);
    FrameZRem(d3, MarketKey, [ItemId(itemName, sellerId)], k);
  }

  /** A listing is sold at most once: after a committed purchase the listing is gone, so
      any later purchase of it reads no price and fails without writing. */
  lemma ListingSoldOnce(db: Db, buyerId: int, itemName: string, sellerId: int, price: int,
                        buyer2: int, lprice2: int, conflicts: seq<bool>)
    requires conflicts != []
    ensures var after := ApplyAll(db, PurchaseBatch(buyerId, itemName, sellerId, price));
            && ZScore(after, MarketKey, ItemId(itemName, sellerId)).None?
            && PurchaseRun(after, buyer2, itemName, sellerId, lprice2, conflicts) == (Err(NilReply), after)
  {
    PurchaseMovesItem(db, buyerId, itemName, sellerId, price);
  }

  /** A buyer never pays a price other than the one agreed: if the live price is not
      `lprice`, nothing commits. */
  lemma PriceChangeSafe(db: Db, buyerId: int, itemName: string, sellerId: int, lprice: int, conflicts: seq<bool>)
    requires ZScore(db, MarketKey, ItemId(itemName, sellerId)) != Some(lprice)
    ensures PurchaseRun(db, buyerId, itemName, sellerId, lprice, conflicts).0 != Ok(Some(true))
    ensures PurchaseRun(db, buyerId, itemName, sellerId, lprice, conflicts).1 == db
  {
    if conflicts != [] && ZScore(db, MarketKey, ItemId(itemName, sellerId)).Some? && FundsReadable(db, buyerId) {
      PurchaseOutcomes(db, buyerId, itemName, sellerId, lprice, conflicts);
    }
  }
}
