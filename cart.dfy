/** The retailer's shopping cart: a hash per session, `cart:{token}`, from item to the
    quantity wanted. */
module Cart {
  import opened Wrappers
  import opened Decimals
  import opened Redis
  import Sessions

  /** The write `add_to_cart` sends. The count is unsigned, so `count <= 0` holds only for
      0, which takes the item out of the cart. */
  function CartCmd(token: string, item: string, count: nat): Cmd {
    if count == 0 then HDel(Sessions.CartKey(token), [item])
    else HSet(Sessions.CartKey(token), item, Decimal(count))
  }

  /** `add_to_cart`: set the item's quantity, or remove it when the quantity is 0. */
  method AddToCart(store: Store, token: string, item: string, count: nat) returns (r: Result<()>)
    modifies store
    ensures r == Ok(())
    ensures store.State() == Apply(old(store.State()), CartCmd(token, item, count))
  {
    var key := "cart:" + token;
    if count <= 0 {
      var _ := store.Run(HDel(key, [item]));
    } else {
      var _ := store.Run(HSet(key, item, Decimal(count)));
    }
    r := Ok(());
  }

  /** Afterwards the item's quantity reads back as exactly `count` (it replaces the old
      quantity rather than adding to it), and an item set to 0 is gone. */
  lemma AddToCartStores(db: Db, token: string, item: string, count: nat)
    ensures var d := Apply(db, CartCmd(token, item, count));
      && (count == 0 ==> HGet(d, Sessions.CartKey(token), item) == None)
      && (count > 0 ==> HGet(d, Sessions.CartKey(token), item).Some?
                        && ParseInt(HGet(d, Sessions.CartKey(token), item).value) == Some(count))
  {
    var k := Sessions.CartKey(token);
    if count == 0 {
      HDelIs(db, k, [item]);
      assert Elems([item]) == {item};
    } else {
      HSetIs(db, k, item, Decimal(count));
      ParseDecimal(count);
    }
  }

  /** The other items of the cart keep their quantities. */
  lemma AddToCartOtherItems(db: Db, token: string, item: string, count: nat, other: string)
    requires other != item
    ensures HGet(Apply(db, CartCmd(token, item, count)), Sessions.CartKey(token), other)
         == HGet(db, Sessions.CartKey(token), other)
  {
    var k := Sessions.CartKey(token);
    if count == 0 {
      HDelIs(db, k, [item]);
      assert Elems([item]) == {item};
    } else {
      HSetIs(db, k, item, Decimal(count));
    }
  }

  /** Every other key, other sessions' carts among them, is left as it was. */
  lemma AddToCartOtherKeys(db: Db, token: string, item: string, count: nat, k: string)
    requires k != Sessions.CartKey(token)
    ensures At(Apply(db, CartCmd(token, item, count)), k) == At(db, k)
  {
    var key := Sessions.CartKey(token);
    if count == 0 {
      HDelIs(db, key, [item]);
      PutHashFrame(db, key, k, HashOf(db, key) - Elems([item]));
    } else {
      HSetIs(db, key, item, Decimal(count));
    }
  }

  /** Different sessions have different carts. */
  lemma CartKeyInjective(a: string, b: string)
    ensures Sessions.CartKey(a) == Sessions.CartKey(b) <==> a == b
  {
    if Sessions.CartKey(a) == Sessions.CartKey(b) {
      assert a == Sessions.CartKey(a)[5..] && b == Sessions.CartKey(b)[5..];
    }
  }

  /** Sending the same call twice leaves the cart as sending it once. */
  lemma AddToCartIdempotent(db: Db, token: string, item: string, count: nat)
    ensures var c := CartCmd(token, item, count);
      Apply(Apply(db, c), c) == Apply(db, c)
  {
    var k := Sessions.CartKey(token);
    var c := CartCmd(token, item, count);
    if count == 0 {
      HDelIs(db, k, [item]);
      HDelIs(Apply(db, c), k, [item]);
      assert Elems([item]) == {item};
      var h := HashOf(db, k) - {item};
      assert HashOf(Apply(db, c), k) == h;
      assert h - {item} == h;
    } else {
      HSetIs(db, k, item, Decimal(count));
      HSetIs(Apply(db, c), k, item, Decimal(count));
      var h := HashOf(db, k)[item := Decimal(count)];
      assert HashOf(Apply(db, c), k) == h;
      assert h[item := Decimal(count)] == h;
      assert db.hashes[k := h][k := h] == db.hashes[k := h];
    }
  }
}
