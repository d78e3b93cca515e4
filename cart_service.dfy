/**
 * The cart service of frontend/src/app/services/cart.service.ts as a stateful object.
 *
 * The `cart` and `total` subjects become the fields `items` and `total`; the
 * browser's local storage under the key `cart_v1` becomes `localStore`; the
 * authentication service's answer to "is there a valid token" becomes the
 * field `authenticated`, which that service (a caller here) may assign.
 * Requests to the remote cart gateway are recorded, not performed, in the ghost
 * `serverWrites`, and each emission on the `changes` subject in `changeEvents`.
 */
module CartStore {
  import opened Wrappers
  import opened Cart

  /** What local storage holds under the cart key: nothing, a parsable list, or text that does not parse. */
  datatype StoredCart = Absent | Stored(items: seq<CartItem>) | Unparseable

  class CartService {
    var items: seq<CartItem>
    var total: int
    var authenticated: bool
    var localStore: StoredCart
    ghost var serverWrites: seq<seq<CartItem>>
    ghost var changeEvents: nat

    /** The published total is never stale: it is the exact sum of the current lines. */
    ghost predicate Valid()
      reads this
    {
      total == Total(items)
    }

    /**
     * The state updateCart leaves after committing `newItems`, given the store,
     * the recorded gateway requests and the event count before it.
     */
    ghost predicate Committed(newItems: seq<CartItem>, store: StoredCart, writes: seq<seq<CartItem>>, events: nat)
      reads this
    {
      && items == newItems
      && total == Total(newItems)
      && localStore == (if authenticated then store else Stored(newItems))
      && serverWrites == (if authenticated then writes + [newItems] else writes)
      && changeEvents == events + 1
    }

    /**
     * Service start-up (initCart). Without a token the cart is rehydrated from
     * local storage; with one, the cart stays empty until the asynchronous
     * server sync (SyncWithServer) completes.
     */
    constructor (authenticated: bool, stored: StoredCart)
      ensures Valid() && this.authenticated == authenticated
      ensures serverWrites == [] && changeEvents == 0
      ensures items == if !authenticated && stored.Stored? then stored.items else []
      ensures localStore == if !authenticated && stored.Unparseable? then Absent else stored
    {
      this.authenticated := authenticated;
      items := [];
      total := 0;
      localStore := stored;
      serverWrites := [];
      changeEvents := 0;
      new;
      if !authenticated {
        LoadLocalCart();
      }
    }

    /**
     * Rehydrates the cart from local storage without persisting or emitting a
     * change; unparsable content is removed and the cart is left as it was.
     */
    method LoadLocalCart()
      requires Valid()
      modifies this
      ensures Valid() && authenticated == old(authenticated)
      ensures serverWrites == old(serverWrites) && changeEvents == old(changeEvents)
      ensures old(localStore).Stored? ==> items == old(localStore).items && localStore == old(localStore)
      ensures !old(localStore).Stored? ==> items == old(items) && localStore == Absent
    {
      match localStore
      case Absent =>
      case Stored(xs) =>
        items := xs;
        UpdateTotal();
      case Unparseable =>
        localStore := Absent;
    }

    /** addItem: raise the quantity of the product's line in place, or append a new line. */
    method AddItem(productId: int, price: int, quantity: int := 1)
      requires Valid()
      modifies this
      ensures Valid() && authenticated == old(authenticated)
      ensures Committed(Added(old(items), productId, price, quantity), old(localStore), old(serverWrites), old(changeEvents))
    {
      var current := items;
      var existing := IndexOf(current, productId);
      if existing.Some? {
        var i := existing.value;
        current := current[i := current[i].(quantity := current[i].quantity + quantity)];
        AddedExisting(items, productId, price, quantity, i);
      } else {
        current := current + [CartItem(productId, quantity, price)];
        AddedAbsent(items, productId, price, quantity);
      }
      UpdateCart(current);
    }

    /** updateItem: a quantity of zero or less removes the product; otherwise its line gets that quantity. */
    method UpdateItem(productId: int, quantity: int)
      requires Valid()
      modifies this
      ensures Valid() && authenticated == old(authenticated)
      ensures quantity <= 0 ==>
        Committed(Removed(old(items), productId), old(localStore), old(serverWrites), old(changeEvents))
      ensures quantity > 0 ==>
        Committed(WithQuantity(old(items), productId, quantity), old(localStore), old(serverWrites), old(changeEvents))
    {
      if quantity <= 0 {
        RemoveItem(productId);
        return;
      }
      var updated := WithQuantity(items, productId, quantity);
      UpdateCart(updated);
    }

    /** removeItem: keep the lines of every other product. */
    method RemoveItem(productId: int)
      requires Valid()
      modifies this
      ensures Valid() && authenticated == old(authenticated)
      ensures Committed(Removed(old(items), productId), old(localStore), old(serverWrites), old(changeEvents))
    {
      var filtered := Removed(items, productId);
      UpdateCart(filtered);
    }

    /**
     * clearCart: commit the empty list, then remove the local key whatever the
     * authentication state. With a token, the empty list is also sent to the gateway.
     */
    method ClearCart()
      requires Valid()
      modifies this
      ensures Valid() && authenticated == old(authenticated)
      ensures items == [] && total == 0 && localStore == Absent
      ensures serverWrites == if authenticated then old(serverWrites) + [[]] else old(serverWrites)
      ensures changeEvents == old(changeEvents) + 1
    {
      UpdateCart([]);
      localStore := Absent;
    }

    /**
     * syncWithServer after login. `fetched` is the server cart as fetched (empty
     * when the fetch failed); `saved` is the gateway's reply to saving the merge,
     * or None when that save failed, in which case the failure is swallowed and
     * nothing else changes.
     */
    method SyncWithServer(fetched: seq<CartItem>, saved: Option<seq<CartItem>>)
      requires Valid()
      modifies this
      ensures Valid() && authenticated == old(authenticated)
      ensures !authenticated ==>
        items == old(items) && localStore == old(localStore)
        && serverWrites == old(serverWrites) && changeEvents == old(changeEvents)
      ensures authenticated && saved.None? ==>
        items == old(items) && localStore == old(localStore)
        && serverWrites == old(serverWrites) + [Merged(old(items), fetched)]
        && changeEvents == old(changeEvents)
      ensures authenticated && saved.Some? ==>
        Committed(saved.value, old(localStore), old(serverWrites) + [Merged(old(items), fetched)], old(changeEvents))
    {
      if !authenticated {
        return;
      }
      var merged := Merged(items, fetched);
      serverWrites := serverWrites + [merged];
      match saved
      case None =>
      case Some(reply) =>
        UpdateCart(reply);
    }

    /** updateCart: publish the list, recompute the total, persist, emit a change. */
    method UpdateCart(newItems: seq<CartItem>)
      modifies this
      ensures Valid() && authenticated == old(authenticated)
      ensures Committed(newItems, old(localStore), old(serverWrites), old(changeEvents))
    {
      items := newItems;
      UpdateTotal();
      PersistCart(newItems);
      changeEvents := changeEvents + 1;
    }

    /** updateTotal: the total subject takes the sum of price times quantity, folded over the lines in order. */
    method UpdateTotal()
      modifies this`total
      ensures total == Total(items)
    {
      var sum := 0;
      for i := 0 to |items|
        invariant sum == Total(items[..i])
      {
        assert items[..i + 1] == items[..i] + [items[i]];
        TotalSnoc(items[..i], items[i]);
        sum := sum + LineTotal(items[i]);
      }
      assert items[..|items|] == items;
      total := sum;
    }

    /** persistCart: with a token the list goes to the gateway, otherwise to local storage. */
    method PersistCart(newItems: seq<CartItem>)
      modifies this`localStore, this`serverWrites
      ensures localStore == if authenticated then old(localStore) else Stored(newItems)
      ensures serverWrites == if authenticated then old(serverWrites) + [newItems] else old(serverWrites)
    {
      if authenticated {
        serverWrites := serverWrites + [newItems];
      } else {
        localStore := Stored(newItems);
      }
    }

    /** getItemCount: the number of units in the cart, folded over the lines in order. */
    method GetItemCount() returns (n: int)
      ensures n == ItemCount(items)
    {
      n := 0;
      for i := 0 to |items|
        invariant n == ItemCount(items[..i])
      {
        assert items[..i + 1] == items[..i] + [items[i]];
        ItemCountSnoc(items[..i], items[i]);
        n := n + items[i].quantity;
      }
      assert items[..|items|] == items;
    }

    /** getItem: the first line for a product, or nothing when the product has none. */
    function GetItem(productId: int): (r: Option<CartItem>)
      reads this
      ensures r.Some? <==> productId in Ids(items)
      ensures r.Some? ==> r.value in items && r.value.productId == productId
      ensures r.Some? ==>
        exists i :: 0 <= i < |items| && items[i] == r.value && forall j :: 0 <= j < i ==> items[j].productId != productId
    {
      Find(items, productId)
    }
  }

  /**
   * The end-to-end scenario of an anonymous add followed by a login whose
   * server cart already holds the product: the server line wins and the badge
   * shows the server quantity.
   */
  method LoginScenario()
  {
    var cart := new CartService(false, Absent);
    cart.AddItem(101, 1999);
    assert cart.items == [CartItem(101, 1, 1999)];
    assert cart.localStore == Stored([CartItem(101, 1, 1999)]);

    cart.authenticated := true;
    var server := [CartItem(101, 3, 1850)];
    assert 101 in Ids(server) by { assert server[0] in server; }
    assert Merged(cart.items, server) == server;
    cart.SyncWithServer(server, Some(server));
    assert cart.items == server;
    var count := cart.GetItemCount();
    assert count == 3;
    assert cart.total == 5550;
  }
}
