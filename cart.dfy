/**
 * The line-item algebra of the cart service (frontend/src/app/services/cart.service.ts):
 * the value each mutation computes from the current list before it is committed,
 * the derived total and item count, the lookup by product, and the login merge.
 * Prices are integer cents, so every sum here is exact.
 */
module Cart {
  import opened Wrappers
  import Seqs

  /** One line of the cart. `addedAt` is informational only and is not modelled. */
  datatype CartItem = CartItem(productId: int, quantity: int, priceAtPurchase: int)

  /** The products that have a line in `s`. */
  function Ids(s: seq<CartItem>): set<int>
  {
    set x | x in s :: x.productId
  }

  /** No product has two lines. */
  predicate Unique(s: seq<CartItem>)
  {
    forall i, j :: 0 <= i < j < |s| ==> s[i].productId != s[j].productId
  }

  /** The head of a cart with unique products has no other line, and the rest stays unique. */
  lemma UniqueTail(s: seq<CartItem>)
    requires Unique(s) && s != []
    ensures s[0].productId !in Ids(s[1..]) && Unique(s[1..])
  {
    forall x | x in s[1..] ensures x.productId != s[0].productId {
      var k :| 0 <= k < |s[1..]| && s[1..][k] == x;
      assert s[k + 1] == x;
    }
  }

  lemma IdsConcat(a: seq<CartItem>, b: seq<CartItem>)
    ensures Ids(a + b) == Ids(a) + Ids(b)
  {
    assert forall x :: x in a + b <==> x in a || x in b;
  }

  lemma IdsCons(x: CartItem, s: seq<CartItem>)
    ensures Ids([x] + s) == {x.productId} + Ids(s)
  {
    IdsConcat([x], s);
    assert Ids([x]) == {x.productId};
  }

  lemma IdsTail(s: seq<CartItem>)
    requires s != []
    ensures Ids(s) == {s[0].productId} + Ids(s[1..])
  {
    assert s == [s[0]] + s[1..];
    IdsCons(s[0], s[1..]);
  }

  // ---------------------------------------------------------------------------
  // Lookup: `find(i => i.productId === productId)`

  /** Position of the first line for `p`, if any. */
  function IndexOf(s: seq<CartItem>, p: int): (r: Option<nat>)
    ensures r.Some? ==> r.value < |s| && s[r.value].productId == p
    ensures r.Some? ==> forall j :: 0 <= j < r.value ==> s[j].productId != p
    ensures r.None? <==> p !in Ids(s)
  {
    if s == [] then None
    else if s[0].productId == p then Some(0)
    else
      IdsTail(s);
      match IndexOf(s[1..], p)
      case Some(i) => Some(i + 1)
      case None => None
  }

  /** The first line for `p`, or nothing (getItem's `find`). */
  function Find(s: seq<CartItem>, p: int): (r: Option<CartItem>)
    ensures r.Some? <==> p in Ids(s)
    ensures r.Some? ==> r.value in s && r.value.productId == p
    ensures r.Some? ==> exists i :: 0 <= i < |s| && s[i] == r.value && forall j :: 0 <= j < i ==> s[j].productId != p
  {
    match IndexOf(s, p)
    case Some(i) => Some(s[i])
    case None => None
  }

  /** The line found for `p` in `a + b` comes from `a` whenever `a` has one. */
  lemma {:induction false} FindConcat(a: seq<CartItem>, b: seq<CartItem>, p: int)
    ensures Find(a + b, p) == if p in Ids(a) then Find(a, p) else Find(b, p)
  {
    if a == [] {
      assert a + b == b;
    } else {
      assert (a + b)[1..] == a[1..] + b;
      IdsTail(a);
      FindConcat(a[1..], b, p);
    }
  }

  /** A filter that keeps every line for `p` finds the same line for `p`. */
  lemma {:induction false} FindFilter(s: seq<CartItem>, keep: CartItem -> bool, p: int)
    requires forall x :: x in s && x.productId == p ==> keep(x)
    ensures Find(Seqs.Filter(s, keep), p) == Find(s, p)
  {
    if s != [] {
      FindFilter(s[1..], keep, p);
      IdsTail(s);
      var rest := Seqs.Filter(s[1..], keep);
      if keep(s[0]) {
        assert Seqs.Filter(s, keep) == [s[0]] + rest;
        IdsCons(s[0], rest);
      } else {
        assert Seqs.Filter(s, keep) == rest;
      }
    }
  }

  // ---------------------------------------------------------------------------
  // addItem

  /**
   * The list addItem commits: the first line for `p` gains `q` units at its own
   * locked price; when there is none, a line `(p, q, price)` is appended.
   */
  function Added(s: seq<CartItem>, p: int, price: int, q: int): seq<CartItem>
  {
    if s == [] then [CartItem(p, q, price)]
    else if s[0].productId == p then [s[0].(quantity := s[0].quantity + q)] + s[1..]
    else [s[0]] + Added(s[1..], p, price, q)
  }

  /** After addItem the cart's products are the old ones plus `p`; only a new product adds a line. */
  lemma {:induction false} AddedIds(s: seq<CartItem>, p: int, price: int, q: int)
    ensures Ids(Added(s, p, price, q)) == Ids(s) + {p}
    ensures |Added(s, p, price, q)| == if p in Ids(s) then |s| else |s| + 1
  {
    if s == [] {
      assert Ids([CartItem(p, q, price)]) == {p};
    } else if s[0].productId == p {
      IdsTail(s);
      IdsCons(s[0].(quantity := s[0].quantity + q), s[1..]);
    } else {
      IdsTail(s);
      AddedIds(s[1..], p, price, q);
      IdsCons(s[0], Added(s[1..], p, price, q));
    }
  }

  /** Adding a product already in the cart raises only that line's quantity. */
  lemma {:induction false} AddedExisting(s: seq<CartItem>, p: int, price: int, q: int, i: nat)
    requires IndexOf(s, p) == Some(i)
    ensures Added(s, p, price, q) == s[i := s[i].(quantity := s[i].quantity + q)]
  {
    var line := s[i].(quantity := s[i].quantity + q);
    if i == 0 {
      assert s[0].productId == p;
      assert s[0 := line] == [line] + s[1..];
    } else {
      assert s[0].productId != p;
      IdsTail(s);
      assert IndexOf(s[1..], p) == Some(i - 1);
      AddedExisting(s[1..], p, price, q, i - 1);
      assert Added(s, p, price, q) == [s[0]] + Added(s[1..], p, price, q);
      assert s[i := line] == [s[0]] + s[1..][i - 1 := line];
    }
  }

  /** Adding a product not in the cart appends exactly one line at the end. */
  lemma {:induction false} AddedAbsent(s: seq<CartItem>, p: int, price: int, q: int)
    requires p !in Ids(s)
    ensures Added(s, p, price, q) == s + [CartItem(p, q, price)]
  {
    if s != [] {
      IdsTail(s);
      AddedAbsent(s[1..], p, price, q);
      assert s + [CartItem(p, q, price)] == [s[0]] + (s[1..] + [CartItem(p, q, price)]);
    }
  }

  /** addItem keeps every product on at most one line. */
  lemma AddedUnique(s: seq<CartItem>, p: int, price: int, q: int)
    requires Unique(s)
    ensures Unique(Added(s, p, price, q))
  {
    match IndexOf(s, p)
    case Some(i) =>
      AddedExisting(s, p, price, q, i);
    case None =>
      AddedAbsent(s, p, price, q);
      var r := s + [CartItem(p, q, price)];
      forall i, j | 0 <= i < j < |r| ensures r[i].productId != r[j].productId {
        if j == |s| {
          assert r[i] in s;
        }
      }
  }

  /** Two adds of the same product sum their quantities on one line, at the first price. */
  lemma {:induction false} AddedTwice(s: seq<CartItem>, p: int, price1: int, q1: int, price2: int, q2: int)
    ensures Added(Added(s, p, price1, q1), p, price2, q2) == Added(s, p, price1, q1 + q2)
  {
    var a := Added(s, p, price1, q1);
    if s == [] {
      assert a == [CartItem(p, q1, price1)];
    } else if s[0].productId == p {
      assert a == [s[0].(quantity := s[0].quantity + q1)] + s[1..];
      assert a[0].productId == p && a[1..] == s[1..];
    } else {
      assert a == [s[0]] + Added(s[1..], p, price1, q1);
      assert a[0] == s[0] && a[1..] == Added(s[1..], p, price1, q1);
      AddedTwice(s[1..], p, price1, q1, price2, q2);
    }
  }

  // ---------------------------------------------------------------------------
  // updateItem with a positive quantity: `map(item => same id ? {...item, quantity} : item)`

  /** Every line for `p` gets quantity `q`; product ids, prices and order stay. */
  function WithQuantity(s: seq<CartItem>, p: int, q: int): (r: seq<CartItem>)
    ensures |r| == |s|
    ensures forall k :: 0 <= k < |s| ==>
      r[k].productId == s[k].productId && r[k].priceAtPurchase == s[k].priceAtPurchase
  {
    if s == [] then []
    else [if s[0].productId == p then s[0].(quantity := q) else s[0]] + WithQuantity(s[1..], p, q)
  }

  lemma {:induction false} WithQuantityIndex(s: seq<CartItem>, p: int, q: int, k: nat)
    requires k < |s|
    ensures WithQuantity(s, p, q)[k] == if s[k].productId == p then s[k].(quantity := q) else s[k]
  {
    if k > 0 {
      WithQuantityIndex(s[1..], p, q, k - 1);
    }
  }

  /** Updating a product that has no line leaves the list unchanged. */
  lemma WithQuantityAbsent(s: seq<CartItem>, p: int, q: int)
    requires p !in Ids(s)
    ensures WithQuantity(s, p, q) == s
  {
    forall k | 0 <= k < |s| ensures WithQuantity(s, p, q)[k] == s[k] {
      assert s[k] in s;
      WithQuantityIndex(s, p, q, k);
    }
  }

  /** In a cart with unique products, only the line for `p` changes, to quantity `q`. */
  lemma WithQuantityAt(s: seq<CartItem>, p: int, q: int, i: nat)
    requires Unique(s) && i < |s| && s[i].productId == p
    ensures WithQuantity(s, p, q) == s[i := s[i].(quantity := q)]
  {
    forall k | 0 <= k < |s| ensures WithQuantity(s, p, q)[k] == s[i := s[i].(quantity := q)][k] {
      WithQuantityIndex(s, p, q, k);
      if k != i {
        assert s[k].productId != s[i].productId;
      }
    }
  }

  // ---------------------------------------------------------------------------
  // removeItem: `filter(i => i.productId !== productId)`

  /** The lines whose product is not `p`, in their original order. */
  function Removed(s: seq<CartItem>, p: int): (r: seq<CartItem>)
    ensures forall x :: x in r <==> x in s && x.productId != p
    ensures Ids(r) == Ids(s) - {p}
  {
    Seqs.Filter(s, (x: CartItem) => x.productId != p)
  }

  /** removeItem keeps every copy of each other product's line, and none of the product's. */
  lemma RemovedCount(s: seq<CartItem>, p: int, x: CartItem)
    ensures multiset(Removed(s, p))[x] == if x.productId == p then 0 else multiset(s)[x]
  {
    Seqs.FilterCount(s, (y: CartItem) => y.productId != p, x);
  }

  /** Removing keeps the surviving lines in their original order. */
  lemma RemovedIsSubsequence(s: seq<CartItem>, p: int)
    ensures Seqs.IsSubsequence(Removed(s, p), s)
  {
    Seqs.FilterIsSubsequence(s, (x: CartItem) => x.productId != p);
  }

  /** Removing a product that has no line leaves the list unchanged. */
  lemma RemovedAbsent(s: seq<CartItem>, p: int)
    requires p !in Ids(s)
    ensures Removed(s, p) == s
  {
    forall j | 0 <= j < |s| ensures s[j].productId != p {
      assert s[j] in s;
    }
    Seqs.FilterKeepsAll(s, (x: CartItem) => x.productId != p);
  }

  /** A second removal of the same product is a no-op. */
  lemma RemovedIdempotent(s: seq<CartItem>, p: int)
    ensures Removed(Removed(s, p), p) == Removed(s, p)
  {
    RemovedAbsent(Removed(s, p), p);
  }

  /** In a cart with unique products, removal deletes exactly the line for `p`. */
  lemma RemovedAt(s: seq<CartItem>, p: int, i: nat)
    requires Unique(s) && i < |s| && s[i].productId == p
    ensures Removed(s, p) == s[..i] + s[i + 1..]
  {
    var keep := (x: CartItem) => x.productId != p;
    forall j | 0 <= j < |s| && j != i ensures keep(s[j]) {
      assert s[j].productId != s[i].productId;
    }
    Seqs.FilterDropsOne(s, keep, i);
  }

  /** Any order-preserving filter of a cart with unique products has unique products. */
  lemma {:induction false} FilterUnique(s: seq<CartItem>, keep: CartItem -> bool)
    requires Unique(s)
    ensures Unique(Seqs.Filter(s, keep))
  {
    if s != [] {
      UniqueTail(s);
      FilterUnique(s[1..], keep);
      var rest := Seqs.Filter(s[1..], keep);
      if keep(s[0]) {
        var r := [s[0]] + rest;
        forall a, b | 0 <= a < b < |r| ensures r[a].productId != r[b].productId {
          if a == 0 {
            assert r[b] in s[1..];
            var k :| 0 <= k < |s[1..]| && s[1..][k] == r[b];
            assert s[k + 1] == r[b];
          }
        }
      }
    }
  }

  // ---------------------------------------------------------------------------
  // Derived values. The service computes both sums with a left-to-right
  // `reduce`; the specifications below recurse on the head, and TotalSnoc and
  // ItemCountSnoc show that they agree with a fold that adds the lines in order.

  function LineTotal(x: CartItem): int
  {
    x.priceAtPurchase * x.quantity
  }

  /** Σ priceAtPurchase × quantity over the lines. */
  function Total(s: seq<CartItem>): int
  {
    if s == [] then 0 else LineTotal(s[0]) + Total(s[1..])
  }

  /** Σ quantity over the lines (getItemCount). */
  function ItemCount(s: seq<CartItem>): int
  {
    if s == [] then 0 else s[0].quantity + ItemCount(s[1..])
  }

  /** The total is never negative when no price or quantity is. */
  lemma {:induction false} TotalNonNegative(s: seq<CartItem>)
    requires forall j :: 0 <= j < |s| ==> s[j].priceAtPurchase >= 0 && s[j].quantity >= 0
    ensures Total(s) >= 0
  {
    if s != [] {
      TotalNonNegative(s[1..]);
    }
  }

  /** The item count is at least the number of lines when every quantity is at least one. */
  lemma {:induction false} ItemCountAtLeastLines(s: seq<CartItem>)
    requires forall j :: 0 <= j < |s| ==> s[j].quantity >= 1
    ensures ItemCount(s) >= |s|
  {
    if s != [] {
      ItemCountAtLeastLines(s[1..]);
    }
  }

  /** addItem raises the total by `q` units at the line's locked price, or at `price` for a new line. */
  lemma {:induction false} TotalAdded(s: seq<CartItem>, p: int, price: int, q: int)
    ensures Total(Added(s, p, price, q))
         == Total(s) + q * (match Find(s, p) case Some(x) => x.priceAtPurchase case None => price)
  {
    if s == [] {
    } else if s[0].productId == p {
      var x := s[0];
      assert Find(s, p) == Some(x);
      assert [x.(quantity := x.quantity + q)] + s[1..] == Added(s, p, price, q);
      assert LineTotal(x.(quantity := x.quantity + q)) == LineTotal(x) + q * x.priceAtPurchase by {
        assert x.priceAtPurchase * (x.quantity + q) == x.priceAtPurchase * x.quantity + x.priceAtPurchase * q;
      }
    } else {
      TotalAdded(s[1..], p, price, q);
      IdsTail(s);
      assert Find(s, p) == Find(s[1..], p);
      assert Added(s, p, price, q)[1..] == Added(s[1..], p, price, q);
    }
  }

  /** addItem raises the item count by exactly `q`. */
  lemma {:induction false} ItemCountAdded(s: seq<CartItem>, p: int, price: int, q: int)
    ensures ItemCount(Added(s, p, price, q)) == ItemCount(s) + q
  {
    if s != [] && s[0].productId != p {
      ItemCountAdded(s[1..], p, price, q);
      assert Added(s, p, price, q)[1..] == Added(s[1..], p, price, q);
    } else if s != [] {
      assert Added(s, p, price, q)[1..] == s[1..];
    }
  }

  lemma {:induction false} TotalConcat(a: seq<CartItem>, b: seq<CartItem>)
    ensures Total(a + b) == Total(a) + Total(b)
  {
    if a == [] {
      assert a + b == b;
    } else {
      TotalConcat(a[1..], b);
      assert (a + b)[1..] == a[1..] + b;
    }
  }

  lemma {:induction false} ItemCountConcat(a: seq<CartItem>, b: seq<CartItem>)
    ensures ItemCount(a + b) == ItemCount(a) + ItemCount(b)
  {
    if a == [] {
      assert a + b == b;
    } else {
      ItemCountConcat(a[1..], b);
      assert (a + b)[1..] == a[1..] + b;
    }
  }

  /** One step of the left fold: appending a line adds that line's total. */
  lemma TotalSnoc(s: seq<CartItem>, x: CartItem)
    ensures Total(s + [x]) == Total(s) + LineTotal(x)
  {
    TotalConcat(s, [x]);
    assert Total([x]) == LineTotal(x) by {
      assert [x][1..] == [];
    }
  }

  /** One step of the left fold: appending a line adds its quantity. */
  lemma ItemCountSnoc(s: seq<CartItem>, x: CartItem)
    ensures ItemCount(s + [x]) == ItemCount(s) + x.quantity
  {
    ItemCountConcat(s, [x]);
    assert ItemCount([x]) == x.quantity by {
      assert [x][1..] == [];
    }
  }

  /** Deleting position `i` subtracts that line's total. */
  lemma TotalDrop(s: seq<CartItem>, i: nat)
    requires i < |s|
    ensures Total(s[..i] + s[i + 1..]) == Total(s) - LineTotal(s[i])
  {
    var pre, x, post := s[..i], s[i], s[i + 1..];
    assert Total([x]) == LineTotal(x) by {
      assert [x][1..] == [];
    }
    TotalConcat(pre, [x]);
    TotalConcat(pre + [x], post);
    TotalConcat(pre, post);
    assert pre + [x] + post == s;
  }

  /** Removing a product from a cart with unique products subtracts exactly its line from the total. */
  lemma RemovedTotal(s: seq<CartItem>, p: int, i: nat)
    requires Unique(s) && i < |s| && s[i].productId == p
    ensures Total(Removed(s, p)) == Total(s) - LineTotal(s[i])
  {
    RemovedAt(s, p, i);
    TotalDrop(s, i);
  }

  /** Deleting position `i` subtracts that line's quantity. */
  lemma ItemCountDrop(s: seq<CartItem>, i: nat)
    requires i < |s|
    ensures ItemCount(s[..i] + s[i + 1..]) == ItemCount(s) - s[i].quantity
  {
    var pre, x, post := s[..i], s[i], s[i + 1..];
    assert ItemCount([x]) == x.quantity by {
      assert [x][1..] == [];
    }
    ItemCountConcat(pre, [x]);
    ItemCountConcat(pre + [x], post);
    ItemCountConcat(pre, post);
    assert pre + [x] + post == s;
  }

  /** Removing a product from a cart with unique products subtracts exactly its quantity from the count. */
  lemma RemovedItemCount(s: seq<CartItem>, p: int, i: nat)
    requires Unique(s) && i < |s| && s[i].productId == p
    ensures ItemCount(Removed(s, p)) == ItemCount(s) - s[i].quantity
  {
    RemovedAt(s, p, i);
    ItemCountDrop(s, i);
  }

  // ---------------------------------------------------------------------------
  // mergeCarts: `[...server, ...local.filter(l => !server.some(s => s.productId === l.productId))]`

  /** The login merge: every server line first, then the local lines for products the server lacks. */
  function Merged(local: seq<CartItem>, server: seq<CartItem>): (r: seq<CartItem>)
    ensures |server| <= |r| && r[..|server|] == server
    ensures forall x :: x in r <==> x in server || (x in local && x.productId !in Ids(server))
    ensures Ids(r) == Ids(server) + Ids(local)
  {
    var rest := Seqs.Filter(local, (l: CartItem) => l.productId !in Ids(server));
    IdsConcat(server, rest);
    assert (server + rest)[..|server|] == server;
    server + rest
  }

  /** The local part of the merge keeps every copy of each local line whose product the server lacks, and nothing else. */
  lemma MergedCount(local: seq<CartItem>, server: seq<CartItem>, x: CartItem)
    ensures multiset(Merged(local, server)[|server|..])[x] == if x.productId in Ids(server) then 0 else multiset(local)[x]
  {
    var keep := (l: CartItem) => l.productId !in Ids(server);
    assert Merged(local, server)[|server|..] == Seqs.Filter(local, keep);
    Seqs.FilterCount(local, keep, x);
  }

  /** The local part of the merge keeps local order. */
  lemma MergedLocalOrder(local: seq<CartItem>, server: seq<CartItem>)
    ensures Seqs.IsSubsequence(Merged(local, server)[|server|..], local)
  {
    var keep := (l: CartItem) => l.productId !in Ids(server);
    assert Merged(local, server)[|server|..] == Seqs.Filter(local, keep);
    Seqs.FilterIsSubsequence(local, keep);
  }

  /** Remote wins: per product, the merged line is the server's line if it has one, else the local one. */
  lemma MergedFind(local: seq<CartItem>, server: seq<CartItem>, p: int)
    ensures Find(Merged(local, server), p) == if p in Ids(server) then Find(server, p) else Find(local, p)
  {
    var keep := (l: CartItem) => l.productId !in Ids(server);
    FindConcat(server, Seqs.Filter(local, keep), p);
    if p !in Ids(server) {
      FindFilter(local, keep, p);
    }
  }

  /** Merging two carts with unique products gives a cart with unique products. */
  lemma MergedUnique(local: seq<CartItem>, server: seq<CartItem>)
    requires Unique(local) && Unique(server)
    ensures Unique(Merged(local, server))
  {
    var keep := (l: CartItem) => l.productId !in Ids(server);
    var rest := Seqs.Filter(local, keep);
    FilterUnique(local, keep);
    var r := server + rest;
    forall a, b | 0 <= a < b < |r| ensures r[a].productId != r[b].productId {
      if a < |server| && b >= |server| {
        assert r[b] in rest;
        assert r[a] in server;
      } else if a >= |server| {
        assert r[a] == rest[a - |server|] && r[b] == rest[b - |server|];
      }
    }
  }

  /** When the server already has every local product, the merge is the server cart unchanged. */
  lemma MergedSubsumed(local: seq<CartItem>, server: seq<CartItem>)
    requires Ids(local) <= Ids(server)
    ensures Merged(local, server) == server
  {
    var keep := (l: CartItem) => l.productId !in Ids(server);
    forall j | 0 <= j < |local| ensures !keep(local[j]) {
      assert local[j].productId in Ids(local);
    }
    Seqs.FilterKeepsNone(local, keep);
  }

  /** When the carts share no product, the merge is the server cart followed by the whole local cart. */
  lemma MergedDisjoint(local: seq<CartItem>, server: seq<CartItem>)
    requires Ids(local) !! Ids(server)
    ensures Merged(local, server) == server + local
  {
    var keep := (l: CartItem) => l.productId !in Ids(server);
    forall j | 0 <= j < |local| ensures keep(local[j]) {
      assert local[j].productId in Ids(local);
    }
    Seqs.FilterKeepsAll(local, keep);
  }

  /** The remote-wins case: the local line for the shared product is discarded, not summed. */
  lemma MergeRemoteWinsExample()
    ensures Merged([CartItem(1, 2, 1000)], [CartItem(1, 5, 900)]) == [CartItem(1, 5, 900)]
  {
    var local, server := [CartItem(1, 2, 1000)], [CartItem(1, 5, 900)];
    assert Ids(local) == {1} && Ids(server) == {1} by {
      assert local[0] in local && server[0] in server;
    }
    MergedSubsumed(local, server);
  }

  /** The union case: disjoint carts are concatenated, server first. */
  lemma MergeUnionExample()
    ensures Merged([CartItem(1, 2, 1000)], [CartItem(2, 1, 500)]) == [CartItem(2, 1, 500), CartItem(1, 2, 1000)]
  {
    var local, server := [CartItem(1, 2, 1000)], [CartItem(2, 1, 500)];
    assert Ids(local) == {1} && Ids(server) == {2} by {
      assert local[0] in local && server[0] in server;
    }
    MergedDisjoint(local, server);
  }

  // ---------------------------------------------------------------------------
  // Sequences of mutations

  /** A cart mutation as issued by the UI. */
  datatype CartOp =
    | AddOp(productId: int, price: int, quantity: int)
    | UpdateOp(productId: int, quantity: int)
    | RemoveOp(productId: int)
    | ClearOp

  /** The list a mutation commits; updateItem with a quantity of zero or less is removeItem. */
  function Apply(s: seq<CartItem>, op: CartOp): seq<CartItem>
  {
    match op
    case AddOp(p, price, q) => Added(s, p, price, q)
    case UpdateOp(p, q) => if q <= 0 then Removed(s, p) else WithQuantity(s, p, q)
    case RemoveOp(p) => Removed(s, p)
    case ClearOp => []
  }

  function Replay(s: seq<CartItem>, ops: seq<CartOp>): seq<CartItem>
    decreases |ops|
  {
    if ops == [] then s else Replay(Apply(s, ops[0]), ops[1..])
  }

  /** Each mutation keeps products unique. */
  lemma ApplyUnique(s: seq<CartItem>, op: CartOp)
    requires Unique(s)
    ensures Unique(Apply(s, op))
  {
    match op
    case AddOp(p, price, q) => AddedUnique(s, p, price, q);
    case UpdateOp(p, q) =>
      if q <= 0 {
        FilterUnique(s, (x: CartItem) => x.productId != p);
      }
    case RemoveOp(p) => FilterUnique(s, (x: CartItem) => x.productId != p);
    case ClearOp =>
  }

  /** Starting from unique products, any sequence of mutations keeps them unique. */
  lemma {:induction false} ReplayUnique(s: seq<CartItem>, ops: seq<CartOp>)
    requires Unique(s)
    ensures Unique(Replay(s, ops))
    decreases |ops|
  {
    if ops != [] {
      ApplyUnique(s, ops[0]);
      ReplayUnique(Apply(s, ops[0]), ops[1..]);
    }
  }
}
