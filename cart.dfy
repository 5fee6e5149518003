/** The cart provider of `src/hooks/useCart.tsx`: one cart that lives in the browser's
    storage while the visitor is a guest and in the server's `cart_items` table once they
    sign in, with a one-shot migration of the guest cart at sign-in. */
module Cart {
  import opened Common
  import opened CartLines

  /** `updateQuantity` in signed-in mode: a quantity of 0 or less deletes the row,
      anything else updates it. */
  function QuantityCall(lineId: string, quantity: int): (call: RemoteCall)
    ensures quantity <= 0 <==> call == DeleteRow(lineId)
    ensures quantity > 0 <==> call == UpdateRow(lineId, quantity)
  {
    if quantity <= 0 then DeleteRow(lineId) else UpdateRow(lineId, quantity)
  }

  /** The signed-in branch of `addToCart`: a product already in the shown cart is raised by
      one through `updateQuantity`, a workshop already in it issues nothing, anything else
      is inserted with quantity 1. */
  function SignedInAdd(items: seq<Line>, req: AddRequest, sessionId: string, userId: string): (call: RemoteCall)
    ensures (forall l :: l in items ==> !Matches(l, req)) ==>
      call == Insert([InsertRow(sessionId, userId, OrNull(req.productId), OrNull(req.workshopId), req.itemType, 1)])
    ensures forall k :: (0 <= k < |items| && Matches(items[k], req)
      && forall j :: 0 <= j < k ==> !Matches(items[j], req)) ==>
        (if req.itemType == Workshop then call == NoCall
         else call == QuantityCall(items[k].id, items[k].quantity + 1))
    ensures call.DeleteAllOf? == false
  {
    var i := FindIndex(items, req);
    if i >= 0 then
      if req.itemType == Product then QuantityCall(items[i].id, items[i].quantity + 1) else NoCall
    else Insert([InsertRow(sessionId, userId, OrNull(req.productId), OrNull(req.workshopId), req.itemType, 1)])
  }

  class CartProvider {
    /** The lines shown: the guest cart, or the last cart fetched from the server. */
    var items: seq<Line>
    var userId: Option<string>
    var hasSynced: bool
    /** The browser storage entry under the guest cart key. */
    var storage: Stored
    const sessionId: string

    constructor(sessionId: string, storage: Stored)
      ensures this.sessionId == sessionId && this.storage == storage
      ensures items == [] && userId == None && !hasSynced
    {
      this.sessionId := sessionId;
      this.storage := storage;
      items := [];
      userId := None;
      hasSynced := false;
    }

    /** `addToCart`. A guest's cart is changed at once and written back to storage (except
        when a workshop already in the cart is refused); a signed-in cart is left to the
        next fetch. */
    method AddToCart(req: AddRequest, freshId: string) returns (call: RemoteCall)
      modifies this
      ensures userId == old(userId) && hasSynced == old(hasSynced)
      ensures old(userId).None? ==>
        && call == NoCall
        && items == GuestAdd(old(items), req, freshId)
        && storage == (if AddIsNoop(old(items), req) then old(storage) else Saved(items))
      ensures old(userId).Some? ==>
        && call == SignedInAdd(old(items), req, sessionId, old(userId).value)
        && items == old(items) && storage == old(storage)
    {
      if userId.Some? {
        call := SignedInAdd(items, req, sessionId, userId.value);
      } else {
        call := NoCall;
        var noop := AddIsNoop(items, req);
        items := GuestAdd(items, req, freshId);
        if !noop {
          storage := Saved(items);
        }
      }
    }

    /** `removeFromCart`. */
    method RemoveFromCart(itemId: string) returns (call: RemoteCall)
      modifies this
      ensures userId == old(userId) && hasSynced == old(hasSynced)
      ensures old(userId).None? ==>
        call == NoCall && items == Remove(old(items), itemId) && storage == Saved(items)
      ensures old(userId).Some? ==>
        call == DeleteRow(itemId) && items == old(items) && storage == old(storage)
    {
      if userId.Some? {
        call := DeleteRow(itemId);
      } else {
        call := NoCall;
        items := Remove(items, itemId);
        storage := Saved(items);
      }
    }

    /** `updateQuantity`: 0 or less is a removal. */
    method UpdateQuantity(itemId: string, quantity: int) returns (call: RemoteCall)
      modifies this
      ensures userId == old(userId) && hasSynced == old(hasSynced)
      ensures old(userId).None? ==>
        call == NoCall && items == CartLines.UpdateQuantity(old(items), itemId, quantity) && storage == Saved(items)
      ensures old(userId).Some? ==>
        call == QuantityCall(itemId, quantity) && items == old(items) && storage == old(storage)
    {
      if quantity <= 0 {
        call := RemoveFromCart(itemId);
        return;
      }
      if userId.Some? {
        call := UpdateRow(itemId, quantity);
      } else {
        call := NoCall;
        items := SetQuantity(items, itemId, quantity);
        storage := Saved(items);
      }
    }

    /** `clearCart`. A signed-in cart is emptied only when the server's delete succeeds. */
    method ClearCart(remoteOk: bool) returns (call: RemoteCall)
      modifies this
      ensures userId == old(userId) && hasSynced == old(hasSynced)
      ensures old(userId).None? ==> call == NoCall && items == [] && storage == Absent
      ensures old(userId).Some? ==>
        && call == DeleteAllOf(old(userId).value) && storage == old(storage)
        && items == (if remoteOk then [] else old(items))
    {
      if userId.Some? {
        call := DeleteAllOf(userId.value);
        if remoteOk {
          items := [];
        }
      } else {
        call := NoCall;
        items := [];
        storage := Absent;
      }
    }

    /** `fetchCart`: a signed-in visitor sees the server's rows (a failed query keeps the
        shown cart); a guest sees the stored cart. */
    method FetchCart(fetched: Option<seq<Line>>)
      modifies this`items
      ensures old(userId).None? ==> items == GetStoredCart(storage)
      ensures old(userId).Some? ==> items == (if fetched.Some? then fetched.value else old(items))
    {
      if userId.Some? {
        if fetched.Some? {
          items := fetched.value;
        }
      } else {
        items := GetStoredCart(storage);
      }
    }

    /** The auth-state listener: signing out clears the sync flag and shows the stored
        cart again. */
    method AuthStateChange(newUserId: Option<string>)
      modifies this
      ensures userId == newUserId && storage == old(storage)
      ensures newUserId.None? && old(userId).Some? ==> !hasSynced && items == GetStoredCart(storage)
      ensures !(newUserId.None? && old(userId).Some?) ==> hasSynced == old(hasSynced) && items == old(items)
    {
      if newUserId.None? && userId.Some? {
        hasSynced := false;
        items := GetStoredCart(storage);
      }
      userId := newUserId;
    }

    /** `syncLocalCartToUser`: once per sign-in, insert the stored guest lines whose product
        or workshop the server does not have yet, then drop the stored cart. `serverRows`
        is the user's existing rows; `threw` says the remote calls raised, in which case
        nothing changes. */
    method SyncLocalCartToUser(serverRows: seq<ServerRow>, threw: bool) returns (call: RemoteCall)
      modifies this
      ensures userId == old(userId) && items == old(items)
      ensures var local := GetStoredCart(old(storage));
        if local == [] || old(userId).None? || old(hasSynced) || threw then
          call == NoCall && storage == old(storage) && hasSynced == old(hasSynced)
        else
          && storage == Absent && hasSynced
          && var ins := SyncInsertions(local, serverRows);
             call == (if ins == [] then NoCall else Insert(InsertRowsFor(ins, sessionId, old(userId).value)))
    {
      var local := GetStoredCart(storage);
      if |local| == 0 || userId.None? || hasSynced {
        return NoCall;
      }
      if threw {
        return NoCall;
      }
      var ins := SyncInsertions(local, serverRows);
      call := if |ins| > 0 then Insert(InsertRowsFor(ins, sessionId, userId.value)) else NoCall;
      storage := Absent;
      hasSynced := true;
    }
  }

  /** The effect that runs whenever the user changes: a signed-in visitor who has not
      synced yet first migrates the guest cart and then fetches; everyone else fetches. */
  method LoadForUser(cart: CartProvider, serverRows: seq<ServerRow>, threw: bool, fetched: Option<seq<Line>>)
    returns (call: RemoteCall)
    modifies cart
    ensures cart.userId == old(cart.userId)
    ensures old(cart.userId).None? ==>
      call == NoCall && cart.storage == old(cart.storage) && cart.items == GetStoredCart(cart.storage)
    ensures old(cart.userId).Some? ==>
      cart.items == (if fetched.Some? then fetched.value else old(cart.items))
    ensures old(cart.userId).Some? && !old(cart.hasSynced) && GetStoredCart(old(cart.storage)) != [] && !threw ==>
      cart.hasSynced && cart.storage == Absent
  {
    if cart.userId.Some? && !cart.hasSynced {
      call := cart.SyncLocalCartToUser(serverRows, threw);
    } else {
      call := NoCall;
    }
    cart.FetchCart(fetched);
  }

  /** A second sync after a successful one is a no-op: the flag guards it. */
  method SyncTwice(cart: CartProvider, first: seq<ServerRow>, second: seq<ServerRow>) returns (again: RemoteCall)
    modifies cart
    ensures again == NoCall
  {
    var _ := cart.SyncLocalCartToUser(first, false);
    again := cart.SyncLocalCartToUser(second, false);
  }
}
