/** The guest cart provider of `src/hooks/useGuestCart.tsx`: the cart kept in the
    browser's storage, written back by an effect whenever the shown lines change, and
    migrated to the server's `cart_items` table when the visitor signs in. */
module GuestCart {
  import opened Common
  import opened CartLines

  /** The row of the user's cart that a signed-in `addToCart` looks up first. */
  datatype ExistingRow = ExistingRow(id: string, quantity: int)

  /** The lookup query: the user's rows whose product (or workshop) column equals the
      request's product id, or its workshop id when the product id is blank. */
  datatype Lookup = Lookup(userId: string, column: ItemType, value: Option<string>)

  function LookupFor(req: AddRequest, userId: string): (q: Lookup)
    ensures q.userId == userId && q.column == req.itemType
    ensures Truthy(req.productId) ==> q.value == req.productId
    ensures !Truthy(req.productId) ==> q.value == req.workshopId
  {
    Lookup(userId, req.itemType, if Truthy(req.productId) then req.productId else req.workshopId)
  }

  /** The session id read from storage, or the fresh one when none (or a blank one) is
      stored. */
  function SessionIdFor(stored: Option<string>, freshId: string): (sid: string)
    ensures Truthy(stored) ==> sid == stored.value
    ensures !Truthy(stored) ==> sid == freshId
  {
    if Truthy(stored) then stored.value else freshId
  }

  /** Once a fresh (non-empty) session id has been stored, every later read returns it. */
  lemma SessionIdStable(stored: Option<string>, fresh1: string, fresh2: string)
    requires fresh1 != []
    ensures SessionIdFor(Some(SessionIdFor(stored, fresh1)), fresh2) == SessionIdFor(stored, fresh1)
  {
  }

  /** The signed-in branch of `addToCart`, given what the lookup found: a product found is
      raised by one directly on its row, a workshop found issues nothing, and only when
      nothing was found is a row inserted. */
  function SignedInAdd(existing: Option<ExistingRow>, req: AddRequest, sessionId: string, userId: string): (call: RemoteCall)
    ensures call.Insert? <==> existing.None?
    ensures call.Insert? ==>
      call.rows == [InsertRow(sessionId, userId, OrNull(req.productId), OrNull(req.workshopId), req.itemType, 1)]
    ensures call.UpdateRow? <==> existing.Some? && req.itemType == Product
    ensures call.UpdateRow? ==> call.lineId == existing.value.id && call.quantity == existing.value.quantity + 1
    ensures !call.DeleteRow? && !call.DeleteAllOf?
  {
    match existing
    case Some(row) => if req.itemType == Product then UpdateRow(row.id, row.quantity + 1) else NoCall
    case None => Insert([InsertRow(sessionId, userId, OrNull(req.productId), OrNull(req.workshopId), req.itemType, 1)])
  }

  class GuestCartProvider {
    var items: seq<Line>
    var loading: bool
    var userId: Option<string>
    var hasSynced: bool
    /** The storage entry under the guest cart key. */
    var storage: Stored
    /** The storage entry under the session id key. */
    var sessionKey: Option<string>

    /** The save effect's promise: once loaded, storage holds exactly the shown lines. */
    predicate Persisted()
      reads this
    {
      !loading ==> storage == Saved(items)
    }

    constructor(storage: Stored, sessionKey: Option<string>)
      ensures this.storage == storage && this.sessionKey == sessionKey
      ensures items == [] && loading && userId == None && !hasSynced
      ensures Persisted()
    {
      this.storage := storage;
      this.sessionKey := sessionKey;
      items := [];
      loading := true;
      userId := None;
      hasSynced := false;
    }

    /** The save effect, run after a change of the shown lines. */
    method Persist()
      modifies this`storage
      ensures storage == (if loading then old(storage) else Saved(items))
      ensures Persisted()
    {
      if !loading {
        storage := Saved(items);
      }
    }

    /** The mount effect: show the stored cart and stop loading; the save effect then
        writes it back (so an unreadable entry becomes an empty saved cart). */
    method Mount()
      modifies this
      ensures items == GetStoredCart(old(storage)) && !loading && storage == Saved(items)
      ensures userId == old(userId) && hasSynced == old(hasSynced) && sessionKey == old(sessionKey)
      ensures Persisted()
    {
      items := GetStoredCart(storage);
      loading := false;
      Persist();
    }

    /** `addToCart`. Signed in, it stores a session id, looks the item up on the server
        (`existing` is what the lookup returned) and issues one call; the shown lines stay.
        As a guest, the lines change locally and are saved unless a workshop already in
        the cart was refused. */
    method AddToCart(req: AddRequest, freshLineId: string, freshSessionId: string, existing: Option<ExistingRow>)
      returns (lookup: Option<Lookup>, call: RemoteCall)
      requires Persisted()
      modifies this
      ensures Persisted()
      ensures userId == old(userId) && hasSynced == old(hasSynced) && loading == old(loading)
      ensures old(userId).Some? ==>
        && var sid := SessionIdFor(old(sessionKey), freshSessionId);
           sessionKey == Some(sid)
           && lookup == Some(LookupFor(req, old(userId).value))
           && call == SignedInAdd(existing, req, sid, old(userId).value)
           && items == old(items) && storage == old(storage)
      ensures old(userId).None? ==>
        && lookup == None && call == NoCall && sessionKey == old(sessionKey)
        && items == GuestAdd(old(items), req, freshLineId)
        && (AddIsNoop(old(items), req) ==> storage == old(storage))
        && (!AddIsNoop(old(items), req) ==> storage == (if old(loading) then old(storage) else Saved(items)))
    {
      if userId.Some? {
        var sid := SessionIdFor(sessionKey, freshSessionId);
        sessionKey := Some(sid);
        lookup := Some(LookupFor(req, userId.value));
        call := SignedInAdd(existing, req, sid, userId.value);
      } else {
        lookup := None;
        call := NoCall;
        var noop := AddIsNoop(items, req);
        items := GuestAdd(items, req, freshLineId);
        if !noop {
          Persist();
        }
      }
    }

    /** `removeFromCart`: always local. */
    method RemoveFromCart(itemId: string)
      requires Persisted()
      modifies this
      ensures Persisted()
      ensures items == Remove(old(items), itemId)
      ensures userId == old(userId) && hasSynced == old(hasSynced) && loading == old(loading)
      ensures sessionKey == old(sessionKey)
    {
      items := Remove(items, itemId);
      Persist();
    }

    /** `updateQuantity`: 0 or less removes the line. */
    method UpdateQuantity(itemId: string, quantity: int)
      requires Persisted()
      modifies this
      ensures Persisted()
      ensures items == CartLines.UpdateQuantity(old(items), itemId, quantity)
      ensures userId == old(userId) && hasSynced == old(hasSynced) && loading == old(loading)
      ensures sessionKey == old(sessionKey)
    {
      if quantity <= 0 {
        RemoveFromCart(itemId);
        return;
      }
      items := SetQuantity(items, itemId, quantity);
      Persist();
    }

    /** `clearCart`: the entry is removed, and the save effect writes the empty cart back
        once loading is over. */
    method ClearCart()
      modifies this
      ensures Persisted()
      ensures items == [] && storage == (if loading then Absent else Saved([]))
      ensures userId == old(userId) && hasSynced == old(hasSynced) && loading == old(loading)
      ensures sessionKey == old(sessionKey)
    {
      items := [];
      storage := Absent;
      Persist();
    }

    /** `syncCartToUser`: once, and only with a non-empty cart, insert the shown lines the
        server does not have yet for `uid`, then empty the cart. A stored session id is
        ensured before the remote calls; `threw` says those calls raised. */
    method SyncCartToUser(uid: string, serverRows: seq<ServerRow>, threw: bool, freshSessionId: string)
      returns (call: RemoteCall)
      requires Persisted()
      modifies this
      ensures Persisted()
      ensures userId == old(userId) && loading == old(loading)
      ensures old(hasSynced) || old(items) == [] ==>
        call == NoCall && items == old(items) && storage == old(storage)
        && hasSynced == old(hasSynced) && sessionKey == old(sessionKey)
      ensures !old(hasSynced) && old(items) != [] ==>
        var sid := SessionIdFor(old(sessionKey), freshSessionId);
        && sessionKey == Some(sid)
        && (threw ==> call == NoCall && items == old(items) && storage == old(storage) && !hasSynced)
        && (!threw ==>
             && items == [] && hasSynced
             && storage == (if loading then Absent else Saved([]))
             && var ins := SyncInsertions(old(items), serverRows);
                call == (if ins == [] then NoCall else Insert(InsertRowsFor(ins, sid, uid))))
    {
      if hasSynced || |items| == 0 {
        return NoCall;
      }
      var sid := SessionIdFor(sessionKey, freshSessionId);
      sessionKey := Some(sid);
      if threw {
        return NoCall;
      }
      var ins := SyncInsertions(items, serverRows);
      call := if |ins| > 0 then Insert(InsertRowsFor(ins, sid, uid)) else NoCall;
      storage := Absent;
      items := [];
      hasSynced := true;
      Persist();
    }

    /** The auto-sync effect's condition. */
    predicate ShouldAutoSync()
      reads this
    {
      userId.Some? && |items| > 0 && !hasSynced
    }

    /** The auto-sync effect: a signed-in visitor with lines that have not been synced yet
        has them migrated. */
    method AutoSync(serverRows: seq<ServerRow>, threw: bool, freshSessionId: string) returns (call: RemoteCall)
      requires Persisted()
      modifies this
      ensures Persisted()
      ensures userId == old(userId) && loading == old(loading)
      ensures !old(ShouldAutoSync()) ==>
        call == NoCall && items == old(items) && storage == old(storage) && hasSynced == old(hasSynced)
        && sessionKey == old(sessionKey)
      ensures old(ShouldAutoSync()) ==>
        var sid := SessionIdFor(old(sessionKey), freshSessionId);
        && sessionKey == Some(sid)
        && (threw ==> call == NoCall && items == old(items) && storage == old(storage) && !hasSynced)
        && (!threw ==>
             && items == [] && hasSynced
             && storage == (if loading then Absent else Saved([]))
             && var ins := SyncInsertions(old(items), serverRows);
                call == (if ins == [] then NoCall else Insert(InsertRowsFor(ins, sid, old(userId).value))))
    {
      if ShouldAutoSync() {
        call := SyncCartToUser(userId.value, serverRows, threw, freshSessionId);
      } else {
        call := NoCall;
      }
    }

    /** The auth-state listener: the user is replaced, and signing out clears the sync
        flag; the shown lines are kept. */
    method AuthStateChange(newUserId: Option<string>)
      modifies this`userId, this`hasSynced
      ensures userId == newUserId
      ensures hasSynced == (if newUserId.None? then false else old(hasSynced))
    {
      userId := newUserId;
      if newUserId.None? {
        hasSynced := false;
      }
    }
  }

  /** After a successful migration the cart is empty and a second migration does nothing. */
  method SyncThenAutoSync(cart: GuestCartProvider, uid: string, rows1: seq<ServerRow>, rows2: seq<ServerRow>,
                           fresh1: string, fresh2: string) returns (again: RemoteCall)
    requires cart.Persisted() && !cart.hasSynced && cart.items != []
    modifies cart
    ensures cart.items == [] && cart.hasSynced && again == NoCall
    ensures cart.Persisted() && GetStoredCart(cart.storage) == []
  {
    var _ := cart.SyncCartToUser(uid, rows1, false, fresh1);
    again := cart.AutoSync(rows2, false, fresh2);
  }
}
