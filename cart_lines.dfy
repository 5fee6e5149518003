/** The cart lines and the list operations that `useCart.tsx` and `useGuestCart.tsx` both
    perform on them: the existing-item search, guest add, remove, quantity update, the three
    folds (total, shipping, item count), the login-time set-difference filter and the
    read-back of the stored snapshot. The two hooks carry character-for-character copies of
    this logic; here it is defined once and both store classes use it. */
module CartLines {
  import opened Common

  datatype ItemType = Product | Workshop

  /** The denormalised product snapshot a line carries; name and image are display-only. */
  datatype ProductInfo = ProductInfo(id: string, price: int, weightKg: Option<real>)

  /** The denormalised workshop snapshot; title, image and duration are display-only. */
  datatype WorkshopInfo = WorkshopInfo(id: string, price: int)

  datatype Line = Line(
    id: string,
    productId: Option<string>,
    workshopId: Option<string>,
    quantity: int,
    itemType: ItemType,
    product: Option<ProductInfo>,
    workshop: Option<WorkshopInfo>)

  /** The argument of `addToCart`. */
  datatype AddRequest = AddRequest(
    itemType: ItemType,
    productId: Option<string>,
    workshopId: Option<string>,
    product: Option<ProductInfo>,
    workshop: Option<WorkshopInfo>)

  /** What the browser's storage holds under the cart key: nothing (or an empty string),
      text that does not parse, or a saved list of lines. */
  datatype Stored = Absent | Unparsable | Saved(lines: seq<Line>)

  // ---------------------------------------------------------------------------------------
  // Well-formed carts

  /** The caller's side of the tagged union: a product request names a product and no
      workshop, and the other way round. */
  predicate ValidRequest(req: AddRequest)
  {
    match req.itemType
    case Product => req.productId.Some? && req.workshopId.None?
    case Workshop => req.workshopId.Some? && req.productId.None?
  }

  predicate LineOk(l: Line)
  {
    && l.quantity >= 1
    && match l.itemType
       case Product => l.productId.Some? && l.workshopId.None?
       case Workshop => l.workshopId.Some? && l.productId.None?
  }

  /** Two lines that may sit in one cart: different line ids, and no shared product or
      workshop id. */
  predicate Distinct(a: Line, b: Line)
  {
    && a.id != b.id
    && (a.productId == b.productId ==> a.productId.None?)
    && (a.workshopId == b.workshopId ==> a.workshopId.None?)
  }

  /** The cart invariant: every quantity is at least 1, every line is a product line or a
      workshop line, and no line id, product id or workshop id occurs on two lines. */
  predicate WellFormed(s: seq<Line>)
  {
    s == [] || (LineOk(s[0]) && (forall l :: l in s[1..] ==> Distinct(s[0], l)) && WellFormed(s[1..]))
  }

  lemma {:induction false} WellFormedAt(s: seq<Line>, i: int, j: int)
    requires WellFormed(s) && 0 <= i < |s| && 0 <= j < |s|
    ensures LineOk(s[i])
    ensures i != j ==> Distinct(s[i], s[j])
  {
    if i > 0 && j > 0 {
      WellFormedAt(s[1..], i - 1, j - 1);
    } else if i == 0 && j > 0 {
      assert s[j] in s[1..];
    } else if j == 0 && i > 0 {
      assert s[i] in s[1..];
      WellFormedAt(s[1..], i - 1, i - 1);
    }
  }

  lemma AllLinesOk(s: seq<Line>)
    requires WellFormed(s)
    ensures forall i :: 0 <= i < |s| ==> LineOk(s[i])
  {
    forall i | 0 <= i < |s| ensures LineOk(s[i]) {
      WellFormedAt(s, i, i);
    }
  }

  /** A cart extended by one line is well formed exactly when the cart is, the line is, and
      the line clashes with none of the cart's. */
  lemma {:induction false} WellFormedSnoc(s: seq<Line>, x: Line)
    ensures WellFormed(s + [x]) <==>
      WellFormed(s) && LineOk(x) && forall l :: l in s ==> Distinct(l, x)
  {
    if s == [] {
      assert s + [x] == [x];
    } else {
      assert (s + [x])[1..] == s[1..] + [x];
      WellFormedSnoc(s[1..], x);
    }
  }

  /** Lines that agree with another cart's on ids and shape, one for one, form a well formed
      cart whenever the other one does: changing quantities (to at least 1) keeps the
      invariant. */
  lemma {:induction false} WellFormedSameKeys(s: seq<Line>, t: seq<Line>)
    requires WellFormed(s) && |s| == |t|
    requires forall i :: 0 <= i < |s| ==>
      && t[i].id == s[i].id && t[i].productId == s[i].productId
      && t[i].workshopId == s[i].workshopId && t[i].itemType == s[i].itemType
      && t[i].quantity >= 1
    ensures WellFormed(t)
  {
    if s != [] {
      WellFormedSameKeys(s[1..], t[1..]);
      forall l | l in t[1..] ensures Distinct(t[0], l) {
        var j :| 0 <= j < |t[1..]| && t[1..][j] == l;
        assert s[1..][j] in s[1..];
      }
    }
  }

  /** Every sub-list the cart filters out of a well formed cart is well formed. */
  lemma {:induction false} WellFormedFilter(s: seq<Line>, p: Line -> bool)
    requires WellFormed(s)
    ensures WellFormed(Filter(s, p))
  {
    if s != [] {
      WellFormedFilter(s[1..], p);
      var f := Filter(s, p);
      assert f == (if p(s[0]) then [s[0]] else []) + Filter(s[1..], p);
      if p(s[0]) {
        assert f[0] == s[0] && f[1..] == Filter(s[1..], p);
        forall l | l in f[1..] ensures Distinct(f[0], l) {
          assert l in s[1..];
        }
      } else {
        assert f == Filter(s[1..], p);
      }
    }
  }

  // ---------------------------------------------------------------------------------------
  // The existing-item search and add

  /** The `findIndex`/`find` test: a product request matches a line with the same product
      id, a workshop request a line with the same workshop id. The line's own type is not
      looked at. */
  predicate Matches(l: Line, req: AddRequest)
  {
    || (req.itemType == Product && l.productId == req.productId)
    || (req.itemType == Workshop && l.workshopId == req.workshopId)
  }

  /** `findIndex`: the first matching line, or -1. */
  function FindIndex(s: seq<Line>, req: AddRequest): (i: int)
    ensures -1 <= i < |s|
    ensures i >= 0 ==> Matches(s[i], req) && forall j :: 0 <= j < i ==> !Matches(s[j], req)
    ensures i == -1 <==> forall j :: 0 <= j < |s| ==> !Matches(s[j], req)
  {
    if s == [] then -1
    else if Matches(s[0], req) then 0
    else
      var k := FindIndex(s[1..], req);
      if k == -1 then -1 else k + 1
  }

  /** The line a new item becomes: quantity 1 under a fresh id. */
  function NewLine(freshId: string, req: AddRequest): Line
  {
    Line(freshId, req.productId, req.workshopId, 1, req.itemType, req.product, req.workshop)
  }

  /** True when a guest add returns the previous list untouched (a workshop that is already
      in the cart); in that branch the source does not write the storage either. */
  predicate AddIsNoop(s: seq<Line>, req: AddRequest)
  {
    FindIndex(s, req) >= 0 && req.itemType == Workshop
  }

  /** The guest branch of `addToCart`: a product already in the cart gets one more unit on
      its first matching line, a workshop already in the cart is refused, anything else is
      appended as a new line. */
  function GuestAdd(s: seq<Line>, req: AddRequest, freshId: string): seq<Line>
  {
    var i := FindIndex(s, req);
    if i >= 0 then
      if req.itemType == Product then s[i := s[i].(quantity := s[i].quantity + 1)] else s
    else s + [NewLine(freshId, req)]
  }

  /** A product add whose search finds line `k` raises that line by one. */
  lemma GuestAddAt(s: seq<Line>, req: AddRequest, freshId: string, k: int)
    requires req.itemType == Product && 0 <= k < |s| && Matches(s[k], req)
    requires forall j :: 0 <= j < k ==> !Matches(s[j], req)
    ensures GuestAdd(s, req, freshId) == s[k := s[k].(quantity := s[k].quantity + 1)]
  {
    assert FindIndex(s, req) == k;
  }

  /** An add whose search finds no line appends a new line. */
  lemma GuestAddNew(s: seq<Line>, req: AddRequest, freshId: string)
    requires FindIndex(s, req) == -1
    ensures GuestAdd(s, req, freshId) == s + [NewLine(freshId, req)]
  {
  }

  /** What a guest add does: a product already in the cart gets one more unit on its first
      matching line, a workshop already in the cart leaves the cart as it is, and anything
      else is appended as a new line; the cart is unchanged exactly in the workshop case. */
  lemma GuestAddMeaning(s: seq<Line>, req: AddRequest, freshId: string)
    ensures forall k :: (0 <= k < |s| && Matches(s[k], req)
      && forall j :: 0 <= j < k ==> !Matches(s[j], req)) ==>
        (if req.itemType == Product then GuestAdd(s, req, freshId) == s[k := s[k].(quantity := s[k].quantity + 1)]
         else GuestAdd(s, req, freshId) == s)
    ensures (forall l :: l in s ==> !Matches(l, req)) ==> GuestAdd(s, req, freshId) == s + [NewLine(freshId, req)]
    ensures AddIsNoop(s, req) <==> GuestAdd(s, req, freshId) == s
  {
    forall k | 0 <= k < |s| && Matches(s[k], req) && forall j :: 0 <= j < k ==> !Matches(s[j], req)
      ensures if req.itemType == Product then GuestAdd(s, req, freshId) == s[k := s[k].(quantity := s[k].quantity + 1)]
              else GuestAdd(s, req, freshId) == s
    {
      if req.itemType == Product {
        GuestAddAt(s, req, freshId, k);
      } else {
        assert FindIndex(s, req) == k;
      }
    }
    var i := FindIndex(s, req);
    if i >= 0 && req.itemType == Product {
      GuestAddAt(s, req, freshId, i);
      assert GuestAdd(s, req, freshId)[i].quantity != s[i].quantity;
    } else if i < 0 {
      GuestAddNew(s, req, freshId);
      assert |GuestAdd(s, req, freshId)| != |s|;
    }
  }

  /** In a well formed cart at most one line matches a valid request. */
  lemma MatchUnique(s: seq<Line>, req: AddRequest, i: int, j: int)
    requires WellFormed(s) && ValidRequest(req)
    requires 0 <= i < |s| && 0 <= j < |s| && Matches(s[i], req) && Matches(s[j], req)
    ensures i == j
  {
    WellFormedAt(s, i, j);
  }

  /** Adding a product that is in the cart raises that line's quantity by exactly 1, adds no
      line and leaves every other line as it was. */
  lemma AddExistingProduct(s: seq<Line>, req: AddRequest, freshId: string, k: int)
    requires WellFormed(s) && ValidRequest(req) && req.itemType == Product
    requires 0 <= k < |s| && Matches(s[k], req)
    ensures |GuestAdd(s, req, freshId)| == |s|
    ensures GuestAdd(s, req, freshId)[k] == s[k].(quantity := s[k].quantity + 1)
    ensures forall j :: 0 <= j < |s| && j != k ==> GuestAdd(s, req, freshId)[j] == s[j]
  {
    forall j | 0 <= j < k ensures !Matches(s[j], req) {
      if Matches(s[j], req) { MatchUnique(s, req, j, k); }
    }
    GuestAddAt(s, req, freshId, k);
  }

  /** Adding a workshop that is in the cart changes nothing. */
  lemma AddExistingWorkshop(s: seq<Line>, req: AddRequest, freshId: string, k: int)
    requires req.itemType == Workshop && 0 <= k < |s| && Matches(s[k], req)
    ensures GuestAdd(s, req, freshId) == s
  {
  }

  /** The add operations keep the cart invariant, provided the request is well shaped and
      the fresh line id is not in use. */
  lemma GuestAddPreservesWellFormed(s: seq<Line>, req: AddRequest, freshId: string)
    requires WellFormed(s) && ValidRequest(req)
    requires forall l :: l in s ==> l.id != freshId
    ensures WellFormed(GuestAdd(s, req, freshId))
  {
    var i := FindIndex(s, req);
    if i >= 0 {
      if req.itemType == Product {
        AllLinesOk(s);
        WellFormedSameKeys(s, GuestAdd(s, req, freshId));
      }
    } else {
      var x := NewLine(freshId, req);
      forall l | l in s ensures Distinct(l, x) {
        assert !Matches(l, req);
      }
      WellFormedSnoc(s, x);
    }
  }

  // ---------------------------------------------------------------------------------------
  // Remove and update

  function KeepOther(itemId: string): Line -> bool
  {
    (l: Line) => l.id != itemId
  }

  /** `removeFromCart`: every line with that id is dropped, the rest keep their order. */
  function Remove(s: seq<Line>, itemId: string): (r: seq<Line>)
    ensures forall l :: l in r <==> l in s && l.id != itemId
    ensures (forall l :: l in s ==> l.id != itemId) ==> r == s
  {
    if forall l :: l in s ==> l.id != itemId then FilterAllPass(s, KeepOther(itemId)); Filter(s, KeepOther(itemId))
    else Filter(s, KeepOther(itemId))
  }

  /** Removing is idempotent. */
  lemma RemoveIdempotent(s: seq<Line>, itemId: string)
    ensures Remove(Remove(s, itemId), itemId) == Remove(s, itemId)
  {
    FilterIdempotent(s, KeepOther(itemId));
  }

  /** Removing from a concatenation removes from each part: the kept lines keep their order. */
  lemma RemoveAppend(s: seq<Line>, t: seq<Line>, itemId: string)
    ensures Remove(s + t, itemId) == Remove(s, itemId) + Remove(t, itemId)
  {
    FilterAppend(s, t, KeepOther(itemId));
  }

  lemma RemovePreservesWellFormed(s: seq<Line>, itemId: string)
    requires WellFormed(s)
    ensures WellFormed(Remove(s, itemId))
  {
    WellFormedFilter(s, KeepOther(itemId));
  }

  /** The `map` in `updateQuantity`: lines with that id get the new quantity. */
  function SetQuantity(s: seq<Line>, itemId: string, quantity: int): (r: seq<Line>)
    ensures |r| == |s|
    ensures forall i :: 0 <= i < |s| && s[i].id != itemId ==> r[i] == s[i]
    ensures forall i :: 0 <= i < |s| && s[i].id == itemId ==>
      r[i].quantity == quantity && r[i].(quantity := s[i].quantity) == s[i]
  {
    seq(|s|, i requires 0 <= i < |s| => if s[i].id == itemId then s[i].(quantity := quantity) else s[i])
  }

  /** `updateQuantity`: a quantity of 0 or less removes the line. */
  function UpdateQuantity(s: seq<Line>, itemId: string, quantity: int): (r: seq<Line>)
    ensures quantity <= 0 ==> r == Remove(s, itemId)
    ensures quantity > 0 ==> r == SetQuantity(s, itemId, quantity)
  {
    if quantity <= 0 then Remove(s, itemId) else SetQuantity(s, itemId, quantity)
  }

  /** After `updateQuantity(id, q)` with q <= 0 no line carries the id. */
  lemma UpdateToZeroRemoves(s: seq<Line>, itemId: string, quantity: int)
    requires quantity <= 0
    ensures forall l :: l in UpdateQuantity(s, itemId, quantity) ==> l.id != itemId
  {
  }

  lemma UpdateQuantityPreservesWellFormed(s: seq<Line>, itemId: string, quantity: int)
    requires WellFormed(s)
    ensures WellFormed(UpdateQuantity(s, itemId, quantity))
  {
    if quantity <= 0 {
      RemovePreservesWellFormed(s, itemId);
    } else {
      var r := SetQuantity(s, itemId, quantity);
      forall i | 0 <= i < |s| ensures r[i].quantity >= 1 {
        WellFormedAt(s, i, i);
      }
      WellFormedSameKeys(s, r);
    }
  }

  // ---------------------------------------------------------------------------------------
  // Totals

  /** `item.product?.price || item.workshop?.price || 0`: a zero price falls through. */
  function UnitPrice(l: Line): (p: int)
    ensures p != 0 ==>
      (l.product.Some? && p == l.product.value.price) || (l.workshop.Some? && p == l.workshop.value.price)
    ensures l.product.Some? && l.product.value.price != 0 ==> p == l.product.value.price
  {
    if l.product.Some? && l.product.value.price != 0 then l.product.value.price
    else if l.workshop.Some? && l.workshop.value.price != 0 then l.workshop.value.price
    else 0
  }

  /** `getTotal`: the sum of price times quantity. */
  function Total(s: seq<Line>): int
  {
    if s == [] then 0 else UnitPrice(s[0]) * s[0].quantity + Total(s[1..])
  }

  /** `itemCount`: the sum of the quantities. */
  function ItemCount(s: seq<Line>): int
  {
    if s == [] then 0 else s[0].quantity + ItemCount(s[1..])
  }

  /** `item.product?.weight_kg` is truthy: present and not zero. */
  predicate HasWeight(l: Line)
  {
    l.product.Some? && l.product.value.weightKg.Some? && l.product.value.weightKg.value != 0.0
  }

  function LineWeight(l: Line): real
  {
    if HasWeight(l) then l.product.value.weightKg.value * l.quantity as real else 0.0
  }

  /** The weight fold of `getShippingCost`: lines without a product weight add nothing. */
  function TotalWeight(s: seq<Line>): real
  {
    if s == [] then 0.0 else LineWeight(s[0]) + TotalWeight(s[1..])
  }

  /** `Math.ceil`: the least integer not below x. */
  function Ceil(x: real): (c: int)
    ensures x <= c as real < x + 1.0
  {
    -((-x).Floor)
  }

  const RatePerKg := 100

  /** `getShippingCost`: 100 for every started kilogram of the weighted total. */
  function ShippingCost(s: seq<Line>): (cost: int)
    ensures cost % RatePerKg == 0
    ensures RatePerKg as real * TotalWeight(s) <= cost as real < RatePerKg as real * (TotalWeight(s) + 1.0)
  {
    Ceil(TotalWeight(s)) * RatePerKg
  }

  lemma {:induction false} TotalAppend(s: seq<Line>, t: seq<Line>)
    ensures Total(s + t) == Total(s) + Total(t)
    ensures ItemCount(s + t) == ItemCount(s) + ItemCount(t)
    ensures TotalWeight(s + t) == TotalWeight(s) + TotalWeight(t)
  {
    if s == [] {
      assert s + t == t;
    } else {
      assert (s + t)[1..] == s[1..] + t;
      TotalAppend(s[1..], t);
    }
  }

  /** Appending a line of quantity 1 adds one unit and its unit price. */
  lemma AppendOneTotals(s: seq<Line>, x: Line)
    requires x.quantity == 1
    ensures ItemCount(s + [x]) == ItemCount(s) + 1
    ensures Total(s + [x]) == Total(s) + UnitPrice(x)
  {
    assert [x][1..] == [];
    assert Total([x]) == UnitPrice(x) * 1;
    TotalAppend(s, [x]);
  }

  /** Changing one line's quantity by d moves the item count by d and the total by d times
      that line's price. */
  lemma {:induction false} TotalsAfterQuantityChange(s: seq<Line>, k: int, q: int)
    requires 0 <= k < |s|
    ensures ItemCount(s[k := s[k].(quantity := q)]) == ItemCount(s) + (q - s[k].quantity)
    ensures Total(s[k := s[k].(quantity := q)]) == Total(s) + UnitPrice(s[k]) * (q - s[k].quantity)
  {
    var t := s[k := s[k].(quantity := q)];
    if k == 0 {
      assert t[1..] == s[1..];
    } else {
      assert t[1..] == s[1..][k - 1 := s[k].(quantity := q)];
      TotalsAfterQuantityChange(s[1..], k - 1, q);
    }
  }

  /** A product add that finds its line adds one unit and that line's unit price. */
  lemma ExistingLineTotals(s: seq<Line>, req: AddRequest, freshId: string)
    requires FindIndex(s, req) >= 0 && req.itemType == Product
    ensures ItemCount(GuestAdd(s, req, freshId)) == ItemCount(s) + 1
    ensures Total(GuestAdd(s, req, freshId)) == Total(s) + UnitPrice(s[FindIndex(s, req)])
  {
    var i := FindIndex(s, req);
    assert GuestAdd(s, req, freshId) == s[i := s[i].(quantity := s[i].quantity + 1)];
    TotalsAfterQuantityChange(s, i, s[i].quantity + 1);
    assert UnitPrice(s[i]) * (s[i].quantity + 1 - s[i].quantity) == UnitPrice(s[i]);
  }

  /** An add that appends a line adds one unit and the new line's unit price. */
  lemma NewLineTotals(s: seq<Line>, req: AddRequest, freshId: string)
    requires FindIndex(s, req) == -1
    ensures ItemCount(GuestAdd(s, req, freshId)) == ItemCount(s) + 1
    ensures Total(GuestAdd(s, req, freshId)) == Total(s) + UnitPrice(NewLine(freshId, req))
  {
    GuestAddNew(s, req, freshId);
    AppendOneTotals(s, NewLine(freshId, req));
  }

  /** Every guest add other than a refused workshop adds one unit to the item count and one
      unit price to the total. */
  lemma GuestAddTotals(s: seq<Line>, req: AddRequest, freshId: string)
    ensures !AddIsNoop(s, req) ==>
      && ItemCount(GuestAdd(s, req, freshId)) == ItemCount(s) + 1
      && Total(GuestAdd(s, req, freshId)) == Total(s) + (
           var i := FindIndex(s, req); if i >= 0 then UnitPrice(s[i]) else UnitPrice(NewLine(freshId, req)))
  {
    var i := FindIndex(s, req);
    if i >= 0 {
      if req.itemType == Product {
        ExistingLineTotals(s, req, freshId);
      }
    } else {
      NewLineTotals(s, req, freshId);
    }
  }

  /** In a well formed cart the item count is at least the number of lines. */
  lemma {:induction false} ItemCountAtLeastLines(s: seq<Line>)
    requires WellFormed(s)
    ensures ItemCount(s) >= |s|
  {
    if s != [] {
      ItemCountAtLeastLines(s[1..]);
    }
  }

  /** With no weighted line the shipping cost is 0. */
  lemma {:induction false} NoWeightNoShipping(s: seq<Line>)
    requires forall l :: l in s ==> !HasWeight(l)
    ensures TotalWeight(s) == 0.0 && ShippingCost(s) == 0
  {
    if s != [] {
      NoWeightNoShipping(s[1..]);
    }
  }

  /** With non-negative weights and quantities the shipping cost is a non-negative multiple
      of the rate. */
  lemma {:induction false} ShippingNonNegative(s: seq<Line>)
    requires forall l :: l in s ==> l.quantity >= 0
    requires forall l :: l in s && HasWeight(l) ==> l.product.value.weightKg.value >= 0.0
    ensures TotalWeight(s) >= 0.0 && ShippingCost(s) >= 0
  {
    if s != [] {
      ShippingNonNegative(s[1..]);
      if HasWeight(s[0]) {
        var w := s[0].product.value.weightKg.value;
        var q := s[0].quantity as real;
        assert w * q >= 0.0;
      }
    }
  }

  /** The worked example: a product of price 500 and weight 1.2 kg added twice by a guest
      gives one line of quantity 2, a subtotal of 1000 and shipping for 3 kg. */
  lemma TwiceAddedPot()
    ensures var p := ProductInfo("P1", 500, Some(1.2));
      var req := AddRequest(Product, Some("P1"), None, Some(p), None);
      var cart := GuestAdd(GuestAdd([], req, "a"), req, "b");
      |cart| == 1 && cart[0].quantity == 2 && Total(cart) == 1000 && ShippingCost(cart) == 300
  {
    var p := ProductInfo("P1", 500, Some(1.2));
    var req := AddRequest(Product, Some("P1"), None, Some(p), None);
    var one := GuestAdd([], req, "a");
    assert one == [NewLine("a", req)];
    var cart := GuestAdd(one, req, "b");
    assert cart == [NewLine("a", req).(quantity := 2)];
    assert TotalWeight(cart) == 2.4;
    assert Ceil(2.4) == 3;
  }

  // ---------------------------------------------------------------------------------------
  // Repeated adds

  /** A guest adding the same request once per fresh id. */
  function AddAll(s: seq<Line>, req: AddRequest, freshIds: seq<string>): seq<Line>
    decreases |freshIds|
  {
    if freshIds == [] then s else AddAll(GuestAdd(s, req, freshIds[0]), req, freshIds[1..])
  }

  /** The cart with line `k`'s quantity raised by `n`. */
  function Bump(s: seq<Line>, k: int, n: int): seq<Line>
    requires 0 <= k < |s|
  {
    s[k := s[k].(quantity := s[k].quantity + n)]
  }

  /** Raising a line's quantity by `a` and then by `b` raises it by `a + b`. */
  lemma BumpTwice(s: seq<Line>, k: int, a: int, b: int)
    requires 0 <= k < |s|
    ensures Bump(Bump(s, k, a), k, b) == Bump(s, k, a + b)
  {
  }

  /** Raising one line's quantity, to at least 1, keeps the cart well formed. */
  lemma BumpWellFormed(s: seq<Line>, k: int, n: int)
    requires WellFormed(s) && 0 <= k < |s| && s[k].quantity + n >= 1
    ensures WellFormed(Bump(s, k, n))
  {
    AllLinesOk(s);
    WellFormedSameKeys(s, Bump(s, k, n));
  }

  /** One add of a product already in the cart raises that line by one and keeps the cart
      well formed. */
  lemma BumpExisting(s: seq<Line>, req: AddRequest, freshId: string, k: int)
    requires WellFormed(s) && ValidRequest(req) && req.itemType == Product
    requires 0 <= k < |s| && Matches(s[k], req)
    ensures GuestAdd(s, req, freshId) == Bump(s, k, 1)
    ensures WellFormed(GuestAdd(s, req, freshId))
  {
    forall j | 0 <= j < k ensures !Matches(s[j], req) {
      if Matches(s[j], req) { MatchUnique(s, req, j, k); }
    }
    GuestAddAt(s, req, freshId, k);
    WellFormedAt(s, k, k);
    BumpWellFormed(s, k, 1);
  }

  /** Adding a product already in the cart n times raises its line by n and changes
      nothing else. */
  lemma {:induction false} AddAllExisting(s: seq<Line>, req: AddRequest, freshIds: seq<string>, k: int)
    requires WellFormed(s) && ValidRequest(req) && req.itemType == Product
    requires 0 <= k < |s| && Matches(s[k], req)
    ensures AddAll(s, req, freshIds) == Bump(s, k, |freshIds|)
    decreases |freshIds|
  {
    if freshIds != [] {
      BumpExisting(s, req, freshIds[0], k);
      var t := GuestAdd(s, req, freshIds[0]);
      AddAllExisting(t, req, freshIds[1..], k);
      BumpTwice(s, k, 1, |freshIds| - 1);
    }
  }

  /** Adding one product n times to a cart without it yields exactly one line for it, at the
      end, with quantity n. */
  lemma RepeatedProductAdds(s: seq<Line>, req: AddRequest, freshIds: seq<string>)
    requires WellFormed(s) && ValidRequest(req) && req.itemType == Product
    requires |freshIds| >= 1
    requires forall l :: l in s ==> !Matches(l, req) && l.id != freshIds[0]
    ensures AddAll(s, req, freshIds) == s + [NewLine(freshIds[0], req).(quantity := |freshIds|)]
  {
    var line := NewLine(freshIds[0], req);
    var t := s + [line];
    assert GuestAdd(s, req, freshIds[0]) == t;
    GuestAddPreservesWellFormed(s, req, freshIds[0]);
    assert AddAll(s, req, freshIds) == AddAll(t, req, freshIds[1..]);
    AddAllExisting(t, req, freshIds[1..], |s|);
    assert t[|s| := line.(quantity := 1 + |freshIds[1..]|)] == s + [line.(quantity := |freshIds|)];
  }

  // ---------------------------------------------------------------------------------------
  // Login-time sync

  /** A server row of the `select('product_id, workshop_id')` query. */
  datatype ServerRow = ServerRow(productId: Option<string>, workshopId: Option<string>)

  function ExistingProductIds(rows: seq<ServerRow>): set<string>
  {
    set r | r in rows && Truthy(r.productId) :: r.productId.value
  }

  function ExistingWorkshopIds(rows: seq<ServerRow>): set<string>
  {
    set r | r in rows && Truthy(r.workshopId) :: r.workshopId.value
  }

  /** The `filter` callback of the sync: a product or workshop line whose id is not yet on
      the server; a line without a usable id is dropped. */
  predicate NotOnServer(l: Line, productIds: set<string>, workshopIds: set<string>)
  {
    if l.itemType == Product && Truthy(l.productId) then l.productId.value !in productIds
    else if l.itemType == Workshop && Truthy(l.workshopId) then l.workshopId.value !in workshopIds
    else false
  }

  function NotOnServerTest(rows: seq<ServerRow>): Line -> bool
  {
    var p, w := ExistingProductIds(rows), ExistingWorkshopIds(rows);
    (l: Line) => NotOnServer(l, p, w)
  }

  /** The lines the sync inserts: exactly the local lines whose product or workshop id the
      server does not have yet, in local order and with their quantities. */
  function SyncInsertions(local: seq<Line>, rows: seq<ServerRow>): (ins: seq<Line>)
    ensures forall l :: l in ins <==> l in local && NotOnServer(l, ExistingProductIds(rows), ExistingWorkshopIds(rows))
    ensures forall l :: l in ins ==> l.itemType == Product ==>
      Truthy(l.productId) && forall r :: r in rows ==> r.productId != l.productId
    ensures forall l :: l in ins ==> l.itemType == Workshop ==>
      Truthy(l.workshopId) && forall r :: r in rows ==> r.workshopId != l.workshopId
  {
    Filter(local, NotOnServerTest(rows))
  }

  /** After the sync every product of the local cart is on the server exactly once: either
      it was there already (and is not inserted) or it is inserted, once. */
  lemma SyncCoversLocal(local: seq<Line>, rows: seq<ServerRow>, l: Line)
    requires WellFormed(local)
    requires l in local && l.itemType == Product && Truthy(l.productId)
    ensures l.productId.value in ExistingProductIds(rows) <==> l !in SyncInsertions(local, rows)
    ensures Count(SyncInsertions(local, rows), (m: Line) => m.productId == l.productId) <= 1
  {
    var ins := SyncInsertions(local, rows);
    WellFormedFilter(local, NotOnServerTest(rows));
    SameProductAtMostOnce(ins, l.productId);
  }

  lemma {:induction false} SameProductAtMostOnce(s: seq<Line>, pid: Option<string>)
    requires WellFormed(s) && pid.Some?
    ensures Count(s, (m: Line) => m.productId == pid) <= 1
  {
    if s != [] {
      SameProductAtMostOnce(s[1..], pid);
      if s[0].productId == pid {
        assert forall m :: m in s[1..] ==> m.productId != pid;
        assert Count(s[1..], (m: Line) => m.productId == pid) == 0;
      }
    }
  }

  /** The scenario of a guest cart {A, B} and a server that already has A: only B is
      inserted. */
  lemma SyncSkipsKnownProduct()
    ensures var a := Line("1", Some("A"), None, 1, Product, None, None);
      var b := Line("2", Some("B"), None, 3, Product, None, None);
      SyncInsertions([a, b], [ServerRow(Some("A"), None)]) == [b]
  {
    var a := Line("1", Some("A"), None, 1, Product, None, None);
    var b := Line("2", Some("B"), None, 3, Product, None, None);
    var rows := [ServerRow(Some("A"), None)];
    assert ExistingProductIds(rows) == {"A"};
    assert ExistingWorkshopIds(rows) == {};
    assert Filter([b], NotOnServerTest(rows)) == [b];
    assert [a, b][1..] == [b];
  }

  /** A row handed to the server's `cart_items` insert. */
  datatype InsertRow = InsertRow(
    sessionId: string,
    userId: string,
    productId: Option<string>,
    workshopId: Option<string>,
    itemType: ItemType,
    quantity: int)

  /** `x || null`: an absent or empty id is sent as null. */
  function OrNull(o: Option<string>): (r: Option<string>)
    ensures Truthy(o) ==> r == o
    ensures !Truthy(o) ==> r == None
  {
    if Truthy(o) then o else None
  }

  /** The rows the sync inserts, one per line, stamped with the session and the user and
      keeping each line's type and quantity. */
  function InsertRowsFor(lines: seq<Line>, sessionId: string, userId: string): (rows: seq<InsertRow>)
    ensures |rows| == |lines|
    ensures forall i :: 0 <= i < |lines| ==>
      && rows[i].quantity == lines[i].quantity && rows[i].itemType == lines[i].itemType
      && rows[i].productId == OrNull(lines[i].productId)
      && rows[i].workshopId == OrNull(lines[i].workshopId)
      && rows[i].sessionId == sessionId && rows[i].userId == userId
  {
    seq(|lines|, i requires 0 <= i < |lines| =>
      InsertRow(sessionId, userId, OrNull(lines[i].productId), OrNull(lines[i].workshopId),
                lines[i].itemType, lines[i].quantity))
  }

  /** A remote mutation issued in signed-in mode; the cart shown is what the server returns
      afterwards, never a local merge. */
  datatype RemoteCall =
    | NoCall
    | UpdateRow(lineId: string, quantity: int)
    | DeleteRow(lineId: string)
    | Insert(rows: seq<InsertRow>)
    | DeleteAllOf(userId: string)

  /** `getStoredCart`: a missing or unparsable entry reads back as the empty cart. */
  function GetStoredCart(stored: Stored): (lines: seq<Line>)
    ensures stored.Saved? ==> lines == stored.lines
    ensures !stored.Saved? ==> lines == []
  {
    match stored
    case Saved(lines) => lines
    case _ => []
  }
}
