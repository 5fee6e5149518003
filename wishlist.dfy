/** The wishlist of `src/hooks/useWishlist.tsx`: a list of products kept unique by id,
    saved to the browser's storage whenever it changes, and the toggle button of
    `src/components/WishlistButton.tsx` built on it. */
module Wishlist {
  import opened Common

  /** A product as the wishlist button passes it in. */
  datatype Product = Product(id: string, name: string, price: int, imageUrl: Option<string>, category: string)

  /** A wishlist entry: the product and the time it was added, in milliseconds. */
  datatype WishItem = WishItem(id: string, name: string, price: int, imageUrl: Option<string>,
                               category: string, addedAt: int)

  /** The storage entry under the wishlist key. */
  datatype StoredList = Absent | Unparsable | Saved(items: seq<WishItem>)

  function Stamp(p: Product, now: int): (w: WishItem)
    ensures w.id == p.id && w.name == p.name && w.price == p.price
    ensures w.imageUrl == p.imageUrl && w.category == p.category && w.addedAt == now
  {
    WishItem(p.id, p.name, p.price, p.imageUrl, p.category, now)
  }

  /** `items.some(item => item.id === id)`. */
  predicate Contains(s: seq<WishItem>, id: string)
  {
    exists w :: w in s && w.id == id
  }

  /** No two entries share an id. */
  predicate Unique(s: seq<WishItem>)
  {
    forall i, j :: 0 <= i < j < |s| ==> s[i].id != s[j].id
  }

  /** `addToWishlist`: an id already present leaves the list as it is; a new one is
      appended, stamped with `now`. */
  function Add(s: seq<WishItem>, p: Product, now: int): (r: seq<WishItem>)
    ensures Contains(s, p.id) ==> r == s
    ensures !Contains(s, p.id) ==> r == s + [Stamp(p, now)]
    ensures Contains(r, p.id)
    ensures Unique(s) ==> Unique(r)
  {
    if Contains(s, p.id) then s else s + [Stamp(p, now)]
  }

  function KeepOther(id: string): WishItem -> bool
  {
    (w: WishItem) => w.id != id
  }

  /** `removeFromWishlist`: every entry with that id goes, the others stay in order. */
  function Remove(s: seq<WishItem>, id: string): (r: seq<WishItem>)
    ensures forall w :: w in r <==> w in s && w.id != id
    ensures !Contains(r, id)
    ensures !Contains(s, id) ==> r == s
  {
    var r := Filter(s, KeepOther(id));
    if !Contains(s, id) then
      FilterAllPass(s, KeepOther(id));
      r
    else r
  }

  /** The "removed" notice fires when the list shrank, which is exactly when the id was
      present. */
  function RemoveNotice(s: seq<WishItem>, id: string): (shown: bool)
    ensures shown <==> Contains(s, id)
  {
    var r := Remove(s, id);
    if Contains(s, id) then
      ShrinksWhenPresent(s, id);
      |r| < |s|
    else
      |r| < |s|
  }

  lemma {:induction false} ShrinksWhenPresent(s: seq<WishItem>, id: string)
    requires Contains(s, id)
    ensures |Filter(s, KeepOther(id))| < |s|
  {
    if s[0].id == id {
    } else {
      assert s == [s[0]] + s[1..];
      var w :| w in s && w.id == id;
      assert w in s[1..];
      ShrinksWhenPresent(s[1..], id);
    }
  }

  /** Removal works element by element: on a concatenation it removes from each part,
      and a single entry is dropped exactly when it carries the id. Together these fix
      the result, so the kept entries stay in their original order. */
  lemma RemoveKeepsOrder(s: seq<WishItem>, t: seq<WishItem>, w: WishItem, id: string)
    ensures Remove(s + t, id) == Remove(s, id) + Remove(t, id)
    ensures Remove([w], id) == if w.id == id then [] else [w]
  {
    FilterAppend(s, t, KeepOther(id));
    assert [w][1..] == [];
  }

  /** For a list with unique ids, removal shortens it by one when the id is present and
      leaves the length alone otherwise. */
  lemma {:induction false} RemoveUniqueLength(s: seq<WishItem>, id: string)
    requires Unique(s)
    ensures |Remove(s, id)| == |s| - (if Contains(s, id) then 1 else 0)
  {
    if s != [] {
      var tail := s[1..];
      assert Unique(tail) by {
        forall i, j | 0 <= i < j < |tail| ensures tail[i].id != tail[j].id {
          assert tail[i] == s[i + 1] && tail[j] == s[j + 1];
        }
      }
      assert Filter(s, KeepOther(id)) == (if s[0].id != id then [s[0]] else []) + Filter(tail, KeepOther(id));
      if s[0].id == id {
        forall x | x in tail ensures x.id != id {
          var k :| 0 <= k < |tail| && tail[k] == x;
          assert s[k + 1] == x;
        }
        FilterAllPass(tail, KeepOther(id));
      } else {
        assert s == [s[0]] + tail;
        assert Contains(s, id) <==> Contains(tail, id);
        RemoveUniqueLength(tail, id);
      }
    }
  }

  /** Removing twice is removing once. */
  lemma RemoveIdempotent(s: seq<WishItem>, id: string)
    ensures Remove(Remove(s, id), id) == Remove(s, id)
  {
  }

  /** Filtering keeps ids unique. */
  lemma {:induction false} UniqueFilter(s: seq<WishItem>, p: WishItem -> bool)
    requires Unique(s)
    ensures Unique(Filter(s, p))
  {
    if s != [] {
      assert Unique(s[1..]) by {
        forall i, j | 0 <= i < j < |s[1..]| ensures s[1..][i].id != s[1..][j].id {
          assert s[1..][i] == s[i + 1] && s[1..][j] == s[j + 1];
        }
      }
      UniqueFilter(s[1..], p);
      var f := Filter(s[1..], p);
      forall w | w in f ensures w.id != s[0].id {
        var k :| 0 <= k < |s[1..]| && s[1..][k] == w;
        assert s[k + 1] == w;
      }
      if p(s[0]) {
        var r := [s[0]] + f;
        forall i, j | 0 <= i < j < |r| ensures r[i].id != r[j].id {
          if i == 0 {
            assert r[j] == f[j - 1] && r[j] in f;
          } else {
            assert r[i] == f[i - 1] && r[j] == f[j - 1];
          }
        }
      } else {
        assert Filter(s, p) == f;
      }
    }
  }

  lemma RemovePreservesUnique(s: seq<WishItem>, id: string)
    requires Unique(s)
    ensures Unique(Remove(s, id))
  {
    UniqueFilter(s, KeepOther(id));
  }

  /** `isInWishlist` is true right after an add and false right after a remove. */
  lemma ContainsAfterAddRemove(s: seq<WishItem>, p: Product, now: int, id: string)
    ensures Contains(Add(s, p, now), p.id)
    ensures !Contains(Remove(s, id), id)
  {
  }

  /** The wishlist button's click: remove when shown as wished, add otherwise. */
  function Toggle(s: seq<WishItem>, p: Product, now: int): (r: seq<WishItem>)
    ensures Contains(r, p.id) <==> !Contains(s, p.id)
  {
    if Contains(s, p.id) then Remove(s, p.id) else Add(s, p, now)
  }

  /** Two clicks on a product that was not wished leave the list as it was. */
  lemma ToggleTwice(s: seq<WishItem>, p: Product, now1: int, now2: int)
    requires !Contains(s, p.id)
    ensures Toggle(Toggle(s, p, now1), p, now2) == s
  {
    var x := Stamp(p, now1);
    FilterAppend(s, [x], KeepOther(p.id));
    FilterAllPass(s, KeepOther(p.id));
    assert Filter([x], KeepOther(p.id)) == [];
  }

  /** `getStoredWishlist`: a missing or unreadable entry reads as the empty list. */
  function GetStoredWishlist(stored: StoredList): (s: seq<WishItem>)
    ensures stored.Saved? ==> s == stored.items
    ensures !stored.Saved? ==> s == []
  {
    if stored.Saved? then stored.items else []
  }

  class WishlistProvider {
    var items: seq<WishItem>
    var storage: StoredList

    /** The save effect's promise: storage holds exactly the shown list. */
    predicate Persisted()
      reads this
    {
      storage == Saved(items)
    }

    /** Mounting: the stored list is loaded, and the save effect writes it back. */
    constructor(storage: StoredList)
      ensures items == GetStoredWishlist(storage) && Persisted()
    {
      items := GetStoredWishlist(storage);
      this.storage := Saved(items);
    }

    method AddToWishlist(p: Product, now: int)
      requires Persisted()
      modifies this
      ensures items == Add(old(items), p, now) && Persisted()
      ensures ItemCount() == |old(items)| + (if Contains(old(items), p.id) then 0 else 1)
      ensures IsInWishlist(p.id)
    {
      if !Contains(items, p.id) {
        items := items + [Stamp(p, now)];
        storage := Saved(items);
      }
    }

    /** Returns whether the "removed" notice is shown. */
    method RemoveFromWishlist(id: string) returns (notice: bool)
      requires Persisted()
      modifies this
      ensures items == Remove(old(items), id) && Persisted()
      ensures notice <==> Contains(old(items), id)
      ensures Unique(old(items)) ==> ItemCount() == |old(items)| - (if Contains(old(items), id) then 1 else 0)
      ensures !IsInWishlist(id)
    {
      var before := items;
      if Unique(before) {
        RemoveUniqueLength(before, id);
      }
      items := Remove(items, id);
      notice := |items| < |before|;
      assert notice == RemoveNotice(before, id);
      storage := Saved(items);
    }

    method ClearWishlist()
      modifies this
      ensures items == [] && Persisted()
      ensures ItemCount() == 0
    {
      items := [];
      storage := Saved(items);
    }

    predicate IsInWishlist(id: string)
      reads this
    {
      Contains(items, id)
    }

    /** `wishlistCount`: the number of entries shown. */
    function ItemCount(): nat
      reads this
    {
      |items|
    }
  }
}
