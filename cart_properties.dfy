/** What addToCart, increment and decrement promise about the cart: where
    entries go, which quantities change and by how much, that the cart
    invariant is kept, and how the operations undo one another. */
module CartProperties {
  import opened CartModel

  // ----- findIndex -----

  /** findIndex's answer is determined: any first-match position is the one IndexOf gives. */
  lemma FirstIndexUnique(s: seq<Product>, id: string, k: int)
    requires IsFirstIndex(s, id, k)
    ensures IndexOf(s, id) == k
  {
    var r := IndexOf(s, id);
    if r >= 0 && k >= 0 {
      assert !(r < k) && !(k < r);
    }
  }

  /** With unique ids the position of an entry is the one findIndex finds for its id. */
  lemma IndexOfUnique(s: seq<Product>, i: nat)
    requires UniqueIds(s) && i < |s|
    ensures IndexOf(s, s[i].id) == i
  {
    FirstIndexUnique(s, s[i].id, i);
  }

  /** Changing quantities only does not move findIndex's answer. */
  lemma IndexOfSameIds(s: seq<Product>, t: seq<Product>, id: string)
    requires |s| == |t|
    requires forall j :: 0 <= j < |s| ==> s[j].id == t[j].id
    ensures IndexOf(s, id) == IndexOf(t, id)
  {
    FirstIndexUnique(t, id, IndexOf(s, id));
  }

  /** findIndex on a cart with one more entry at the end. */
  lemma IndexOfAppend(s: seq<Product>, p: Product, id: string)
    ensures IndexOf(s + [p], id) ==
      if Has(s, id) then IndexOf(s, id) else if p.id == id then |s| else -1
  {
    var t := s + [p];
    var k := if Has(s, id) then IndexOf(s, id) else if p.id == id then |s| else -1;
    assert forall j :: 0 <= j < |s| ==> t[j] == s[j];
    FirstIndexUnique(t, id, k);
  }

  /** findIndex for an id other than the removed entry's, after splice. */
  lemma IndexOfRemoveAt(s: seq<Product>, i: nat, id: string)
    requires i < |s| && s[i].id != id
    ensures IndexOf(RemoveAt(s, i), id) ==
      var k := IndexOf(s, id);
      if k < i then k else k - 1
  {
    var t := RemoveAt(s, i);
    var k := IndexOf(s, id);
    var k' := if k < i then k else k - 1;
    forall j | 0 <= j < |t| && (k' < 0 || j < k')
      ensures t[j].id != id
    {
      if j >= i { assert t[j] == s[j + 1]; }
    }
    FirstIndexUnique(t, id, k');
  }

  // ----- addToCart -----

  /** An id not in the cart: one new entry of quantity 1 at the end, the rest untouched. */
  lemma AddToCartNew(s: seq<Product>, item: Item)
    requires !Has(s, item.id)
    ensures var r := AddToCart(s, item);
      |r| == |s| + 1 && r[..|s|] == s &&
      r[|s|] == Product(item.id, item.title, item.imageUrl, item.price, 1)
  {
  }

  /** An id already in the cart: that entry gains exactly 1, in place; nothing else changes. */
  lemma AddToCartExisting(s: seq<Product>, item: Item, i: nat)
    requires UniqueIds(s) && i < |s| && s[i].id == item.id
    ensures var r := AddToCart(s, item);
      |r| == |s| &&
      r[i] == s[i].(quantity := s[i].quantity + 1) &&
      forall j :: 0 <= j < |s| && j != i ==> r[j] == s[j]
  {
    IndexOfUnique(s, i);
  }

  /** Each addToCart raises the item's quantity by exactly 1, counting an absent id as 0,
      and leaves the quantity of every other id as it was. */
  lemma AddToCartQuantityOf(s: seq<Product>, item: Item, id: string)
    ensures QuantityOf(AddToCart(s, item), id) ==
      QuantityOf(s, id) + if id == item.id then 1 else 0
  {
    var r := AddToCart(s, item);
    var k := IndexOf(s, item.id);
    if k == -1 {
      IndexOfAppend(s, Entry(item), id);
    } else {
      IndexOfSameIds(s, r, id);
    }
  }

  /** addToCart keeps ids unique and quantities at least 1. */
  lemma AddToCartWellFormed(s: seq<Product>, item: Item)
    requires WellFormed(s)
    ensures WellFormed(AddToCart(s, item))
  {
    var r := AddToCart(s, item);
    if !Has(s, item.id) {
      assert forall j :: 0 <= j < |s| ==> r[j] == s[j];
      assert r[|s|] == Entry(item);
    }
  }

  /** n additions of an item whose id the cart lacks leave a single entry for it,
      at the end, with quantity n; the earlier entries stay as they were. */
  lemma {:induction false} AddToCartTimesNew(s: seq<Product>, item: Item, n: nat)
    requires !Has(s, item.id) && n >= 1
    ensures AddToCartTimes(s, item, n) == s + [Entry(item).(quantity := n)]
    ensures forall j :: 0 <= j < |s| + 1 && AddToCartTimes(s, item, n)[j].id == item.id ==> j == |s|
  {
    if n > 1 {
      AddToCartTimesNew(s, item, n - 1);
      var t := s + [Entry(item).(quantity := n - 1)];
      IndexOfAppend(s, Entry(item).(quantity := n - 1), item.id);
      assert AddToCart(t, item) == t[|s| := t[|s|].(quantity := n)];
      assert t[|s| := t[|s|].(quantity := n)] == s + [Entry(item).(quantity := n)];
    }
  }

  /** n additions raise the item's quantity by n whatever the cart held before. */
  lemma {:induction false} AddToCartTimesQuantityOf(s: seq<Product>, item: Item, n: nat)
    ensures QuantityOf(AddToCartTimes(s, item, n), item.id) == QuantityOf(s, item.id) + n
  {
    if n > 0 {
      AddToCartTimesQuantityOf(s, item, n - 1);
      AddToCartQuantityOf(AddToCartTimes(s, item, n - 1), item, item.id);
    }
  }

  // ----- increment -----

  /** increment on a present id raises only that entry's quantity by 1, in place. */
  lemma IncrementExisting(s: seq<Product>, i: nat)
    requires UniqueIds(s) && i < |s|
    ensures var r := Increment(s, s[i].id);
      r.Ok? && |r.value| == |s| &&
      r.value[i] == s[i].(quantity := s[i].quantity + 1) &&
      forall j :: 0 <= j < |s| && j != i ==> r.value[j] == s[j]
  {
    IndexOfUnique(s, i);
  }

  /** increment raises the quantity of its id by exactly 1 and no other. */
  lemma IncrementQuantityOf(s: seq<Product>, id: string, other: string)
    requires Has(s, id)
    ensures QuantityOf(Increment(s, id).value, other) ==
      QuantityOf(s, other) + if other == id then 1 else 0
  {
    IndexOfSameIds(s, Increment(s, id).value, other);
  }

  /** increment keeps ids unique and quantities at least 1. */
  lemma IncrementWellFormed(s: seq<Product>, id: string)
    requires WellFormed(s) && Has(s, id)
    ensures WellFormed(Increment(s, id).value)
  {
  }

  /** On a present id, addToCart does what increment does. */
  lemma AddToCartExistingIsIncrement(s: seq<Product>, item: Item)
    requires Has(s, item.id)
    ensures Increment(s, item.id) == Ok(AddToCart(s, item))
  {
  }

  // ----- decrement -----

  /** decrement on an entry of quantity above 1 lowers it by 1 in place; nothing else changes. */
  lemma DecrementAboveOne(s: seq<Product>, i: nat)
    requires UniqueIds(s) && i < |s| && s[i].quantity > 1
    ensures var r := Decrement(s, s[i].id);
      r.Ok? && |r.value| == |s| &&
      r.value[i] == s[i].(quantity := s[i].quantity - 1) &&
      forall j :: 0 <= j < |s| && j != i ==> r.value[j] == s[j]
  {
    IndexOfUnique(s, i);
  }

  /** decrement on an entry of quantity 1 (or less) removes it; the others keep their order. */
  lemma DecrementRemoves(s: seq<Product>, i: nat)
    requires UniqueIds(s) && i < |s| && s[i].quantity <= 1
    ensures var r := Decrement(s, s[i].id);
      r.Ok? && r.value == s[..i] + s[i + 1..] && !Has(r.value, s[i].id)
  {
    IndexOfUnique(s, i);
    var t := Decrement(s, s[i].id).value;
    forall j | 0 <= j < |t| ensures t[j].id != s[i].id {
      if j >= i { assert t[j] == s[j + 1]; }
    }
  }

  /** decrement keeps ids unique and never leaves an entry of quantity 0 or below. */
  lemma DecrementWellFormed(s: seq<Product>, id: string)
    requires WellFormed(s) && Has(s, id)
    ensures WellFormed(Decrement(s, id).value)
  {
    var k := IndexOf(s, id);
    var r := Decrement(s, id).value;
    if s[k].quantity - 1 <= 0 {
      forall a, b | 0 <= a < b < |r| ensures r[a].id != r[b].id {
        var a' := if a < k then a else a + 1;
        var b' := if b < k then b else b + 1;
        assert r[a] == s[a'] && r[b] == s[b'];
      }
    }
  }

  /** decrement lowers the quantity of its id by exactly 1, an entry leaving the cart
      at 0, and leaves every other id's quantity as it was. */
  lemma DecrementQuantityOf(s: seq<Product>, id: string, other: string)
    requires WellFormed(s) && Has(s, id)
    ensures QuantityOf(Decrement(s, id).value, other) ==
      QuantityOf(s, other) - if other == id then 1 else 0
  {
    var k := IndexOf(s, id);
    if s[k].quantity - 1 <= 0 {
      if other == id {
        DecrementRemoves(s, k);
      } else {
        RemoveAtQuantityOf(s, k, other);
      }
    } else {
      IndexOfSameIds(s, Decrement(s, id).value, other);
    }
  }

  /** Splicing out one entry leaves the quantity of every other id as it was. */
  lemma RemoveAtQuantityOf(s: seq<Product>, i: nat, id: string)
    requires i < |s| && s[i].id != id
    ensures QuantityOf(RemoveAt(s, i), id) == QuantityOf(s, id)
  {
    IndexOfRemoveAt(s, i, id);
  }

  // ----- the operations undo one another -----

  /** decrement undoes addToCart, on a cart that keeps the invariant. */
  lemma DecrementUndoesAddToCart(s: seq<Product>, item: Item)
    requires PositiveQuantities(s)
    ensures Decrement(AddToCart(s, item), item.id) == Ok(s)
  {
    var t := AddToCart(s, item);
    var k := IndexOf(s, item.id);
    if k == -1 {
      IndexOfAppend(s, Entry(item), item.id);
      assert IndexOf(t, item.id) == |s| && t[|s|].quantity == 1;
      assert RemoveAt(t, |s|) == s;
    } else {
      IndexOfSameIds(s, t, item.id);
      assert Bump(t, k, -1) == s;
    }
  }

  /** decrement undoes increment, on a cart that keeps the invariant. */
  lemma DecrementUndoesIncrement(s: seq<Product>, id: string)
    requires PositiveQuantities(s) && Has(s, id)
    ensures Decrement(Increment(s, id).value, id) == Ok(s)
  {
    var t := Increment(s, id).value;
    var k := IndexOf(s, id);
    IndexOfSameIds(s, t, id);
    assert Bump(t, k, -1) == s;
  }

  /** increment undoes a decrement that kept the entry. */
  lemma IncrementUndoesDecrement(s: seq<Product>, id: string)
    requires Has(s, id) && QuantityOf(s, id) > 1
    ensures Increment(Decrement(s, id).value, id) == Ok(s)
  {
    var t := Decrement(s, id).value;
    var k := IndexOf(s, id);
    IndexOfSameIds(s, t, id);
    assert Bump(t, k, 1) == s;
  }
}
