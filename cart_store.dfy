/** The cart provider: the products state and the three operations that change
    it, written the way the hook writes them (find the index, update the entry
    found or append, splice out an entry whose quantity has dropped to 0). */
module CartStore {
  import opened CartModel
  import CartProperties

  class CartProvider {
    /** The provider's `products` state. */
    var products: seq<Product>

    /** The provider starts with an empty cart. */
    constructor ()
      ensures products == []
    {
      products := [];
    }

    /** loadProducts: a stored snapshot, when one is there and decodes, replaces the
        cart wholesale; otherwise the cart stays as it is. */
    method LoadProducts(stored: Option<seq<Product>>)
      modifies this
      ensures products == if stored.Some? then stored.value else old(products)
    {
      if stored.Some? {
        products := stored.value;
      }
    }

    /** addToCart: append the item with quantity 1, or add one to the entry found. */
    method AddToCart(item: Item)
      modifies this
      ensures products == CartModel.AddToCart(old(products), item)
      ensures WellFormed(old(products)) ==> WellFormed(products)
    {
      ghost var before := products;
      var productId := IndexOf(products, item.id);
      if productId == -1 {
        var newProduct := Product(item.id, item.title, item.imageUrl, item.price, 1);
        products := products + [newProduct];
      } else {
        products := products[productId := products[productId].(quantity := products[productId].quantity + 1)];
      }
      if WellFormed(before) {
        CartProperties.AddToCartWellFormed(before, item);
      }
    }

    /** increment: add one to the entry found. When there is none the source fails
        on `newProducts[-1]` before writing, so found is false and nothing changes. */
    method Increment(id: string) returns (found: bool)
      modifies this
      ensures found == Has(old(products), id)
      ensures products == match CartModel.Increment(old(products), id)
        case Ok(s) => s
        case NotFound => old(products)
      ensures WellFormed(old(products)) ==> WellFormed(products)
    {
      var productId := IndexOf(products, id);
      if productId == -1 {
        found := false;
        return;
      }
      ghost var before := products;
      products := products[productId := products[productId].(quantity := products[productId].quantity + 1)];
      found := true;
      if WellFormed(before) {
        CartProperties.IncrementWellFormed(before, id);
      }
    }

    /** decrement: take one from the entry found and splice it out once its quantity
        is 0 or below. When there is none, found is false and nothing changes. */
    method Decrement(id: string) returns (found: bool)
      modifies this
      ensures found == Has(old(products), id)
      ensures products == match CartModel.Decrement(old(products), id)
        case Ok(s) => s
        case NotFound => old(products)
      ensures WellFormed(old(products)) ==> WellFormed(products)
    {
      var productId := IndexOf(products, id);
      if productId == -1 {
        found := false;
        return;
      }
      ghost var before := products;
      var quantity := products[productId].quantity - 1;
      products := products[productId := products[productId].(quantity := quantity)];
      if quantity <= 0 {
        products := products[..productId] + products[productId + 1..];
        assert products == RemoveAt(before, productId);
      }
      found := true;
      if WellFormed(before) {
        CartProperties.DecrementWellFormed(before, id);
      }
    }
  }

  /** A client of the provider: what a caller can conclude from the contracts alone. */
  method ClientScenario(shirt: Item)
  {
    var cart := new CartProvider();
    cart.AddToCart(shirt);
    assert cart.products == [Entry(shirt)];
    cart.AddToCart(shirt);
    assert cart.products == [Entry(shirt).(quantity := 2)];
    var found := cart.Decrement(shirt.id);
    assert found && cart.products == [Entry(shirt)];
    found := cart.Decrement(shirt.id);
    assert found && cart.products == [];
    found := cart.Increment(shirt.id);
    assert !found && cart.products == [];
  }
}
