/** The cart as a value: its line items, the lookup addToCart, increment and
    decrement share, and the new cart each of the three operations produces.
    The class in CartStore updates its products field with exactly these. */
module CartModel {

  /** What addToCart receives: a product without a quantity. */
  datatype Item = Item(id: string, title: string, imageUrl: string, price: int)

  /** One line item of the cart. The price is carried along and never computed with. */
  datatype Product = Product(id: string, title: string, imageUrl: string, price: int, quantity: int)

  datatype Option<T> = None | Some(value: T)

  /** The outcome of increment and decrement: the new cart, or the failure the
      source runs into when no entry carries the id (it reads a field of
      `newProducts[-1]`, which is undefined, and throws before writing anything). */
  datatype Result<T> = Ok(value: T) | NotFound

  /** The entry addToCart appends for an id the cart does not hold yet. */
  function Entry(item: Item): Product
  {
    Product(item.id, item.title, item.imageUrl, item.price, 1)
  }

  predicate Has(s: seq<Product>, id: string)
  {
    exists j :: 0 <= j < |s| && s[j].id == id
  }

  /** k is what findIndex answers for id on s: the first position holding id, or -1. */
  predicate IsFirstIndex(s: seq<Product>, id: string, k: int)
  {
    -1 <= k < |s| &&
    (k >= 0 ==> s[k].id == id) &&
    forall j :: 0 <= j < |s| && (k < 0 || j < k) ==> s[j].id != id
  }

  /** `products.findIndex(p => p.id === id)`. */
  function IndexOf(s: seq<Product>, id: string): (r: int)
    ensures IsFirstIndex(s, id, r)
    ensures r >= 0 <==> Has(s, id)
  {
    if |s| == 0 then -1
    else if s[0].id == id then 0
    else
      var k := IndexOf(s[1..], id);
      if k < 0 then -1 else k + 1
  }

  /** The quantity the cart holds of id, 0 when no entry carries it. */
  function QuantityOf(s: seq<Product>, id: string): int
  {
    var k := IndexOf(s, id);
    if k < 0 then 0 else s[k].quantity
  }

  /** At most one entry per id. */
  predicate UniqueIds(s: seq<Product>)
  {
    forall i, j :: 0 <= i < j < |s| ==> s[i].id != s[j].id
  }

  /** Every entry present has a quantity of at least 1. */
  predicate PositiveQuantities(s: seq<Product>)
  {
    forall i :: 0 <= i < |s| ==> s[i].quantity >= 1
  }

  /** The cart invariant the three operations keep. */
  predicate WellFormed(s: seq<Product>)
  {
    UniqueIds(s) && PositiveQuantities(s)
  }

  /** s with the quantity of its entry at position i raised or lowered by delta. */
  function Bump(s: seq<Product>, i: nat, delta: int): (r: seq<Product>)
    requires i < |s|
    ensures |r| == |s| && r[i].quantity == s[i].quantity + delta
    ensures r[i].(quantity := s[i].quantity) == s[i]
    ensures forall j :: 0 <= j < |s| && j != i ==> r[j] == s[j]
  {
    s[i := s[i].(quantity := s[i].quantity + delta)]
  }

  /** s without its entry at position i, the others in their order (`splice(i, 1)`). */
  function RemoveAt(s: seq<Product>, i: nat): (r: seq<Product>)
    requires i < |s|
    ensures |r| == |s| - 1
    ensures forall j :: 0 <= j < i ==> r[j] == s[j]
    ensures forall j :: i <= j < |r| ==> r[j] == s[j + 1]
  {
    s[..i] + s[i + 1..]
  }

  /** addToCart: a new entry of quantity 1 at the end, or one more of the entry found. */
  function AddToCart(s: seq<Product>, item: Item): (r: seq<Product>)
    ensures Has(r, item.id)
    ensures |r| == if Has(s, item.id) then |s| else |s| + 1
  {
    var k := IndexOf(s, item.id);
    if k == -1 then
      var r := s + [Entry(item)];
      assert r[|s|].id == item.id;
      r
    else Bump(s, k, 1)
  }

  /** increment: one more of the entry found, NotFound when there is none. */
  function Increment(s: seq<Product>, id: string): (r: Result<seq<Product>>)
    ensures r.NotFound? <==> !Has(s, id)
    ensures r.Ok? ==> |r.value| == |s|
  {
    var k := IndexOf(s, id);
    if k == -1 then NotFound
    else Ok(Bump(s, k, 1))
  }

  /** decrement: one less of the entry found, which is spliced out once its
      quantity has dropped to 0 or below; NotFound when there is none. */
  function Decrement(s: seq<Product>, id: string): (r: Result<seq<Product>>)
    ensures r.NotFound? <==> !Has(s, id)
    ensures r.Ok? ==> |s| - 1 <= |r.value| <= |s|
  {
    var k := IndexOf(s, id);
    if k == -1 then NotFound
    else if s[k].quantity - 1 <= 0 then Ok(RemoveAt(s, k))
    else Ok(Bump(s, k, -1))
  }

  /** n calls of addToCart with the same item, one after the other. */
  function AddToCartTimes(s: seq<Product>, item: Item, n: nat): seq<Product>
  {
    if n == 0 then s else AddToCart(AddToCartTimes(s, item, n - 1), item)
  }
}
