/**
 * The stored documents an order touches: the four product tables, the stock
 * ledger and the line-item snapshot an order embeds.
 *
 * JavaScript's `a || b` treats "" and 0 as missing; the model follows that:
 * an empty `productCode` stands for "no code" and a zero `weightInGrams`
 * for "no weight".
 */
module Inventory {
  import opened Wrappers
  import opened Text

  /** The product collections an order can draw from. */
  datatype Category = Clothes | Toy | Bath | Newborn

  /** The tag a request uses for a category (`categoryTypemodel`). */
  function Tag(c: Category): string {
    match c
    case Clothes => "clothes"
    case Toy => "toy"
    case Bath => "bath"
    case Newborn => "newborn"
  }

  /** The route's `switch (categoryTypemodel)`: an exact, case-sensitive match on the four tags. */
  function ParseCategory(tag: string): (r: Option<Category>)
    ensures r.Some? ==> Tag(r.value) == tag
    ensures forall c :: Tag(c) == tag ==> r == Some(c)
  {
    if tag == "clothes" then Some(Clothes)
    else if tag == "toy" then Some(Toy)
    else if tag == "bath" then Some(Bath)
    else if tag == "newborn" then Some(Newborn)
    else None
  }

  /** A product document; every category shares this shape. */
  datatype Product = Product(
    id: string,
    productCode: string,    // "" when the product has none
    name: string,
    sellingPrice: int,
    inStock: int,
    weightInGrams: int      // 0 when unset
  )

  /** A product is addressed by the category table it lives in and its id. The stock ledger uses the same key. */
  datatype ProductKey = ProductKey(category: Category, id: string)

  /** The four product tables, each keyed by product id. */
  datatype Catalog = Catalog(
    clothes: map<string, Product>,
    toys: map<string, Product>,
    bathItems: map<string, Product>,
    newbornItems: map<string, Product>
  ) {
    /** The table a category selects. */
    function Table(c: Category): map<string, Product> {
      match c
      case Clothes => clothes
      case Toy => toys
      case Bath => bathItems
      case Newborn => newbornItems
    }

    /** `findById` finds a document. */
    predicate Has(k: ProductKey) {
      k.id in Table(k.category)
    }

    function At(k: ProductKey): Product
      requires Has(k)
    {
      Table(k.category)[k.id]
    }

    /** `product.save()`: replace one document and leave the other tables alone. */
    function Put(k: ProductKey, p: Product): (r: Catalog)
      ensures forall c :: r.Table(c) == if c == k.category then Table(c)[k.id := p] else Table(c)
    {
      match k.category
      case Clothes => this.(clothes := clothes[k.id := p])
      case Toy => this.(toys := toys[k.id := p])
      case Bath => this.(bathItems := bathItems[k.id := p])
      case Newborn => this.(newbornItems := newbornItems[k.id := p])
    }
  }

  /** Saving one product changes the document at its key and nothing else. */
  lemma PutAt(cat: Catalog, k: ProductKey, p: Product, k': ProductKey)
    ensures cat.Put(k, p).Has(k') <==> cat.Has(k') || k' == k
    ensures cat.Put(k, p).Has(k') ==> cat.Put(k, p).At(k') == if k' == k then p else cat.At(k')
  {
    assert cat.Put(k, p).Table(k'.category) == if k'.category == k.category then cat.Table(k'.category)[k.id := p] else cat.Table(k'.category);
  }

  /** A stock-ledger document, keyed by (productId, productType). */
  datatype LedgerEntry = LedgerEntry(
    currentStock: int,
    productCode: string,
    productName: string,
    source: string,
    lastUpdated: nat
  )

  type Ledger = map<ProductKey, LedgerEntry>

  /** The code an order uses for a product: its own code, or `<CATEGORY>-<last six characters of the id>`. */
  function CodeOf(p: Product, c: Category): (code: string)
    ensures code != ""
    ensures p.productCode != "" ==> code == p.productCode
  {
    if p.productCode != "" then p.productCode
    else ToUpper(Tag(c)) + "-" + SliceLast(p.id, 6)
  }

  /** The category tags are written in lower case. */
  lemma TagIsLowerCase(c: Category)
    ensures ToLower(Tag(c)) == Tag(c)
  {
    var t := Tag(c);
    forall i | 0 <= i < |t|
      ensures ToLower(t)[i] == t[i]
    {
      assert !('A' <= t[i] <= 'Z');
    }
  }

  /** A derived code starts with its category's tag (read back case-insensitively) followed by '-'. */
  lemma FallbackCodeNamesCategory(p: Product, c: Category)
    requires p.productCode == ""
    ensures var code := CodeOf(p, c);
      && |code| > |Tag(c)|
      && code[..|Tag(c)|] == ToUpper(Tag(c))
      && ParseCategory(ToLower(code[..|Tag(c)|])) == Some(c)
      && code[|Tag(c)|] == '-'
  {
    var tag := Tag(c);
    var upper := ToUpper(tag);
    var code := CodeOf(p, c);
    assert code == upper + "-" + SliceLast(p.id, 6);
    assert code[..|tag|] == upper;
    assert ToLower(upper) == tag by {
      LowerOfUpper(tag);
      TagIsLowerCase(c);
    }
  }

  /** A derived code ends, after the tag and '-', with the last six characters of the product id (all of it when shorter). */
  lemma FallbackCodeEndsWithId(p: Product, c: Category)
    requires p.productCode == ""
    ensures var code := CodeOf(p, c);
      var tail := code[|Tag(c)| + 1..];
      && |tail| == (if |p.id| < 6 then |p.id| else 6)
      && p.id == p.id[..|p.id| - |tail|] + tail
  {
    var tag := Tag(c);
    var upper := ToUpper(tag);
    var code := CodeOf(p, c);
    assert code == upper + "-" + SliceLast(p.id, 6);
    assert code[|tag| + 1..] == SliceLast(p.id, 6);
  }

  /**
   * The ledger `updateOne(..., {upsert: true})`: `$set` the stock and the time,
   * and only when the entry is created `$setOnInsert` code, name and source "online".
   */
  function Upsert(ledger: Ledger, k: ProductKey, p: Product, now: nat): (r: Ledger)
    ensures r.Keys == ledger.Keys + {k}
    ensures forall k' :: k' in ledger && k' != k ==> r[k'] == ledger[k']
    ensures r[k].currentStock == p.inStock && r[k].lastUpdated == now
    ensures k in ledger ==>
      && r[k].productCode == ledger[k].productCode
      && r[k].productName == ledger[k].productName
      && r[k].source == ledger[k].source
    ensures k !in ledger ==>
      && r[k].productCode == CodeOf(p, k.category)
      && r[k].productName == p.name
      && r[k].source == "online"
  {
    if k in ledger then
      ledger[k := ledger[k].(currentStock := p.inStock, lastUpdated := now)]
    else
      ledger[k := LedgerEntry(p.inStock, CodeOf(p, k.category), p.name, "online", now)]
  }

  /** An order's line-item snapshot. */
  datatype OrderLineItem = OrderLineItem(
    productCode: string,
    category: Category,
    name: string,
    quantity: int,
    priceAtOrder: int,
    weightInGrams: int
  )

  /** `product.weightInGrams || 100`. */
  function WeightOrDefault(w: int): (r: int)
    ensures r != 0
    ensures w != 0 ==> r == w
    ensures w == 0 ==> r == 100
    ensures w >= 0 ==> r > 0
  {
    if w != 0 then w else 100
  }

  /** The snapshot taken of a product when `quantity` of it is ordered; it does not depend on the stock. */
  function LineOf(p: Product, c: Category, quantity: int): (line: OrderLineItem)
    ensures line.productCode == CodeOf(p, c) && line.category == c && line.name == p.name
    ensures line.priceAtOrder == p.sellingPrice && line.quantity == quantity
    ensures line.weightInGrams == WeightOrDefault(p.weightInGrams) && line.weightInGrams != 0
  {
    OrderLineItem(CodeOf(p, c), c, p.name, quantity, p.sellingPrice, WeightOrDefault(p.weightInGrams))
  }
}
