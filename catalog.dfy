/** The backend's records as the console receives them, the abstract result of a request,
    and the product lookups and title search shared by several screens. */
module Catalog {
  import opened Common
  import opened Text

  /** A purchasable size/price configuration of a product. Prices are exact reals here;
      the browser's floating point is not modelled. */
  datatype Variant = Variant(size: string, color: string, price: real, discountPercent: real,
                             stock: int, sku: string)

  /** The variant the editor starts from and appends: empty texts, zero numbers. */
  function BlankVariant(): (v: Variant)
    ensures v.size == "" && v.color == "" && v.sku == ""
    ensures v.price == 0.0 && v.discountPercent == 0.0 && v.stock == 0
  {
    Variant("", "", 0.0, 0.0, 0, "")
  }

  /** An uploaded image; a missing `url` or `public_id` is the empty string. */
  datatype Image = Image(url: string, publicId: string)

  datatype ProductImages = ProductImages(thumbnail: Option<Image>, others: seq<Image>)

  /** A product; a missing `category`, `subCategory` or `brand` is `None`. */
  datatype Product = Product(
    id: string,
    title: string,
    description: string,
    productType: string,
    category: Option<string>,
    subCategory: Option<string>,
    brand: Option<string>,
    variants: seq<Variant>,
    images: ProductImages,
    keywords: seq<string>,
    isFeatured: bool,
    isNewArrival: bool,
    isBestSeller: bool,
    isOutOfStock: bool)

  /** A banner as listed by the backend; `kind` is its `type` field. */
  datatype Banner = Banner(id: string, kind: string, title: string,
                           productId: Option<string>, selectedVariantIndex: Option<int>)

  /** A file chosen in a file input. */
  datatype File = File(name: string, mimeType: string, content: seq<bv8>)

  /** `e.target.files[0]`: the first chosen file, or nothing when none was chosen. */
  function FirstFile(files: seq<File>): (r: Option<File>)
    ensures r.None? <==> files == []
    ensures r.Some? ==> r.value == files[0]
  {
    if |files| > 0 then Some(files[0]) else None
  }

  /** What a request to the backend came back with; a failure may carry the backend's
      `response.data.message`. */
  datatype Outcome = Succeeded | Failed(message: Option<string>)

  /** `err.response?.data?.message || fallback`: the backend's message when it sent a
      non-empty one, the screen's own text otherwise. */
  function MessageOr(message: Option<string>, fallback: string): (r: string)
    ensures message.Some? && message.value != "" ==> r == message.value
    ensures message.None? || message.value == "" ==> r == fallback
    ensures fallback != "" ==> r != ""
  {
    if message.Some? && message.value != "" then message.value else fallback
  }

  function HasId(id: string): Product -> bool {
    (p: Product) => p.id == id
  }

  /** `products.find(p => p._id === id)` */
  function FindById(products: seq<Product>, id: string): (r: Option<Product>)
    ensures r.Some? ==> r.value in products && r.value.id == id
    ensures r.None? <==> forall p :: p in products ==> p.id != id
    ensures r.Some? ==> exists i :: 0 <= i < |products| && products[i] == r.value
                                    && forall j :: 0 <= j < i ==> products[j].id != id
  {
    var r := FindFirst(HasId(id), products);
    assert r.Some? ==> exists i :: 0 <= i < |products| && products[i] == r.value
                                   && forall j :: 0 <= j < i ==> products[j].id != id by {
      if r.Some? {
        var i :| 0 <= i < |products| && products[i] == r.value && HasId(id)(products[i])
                 && forall j :: 0 <= j < i ==> !HasId(id)(products[j]);
      }
    }
    assert r.None? ==> forall p :: p in products ==> p.id != id by {
      if r.None? {
        forall p | p in products ensures p.id != id {
          var i :| 0 <= i < |products| && products[i] == p;
          assert !HasId(id)(products[i]);
        }
      }
    }
    r
  }

  function TitleMatches(term: string): Product -> bool {
    (p: Product) => Contains(ToLower(p.title), ToLower(term))
  }

  /** `products.filter(p => p.title.toLowerCase().includes(term.toLowerCase()))`. */
  function SearchByTitle(products: seq<Product>, term: string): (r: seq<Product>)
    ensures forall p :: p in r <==> p in products && Contains(ToLower(p.title), ToLower(term))
  {
    Filter(TitleMatches(term), products)
  }

  /** An empty search term hides nothing: the whole list, in order. */
  lemma SearchWithEmptyTermKeepsAll(products: seq<Product>)
    ensures SearchByTitle(products, "") == products
  {
    forall p | p in products ensures TitleMatches("")(p) {
      ContainsEmpty(ToLower(p.title));
    }
    FilterKeepsAll(TitleMatches(""), products);
  }

  /** Searching a concatenation searches each part, in order. */
  lemma SearchByTitleConcat(a: seq<Product>, b: seq<Product>, term: string)
    ensures SearchByTitle(a + b, term) == SearchByTitle(a, term) + SearchByTitle(b, term)
  {
    FilterConcat(TitleMatches(term), a, b);
  }
}
