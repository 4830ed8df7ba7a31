/** The banner upload panel: the chunked read that feeds the file digest, the parse of a
    variant size into a weight, the guards that decide whether an upload may proceed, the
    lists the panel shows, and the form state with its reset and edit-load rules. */
module BannerUpload {
  import opened Common
  import opened Text
  import opened Catalog

  // ---------------------------------------------------------------------------------------
  // Chunked read for the digest

  /** Bytes read per step: 2 MiB. */
  const ChunkSize: nat := 2097152

  function Min(a: int, b: int): int { if a <= b then a else b }

  /** The slices the reader asks for, in order: `[0, 2 MiB)`, `[2 MiB, 4 MiB)`, ..., each
      cut at the end of the file; an empty file is still read once. */
  function Chunks(content: seq<bv8>): (r: seq<seq<bv8>>)
    ensures |r| >= 1
    decreases |content|
  {
    if |content| <= ChunkSize then [content]
    else [content[..ChunkSize]] + Chunks(content[ChunkSize..])
  }

  /** The number of reads: `max(1, ceil(size / 2 MiB))`. */
  function ReadCount(size: nat): nat {
    if size == 0 then 1 else (size + ChunkSize - 1) / ChunkSize
  }

  /** The slices cover every byte exactly once, in order. */
  lemma {:induction false} ChunksCoverContent(content: seq<bv8>)
    ensures Flatten(Chunks(content)) == content
    decreases |content|
  {
    if |content| > ChunkSize {
      ChunksCoverContent(content[ChunkSize..]);
      assert content[..ChunkSize] + content[ChunkSize..] == content;
    }
  }

  /** As many reads as `max(1, ceil(size / 2 MiB))`. */
  lemma {:induction false} ChunksCount(content: seq<bv8>)
    ensures |Chunks(content)| == ReadCount(|content|)
    decreases |content|
  {
    if |content| > ChunkSize {
      ChunksCount(content[ChunkSize..]);
      var m := |content| - ChunkSize;
      assert (m + ChunkSize + ChunkSize - 1) / ChunkSize == (m + ChunkSize - 1) / ChunkSize + 1;
    }
  }

  /** Read `i` is the slice `[i * 2 MiB, min((i + 1) * 2 MiB, size))`. */
  lemma {:induction false} ChunkAt(content: seq<bv8>, i: nat)
    requires i < |Chunks(content)|
    ensures i * ChunkSize <= |content|
    ensures Chunks(content)[i] == content[i * ChunkSize..Min((i + 1) * ChunkSize, |content|)]
    decreases |content|
  {
    if |content| > ChunkSize && i > 0 {
      var rest := content[ChunkSize..];
      ChunkAt(rest, i - 1);
      assert Chunks(content)[i] == Chunks(rest)[i - 1];
      assert rest[(i - 1) * ChunkSize..Min(i * ChunkSize, |rest|)]
          == content[i * ChunkSize..Min((i + 1) * ChunkSize, |content|)];
    }
  }

  /** `file.slice(start, end)`: bounds past the end are cut to the end. */
  function Slice(content: seq<bv8>, start: nat, end: nat): (r: seq<bv8>)
    requires start <= end
    ensures |r| == Min(end, |content|) - Min(start, |content|)
    ensures start <= |content| ==> r == content[start..][..|r|]
  {
    content[Min(start, |content|)..Min(end, |content|)]
  }

  /** The cursor loop of `computeFileHash`: read the slice at the cursor, advance the cursor
      by 2 MiB, and read again while the cursor is still inside the file. The slices read are
      exactly `Chunks(content)`; the digest folded over them is not modelled. */
  method ReadChunks(content: seq<bv8>) returns (chunks: seq<seq<bv8>>)
    ensures chunks == Chunks(content)
  {
    chunks := [];
    var cursor: nat := 0;
    var more := true;
    while more
      invariant cursor <= |content| || !more
      invariant more ==> cursor == 0 || cursor < |content|
      invariant Chunks(content) == chunks + (if more then Chunks(content[cursor..]) else [])
      decreases if more then |content| + 1 - cursor else 0
    {
      var slice := Slice(content, cursor, cursor + ChunkSize);
      assert Chunks(content[cursor..]) == [slice] + (if cursor + ChunkSize < |content|
        then Chunks(content[cursor + ChunkSize..]) else []) by {
        if cursor + ChunkSize < |content| {
          assert content[cursor..][..ChunkSize] == slice;
          assert content[cursor..][ChunkSize..] == content[cursor + ChunkSize..];
        } else {
          assert content[cursor..] == slice;
        }
      }
      chunks := chunks + [slice];
      cursor := cursor + ChunkSize;
      more := cursor < |content|;
    }
  }

  // ---------------------------------------------------------------------------------------
  // Weight from a variant size

  /** `[\d.]`: an ASCII digit or a dot. */
  predicate IsValueChar(c: char) { IsDigit(c) || c == '.' }

  predicate AllValueChars(s: string) { forall i :: 0 <= i < |s| ==> IsValueChar(s[i]) }

  predicate AllLetters(s: string) { forall i :: 0 <= i < |s| ==> IsAsciiLetter(s[i]) }

  /** A size as `^([\d.]+)([a-zA-Z]+)$` reads it: a number part and a unit part. */
  datatype Weight = Weight(value: string, unit: string)

  /** `s` splits at `k` into a non-empty run of digits and dots and a non-empty run of
      letters. */
  predicate SplitsAsWeight(s: string, k: int) {
    0 < k < |s| && AllValueChars(s[..k]) && AllLetters(s[k..])
  }

  /** `s` matches `^([\d.]+)([a-zA-Z]+)$`. */
  predicate MatchesSizePattern(s: string) {
    exists k | 0 < k < |s| :: SplitsAsWeight(s, k)
  }

  /** The length of the longest prefix of digits and dots. */
  function ValuePrefixLength(s: string): (n: nat)
    ensures n <= |s| && AllValueChars(s[..n])
    ensures n < |s| ==> !IsValueChar(s[n])
    decreases |s|
  {
    if s != [] && IsValueChar(s[0]) then
      var n := 1 + ValuePrefixLength(s[1..]);
      assert s[..n] == [s[0]] + s[1..][..n - 1];
      n
    else 0
  }

  /** `variant.size.match(/^([\d.]+)([a-zA-Z]+)$/)`, as the weight value and unit of the
      match, or `None` when the size does not match. */
  function ParseSize(s: string): (r: Option<Weight>)
    ensures r.Some? <==> MatchesSizePattern(s)
    ensures r.Some? ==> r.value.value + r.value.unit == s
                        && r.value.value != "" && AllValueChars(r.value.value)
                        && r.value.unit != "" && AllLetters(r.value.unit)
  {
    var n := ValuePrefixLength(s);
    if 0 < n < |s| && AllLetters(s[n..]) then
      assert SplitsAsWeight(s, n);
      assert s[..n] + s[n..] == s;
      Some(Weight(s[..n], s[n..]))
    else
      assert !MatchesSizePattern(s) by {
        forall k | SplitsAsWeight(s, k) ensures false {
          WeightSplitIsUnique(s, k);
        }
      }
      None
  }

  /** The split point of a size that matches is the end of its run of digits and dots. */
  lemma WeightSplitIsUnique(s: string, k: int)
    requires SplitsAsWeight(s, k)
    ensures k == ValuePrefixLength(s)
  {
    var n := ValuePrefixLength(s);
    assert !IsValueChar(s[k]) by { assert s[k] == s[k..][0]; }
    forall i | 0 <= i < k ensures IsValueChar(s[i]) { assert s[i] == s[..k][i]; }
    forall i | 0 <= i < n ensures IsValueChar(s[i]) { assert s[i] == s[..n][i]; }
  }

  /** A number part followed by a unit part parses back into exactly those parts. */
  lemma ParseSizeRoundTrip(value: string, unit: string)
    requires value != "" && AllValueChars(value) && unit != "" && AllLetters(unit)
    ensures ParseSize(value + unit) == Some(Weight(value, unit))
  {
    var s := value + unit;
    assert s[..|value|] == value && s[|value|..] == unit;
    assert SplitsAsWeight(s, |value|);
    WeightSplitIsUnique(s, |value|);
  }

  // ---------------------------------------------------------------------------------------
  // Selection and the upload guard

  /** `product?.variants?.[index]`. */
  function VariantAt(product: Option<Product>, index: int): (r: Option<Variant>)
    ensures r.Some? <==> product.Some? && 0 <= index < |product.value.variants|
    ensures r.Some? ==> r.value == product.value.variants[index]
  {
    if product.Some? && 0 <= index < |product.value.variants| then
      Some(product.value.variants[index])
    else None
  }

  /** Banner kinds that show a product rather than an uploaded image. */
  predicate IsProductKind(kind: string) { kind == "product-type" || kind == "side" }

  /** Why an upload was refused before any request. */
  datatype Rejection = ShowAllSelected | NoProductSelected | InvalidSelection | NoImage

  /** What a banner upload sends besides its type. `productImage` is the first of the
      product's other images, if any; `hasOldPrice` says whether an `oldPrice` is attached. */
  datatype BannerFields =
    | ProductFields(productId: string, variantIndex: int, productImage: Option<Image>,
                    title: string, price: real, discountPercent: real, hasOldPrice: bool,
                    weight: Option<Weight>)
    | ImageFields(image: File)

  /** The guards of `handleUpload` and the fields it then sends. `product` and `variant` are
      what `getSelectedProduct()` and `getSelectedVariant()` return. */
  function PlanUpload(kind: string, productId: string, product: Option<Product>,
                      variant: Option<Variant>, variantIndex: int,
                      image: Option<File>): (r: Result<BannerFields, Rejection>)
    ensures r == Err(ShowAllSelected) <==> kind == "all"
    ensures r == Err(NoProductSelected) <==> IsProductKind(kind) && productId == ""
    ensures r == Err(InvalidSelection) <==>
              IsProductKind(kind) && productId != "" && (product.None? || variant.None?)
    ensures r == Err(NoImage) <==> kind != "all" && !IsProductKind(kind) && image.None?
    ensures r.Ok? && IsProductKind(kind) ==>
              && product.Some? && variant.Some?
              && r.value == ProductFields(productId, variantIndex,
                   if |product.value.images.others| > 0
                   then Some(product.value.images.others[0]) else None,
                   product.value.title, variant.value.price, variant.value.discountPercent,
                   variant.value.discountPercent > 0.0, ParseSize(variant.value.size))
    ensures r.Ok? && !IsProductKind(kind) ==> image.Some? && r.value == ImageFields(image.value)
  {
    if kind == "all" then Err(ShowAllSelected)
    else if IsProductKind(kind) then
      if productId == "" then Err(NoProductSelected)
      else if product.None? || variant.None? then Err(InvalidSelection)
      else
        var p := product.value;
        var v := variant.value;
        Ok(ProductFields(productId, variantIndex,
                         if |p.images.others| > 0 then Some(p.images.others[0]) else None,
                         p.title, v.price, v.discountPercent, v.discountPercent > 0.0,
                         ParseSize(v.size)))
    else if image.None? then Err(NoImage)
    else Ok(ImageFields(image.value))
  }

  // ---------------------------------------------------------------------------------------
  // Lists the panel shows

  function KindIs(kind: string): Banner -> bool {
    (b: Banner) => kind == "all" || b.kind == kind
  }

  /** The banner grid: every banner for "all", otherwise the banners of the chosen type. */
  function VisibleBanners(banners: seq<Banner>, kind: string): (r: seq<Banner>)
    ensures kind == "all" ==> r == banners
    ensures kind != "all" ==> forall b :: b in r <==> b in banners && b.kind == kind
  {
    if kind == "all" then FilterKeepsAll(KindIs(kind), banners); Filter(KindIs(kind), banners)
    else Filter(KindIs(kind), banners)
  }

  /** `id` is the product of some product banner. */
  predicate HasProductBanner(banners: seq<Banner>, id: string) {
    exists b :: b in banners && IsProductKind(b.kind) && b.productId == Some(id)
  }

  function BannerShows(banners: seq<Banner>): Product -> bool {
    (p: Product) => HasProductBanner(banners, p.id)
  }

  /** `getUploadedProducts`: the products, in list order, that some `product-type` or `side`
      banner points to. */
  function UploadedProducts(banners: seq<Banner>, products: seq<Product>): (r: seq<Product>)
    ensures forall p :: p in r <==> p in products && HasProductBanner(banners, p.id)
  {
    Filter(BannerShows(banners), products)
  }

  /** The uploaded products keep the product list's order. */
  lemma UploadedProductsConcat(banners: seq<Banner>, a: seq<Product>, b: seq<Product>)
    ensures UploadedProducts(banners, a + b) == UploadedProducts(banners, a) + UploadedProducts(banners, b)
  {
    FilterConcat(BannerShows(banners), a, b);
  }

  /** A banner of another type does not make a product "uploaded". */
  lemma OtherBannersDoNotCount(banners: seq<Banner>, extra: Banner, products: seq<Product>)
    requires !IsProductKind(extra.kind)
    ensures UploadedProducts(banners + [extra], products) == UploadedProducts(banners, products)
  {
    forall p: Product ensures BannerShows(banners + [extra])(p) == BannerShows(banners)(p) {
      if HasProductBanner(banners + [extra], p.id) {
        var b :| b in banners + [extra] && IsProductKind(b.kind) && b.productId == Some(p.id);
        assert b in banners;
      }
    }
    FilterAgrees(BannerShows(banners + [extra]), BannerShows(banners), products);
  }

  // ---------------------------------------------------------------------------------------
  // The panel

  /** Where an upload goes: POST to create, PUT to the banner being edited. */
  datatype Target = Create | Update(bannerId: string)

  /** One upload request: its target, its `type`, its fields, and for image banners the
      slices read for the digest (none for product banners). */
  datatype BannerRequest = BannerRequest(target: Target, kind: string, fields: BannerFields,
                                         digestInput: seq<seq<bv8>>)

  /** The banner upload panel and its form state. */
  class BannerPanel {
    var image: Option<File>
    var kind: string
    var banners: seq<Banner>
    var products: seq<Product>
    var selectedProductId: string
    var selectedVariantIndex: int
    var editingBanner: Option<Banner>
    var productSearchTerm: string

    constructor ()
      ensures image.None? && kind == "slider" && banners == [] && products == []
      ensures selectedProductId == "" && selectedVariantIndex == 0
      ensures editingBanner.None? && productSearchTerm == ""
    {
      image := None;
      kind := "slider";
      banners := [];
      products := [];
      selectedProductId := "";
      selectedVariantIndex := 0;
      editingBanner := None;
      productSearchTerm := "";
    }

    /** `fetchBanners`; `fetched` is `None` when the request failed, which keeps the list. */
    method FetchBanners(fetched: Option<seq<Banner>>)
      modifies this
      ensures banners == fetched.GetOr(old(banners))
      ensures image == old(image) && kind == old(kind) && products == old(products)
      ensures selectedProductId == old(selectedProductId)
      ensures selectedVariantIndex == old(selectedVariantIndex)
      ensures editingBanner == old(editingBanner) && productSearchTerm == old(productSearchTerm)
    {
      if fetched.Some? {
        banners := fetched.value;
      }
    }

    /** `fetchProducts`; `fetched` is `None` when the request failed, which keeps the list. */
    method FetchProducts(fetched: Option<seq<Product>>)
      modifies this
      ensures products == fetched.GetOr(old(products))
      ensures image == old(image) && kind == old(kind) && banners == old(banners)
      ensures selectedProductId == old(selectedProductId)
      ensures selectedVariantIndex == old(selectedVariantIndex)
      ensures editingBanner == old(editingBanner) && productSearchTerm == old(productSearchTerm)
    {
      if fetched.Some? {
        products := fetched.value;
      }
    }

    /** `handleImageChange`: the first chosen file becomes the image when it is an image;
        no file, or a file of another type, leaves the image as it was. */
    method HandleImageChange(files: seq<File>)
      modifies this
      ensures image == if |files| > 0 && StartsWith(files[0].mimeType, "image/")
                       then Some(files[0]) else old(image)
      ensures kind == old(kind) && banners == old(banners) && products == old(products)
      ensures selectedProductId == old(selectedProductId)
      ensures selectedVariantIndex == old(selectedVariantIndex)
      ensures editingBanner == old(editingBanner) && productSearchTerm == old(productSearchTerm)
    {
      if |files| == 0 {
        return;
      }
      var file := files[0];
      if !StartsWith(file.mimeType, "image/") {
        return;
      }
      image := Some(file);
    }

    /** `resetForm`: clears the image, the selection, the search and the banner being
        edited; the type and the lists stay. */
    method ResetForm()
      modifies this
      ensures image.None? && selectedProductId == "" && selectedVariantIndex == 0
      ensures editingBanner.None? && productSearchTerm == ""
      ensures kind == old(kind) && banners == old(banners) && products == old(products)
    {
      image := None;
      selectedProductId := "";
      selectedVariantIndex := 0;
      editingBanner := None;
      productSearchTerm := "";
    }

    /** Choosing a product in the product list selects its first variant. */
    method SelectProduct(id: string)
      modifies this
      ensures selectedProductId == id && selectedVariantIndex == 0
      ensures image == old(image) && kind == old(kind) && banners == old(banners)
      ensures products == old(products) && editingBanner == old(editingBanner)
      ensures productSearchTerm == old(productSearchTerm)
    {
      selectedProductId := id;
      selectedVariantIndex := 0;
    }

    /** Choosing a variant in the variant list. */
    method SelectVariant(index: int)
      modifies this
      ensures selectedVariantIndex == index
      ensures image == old(image) && kind == old(kind) && banners == old(banners)
      ensures products == old(products) && editingBanner == old(editingBanner)
      ensures selectedProductId == old(selectedProductId)
      ensures productSearchTerm == old(productSearchTerm)
    {
      selectedVariantIndex := index;
    }

    /** Choosing a type; the type list is disabled while a banner is being edited. */
    method SelectType(newKind: string)
      requires editingBanner.None?
      modifies this
      ensures kind == newKind
      ensures image == old(image) && banners == old(banners) && products == old(products)
      ensures selectedProductId == old(selectedProductId)
      ensures selectedVariantIndex == old(selectedVariantIndex)
      ensures editingBanner == old(editingBanner) && productSearchTerm == old(productSearchTerm)
    {
      kind := newKind;
    }

    /** `handleEdit(banner)`: loads the banner's type, product and variant, and drops any
        chosen image; a banner without a product or variant index loads `""` and `0`. */
    method HandleEdit(banner: Banner)
      modifies this
      ensures editingBanner == Some(banner) && kind == banner.kind
      ensures selectedProductId == banner.productId.GetOr("")
      ensures selectedVariantIndex == banner.selectedVariantIndex.GetOr(0)
      ensures image.None?
      ensures banners == old(banners) && products == old(products)
      ensures productSearchTerm == old(productSearchTerm)
    {
      editingBanner := Some(banner);
      kind := banner.kind;
      selectedProductId := banner.productId.GetOr("");
      selectedVariantIndex := banner.selectedVariantIndex.GetOr(0);
      image := None;
    }

    /** `getSelectedProduct()` */
    function SelectedProduct(): (r: Option<Product>)
      reads this
      ensures r.Some? ==> r.value in products && r.value.id == selectedProductId
      ensures r.None? <==> forall p :: p in products ==> p.id != selectedProductId
      ensures r.Some? ==>
                exists i :: 0 <= i < |products| && products[i] == r.value
                            && forall j :: 0 <= j < i ==> products[j].id != selectedProductId
    {
      FindById(products, selectedProductId)
    }

    /** `getSelectedVariant()` */
    function SelectedVariant(): (r: Option<Variant>)
      reads this
      ensures r.Some? <==> SelectedProduct().Some?
                           && 0 <= selectedVariantIndex < |SelectedProduct().value.variants|
      ensures r.Some? ==> r.value == SelectedProduct().value.variants[selectedVariantIndex]
    {
      VariantAt(SelectedProduct(), selectedVariantIndex)
    }

    /** `filteredProducts` */
    function FilteredProducts(): (r: seq<Product>)
      reads this
      ensures forall p :: p in r <==>
                (p in products && Contains(ToLower(p.title), ToLower(productSearchTerm)))
    {
      SearchByTitle(products, productSearchTerm)
    }

    /** `handleUpload`. A refused upload sends nothing and changes nothing. Otherwise the
        request goes to the banner being edited if there is one and creates a banner if not;
        on success the banner list is fetched again (`refetched`, `None` when that request
        fails) and the form is reset, and on failure nothing changes. */
    method HandleUpload(outcome: Outcome, refetched: Option<seq<Banner>>)
      returns (result: Result<BannerRequest, Rejection>)
      modifies this
      ensures var plan := PlanUpload(old(kind), old(selectedProductId), old(SelectedProduct()),
                                     old(SelectedVariant()), old(selectedVariantIndex),
                                     old(image));
              && (plan.Err? ==> result == Err(plan.error))
              && (plan.Ok? ==> result.Ok? && result.value.fields == plan.value)
      ensures result.Ok? ==> result.value.kind == old(kind)
      ensures result.Ok? ==> (result.value.target.Update? <==> old(editingBanner).Some?)
      ensures result.Ok? && old(editingBanner).Some? ==>
                result.value.target == Update(old(editingBanner).value.id)
      ensures result.Ok? ==>
                result.value.digestInput == if result.value.fields.ImageFields?
                                            then Chunks(result.value.fields.image.content)
                                            else []
      ensures result.Ok? && outcome.Succeeded? ==>
                && banners == refetched.GetOr(old(banners))
                && image.None? && selectedProductId == "" && selectedVariantIndex == 0
                && editingBanner.None? && productSearchTerm == ""
                && kind == old(kind) && products == old(products)
      ensures result.Err? || outcome.Failed? ==>
                && image == old(image) && kind == old(kind) && banners == old(banners)
                && products == old(products) && selectedProductId == old(selectedProductId)
                && selectedVariantIndex == old(selectedVariantIndex)
                && editingBanner == old(editingBanner)
                && productSearchTerm == old(productSearchTerm)
    {
      var plan := PlanUpload(kind, selectedProductId, SelectedProduct(), SelectedVariant(),
                             selectedVariantIndex, image);
      if plan.Err? {
        return Err(plan.error);
      }
      var digestInput := [];
      if plan.value.ImageFields? {
        digestInput := ReadChunks(plan.value.image.content);
      }
      var target := if editingBanner.Some? then Update(editingBanner.value.id) else Create;
      result := Ok(BannerRequest(target, kind, plan.value, digestInput));
      if outcome.Succeeded? {
        FetchBanners(refetched);
        ResetForm();
      }
    }
  }
}
