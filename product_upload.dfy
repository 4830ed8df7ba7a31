/** The product editor (add and edit): the variant list, the images already stored, the
    comma-separated keywords, the gate on the submit button, and what the draft becomes
    after loading a product and after a submission. */
module ProductUpload {
  import opened Common
  import opened Text
  import opened Catalog

  // ---------------------------------------------------------------------------------------
  // Variants

  datatype VariantField = SizeField | ColorField | PriceField | DiscountField | StockField | SkuField

  datatype FieldValue = TextValue(text: string) | RealValue(number: real) | IntValue(count: int)

  /** `variant[field]` */
  function Read(v: Variant, f: VariantField): FieldValue {
    match f
    case SizeField => TextValue(v.size)
    case ColorField => TextValue(v.color)
    case PriceField => RealValue(v.price)
    case DiscountField => RealValue(v.discountPercent)
    case StockField => IntValue(v.stock)
    case SkuField => TextValue(v.sku)
  }

  /** One edit made in a variant row: the text inputs give strings, price and discount go
      through `parseFloat`, stock through `parseInt`. */
  datatype VariantEdit =
    | SetSize(size: string)
    | SetColor(color: string)
    | SetPrice(price: real)
    | SetDiscount(discountPercent: real)
    | SetStock(stock: int)
    | SetSku(sku: string)
  {
    function Field(): VariantField {
      match this
      case SetSize(_) => SizeField
      case SetColor(_) => ColorField
      case SetPrice(_) => PriceField
      case SetDiscount(_) => DiscountField
      case SetStock(_) => StockField
      case SetSku(_) => SkuField
    }

    function Value(): FieldValue {
      match this
      case SetSize(s) => TextValue(s)
      case SetColor(s) => TextValue(s)
      case SetPrice(x) => RealValue(x)
      case SetDiscount(x) => RealValue(x)
      case SetStock(n) => IntValue(n)
      case SetSku(s) => TextValue(s)
    }
  }

  /** `variant[field] = value`: the edited field reads back the new value, every other field
      reads as before. */
  function Apply(v: Variant, e: VariantEdit): (r: Variant)
    ensures forall f :: Read(r, f) == if f == e.Field() then e.Value() else Read(v, f)
  {
    match e
    case SetSize(s) => v.(size := s)
    case SetColor(s) => v.(color := s)
    case SetPrice(x) => v.(price := x)
    case SetDiscount(x) => v.(discountPercent := x)
    case SetStock(n) => v.(stock := n)
    case SetSku(s) => v.(sku := s)
  }

  /** `handleVariantChange(index, field, value)` on the list: same length, variant `index`
      edited, every other variant as it was. */
  function UpdateVariant(vs: seq<Variant>, index: nat, e: VariantEdit): (r: seq<Variant>)
    requires index < |vs|
    ensures |r| == |vs|
    ensures forall j, f :: 0 <= j < |r| ==>
              Read(r[j], f) == if j == index && f == e.Field() then e.Value() else Read(vs[j], f)
  {
    vs[index := Apply(vs[index], e)]
  }

  /** `s.filter((_, i) => i !== index)`: drops the element at `index` when there is one. */
  function RemoveAt<T>(s: seq<T>, index: int): (r: seq<T>)
    ensures 0 <= index < |s| ==> r == s[..index] + s[index + 1..]
    ensures !(0 <= index < |s|) ==> r == s
    decreases |s|
  {
    if s == [] then []
    else if index == 0 then s[1..]
    else
      var rest := RemoveAt(s[1..], index - 1);
      assert 0 < index < |s| ==> [s[0]] + rest == s[..index] + s[index + 1..] by {
        if 0 < index < |s| {
          assert s[1..][..index - 1] == s[1..index];
          assert s[1..][index..] == s[index + 1..];
          assert [s[0]] + s[1..index] == s[..index];
        }
      }
      assert !(0 <= index < |s|) ==> [s[0]] + rest == s by {
        if !(0 <= index < |s|) { assert [s[0]] + s[1..] == s; }
      }
      [s[0]] + rest
  }

  // ---------------------------------------------------------------------------------------
  // Images already stored for the product

  /** An image the editor can show and remove: it has both a url and a public_id. */
  predicate HasUrlAndId(img: Image) {
    img.url != "" && img.publicId != ""
  }

  function ThumbnailPart(thumbnail: Option<Image>): seq<Image> {
    if thumbnail.Some? && HasUrlAndId(thumbnail.value) then [thumbnail.value] else []
  }

  /** The existing images after a product is loaded: the thumbnail if it is complete, then
      the complete `others`, in order. */
  function KeptImages(images: ProductImages): (r: seq<Image>)
    ensures |r| <= |images.others| + 1
    ensures forall img :: img in r ==> HasUrlAndId(img)
  {
    ThumbnailPart(images.thumbnail) + Filter(HasUrlAndId, images.others)
  }

  /** An image survives loading exactly when it is the thumbnail or one of the others and it
      has both a url and a public_id. */
  lemma KeptImagesMembers(images: ProductImages)
    ensures forall img :: img in KeptImages(images) <==>
              (images.thumbnail == Some(img) || img in images.others) && HasUrlAndId(img)
  {
    var t := ThumbnailPart(images.thumbnail);
    var f := Filter(HasUrlAndId, images.others);
    forall img
      ensures img in t + f <==> (images.thumbnail == Some(img) || img in images.others) && HasUrlAndId(img)
    {
      assert img in t + f <==> img in t || img in f;
    }
  }

  /** The `currentImages` loop of `fetchProduct`. */
  method CollectExistingImages(images: ProductImages) returns (current: seq<Image>)
    ensures current == KeptImages(images)
  {
    current := [];
    if images.thumbnail.Some? && HasUrlAndId(images.thumbnail.value) {
      current := current + [images.thumbnail.value];
    }
    ghost var thumbnail := current;
    assert thumbnail == ThumbnailPart(images.thumbnail);
    var others := images.others;
    var i := 0;
    assert others[..i] == [];
    while i < |others|
      invariant 0 <= i <= |others|
      invariant current == thumbnail + Filter(HasUrlAndId, others[..i])
    {
      PushIfComplete(thumbnail, others, i, current);
      if HasUrlAndId(others[i]) {
        current := current + [others[i]];
      }
      i := i + 1;
    }
    assert others[..i] == others;
  }

  /** One step of the `currentImages` loop: pushing `others[i]` when it is complete extends
      the kept prefix by one element. */
  lemma PushIfComplete(thumbnail: seq<Image>, others: seq<Image>, i: nat, current: seq<Image>)
    requires i < |others| && current == thumbnail + Filter(HasUrlAndId, others[..i])
    ensures (if HasUrlAndId(others[i]) then current + [others[i]] else current)
            == thumbnail + Filter(HasUrlAndId, others[..i + 1])
  {
    FilterSnoc(HasUrlAndId, others[..i], others[i]);
    assert others[..i + 1] == others[..i] + [others[i]];
  }

  function PublicIdIsNot(id: string): Image -> bool {
    (img: Image) => img.publicId != id
  }

  /** `removeExistingImage(id)`: every image with that public_id goes, the rest stay. */
  function WithoutPublicId(imgs: seq<Image>, id: string): (r: seq<Image>)
    ensures forall img :: img in r <==> img in imgs && img.publicId != id
  {
    Filter(PublicIdIsNot(id), imgs)
  }

  /** `existingImages.map(img => img.public_id)`, the ids sent as `existingImagePublicIds`. */
  function PublicIds(imgs: seq<Image>): (r: seq<string>)
    ensures |r| == |imgs|
    ensures forall i :: 0 <= i < |r| ==> r[i] == imgs[i].publicId
    decreases |imgs|
  {
    if imgs == [] then [] else [imgs[0].publicId] + PublicIds(imgs[1..])
  }

  function IsNot(id: string): string -> bool {
    (s: string) => s != id
  }

  /** After removing an image, the ids submitted are the stored ids with that id taken out,
      in their original order; in particular the removed id is not submitted. */
  lemma {:induction false} RemovedImageIsNotSubmitted(imgs: seq<Image>, id: string)
    ensures PublicIds(WithoutPublicId(imgs, id)) == Filter(IsNot(id), PublicIds(imgs))
    ensures id !in PublicIds(WithoutPublicId(imgs, id))
    decreases |imgs|
  {
    if imgs != [] {
      RemovedImageIsNotSubmitted(imgs[1..], id);
      assert PublicIds(imgs)[1..] == PublicIds(imgs[1..]);
      var head := if imgs[0].publicId != id then [imgs[0]] else [];
      PublicIdsConcat(head, Filter(PublicIdIsNot(id), imgs[1..]));
    }
  }

  lemma {:induction false} PublicIdsConcat(a: seq<Image>, b: seq<Image>)
    ensures PublicIds(a + b) == PublicIds(a) + PublicIds(b)
  {
    assert |PublicIds(a + b)| == |PublicIds(a) + PublicIds(b)|;
    forall i | 0 <= i < |a + b| ensures PublicIds(a + b)[i] == (PublicIds(a) + PublicIds(b))[i] {
      if i >= |a| { assert (a + b)[i] == b[i - |a|]; }
    }
  }

  // ---------------------------------------------------------------------------------------
  // Keywords

  /** `.map(k => k.trim())` */
  function TrimAll(xs: seq<string>): (r: seq<string>)
    ensures |r| == |xs|
    decreases |xs|
  {
    if xs == [] then [] else [Trim(xs[0])] + TrimAll(xs[1..])
  }

  /** Each piece is trimmed in place. */
  lemma {:induction false} TrimAllAt(xs: seq<string>, i: nat)
    requires i < |xs|
    ensures TrimAll(xs)[i] == Trim(xs[i])
    decreases |xs|
  {
    if i > 0 {
      TrimAllAt(xs[1..], i - 1);
      assert xs[1..][i - 1] == xs[i];
    }
  }

  lemma TrimAllCons(x: string, xs: seq<string>)
    ensures TrimAll([x] + xs) == [Trim(x)] + TrimAll(xs)
  {
    assert ([x] + xs)[1..] == xs;
  }

  /** `.filter(Boolean)` on strings. */
  predicate NonEmpty(s: string) { s != "" }

  /** A keyword as the parser produces it: non-empty, no comma, no white space at the ends. */
  predicate IsKeyword(k: string) {
    k != "" && ',' !in k && !IsWhitespace(k[0]) && !IsWhitespace(k[|k| - 1])
  }

  /** `keywords.split(",").map(k => k.trim()).filter(Boolean)` */
  function ParseKeywords(s: string): (r: seq<string>)
    ensures forall k :: k in r ==> IsKeyword(k)
  {
    var pieces := Split(s, ',');
    PiecesParseToKeywords(pieces);
    Filter(NonEmpty, TrimAll(pieces))
  }

  /** Trimming comma-free pieces and dropping the empty ones leaves only keywords. */
  lemma PiecesParseToKeywords(pieces: seq<string>)
    requires forall p :: p in pieces ==> ',' !in p
    ensures forall k :: k in Filter(NonEmpty, TrimAll(pieces)) ==> IsKeyword(k)
  {
    forall k | k in Filter(NonEmpty, TrimAll(pieces)) ensures IsKeyword(k) {
      ParsedPieceIsKeyword(pieces, k);
    }
  }

  lemma ParsedPieceIsKeyword(pieces: seq<string>, k: string)
    requires forall p :: p in pieces ==> ',' !in p
    requires k in Filter(NonEmpty, TrimAll(pieces))
    ensures IsKeyword(k)
  {
    assert k in TrimAll(pieces) && k != "";
    var i :| 0 <= i < |pieces| && TrimAll(pieces)[i] == k;
    assert pieces[i] in pieces;
    TrimmedAtIsKeyword(pieces, i);
  }

  lemma TrimmedAtIsKeyword(pieces: seq<string>, i: nat)
    requires i < |pieces| && ',' !in pieces[i] && TrimAll(pieces)[i] != ""
    ensures IsKeyword(TrimAll(pieces)[i])
  {
    TrimAllAt(pieces, i);
    TrimmedPieceIsKeyword(pieces[i]);
  }

  /** A comma-free piece that does not trim to nothing trims to a keyword. */
  lemma TrimmedPieceIsKeyword(piece: string)
    requires ',' !in piece && Trim(piece) != ""
    ensures IsKeyword(Trim(piece))
  {
    TrimKeepsAbsent(',', piece);
  }

  /** How the editor shows a loaded product's keywords: `keywords.join(", ")`. */
  function ShowKeywords(ks: seq<string>): (r: string)
    ensures ks == [] ==> r == ""
    ensures |ks| == 1 ==> r == ks[0]
    ensures |ks| >= 1 ==> |ks[0]| <= |r| && r[..|ks[0]|] == ks[0]
  {
    Join(ks, ", ")
  }

  /** Loading a product and submitting it again sends back the same keywords, whenever the
      stored keywords are keywords the parser could have produced. */
  lemma {:induction false} KeywordsRoundTrip(ks: seq<string>)
    requires forall k :: k in ks ==> IsKeyword(k)
    ensures ParseKeywords(ShowKeywords(ks)) == ks
    decreases |ks|
  {
    if ks == [] {
      assert Split("", ',') == [""];
      assert TrimAll([""]) == [""];
      assert Filter(NonEmpty, [""]) == [];
    } else if |ks| == 1 {
      assert ks[0] in ks;
      SplitNoSeparator(ks[0], ',');
      assert TrimAll([ks[0]]) == [ks[0]];
      assert Filter(NonEmpty, [ks[0]]) == [ks[0]];
    } else {
      var k, rest := ks[0], ks[1..];
      assert k in ks;
      forall x | x in rest ensures IsKeyword(x) { assert x in ks; }
      var j := ShowKeywords(rest);
      assert ShowKeywords(ks) == k + [','] + ([' '] + j);
      SplitPrefix(k, ',', [' '] + j);
      ParseSkipsLeadingSpace(j);
      KeywordsRoundTrip(rest);
      ParseCons(k, Split([' '] + j, ','));
    }
  }

  /** A space right after a comma does not change what is parsed. */
  lemma ParseSkipsLeadingSpace(s: string)
    ensures TrimAll(Split([' '] + s, ',')) == TrimAll(Split(s, ','))
  {
    var pieces := Split(s, ',');
    assert ([' '] + s)[1..] == s;
    assert Split([' '] + s, ',') == [[' '] + pieces[0]] + pieces[1..];
    assert pieces == [pieces[0]] + pieces[1..];
    TrimAllCons([' '] + pieces[0], pieces[1..]);
    TrimAllCons(pieces[0], pieces[1..]);
    TrimSkipsLeadingSpace(' ', pieces[0]);
  }

  /** Parsing a keyword piece followed by more pieces. */
  lemma ParseCons(k: string, pieces: seq<string>)
    requires IsKeyword(k)
    ensures Filter(NonEmpty, TrimAll([k] + pieces)) == [k] + Filter(NonEmpty, TrimAll(pieces))
  {
    TrimmedIsFixed(k);
    TrimAllCons(k, pieces);
    assert ([k] + TrimAll(pieces))[1..] == TrimAll(pieces);
  }

  // ---------------------------------------------------------------------------------------
  // The draft and its submission

  /** Every field of the form that is sent with the product. */
  datatype Draft = Draft(
    title: string,
    description: string,
    productType: string,
    category: string,
    subCategory: string,
    brand: string,
    variants: seq<Variant>,
    newImages: seq<File>,
    existingImages: seq<Image>,
    keywords: string,
    isFeatured: bool,
    isNewArrival: bool,
    isBestSeller: bool,
    isOutOfStock: bool)

  /** The form as first shown and as reset after a successful add. */
  function EmptyDraft(): (d: Draft)
    ensures d.title == "" && d.description == "" && d.productType == ""
    ensures d.category == "" && d.subCategory == "" && d.brand == "" && d.keywords == ""
    ensures d.variants == [BlankVariant()] && d.newImages == [] && d.existingImages == []
    ensures !d.isFeatured && !d.isNewArrival && !d.isBestSeller && !d.isOutOfStock
  {
    Draft("", "", "", "", "", "", [BlankVariant()], [], [], "", false, false, false, false)
  }

  /** `isUploadEnabled()`: title, description and product type filled in, some variant,
      and some newly chosen image; images already stored do not count. */
  function UploadEnabled(d: Draft): (enabled: bool)
    ensures enabled <==> d.title != "" && d.description != "" && d.productType != ""
                         && |d.variants| > 0 && |d.newImages| > 0
    ensures |d.newImages| == 0 ==> !enabled
  {
    NonEmpty(d.title) && NonEmpty(d.description) && NonEmpty(d.productType)
    && |d.variants| > 0 && |d.newImages| > 0
  }

  /** An open gate sends a product with a title, a description, a type, some variant and
      some newly chosen image. */
  lemma OpenGateSendsCompletePayload(d: Draft)
    requires UploadEnabled(d)
    ensures var p := Payload(d);
            p.title != "" && p.description != "" && p.productType != ""
            && |p.variants| > 0 && |p.images| > 0
  {
  }

  /** Images already stored neither open nor close the gate. */
  lemma StoredImagesDoNotOpenGate(d: Draft, stored: seq<Image>)
    ensures UploadEnabled(d.(existingImages := stored)) == UploadEnabled(d)
  {
  }

  datatype ProductPayload = ProductPayload(
    title: string,
    description: string,
    productType: string,
    category: string,
    subCategory: string,
    brand: string,
    variants: seq<Variant>,
    keywords: seq<string>,
    isFeatured: bool,
    isNewArrival: bool,
    isBestSeller: bool,
    isOutOfStock: bool,
    images: seq<File>,
    existingImagePublicIds: seq<string>)

  /** PUT to the edit endpoint when editing an existing product, POST to add otherwise. */
  datatype ProductRequest = AddProduct(payload: ProductPayload)
                          | EditProduct(id: string, payload: ProductPayload)

  /** The form data `handleSubmit` sends. */
  function Payload(d: Draft): (r: ProductPayload)
    ensures forall k :: k in r.keywords ==> IsKeyword(k)
    ensures |r.existingImagePublicIds| == |d.existingImages|
    ensures forall i :: 0 <= i < |d.existingImages| ==>
              r.existingImagePublicIds[i] == d.existingImages[i].publicId
    ensures r.images == d.newImages && r.variants == d.variants
  {
    ProductPayload(d.title, d.description, d.productType, d.category, d.subCategory, d.brand,
                   d.variants, ParseKeywords(d.keywords), d.isFeatured, d.isNewArrival,
                   d.isBestSeller, d.isOutOfStock, d.newImages, PublicIds(d.existingImages))
  }

  const AddedText := "Product added successfully!"
  const UpdatedText := "Product updated successfully!"
  const SaveFailedText := "Failed to save product."
  const FetchFailedText := "Failed to fetch product data."

  /** The add/edit product page. */
  class ProductForm {
    /** The route's `id`: present when editing an existing product. */
    const editId: Option<string>
    var draft: Draft
    var loading: bool
    var error: Option<string>
    var success: Option<string>

    /** The variant list is never empty. */
    ghost predicate Valid()
      reads this
    {
      |draft.variants| >= 1
    }

    constructor (editId: Option<string>)
      ensures Valid()
      ensures this.editId == editId && draft == EmptyDraft()
      ensures !loading && error.None? && success.None?
    {
      this.editId := editId;
      draft := EmptyDraft();
      loading := false;
      error := None;
      success := None;
    }

    /** The submit button is disabled while saving and while the upload gate is closed. */
    predicate SubmitButtonEnabled()
      reads this
      ensures loading ==> !SubmitButtonEnabled()
      ensures SubmitButtonEnabled() ==> |draft.newImages| > 0 && draft.title != ""
    {
      !loading && UploadEnabled(draft)
    }

    /** `fetchProduct`, run when editing; `fetched` is `None` when the request failed. */
    method FetchProduct(fetched: Option<Product>)
      requires Valid() && editId.Some?
      modifies this
      ensures Valid() && !loading && success == old(success)
      ensures fetched.None? ==> draft == old(draft) && error == Some(FetchFailedText)
      ensures fetched.Some? ==>
        var p := fetched.value;
        && error == old(error)
        && draft == Draft(
             p.title, p.description, p.productType,
             p.category.GetOr(""), p.subCategory.GetOr(""), p.brand.GetOr(""),
             if |p.variants| > 0 then p.variants else [BlankVariant()],
             old(draft.newImages),
             KeptImages(p.images),
             ShowKeywords(p.keywords),
             p.isFeatured, p.isNewArrival, p.isBestSeller, p.isOutOfStock)
    {
      loading := true;
      match fetched
      case None =>
        error := Some(FetchFailedText);
        loading := false;
      case Some(p) =>
        var current := CollectExistingImages(p.images);
        draft := Draft(
          p.title, p.description, p.productType,
          p.category.GetOr(""), p.subCategory.GetOr(""), p.brand.GetOr(""),
          if |p.variants| > 0 then p.variants else [BlankVariant()],
          draft.newImages,
          current,
          ShowKeywords(p.keywords),
          p.isFeatured, p.isNewArrival, p.isBestSeller, p.isOutOfStock);
        loading := false;
    }

    /** `handleVariantChange(index, field, value)`. */
    method HandleVariantChange(index: nat, e: VariantEdit)
      requires Valid() && index < |draft.variants|
      modifies this
      ensures Valid()
      ensures draft == old(draft).(variants := UpdateVariant(old(draft.variants), index, e))
      ensures loading == old(loading) && error == old(error) && success == old(success)
    {
      draft := draft.(variants := UpdateVariant(draft.variants, index, e));
    }

    /** `addVariant`: one blank variant at the end. */
    method AddVariant()
      requires Valid()
      modifies this
      ensures Valid()
      ensures draft == old(draft).(variants := old(draft.variants) + [BlankVariant()])
      ensures loading == old(loading) && error == old(error) && success == old(success)
    {
      draft := draft.(variants := draft.variants + [BlankVariant()]);
    }

    /** `removeVariant(index)`; the remove button exists only when there is more than one
        variant, one button per row. */
    method RemoveVariant(index: nat)
      requires Valid() && |draft.variants| > 1 && index < |draft.variants|
      modifies this
      ensures Valid() && |draft.variants| == |old(draft.variants)| - 1
      ensures draft == old(draft).(variants := RemoveAt(old(draft.variants), index))
      ensures loading == old(loading) && error == old(error) && success == old(success)
    {
      draft := draft.(variants := RemoveAt(draft.variants, index));
    }

    /** `handleImageChange`: the chosen files replace the new images. */
    method HandleImageChange(files: seq<File>)
      requires Valid()
      modifies this
      ensures Valid()
      ensures draft == old(draft).(newImages := files)
      ensures loading == old(loading) && error == old(error) && success == old(success)
    {
      draft := draft.(newImages := files);
    }

    /** `removeExistingImage(publicId)`. */
    method RemoveExistingImage(publicId: string)
      requires Valid()
      modifies this
      ensures Valid()
      ensures draft == old(draft).(existingImages := WithoutPublicId(old(draft.existingImages), publicId))
      ensures loading == old(loading) && error == old(error) && success == old(success)
    {
      draft := draft.(existingImages := WithoutPublicId(draft.existingImages, publicId));
    }

    /** `handleSubmit`: sends the draft and, on `outcome`, applies the reset/keep policy: a
        successful add resets the draft, a successful edit keeps it, a failure keeps it and
        reports the backend's message or a fixed text; loading always ends. */
    method HandleSubmit(outcome: Outcome) returns (request: ProductRequest)
      requires Valid() && SubmitButtonEnabled()
      modifies this
      ensures Valid() && !loading
      ensures request.payload.title != "" && request.payload.description != ""
              && request.payload.productType != ""
              && |request.payload.variants| > 0 && |request.payload.images| > 0
      ensures request == if editId.Some? then EditProduct(editId.value, Payload(old(draft)))
                         else AddProduct(Payload(old(draft)))
      ensures outcome.Succeeded? && editId.None? ==>
                draft == EmptyDraft() && success == Some(AddedText) && error.None?
                && !SubmitButtonEnabled()
      ensures outcome.Succeeded? && editId.Some? ==>
                draft == old(draft) && success == Some(UpdatedText) && error.None?
      ensures outcome.Failed? ==>
                draft == old(draft) && success.None?
                && error == Some(MessageOr(outcome.message, SaveFailedText))
    {
      var payload := Payload(draft);
      OpenGateSendsCompletePayload(draft);
      request := if editId.Some? then EditProduct(editId.value, payload) else AddProduct(payload);
      loading := true;
      error := None;
      success := None;
      if outcome.Succeeded? {
        if editId.Some? {
          success := Some(UpdatedText);
        } else {
          success := Some(AddedText);
          draft := EmptyDraft();
          ResetDraftDisablesUpload();
        }
      } else {
        error := Some(MessageOr(outcome.message, SaveFailedText));
      }
      loading := false;
    }
  }

  /** After a successful add the form cannot be submitted again until it is refilled. */
  lemma ResetDraftDisablesUpload()
    ensures !UploadEnabled(EmptyDraft())
  {
  }
}
