/** The product-type banner form: product title, price, old price, discount, size, product
    type and an image, with an `uploading` flag held while the request is outstanding. */
module ProductTypeBannerForm {
  import opened Common
  import opened Catalog

  /** The form's texts as typed; price, old price and discount are number inputs, whose
      value is a string and empty when nothing is typed. */
  datatype Fields = Fields(productTitle: string, price: string, oldPrice: string,
                           discountPercent: string, size: string, productType: string)

  function EmptyFields(): (f: Fields)
    ensures f.productTitle == "" && f.price == "" && f.oldPrice == ""
    ensures f.discountPercent == "" && f.size == "" && f.productType == ""
  {
    Fields("", "", "", "", "", "")
  }

  /** What the form sends. */
  datatype ProductTypeBannerRequest = ProductTypeBannerRequest(fields: Fields, image: File)

  /** The guard of `handleSubmit` and what it sends: nothing unless the image, product
      title, price, product type and size are all given; old price and discount may be
      empty. */
  function Validate(f: Fields, image: Option<File>): (r: Option<ProductTypeBannerRequest>)
    ensures r.Some? <==> image.Some? && f.productTitle != "" && f.price != ""
                         && f.productType != "" && f.size != ""
    ensures r.Some? ==> r.value == ProductTypeBannerRequest(f, image.value)
  {
    if image.None? || f.productTitle == "" || f.price == "" || f.productType == "" || f.size == ""
    then None
    else Some(ProductTypeBannerRequest(f, image.value))
  }

  /** Old price and discount never decide whether the form may be sent. */
  lemma OptionalFieldsDoNotMatter(f: Fields, image: Option<File>, oldPrice: string, discount: string)
    ensures Validate(f.(oldPrice := oldPrice, discountPercent := discount), image).Some?
            <==> Validate(f, image).Some?
  {
  }

  class ProductTypeBanner {
    var fields: Fields
    var image: Option<File>
    /** The preview shown under the file input: the chosen file's object URL. */
    var preview: Option<File>
    var uploading: bool

    /** The preview always shows the chosen image. */
    ghost predicate Valid()
      reads this
    {
      preview == image
    }

    constructor ()
      ensures Valid() && fields == EmptyFields() && image.None? && !uploading
    {
      fields := EmptyFields();
      image := None;
      preview := None;
      uploading := false;
    }

    /** The submit button is disabled while uploading. */
    predicate SubmitEnabled()
      reads this
      ensures SubmitEnabled() <==> !uploading
    {
      !uploading
    }

    /** `handleImageChange`: a chosen file becomes the image and its preview; an empty
        choice leaves both as they were. */
    method HandleImageChange(files: seq<File>)
      requires Valid()
      modifies this
      ensures Valid()
      ensures image == (if files == [] then old(image) else Some(files[0]))
      ensures fields == old(fields) && uploading == old(uploading)
    {
      if |files| > 0 {
        var file := files[0];
        image := Some(file);
        preview := Some(file);
      }
    }

    /** The first half of `handleSubmit`, up to the request: an incomplete form sends
        nothing and changes nothing; a complete one sends its fields and image and sets
        `uploading`. */
    method BeginSubmit() returns (request: Option<ProductTypeBannerRequest>)
      requires Valid() && SubmitEnabled()
      modifies this
      ensures Valid()
      ensures request == Validate(old(fields), old(image))
      ensures uploading <==> request.Some?
      ensures fields == old(fields) && image == old(image)
    {
      request := Validate(fields, image);
      if request.Some? {
        uploading := true;
      }
    }

    /** The second half of `handleSubmit`, once the request has come back: success clears
        every field, the image and the preview, failure keeps them; `uploading` ends either
        way. */
    method FinishSubmit(outcome: Outcome)
      requires Valid() && uploading
      modifies this
      ensures Valid() && !uploading
      ensures outcome.Succeeded? ==> fields == EmptyFields() && image.None?
      ensures outcome.Failed? ==> fields == old(fields) && image == old(image)
    {
      if outcome.Succeeded? {
        fields := EmptyFields();
        image := None;
        preview := None;
      }
      uploading := false;
    }
  }

  /** A successful upload leaves a form that cannot be sent again as it is. */
  lemma ClearedFormIsIncomplete()
    ensures Validate(EmptyFields(), None).None?
  {
  }
}
