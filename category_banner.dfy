/** The category banner form: a title, an image and one of the product types, sent with the
    type "category". */
module CategoryBannerForm {
  import opened Common
  import opened Catalog
  import BannersDisplay

  /** The type every category banner is sent with. */
  const Kind := "category"

  datatype CategoryBannerRequest =
    CategoryBannerRequest(kind: string, title: string, categoryType: string, image: File)

  /** The guard of `handleSubmit` and what it sends: nothing unless the title, the image and
      the category type are all given. */
  function Validate(title: string, image: Option<File>, categoryType: string)
    : (r: Option<CategoryBannerRequest>)
    ensures r.Some? <==> title != "" && image.Some? && categoryType != ""
    ensures r.Some? ==> r.value == CategoryBannerRequest(Kind, title, categoryType, image.value)
  {
    if title == "" || image.None? || categoryType == "" then None
    else Some(CategoryBannerRequest(Kind, title, categoryType, image.value))
  }

  /** The category type list: an empty placeholder, then the available product types in
      order. */
  function CategoryOptions(productTypes: seq<string>): (r: seq<string>)
    ensures |r| == |productTypes| + 1 && r[0] == ""
    ensures forall i :: 0 <= i < |productTypes| ==> r[i + 1] == productTypes[i]
  {
    [""] + productTypes
  }

  /** Choosing the placeholder leaves the form unsendable. */
  lemma PlaceholderIsNoCategory(title: string, image: Option<File>, productTypes: seq<string>)
    ensures Validate(title, image, CategoryOptions(productTypes)[0]).None?
  {
  }

  /** A category banner as stored is listed in the category section and in no other. */
  lemma SentTypeIsCategorySection(all: seq<Banner>, b: Banner)
    requires b in all && b.kind == Kind
    ensures var lists := BannersDisplay.Partition(all);
            b in lists.category && b !in lists.home && b !in lists.offer
            && b !in lists.productType
  {
  }

  class CategoryBanner {
    var title: string
    var image: Option<File>
    var selectedCategoryType: string

    constructor ()
      ensures title == "" && image.None? && selectedCategoryType == ""
    {
      title := "";
      image := None;
      selectedCategoryType := "";
    }

    /** The file input: the first chosen file, or none when the choice is empty. */
    method HandleImageChange(files: seq<File>)
      modifies this
      ensures image == FirstFile(files)
      ensures title == old(title) && selectedCategoryType == old(selectedCategoryType)
    {
      image := FirstFile(files);
    }

    /** `handleSubmit`. Unless all three fields are given nothing is sent. Otherwise the
        request is sent; on success the parent's banner list is fetched again and the three
        fields are cleared, on failure they stay and nothing is fetched. */
    method HandleSubmit(outcome: Outcome)
      returns (request: Option<CategoryBannerRequest>, refetched: bool)
      modifies this
      ensures request == Validate(old(title), old(image), old(selectedCategoryType))
      ensures refetched <==> request.Some? && outcome.Succeeded?
      ensures refetched ==> title == "" && image.None? && selectedCategoryType == ""
      ensures !refetched ==> title == old(title) && image == old(image)
                             && selectedCategoryType == old(selectedCategoryType)
    {
      request := Validate(title, image, selectedCategoryType);
      refetched := false;
      if request.None? {
        return;
      }
      if outcome.Succeeded? {
        refetched := true;
        title := "";
        image := None;
        selectedCategoryType := "";
      }
    }
  }
}
