/** The home banner form: one image, sent with the type "homebanner". */
module HomeBannerForm {
  import opened Common
  import opened Catalog
  import BannersDisplay

  /** The type every home banner is sent with. */
  const Kind := "homebanner"

  datatype HomeBannerRequest = HomeBannerRequest(kind: string, image: File)

  /** The guard of `handleSubmit` and what it sends: nothing without an image. */
  function Validate(image: Option<File>): (r: Option<HomeBannerRequest>)
    ensures r.Some? <==> image.Some?
    ensures r.Some? ==> r.value == HomeBannerRequest(Kind, image.value)
  {
    if image.None? then None else Some(HomeBannerRequest(Kind, image.value))
  }

  /** A home banner as stored is listed in the home section of the all-banners page and in
      no other section. */
  lemma SentTypeIsHomeSection(all: seq<Banner>, b: Banner)
    requires b in all && b.kind == Kind
    ensures var lists := BannersDisplay.Partition(all);
            b in lists.home && b !in lists.offer && b !in lists.category
            && b !in lists.productType
  {
  }

  class HomeBanner {
    var image: Option<File>

    constructor ()
      ensures image.None?
    {
      image := None;
    }

    /** `handleImageChange`: the first chosen file, or none when the choice is empty. */
    method HandleImageChange(files: seq<File>)
      modifies this
      ensures image == FirstFile(files)
    {
      image := FirstFile(files);
    }

    /** `handleSubmit`. Without an image nothing is sent. Otherwise the request is sent; on
        success the parent's banner list is fetched again (`refetched`) and the image is
        cleared, on failure the image stays and nothing is fetched. */
    method HandleSubmit(outcome: Outcome) returns (request: Option<HomeBannerRequest>, refetched: bool)
      modifies this
      ensures request == Validate(old(image))
      ensures refetched <==> request.Some? && outcome.Succeeded?
      ensures image == if refetched then None else old(image)
    {
      request := Validate(image);
      refetched := false;
      if request.None? {
        return;
      }
      if outcome.Succeeded? {
        refetched := true;
        image := None;
      }
    }
  }
}
