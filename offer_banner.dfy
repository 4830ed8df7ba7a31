/** The offer banner form: an image and a title, sent with the type "offer". */
module OfferBannerForm {
  import opened Common
  import opened Catalog
  import BannersDisplay

  /** The type every offer banner is sent with. */
  const Kind := "offer"

  datatype OfferBannerRequest = OfferBannerRequest(kind: string, image: File, title: string)

  /** The guard of `handleSubmit` and what it sends: nothing unless both the image and the
      title are given. */
  function Validate(image: Option<File>, title: string): (r: Option<OfferBannerRequest>)
    ensures r.Some? <==> image.Some? && title != ""
    ensures r.Some? ==> r.value == OfferBannerRequest(Kind, image.value, title)
  {
    if image.None? || title == "" then None else Some(OfferBannerRequest(Kind, image.value, title))
  }

  /** An offer banner as stored is listed in the offer section and in no other section. */
  lemma SentTypeIsOfferSection(all: seq<Banner>, b: Banner)
    requires b in all && b.kind == Kind
    ensures var lists := BannersDisplay.Partition(all);
            b in lists.offer && b !in lists.home && b !in lists.category
            && b !in lists.productType
  {
  }

  class OfferBanner {
    var image: Option<File>
    var title: string

    constructor ()
      ensures image.None? && title == ""
    {
      image := None;
      title := "";
    }

    /** The file input: the first chosen file, or none when the choice is empty. */
    method HandleImageChange(files: seq<File>)
      modifies this
      ensures image == FirstFile(files) && title == old(title)
    {
      image := FirstFile(files);
    }

    /** `handleSubmit`. Unless image and title are both given nothing is sent. Otherwise the
        request is sent; on success the parent's banner list is fetched again and title and
        image are cleared, on failure both stay and nothing is fetched. */
    method HandleSubmit(outcome: Outcome) returns (request: Option<OfferBannerRequest>, refetched: bool)
      modifies this
      ensures request == Validate(old(image), old(title))
      ensures refetched <==> request.Some? && outcome.Succeeded?
      ensures refetched ==> image.None? && title == ""
      ensures !refetched ==> image == old(image) && title == old(title)
    {
      request := Validate(image, title);
      refetched := false;
      if request.None? {
        return;
      }
      if outcome.Succeeded? {
        refetched := true;
        title := "";
        image := None;
      }
    }
  }
}
